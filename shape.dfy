/** The shape of the compiled form of a Member tree, stated over the tree
  * alone: how many slots a subtree takes and where each child lands. */
module Shape {
  import opened TypeCodes
  import opened Members

  /** The number of slots `node` takes in the array it is compiled into:
    * its own slot plus its children's subtrees for a Struct, one slot for
    * everything else (FieldDesc::size()). */
  function Size(node: Member): (r: nat)
    ensures r >= 1
    decreases node.children, 1
  {
    if node.code == Struct then 1 + SizeSum(node.children, |node.children|) else 1
  }

  /** The slots taken by the first `i` of a run of sibling subtrees. */
  function SizeSum(cs: seq<Member>, i: nat): nat
    requires i <= |cs|
    decreases cs, 0, i
  {
    if i == 0 then 0 else SizeSum(cs, i - 1) + Size(cs[i - 1])
  }

  /** Where a node's first child goes: right after the node's own slot
    * for a Struct, at the start of the node's `members` otherwise. */
  function Base(code: TypeCode): nat {
    if code == Struct then 1 else 0
  }

  /** The relative offset of child `k` of a node that is not a Struct or
    * Union array: in the node's own array for a Struct, in its `members`
    * otherwise. */
  function Offset(node: Member, k: nat): nat
    requires k <= |node.children|
  {
    Base(node.code) + SizeSum(node.children, k)
  }

  /** The `miter` entries of the first `i` children of `node`: each
    * child's name with its offset, in declaration order. */
  function Entries(node: Member, i: nat): seq<(string, nat)>
    requires i <= |node.children|
  {
    if i == 0 then [] else Entries(node, i - 1) + [(node.children[i - 1].name, Offset(node, i - 1))]
  }

  /** Entries lists the first `i` children, one entry each. */
  lemma {:induction false} EntriesLength(node: Member, i: nat)
    requires i <= |node.children|
    ensures |Entries(node, i)| == i
  {
    if i > 0 {
      EntriesLength(node, i - 1);
    }
  }

  /** Entry `k` of Entries names child `k` and gives its offset. */
  lemma {:induction false} EntryAt(node: Member, i: nat, k: nat)
    requires k < i <= |node.children|
    ensures |Entries(node, i)| == i && Entries(node, i)[k] == (node.children[k].name, Offset(node, k))
  {
    EntriesLength(node, i - 1);
    if k < i - 1 {
      EntryAt(node, i - 1, k);
    }
  }
}
