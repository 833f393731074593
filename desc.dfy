/** The compiled form of a field (FieldDesc, declared in a header that is
  * not part of this model) and what its slots say about the Member tree
  * they were compiled from. */
module FieldDescs {
  import opened TypeCodes
  import opened Members
  import opened Hashing
  import opened Shape

  /** std::hash<std::string>: the model never looks inside it. */
  type Hasher = string -> Hash

  /** One compiled field. `parentIndex` is the distance back to the slot of
    * the enclosing Struct; `mlookup` maps (dotted) member names to relative
    * offsets; `miter` lists the direct members in declaration order; and
    * `members` holds the nested array of a Union's alternatives or of the
    * element type of a Struct or Union array. */
  datatype FieldDesc = FieldDesc(
    code: TypeCode,
    id: string,
    parentIndex: nat,
    hash: Hash,
    mlookup: map<string, nat>,
    miter: seq<(string, nat)>,
    members: seq<FieldDesc>)

  /** The two codes compiled as a wrapper around a nested element type. */
  predicate IsCompoundArray(c: TypeCode) {
    c == StructA || c == UnionA
  }

  /** The element type a Struct or Union array is compiled around: the
    * scalar code with the array's name, id and children. */
  function Element(node: Member): Member {
    Member(node.code.ScalarOf(), node.name, node.id, node.children)
  }

  /** A freshly emplaced slot once its code, id and hash are set. */
  function Slot(code: TypeCode, id: string, hash: Hash): FieldDesc {
    FieldDesc(code, id, 0, hash, map[], [], [])
  }

  /** Compiled slots moved under a Struct: the first records the distance
    * back to its parent. */
  function Placed(cs: seq<FieldDesc>, off: nat): seq<FieldDesc>
    requires |cs| >= 1
  {
    [cs[0].(parentIndex := off)] + cs[1..]
  }

  /** The entries of a sub-struct's lookup table re-keyed under
    * "name." and shifted by the sub-struct's offset. */
  function Dotted(name: string, off: nat, lookup: map<string, nat>): map<string, nat> {
    PrefixInjective(name + ".");
    map k | k in lookup :: name + "." + k := off + lookup[k]
  }

  lemma PrefixInjective(p: string)
    ensures forall k1: string, k2: string {:trigger p + k1, p + k2} :: p + k1 == p + k2 ==> k1 == k2
  {
    forall k1: string, k2: string | p + k1 == p + k2 ensures k1 == k2 {
      assert k1 == (p + k1)[|p|..];
      assert k2 == (p + k2)[|p|..];
    }
  }

  // ---------------------------------------------------------------------
  // Reference definitions over the Member tree.

  /** The lookup table of the slot compiled for `node`: empty for the
    * wrapper of a Struct or Union array. */
  function LookupOf(node: Member): map<string, nat>
    decreases node.children, 1
  {
    if IsCompoundArray(node.code) then map[] else LookupUpTo(node, |node.children|)
  }

  /** The lookup table once the first `i` children are registered: each
    * child's name at its offset and, for a Struct directly under a Struct,
    * the child's own entries re-keyed under "name.". */
  function LookupUpTo(node: Member, i: nat): map<string, nat>
    requires i <= |node.children|
    decreases node.children, 0, i
  {
    if i == 0 then map[]
    else
      var c, off := node.children[i - 1], Offset(node, i - 1);
      var m := LookupUpTo(node, i - 1)[c.name := off];
      if node.code == Struct && c.code == Struct then m + Dotted(c.name, off, LookupOf(c)) else m
  }

  /** The hash of the slot compiled for `node`: the code alone for the
    * wrapper of a Struct or Union array. */
  function HashOf(node: Member, h: Hasher): Hash
    decreases node.children, 1
  {
    if IsCompoundArray(node.code) then OfByte(node.code.code) else HashUpTo(node, |node.children|, h)
  }

  /** The hash once the first `i` children are folded in: the code and the
    * hash of the id, then each child's name hash and hash. */
  function HashUpTo(node: Member, i: nat, h: Hasher): Hash
    requires i <= |node.children|
    decreases node.children, 0, i
  {
    if i == 0 then Xor(OfByte(node.code.code), h(node.id))
    else
      var c := node.children[i - 1];
      Xor(Xor(HashUpTo(node, i - 1, h), h(c.name)), HashOf(c, h))
  }

  // ---------------------------------------------------------------------
  // What the slots describe.

  /** `arr`, read from its first slot, describes `node`: the slot has the
    * node's code, lookup table and hash; a Struct or Union array holds its
    * element in `members`; any other node has its id, lists its children in
    * `miter`, and each child is described at its offset, in the same array
    * for a Struct and in the slot's `members` otherwise. Only the first
    * Size(node) slots are read, and never the first slot's `parentIndex`. */
  predicate Describes(node: Member, arr: seq<FieldDesc>, h: Hasher)
    decreases node.children, if IsCompoundArray(node.code) then 2 else 1
  {
    && |arr| >= 1
    && arr[0].code == node.code
    && arr[0].mlookup == LookupOf(node)
    && arr[0].hash == HashOf(node, h)
    && if IsCompoundArray(node.code) then Describes(Element(node), arr[0].members, h)
       else
         && arr[0].id == node.id
         && arr[0].miter == Entries(node, |node.children|)
         && DescribesKids(node, if node.code == Struct then arr else arr[0].members, |node.children|, h)
  }

  /** The first `i` children of `node` are described in `src`, each at its
    * offset, and each child's slot records the distance back to the
    * parent's slot when the parent is a Struct (0 otherwise). */
  predicate DescribesKids(node: Member, src: seq<FieldDesc>, i: nat, h: Hasher)
    requires i <= |node.children|
    decreases node.children, 0, i
  {
    i == 0 ||
      (&& DescribesKids(node, src, i - 1, h)
       && Offset(node, i - 1) < |src|
       && src[Offset(node, i - 1)].parentIndex == (if node.code == Struct then Offset(node, i - 1) else 0)
       && Describes(node.children[i - 1], src[Offset(node, i - 1)..], h))
  }

  /** Slots appended after a description leave it intact. */
  lemma {:induction false} DescribesAppend(node: Member, xs: seq<FieldDesc>, ys: seq<FieldDesc>, h: Hasher)
    requires Describes(node, xs, h)
    ensures Describes(node, xs + ys, h)
    decreases node.children, if IsCompoundArray(node.code) then 2 else 1
  {
    assert (xs + ys)[0] == xs[0];
    if !IsCompoundArray(node.code) && node.code == Struct {
      KidsAppend(node, xs, ys, |node.children|, h);
    }
  }

  lemma {:induction false} KidsAppend(node: Member, xs: seq<FieldDesc>, ys: seq<FieldDesc>, i: nat, h: Hasher)
    requires i <= |node.children| && DescribesKids(node, xs, i, h)
    ensures DescribesKids(node, xs + ys, i, h)
    decreases node.children, 0, i
  {
    if i > 0 {
      KidsAppend(node, xs, ys, i - 1, h);
      var off := Offset(node, i - 1);
      assert (xs + ys)[off..] == xs[off..] + ys;
      DescribesAppend(node.children[i - 1], xs[off..], ys, h);
    }
  }

  /** A Struct's children sit after its slot, so changing that slot keeps
    * their descriptions. */
  lemma {:induction false} KidsBehindHead(node: Member, xs: seq<FieldDesc>, ys: seq<FieldDesc>, i: nat, h: Hasher)
    requires node.code == Struct && i <= |node.children|
    requires |xs| == |ys| >= 1 && xs[1..] == ys[1..]
    requires DescribesKids(node, xs, i, h)
    ensures DescribesKids(node, ys, i, h)
  {
    if i > 0 {
      KidsBehindHead(node, xs, ys, i - 1, h);
      var off := Offset(node, i - 1);
      assert ys[off..] == xs[off..] by {
        assert xs[off..] == xs[1..][off - 1..];
        assert ys[off..] == ys[1..][off - 1..];
      }
    }
  }

  /** A description does not depend on its first slot's parentIndex. */
  lemma DescribesPlaced(node: Member, cs: seq<FieldDesc>, off: nat, h: Hasher)
    requires Describes(node, cs, h)
    ensures Describes(node, Placed(cs, off), h)
  {
    if !IsCompoundArray(node.code) && node.code == Struct {
      KidsBehindHead(node, cs, Placed(cs, off), |node.children|, h);
    }
  }
}
