/** Reading a Member tree back out of its compiled form (copy_tree and the
  * TypeDef constructor from a Value in type.cpp). The source walks every
  * member list through the slot pointer it was given, so it reads Union
  * alternatives and the element of a Struct or Union array from the wrong
  * place; both the code as written and a corrected reading are modelled. */
module CopyTree {
  import opened Errors
  import opened TypeCodes
  import opened Members
  import opened Shape
  import opened FieldDescs
  import opened Compiler
  import opened Layout

  /** How a run of copy_tree ends. The source has no guard against an
    * offset past the end of the array (`OutOfRange`) or a cycle
    * (`OutOfFuel`: the recursion ran out of the fuel the model gives it). */
  datatype Copy = Copied(m: Member) | Thrown(e: Error) | OutOfRange | OutOfFuel

  /** copy_tree as written: the node takes the slot's code and id, and
    * each `miter` entry becomes a child created by the two-argument Member
    * constructor (which checks the name), read at the entry's offset from
    * the same slot, whatever the slot's code. */
  function CopyTreeAsWritten(arr: seq<FieldDesc>, name: string, fuel: nat): Copy
    requires |arr| >= 1
    decreases fuel, 0
  {
    if fuel == 0 then OutOfFuel
    else CopyKidsAsWritten(arr, 0, fuel - 1, Member(arr[0].code, name, arr[0].id, []))
  }

  /** The loop of copy_tree from `miter` entry `k` on; `acc` is the node
    * with the children copied so far. */
  function CopyKidsAsWritten(arr: seq<FieldDesc>, k: nat, fuel: nat, acc: Member): Copy
    requires |arr| >= 1
    decreases fuel, 1, |arr[0].miter| - k
  {
    if k >= |arr[0].miter| then Copied(acc)
    else
      var (n, off) := arr[0].miter[k];
      if off >= |arr| then OutOfRange
      else match MemberOf(arr[off].code, n, "", [])
        case Err(e) => Thrown(e)
        case Ok(_) =>
          match CopyTreeAsWritten(arr[off..], n, fuel)
          case Copied(c) => CopyKidsAsWritten(arr, k + 1, fuel, acc.(children := acc.children + [c]))
          case other => other
  }

  /** copy_tree as evidently intended: a Struct's members are read from
    * the array the Struct's slot is in, a Union's alternatives from the
    * slot's own `members`, and the array of a Struct or Union from the
    * element type wrapped in `members`. Offsets that point nowhere are
    * reported rather than followed. */
  function CopyTree(arr: seq<FieldDesc>, name: string): Result<Member>
    requires |arr| >= 1
    decreases arr, 1
  {
    var fd := arr[0];
    if IsCompoundArray(fd.code) then
      if |fd.members| == 0 then Err(BrokenLayout)
      else match CopyTree(fd.members, name)
        case Err(e) => Err(e)
        case Ok(el) => Ok(el.(code := fd.code))
    else CopyKids(arr, 0, Member(fd.code, name, fd.id, []))
  }

  /** The corrected loop over `miter`, from entry `k` on. */
  function CopyKids(arr: seq<FieldDesc>, k: nat, acc: Member): Result<Member>
    requires |arr| >= 1
    decreases arr, 0, |arr[0].miter| - k
  {
    if k >= |arr[0].miter| then Ok(acc)
    else
      var (n, off) := arr[0].miter[k];
      var src := if arr[0].code == Struct then arr else arr[0].members;
      if (arr[0].code == Struct && off == 0) || off >= |src| then Err(BrokenLayout)
      else match MemberOf(src[off].code, n, "", [])
        case Err(e) => Err(e)
        case Ok(_) =>
          match CopyTree(src[off..], n)
          case Err(e) => Err(e)
          case Ok(c) => CopyKids(arr, k + 1, acc.(children := acc.children + [c]))
  }

  /** Every member name below `node` is one the Member constructor takes,
    * as in any tree built through it. */
  predicate NamesAccepted(node: Member) {
    forall k :: 0 <= k < |node.children| ==>
      NameAccepted(node.children[k].name) && NamesAccepted(node.children[k])
  }

  /** The corrected copy inverts compilation: reading back any array that
    * describes `node` gives `node` itself. */
  lemma {:induction false} CopyTreeRoundTrip(node: Member, arr: seq<FieldDesc>, h: Hasher)
    requires Describes(node, arr, h) && NamesAccepted(node)
    ensures CopyTree(arr, node.name) == Ok(node)
    decreases node.children, if IsCompoundArray(node.code) then 2 else 1
  {
    if IsCompoundArray(node.code) {
      var el := Element(node);
      assert NamesAccepted(el);
      CopyTreeRoundTrip(el, arr[0].members, h);
    } else {
      CopyKidsRoundTrip(node, arr, h, 0);
      assert node.(children := node.children[..0]) == Member(arr[0].code, node.name, arr[0].id, []);
    }
  }

  lemma {:induction false} CopyKidsRoundTrip(node: Member, arr: seq<FieldDesc>, h: Hasher, k: nat)
    requires !IsCompoundArray(node.code) && Describes(node, arr, h) && NamesAccepted(node)
    requires k <= |node.children|
    ensures CopyKids(arr, k, node.(children := node.children[..k])) == Ok(node)
    decreases node.children, 0, |node.children| - k, 1
  {
    var n := |node.children|;
    EntriesLength(node, n);
    if k == n {
      assert node.children[..k] == node.children;
    } else {
      KidCopied(node, arr, h, k);
      assert node.children[..k] + [node.children[k]] == node.children[..k + 1];
      CopyKidsRoundTrip(node, arr, h, k + 1);
    }
  }

  /** Entry `k` of `miter` points at a slot of the array the corrected copy
    * reads from, and child `k` is read back from it. */
  lemma KidCopied(node: Member, arr: seq<FieldDesc>, h: Hasher, k: nat)
    requires !IsCompoundArray(node.code) && Describes(node, arr, h) && NamesAccepted(node)
    requires k < |node.children|
    ensures var c, off := node.children[k], Offset(node, k);
      var src := if node.code == Struct then arr else arr[0].members;
      && k < |arr[0].miter| && arr[0].miter[k] == (c.name, off)
      && (node.code == Struct ==> off != 0) && off < |src|
      && MemberOf(src[off].code, c.name, "", []).Ok?
      && CopyTree(src[off..], c.name) == Ok(c)
    decreases node.children, 0, |node.children| - k, 0
  {
    var n := |node.children|;
    EntriesLength(node, n);
    EntryAt(node, n, k);
    var src := if node.code == Struct then arr else arr[0].members;
    KidAt(node, src, n, k, h);
    var off, c := Offset(node, k), node.children[k];
    assert node.code == Struct ==> off >= 1;
    CopyTreeRoundTrip(c, src[off..], h);
  }

  /** A compiled Union lists its first alternative at offset 0 of its own
    * `members`; read from the Union's slot instead, offset 0 is the Union
    * itself, so copy_tree as written recurses into the same slot forever. */
  lemma UnionCopyDiverges(node: Member, arr: seq<FieldDesc>, h: Hasher, fuel: nat)
    requires node.code == Union && |node.children| >= 1 && NameAccepted(node.children[0].name)
    requires Describes(node, arr, h)
    ensures CopyTreeAsWritten(arr, node.name, fuel) == OutOfFuel
  {
    EntryAt(node, |node.children|, 0);
    SelfLoopDiverges(arr, node.name, fuel);
  }

  lemma {:induction false} SelfLoopDiverges(arr: seq<FieldDesc>, name: string, fuel: nat)
    requires |arr| >= 1 && |arr[0].miter| >= 1 && arr[0].miter[0].1 == 0
    requires NameAccepted(arr[0].miter[0].0)
    ensures CopyTreeAsWritten(arr, name, fuel) == OutOfFuel
    decreases fuel
  {
    if fuel > 0 {
      assert arr[0..] == arr;
      SelfLoopDiverges(arr, arr[0].miter[0].0, fuel - 1);
    }
  }

  /** The wrapper slot of a Struct or Union array has no `miter` and no id,
    * so copy_tree as written returns a bare array: the element's id and
    * members are lost. */
  lemma ArrayCopyDropsElement(node: Member, h: Hasher, name: string, fuel: nat)
    requires IsCompoundArray(node.code) && fuel >= 1
    ensures CopyTreeAsWritten(Compile(node, h), name, fuel) == Copied(Member(node.code, name, "", []))
  {
    CompoundArrayWraps(node, h);
  }

  /** A tree in which only Structs have members, and no node is a Struct or
    * Union array. */
  predicate PlainStructs(node: Member) {
    && !IsCompoundArray(node.code)
    && (node.code == Struct || node.children == [])
    && forall k :: 0 <= k < |node.children| ==> PlainStructs(node.children[k])
  }

  /** On such trees copy_tree as written is right, given as much fuel as the
    * tree has slots: it agrees with the corrected copy. */
  lemma {:induction false} CopyPlainStructs(node: Member, arr: seq<FieldDesc>, h: Hasher, fuel: nat)
    requires Describes(node, arr, h) && NamesAccepted(node) && PlainStructs(node)
    requires fuel >= Size(node)
    ensures CopyTreeAsWritten(arr, node.name, fuel) == Copied(node)
    decreases node.children, 1
  {
    CopyPlainKids(node, arr, h, fuel - 1, 0);
    assert node.(children := node.children[..0]) == Member(arr[0].code, node.name, arr[0].id, []);
  }

  lemma {:induction false} CopyPlainKids(node: Member, arr: seq<FieldDesc>, h: Hasher, fuel: nat, k: nat)
    requires Describes(node, arr, h) && NamesAccepted(node) && PlainStructs(node)
    requires fuel + 1 >= Size(node) && k <= |node.children|
    ensures CopyKidsAsWritten(arr, k, fuel, node.(children := node.children[..k])) == Copied(node)
    decreases node.children, 0, |node.children| - k, 1
  {
    var n := |node.children|;
    EntriesLength(node, n);
    if k == n {
      assert node.children[..k] == node.children;
    } else {
      PlainKidCopied(node, arr, h, fuel, k);
      assert node.children[..k] + [node.children[k]] == node.children[..k + 1];
      CopyPlainKids(node, arr, h, fuel, k + 1);
    }
  }

  /** Entry `k` of a plain Struct's `miter` points at a slot inside the
    * array from which copy_tree as written reads child `k` back. */
  lemma PlainKidCopied(node: Member, arr: seq<FieldDesc>, h: Hasher, fuel: nat, k: nat)
    requires Describes(node, arr, h) && NamesAccepted(node) && PlainStructs(node)
    requires fuel + 1 >= Size(node) && k < |node.children|
    ensures var c, off := node.children[k], Offset(node, k);
      && k < |arr[0].miter| && arr[0].miter[k] == (c.name, off) && off < |arr|
      && MemberOf(arr[off].code, c.name, "", []).Ok?
      && CopyTreeAsWritten(arr[off..], c.name, fuel) == Copied(c)
    decreases node.children, 0, |node.children| - k, 0
  {
    var n := |node.children|;
    EntriesLength(node, n);
    EntryAt(node, n, k);
    KidAt(node, arr, n, k, h);
    var off, c := Offset(node, k), node.children[k];
    StructSpans(node, k);
    OffsetGrows(node, k + 1, n);
    CopyPlainStructs(c, arr[off..], h, fuel);
  }

  /** TypeDef(const Value&) as written: the root is built with the
    * two-argument Member constructor, which takes the slot's id as the
    * field NAME and checks it as one, before copying the tree. */
  function RootAsWritten(arr: seq<FieldDesc>, fuel: nat): Copy
    requires |arr| >= 1
  {
    match MemberOf(arr[0].code, arr[0].id, "", [])
    case Err(e) => Thrown(e)
    case Ok(_) => CopyTreeAsWritten(arr, arr[0].id, fuel)
  }

  /** An id that is not a field name, such as any id with a ':' or '/',
    * makes the constructor throw before anything is copied. */
  lemma RootAsWrittenRejectsIds(arr: seq<FieldDesc>, fuel: nat)
    requires |arr| >= 1 && !NameAccepted(arr[0].id)
    ensures RootAsWritten(arr, fuel) == Thrown(NameCheck(arr[0].id).error)
  {
  }

  /** Hence an array compiled from a tree whose type id is not a field
    * name cannot be read back as written. */
  lemma CompiledIdRejected(node: Member, h: Hasher, fuel: nat)
    requires !IsCompoundArray(node.code) && !NameAccepted(node.id)
    ensures RootAsWritten(Compile(node, h), fuel) == Thrown(NameCheck(node.id).error)
  {
    assert Describes(node, Compile(node, h), h);
  }

  /** The root as evidently intended: an unnamed Member carrying the
    * slot's id, then the corrected copy. */
  function Root(arr: seq<FieldDesc>): Result<Member>
    requires |arr| >= 1
  {
    CopyTree(arr, "")
  }

  /** The corrected root reading gives back every unnamed tree its array
    * was compiled from. */
  lemma RootRoundTrip(node: Member, h: Hasher)
    requires node.name == "" && NamesAccepted(node)
    ensures Root(Compile(node, h)) == Ok(node)
  {
    assert Describes(node, Compile(node, h), h);
    CopyTreeRoundTrip(node, Compile(node, h), h);
  }
}
