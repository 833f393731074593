/** Compilation of a Member tree into the flat, preorder FieldDesc array
  * (build_tree in type.cpp). Compile is the specification, BuildTree the
  * in-place algorithm, proved to append exactly Compile's result. */
module Compiler {
  import opened TypeCodes
  import opened Members
  import opened Hashing
  import opened Shape
  import opened FieldDescs

  /** The back-fill after a child was compiled: fold its name and hash into
    * the parent's hash, register it in `mlookup` and `miter`, and, for a
    * Struct directly under a Struct, lift its lookup entries as dotted
    * paths. */
  function Register(fld: FieldDesc, name: string, off: nat, child: FieldDesc, h: Hasher): FieldDesc {
    var lookup := fld.mlookup[name := off];
    fld.(hash := Xor(Xor(fld.hash, h(name)), child.hash),
         mlookup := if fld.code == Struct && fld.code == child.code then lookup + Dotted(name, off, child.mlookup) else lookup,
         miter := fld.miter + [(name, off)])
  }

  /** The back-fill after a Struct's child was compiled into `out` at
    * `cindex`: record the distance back to the Struct's slot at `index` in
    * the child's slot, then register the child in the Struct's slot. */
  function Adopt(out: seq<FieldDesc>, index: nat, cindex: nat, name: string, h: Hasher): seq<FieldDesc>
    requires index < cindex < |out|
  {
    var out2 := out[cindex := out[cindex].(parentIndex := cindex - index)];
    out2[index := Register(out2[index], name, cindex - index, out2[cindex], h)]
  }

  /** The back-fill after a child of a Union (or of a scalar, which has
    * none) was compiled into the node's own `members`, now `m`: the first
    * new slot is registered in the node's slot. */
  function Enroll(fld: FieldDesc, m: seq<FieldDesc>, name: string, h: Hasher): FieldDesc
    requires |fld.members| < |m|
  {
    Register(fld.(members := m), name, |fld.members|, m[|fld.members|], h)
  }

  /** The slot emplaced for a node that is not a Struct or Union array,
    * before any child: its hash mixes the code with the hash of its id. */
  function Seed(node: Member, h: Hasher): FieldDesc {
    Slot(node.code, node.id, Xor(OfByte(node.code.code), h(node.id)))
  }

  /** `cs` is the compiled form of `node`: Size(node) slots, the first
    * being the node's own, at the root of its subtree, with the node's
    * lookup table and hash, and describing the whole node. */
  predicate Compiled(node: Member, h: Hasher, cs: seq<FieldDesc>) {
    && |cs| == Size(node)
    && cs[0].code == node.code && cs[0].parentIndex == 0
    && cs[0].mlookup == LookupOf(node)
    && cs[0].hash == HashOf(node, h)
    && Describes(node, cs, h)
  }

  /** The slots build_tree appends for `node`. */
  function Compile(node: Member, h: Hasher): (r: seq<FieldDesc>)
    ensures Compiled(node, h, r)
    decreases node.children, if IsCompoundArray(node.code) then 2 else 1
  {
    if IsCompoundArray(node.code) then
      [Slot(node.code, "", OfByte(node.code.code)).(members := Compile(Element(node), h))]
    else
      Fill(node, |node.children|, h)
  }

  /** `r` is the compiled form of a node that is not a Struct or Union
    * array after its first `i` children: a Struct's slot followed by the
    * children's slots, anything else one slot holding them in `members`.
    * The node's slot keeps its code and id, is the root of its subtree,
    * lists the children in `miter`, registers them in its lookup table,
    * has folded their hashes into its own, and each child is described at
    * its offset. */
  predicate Shaped(node: Member, i: nat, h: Hasher, r: seq<FieldDesc>)
    requires i <= |node.children|
  {
    && |r| == (if node.code == Struct then 1 + SizeSum(node.children, i) else 1)
    && r[0].code == node.code && r[0].id == node.id && r[0].parentIndex == 0
    && |r[0].members| == (if node.code == Struct then 0 else SizeSum(node.children, i))
    && r[0].miter == Entries(node, i)
    && r[0].mlookup == LookupUpTo(node, i)
    && r[0].hash == HashUpTo(node, i, h)
    && DescribesKids(node, if node.code == Struct then r else r[0].members, i, h)
  }

  /** The slots of a node that is not a Struct or Union array once its
    * first `i` children were compiled and back-filled: a Struct's children
    * follow its slot in the same array, anything else holds them in its own
    * `members`. */
  function Fill(node: Member, i: nat, h: Hasher): (r: seq<FieldDesc>)
    requires i <= |node.children|
    ensures Shaped(node, i, h, r)
    decreases node.children, 0, i
  {
    if i == 0 then
      [Seed(node, h)]
    else
      var c, prev := node.children[i - 1], Fill(node, i - 1, h);
      if node.code == Struct then
        AdoptShaped(node, i, prev, Compile(c, h), h);
        Adopt(prev + Compile(c, h), 0, |prev|, c.name, h)
      else
        EnrollShaped(node, i, prev, Compile(c, h), h);
        [Enroll(prev[0], prev[0].members + Compile(c, h), c.name, h)]
  }

  /** Adopting child `i - 1` of a Struct extends the compiled form by one
    * child. */
  lemma AdoptShaped(node: Member, i: nat, prev: seq<FieldDesc>, cs: seq<FieldDesc>, h: Hasher)
    requires 0 < i <= |node.children| && node.code == Struct
    requires Shaped(node, i - 1, h, prev) && Compiled(node.children[i - 1], h, cs)
    ensures Shaped(node, i, h, Adopt(prev + cs, 0, |prev|, node.children[i - 1].name, h))
  {
    var r := Adopt(prev + cs, 0, |prev|, node.children[i - 1].name, h);
    AdoptHead(node, i, prev, cs, h);
    AdoptSlots(prev, cs, node.children[i - 1].name, h);
    AdoptKids(node, i, prev, cs, r, h);
  }

  /** The Struct's slot after adopting child `i - 1`. */
  lemma AdoptHead(node: Member, i: nat, prev: seq<FieldDesc>, cs: seq<FieldDesc>, h: Hasher)
    requires 0 < i <= |node.children| && node.code == Struct
    requires Shaped(node, i - 1, h, prev) && Compiled(node.children[i - 1], h, cs)
    ensures var r := Adopt(prev + cs, 0, |prev|, node.children[i - 1].name, h);
      && |r| == 1 + SizeSum(node.children, i)
      && r[0].code == node.code && r[0].id == node.id && r[0].parentIndex == 0
      && |r[0].members| == 0
      && r[0].miter == Entries(node, i)
      && r[0].mlookup == LookupUpTo(node, i)
      && r[0].hash == HashUpTo(node, i, h)
  {
    var c := node.children[i - 1];
    AdoptSlots(prev, cs, c.name, h);
    assert |prev| == Offset(node, i - 1);
  }

  /** The children's descriptions after adopting child `i - 1`: the
    * earlier children's slots are kept and the new child's follow, placed
    * at its offset. */
  lemma AdoptKids(node: Member, i: nat, prev: seq<FieldDesc>, cs: seq<FieldDesc>, r: seq<FieldDesc>, h: Hasher)
    requires 0 < i <= |node.children| && node.code == Struct
    requires |prev| == Offset(node, i - 1) && DescribesKids(node, prev, i - 1, h)
    requires Describes(node.children[i - 1], cs, h)
    requires |r| == |prev| + |cs| && r[1..|prev|] == prev[1..] && r[|prev|..] == Placed(cs, |prev|)
    ensures DescribesKids(node, r, i, h)
  {
    var c := node.children[i - 1];
    KidsAppend(node, prev, Placed(cs, |prev|), i - 1, h);
    SameTail(prev, Placed(cs, |prev|), r);
    KidsBehindHead(node, prev + Placed(cs, |prev|), r, i - 1, h);
    DescribesPlaced(c, cs, |prev|, h);
  }

  /** `r` agrees with `xs + ys` past their first element. */
  lemma SameTail<T>(xs: seq<T>, ys: seq<T>, r: seq<T>)
    requires |xs| >= 1 && |r| == |xs| + |ys|
    requires r[1..|xs|] == xs[1..] && r[|xs|..] == ys
    ensures r[1..] == (xs + ys)[1..]
  {
    assert r[1..] == r[1..|xs|] + r[|xs|..];
  }

  /** Enrolling child `i - 1` of any other node extends the compiled form
    * by one child. */
  lemma EnrollShaped(node: Member, i: nat, prev: seq<FieldDesc>, cs: seq<FieldDesc>, h: Hasher)
    requires 0 < i <= |node.children| && node.code != Struct
    requires Shaped(node, i - 1, h, prev) && Compiled(node.children[i - 1], h, cs)
    ensures Shaped(node, i, h, [Enroll(prev[0], prev[0].members + cs, node.children[i - 1].name, h)])
  {
    var ms := prev[0].members;
    KidsAppend(node, ms, cs, i - 1, h);
    assert (ms + cs)[Offset(node, i - 1)..] == cs;
  }

  /** Adopting the slots `cs` after `xs`: the parent's slot registers the
    * child, the earlier slots are kept and the child's slots follow, the
    * first recording its distance back. */
  lemma AdoptSlots(xs: seq<FieldDesc>, cs: seq<FieldDesc>, name: string, h: Hasher)
    requires |xs| >= 1 && |cs| >= 1
    ensures var r := Adopt(xs + cs, 0, |xs|, name, h);
      && |r| == |xs| + |cs|
      && r[0] == Register(xs[0], name, |xs|, cs[0].(parentIndex := |xs|), h)
      && r[1..|xs|] == xs[1..]
      && r[|xs|..] == [cs[0].(parentIndex := |xs|)] + cs[1..]
  {
    var r := Adopt(xs + cs, 0, |xs|, name, h);
    assert r[1..|xs|] == xs[1..];
    assert r[|xs|..] == [cs[0].(parentIndex := |xs|)] + cs[1..];
  }

  /** build_tree: append the compiled form of `node` to `desc`. A Struct
    * or Union array becomes a wrapper slot whose own `members` receive the
    * element type. */
  method BuildTree(desc: seq<FieldDesc>, node: Member, h: Hasher) returns (out: seq<FieldDesc>)
    ensures out == desc + Compile(node, h)
    decreases node.children, if IsCompoundArray(node.code) then 2 else 1, 1
  {
    if node.code == StructA || node.code == UnionA {
      out := desc + [Slot(node.code, "", OfByte(node.code.code))];
      var next := Member(node.code.ScalarOf(), node.name, node.id, node.children);
      var members := BuildTree(out[|out| - 1].members, next, h);
      out := out[|out| - 1 := out[|out| - 1].(members := members)];
      ArraySlot(desc, node, h, members);
    } else {
      out := BuildNode(desc, node, h);
    }
  }

  /** `out` is `desc` followed by the slots of `node` after its first `i`
    * children. */
  predicate Built(desc: seq<FieldDesc>, node: Member, i: nat, h: Hasher, out: seq<FieldDesc>)
    requires i <= |node.children|
  {
    out == desc + Fill(node, i, h)
  }

  /** build_tree for any other node: emplace its slot, then compile the
    * children one by one, recursing into the same array for a Struct and
    * into the node's own `members` otherwise, back-filling the node's slot
    * after each child. */
  method BuildNode(desc: seq<FieldDesc>, node: Member, h: Hasher) returns (out: seq<FieldDesc>)
    requires !IsCompoundArray(node.code)
    ensures out == desc + Fill(node, |node.children|, h)
    decreases node.children, 1, 0
  {
    out := Emplace(desc, node, h);
    for i := 0 to |node.children|
      invariant Built(desc, node, i, h, out)
    {
      out := BuildChild(desc, out, node, i, h);
    }
  }

  /** One child of a node that is not a Struct or Union array: compiled
    * into the same array under a Struct, into the node's `members`
    * otherwise. */
  method BuildChild(desc: seq<FieldDesc>, out: seq<FieldDesc>, node: Member, i: nat, h: Hasher) returns (next: seq<FieldDesc>)
    requires !IsCompoundArray(node.code) && i < |node.children|
    requires Built(desc, node, i, h, out)
    ensures Built(desc, node, i + 1, h, next)
    decreases node.children, 0, i + 2
  {
    if node.code == Struct {
      next := StructChild(desc, out, node, i, h);
    } else {
      next := MembersChild(desc, out, node, i, h);
    }
  }

  /** desc.emplace_back() and the setting of the new slot's code, id and
    * initial hash. */
  method Emplace(desc: seq<FieldDesc>, node: Member, h: Hasher) returns (out: seq<FieldDesc>)
    ensures Built(desc, node, 0, h, out)
  {
    out := desc + [Seed(node, h)];
    FillSeed(node, h);
  }

  /** Before any child, Fill is the node's seeded slot. */
  lemma FillSeed(node: Member, h: Hasher)
    ensures Fill(node, 0, h) == [Seed(node, h)]
  {
  }

  /** A Struct's child goes into the same array, right after the slots
    * already there; its parent_index is set once it is compiled. */
  method StructChild(desc: seq<FieldDesc>, out: seq<FieldDesc>, node: Member, i: nat, h: Hasher) returns (next: seq<FieldDesc>)
    requires node.code == Struct && i < |node.children|
    requires out == desc + Fill(node, i, h)
    ensures next == desc + Fill(node, i + 1, h)
    decreases node.children, 0, i + 1
  {
    var cnode := node.children[i];
    var index := |desc|;
    var cindex := |out|;
    next := BuildTree(out, cnode, h);
    ghost var out1 := next;
    next := Adopt(next, index, cindex, cnode.name, h);
    StructChildStep(desc, out, node, i, h, out1);
  }

  lemma StructChildStep(desc: seq<FieldDesc>, out: seq<FieldDesc>, node: Member, i: nat, h: Hasher, out1: seq<FieldDesc>)
    requires node.code == Struct && i < |node.children|
    requires out == desc + Fill(node, i, h)
    requires out1 == out + Compile(node.children[i], h)
    ensures |desc| < |out| < |out1|
    ensures Adopt(out1, |desc|, |out|, node.children[i].name, h) == desc + Fill(node, i + 1, h)
  {
    FillStruct(node, i, h);
    AdoptAfter(desc, out, Fill(node, i, h), Compile(node.children[i], h), out1, node.children[i].name, h);
  }

  /** One more child of a Struct: Adopt on its compiled slots. */
  lemma FillStruct(node: Member, i: nat, h: Hasher)
    requires node.code == Struct && i < |node.children|
    ensures Fill(node, i + 1, h)
      == Adopt(Fill(node, i, h) + Compile(node.children[i], h), 0, |Fill(node, i, h)|, node.children[i].name, h)
  {
  }

  /** Adopt on `desc + xs + cs` at the end of `desc` is Adopt on `xs + cs`. */
  lemma AdoptAfter(desc: seq<FieldDesc>, out: seq<FieldDesc>, xs: seq<FieldDesc>, cs: seq<FieldDesc>, out1: seq<FieldDesc>, name: string, h: Hasher)
    requires out == desc + xs && out1 == out + cs && |xs| >= 1 && |cs| >= 1
    ensures |desc| < |out| < |out1|
    ensures Adopt(out1, |desc|, |out|, name, h) == desc + Adopt(xs + cs, 0, |xs|, name, h)
  {
    Assoc(desc, xs, cs);
    assert |out| == |desc| + |xs|;
    AdoptShift(desc, xs + cs, |xs|, name, h);
  }

  /** The child of a Union (or of a scalar type, which has none) goes into
    * the node's own `members`. */
  method MembersChild(desc: seq<FieldDesc>, out: seq<FieldDesc>, node: Member, i: nat, h: Hasher) returns (next: seq<FieldDesc>)
    requires !IsCompoundArray(node.code) && node.code != Struct && i < |node.children|
    requires out == desc + Fill(node, i, h)
    ensures next == desc + Fill(node, i + 1, h)
    decreases node.children, 0, i + 1
  {
    var cnode := node.children[i];
    var index := |desc|;
    var members := BuildTree(out[index].members, cnode, h);
    next := out[index := Enroll(out[index], members, cnode.name, h)];
    MembersStep(desc, Fill(node, i, h), Compile(cnode, h), cnode.name, h);
  }

  lemma Assoc<T>(a: seq<T>, b: seq<T>, c: seq<T>)
    ensures a + b + c == a + (b + c)
  {
  }

  /** Adopt at the end of `desc` is Adopt on the slots after `desc`. */
  lemma AdoptShift(desc: seq<FieldDesc>, xs: seq<FieldDesc>, k: nat, name: string, h: Hasher)
    requires 0 < k < |xs|
    ensures Adopt(desc + xs, |desc|, |desc| + k, name, h) == desc + Adopt(xs, 0, k, name, h)
  {
    var v := xs[k].(parentIndex := k);
    Shifted(desc, xs, k, v);
    var ys := xs[k := v];
    Shifted(desc, ys, 0, Register(ys[0], name, k, ys[k], h));
    Shifted(desc, ys, k, v);
  }

  /** Indexing and updating past a prefix. */
  lemma Shifted<T>(desc: seq<T>, xs: seq<T>, k: nat, v: T)
    requires k < |xs|
    ensures (desc + xs)[|desc| + k] == xs[k]
    ensures (desc + xs)[|desc| + k := v] == desc + xs[k := v]
  {
  }

  /** The back-fill of a child held in the node's own `members`, at the
    * end of `desc`. */
  lemma MembersStep(desc: seq<FieldDesc>, xs: seq<FieldDesc>, cs: seq<FieldDesc>, name: string, h: Hasher)
    requires |xs| == 1 && |cs| >= 1
    ensures var out := desc + xs; var d := |desc|;
      out[d := Enroll(out[d], out[d].members + cs, name, h)] == desc + [Enroll(xs[0], xs[0].members + cs, name, h)]
  {
    Shifted(desc, xs, 0, Enroll(xs[0], xs[0].members + cs, name, h));
  }

  /** The back-filled wrapper slot of a Struct or Union array is what
    * Compile describes. */
  lemma ArraySlot(desc: seq<FieldDesc>, node: Member, h: Hasher, members: seq<FieldDesc>)
    requires IsCompoundArray(node.code)
    requires members == Compile(Element(node), h)
    ensures var out := desc + [Slot(node.code, "", OfByte(node.code.code))];
      out[|out| - 1 := out[|out| - 1].(members := members)] == desc + Compile(node, h)
  {
  }
}
