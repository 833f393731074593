/** The user-facing type definition (class TypeDef in pvxs/data.h, its
  * constructors, operator+= and create() in type.cpp): a shared Member
  * tree and its compiled form. */
module TypeDefs {
  import opened Errors
  import opened TypeCodes
  import opened Members
  import opened FieldDescs
  import opened Compiler
  import opened CopyTree
  import opened Merge
  import opened Values

  /** A use count: a Member in a box has at least one holder. */
  type Count = n: nat | n >= 1 witness 1

  /** The Member a TypeDef's `top` points to, shared between copies of the
    * TypeDef, with the number of TypeDefs holding it (use_count()). */
  class MemberBox {
    var m: Member
    var holders: Count

    constructor (m: Member)
      ensures this.m == m && holders == 1
    {
      this.m := m;
      holders := 1;
    }
  }

  class TypeDef {
    var top: MemberBox?
    var desc: CompiledType?

    /** The default constructor: an empty definition. */
    constructor Empty()
      ensures top == null && desc == null
    {
      top := null;
      desc := null;
    }

    constructor Holding(top: MemberBox, desc: CompiledType)
      ensures this.top == top && this.desc == desc
    {
      this.top := top;
      this.desc := desc;
    }

    /** The copy constructor: both pointers are shared, and the Member
      * gains a holder. */
    constructor Copy(o: TypeDef)
      modifies o.top
      ensures top == o.top && desc == o.desc
      ensures o.top != null ==> o.top.m == old(o.top.m) && o.top.holders == old(o.top.holders) + 1
    {
      top := o.top;
      desc := o.desc;
      new;
      if top != null {
        top.holders := top.holders + 1;
      }
    }

    /** Copy assignment: both pointers are shared. When the top changes,
      * the new top gains a holder and the old one loses this one; an old
      * top held only here is released, which the model leaves as it was. */
    method Assign(o: TypeDef)
      modifies this, top, o.top
      ensures top == old(o.top) && desc == old(o.desc)
      ensures old(o.top) != null ==> old(o.top).m == old(o.top.m)
      ensures old(top) != null ==> old(top).m == old(top.m)
      ensures old(top) == old(o.top) && old(top) != null ==> old(top).holders == old(top.holders)
      ensures old(top) != old(o.top) && old(o.top) != null ==> old(o.top).holders == old(o.top.holders) + 1
      ensures old(top) != old(o.top) && old(top) != null ==>
        old(top).holders == if old(top.holders) > 1 then old(top.holders) - 1 else 1
    {
      var prev := top;
      var next := o.top;
      if prev != next {
        if next != null {
          next.holders := next.holders + 1;
        }
        if prev != null && prev.holders > 1 {
          prev.holders := prev.holders - 1;
        }
      }
      top := next;
      desc := o.desc;
    }

    /** TypeDef(code, id, children): the top Member is built unnamed with
      * the id and children (so it throws what the Member constructor
      * throws), then compiled. The scalar and id-less forms pass an empty
      * id and no children. */
    static method Define(code: TypeCode, id: string, children: seq<Member>, h: Hasher) returns (r: Result<TypeDef>)
      ensures MemberOf(code, "", id, children).Err? ==> r == Err(MemberOf(code, "", id, children).error)
      ensures MemberOf(code, "", id, children).Ok? ==> r.Ok?
      ensures r.Ok? ==> fresh(r.value) && fresh(r.value.top) && fresh(r.value.desc)
      ensures r.Ok? ==> r.value.top.m == Member(code, "", id, children) && r.value.top.holders == 1
      ensures r.Ok? ==> r.value.desc.Holds(r.value.top.m, h)
    {
      var m := NewMember(code, "", id, children);
      if m.Err? {
        return Err(m.error);
      }
      var slots := BuildTree([], m.value, h);
      var box := new MemberBox(m.value);
      var compiled := new CompiledType(slots);
      var t := new TypeDef.Holding(box, compiled);
      return Ok(t);
    }

    /** TypeDef(const Value&): an invalid Value gives an empty definition;
      * otherwise the tree is read back from the Value's slot on (with the
      * corrected reading) and compiled afresh. */
    static method FromValue(v: Value, h: Hasher) returns (r: Result<TypeDef>)
      requires v.WellFormed()
      ensures v.desc.None? ==> r.Ok? && fresh(r.value) && r.value.top == null && r.value.desc == null
      ensures v.desc.Some? ==>
        var arr := v.desc.value.tree.slots[v.desc.value.index..];
        && (Root(arr).Err? ==> r == Err(Root(arr).error))
        && (Root(arr).Ok? ==>
              && r.Ok? && fresh(r.value) && fresh(r.value.top) && fresh(r.value.desc)
              && r.value.top.m == Root(arr).value && r.value.top.holders == 1
              && r.value.desc.Holds(r.value.top.m, h))
    {
      if v.desc.None? {
        var t := new TypeDef.Empty();
        return Ok(t);
      }
      var arr := v.desc.value.tree.slots[v.desc.value.index..];
      var root := Root(arr);
      if root.Err? {
        return Err(root.error);
      }
      var slots := BuildTree([], root.value, h);
      var box := new MemberBox(root.value);
      var compiled := new CompiledType(slots);
      var t := new TypeDef.Holding(box, compiled);
      return Ok(t);
    }

    /** operator+=: only a Struct or Union top may be extended. A top held
      * by this TypeDef alone is edited where it is, after `top` is cleared,
      * so a failed merge leaves no top (and the old compiled type); a
      * shared top is copied first, so its other holders see no change and a
      * failed merge leaves this TypeDef as it was. On success the merged
      * tree is compiled afresh. */
    method Append(children: seq<Member>, h: Hasher) returns (r: Outcome)
      modifies this, top
      ensures old(top) == null || !IsStructOrUnion(old(top.m).code) ==>
        r == Fail(AppendToNonCompound) && top == old(top) && desc == old(desc)
      ensures old(top) != null && IsStructOrUnion(old(top.m).code) ==>
        var merged := AppendAll(old(top.m), children);
        && (merged.Err? ==> r == Fail(merged.error) && desc == old(desc))
        && (merged.Err? && old(top.holders) == 1 ==> top == null)
        && (merged.Err? && old(top.holders) != 1 ==> top == old(top))
        && (merged.Ok? ==>
              && r == Pass && top != null && top.m == merged.value && top.holders == 1
              && fresh(desc) && desc.Holds(top.m, h))
        && (merged.Ok? && old(top.holders) == 1 ==> top == old(top))
        && (merged.Ok? && old(top.holders) != 1 ==> fresh(top))
      ensures old(top) != null && old(top.holders) != 1 ==> old(top).m == old(top.m)
      ensures old(top) != null && old(top.holders) != 1 && r == Pass ==>
        old(top).holders == old(top.holders) - 1
      ensures old(top) != null && r.Fail? ==> old(top).holders == old(top.holders)
    {
      if top == null || (top.m.code != Struct && top.m.code != Union) {
        return Fail(AppendToNonCompound);
      }
      var old_top := top;
      var edit: MemberBox;
      if top.holders == 1 {
        edit := top;
        top := null;
      } else {
        edit := new MemberBox(top.m);
      }
      var merged := AppendAllInPlace(edit.m, children);
      if merged.Err? {
        return Fail(merged.error);
      }
      edit.m := merged.value;
      var compiled := CompileType(edit.m, h);
      if edit != old_top {
        old_top.holders := old_top.holders - 1;
      }
      top := edit;
      desc := compiled;
      return Pass;
    }

    /** build_tree into a fresh vector, handed out as the compiled type. */
    static method CompileType(m: Member, h: Hasher) returns (c: CompiledType)
      ensures fresh(c) && c.Holds(m, h)
    {
      var slots := BuildTree([], m, h);
      c := new CompiledType(slots);
    }

    /** create(): a new Value of the compiled type; an empty definition
      * throws. */
    method Create() returns (r: Result<Value>)
      ensures desc == null ==> r == Err(EmptyTypeDef)
      ensures desc != null ==>
        && r.Ok? && fresh(r.value) && fresh(r.value.store)
        && r.value.desc == Some(FieldRef(desc, 0)) && r.value.IsValid()
    {
      if desc == null {
        return Err(EmptyTypeDef);
      }
      var v := new Value.Instance(desc);
      return Ok(v);
    }
  }
}
