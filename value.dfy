/** A Value's handle on its data (class Value in pvxs/data.h): the shared
  * storage and the slot of the compiled type it refers to, with the
  * copy and move rules of the two pointers. */
module Values {
  import opened Errors
  import opened TypeCodes
  import opened Hashing
  import opened Members
  import opened FieldDescs
  import opened Compiler

  /** A compiled array: build_tree always emplaces at least the root's
    * slot. */
  type Slots = s: seq<FieldDesc> | |s| >= 1
    witness [FieldDesc(Null, "", 0, Zero(), map[], [], [])]

  /** A compiled type as TypeDef hands it out: the slot array, never
    * changed once built. Values and TypeDefs share it by reference. */
  class CompiledType {
    const slots: Slots

    constructor (slots: Slots)
      ensures this.slots == slots
    {
      this.slots := slots;
    }

    /** These are the slots build_tree produces for `m`. */
    predicate Holds(m: Member, h: Hasher) {
      slots == Compile(m, h)
    }
  }

  /** The storage of a field (FieldStorage); only its identity matters
    * here. */
  class FieldStorage {
    constructor () {}
  }

  /** A pointer to one slot of a compiled type. */
  datatype FieldRef = FieldRef(tree: CompiledType, index: nat)

  class Value {
    var store: FieldStorage?
    var desc: Option<FieldRef>

    /** A Value refers to a field exactly when it has a type slot
      * (valid() and operator bool). */
    predicate IsValid()
      reads this
    {
      desc.Some?
    }

    /** The slot a Value refers to lies inside its compiled type. */
    predicate WellFormed()
      reads this, if desc.Some? then {desc.value.tree} else {}
    {
      desc.Some? ==> desc.value.index < |desc.value.tree.slots|
    }

    /** The default Value: no storage, no type, so not valid. */
    constructor Empty()
      ensures store == null && desc == None
      ensures !IsValid() && WellFormed()
    {
      store := null;
      desc := None;
    }

    /** The Value TypeDef::create() builds: fresh storage for the top slot
      * of the compiled type. */
    constructor Instance(tree: CompiledType)
      ensures fresh(store) && desc == Some(FieldRef(tree, 0))
      ensures IsValid() && WellFormed()
    {
      store := new FieldStorage();
      desc := Some(FieldRef(tree, 0));
    }

    /** The copy constructor: a second handle on the same storage. */
    constructor Copy(o: Value)
      ensures store == o.store && desc == o.desc
      ensures CompareInst(o) && CompareType(o)
    {
      store := o.store;
      desc := o.desc;
    }

    /** The move constructor: the new Value takes both pointers and the
      * source is left empty and invalid. */
    constructor Move(o: Value)
      modifies o
      ensures store == old(o.store) && desc == old(o.desc)
      ensures o.store == null && o.desc == None && !o.IsValid()
    {
      store := o.store;
      desc := o.desc;
      o.store := null;
      o.desc := None;
    }

    /** Copy assignment. */
    method Assign(o: Value)
      modifies this
      ensures store == o.store && desc == o.desc
    {
      store := o.store;
      desc := o.desc;
    }

    /** Move assignment, step for step: the storage pointer is moved
      * (moving a pointer onto itself keeps it), the type pointer is
      * copied, then the source's type pointer is cleared. Moving a Value
      * onto itself therefore keeps its storage but leaves it invalid. */
    method MoveAssign(o: Value)
      modifies this, o
      ensures o != this ==> store == old(o.store) && desc == old(o.desc)
      ensures o != this ==> o.store == null && o.desc == None && !o.IsValid()
      ensures o == this ==> store == old(store) && desc == None && !IsValid()
    {
      var s := o.store;
      o.store := null;
      store := s;
      desc := o.desc;
      o.desc := None;
    }

    /** compareInst: the two Values share their storage. */
    predicate CompareInst(o: Value)
      reads this, o
    {
      store == o.store
    }

    /** compareType: the two Values point to the same type slot. */
    predicate CompareType(o: Value)
      reads this, o
    {
      desc == o.desc
    }
  }
}
