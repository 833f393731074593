/** Which storage slot of a field holds a value of a given C++ type
  * (StoreType and the StorageMap specialisations in pvxs/data.h). */
module StorageMapping {
  import opened Errors
  import opened TypeCodes

  /** The kinds of storage of a field. */
  datatype StoreType = NullStore | BoolStore | UInteger | Integer | Real | StringStore | Compound | ArrayStore

  /** The C++ types StorageMap is asked about, by the traits the
    * specialisations test: integral types by width in bytes and
    * signedness, floating-point types by width, and the named types. */
  datatype HostType =
    | BoolType
    | Integral(width: nat, signed: bool)
    | Floating(width: nat)
    | StdString
    | CharPtr
    | ConstCharPtr
    | SharedArray
    | ValueType
    | OtherType

  /** std::is_integral: bool counts as integral. */
  predicate IsIntegral(t: HostType) {
    t.BoolType? || t.Integral?
  }

  /** std::is_signed, for integral types: bool is unsigned. */
  predicate IsSigned(t: HostType) {
    t.Integral? && t.signed
  }

  predicate IsFloatingPoint(t: HostType) {
    t.Floating?
  }

  /** The specialisations of StorageMap, in declaration order, each with
    * the condition that selects it and its storage kind. */
  function Specialisations(): seq<(HostType -> bool, StoreType)> {
    [ (t => IsIntegral(t) && IsSigned(t), Integer),
      (t => IsIntegral(t) && !IsSigned(t) && t != BoolType, UInteger),
      (t => IsFloatingPoint(t), Real),
      (t => t == BoolType, BoolStore),
      (t => t == StdString, StringStore),
      (t => t == CharPtr, StringStore),
      (t => t == ConstCharPtr, StringStore),
      (t => t == SharedArray, ArrayStore),
      (t => t == ValueType, Compound) ]
  }

  /** StorageMap<T>::code: the storage kind of the one specialisation that
    * matches, or None when no specialisation does (the program would not
    * compile). */
  function StoreOf(t: HostType): (r: Option<StoreType>)
    ensures r.Some? <==> exists i :: 0 <= i < |Specialisations()| && Specialisations()[i].0(t)
    ensures forall i :: 0 <= i < |Specialisations()| && Specialisations()[i].0(t) ==>
      r == Some(Specialisations()[i].1)
  {
    var sp := Specialisations();
    if IsIntegral(t) && IsSigned(t) then assert sp[0].0(t); Some(Integer)
    else if IsIntegral(t) && !IsSigned(t) && t != BoolType then assert sp[1].0(t); Some(UInteger)
    else if IsFloatingPoint(t) then assert sp[2].0(t); Some(Real)
    else if t == BoolType then assert sp[3].0(t); Some(BoolStore)
    else if t == StdString then assert sp[4].0(t); Some(StringStore)
    else if t == CharPtr then assert sp[5].0(t); Some(StringStore)
    else if t == ConstCharPtr then assert sp[6].0(t); Some(StringStore)
    else if t == SharedArray then assert sp[7].0(t); Some(ArrayStore)
    else if t == ValueType then assert sp[8].0(t); Some(Compound)
    else None
  }

  /** No type matches two specialisations, so StorageMap is never
    * ambiguous. */
  lemma SpecialisationsDisjoint(t: HostType, i: nat, j: nat)
    requires i < j < |Specialisations()|
    ensures !(Specialisations()[i].0(t) && Specialisations()[j].0(t))
  {
  }

  /** The fixed-width integer types, mapped to the type code of the same
    * width and signedness. */
  function IntegerCode(width: nat, signed: bool): Option<TypeCode> {
    if width == 1 then Some(if signed then Int8 else UInt8)
    else if width == 2 then Some(if signed then Int16 else UInt16)
    else if width == 4 then Some(if signed then Int32 else UInt32)
    else if width == 8 then Some(if signed then Int64 else UInt64)
    else None
  }

  /** The storage kind of an integer type agrees with the type code of the
    * same width: unsigned storage exactly for the codes with the unsigned
    * bit, and the code's size is the type's width. */
  lemma IntegerStorageMatchesCode(width: nat, signed: bool)
    requires IntegerCode(width, signed).Some?
    ensures var c := IntegerCode(width, signed).value;
      && c.Kind() == KindInteger
      && c.Size() as nat == width
      && (StoreOf(Integral(width, signed)) == Some(UInteger) <==> c.IsUnsigned())
      && (StoreOf(Integral(width, signed)) == Some(Integer) <==> !c.IsUnsigned())
  {
  }
}
