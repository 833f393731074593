/** The 8-bit type tag of a field (struct TypeCode in pvxs/data.h) and the
  * two lookup tables over it (TypeCode::valid and TypeCode::name). */
module TypeCodes {

  /** Values of enum Kind: the top three bits of a code. */
  const KindBool: bv8 := 0x00
  const KindInteger: bv8 := 0x20
  const KindReal: bv8 := 0x40
  const KindString: bv8 := 0x60
  const KindCompound: bv8 := 0x80
  const KindNull: bv8 := 0xe0

  datatype TypeCode = TypeCode(code: bv8) {

    function Kind(): bv8 { code & 0xe0 }

    /** log2 of the element width for Bool, Integer and Real kinds. */
    function Order(): bv8 { code & 3 }

    /** Width in bytes, 1 << Order(). */
    function Size(): bv8 { (1 as bv8) << (Order() as int) }

    function IsUnsigned(): bool { code & 0x04 != 0 }

    function IsArray(): bool { code & 0x08 != 0 }

    function ArrayOf(): TypeCode { TypeCode(code | 0x08) }

    function ScalarOf(): TypeCode { TypeCode(code & 0xf7) }

    /** TypeCode::valid() exactly as written: the Null label in the switch is
      * compared against scalarOf(), which clears bit 3 and so can never be
      * 0xff; Null itself therefore falls to the default branch. */
    function ValidAsWritten(): bool {
      if code & 0x10 != 0 && code != Null.code then false
      else Listed(ScalarOf().code)
    }

    /** TypeCode::valid() with Null accepted, as the explicit exemption of
      * Null from the fixed-size test intends. */
    function Valid(): bool {
      if code & 0x10 != 0 && code != Null.code then false
      else if code == Null.code then true
      else Listed(ScalarOf().code)
    }

    /** TypeCode::name(): the label of a listed scalar code, the label with
      * "[]" appended for the array form of a listed code, else "???_t". */
    function Name(): string {
      if Listed(code) then Label(code)
      else if IsArray() && Listed(ScalarOf().code) then Label(ScalarOf().code) + "[]"
      else UnknownName
    }
  }

  const UnknownName: string := "???_t"

  const Bool := TypeCode(0x00)
  const BoolA := TypeCode(0x08)
  const Int8 := TypeCode(0x20)
  const Int16 := TypeCode(0x21)
  const Int32 := TypeCode(0x22)
  const Int64 := TypeCode(0x23)
  const UInt8 := TypeCode(0x24)
  const UInt16 := TypeCode(0x25)
  const UInt32 := TypeCode(0x26)
  const UInt64 := TypeCode(0x27)
  const Int8A := TypeCode(0x28)
  const Int16A := TypeCode(0x29)
  const Int32A := TypeCode(0x2a)
  const Int64A := TypeCode(0x2b)
  const UInt8A := TypeCode(0x2c)
  const UInt16A := TypeCode(0x2d)
  const UInt32A := TypeCode(0x2e)
  const UInt64A := TypeCode(0x2f)
  const Float32 := TypeCode(0x42)
  const Float64 := TypeCode(0x43)
  const Float32A := TypeCode(0x4a)
  const Float64A := TypeCode(0x4b)
  const String := TypeCode(0x60)
  const StringA := TypeCode(0x68)
  const Struct := TypeCode(0x80)
  const Union := TypeCode(0x81)
  const Any := TypeCode(0x82)
  const StructA := TypeCode(0x88)
  const UnionA := TypeCode(0x89)
  const AnyA := TypeCode(0x8a)
  const Null := TypeCode(0xff)

  /** The code a default-constructed TypeCode holds: valid once Null is
    * accepted, rejected by valid() as written. */
  function DefaultCode(): (c: TypeCode)
    ensures c.Valid() && !c.ValidAsWritten() && c.Kind() == KindNull && c.Name() == "null"
  {
    Null
  }

  /** The sixteen scalar codes listed in both switch tables, with their
    * labels; the empty string for every other code. */
  function Label(c: bv8): string {
    if c == 0x00 then "bool"
    else if c == 0x20 then "int8_t"
    else if c == 0x21 then "int16_t"
    else if c == 0x22 then "int32_t"
    else if c == 0x23 then "int64_t"
    else if c == 0x24 then "uint8_t"
    else if c == 0x25 then "uint16_t"
    else if c == 0x26 then "uint32_t"
    else if c == 0x27 then "uint64_t"
    else if c == 0x42 then "float"
    else if c == 0x43 then "double"
    else if c == 0x60 then "string"
    else if c == 0x82 then "any"
    else if c == 0x81 then "union"
    else if c == 0x80 then "struct"
    else if c == 0xff then "null"
    else ""
  }

  predicate Listed(c: bv8) {
    Label(c) != ""
  }

  /** The enumerators of TypeCode::code_t. */
  const Enumerators: set<bv8> := {
    0x00, 0x08,
    0x20, 0x21, 0x22, 0x23, 0x24, 0x25, 0x26, 0x27,
    0x28, 0x29, 0x2a, 0x2b, 0x2c, 0x2d, 0x2e, 0x2f,
    0x42, 0x43, 0x4a, 0x4b,
    0x60, 0x68,
    0x80, 0x81, 0x82, 0x88, 0x89, 0x8a,
    0xff}

  /** The two kinds whose members are other fields. */
  predicate IsStructOrUnion(c: TypeCode) {
    c == Struct || c == Union
  }

  predicate IsCompound(c: TypeCode) {
    c.Kind() == KindCompound
  }

  /** arrayOf() and scalarOf() only touch bit 3: they undo each other and
    * keep the kind. */
  lemma ArrayScalarRoundTrip(c: TypeCode)
    ensures c.ArrayOf().ScalarOf() == c.ScalarOf()
    ensures c.ScalarOf().ArrayOf() == c.ArrayOf()
    ensures c.ArrayOf().IsArray() && !c.ScalarOf().IsArray()
    ensures c.ArrayOf().Kind() == c.Kind() && c.ScalarOf().Kind() == c.Kind()
    ensures c.IsArray() ==> c.ArrayOf() == c
    ensures !c.IsArray() ==> c.ScalarOf() == c
  {
  }

  /** The array counterpart of every non-null listed scalar is the
    * enumerator of the same name with an "A" suffix. */
  lemma ArrayOfExamples()
    ensures Struct.ArrayOf() == StructA && Union.ArrayOf() == UnionA && Any.ArrayOf() == AnyA
    ensures Int32.ArrayOf() == Int32A && Float64.ArrayOf() == Float64A && String.ArrayOf() == StringA
    ensures StructA.ScalarOf() == Struct && Null.ArrayOf() == Null
  {
  }

  /** The width and signedness bits of the numeric codes. */
  lemma NumericWidths()
    ensures Bool.Size() == 1 && Int8.Size() == 1 && UInt8.Size() == 1
    ensures Int16.Size() == 2 && UInt16.Size() == 2
    ensures Int32.Size() == 4 && UInt32.Size() == 4 && Float32.Size() == 4
    ensures Int64.Size() == 8 && UInt64.Size() == 8 && Float64.Size() == 8
    ensures !Int8.IsUnsigned() && !Int64.IsUnsigned() && UInt8.IsUnsigned() && UInt64.IsUnsigned()
    ensures forall c: TypeCode :: c.Size() == 1 || c.Size() == 2 || c.Size() == 4 || c.Size() == 8
  {
  }

  /** With Null accepted, valid() holds exactly for the enumerators of
    * TypeCode::code_t. */
  lemma ValidIsEnumerator(c: TypeCode)
    ensures c.Valid() <==> c.code in Enumerators
  {
  }

  /** As written, valid() accepts every enumerator except Null. */
  lemma ValidAsWrittenRejectsNull(c: TypeCode)
    ensures c.ValidAsWritten() <==> c.code in Enumerators && c != Null
    ensures !Null.ValidAsWritten() && Null.Valid()
  {
  }

  /** name() knows a code exactly when valid() (with Null accepted) holds. */
  lemma NameKnownIffValid(c: TypeCode)
    ensures c.Name() != UnknownName <==> c.Valid()
  {
    if Listed(c.code) {
      LabelStart(c.code);
      assert c.Name()[0] != UnknownName[0];
    } else if c.IsArray() && Listed(c.ScalarOf().code) {
      LabelStart(c.ScalarOf().code);
      assert c.Name()[0] == Label(c.ScalarOf().code)[0] != UnknownName[0];
    }
    ValidIsEnumerator(c);
  }

  lemma LabelStart(c: bv8)
    requires Listed(c)
    ensures Label(c)[0] != '?'
  {
  }
}
