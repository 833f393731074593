/** Worked layouts: the compiled forms of three type descriptions, as the
  * flattened listings in test/testxcode.cpp show them. */
module WorkedLayouts {
  import opened Errors
  import opened TypeCodes
  import opened Members
  import opened Hashing
  import opened Shape
  import opened FieldDescs
  import opened Compiler
  import opened Layout
  import opened CopyTree

  /** struct timeStamp_t { int64_t secondsPastEpoch; int32_t nanoSeconds;
    * int32_t userTag; } */
  function TimeStamp(): Member {
    Member(Struct, "", "timeStamp_t", [
      Member(Int64, "secondsPastEpoch", "", []),
      Member(Int32, "nanoSeconds", "", []),
      Member(Int32, "userTag", "", [])])
  }

  /** The same tree, stated part by part; the lemmas below take it in this
    * form. */
  predicate IsTimeStamp(m: Member) {
    && m.code == Struct && m.name == "" && m.id == "timeStamp_t" && |m.children| == 3
    && m.children[0] == Member(Int64, "secondsPastEpoch", "", [])
    && m.children[1] == Member(Int32, "nanoSeconds", "", [])
    && m.children[2] == Member(Int32, "userTag", "", [])
  }

  lemma TimeStampIs(m: Member)
    ensures IsTimeStamp(m) <==> m == TimeStamp()
  {
    if IsTimeStamp(m) {
      assert m.children == TimeStamp().children;
    }
  }

  /** Four slots: the struct, then its three members in declaration order,
    * each pointing back to slot 0 and listed in `miter` in that order. */
  lemma TimeStampLayout(node: Member, h: Hasher)
    requires IsTimeStamp(node)
    ensures var cs := Compile(node, h);
      && |cs| == 4
      && cs[0].code == Struct && cs[0].id == "timeStamp_t"
      && cs[1].code == Int64 && cs[2].code == Int32 && cs[3].code == Int32
      && cs[1].parentIndex == 1 && cs[2].parentIndex == 2 && cs[3].parentIndex == 3
      && cs[0].miter == [("secondsPastEpoch", 1), ("nanoSeconds", 2), ("userTag", 3)]
      && cs[0].mlookup == map["secondsPastEpoch" := 1, "nanoSeconds" := 2, "userTag" := 3]
  {
    TimeStampShape(node);
    assert Describes(node, Compile(node, h), h);
    StructChildPlaced(node, h, 0);
    StructChildPlaced(node, h, 1);
    StructChildPlaced(node, h, 2);
  }

  /** The offsets, `miter` entries and lookup table of timeStamp_t. */
  lemma TimeStampShape(node: Member)
    requires IsTimeStamp(node)
    ensures Size(node) == 4 && Offset(node, 0) == 1 && Offset(node, 1) == 2 && Offset(node, 2) == 3
    ensures Entries(node, 3) == [("secondsPastEpoch", 1), ("nanoSeconds", 2), ("userTag", 3)]
    ensures LookupOf(node) == map["secondsPastEpoch" := 1, "nanoSeconds" := 2, "userTag" := 3]
  {
    assert SizeSum(node.children, 1) == 1;
    assert SizeSum(node.children, 2) == 2;
    assert SizeSum(node.children, 3) == 3;
    assert Entries(node, 1) == [("secondsPastEpoch", 1)];
    assert Entries(node, 2) == [("secondsPastEpoch", 1), ("nanoSeconds", 2)];
    assert LookupUpTo(node, 1) == map["secondsPastEpoch" := 1];
    assert LookupUpTo(node, 2) == map["secondsPastEpoch" := 1, "nanoSeconds" := 2];
  }

  /** struct { struct dimension_t { int32_t size; int32_t offset;
    * int32_t fullSize; int32_t binning; bool reverse; }[] dimension; } */
  function Dimensions(): Member {
    Member(Struct, "", "", [
      Member(StructA, "dimension", "dimension_t", [
        Member(Int32, "size", "", []),
        Member(Int32, "offset", "", []),
        Member(Int32, "fullSize", "", []),
        Member(Int32, "binning", "", []),
        Member(Bool, "reverse", "", [])])])
  }

  predicate IsDimensions(m: Member) {
    && m.code == Struct && m.name == "" && m.id == "" && |m.children| == 1
    && m.children[0].code == StructA && m.children[0].name == "dimension"
    && m.children[0].id == "dimension_t" && |m.children[0].children| == 5
    && m.children[0].children[0] == Member(Int32, "size", "", [])
    && m.children[0].children[1] == Member(Int32, "offset", "", [])
    && m.children[0].children[2] == Member(Int32, "fullSize", "", [])
    && m.children[0].children[3] == Member(Int32, "binning", "", [])
    && m.children[0].children[4] == Member(Bool, "reverse", "", [])
  }

  lemma DimensionsIs(m: Member)
    ensures IsDimensions(m) <==> m == Dimensions()
  {
    if IsDimensions(m) {
      assert m.children[0].children == Dimensions().children[0].children;
      assert m.children == Dimensions().children;
    }
  }

  /** An array of structures takes one slot and lifts no dotted names: the
    * outer table knows only "dimension"; the element type, in the array
    * slot's `members`, is a struct with its own table. */
  lemma DimensionsLayout(node: Member, h: Hasher)
    requires IsDimensions(node)
    ensures var cs := Compile(node, h);
      && |cs| == 2
      && cs[0].mlookup == map["dimension" := 1]
      && cs[1].code == StructA && cs[1].parentIndex == 1 && cs[1].mlookup == map[]
      && |cs[1].members| >= 1
      && cs[1].members[0].code == Struct && cs[1].members[0].id == "dimension_t"
      && cs[1].members[0].mlookup == DimensionTable()
  {
    DimensionsShape(node);
    var arr := node.children[0];
    StructChildPlaced(node, h, 0);
    var cs := Compile(node, h);
    KidAt(node, cs, 1, 0, h);
    ArrayElementSlot(arr, cs[1..], h);
  }

  /** Offsets, slot counts and lookup tables of the outer struct and of
    * dimension_t. */
  lemma DimensionsShape(node: Member)
    requires IsDimensions(node)
    ensures Size(node) == 2 && Offset(node, 0) == 1
    ensures LookupOf(node) == map["dimension" := 1]
    ensures Size(Element(node.children[0])) == 6
    ensures LookupOf(Element(node.children[0])) == DimensionTable()
  {
    var el := Element(node.children[0]);
    assert SizeSum(node.children, 1) == 1;
    assert LookupUpTo(node, 1) == map["dimension" := 1];
    assert SizeSum(el.children, 1) == 1;
    assert SizeSum(el.children, 2) == 2;
    assert SizeSum(el.children, 3) == 3;
    assert SizeSum(el.children, 4) == 4;
    assert SizeSum(el.children, 5) == 5;
    assert Offset(el, 0) == 1 && Offset(el, 1) == 2 && Offset(el, 2) == 3;
    assert Offset(el, 3) == 4 && Offset(el, 4) == 5;
    assert LookupUpTo(el, 1) == map["size" := 1];
    assert LookupUpTo(el, 2) == map["size" := 1, "offset" := 2];
    assert LookupUpTo(el, 3) == map["size" := 1, "offset" := 2, "fullSize" := 3];
    assert LookupUpTo(el, 4) == map["size" := 1, "offset" := 2, "fullSize" := 3, "binning" := 4];
  }

  /** The lookup table of dimension_t in the listing. */
  function DimensionTable(): map<string, nat> {
    map["size" := 1, "offset" := 2, "fullSize" := 3, "binning" := 4, "reverse" := 5]
  }

  /** What a description of a Struct or Union array says about its slot
    * and the element's slot. */
  lemma ArrayElementSlot(arr: Member, sub: seq<FieldDesc>, h: Hasher)
    requires IsCompoundArray(arr.code) && Describes(arr, sub, h)
    ensures sub[0].code == arr.code && sub[0].mlookup == map[]
    ensures Describes(Element(arr), sub[0].members, h)
    ensures sub[0].members[0].code == arr.code.ScalarOf() && sub[0].members[0].id == arr.id
    ensures sub[0].members[0].mlookup == LookupOf(Element(arr))
  {
  }

  /** struct alarm_t { int32_t severity; int32_t status; string message; } */
  function Alarm(): Member {
    Member(Struct, "alarm", "alarm_t", [
      Member(Int32, "severity", "", []),
      Member(Int32, "status", "", []),
      Member(String, "message", "", [])])
  }

  predicate IsAlarm(m: Member) {
    && m.code == Struct && m.name == "alarm" && m.id == "alarm_t" && |m.children| == 3
    && m.children[0] == Member(Int32, "severity", "", [])
    && m.children[1] == Member(Int32, "status", "", [])
    && m.children[2] == Member(String, "message", "", [])
  }

  lemma AlarmIs(m: Member)
    ensures IsAlarm(m) <==> m == Alarm()
  {
    if IsAlarm(m) {
      assert m.children == Alarm().children;
    }
  }

  /** struct epics:nt/NTScalarArray:1.0 { double[] value; alarm_t alarm; } */
  function ScalarArray(): Member {
    Member(Struct, "", "epics:nt/NTScalarArray:1.0", [
      Member(Float64A, "value", "", []),
      Alarm()])
  }

  predicate IsScalarArray(m: Member) {
    && m.code == Struct && m.name == "" && m.id == "epics:nt/NTScalarArray:1.0" && |m.children| == 2
    && m.children[0] == Member(Float64A, "value", "", [])
    && IsAlarm(m.children[1])
  }

  lemma ScalarArrayIs(m: Member)
    ensures IsScalarArray(m) <==> m == ScalarArray()
  {
    if IsScalarArray(m) {
      AlarmIs(m.children[1]);
      assert m.children == ScalarArray().children;
    }
  }

  /** The members of a sub-struct are reachable from the outer struct by
    * dotted paths: "alarm.severity" is slot 3, the same slot the alarm
    * struct (slot 2) lists as "severity" at relative offset 1 (below). */
  lemma ScalarArrayTable(node: Member, h: Hasher)
    requires IsScalarArray(node)
    ensures var cs := Compile(node, h);
      && |cs| == 6
      && cs[0].mlookup == map["value" := 1, "alarm" := 2]
        + map["alarm.severity" := 3, "alarm.status" := 4, "alarm.message" := 5]
  {
    ScalarArrayLookup(node);
  }

  /** The alarm struct sits at slot 2, records that distance back to the
    * outer struct, has its own table of relative offsets, and its members
    * follow it, the first recording a distance of 1 back to it. */
  lemma ScalarArrayAlarm(node: Member, h: Hasher)
    requires IsScalarArray(node)
    ensures var cs := Compile(node, h);
      && |cs| > 5
      && cs[2].code == Struct && cs[2].parentIndex == 2
      && cs[2].mlookup == map["severity" := 1, "status" := 2, "message" := 3]
      && cs[3].parentIndex == 1 && cs[5].code == String
  {
    var cs := Compile(node, h);
    AlarmPlaced(node, h);
    var sub := cs[2..];
    AlarmHead(node.children[1], sub, h);
    AlarmFirst(node.children[1], sub, h);
    AlarmLast(node.children[1], sub, h);
    assert sub[1] == cs[3] && sub[3] == cs[5];
  }

  /** The alarm struct is described from slot 2 on. */
  lemma AlarmPlaced(node: Member, h: Hasher)
    requires IsScalarArray(node)
    ensures var cs := Compile(node, h);
      |cs| > 2 && cs[2].parentIndex == 2 && Describes(node.children[1], cs[2..], h)
  {
    ScalarArrayOffsets(node);
    KidAt(node, Compile(node, h), 2, 1, h);
  }

  /** What a description of the alarm struct says about its own slot, */
  lemma AlarmHead(alarm: Member, sub: seq<FieldDesc>, h: Hasher)
    requires IsAlarm(alarm) && Describes(alarm, sub, h)
    ensures sub[0].code == Struct
    ensures sub[0].mlookup == map["severity" := 1, "status" := 2, "message" := 3]
  {
    AlarmLookup(alarm);
  }

  /** about the slot of its first member, */
  lemma AlarmFirst(alarm: Member, sub: seq<FieldDesc>, h: Hasher)
    requires IsAlarm(alarm) && Describes(alarm, sub, h)
    ensures |sub| > 1 && sub[1].parentIndex == 1
  {
    AlarmOffsets(alarm);
    KidAt(alarm, sub, 3, 0, h);
  }

  /** and about the slot of its last member. */
  lemma AlarmLast(alarm: Member, sub: seq<FieldDesc>, h: Hasher)
    requires IsAlarm(alarm) && Describes(alarm, sub, h)
    ensures |sub| > 3 && sub[3].code == String
  {
    AlarmOffsets(alarm);
    KidAt(alarm, sub, 3, 2, h);
  }

  lemma AlarmOffsets(alarm: Member)
    requires IsAlarm(alarm)
    ensures Size(alarm) == 4
    ensures Offset(alarm, 0) == 1 && Offset(alarm, 1) == 2 && Offset(alarm, 2) == 3
  {
    assert SizeSum(alarm.children, 1) == 1;
    assert SizeSum(alarm.children, 2) == 2;
    assert SizeSum(alarm.children, 3) == 3;
  }

  lemma AlarmLookup(alarm: Member)
    requires IsAlarm(alarm)
    ensures LookupOf(alarm) == map["severity" := 1, "status" := 2, "message" := 3]
  {
    AlarmOffsets(alarm);
    assert LookupUpTo(alarm, 1) == map["severity" := 1];
    assert LookupUpTo(alarm, 2) == map["severity" := 1, "status" := 2];
  }

  lemma ScalarArrayOffsets(node: Member)
    requires IsScalarArray(node)
    ensures Size(node) == 6 && Offset(node, 0) == 1 && Offset(node, 1) == 2
  {
    AlarmOffsets(node.children[1]);
    assert SizeSum(node.children, 1) == 1;
    assert SizeSum(node.children, 2) == 5;
  }

  lemma ScalarArrayLookup(node: Member)
    requires IsScalarArray(node)
    ensures Size(node) == 6
    ensures LookupOf(node) == map["value" := 1, "alarm" := 2]
        + map["alarm.severity" := 3, "alarm.status" := 4, "alarm.message" := 5]
  {
    ScalarArrayOffsets(node);
    AlarmLookup(node.children[1]);
    assert LookupUpTo(node, 1) == map["value" := 1];
    var lifted := map["alarm.severity" := 3, "alarm.status" := 4, "alarm.message" := 5];
    assert LookupUpTo(node, 2) == map["value" := 1, "alarm" := 2] + lifted by {
      DottedAlarm();
      LookupAfterStruct(node, 2);
    }
  }

  /** Registering a Struct member of a Struct. */
  lemma LookupAfterStruct(node: Member, i: nat)
    requires 0 < i <= |node.children| && node.code == Struct && node.children[i - 1].code == Struct
    ensures var c := node.children[i - 1];
      LookupUpTo(node, i)
        == LookupUpTo(node, i - 1)[c.name := Offset(node, i - 1)] + Dotted(c.name, Offset(node, i - 1), LookupOf(c))
  {
  }

  lemma DottedAlarm()
    ensures Dotted("alarm", 2, map["severity" := 1, "status" := 2, "message" := 3])
      == map["alarm.severity" := 3, "alarm.status" := 4, "alarm.message" := 5]
  {
    var d := Dotted("alarm", 2, map["severity" := 1, "status" := 2, "message" := 3]);
    DottedAt("alarm", 2, map["severity" := 1, "status" := 2, "message" := 3], "severity");
    DottedAt("alarm", 2, map["severity" := 1, "status" := 2, "message" := 3], "status");
    DottedAt("alarm", 2, map["severity" := 1, "status" := 2, "message" := 3], "message");
    assert "alarm" + "." + "severity" == "alarm.severity";
    assert "alarm" + "." + "status" == "alarm.status";
    assert "alarm" + "." + "message" == "alarm.message";
  }

  /** Reading NTScalarArray back out of its compiled form: as written, the
    * root Member is named after the type id, which is not a field name, so
    * the TypeDef constructor throws; the corrected reading gives back the
    * definition. */
  lemma ScalarArrayFromValue(node: Member, h: Hasher, fuel: nat)
    requires IsScalarArray(node)
    ensures RootAsWritten(Compile(node, h), fuel) == Thrown(InvalidName("epics:nt/NTScalarArray:1.0"))
    ensures Root(Compile(node, h)) == Ok(node)
  {
    ScalarArrayIdRejected(node.id);
    CompiledIdRejected(node, h, fuel);
    ScalarArrayNames(node);
    RootRoundTrip(node, h);
  }

  /** The type id of NTScalarArray holds ':' and '/', so it is not a field
    * name. */
  lemma ScalarArrayIdRejected(id: string)
    requires id == "epics:nt/NTScalarArray:1.0"
    ensures NameCheck(id) == Fail(InvalidName(id))
  {
    forall i | 0 <= i < |id| ensures id[i] != '\0' {
      assert i == 0 || i == 1 || i == 2 || i == 3 || i == 4 || i == 5 || i == 6 || i == 7 || i == 8 || i == 9 || i == 10 || i == 11 || i == 12 || i == 13 || i == 14 || i == 15 || i == 16 || i == 17 || i == 18 || i == 19 || i == 20 || i == 21 || i == 22 || i == 23 || i == 24 || i == 25;
    }
    NoNulIsWhole(id);
    assert !IsIdentifier(id) by {
      assert id[5] == ':';
    }
  }

  lemma ScalarArrayNames(node: Member)
    requires IsScalarArray(node)
    ensures NamesAccepted(node)
  {
    FieldNames();
    AlarmNames(node.children[1]);
    forall k | 0 <= k < |node.children|
      ensures NameAccepted(node.children[k].name) && NamesAccepted(node.children[k])
    {
      assert k == 0 || k == 1;
    }
  }

  lemma AlarmNames(node: Member)
    requires IsAlarm(node)
    ensures NamesAccepted(node)
  {
    FieldNames();
    forall k | 0 <= k < |node.children|
      ensures NameAccepted(node.children[k].name) && NamesAccepted(node.children[k])
    {
      assert k == 0 || k == 1 || k == 2;
    }
  }

  /** The member names of NTScalarArray and alarm_t are field names. */
  lemma FieldNames()
    ensures NameAccepted("severity") && NameAccepted("status") && NameAccepted("message")
    ensures NameAccepted("value") && NameAccepted("alarm")
  {
    var severity := "severity";
    forall i | 0 <= i < |severity| ensures IsAlpha(severity[i]) {
      assert i == 0 || i == 1 || i == 2 || i == 3 || i == 4 || i == 5 || i == 6 || i == 7;
    }
    FieldName(severity);
    var status := "status";
    forall i | 0 <= i < |status| ensures IsAlpha(status[i]) {
      assert i == 0 || i == 1 || i == 2 || i == 3 || i == 4 || i == 5;
    }
    FieldName(status);
    var message := "message";
    forall i | 0 <= i < |message| ensures IsAlpha(message[i]) {
      assert i == 0 || i == 1 || i == 2 || i == 3 || i == 4 || i == 5 || i == 6;
    }
    FieldName(message);
    var value := "value";
    forall i | 0 <= i < |value| ensures IsAlpha(value[i]) {
      assert i == 0 || i == 1 || i == 2 || i == 3 || i == 4;
    }
    FieldName(value);
    var alarm := "alarm";
    forall i | 0 <= i < |alarm| ensures IsAlpha(alarm[i]) {
      assert i == 0 || i == 1 || i == 2 || i == 3 || i == 4;
    }
    FieldName(alarm);
  }

  /** A field name spelled out in letters is accepted. */
  lemma FieldName(s: string)
    requires |s| > 0 && forall i :: 0 <= i < |s| ==> IsAlpha(s[i])
    ensures NameAccepted(s)
  {
    NoNulIsWhole(s);
  }
}
