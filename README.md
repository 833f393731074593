# pvxs type definitions, modelled in Dafny

This project models the type-definition core of pvxs, the C++ library for the
EPICS PV Access protocol. It covers four parts:

- `TypeCode`, the 8-bit tag of a field: its bit masks (kind, width,
  signedness, array bit), `arrayOf`/`scalarOf`, and the `valid()` and
  `name()` tables.
- `Member`, the builder-side description of a field, with the checks its
  constructor and `addChild` make: field names must match
  `[A-Za-z_][A-Za-z0-9_]*`, only Struct and Union may carry a type id, and
  only (arrays of) Struct and Union may have members.
- `build_tree`, which compiles a `Member` tree into the flat, preorder
  `FieldDesc` array:
  - a Struct's members follow it in the same array, each recording its
    distance back;
  - a Union's alternatives go into the slot's own `members`;
  - an array of Struct or Union is one slot wrapping its compiled element
    type.

  Every slot carries a name-to-offset table (`mlookup`), which includes the
  dotted paths lifted from sub-structs. It also carries the ordered member
  list (`miter`) and a structural hash.
- `TypeDef`, `Value` and `Iter`:
  - `TypeDef` holds a shared tree and its compiled form. Its constructors,
    `operator+=` (which merges new members in by name through
    `append_tree`, copying a shared tree before editing) and `create()` are
    modelled.
  - `Value` is modelled as a handle on storage and a type slot, with its
    copy and move rules.
  - `Iter` is modelled as an iterator position with its `++` rule.
  - The `StorageMap` specialisations are modelled as a table.

Files and modules:

| file | module | what |
|---|---|---|
| errors.dfy | Errors | the exceptions as `Error`, `Result`, `Outcome`, `Option` |
| typecode.dfy | TypeCodes | `TypeCode`, `valid()`, `name()` |
| hash.dfy | Hashing | `size_t` hashes as 64 bits and their exclusive or |
| member.dfy | Members | `Member`, `name_validate`, `node_validate`, the constructor, `addChild` |
| shape.dfy | Shape | slot counts and child offsets, over the tree alone |
| desc.dfy | FieldDescs | `FieldDesc`, and what an array of slots describes (`Describes`) |
| build_tree.dfy | Compiler | `Compile` (the specification) and `BuildTree` (the algorithm) |
| layout.dfy | Layout | placement, parent indices, hashes and lookup tables of compiled trees |
| copy_tree.dfy | CopyTree | reading a tree back out of its compiled form |
| append_tree.dfy | Merge | `append_tree` |
| value.dfy | Values | `Value` handles |
| typedef.dfy | TypeDefs | `TypeDef` |
| iter.dfy | Iteration | `IterInfo` and `Iter` |
| storage.dfy | StorageMapping | `StoreType` and `StorageMap` |
| worked.dfy | WorkedLayouts | the compiled forms listed in test/testxcode.cpp |

### How the model is built

`Member` is a datatype: the C++ code copies Members by value into vectors.
`Compile(node, h)` is the specification of `build_tree`. It is defined over
`Fill`, which builds the slots of a node one child at a time. Its contract
(`Compiled`, `Shaped`) states the layout: the slot count, the node's own
slot, `miter`, `mlookup`, the hash, and a description of every child at its
offset. `Describes` states what an array of slots says about a tree.
`BuildTree` is the recursive, appending algorithm of `build_tree`. It works
on a sequence the way the source works on its vector: it emplaces the slot,
compiles each child, then back-fills the slot. It is proved to append
exactly `Compile`.

`Size`, `Offset`, `Entries`, `LookupOf`, `LookupUpTo` and `HashOf` are the
reference definitions stated over the tree alone. The lemmas in Layout
connect the compiled slots to them.

`std::hash<std::string>` is a parameter `h` of type `string -> Hash`.
`Value::_iter_advance` is a parameter of type `IterInfo -> IterInfo`.
A `TypeDef`'s shared `top` is a `MemberBox` object with a count of its
holders, standing in for `use_count()`.

## Model

| member | source | states |
|---|---|---|
| `TypeCodes.DefaultCode` | src/pvxs/data.h:133-151 | a default TypeCode is Null (0xff), of kind Null and named "null"; it is valid once Null is accepted, and `valid()` as written rejects it |
| `TypeCodes.ArrayScalarRoundTrip` | src/pvxs/data.h:141-158 | arrayOf sets and scalarOf clears only the array bit: scalarOf(arrayOf(c)) == scalarOf(c), arrayOf(scalarOf(c)) == arrayOf(c), both keep the kind, and each is the identity on codes already in that form |
| `TypeCodes.ArrayOfExamples` | src/pvxs/data.h:100-134 | arrayOf maps Struct, Union, Any, Int32, Float64 and String to their "A" enumerators; scalarOf(StructA) is Struct |
| `TypeCodes.NumericWidths` | src/pvxs/data.h:141-147 | size() is 1 << order(): 1, 2, 4 or 8 bytes for every code, the widths of the numeric codes, and isunsigned() on signed and unsigned codes |
| `TypeCodes.ValidIsEnumerator` | src/type.cpp:17-44 | with Null accepted, valid() holds exactly for the enumerators of code_t |
| `TypeCodes.ValidAsWrittenRejectsNull` | src/type.cpp:17-44 | as written, valid() holds exactly for the enumerators other than Null, so Null is rejected |
| `TypeCodes.NameKnownIffValid` | src/type.cpp:46-86 | name() returns a label other than "???_t" exactly when the code is valid (with Null accepted) |
| `Hashing.Xor` | src/type.cpp:168-184 | the exclusive or of two hashes is bitwise |
| `Hashing.OfByte` | src/type.cpp:151-168 | an 8-bit code widened to size_t has its upper bits clear |
| `Members.CStr` | src/type.cpp:107 | a name is read as a C string: the longest NUL-free prefix, ended by the first NUL if any |
| `Members.NameValidate` | src/type.cpp:100-122 | the checking loop passes exactly the names whose C string matches [A-Za-z_][A-Za-z0-9_]*; it reports an empty name exactly when the C string is empty, and any other name as invalid |
| `Members.NameExamples` | src/type.cpp:109-118 | a digit is accepted after the first position ("_x9") and rejected at the first ("1x") |
| `Members.NameExamplesPathAndEmpty` | src/type.cpp:105-118 | a dotted path is not a field name, and the empty name is reported as empty |
| `Members.NodeValidate` | src/type.cpp:88-98 | a child passes exactly when it has no id or is a Struct or Union, and the parent (if any) is a Struct, Union or an array of either; otherwise it fails with one of the two logic errors, the id check first |
| `Members.CheckChildren` | src/type.cpp:129-131 | the children pass exactly when each passes node_validate; otherwise the error is that of a failing child |
| `Members.NewMember` | src/type.cpp:124-133 | the constructor succeeds exactly when the name is empty or valid and every child passes node_validate against the new node; it then holds the children in the given order |
| `Members.AddChild` | src/type.cpp:135-139 | addChild succeeds exactly when node_validate accepts the child, and then appends it after the existing children, changing nothing else |
| `Members.AddChildrenLikeConstructor` | src/type.cpp:124-139 | adding children one by one with addChild gives the same Member, or the same first error, as passing them to the constructor |
| `Members.ConstructorIsAddChildren` | src/type.cpp:124-139 | for an accepted name, the constructor equals an empty Member followed by addChild for each child |
| `Shape.Size` | src/type.cpp:198 | every subtree takes at least one slot |
| `Shape.EntriesLength` | src/type.cpp:187 | `miter` has one entry per child |
| `Shape.EntryAt` | src/type.cpp:186-187 | entry k of `miter` is child k's name and relative offset, in declaration order |
| `FieldDescs.DescribesAppend` | src/type.cpp:174-177 | slots appended after a compiled subtree (as later siblings are) leave its description intact |
| `FieldDescs.KidsBehindHead` | src/type.cpp:179-195 | back-filling a Struct's own slot leaves its members' descriptions intact |
| `FieldDescs.DescribesPlaced` | src/type.cpp:181-182 | setting a subtree root's parent_index leaves its description intact |
| `Compiler.Compile` | src/type.cpp:141-199 | the compiled form of a node has Size(node) slots (the assertion at the end of build_tree), has the node's code, lookup table and hash in its first slot with parent index 0, and describes the node |
| `Compiler.Fill` | src/type.cpp:161-196 | after the first i children, a Struct's slot is followed by its members' slots and any other node's slot holds them in `members`; the slot has the node's code and id, lists the i children in `miter`, registers them in `mlookup`, has folded their hashes in, and every child is described at its offset |
| `Compiler.AdoptShaped` | src/type.cpp:174-195 | the back-fill after a Struct's member extends the compiled form by that member |
| `Compiler.AdoptHead` | src/type.cpp:179-195 | after that back-fill the Struct's slot registers the new member in `miter`, `mlookup` and the hash |
| `Compiler.AdoptKids` | src/type.cpp:177-182 | after that back-fill the earlier members keep their places and the new one is described at its offset with its parent index |
| `Compiler.EnrollShaped` | src/type.cpp:171-195 | the back-fill after a Union alternative extends the compiled form by that alternative, kept in the slot's `members` |
| `Compiler.BuildTree` | src/type.cpp:141-199 | build_tree appends exactly Compile(node) to the vector it is given, leaving what was there before unchanged |
| `Compiler.BuildNode` | src/type.cpp:161-198 | for a node other than an array of Struct or Union: emplace the slot, then compile and back-fill each child in turn; appends exactly the filled slots |
| `Compiler.BuildChild` | src/type.cpp:174-196 | one iteration of the children loop extends the built prefix by one child |
| `Compiler.Emplace` | src/type.cpp:161-169 | the emplaced slot has the node's code and id and the hash code ^ H(id) |
| `Compiler.StructChild` | src/type.cpp:174-195 | a Struct's member is compiled into the same array, then gets its parent_index and is registered |
| `Compiler.StructChildStep` | src/type.cpp:179-195 | the back-fill after a Struct's member, at the end of the vector, is the back-fill of Fill |
| `Compiler.FillStruct` | src/type.cpp:174-195 | a Struct with one more member is the back-fill of the member's compiled slots |
| `Compiler.MembersChild` | src/type.cpp:171-195 | a Union's alternative is compiled into the slot's own `members` and then registered |
| `Compiler.MembersStep` | src/type.cpp:179-187 | the back-fill of a Union's slot at the end of the vector is the back-fill of Fill |
| `Compiler.ArraySlot` | src/type.cpp:145-158 | the array of Struct or Union wrapper slot, once its `members` are built, is Compile(node) |
| `Layout.KidAt` | src/type.cpp:174-182 | every described child sits at its offset, inside the array, with the recorded parent_index, and is described there |
| `Layout.StructSpans` | src/type.cpp:174-177 | a Struct's members are contiguous: member k + 1 starts where member k ends, and the last ends where the Struct's subtree ends |
| `Layout.StructChildPlaced` | src/type.cpp:171-187 | member k of a compiled Struct is at its offset inside the block, has its code, records that offset as parent_index, its subtree fits, and `miter` lists it k-th with that offset |
| `Layout.OffsetGrows` | src/type.cpp:175 | the offsets of later children are never smaller |
| `Layout.UnionChildPlaced` | src/type.cpp:171-187 | a compiled Union is one slot; alternative k is in its `members` at its offset (0 for the first) with its code and no parent index, and `miter` lists it k-th |
| `Layout.CompoundArrayWraps` | src/type.cpp:145-158 | an array of Struct or Union is one slot with the code alone as hash, no lookup table and no `miter`; its `members` hold the compiled element type with the array's id |
| `Layout.ArrayHashIgnoresElement` | src/type.cpp:151 | hence two arrays of Struct (or of Union) hash alike whatever their element types |
| `Layout.SwapKids` | src/type.cpp:168-184 | exchanging two neighbouring members moves each to the other's place and leaves the node and every other member as they were |
| `Layout.HashPrefix` | src/type.cpp:168-184 | the hash folded over the first i members depends on the code, the id and those members only |
| `Layout.HashSwapped` | src/type.cpp:168-184 | right after the two exchanged members are folded in, the running hash equals that of the original order |
| `Layout.HashSwapFrom` | src/type.cpp:168-184 | from there on, every further member keeps the running hashes equal |
| `Layout.HashIgnoresOrder` | src/type.cpp:168-184 | the compiled hash of a Struct or Union is the same whichever of two neighbouring members comes first, so it does not depend on member order |
| `Layout.AcceptedUndotted` | src/type.cpp:101-132 | every name the Member constructor accepts, the empty name included, has no '.' as long as it holds no NUL |
| `Layout.DottedDiffers` | src/type.cpp:189-193 | a name without '.' followed by "." and any key is neither such a name nor a dotted key under another such name |
| `Layout.LookupChild` | src/type.cpp:186 | with distinct member names, every child is in the lookup table under its name at its offset |
| `Layout.LookupDotted` | src/type.cpp:189-195 | with distinct member names, every entry of a sub-struct's table is in the Struct's table as "name.key" at the sub-struct's offset plus the entry's offset |
| `Layout.LookupKeys` | src/type.cpp:186-195 | every key of the table was registered by one of the children, as its name or as a dotted key of a sub-struct |
| `Layout.LookupStep` | src/type.cpp:186-195 | registering a child adds only that child's name and dotted keys |
| `Layout.LookupKeep` | src/type.cpp:186-193 | a key the child does not register keeps its entry |
| `Layout.DottedAt` | src/type.cpp:192-193 | each entry of a sub-struct's table is lifted to "name.key", shifted by the sub-struct's offset |
| `Layout.DottedMiss` | src/type.cpp:192-193 | a key not of the form "name.key" is not lifted |
| `Layout.CompiledLookup` | src/type.cpp:186-195 | the root slot's table holds every child by name at its offset, every entry of a Struct member of a Struct under its dotted path at the shifted offset, and nothing else |
| `Layout.LookupNames` | src/type.cpp:186 | with distinct member names free of '.', the complete table holds every child at its offset |
| `Layout.LookupPaths` | src/type.cpp:189-195 | with distinct member names free of '.', the complete table holds every lifted dotted path |
| `Layout.LookupOnly` | src/type.cpp:186-195 | the complete table holds nothing but child names and lifted paths |
| `CopyTree.CopyTreeRoundTrip` | src/type.cpp:214-226 | the corrected copy gives back every tree (with field-name member names) from any array that describes it |
| `CopyTree.CopyKidsRoundTrip` | src/type.cpp:220-225 | the corrected loop over `miter` gives back the remaining children in order |
| `CopyTree.KidCopied` | src/type.cpp:221-224 | entry k of `miter` points at a slot from which the corrected copy reads child k back |
| `CopyTree.UnionCopyDiverges` | src/type.cpp:220-224 | as written, copying a compiled Union with a first alternative recurses into the Union's own slot without end |
| `CopyTree.SelfLoopDiverges` | src/type.cpp:220-224 | as written, a `miter` whose first entry has offset 0 makes the copy run out of any fuel |
| `CopyTree.ArrayCopyDropsElement` | src/type.cpp:217-225 | as written, copying an array of Struct or Union gives a bare array with no id and no members |
| `CopyTree.CopyPlainStructs` | src/type.cpp:214-226 | as written, the copy is right for trees in which only Structs have members, given fuel for the tree's slots |
| `CopyTree.CopyPlainKids` | src/type.cpp:220-225 | as written, the loop copies the remaining members of such a Struct in order |
| `CopyTree.PlainKidCopied` | src/type.cpp:221-224 | in such a Struct, entry k of `miter` points inside the array, at a slot from which the copy as written reads member k back |
| `CopyTree.RootAsWrittenRejectsIds` | src/type.cpp:228-233 | as written, TypeDef(const Value&) throws the name check's error when the root slot's id is not a field name |
| `CopyTree.CompiledIdRejected` | src/type.cpp:228-233 | hence, as written, any compiled tree whose type id is not a field name cannot be read back |
| `CopyTree.RootRoundTrip` | src/type.cpp:228-243 | the corrected TypeDef(const Value&) gives back the unnamed tree that was compiled |
| `Merge.FindChild` | src/type.cpp:250-251 | the search finds the first child with the name, or reports that none has it |
| `Merge.AppendTree` | src/type.cpp:247-271 | on success append_tree keeps the node's own fields and every existing child's name and compound-ness, never removes a child, leaves every child of another name unchanged, and a child with the adopted name is present; the only failure is KindChange |
| `Merge.AppendAll` | src/type.cpp:284-286 | merging a list (the loop of operator+=, and the same loop over the grandchildren at src/type.cpp:262-264) keeps the node's own fields and every existing child's name and compound-ness, and on success a child of each adopted member's name is present; the only failure is KindChange |
| `Merge.AppendAllKeepsOthers` | src/type.cpp:247-286 | a child that no adopted member names comes out of merging the list unchanged |
| `Merge.MergeInPlace` | src/type.cpp:251-265 | an existing child is merged where it stands: no other child changes; it keeps its name, takes the adopted code and, when the adopted id is not empty, the id; it keeps every member it had with its name and compound-ness, and holds a member of each name among the adopted member's members |
| `Merge.AppendNew` | src/type.cpp:269-270 | a new name is appended after all existing children |
| `Merge.KindChangeRefused` | src/type.cpp:254-256 | turning a compound child into a non-compound one, or the other way round, fails |
| `Merge.AppendOwnMembers` | src/type.cpp:247-271 | merging a tree's own members back in (with distinct names) changes nothing |
| `Merge.MergeOwnChild` | src/type.cpp:247-266 | merging one of a tree's own members back in changes nothing |
| `Merge.AppendTreeInPlace` | src/type.cpp:247-271 | the search loop then the merge or append computes append_tree |
| `Merge.AppendAllInPlace` | src/type.cpp:262-264 | the loop over the adopted members computes the merge of the list, stopping at the first error |
| `Values.CompiledType.constructor` | src/type.cpp:205-208 | a compiled type keeps the slots it was built with |
| `Values.Value.Empty` | src/pvxs/data.h:347-348 | a default Value has no storage and no type, and is not valid |
| `Values.Value.Instance` | src/pvxs/data.h:350-351 | the Value create() builds has fresh storage and the top slot of the compiled type, and is valid |
| `Values.Value.Copy` | src/pvxs/data.h:355 | a copy shares storage and type slot: compareInst and compareType hold |
| `Values.Value.Move` | src/pvxs/data.h:356-361 | move construction takes storage and type slot and leaves the source empty and invalid |
| `Values.Value.Assign` | src/pvxs/data.h:362 | copy assignment shares storage and type slot |
| `Values.Value.MoveAssign` | src/pvxs/data.h:363-368 | move assignment takes storage and type slot and leaves the source invalid; moving a Value onto itself keeps the storage but leaves it invalid |
| `TypeDefs.MemberBox.constructor` | src/type.cpp:203 | a new shared top has one holder |
| `TypeDefs.TypeDef.Empty` | src/pvxs/data.h:274 | a default TypeDef has no top and no compiled type |
| `TypeDefs.TypeDef.Holding` | src/type.cpp:210-211 | the TypeDef holds the given top and compiled type |
| `TypeDefs.TypeDef.Copy` | src/pvxs/data.h:276 | a copied TypeDef shares top and compiled type, and the top gains a holder |
| `TypeDefs.TypeDef.Assign` | src/pvxs/data.h:278 | copy assignment shares both pointers; when the top changes, the new top gains a holder and the old top loses one (or is released when held only here); members are unchanged |
| `TypeDefs.TypeDef.Define` | src/type.cpp:201-212 | TypeDef(code, id, children) throws what the Member constructor throws; otherwise its top is that unnamed Member, held once, and its compiled type is Compile(top) |
| `TypeDefs.TypeDef.FromValue` | src/type.cpp:228-243 | an invalid Value gives an empty TypeDef; otherwise the tree read back from the Value's slot (corrected reading) becomes the top, and its compiled type is Compile(top) |
| `TypeDefs.TypeDef.Append` | src/type.cpp:273-299 | operator+= fails unless the top is a Struct or Union; a sole holder's top is edited where it is and is cleared on a failed merge; a shared top is copied, its other holders see no change, and a failed merge leaves it in place; on success the top is the merged tree, held once, and the compiled type is Compile(top) |
| `TypeDefs.TypeDef.CompileType` | src/type.cpp:290-293 | build_tree into a fresh vector gives a compiled type holding Compile(m) |
| `TypeDefs.TypeDef.Create` | src/type.cpp:301-307 | create() throws on an empty TypeDef and otherwise returns a valid Value on the top slot of the compiled type |
| `Iteration.StepConsults` | src/pvxs/data.h:568-573 | ++ moves pos on by one and consults _iter_advance exactly when iterating over marked fields and pos has reached nextcheck |
| `Iteration.UnmarkedSteps` | src/pvxs/data.h:568-573 | without marks, n increments move exactly n fields on |
| `Iteration.CheckedRunSteps` | src/pvxs/data.h:545-573 | fields before nextcheck are taken one by one without consulting _iter_advance |
| `Iteration.Iter.Default` | src/pvxs/data.h:551 | a default iterator is at field 0 with nothing marked |
| `Iteration.Iter.constructor` | src/pvxs/data.h:552-554 | a new iterator has nextcheck equal to pos |
| `Iteration.Iter.Increment` | src/pvxs/data.h:568-573 | prefix ++ performs one Step: pos + 1, then _iter_advance only when marked and pos has reached nextcheck |
| `Iteration.Iter.PostIncrement` | src/pvxs/data.h:574-580 | postfix ++ returns a copy of the iterator as it was and performs one Step |
| `StorageMapping.StoreOf` | src/pvxs/data.h:46-83 | StorageMap gives a storage kind exactly when a specialisation matches, and then that specialisation's kind |
| `StorageMapping.SpecialisationsDisjoint` | src/pvxs/data.h:46-83 | no type matches two specialisations |
| `StorageMapping.IntegerStorageMatchesCode` | src/pvxs/data.h:46-54 | an integer type is stored as UInteger exactly when the type code of its width is unsigned, and that code's size is the type's width |
| `WorkedLayouts.TimeStampIs` | test/testxcode.cpp:76-88 | the part-by-part predicate is exactly the timeStamp_t tree |
| `WorkedLayouts.TimeStampLayout` | test/testxcode.cpp:76-88 | timeStamp_t compiles to four slots: the struct, then int64, int32, int32 at offsets 1 to 3 with those parent indices, `miter` in declaration order and the lookup table of the listing |
| `WorkedLayouts.TimeStampShape` | test/testxcode.cpp:78-84 | the slot count, offsets, `miter` and lookup table of timeStamp_t |
| `WorkedLayouts.DimensionsIs` | test/testxcode.cpp:366-382 | the part-by-part predicate is exactly the dimension tree: a struct[] of dimension_t with its five members size, offset, fullSize, binning (int32) and reverse (bool) |
| `WorkedLayouts.DimensionsLayout` | test/testxcode.cpp:366-382 | a struct[] member takes one slot with an empty table and no dotted names in the outer table; its `members` hold the dimension_t struct with the listing's five-entry table (size 1, offset 2, fullSize 3, binning 4, reverse 5) |
| `WorkedLayouts.DimensionsShape` | test/testxcode.cpp:366-382 | the outer struct takes two slots with dimension at offset 1; dimension_t takes six slots ([0:6) in the listing) with the five-entry table size 1, offset 2, fullSize 3, binning 4, reverse 5 |
| `WorkedLayouts.ArrayElementSlot` | src/type.cpp:145-158 | a described array of Struct or Union holds the element's slot, with the scalar code and the array's id, in `members` |
| `WorkedLayouts.AlarmIs` | test/testxcode.cpp:148-157 | the part-by-part predicate is exactly the alarm_t tree |
| `WorkedLayouts.ScalarArrayIs` | test/testxcode.cpp:134-157 | the part-by-part predicate is exactly the value-and-alarm part of NTScalarArray |
| `WorkedLayouts.ScalarArrayTable` | test/testxcode.cpp:134-157 | value and alarm take six slots, and the outer table holds "value", "alarm" and the lifted "alarm.severity", "alarm.status", "alarm.message" at the offsets of the listing |
| `WorkedLayouts.ScalarArrayAlarm` | test/testxcode.cpp:148-157 | the alarm struct is slot 2 with parent index 2 and its own table of relative offsets; its first member points 1 back and its last is a string |
| `WorkedLayouts.AlarmPlaced` | test/testxcode.cpp:148 | the alarm struct is described from slot 2 on |
| `WorkedLayouts.AlarmHead` | test/testxcode.cpp:148-154 | the alarm struct's slot has its table |
| `WorkedLayouts.AlarmFirst` | test/testxcode.cpp:155 | the alarm struct's first member records a parent index of 1 |
| `WorkedLayouts.AlarmLast` | test/testxcode.cpp:157 | the alarm struct's last member is a string |
| `WorkedLayouts.AlarmOffsets` | test/testxcode.cpp:148-157 | alarm_t takes four slots with members at offsets 1 to 3 |
| `WorkedLayouts.AlarmLookup` | test/testxcode.cpp:149-151 | the lookup table of alarm_t |
| `WorkedLayouts.ScalarArrayOffsets` | test/testxcode.cpp:143-148 | value at offset 1 and alarm at offset 2 |
| `WorkedLayouts.ScalarArrayLookup` | test/testxcode.cpp:135-143 | the outer lookup table, with the dotted alarm keys |
| `WorkedLayouts.LookupAfterStruct` | src/type.cpp:186-195 | registering a Struct member of a Struct adds its name and its lifted table |
| `WorkedLayouts.DottedAlarm` | test/testxcode.cpp:136-138 | alarm's table lifted at offset 2 is the three dotted keys of the listing |
| `WorkedLayouts.ScalarArrayFromValue` | src/type.cpp:228-243 | reading NTScalarArray back as written throws, because its type id is checked as a field name; the corrected reading gives back the definition |
| `WorkedLayouts.ScalarArrayIdRejected` | src/type.cpp:100-122 | "epics:nt/NTScalarArray:1.0" is not a field name |
| `WorkedLayouts.ScalarArrayNames` | src/type.cpp:100-122 | every member name of NTScalarArray is a field name |
| `WorkedLayouts.AlarmNames` | src/type.cpp:100-122 | every member name of alarm_t is a field name |
| `WorkedLayouts.FieldNames` | src/type.cpp:100-122 | severity, status, message, value and alarm are field names |
| `WorkedLayouts.FieldName` | src/type.cpp:107-112 | a name of letters only is a field name |

`Iter::operator==` (src/pvxs/data.h:581) is `Iteration.Iter.Equals`, and
`compareInst`/`compareType` (src/pvxs/data.h:402-404) are
`Values.Value.CompareInst`/`CompareType`. These are predicates with nothing
to ensure, so they have no rows of their own. `Values.Value.Copy` and
`Values.Value.Move` state what they mean. `TypeCode::valid()` as written and
as intended are `TypeCodes.TypeCode.ValidAsWritten` and
`TypeCodes.TypeCode.Valid`.

Other functions model source functions directly. Their properties are
stated by the lemmas in the table, not by contracts of their own:

- `kind()`, `order()`, `size()`, `isunsigned()`, `isarray()`, `arrayOf()`
  and `scalarOf()` (src/pvxs/data.h:141-158) are `TypeCodes.TypeCode.Kind`,
  `Order`, `Size`, `IsUnsigned`, `IsArray`, `ArrayOf` and `ScalarOf`.
  `TypeCode::name()` (src/type.cpp:46-86) is `TypeCodes.TypeCode.Name`, over
  the switch table `TypeCodes.Label`.
- The checks of name_validate (src/type.cpp:101-122) are
  `Members.NameCheck`. The Member constructor (src/type.cpp:124-133) is
  specified by `Members.MemberOf`, and a run of addChild calls by
  `Members.AddChildren`.
- copy_tree as written (src/type.cpp:215-226) is
  `CopyTree.CopyTreeAsWritten` with its miter loop
  `CopyTree.CopyKidsAsWritten`. The corrected reading is `CopyTree.CopyTree`
  with `CopyTree.CopyKids`.
- The root built by TypeDef(const Value&) (src/type.cpp:228-233) is
  `CopyTree.RootAsWritten` as written and `CopyTree.Root` corrected.
- The retyping of a matched child in append_tree (src/type.cpp:258-260) is
  `Merge.Retyped`.
- `Iter::operator++`'s step (src/pvxs/data.h:568-573) is `Iteration.Step`,
  with its condition `Iteration.NeedsCheck`. `Iteration.Steps` is n steps in
  a row.
- The integer and floating-point specialisations of StorageMap
  (src/pvxs/data.h:46-83) are `StorageMapping.Specialisations`.

## Left out

- I/O, the wire codec (`from_wire`, `to_wire`, `TypeStore`) and stream
  formatting (`show_Node`, `show_FieldDesc`, `operator<<`) are not modelled.
  The listings of test/testxcode.cpp are used only as expected layouts for
  `build_tree`.
- The transport in src/serverconn.cpp, logging in src/pvxs/log.h, and the
  helpers of src/utilpvt.h (locks, string builder, aligned storage) are not
  part of this model.
- `std::hash<std::string>` is an arbitrary function parameter. No property
  depends on what it computes.
- `Value::_iter_advance` and `_iter_deref` are not shown, so advance is a
  parameter. Also not modelled: marking, path traversal, copyIn/copyOut,
  clone/assign and the FieldStorage layout, which are all in files that are
  not part of this model. `Value` is modelled as its two pointers only.
- `shared_ptr` reference counts are modelled only for a `TypeDef`'s top, as
  a holder count. The destructors of TypeDef and Value, and the aliasing of
  the compiled vector through its first slot, are not modelled: a compiled
  type is an object holding its slots.
- Members.NewMember and Members.AddChild: when a child is rejected, the
  exception leaves behind the children added before it. The model returns
  the error instead of that partly built Member, which the caller never sees.
- Compiler.BuildTree: for an array of Struct or Union, build_tree builds
  the element with the two-argument Member constructor, which checks the
  name again (src/type.cpp:153). The fields of Member are public
  (src/pvxs/data.h:176-180), so a name can be set without that check; the
  model assumes every member name came through a constructor. For a
  Struct or Union array whose name fails the check, build_tree throws
  while `BuildTree` succeeds.
- CopyTree.CopyTreeAsWritten: copy_tree has no guard against offsets that
  point past the array or back into the same slot. The model reports the
  first as `OutOfRange` and bounds the recursion with fuel, reporting
  `OutOfFuel`; the program would read out of bounds or overflow its stack.
- TypeDefs.TypeDef.FromValue: requires that the Value's slot lies inside its
  compiled type, which every Value built by create() satisfies. It uses the
  corrected reading of copy_tree (see Findings); the as-written reading is
  `CopyTree.RootAsWritten`.
- TypeDefs.TypeDef.Append: a failure while compiling, such as memory
  exhaustion, is not modelled; only the merge can fail.
- Move-assignment and move-construction of TypeDef are not modelled: they
  are the defaulted moves of the two shared pointers.
- Merge.AppendTree: its contract states what the merge keeps. The exact
  result is stated by `Merge.MergeInPlace`, `Merge.AppendNew` and
  `Merge.KindChangeRefused`.
- Layout.LookupChild: assumes distinct member names with no '.' in them
  (`Layout.DistinctNames`). Every name the constructor accepts without an
  embedded NUL has no '.' (`Layout.AcceptedUndotted`). Distinctness is not
  checked by the source: with a repeated name the later child overwrites
  the earlier entry.
- Layout.LookupDotted: the same assumption as Layout.LookupChild, for the
  same reason.
- Layout.CompiledLookup: the same assumption as Layout.LookupChild, for the
  same reason.
- Layout.LookupNames: the same assumption as Layout.LookupChild, for the
  same reason.
- Layout.LookupPaths: the same assumption as Layout.LookupChild, for the
  same reason.

## Findings

| source | as written | input that shows it | evidently intended | confidence | as-written member | corrected member |
|---|---|---|---|---|---|---|
| src/type.cpp:19-38 | `valid()` compares `scalarOf().code` against the listed codes, and scalarOf clears bit 3, so the `Null` label (0xff) can never match | `TypeCode(0xff).valid()` is false | Null is valid: the fixed-size test on line 19 exempts it explicitly and the switch lists it | not executed | `TypeCodes.ValidAsWrittenRejectsNull` | `TypeCodes.ValidIsEnumerator` |
| src/type.cpp:220-224 | copy_tree reads every `miter` offset from the slot it was given. A Union's alternatives are in its own `members`, so offset 0 is the Union's own slot | a Union with one alternative: the copy recurses into the same slot forever | a Union's alternatives are read from its `members` | not executed | `CopyTree.UnionCopyDiverges` | `CopyTree.CopyTreeRoundTrip` |
| src/type.cpp:217-225 | the slot of an array of Struct or Union has no `miter` and no id; its element type is in `members`, which copy_tree never reads | a struct[] member with members comes back as a bare struct[] | the element's id and members are read from `members` | not executed | `CopyTree.ArrayCopyDropsElement` | `CopyTree.CopyTreeRoundTrip` |
| src/type.cpp:231 | TypeDef(const Value&) builds the root with the two-argument Member constructor, passing the type id as the field name, which is then checked as a name | any Value of a type whose id holds ':' or '/', such as "epics:nt/NTScalarArray:1.0", makes the constructor throw | the root is unnamed and carries the id | not executed | `WorkedLayouts.ScalarArrayFromValue` | `CopyTree.RootRoundTrip` |
