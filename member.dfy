/** The builder-side description of a type (struct Member in pvxs/data.h)
  * and the checks its constructors make (name_validate, node_validate and
  * the Member constructor in type.cpp). */
module Members {
  import opened Errors
  import opened TypeCodes

  /** A node of a type description: its code, field name, type id and the
    * ordered member fields. Members are copied by value wherever the C++
    * code stores them, so the model is a datatype. */
  datatype Member = Member(code: TypeCode, name: string, id: string, children: seq<Member>)

  predicate IsDigit(ch: char) { '0' <= ch <= '9' }

  predicate IsAlpha(ch: char) { 'a' <= ch <= 'z' || 'A' <= ch <= 'Z' }

  /** The field-name grammar [A-Za-z_][A-Za-z0-9_]*. */
  predicate IsIdentifier(s: string) {
    && |s| > 0
    && (IsAlpha(s[0]) || s[0] == '_')
    && forall i :: 1 <= i < |s| ==> IsAlpha(s[i]) || IsDigit(s[i]) || s[i] == '_'
  }

  /** What name.c_str() shows of a string: everything before its first NUL. */
  function CStr(s: string): (r: string)
    ensures |r| <= |s| && r == s[..|r|]
    ensures forall i :: 0 <= i < |r| ==> r[i] != '\0'
    ensures |r| < |s| ==> s[|r|] == '\0'
  {
    if s == [] || s[0] == '\0' then [] else [s[0]] + CStr(s[1..])
  }

  /** One character of the loop in name_validate: a digit after the first
    * position, a letter, or an underscore. */
  predicate NameCharOk(s: string, i: nat)
    requires i < |s|
  {
    (IsDigit(s[i]) && i > 0) || IsAlpha(s[i]) || s[i] == '_'
  }

  /** name_validate: what the checking loop decides about a name. */
  function NameCheck(name: string): Outcome {
    if CStr(name) == [] then Fail(EmptyName)
    else if IsIdentifier(CStr(name)) then Pass
    else Fail(InvalidName(name))
  }

  /** name_validate as the character loop it is. A name is read as a C
    * string, so it is checked only up to its first NUL. */
  method NameValidate(name: string) returns (r: Outcome)
    ensures r == NameCheck(name)
    ensures r == Pass <==> IsIdentifier(CStr(name))
    ensures r == Fail(EmptyName) <==> CStr(name) == []
  {
    if |name| == 0 || name[0] == '\0' {
      return Fail(EmptyName);
    }
    var i := 0;
    while i < |name| && name[i] != '\0'
      invariant 0 <= i <= |CStr(name)|
      invariant forall j :: 0 <= j < i ==> NameCharOk(CStr(name), j)
    {
      var c := name[i];
      if IsDigit(c) && i > 0 {
        // a digit is fine after the first character
      } else if IsAlpha(c) {
        // letters are fine anywhere
      } else if c != '_' {
        assert CStr(name)[i] == c && !NameCharOk(CStr(name), i);
        return Fail(InvalidName(name));
      }
      i := i + 1;
    }
    assert i == |CStr(name)|;
    CharsOkIsIdentifier(CStr(name));
    return Pass;
  }

  lemma CharsOkIsIdentifier(s: string)
    requires |s| > 0 && forall j :: 0 <= j < |s| ==> NameCharOk(s, j)
    ensures IsIdentifier(s)
  {
    assert NameCharOk(s, 0);
    forall i | 1 <= i < |s| ensures IsAlpha(s[i]) || IsDigit(s[i]) || s[i] == '_' {
      assert NameCharOk(s, i);
    }
  }

  /** A name the Member constructor accepts: the empty name is not checked. */
  predicate NameAccepted(name: string) {
    name == [] || NameCheck(name) == Pass
  }

  /** node_validate: may a field with this id and code be a member of the
    * given parent? Only Struct and Union carry an id, and only Struct,
    * Union and their arrays have members. */
  function NodeValidate(parent: Option<TypeCode>, id: string, code: TypeCode): (r: Outcome)
    ensures r == Pass <==>
      (id == [] || IsStructOrUnion(code)) && (parent.None? || IsStructOrUnion(parent.value.ScalarOf()))
    ensures r.Fail? ==> r.error == IdOnNonCompound || r.error == MembersOnNonCompound
  {
    if id != [] && code != Struct && code != Union then Fail(IdOnNonCompound)
    else if parent.Some? && parent.value.ScalarOf() != Struct && parent.value.ScalarOf() != Union then
      Fail(MembersOnNonCompound)
    else Pass
  }

  predicate ChildAllowed(parent: TypeCode, child: Member) {
    NodeValidate(Some(parent), child.id, child.code) == Pass
  }

  /** The first node_validate failure among the children, in order. */
  function CheckChildren(parent: TypeCode, children: seq<Member>): (r: Outcome)
    ensures r == Pass <==> forall j :: 0 <= j < |children| ==> ChildAllowed(parent, children[j])
    ensures r.Fail? ==>
      exists j :: 0 <= j < |children| && !ChildAllowed(parent, children[j])
        && r == NodeValidate(Some(parent), children[j].id, children[j].code)
  {
    if children == [] then Pass
    else match NodeValidate(Some(parent), children[0].id, children[0].code)
      case Fail(e) => Fail(e)
      case Pass =>
        var rest := CheckChildren(parent, children[1..]);
        assert forall j :: 1 <= j < |children| ==> children[j] == children[1..][j - 1];
        rest
  }

  /** The Member constructor: the name is checked when it is not empty, then
    * every child is checked against this node in order. */
  function MemberOf(code: TypeCode, name: string, id: string, children: seq<Member>): Result<Member> {
    if !NameAccepted(name) then Err(NameCheck(name).error)
    else match CheckChildren(code, children)
      case Fail(e) => Err(e)
      case Pass => Ok(Member(code, name, id, children))
  }

  /** The Member constructor, with its loop over the children. */
  method NewMember(code: TypeCode, name: string, id: string, children: seq<Member>) returns (r: Result<Member>)
    ensures r == MemberOf(code, name, id, children)
    ensures r.Ok? <==> NameAccepted(name) && forall j :: 0 <= j < |children| ==> ChildAllowed(code, children[j])
    ensures r.Ok? ==> r.value == Member(code, name, id, children)
  {
    if name != [] {
      var o := NameValidate(name);
      if o.Fail? {
        return Err(o.error);
      }
    }
    var kids: seq<Member> := [];
    var i := 0;
    while i < |children|
      invariant 0 <= i <= |children|
      invariant kids == children[..i]
      invariant CheckChildren(code, children) == CheckChildren(code, children[i..])
    {
      var o := NodeValidate(Some(code), children[i].id, children[i].code);
      assert children[i..][0] == children[i] && children[i..][1..] == children[i + 1..];
      if o.Fail? {
        return Err(o.error);
      }
      kids := kids + [children[i]];
      i := i + 1;
    }
    assert kids == children;
    return Ok(Member(code, name, id, kids));
  }

  /** Member::addChild: checks the new child against this node, then
    * appends it after the existing children. */
  function AddChild(m: Member, child: Member): (r: Result<Member>)
    ensures r.Ok? <==> ChildAllowed(m.code, child)
    ensures r.Ok? ==> (r.value.children == m.children + [child] && r.value.(children := m.children) == m)
  {
    match NodeValidate(Some(m.code), child.id, child.code)
    case Fail(e) => Err(e)
    case Pass => Ok(m.(children := m.children + [child]))
  }

  /** addChild applied to each child in turn. */
  function AddChildren(m: Member, children: seq<Member>): Result<Member>
    decreases |children|
  {
    if children == [] then Ok(m)
    else match AddChild(m, children[0])
      case Err(e) => Err(e)
      case Ok(m') => AddChildren(m', children[1..])
  }

  /** Passing the children to the constructor and adding them one by one
    * with addChild build the same Member and fail with the same error. */
  lemma {:induction false} AddChildrenLikeConstructor(code: TypeCode, name: string, id: string, pre: seq<Member>, children: seq<Member>)
    decreases |children|
    ensures AddChildren(Member(code, name, id, pre), children) ==
      match CheckChildren(code, children)
      case Fail(e) => Err(e)
      case Pass => Ok(Member(code, name, id, pre + children))
  {
    if children != [] {
      var m := Member(code, name, id, pre);
      match NodeValidate(Some(code), children[0].id, children[0].code)
      case Fail(e) =>
        assert AddChild(m, children[0]) == Err(e);
        assert CheckChildren(code, children) == Fail(e);
      case Pass =>
        var m' := Member(code, name, id, pre + [children[0]]);
        assert AddChild(m, children[0]) == Ok(m');
        assert AddChildren(m, children) == AddChildren(m', children[1..]);
        assert CheckChildren(code, children) == CheckChildren(code, children[1..]);
        AddChildrenLikeConstructor(code, name, id, pre + [children[0]], children[1..]);
        assert pre + [children[0]] + children[1..] == pre + children;
    } else {
      assert pre + children == pre;
    }
  }

  /** Hence, for an accepted name, the constructor equals building an empty
    * Member and calling addChild for each child. */
  lemma ConstructorIsAddChildren(code: TypeCode, name: string, id: string, children: seq<Member>)
    requires NameAccepted(name)
    ensures MemberOf(code, name, id, children) == AddChildren(Member(code, name, id, []), children)
  {
    AddChildrenLikeConstructor(code, name, id, [], children);
    assert [] + children == children;
  }

  /** The digit rule depends on the position: "x1" is a field name, "1x"
    * is not. */
  lemma NameExamples()
    ensures NameCheck("_x9") == Pass
    ensures NameCheck("1x") == Fail(InvalidName("1x"))
  {
    NoNulIsWhole("_x9");
    NoNulIsWhole("1x");
    assert !IsIdentifier("1x");
  }

  /** A path is not a field name, and the empty name is reported as such. */
  lemma NameExamplesPathAndEmpty()
    ensures NameCheck("a.b") == Fail(InvalidName("a.b"))
    ensures NameCheck("") == Fail(EmptyName)
  {
    NoNulIsWhole("a.b");
    assert !IsIdentifier("a.b") by {
      assert "a.b"[1] == '.';
    }
  }

  lemma NoNulIsWhole(s: string)
    requires forall i :: 0 <= i < |s| ==> s[i] != '\0'
    ensures CStr(s) == s
  {
  }
}
