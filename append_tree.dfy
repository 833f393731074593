/** Merging new members into a Member tree by name (append_tree in
  * type.cpp), as used by TypeDef::operator+=. */
module Merge {
  import opened Errors
  import opened TypeCodes
  import opened Members

  /** The first child called `name`, as the search loop of append_tree
    * finds it. */
  function FindChild(children: seq<Member>, name: string): (r: Option<nat>)
    ensures r.Some? ==>
      && r.value < |children| && children[r.value].name == name
      && forall k :: 0 <= k < r.value ==> children[k].name != name
    ensures r.None? <==> forall k :: 0 <= k < |children| ==> children[k].name != name
  {
    if children == [] then None
    else if children[0].name == name then Some(0)
    else match FindChild(children[1..], name)
      case None =>
        assert forall k :: 1 <= k < |children| ==> children[k] == children[1..][k - 1];
        None
      case Some(j) => Some(j + 1)
  }

  /** A matched child once the adopted member's code is taken over: its id
    * changes only when the adopted member carries one. */
  function Retyped(child: Member, adopt: Member): Member {
    child.(code := adopt.code, id := if adopt.id != [] then adopt.id else child.id)
  }

  /** append_tree: merge `adopt` into the children of `node`. A child of
    * the same name takes the adopted code (and id, when one is given) and
    * has the adopted member's own members merged into it; switching
    * between a compound and a non-compound kind is refused. A new name is
    * appended after the existing children. */
  function AppendTree(node: Member, adopt: Member): (r: Result<Member>)
    decreases adopt.children, 1
    ensures r.Ok? ==> r.value.(children := node.children) == node
    ensures r.Ok? ==> |r.value.children| >= |node.children|
    ensures r.Ok? ==> forall k :: 0 <= k < |node.children| ==>
      && r.value.children[k].name == node.children[k].name
      && IsCompound(r.value.children[k].code) == IsCompound(node.children[k].code)
    ensures r.Ok? ==> exists k :: 0 <= k < |r.value.children| && r.value.children[k].name == adopt.name
    ensures r.Ok? ==> forall k :: 0 <= k < |node.children| && node.children[k].name != adopt.name ==>
      r.value.children[k] == node.children[k]
    ensures r.Err? ==> r.error.KindChange?
  {
    match FindChild(node.children, adopt.name)
    case None =>
      var r := node.(children := node.children + [adopt]);
      assert r.children[|node.children|] == adopt;
      Ok(r)
    case Some(j) =>
      var child := node.children[j];
      if IsCompound(child.code) != IsCompound(adopt.code) then Err(KindChange(adopt.name))
      else match AppendAll(Retyped(child, adopt), adopt.children)
        case Err(e) => Err(e)
        case Ok(c) => Ok(node.(children := node.children[j := c]))
  }

  /** No member of `adopts` is called `name`. */
  predicate NoneNamed(adopts: seq<Member>, name: string) {
    forall a :: a in adopts ==> a.name != name
  }

  /** append_tree applied to each adopted member in turn, stopping at the
    * first failure. */
  function AppendAll(node: Member, adopts: seq<Member>): (r: Result<Member>)
    decreases adopts, 0
    ensures r.Ok? ==> r.value.(children := node.children) == node
    ensures r.Ok? ==> |r.value.children| >= |node.children|
    ensures r.Ok? ==> forall k :: 0 <= k < |node.children| ==>
      && r.value.children[k].name == node.children[k].name
      && IsCompound(r.value.children[k].code) == IsCompound(node.children[k].code)
    ensures r.Ok? ==> forall a :: a in adopts ==>
      exists k :: 0 <= k < |r.value.children| && r.value.children[k].name == a.name
    ensures r.Err? ==> r.error.KindChange?
  {
    if adopts == [] then Ok(node)
    else match AppendTree(node, adopts[0])
      case Err(e) => Err(e)
      case Ok(n) =>
        var r := AppendAll(n, adopts[1..]);
        assert forall a :: a in adopts && a != adopts[0] ==> a in adopts[1..];
        r
  }

  /** A child that no adopted member names comes out of the merge as it
    * went in. */
  lemma {:induction false} AppendAllKeepsOthers(node: Member, adopts: seq<Member>, k: nat)
    requires AppendAll(node, adopts).Ok? && k < |node.children| && NoneNamed(adopts, node.children[k].name)
    ensures AppendAll(node, adopts).value.children[k] == node.children[k]
    decreases adopts
  {
    if adopts != [] {
      var n := AppendTree(node, adopts[0]).value;
      assert adopts[0] in adopts;
      assert forall a :: a in adopts[1..] ==> a in adopts;
      assert n.children[k] == node.children[k];
      AppendAllKeepsOthers(n, adopts[1..], k);
    }
  }

  /** An existing child is merged where it stands: no other child changes,
    * and the merged one keeps its name, takes the adopted code and, when
    * given, id, keeps every member it had (name and compound-ness) and
    * gains a member of each adopted member's name. */
  lemma MergeInPlace(node: Member, adopt: Member, j: nat)
    requires FindChild(node.children, adopt.name) == Some(j)
    requires AppendTree(node, adopt).Ok?
    ensures var r := AppendTree(node, adopt).value;
      && |r.children| == |node.children|
      && (forall k :: 0 <= k < |node.children| && k != j ==> r.children[k] == node.children[k])
      && r.children[j].name == adopt.name && r.children[j].code == adopt.code
      && r.children[j].id == (if adopt.id != [] then adopt.id else node.children[j].id)
      && |r.children[j].children| >= |node.children[j].children|
      && (forall k :: 0 <= k < |node.children[j].children| ==>
            && r.children[j].children[k].name == node.children[j].children[k].name
            && IsCompound(r.children[j].children[k].code) == IsCompound(node.children[j].children[k].code))
      && (forall a :: a in adopt.children ==>
            exists k :: 0 <= k < |r.children[j].children| && r.children[j].children[k].name == a.name)
  {
  }

  /** A new name is appended after every existing child. */
  lemma AppendNew(node: Member, adopt: Member)
    requires forall k :: 0 <= k < |node.children| ==> node.children[k].name != adopt.name
    ensures AppendTree(node, adopt) == Ok(node.(children := node.children + [adopt]))
  {
  }

  /** Merging fails with KindChange when the child of that name is
    * compound and the adopted member is not, or the other way round. */
  lemma KindChangeRefused(node: Member, adopt: Member, j: nat)
    requires FindChild(node.children, adopt.name) == Some(j)
    requires IsCompound(node.children[j].code) != IsCompound(adopt.code)
    ensures AppendTree(node, adopt) == Err(KindChange(adopt.name))
  {
  }

  /** Every node of the tree has children with pairwise distinct names. */
  predicate UniqueNames(m: Member) {
    && (forall j, k :: 0 <= j < k < |m.children| ==> m.children[j].name != m.children[k].name)
    && forall k :: 0 <= k < |m.children| ==> UniqueNames(m.children[k])
  }

  /** Merging a tree's own members back into it changes nothing. */
  lemma {:induction false} AppendOwnMembers(m: Member, k: nat)
    requires UniqueNames(m) && k <= |m.children|
    ensures AppendAll(m, m.children[k..]) == Ok(m)
    decreases m.children, 1, |m.children| - k
  {
    if k < |m.children| {
      MergeOwnChild(m, k);
      assert m.children[k..][1..] == m.children[k + 1..];
      AppendOwnMembers(m, k + 1);
    }
  }

  lemma {:induction false} MergeOwnChild(m: Member, j: nat)
    requires UniqueNames(m) && j < |m.children|
    ensures AppendTree(m, m.children[j]) == Ok(m)
    decreases m.children, 0
  {
    var c := m.children[j];
    assert FindChild(m.children, c.name) == Some(j);
    assert Retyped(c, c) == c;
    AppendOwnMembers(c, 0);
    assert c.children[0..] == c.children;
    assert m.children[j := c] == m.children;
  }

  // ---------------------------------------------------------------------
  // append_tree as the loops it is.

  /** The search over the children, then the merge or the append. */
  method AppendTreeInPlace(node: Member, adopt: Member) returns (r: Result<Member>)
    ensures r == AppendTree(node, adopt)
    decreases adopt.children, 1
  {
    var i := 0;
    while i < |node.children|
      invariant 0 <= i <= |node.children|
      invariant forall k :: 0 <= k < i ==> node.children[k].name != adopt.name
    {
      var child := node.children[i];
      if child.name == adopt.name {
        assert FindChild(node.children, adopt.name) == Some(i);
        if IsCompound(child.code) != IsCompound(adopt.code) {
          return Err(KindChange(adopt.name));
        }
        var merged := AppendAllInPlace(Retyped(child, adopt), adopt.children);
        if merged.Err? {
          return Err(merged.error);
        }
        return Ok(node.(children := node.children[i := merged.value]));
      }
      i := i + 1;
    }
    return Ok(node.(children := node.children + [adopt]));
  }

  /** The loop over the adopted members. */
  method AppendAllInPlace(node: Member, adopts: seq<Member>) returns (r: Result<Member>)
    ensures r == AppendAll(node, adopts)
    decreases adopts, 0
  {
    var cur := node;
    var g := 0;
    while g < |adopts|
      invariant 0 <= g <= |adopts|
      invariant AppendAll(node, adopts) == AppendAll(cur, adopts[g..])
    {
      assert adopts[g..][0] == adopts[g] && adopts[g..][1..] == adopts[g + 1..];
      var step := AppendTreeInPlace(cur, adopts[g]);
      if step.Err? {
        return Err(step.error);
      }
      cur := step.value;
      g := g + 1;
    }
    assert adopts[g..] == [];
    return Ok(cur);
  }
}
