/** What build_tree's output promises about where each member lands and
  * under which names it can be found, stated over Compile. */
module Layout {
  import opened TypeCodes
  import opened Members
  import opened Hashing
  import opened Shape
  import opened FieldDescs
  import opened Compiler

  /** Child `k` of a described node sits at its offset in `src`, records its
    * distance back, and is itself described there. */
  lemma {:induction false} KidAt(node: Member, src: seq<FieldDesc>, i: nat, k: nat, h: Hasher)
    requires k < i <= |node.children| && DescribesKids(node, src, i, h)
    ensures Offset(node, k) < |src|
    ensures src[Offset(node, k)].parentIndex == (if node.code == Struct then Offset(node, k) else 0)
    ensures Describes(node.children[k], src[Offset(node, k)..], h)
    decreases i
  {
    if k < i - 1 {
      KidAt(node, src, i - 1, k, h);
    }
  }

  /** The members of a Struct are laid out one after the other: child `k`
    * starts where child `k - 1` ends, and the last one ends where the
    * Struct's subtree ends. */
  lemma StructSpans(node: Member, k: nat)
    requires node.code == Struct && k < |node.children|
    ensures Offset(node, k + 1) == Offset(node, k) + Size(node.children[k])
    ensures Offset(node, |node.children|) == Size(node)
  {
  }

  /** The layout of a compiled Struct: child `k` is at its offset inside
    * the Struct's contiguous block, carries the child's code, records
    * `parent_index` equal to that offset (so the Struct's own slot is
    * recoverable from it), its subtree fits in the block, and `miter` lists
    * it in position `k` with that offset. */
  lemma StructChildPlaced(node: Member, h: Hasher, k: nat)
    requires node.code == Struct && k < |node.children|
    ensures var cs, off := Compile(node, h), Offset(node, k);
      && 1 <= off && off + Size(node.children[k]) <= |cs|
      && cs[off].code == node.children[k].code
      && cs[off].parentIndex == off
      && |cs[0].miter| == |node.children|
      && cs[0].miter[k] == (node.children[k].name, off)
  {
    var cs := Compile(node, h);
    KidAt(node, cs, |node.children|, k, h);
    EntryAt(node, |node.children|, k);
    StructSpans(node, k);
    OffsetGrows(node, k + 1, |node.children|);
  }

  /** Offsets never decrease along the children. */
  lemma {:induction false} OffsetGrows(node: Member, j: nat, k: nat)
    requires j <= k <= |node.children|
    ensures Offset(node, j) <= Offset(node, k)
    decreases k - j
  {
    if j < k {
      OffsetGrows(node, j, k - 1);
    }
  }

  /** The layout of a compiled Union: its alternatives are not inline; the
    * Union is one slot whose `members` hold alternative `k` at its offset
    * (0 for the first), and no alternative records a parent index. */
  lemma UnionChildPlaced(node: Member, h: Hasher, k: nat)
    requires node.code == Union && k < |node.children|
    ensures var cs, off := Compile(node, h), Offset(node, k);
      && |cs| == 1 && |cs[0].miter| == |node.children|
      && off < |cs[0].members|
      && cs[0].members[off].code == node.children[k].code
      && cs[0].members[off].parentIndex == 0
      && cs[0].miter[k] == (node.children[k].name, off)
      && (k == 0 ==> off == 0)
  {
    var cs := Compile(node, h);
    KidAt(node, cs[0].members, |node.children|, k, h);
    EntryAt(node, |node.children|, k);
  }

  /** A Struct or Union array is one slot with no lookup table and a hash of
    * its code alone, holding the compiled element type, which has the
    * array's id and members, in `members`. */
  lemma CompoundArrayWraps(node: Member, h: Hasher)
    requires IsCompoundArray(node.code)
    ensures var cs := Compile(node, h);
      && |cs| == 1 && cs[0].code == node.code && cs[0].mlookup == map[] && cs[0].miter == []
      && cs[0].hash == OfByte(node.code.code)
      && Describes(Element(node), cs[0].members, h)
      && cs[0].members[0].code == node.code.ScalarOf()
      && cs[0].members[0].id == node.id
  {
    var cs := Compile(node, h);
    assert Describes(node, cs, h);
  }

  /** Hence the hash of a Struct or Union array does not depend on its
    * element type: two arrays of structures with different members hash
    * alike. */
  lemma ArrayHashIgnoresElement(a: Member, b: Member, h: Hasher)
    requires IsCompoundArray(a.code) && a.code == b.code
    ensures Compile(a, h)[0].hash == Compile(b, h)[0].hash
  {
    CompoundArrayWraps(a, h);
    CompoundArrayWraps(b, h);
  }

  /** `node` with its children `k` and `k + 1` swapped. */
  function SwapKids(node: Member, k: nat): (r: Member)
    requires k + 1 < |node.children|
    ensures r.(children := node.children) == node && |r.children| == |node.children|
    ensures r.children[k] == node.children[k + 1] && r.children[k + 1] == node.children[k]
    ensures forall i :: 0 <= i < |node.children| && i != k && i != k + 1 ==> r.children[i] == node.children[i]
  {
    node.(children := node.children[k := node.children[k + 1]][k + 1 := node.children[k]])
  }

  /** Two hashes folded in after two others give the same result. */
  lemma Xor4Swap(x: Hash, a: Hash, b: Hash, c: Hash, d: Hash)
    ensures Xor(Xor(Xor(Xor(x, a), b), c), d) == Xor(Xor(Xor(Xor(x, c), d), a), b)
  {
    var l, r := Xor(Xor(Xor(Xor(x, a), b), c), d), Xor(Xor(Xor(Xor(x, c), d), a), b);
    assert forall k :: 0 <= k < Width ==> l[k] == r[k];
  }

  /** The hash folded over a prefix depends on that prefix only. */
  lemma {:induction false} HashPrefix(a: Member, b: Member, i: nat, h: Hasher)
    requires a.code == b.code && a.id == b.id
    requires i <= |a.children| && i <= |b.children|
    requires forall j :: 0 <= j < i ==> a.children[j] == b.children[j]
    ensures HashUpTo(a, i, h) == HashUpTo(b, i, h)
  {
    if i > 0 {
      HashPrefix(a, b, i - 1, h);
    }
  }

  /** Right after the two exchanged members, the running hashes agree. */
  lemma HashSwapped(node: Member, k: nat, h: Hasher)
    requires k + 1 < |node.children|
    ensures HashUpTo(SwapKids(node, k), k + 2, h) == HashUpTo(node, k + 2, h)
  {
    HashPrefix(SwapKids(node, k), node, k, h);
    var a, b := node.children[k], node.children[k + 1];
    Xor4Swap(HashUpTo(node, k, h), h(a.name), HashOf(a, h), h(b.name), HashOf(b, h));
  }

  lemma {:induction false} HashSwapFrom(node: Member, k: nat, i: nat, h: Hasher)
    requires k + 2 <= i <= |node.children|
    ensures HashUpTo(SwapKids(node, k), i, h) == HashUpTo(node, i, h)
    decreases i
  {
    if i == k + 2 {
      HashSwapped(node, k, h);
    } else {
      HashSwapFrom(node, k, i - 1, h);
    }
  }

  /** The hash of a Struct or Union does not depend on the order of its
    * members: exchanging two neighbouring members leaves it unchanged,
    * and every reordering is a series of such exchanges. */
  lemma HashIgnoresOrder(node: Member, k: nat, h: Hasher)
    requires !IsCompoundArray(node.code) && k + 1 < |node.children|
    ensures Compile(SwapKids(node, k), h)[0].hash == Compile(node, h)[0].hash
  {
    HashSwapFrom(node, k, |node.children|, h);
  }

  // ---------------------------------------------------------------------
  // Names in the lookup table.

  /** A name with no '.' in it. */
  predicate Undotted(s: string) {
    forall i :: 0 <= i < |s| ==> s[i] != '.'
  }

  /** No child name holds a '.' and no two children share a name. */
  predicate DistinctNames(node: Member) {
    && (forall j :: 0 <= j < |node.children| ==> Undotted(node.children[j].name))
    && (forall j, k :: 0 <= j < k < |node.children| ==> node.children[j].name != node.children[k].name)
  }

  /** Every name the Member constructor accepts, the empty one included,
    * has no '.' as long as it holds no NUL. */
  lemma AcceptedUndotted(name: string)
    requires NameAccepted(name) && forall i :: 0 <= i < |name| ==> name[i] != '\0'
    ensures Undotted(name)
  {
    NoNulIsWhole(name);
  }

  /** A name without '.' is neither a dotted key nor the prefix of a
    * dotted key under another such name. */
  lemma DottedDiffers(a: string, b: string, key: string)
    requires Undotted(a) && Undotted(b)
    ensures a != b + "." + key
    ensures a != b ==> forall key2 :: a + "." + key2 != b + "." + key
  {
    var p := b + "." + key;
    assert p[|b|] == '.';
    if |a| > |b| {
      assert a[|b|] != p[|b|];
    }
    if a != b {
      forall key2 ensures a + "." + key2 != p {
        var q := a + "." + key2;
        if |a| < |b| {
          assert q[|a|] != p[|a|];
        } else if |b| < |a| {
          assert p[|b|] != q[|b|];
        } else {
          assert q[..|a|] == a && p[..|a|] == b;
        }
      }
    }
  }

  /** A key registered by child `j`: its name or, when a Struct sits
    * directly under a Struct, its name, a '.' and a key of its own table. */
  predicate RegisteredBy(node: Member, j: nat, key: string)
    requires j < |node.children|
  {
    var c := node.children[j];
    key == c.name || (node.code == Struct && c.code == Struct && DottedUnder(c.name, LookupOf(c), key))
  }

  /** `key` is "name." followed by a key of `lookup`. */
  predicate DottedUnder(name: string, lookup: map<string, nat>, key: string) {
    |key| > |name| && key[..|name| + 1] == name + "." && key[|name| + 1..] in lookup
  }

  /** `key` was registered by one of the first `i` children. */
  predicate RegisteredAmong(node: Member, i: nat, key: string)
    requires i <= |node.children|
    decreases i
  {
    i > 0 && (RegisteredBy(node, i - 1, key) || RegisteredAmong(node, i - 1, key))
  }

  /** `key` is in the table once the first `i` children are registered. */
  predicate InTable(node: Member, i: nat, key: string)
    requires i <= |node.children|
  {
    key in LookupUpTo(node, i)
  }

  /** Every key of the lookup table was registered by one of the children:
    * the table holds child names and dotted paths, nothing else. */
  lemma {:induction false} LookupKeys(node: Member, i: nat, key: string)
    requires i <= |node.children|
    ensures InTable(node, i, key) ==> RegisteredAmong(node, i, key)
    decreases i
  {
    if i > 0 {
      LookupKeys(node, i - 1, key);
      if InTable(node, i, key) {
        LookupStep(node, i, key);
      }
    }
  }

  /** RegisteredAmong names a child that registered the key. */
  lemma {:induction false} RegisteredWitness(node: Member, i: nat, key: string)
    requires i <= |node.children| && RegisteredAmong(node, i, key)
    ensures exists j :: 0 <= j < i && RegisteredBy(node, j, key)
    decreases i
  {
    if !RegisteredBy(node, i - 1, key) {
      RegisteredWitness(node, i - 1, key);
    }
  }

  /** Registering child `i - 1` adds keys it registers; every other key
    * was there before. */
  lemma LookupStep(node: Member, i: nat, key: string)
    requires 0 < i <= |node.children| && InTable(node, i, key)
    ensures RegisteredBy(node, i - 1, key) || InTable(node, i - 1, key)
  {
    var c := node.children[i - 1];
    if node.code == Struct && c.code == Struct && key in Dotted(c.name, Offset(node, i - 1), LookupOf(c)) {
      DottedKey(c.name, Offset(node, i - 1), LookupOf(c), key);
    }
  }

  /** A dotted key is the prefix with a key of the lifted table. */
  lemma DottedKey(name: string, off: nat, lookup: map<string, nat>, key: string)
    requires key in Dotted(name, off, lookup)
    ensures DottedUnder(name, lookup, key)
  {
    var k2 :| k2 in lookup && key == name + "." + k2;
    assert key[..|name| + 1] == name + "." && key[|name| + 1..] == k2;
  }

  /** With distinct field names, every child is found in the lookup table
    * under its own name at its own offset. */
  lemma {:induction false} LookupChild(node: Member, i: nat, k: nat)
    requires DistinctNames(node) && k < i <= |node.children|
    ensures node.children[k].name in LookupUpTo(node, i)
    ensures LookupUpTo(node, i)[node.children[k].name] == Offset(node, k)
    decreases i
  {
    var c, off := node.children[i - 1], Offset(node, i - 1);
    var name := node.children[k].name;
    if k < i - 1 {
      LookupChild(node, i - 1, k);
      if node.code == Struct && c.code == Struct {
        forall key | key in LookupOf(c) ensures name != c.name + "." + key {
          DottedDiffers(name, c.name, key);
        }
      }
    } else if node.code == Struct && c.code == Struct {
      forall key | key in LookupOf(c) ensures name != c.name + "." + key {
        DottedDiffers(name, c.name, key);
      }
    }
  }

  /** With distinct field names, each entry of a Struct member that is
    * itself a Struct is found in the parent's table as "name.key", shifted
    * by the member's offset. */
  lemma {:induction false} LookupDotted(node: Member, i: nat, k: nat, key: string)
    requires DistinctNames(node) && k < i <= |node.children|
    requires node.code == Struct && node.children[k].code == Struct && key in LookupOf(node.children[k])
    ensures node.children[k].name + "." + key in LookupUpTo(node, i)
    ensures LookupUpTo(node, i)[node.children[k].name + "." + key] == Offset(node, k) + LookupOf(node.children[k])[key]
    decreases i
  {
    var c, off := node.children[i - 1], Offset(node, i - 1);
    var path := node.children[k].name + "." + key;
    if k < i - 1 {
      LookupDotted(node, i - 1, k, key);
      DottedDiffers(c.name, node.children[k].name, key);
      assert c.name != node.children[k].name;
      if c.code == Struct {
        DottedMiss(c.name, off, LookupOf(c), path);
      }
      LookupKeep(node, i, path);
    } else {
      DottedAt(c.name, off, LookupOf(c), key);
    }
  }

  /** A key that child `i - 1` does not register keeps its entry. */
  lemma LookupKeep(node: Member, i: nat, key: string)
    requires 0 < i <= |node.children| && key in LookupUpTo(node, i - 1)
    requires key != node.children[i - 1].name
    requires node.code == Struct && node.children[i - 1].code == Struct ==>
      key !in Dotted(node.children[i - 1].name, Offset(node, i - 1), LookupOf(node.children[i - 1]))
    ensures key in LookupUpTo(node, i) && LookupUpTo(node, i)[key] == LookupUpTo(node, i - 1)[key]
  {
  }

  /** Each lifted entry is found under its dotted key, shifted. */
  lemma DottedAt(name: string, off: nat, lookup: map<string, nat>, key: string)
    requires key in lookup
    ensures name + "." + key in Dotted(name, off, lookup)
    ensures Dotted(name, off, lookup)[name + "." + key] == off + lookup[key]
  {
    PrefixInjective(name + ".");
    assert name + "." + key == (name + ".") + key;
  }

  /** A key that does not start with "name." is not lifted. */
  lemma DottedMiss(name: string, off: nat, lookup: map<string, nat>, path: string)
    requires forall k2 :: path != name + "." + k2
    ensures path !in Dotted(name, off, lookup)
  {
  }

  /** The lookup table of a compiled node, in the terms of build_tree: every
    * child by name at its offset, every entry of a Struct member of a Struct
    * under its dotted path, and nothing else. */
  lemma CompiledLookup(node: Member, h: Hasher)
    requires !IsCompoundArray(node.code) && DistinctNames(node)
    ensures var t := Compile(node, h)[0].mlookup;
      && (forall k :: 0 <= k < |node.children| ==>
            node.children[k].name in t && t[node.children[k].name] == Offset(node, k))
      && (forall k, key ::
            (0 <= k < |node.children| && node.code == Struct && node.children[k].code == Struct
             && key in LookupOf(node.children[k])) ==>
              node.children[k].name + "." + key in t
              && t[node.children[k].name + "." + key] == Offset(node, k) + LookupOf(node.children[k])[key])
      && (forall key :: key in t ==> exists j :: 0 <= j < |node.children| && RegisteredBy(node, j, key))
  {
    assert Compile(node, h)[0].mlookup == LookupUpTo(node, |node.children|);
    LookupNames(node);
    LookupPaths(node);
    LookupOnly(node);
  }

  lemma LookupNames(node: Member)
    requires DistinctNames(node)
    ensures var t := LookupUpTo(node, |node.children|);
      forall k :: 0 <= k < |node.children| ==> node.children[k].name in t && t[node.children[k].name] == Offset(node, k)
  {
    forall k | 0 <= k < |node.children|
      ensures node.children[k].name in LookupUpTo(node, |node.children|)
      ensures LookupUpTo(node, |node.children|)[node.children[k].name] == Offset(node, k)
    {
      LookupChild(node, |node.children|, k);
    }
  }

  lemma LookupPaths(node: Member)
    requires DistinctNames(node)
    ensures var t := LookupUpTo(node, |node.children|);
      forall k, key ::
        (0 <= k < |node.children| && node.code == Struct && node.children[k].code == Struct
         && key in LookupOf(node.children[k])) ==>
          node.children[k].name + "." + key in t
          && t[node.children[k].name + "." + key] == Offset(node, k) + LookupOf(node.children[k])[key]
  {
    var n := |node.children|;
    forall k, key | 0 <= k < n && node.code == Struct && node.children[k].code == Struct && key in LookupOf(node.children[k])
      ensures node.children[k].name + "." + key in LookupUpTo(node, n)
      ensures LookupUpTo(node, n)[node.children[k].name + "." + key] == Offset(node, k) + LookupOf(node.children[k])[key]
    {
      LookupDotted(node, n, k, key);
    }
  }

  lemma LookupOnly(node: Member)
    ensures forall key :: key in LookupUpTo(node, |node.children|) ==>
      exists j :: 0 <= j < |node.children| && RegisteredBy(node, j, key)
  {
    forall key | key in LookupUpTo(node, |node.children|)
      ensures exists j :: 0 <= j < |node.children| && RegisteredBy(node, j, key)
    {
      LookupKeys(node, |node.children|, key);
      RegisteredWitness(node, |node.children|, key);
    }
  }
}
