/** When an insertion indexes out of range, over stored keys. */
module TriePanic {
  import opened Base
  import opened TrieModel
  import opened TrieCanon
  import opened TrieContent
  import Trie

  /** The keys a trie over keys of `n` nibbles answers. */
  ghost function KeysIn<V>(d: Digest<V>, n: nat): iset<Path>
    requires Shaped(d)
  {
    iset q: Path | |q| == n && ReadIn(d, q).Some?
  }

  /** Two keys start with `p`, all keys that go on after `p` go on alike, and `p` is the only way to go on
      after all of `p` but its last nibble. */
  ghost predicate Inside(keys: iset<Path>, p: Path)
    requires p != []
  {
    && (exists q, r :: q in keys && r in keys && q != r && p <= q && p <= r)
    && (forall q, r :: q in keys && r in keys && p < q && p < r ==> q[|p|] == r[|p|])
    && (forall q :: q in keys && p[..|p| - 1] <= q ==> p <= q)
  }

  ghost function Below(keys: iset<Path>, e: Path): iset<Path>
  {
    iset q: Path | e + q in keys
  }

  lemma PrefixAfter(e: Path, p: Path, q: Path)
    ensures e + p <= e + q <==> p <= q
    ensures e + p < e + q <==> p < q
  {
    if e + p <= e + q { assert (e + p)[|e|..] == p && (e + q)[|e|..] == q; }
    if p <= q { assert e + q == e + p + q[|p|..]; }
  }

  lemma Split(e: Path, p: Path, q: Path)
    requires e + p <= q
    ensures q == e + q[|e|..] && p <= q[|e|..]
    ensures e + p < q ==> p < q[|e|..]
  {
    assert q == e + q[|e|..];
    PrefixAfter(e, p, q[|e|..]);
  }

  /** Going below a common start changes nothing. */
  lemma InsideBelow(keys: iset<Path>, e: Path, p: Path)
    requires p != []
    ensures Inside(keys, e + p) <==> Inside(Below(keys, e), p)
  {
    if Inside(keys, e + p) { InsideGoesBelow(keys, e, p); }
    if Inside(Below(keys, e), p) { InsideComesUp(keys, e, p); }
  }

  lemma InsideGoesBelow(keys: iset<Path>, e: Path, p: Path)
    requires p != [] && Inside(keys, e + p)
    ensures Inside(Below(keys, e), p)
  {
    var below, m := Below(keys, e), e + p;
    assert m[..|m| - 1] == e + p[..|p| - 1];
    var q, r :| q in keys && r in keys && q != r && m <= q && m <= r;
    Split(e, p, q);
    Split(e, p, r);
    assert q[|e|..] in below && r[|e|..] in below;
    forall a, b | a in below && b in below && p < a && p < b ensures a[|p|] == b[|p|] {
      PrefixAfter(e, p, a);
      PrefixAfter(e, p, b);
      assert (e + a)[|m|] == a[|p|] && (e + b)[|m|] == b[|p|];
    }
    forall a | a in below && p[..|p| - 1] <= a ensures p <= a {
      PrefixAfter(e, p[..|p| - 1], a);
      PrefixAfter(e, p, a);
    }
  }

  lemma InsideComesUp(keys: iset<Path>, e: Path, p: Path)
    requires p != [] && Inside(Below(keys, e), p)
    ensures Inside(keys, e + p)
  {
    var below, m := Below(keys, e), e + p;
    assert m[..|m| - 1] == e + p[..|p| - 1];
    var q, r :| q in below && r in below && q != r && p <= q && p <= r;
    PrefixAfter(e, p, q);
    PrefixAfter(e, p, r);
    assert (e + q)[|e|..] == q && (e + r)[|e|..] == r;
    assert e + q in keys && e + r in keys && e + q != e + r;
    forall a, b | a in keys && b in keys && m < a && m < b ensures a[|m|] == b[|m|] {
      Split(e, p, a);
      Split(e, p, b);
      assert a[|e|..] in below && b[|e|..] in below;
      assert a[|m|] == a[|e|..][|p|] && b[|m|] == b[|e|..][|p|];
    }
    forall a | a in keys && m[..|m| - 1] <= a ensures m <= a {
      Split(e, p[..|p| - 1], a);
      assert a[|e|..] in below;
      PrefixAfter(e, p, a[|e|..]);
    }
  }

  lemma KeysBelowBranch<V>(d: Digest<V>, n: nat, i: Nibble)
    requires d.node.Branch? && Canonical(d, n) && Shaped(d) && d.node.children[i].Some?
    ensures Below(KeysIn(d, n), [i]) == KeysIn(d.node.children[i].value, n - 1)
  {
    forall q: Path ensures q in Below(KeysIn(d, n), [i]) <==> q in KeysIn(d.node.children[i].value, n - 1) {
      assert ([i] + q)[0] == i && ([i] + q)[1..] == q;
      assert ReadIn(d, [i] + q) == Read(d.node.children[i], q);
    }
  }

  lemma KeysBelowExtension<V>(d: Digest<V>, n: nat)
    requires d.node.Extension? && Canonical(d, n) && Shaped(d)
    ensures Below(KeysIn(d, n), d.node.path) == KeysIn(d.node.child, n - |d.node.path|)
    ensures forall q :: q in KeysIn(d, n) ==> d.node.path <= q
  {
    var e := d.node.path;
    forall q: Path ensures q in Below(KeysIn(d, n), e) <==> q in KeysIn(d.node.child, n - |e|) {
      assert (e + q)[|e|..] == q;
    }
  }

  /** In a trie over keys of `n` nibbles, inserting along any path indexes out of range exactly when the
      path ends strictly inside the common continuation of at least two keys. */
  lemma {:induction false} PanicsIffInside<V>(d: Digest<V>, p: Path, n: nat)
    requires Canonical(d, n) && Shaped(d) && p != []
    ensures !FitsIn(d, p) <==> Inside(KeysIn(d, n), p)
    decreases d, 1
  {
    match d.node {
      case Leaf(_, _) =>
      case Branch(_, _) => PanicsAtBranch(d, p, n);
      case Extension(_, _) => PanicsAtExtension(d, p, n);
    }
  }

  lemma {:induction false} PanicsAtBranch<V>(d: Digest<V>, p: Path, n: nat)
    requires d.node.Branch? && Canonical(d, n) && Shaped(d) && p != []
    ensures !FitsIn(d, p) <==> Inside(KeysIn(d, n), p)
    decreases d, 0
  {
    var keys, child := KeysIn(d, n), d.node.children[p[0]];
    if |p| == 1 {
      var q := OtherKey(d, n, p[0]);
      assert p[..0] <= q && !(p <= q);
    } else if child.Some? {
      assert p == [p[0]] + p[1..];
      KeysBelowBranch(d, n, p[0]);
      InsideBelow(keys, [p[0]], p[1..]);
      PanicsIffInside(child.value, p[1..], n - 1);
      hide Inside, Canonical, ReadIn;
    } else {
      forall q: Path | |q| == n && q[0] == p[0] ensures q !in keys {
        assert ReadIn(d, q) == Read(child, q[1..]);
      }
    }
  }

  lemma {:induction false} PanicsAtExtension<V>(d: Digest<V>, p: Path, n: nat)
    requires d.node.Extension? && Canonical(d, n) && Shaped(d) && p != []
    ensures !FitsIn(d, p) <==> Inside(KeysIn(d, n), p)
    decreases d, 0
  {
    var e, keys := d.node.path, KeysIn(d, n);
    var c := CommonPrefix(e, p);
    KeysBelowExtension(d, n);
    var q, r := TwoKeys(d, n);
    if c == |e| && |p| > c {
      assert p == e + p[c..];
      InsideBelow(keys, e, p[c..]);
      PanicsIffInside(d.node.child, p[c..], n - c);
    } else if c == |e| {
      assert p == e && q in keys && r in keys && p < q && p < r;
    } else if c < |p| {
      assert forall s :: s in keys ==> s[c] == e[c];
    } else {
      assert p == e[..c];
      assert forall s :: s in keys ==> p < s && s[c] == e[c];
      assert q in keys && r in keys;
    }
  }

  lemma OtherKey<V>(d: Digest<V>, n: nat, i: Nibble) returns (q: Path)
    requires d.node.Branch? && Canonical(d, n) && Shaped(d)
    ensures q in KeysIn(d, n) && q != [] && q[0] != i
  {
    var a, b := ForkedKeys(d, n);
    q := if a[0] != i then a else b;
  }

  // ---------------------------------------------------------------------------------------
  // Over byte keys
  // ---------------------------------------------------------------------------------------

  /** Two stored keys start with `key`, all longer stored keys that start with it have the same next nibble,
      and no stored key starts with a sibling of `key`. */
  ghost predicate EndsInside<V>(items: map<Bytes, V>, key: Bytes)
    requires key != []
  {
    && (exists a, b :: a in items && b in items && a != b && key <= a && key <= b)
    && (forall a, b :: a in items && b in items && key < a && key < b ==> High(a[|key|]) == High(b[|key|]))
    && (forall a :: a in items && |a| >= |key| && Siblings(a[..|key|], key) ==> key <= a)
  }

  lemma {:induction false} NibbleSplit(a: Bytes, b: Bytes)
    ensures Nibbles(a + b) == Nibbles(a) + Nibbles(b)
    decreases |b|
  {
    if b == [] {
      assert a + b == a && Nibbles(a) + [] == Nibbles(a);
    } else {
      assert (a + b)[..|a + b| - 1] == a + b[..|b| - 1];
      NibbleSplit(a, b[..|b| - 1]);
    }
  }

  lemma NibblePrefix(a: Bytes, b: Bytes)
    ensures Nibbles(a) <= Nibbles(b) <==> a <= b
    ensures Nibbles(a) < Nibbles(b) <==> a < b
    ensures a < b ==> Nibbles(b)[|Nibbles(a)|] == High(b[|a|])
  {
    hide Nibbles, High;
    if |a| <= |b| {
      var start, rest := b[..|a|], b[|a|..];
      assert b == start + rest;
      NibbleSplit(start, rest);
      SamePrefix(Nibbles(a), Nibbles(start), Nibbles(b), Nibbles(rest));
      SamePrefix(a, start, b, rest);
      if Nibbles(a) == Nibbles(start) { NibblesInjective(a, start); }
      if a < b { NextNibble(b, |a|); }
    }
  }

  lemma NextNibble(b: Bytes, i: nat)
    requires i < |b|
    ensures Nibbles(b)[2 * i] == High(b[i])
  {
    var start, rest := b[..i + 1], b[i + 1..];
    assert b == start + rest && start[..i] == b[..i];
    NibbleSplit(start, rest);
    assert Nibbles(b)[2 * i] == Nibbles(start)[2 * i];
  }

  lemma StemPrefix(key: Bytes, a: Bytes)
    requires key != []
    ensures Nibbles(key)[..|Nibbles(key)| - 1] == Stem(key)
    ensures Stem(key) <= Nibbles(a) <==> |a| >= |key| && Siblings(a[..|key|], key)
  {
    hide Nibbles, Stem, Siblings, Low;
    StemOf(key);
    if |a| >= |key| {
      var start, rest := a[..|key|], a[|key|..];
      assert a == start + rest;
      NibbleSplit(start, rest);
      StemOf(start);
      SiblingsShareStem(start, key);
      var tail := [Low(start[|start| - 1])] + Nibbles(rest);
      assert Nibbles(a) == Stem(start) + tail;
      SamePrefix(Stem(key), Stem(start), Nibbles(a), tail);
    }
  }

  lemma SamePrefix<T>(s: seq<T>, t: seq<T>, whole: seq<T>, tail: seq<T>)
    requires |s| == |t| && whole == t + tail
    ensures s <= whole <==> s == t
  {
  }

  /** In a trie over keys of `n` bytes, inserting a key indexes out of range exactly when it ends inside the
      stored keys: `split_extension` looks for a nibble after the end of the key. */
  lemma InsertPanicsIff<V>(o: Root<V>, c: Content<V>, key: Bytes, n: nat)
    requires Represents(o, c, n) && key != []
    ensures !Fits(o, Nibbles(key)) <==> EndsInside(c.items, key)
  {
    if o.Some? {
      PanicsIffInside(o.value, Nibbles(key), 2 * n);
      InsideIsEndsInside(o, c, key, n);
    } else {
      assert forall k :: k in c.items ==> Lookup(o, k) == Find(c.items, k);
    }
    hide Canonical, FitsIn, ReadIn, Inside;
  }

  lemma KeyIsStored<V>(o: Root<V>, c: Content<V>, n: nat, k: Bytes)
    requires Represents(o, c, n) && o.Some?
    ensures Nibbles(k) in KeysIn(o.value, 2 * n) <==> k in c.items
  {
    if |k| == n { assert Lookup(o, k) == Find(c.items, k); }
  }

  lemma InsideIsEndsInside<V>(o: Root<V>, c: Content<V>, key: Bytes, n: nat)
    requires Represents(o, c, n) && key != [] && o.Some?
    ensures Inside(KeysIn(o.value, 2 * n), Nibbles(key)) <==> EndsInside(c.items, key)
  {
    hide KeysIn, PathsOf, Inside, EndsInside, Nibbles;
    var keys := KeysIn(o.value, 2 * n);
    StoredPaths(o, c, n);
    if Inside(keys, Nibbles(key)) { InsideEnds(keys, c.items, key); }
    if EndsInside(c.items, key) { EndsGiveInside(keys, c.items, key); }
  }

  lemma StoredPaths<V>(o: Root<V>, c: Content<V>, n: nat)
    requires o.Some? && ShapedRoot(o) && Represents(o, c, n)
    ensures PathsOf(KeysIn(o.value, 2 * n), c.items)
  {
    hide Nibbles, Represents, ReadIn, Shaped;
    forall k: Bytes ensures Nibbles(k) in KeysIn(o.value, 2 * n) <==> k in c.items { KeyIsStored(o, c, n, k); }
  }

  /** The paths are those of the keys of the map. */
  ghost predicate PathsOf<V>(keys: iset<Path>, items: map<Bytes, V>)
  {
    && (forall k: Bytes :: Nibbles(k) in keys <==> k in items)
    && (forall q :: q in keys ==> |q| % 2 == 0)
  }

  lemma KeyOfPath<V>(keys: iset<Path>, items: map<Bytes, V>, q: Path) returns (k: Bytes)
    requires PathsOf(keys, items) && q in keys
    ensures k in items && Nibbles(k) == q
  {
    k := FromNibbles(q);
    NibblesOf(q);
  }

  lemma PathOfKey<V>(keys: iset<Path>, items: map<Bytes, V>, k: Bytes)
    requires PathsOf(keys, items) && k in items
    ensures Nibbles(k) in keys
  {
  }

  lemma InsideEnds<V>(keys: iset<Path>, items: map<Bytes, V>, key: Bytes)
    requires key != [] && PathsOf(keys, items) && Inside(keys, Nibbles(key))
    ensures EndsInside(items, key)
  {
    hide Nibbles, Siblings, Stem, PathsOf, High;
    var p := Nibbles(key);
    var q, r :| q in keys && r in keys && q != r && p <= q && p <= r;
    var a := KeyOfPath(keys, items, q);
    var b := KeyOfPath(keys, items, r);
    NibblePrefix(key, a);
    NibblePrefix(key, b);
    forall x, y | x in items && y in items && key < x && key < y ensures High(x[|key|]) == High(y[|key|]) {
      NibblePrefix(key, x);
      NibblePrefix(key, y);
      PathOfKey(keys, items, x);
      PathOfKey(keys, items, y);
    }
    forall x | x in items && |x| >= |key| && Siblings(x[..|key|], key) ensures key <= x {
      StemPrefix(key, x);
      NibblePrefix(key, x);
      PathOfKey(keys, items, x);
    }
  }

  lemma EndsGiveInside<V>(keys: iset<Path>, items: map<Bytes, V>, key: Bytes)
    requires key != [] && PathsOf(keys, items) && EndsInside(items, key)
    ensures Inside(keys, Nibbles(key))
  {
    hide Nibbles, Siblings, Stem, PathsOf, High;
    var p := Nibbles(key);
    var a, b :| a in items && b in items && a != b && key <= a && key <= b;
    NibblePrefix(key, a);
    NibblePrefix(key, b);
    PathOfKey(keys, items, a);
    PathOfKey(keys, items, b);
    if Nibbles(a) == Nibbles(b) { NibblesInjective(a, b); }
    forall q, r | q in keys && r in keys && p < q && p < r ensures q[|p|] == r[|p|] {
      var x := KeyOfPath(keys, items, q);
      var y := KeyOfPath(keys, items, r);
      NibblePrefix(key, x);
      NibblePrefix(key, y);
    }
    forall q | q in keys && p[..|p| - 1] <= q ensures p <= q {
      var x := KeyOfPath(keys, items, q);
      StemPrefix(key, x);
      NibblePrefix(key, x);
    }
  }

  lemma PutPair<V>(k: Bytes, a: V, l: Bytes, b: V)
    requires k != l
    ensures PutAll(Empty(), [(k, a), (l, b)]) == Content(map[k := a, l := b], map[])
  {
    assert [(k, a), (l, b)] == [(k, a)] + ([(l, b)] + []);
    Trie.PutCons(Empty(), k, a, [(l, b)] + []);
    assert Put(Empty(), k, a) == Content(map[k := a], map[]);
    Trie.PutCons(Content(map[k := a], map[]), l, b, []);
    assert !Crowded(map[k := a], l) && map[k := a][l := b] == map[k := a, l := b];
  }

  lemma PairEndsInside<V>(k: Bytes, a: V, l: Bytes, b: V)
    requires |k| == |l| == 2 && k != l && k[0] == l[0] && High(k[1]) == High(l[1])
    ensures EndsInside(map[k := a, l := b], [k[0]])
  {
    hide Siblings, High;
    var m := map[k := a, l := b];
    assert k[..1] == [k[0]] == l[..1] && k in m && l in m;
    assert forall x :: x in m ==> x == k || x == l;
    assert [k[0]] < k && [k[0]] < l;
  }

  lemma PairRepresents<V>(k: Bytes, a: V, l: Bytes, b: V)
    requires |k| == |l| == 2 && k != l
    ensures CanInsertAll(None, [(k, a), (l, b)])
    ensures Represents(InsertAll(None, [(k, a), (l, b)]), Content(map[k := a, l := b], map[]), 2)
  {
    hide Represents, CanInsertAll, InsertAll, PutAll;
    EmptyRepresents<V>(2);
    InsertAllRepresents(None, Empty(), [(k, a), (l, b)], 2);
    PutPair(k, a, l, b);
  }

  lemma EmptyRepresents<V>(n: nat)
    ensures Represents<V>(None, Empty(), n)
  {
  }

  /** A reached trie where it happens: two keys with a common start, and then that start alone. */
  lemma PrefixKeyPanics<V>(k: Bytes, a: V, l: Bytes, b: V, c: V)
    requires |k| == |l| == 2 && k != l && k[0] == l[0] && High(k[1]) == High(l[1])
    ensures CanInsertAll(None, [(k, a), (l, b)])
    ensures !CanInsertAll(None, [(k, a), (l, b), ([k[0]], c)])
  {
    hide CanInsertAll, InsertAll, Fits, Nibbles, EndsInside, High, Represents;
    var ops := [(k, a), (l, b)];
    PairRepresents(k, a, l, b);
    PairEndsInside(k, a, l, b);
    InsertPanicsIff(InsertAll(None, ops), Content(map[k := a, l := b], map[]), [k[0]], 2);
    InsertLast(None, ops, [k[0]], c);
    assert ops + [([k[0]], c)] == [(k, a), (l, b), ([k[0]], c)];
  }

  lemma PrefixKeyPanicsHere<V>(a: V, b: V, c: V)
    ensures !CanInsertAll(None, [([0x12, 0x34], a), ([0x12, 0x35], b), ([0x12], c)])
  {
    var k: Bytes, l: Bytes := [0x12, 0x34], [0x12, 0x35];
    PrefixKeyPanics(k, a, l, b, c);
    hide CanInsertAll;
  }
}
