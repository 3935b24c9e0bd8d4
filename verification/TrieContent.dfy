/** What a trie stores, as a map: the exact law of any sequence of insertions of keys of one
    length, and the uniqueness of the root. */
module TrieContent {
  import opened Base
  import opened TrieModel
  import opened TrieCanon

  // ---------------------------------------------------------------------------------------
  // Nibbles
  // ---------------------------------------------------------------------------------------

  function High(b: Byte): Nibble { b / 16 }

  function Low(b: Byte): Nibble { b % 16 }

  function Join(high: Nibble, low: Nibble): (b: Byte)
    ensures High(b) == high && Low(b) == low
  {
    16 * high + low
  }

  function Nibbles(key: Bytes): (p: Path)
    ensures |p| == 2 * |key|
  {
    if key == [] then []
    else Nibbles(key[..|key| - 1]) + [High(key[|key| - 1]), Low(key[|key| - 1])]
  }

  function FromNibbles(p: Path): (key: Bytes)
    requires |p| % 2 == 0
    ensures 2 * |key| == |p|
  {
    if p == [] then [] else FromNibbles(p[..|p| - 2]) + [Join(p[|p| - 2], p[|p| - 1])]
  }

  /** Nibbles and bytes are in bijection. */
  lemma {:induction false} FromNibblesOf(key: Bytes)
    ensures FromNibbles(Nibbles(key)) == key
  {
    if key != [] {
      FromNibblesOf(key[..|key| - 1]);
      assert Nibbles(key)[..2 * |key| - 2] == Nibbles(key[..|key| - 1]);
    }
  }

  lemma {:induction false} NibblesOf(p: Path)
    requires |p| % 2 == 0
    ensures Nibbles(FromNibbles(p)) == p
  {
    if p != [] {
      NibblesOf(p[..|p| - 2]);
      var key := FromNibbles(p);
      assert key[..|key| - 1] == FromNibbles(p[..|p| - 2]);
      assert p == p[..|p| - 2] + [p[|p| - 2], p[|p| - 1]];
    }
  }

  lemma NibblesInjective(a: Bytes, b: Bytes)
    requires Nibbles(a) == Nibbles(b)
    ensures a == b
  {
    FromNibblesOf(a);
    FromNibblesOf(b);
  }

  /** The path of a key without its last nibble: the branch its siblings share. */
  function Stem(key: Bytes): (s: Path)
    requires key != []
    ensures |s| == 2 * |key| - 1
  {
    Nibbles(key[..|key| - 1]) + [High(key[|key| - 1])]
  }

  /** Two keys are siblings when they differ at most in the last four bits. */
  predicate Siblings(a: Bytes, b: Bytes)
  {
    |a| == |b| > 0 && a[..|a| - 1] == b[..|b| - 1] && High(a[|a| - 1]) == High(b[|b| - 1])
  }

  lemma StemOf(a: Bytes)
    requires a != []
    ensures Nibbles(a) == Stem(a) + [Low(a[|a| - 1])]
  {
  }

  lemma SiblingsShareStem(a: Bytes, b: Bytes)
    requires |a| == |b| > 0
    ensures Siblings(a, b) <==> Stem(a) == Stem(b)
  {
    var sa, sb := Nibbles(a[..|a| - 1]), Nibbles(b[..|b| - 1]);
    assert Stem(a)[..|sa|] == sa && Stem(b)[..|sb|] == sb;
    assert Stem(a)[|sa|] == High(a[|a| - 1]) && Stem(b)[|sb|] == High(b[|b| - 1]);
    if sa == sb { NibblesInjective(a[..|a| - 1], b[..|b| - 1]); }
  }

  // ---------------------------------------------------------------------------------------
  // When an insertion spills
  // ---------------------------------------------------------------------------------------

  function Sibling(p: Path, a: Nibble): Path
    requires p != []
  {
    p[..|p| - 1] + [a]
  }

  /** Two different siblings of `p` are already readable. */
  ghost predicate CrowdedIn<V>(d: Digest<V>, p: Path)
    requires Shaped(d) && p != []
  {
    exists a: Nibble, b: Nibble ::
      a != b && ReadIn(d, Sibling(p, a)).Some? && ReadIn(d, Sibling(p, b)).Some?
  }

  lemma {:induction false} SpillsIffCrowdedIn<V>(d: Digest<V>, p: Path, n: nat)
    requires Canonical(d, n) && |p| == n > 0
    ensures Shaped(d) && FitsIn(d, p)
    ensures LandingIn(d, p).Spilled? <==> CrowdedIn(d, p)
    decreases d
  {
    CanonicalIsShaped(d, n);
    FitsCanonical(d, p, n);
    match d.node {
      case Leaf(key, _) =>
        forall a: Nibble, b: Nibble | a != b
          ensures !(ReadIn(d, Sibling(p, a)).Some? && ReadIn(d, Sibling(p, b)).Some?)
        {
          assert Sibling(p, a)[n - 1] != Sibling(p, b)[n - 1];
        }
        assert !LandingIn(d, p).Spilled?;
      case Branch(children, _) =>
        if n == 1 {
          var i: Nibble, j: Nibble :| i < j && children[i].Some? && children[j].Some?;
          assert Sibling(p, i) == [i] && [i][1..] == [] && Sibling(p, j) == [j] && [j][1..] == [];
          assert Canonical(children[i].value, 0) && Canonical(children[j].value, 0);
          assert ReadIn(d, [i]) == Read(children[i], []) && ReadIn(d, [j]) == Read(children[j], []);
        } else {
          SpillsBelowBranch(d, p, n);
        }
      case Extension(path, child) => SpillsBelowExtension(d, p, n);
    }
  }

  lemma {:induction false} SpillsBelowBranch<V>(d: Digest<V>, p: Path, n: nat)
    requires Canonical(d, n) && |p| == n > 1 && d.node.Branch?
    ensures Shaped(d) && FitsIn(d, p)
    ensures LandingIn(d, p).Spilled? <==> CrowdedIn(d, p)
    decreases d, 0
  {
    CanonicalIsShaped(d, n);
    FitsCanonical(d, p, n);
    var child := d.node.children[p[0]];
    forall a: Nibble ensures ReadIn(d, Sibling(p, a)) == Read(child, Sibling(p[1..], a)) {
      assert Sibling(p, a)[1..] == Sibling(p[1..], a);
    }
    if child.Some? {
      SpillsIffCrowdedIn(child.value, p[1..], n - 1);
      if CrowdedIn(child.value, p[1..]) {
        var a: Nibble, b: Nibble :| a != b && ReadIn(child.value, Sibling(p[1..], a)).Some?
                     && ReadIn(child.value, Sibling(p[1..], b)).Some?;
        assert ReadIn(d, Sibling(p, a)).Some? && ReadIn(d, Sibling(p, b)).Some?;
      }
    }
  }

  lemma {:induction false} SpillsBelowExtension<V>(d: Digest<V>, p: Path, n: nat)
    requires Canonical(d, n) && |p| == n > 0 && d.node.Extension?
    ensures Shaped(d) && FitsIn(d, p)
    ensures LandingIn(d, p).Spilled? <==> CrowdedIn(d, p)
    decreases d, 0
  {
    CanonicalIsShaped(d, n);
    FitsCanonical(d, p, n);
    var path, child := d.node.path, d.node.child;
    forall a: Nibble ensures path <= Sibling(p, a) <==> path <= p {
      PrefixOfSibling(path, p, a);
    }
    if path <= p {
      var rest := p[|path|..];
      forall a: Nibble ensures ReadIn(d, Sibling(p, a)) == ReadIn(child, Sibling(rest, a)) {
        assert Sibling(p, a)[|path|..] == Sibling(rest, a);
      }
      SpillsIffCrowdedIn(child, rest, n - |path|);
      if CrowdedIn(child, rest) {
        var a: Nibble, b: Nibble :| a != b && ReadIn(child, Sibling(rest, a)).Some? && ReadIn(child, Sibling(rest, b)).Some?;
        assert ReadIn(d, Sibling(p, a)).Some? && ReadIn(d, Sibling(p, b)).Some?;
      }
    }
  }

  lemma PrefixOfSibling(path: Path, p: Path, a: Nibble)
    requires |path| < |p|
    ensures path <= Sibling(p, a) <==> path <= p
  {
    assert Sibling(p, a)[..|p| - 1] == p[..|p| - 1];
    assert Sibling(p, a)[..|path|] == p[..|path|];
  }

  // ---------------------------------------------------------------------------------------
  // The abstract content of a trie
  // ---------------------------------------------------------------------------------------

  /** `get`. */
  function Lookup<V>(o: Root<V>, key: Bytes): Option<V>
    requires ShapedRoot(o)
  {
    Read(o, Nibbles(key))
  }

  /** What the keys read as, and what the branches above the last nibble hold. */
  datatype Content<V> = Content(items: map<Bytes, V>, spill: map<Path, V>)

  /** Two different keys that share all but the last four bits with `key` are stored. */
  ghost predicate Crowded<V>(items: map<Bytes, V>, key: Bytes)
  {
    exists a, b :: a in items && b in items && a != b && Siblings(a, key) && Siblings(b, key)
  }

  /** One insertion: into the items, unless two siblings of the key are already there. */
  ghost function Put<V>(c: Content<V>, key: Bytes, v: V): Content<V>
  {
    if Crowded(c.items, key) then c.(spill := c.spill[Stem(key) := v]) else c.(items := c.items[key := v])
  }

  /** `o` is the canonical trie of the content `c`, all keys having `n` bytes. */
  ghost predicate Represents<V>(o: Root<V>, c: Content<V>, n: nat)
  {
    && CanonicalRoot(o, 2 * n) && ShapedRoot(o)
    && (forall k :: k in c.items ==> |k| == n)
    && (forall s :: s in c.spill ==> |s| + 1 == 2 * n)
    && (forall k: Bytes :: |k| == n ==> Lookup(o, k) == Find(c.items, k))
    && (forall s: Path :: |s| + 1 == 2 * n ==> Read(o, s) == Find(c.spill, s))
  }

  lemma SiblingKey(key: Bytes, a: Nibble) returns (k: Bytes)
    requires key != []
    ensures |k| == |key| && Siblings(k, key) && Nibbles(k) == Sibling(Nibbles(key), a)
  {
    var n := |key|;
    k := key[..n - 1] + [Join(High(key[n - 1]), a)];
    assert k[..n - 1] == key[..n - 1];
    StemOf(k);
    StemOf(key);
  }

  lemma CrowdedIff<V>(o: Root<V>, c: Content<V>, key: Bytes, n: nat)
    requires Represents(o, c, n) && |key| == n > 0
    ensures Crowded(c.items, key) <==> o.Some? && CrowdedIn(o.value, Nibbles(key))
  {
    if o.Some? && CrowdedIn(o.value, Nibbles(key)) { ReadSiblingsCrowd(o, c, key, n); }
    if Crowded(c.items, key) { CrowdIsRead(o, c, key, n); }
  }

  lemma ReadSiblingsCrowd<V>(o: Root<V>, c: Content<V>, key: Bytes, n: nat)
    requires Represents(o, c, n) && |key| == n > 0
    requires o.Some? && CrowdedIn(o.value, Nibbles(key))
    ensures Crowded(c.items, key)
  {
    var p := Nibbles(key);
    var a: Nibble, b: Nibble :| a != b && ReadIn(o.value, Sibling(p, a)).Some? && ReadIn(o.value, Sibling(p, b)).Some?;
    var ka := SiblingKey(key, a);
    var kb := SiblingKey(key, b);
    assert ka != kb by { assert Nibbles(ka)[2 * n - 1] == a && Nibbles(kb)[2 * n - 1] == b; }
    assert Lookup(o, ka).Some? && Lookup(o, kb).Some?;
  }

  lemma CrowdIsRead<V>(o: Root<V>, c: Content<V>, key: Bytes, n: nat)
    requires Represents(o, c, n) && |key| == n > 0 && Crowded(c.items, key)
    ensures o.Some? && CrowdedIn(o.value, Nibbles(key))
  {
    var a, b :| a in c.items && b in c.items && a != b && Siblings(a, key) && Siblings(b, key);
    assert Lookup(o, a).Some? && Lookup(o, b).Some?;
    TwoSiblingsRead(o, key, a, b);
  }

  lemma TwoSiblingsRead<V>(o: Root<V>, key: Bytes, a: Bytes, b: Bytes)
    requires ShapedRoot(o) && a != b && Siblings(a, key) && Siblings(b, key)
    requires Lookup(o, a).Some? && Lookup(o, b).Some?
    ensures o.Some? && CrowdedIn(o.value, Nibbles(key))
  {
    SiblingNibble(a, key);
    SiblingNibble(b, key);
    var la, lb := Low(a[|a| - 1]), Low(b[|b| - 1]);
    if la == lb { NibblesInjective(a, b); }
    assert ReadIn(o.value, Sibling(Nibbles(key), la)).Some? && ReadIn(o.value, Sibling(Nibbles(key), lb)).Some?;
  }

  lemma SiblingNibble(a: Bytes, key: Bytes)
    requires Siblings(a, key)
    ensures Nibbles(a) == Sibling(Nibbles(key), Low(a[|a| - 1]))
  {
    SiblingsShareStem(a, key);
    StemOf(a);
    SiblingOfStem(key, Low(a[|a| - 1]));
  }

  lemma SiblingOfStem(key: Bytes, x: Nibble)
    requires key != []
    ensures Sibling(Nibbles(key), x) == Stem(key) + [x]
  {
    StemOf(key);
  }

  /** One insertion of a key of the common length, exactly. */
  lemma InsertRepresents<V>(o: Root<V>, c: Content<V>, key: Bytes, v: V, n: nat)
    requires Represents(o, c, n) && |key| == n
    ensures Fits(o, Nibbles(key)) && Represents(Some(Inserted(o, Nibbles(key), v)), Put(c, key, v), n)
  {
    InsertLanding(o, c, key, v, n);
    var o', c' := Some(Inserted(o, Nibbles(key), v)), Put(c, key, v);
    forall k: Bytes | |k| == n ensures Lookup(o', k) == Find(c'.items, k) {
      assert Lookup(o, k) == Find(c.items, k);
      InsertLookup(o, c, key, v, k);
    }
    forall s: Path | |s| + 1 == 2 * n ensures Read(o', s) == Find(c'.spill, s) {
      assert Read(o, s) == Find(c.spill, s);
      InsertReadsStem(o, c, key, v, s);
    }
  }

  lemma InsertLookup<V>(o: Root<V>, c: Content<V>, key: Bytes, v: V, k: Bytes)
    requires ShapedRoot(o) && Fits(o, Nibbles(key)) && |k| == |key|
    requires Lookup(o, k) == Find(c.items, k)
    requires LandingOf(o, Nibbles(key)) == if key == [] then Clobbered else if Crowded(c.items, key) then Spilled else Stored
    ensures Lookup(Some(Inserted(o, Nibbles(key), v)), k) == Find(Put(c, key, v).items, k)
  {
    ReadAfterInsert(o, Nibbles(key), v, Nibbles(k));
    if Nibbles(k) == Nibbles(key) { NibblesInjective(k, key); }
  }

  lemma InsertReadsStem<V>(o: Root<V>, c: Content<V>, key: Bytes, v: V, s: Path)
    requires ShapedRoot(o) && Fits(o, Nibbles(key)) && |s| + 1 == 2 * |key|
    requires Read(o, s) == Find(c.spill, s)
    requires LandingOf(o, Nibbles(key)) == if Crowded(c.items, key) then Spilled else Stored
    ensures Read(Some(Inserted(o, Nibbles(key), v)), s) == Find(Put(c, key, v).spill, s)
  {
    ReadAfterInsert(o, Nibbles(key), v, s);
    StemOf(key);
  }

  lemma InsertLanding<V>(o: Root<V>, c: Content<V>, key: Bytes, v: V, n: nat)
    requires Represents(o, c, n) && |key| == n
    ensures Fits(o, Nibbles(key)) && CanonicalRoot(Some(Inserted(o, Nibbles(key), v)), 2 * n)
    ensures n > 0 ==> LandingOf(o, Nibbles(key)) == if Crowded(c.items, key) then Spilled else Stored
    ensures n == 0 ==> LandingOf(o, Nibbles(key)) == Clobbered
  {
    if n > 0 {
      CrowdedIff(o, c, key, n);
      if o.Some? {
        FitsCanonical(o.value, Nibbles(key), 2 * n);
        InsertCanonicalIn(o.value, Nibbles(key), v, 2 * n);
        SpillsIffCrowdedIn(o.value, Nibbles(key), 2 * n);
      }
    }
  }

  /** The root is a function of the content, and the content of the root. */
  lemma RootIffContent<V>(o: Root<V>, c: Content<V>, o': Root<V>, c': Content<V>, n: nat)
    requires Represents(o, c, n) && Represents(o', c', n)
    ensures o == o' <==> c == c'
  {
    if o == o' {
      forall k: Bytes ensures Find(c.items, k) == Find(c'.items, k) {
        if |k| == n { assert Lookup(o, k) == Find(c.items, k); }
      }
      forall s: Path ensures Find(c.spill, s) == Find(c'.spill, s) {
        if |s| + 1 == 2 * n { assert Read(o, s) == Find(c.spill, s); }
      }
      SameFinds(c.items, c'.items);
      SameFinds(c.spill, c'.spill);
    }
    if c == c' {
      forall q: Path | |q| == 2 * n || |q| + 1 == 2 * n ensures Read(o, q) == Read(o', q) {
        if |q| == 2 * n { NibblesOf(q); }
      }
      UniqueRoot(o, o', 2 * n);
    }
  }

  lemma SameFinds<K(!new), V>(a: map<K, V>, b: map<K, V>)
    requires forall k :: Find(a, k) == Find(b, k)
    ensures a == b
  {
    assert forall k :: (k in a <==> Find(a, k).Some?) && (k in b <==> Find(b, k).Some?);
    assert forall k :: k in a ==> a[k] == Find(a, k).value == Find(b, k).value == b[k];
  }

  /** An insertion acts on the reads as on a plain map exactly when fewer than two siblings of the
      key are stored, or the key reads as that value already. */
  lemma InsertActsAsMapIff<V>(o: Root<V>, c: Content<V>, key: Bytes, v: V, n: nat)
    requires Represents(o, c, n) && |key| == n
    ensures Fits(o, Nibbles(key))
    ensures ActsAsMap(Some(Inserted(o, Nibbles(key), v)), c.items[key := v], n)
        <==> !Crowded(c.items, key) || Lookup(o, key) == Some(v)
  {
    InsertRepresents(o, c, key, v, n);
    assert Lookup(o, key) == Find(c.items, key);
    PutActsAsMapIff(Some(Inserted(o, Nibbles(key), v)), c, key, v, n);
  }

  lemma PutActsAsMapIff<V>(o': Root<V>, c: Content<V>, key: Bytes, v: V, n: nat)
    requires Represents(o', Put(c, key, v), n) && |key| == n
    requires forall k :: k in c.items[key := v] ==> |k| == n
    ensures ActsAsMap(o', c.items[key := v], n) <==> !Crowded(c.items, key) || Find(c.items, key) == Some(v)
  {
    RepresentsReads(o', Put(c, key, v), c.items[key := v], n);
    PutIsUpdateIff(c.items, Put(c, key, v).items, key, v, Crowded(c.items, key));
  }

  lemma PutIsUpdateIff<V>(m: map<Bytes, V>, m': map<Bytes, V>, key: Bytes, v: V, crowded: bool)
    requires m' == if crowded then m else m[key := v]
    ensures m[key := v] == m' <==> !crowded || Find(m, key) == Some(v)
  {
    if crowded && m[key := v] == m' { assert m[key := v][key] == v; }
    if Find(m, key) == Some(v) { assert m[key := v] == m; }
  }

  /** Every read of a key of `n` bytes is the lookup in `m`. */
  ghost predicate ActsAsMap<V>(o: Root<V>, m: map<Bytes, V>, n: nat)
    requires ShapedRoot(o)
  {
    forall k: Bytes :: |k| == n ==> Lookup(o, k) == Find(m, k)
  }

  lemma RepresentsReads<V>(o: Root<V>, c: Content<V>, m: map<Bytes, V>, n: nat)
    requires Represents(o, c, n) && forall k :: k in m ==> |k| == n
    ensures ActsAsMap(o, m, n) <==> m == c.items
  {
    if ActsAsMap(o, m, n) {
      forall k: Bytes ensures Find(m, k) == Find(c.items, k) {
        if |k| == n { assert Lookup(o, k) == Find(m, k); }
      }
      SameFinds(m, c.items);
    }
  }

  // ---------------------------------------------------------------------------------------
  // Sequences of insertions
  // ---------------------------------------------------------------------------------------

  ghost predicate CanInsertAll<V>(o: Root<V>, ops: seq<(Bytes, V)>)
    requires ShapedRoot(o)
    decreases |ops|
  {
    ops == [] || (
      Fits(o, Nibbles(ops[0].0)) &&
      CanInsertAll(Some(Inserted(o, Nibbles(ops[0].0), ops[0].1)), ops[1..]))
  }

  ghost function InsertAll<V>(o: Root<V>, ops: seq<(Bytes, V)>): (r: Root<V>)
    requires ShapedRoot(o) && CanInsertAll(o, ops)
    ensures ShapedRoot(r)
    decreases |ops|
  {
    if ops == [] then o else InsertAll(Some(Inserted(o, Nibbles(ops[0].0), ops[0].1)), ops[1..])
  }

  ghost function PutAll<V>(c: Content<V>, ops: seq<(Bytes, V)>): Content<V>
    decreases |ops|
  {
    if ops == [] then c else PutAll(Put(c, ops[0].0, ops[0].1), ops[1..])
  }

  /** The plain map the insertions describe. */
  function Plain<V>(m: map<Bytes, V>, ops: seq<(Bytes, V)>): map<Bytes, V>
    decreases |ops|
  {
    if ops == [] then m else Plain(m[ops[0].0 := ops[0].1], ops[1..])
  }

  ghost predicate OfLength<V>(ops: seq<(Bytes, V)>, n: nat)
  {
    forall i :: 0 <= i < |ops| ==> |ops[i].0| == n
  }

  lemma {:induction false} InsertAllRepresents<V>(o: Root<V>, c: Content<V>, ops: seq<(Bytes, V)>, n: nat)
    requires Represents(o, c, n) && OfLength(ops, n)
    ensures CanInsertAll(o, ops) && Represents(InsertAll(o, ops), PutAll(c, ops), n)
    decreases |ops|
  {
    if ops != [] {
      InsertRepresents(o, c, ops[0].0, ops[0].1, n);
      InsertAllRepresents(Some(Inserted(o, Nibbles(ops[0].0), ops[0].1)), Put(c, ops[0].0, ops[0].1), ops[1..], n);
    }
  }

  function Empty<V>(): Content<V>
  {
    Content(map[], map[])
  }

  /** For keys of one length, whatever they are: the root after any insertions is the canonical trie
      of their content, so two sequences reach the same root exactly when their contents agree. */
  lemma SameRootIffSameContent<V>(a: seq<(Bytes, V)>, b: seq<(Bytes, V)>, n: nat)
    requires OfLength(a, n) && OfLength(b, n)
    ensures CanInsertAll(None, a) && CanInsertAll(None, b)
    ensures InsertAll(None, a) == InsertAll(None, b) <==> PutAll(Empty(), a) == PutAll(Empty(), b)
  {
    InsertAllRepresents(None, Empty(), a, n);
    InsertAllRepresents(None, Empty(), b, n);
    RootIffContent(InsertAll(None, a), PutAll(Empty(), a), InsertAll(None, b), PutAll(Empty(), b), n);
  }

  /** ... and every read is the lookup in that content. */
  lemma ReadsAreContent<V>(ops: seq<(Bytes, V)>, n: nat, k: Bytes)
    requires OfLength(ops, n) && |k| == n
    ensures CanInsertAll(None, ops)
    ensures Lookup(InsertAll(None, ops), k) == Find(PutAll(Empty(), ops).items, k)
  {
    InsertAllRepresents(None, Empty(), ops, n);
  }

  /** No two keys of the set differ only in the last nibble. */
  ghost predicate Spread(keys: set<Bytes>)
  {
    forall a, b :: a in keys && b in keys && Siblings(a, b) ==> a == b
  }

  function KeysOf<V>(ops: seq<(Bytes, V)>): set<Bytes>
  {
    set i | 0 <= i < |ops| :: ops[i].0
  }

  /** Over keys no two of which differ only in the last nibble, nothing ever spills. */
  lemma {:induction false} SpreadNeverSpills<V>(m: map<Bytes, V>, ops: seq<(Bytes, V)>)
    requires Spread(m.Keys + KeysOf(ops))
    ensures PutAll(Content(m, map[]), ops) == Content(Plain(m, ops), map[])
    ensures Plain(m, ops).Keys == m.Keys + KeysOf(ops)
    decreases |ops|
  {
    if ops != [] {
      var m' := m[ops[0].0 := ops[0].1];
      assert KeysOf(ops) == {ops[0].0} + KeysOf(ops[1..]) by {
        assert forall i :: 1 <= i < |ops| ==> ops[i] == ops[1..][i - 1];
      }
      assert m'.Keys + KeysOf(ops[1..]) == m.Keys + KeysOf(ops);
      assert ops[0].0 in KeysOf(ops);
      SpreadNeverSpills(m', ops[1..]);
    }
  }

  /** The trie agrees with a map: over keys of one length, no two of which differ only in the last
      nibble, every read is the map lookup after any insertions and overwrites. */
  lemma TrieIsMap<V>(ops: seq<(Bytes, V)>, n: nat)
    requires OfLength(ops, n) && Spread(KeysOf(ops))
    ensures CanInsertAll(None, ops) && Represents(InsertAll(None, ops), Content(Plain(map[], ops), map[]), n)
    ensures ActsAsMap(InsertAll(None, ops), Plain(map[], ops), n)
  {
    var none: map<Bytes, V> := map[];
    assert none.Keys + KeysOf(ops) == KeysOf(ops);
    SpreadNeverSpills(none, ops);
    InsertAllRepresents(None, Empty(), ops, n);
  }

  /** ... and the root depends on the final map only, equal roots meaning equal maps. */
  lemma RootIsOfTheMap<V>(a: seq<(Bytes, V)>, b: seq<(Bytes, V)>, n: nat)
    requires OfLength(a, n) && OfLength(b, n) && Spread(KeysOf(a)) && Spread(KeysOf(b))
    ensures CanInsertAll(None, a) && CanInsertAll(None, b)
    ensures InsertAll(None, a) == InsertAll(None, b) <==> Plain(map[], a) == Plain(map[], b)
  {
    TrieIsMap(a, n);
    TrieIsMap(b, n);
    var ca, cb := Content(Plain(map[], a), map[]), Content(Plain(map[], b), map[]);
    RootIffContent(InsertAll(None, a), ca, InsertAll(None, b), cb, n);
  }

  /** Over keys of any lengths: a key never reads as a value that was not inserted under exactly that key. */
  lemma {:induction false} ReadsWereInserted<V>(o: Root<V>, ops: seq<(Bytes, V)>, k: Bytes)
    requires ShapedRoot(o) && CanInsertAll(o, ops)
    requires Lookup(InsertAll(o, ops), k).Some?
    ensures (k, Lookup(InsertAll(o, ops), k).value) in ops
         || Lookup(InsertAll(o, ops), k) == Lookup(o, k)
    decreases |ops|
  {
    if ops != [] {
      var (key, v) := ops[0];
      var o' := Some(Inserted(o, Nibbles(key), v));
      ReadsWereInserted(o', ops[1..], k);
      ReadAfterInsert(o, Nibbles(key), v, Nibbles(k));
      if Nibbles(k) == Nibbles(key) { NibblesInjective(k, key); }
    }
  }

  /** The value an insertion wrote reads back, on any trie, unless it was spilled or dropped. */
  lemma ReadsBackIff<V>(o: Root<V>, key: Bytes, v: V)
    requires ShapedRoot(o) && Fits(o, Nibbles(key))
    ensures Lookup(Some(Inserted(o, Nibbles(key), v)), key) == Some(v)
       <==> (LandingOf(o, Nibbles(key)) !in {Spilled, Dropped} || Lookup(o, key) == Some(v))
  {
    ReadAfterInsert(o, Nibbles(key), v, Nibbles(key));
  }

  /** Appending one insertion to a sequence. */
  lemma {:induction false} InsertLast<V>(o: Root<V>, ops: seq<(Bytes, V)>, key: Bytes, v: V)
    requires ShapedRoot(o)
    ensures CanInsertAll(o, ops + [(key, v)]) <==> CanInsertAll(o, ops) && Fits(InsertAll(o, ops), Nibbles(key))
    ensures CanInsertAll(o, ops + [(key, v)]) ==>
      InsertAll(o, ops + [(key, v)]) == Some(Inserted(InsertAll(o, ops), Nibbles(key), v))
    decreases |ops|
  {
    var all := ops + [(key, v)];
    if ops == [] {
      assert all == [(key, v)] && all[1..] == [];
    } else {
      assert all[0] == ops[0] && all[1..] == ops[1..] + [(key, v)];
      if Fits(o, Nibbles(ops[0].0)) {
        InsertLast(Some(Inserted(o, Nibbles(ops[0].0), ops[0].1)), ops[1..], key, v);
      }
    }
  }
}
