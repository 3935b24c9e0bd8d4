/** The trie without the special case for a one-nibble path at a branch: it agrees with a map for all keys
    of one length, so that case is the only reason why the trie does not. */
module TrieRepaired {
  import opened Base
  import opened TrieModel
  import opened TrieCanon
  import opened TrieContent

  function RepairedIn<V>(d: Digest<V>, p: Path, v: V): (r: Digest<V>)
    requires Shaped(d) && p != [] && FitsIn(d, p)
    ensures Shaped(r)
    decreases d, 0
  {
    match d.node
    case Leaf(key, value) =>
      if key == p then LeafOf(p, v)
      else
        ReadSplitLeaf(key, value, p, v, EMPTY_PATH);
        SplitLeaf(key, value, p, v)
    case Branch(children, here) =>
      Digest(Branch(children[p[0] := Some(Repaired(children[p[0]], p[1..], v))], here))
    case Extension(path, child) =>
      var c := CommonPrefix(path, p);
      if c == |path| then
        Digest(Extension(path, if p[c..] == [] then LeafOf([], v) else RepairedIn(child, p[c..], v)))
      else
        ReadSplitExtension(path, child, p, v, EMPTY_PATH);
        SplitExtension(path, child, p, v, c)
  }

  function Repaired<V>(o: Root<V>, p: Path, v: V): (r: Digest<V>)
    requires ShapedRoot(o) && Fits(o, p)
    ensures Shaped(r)
    decreases o, 1
  {
    if p == [] || o.None? then LeafOf(p, v) else RepairedIn(o.value, p, v)
  }

  /** Where the program does not spill, the repair changes nothing. */
  lemma {:induction false} RepairedAgrees<V>(d: Digest<V>, p: Path, v: V, n: nat)
    requires Canonical(d, n) && |p| == n > 0 && Shaped(d) && FitsIn(d, p) && !LandingIn(d, p).Spilled?
    ensures RepairedIn(d, p, v) == InsertedIn(d, p, v)
    decreases d
  {
    match d.node {
      case Leaf(_, _) =>
      case Branch(children, _) =>
        if children[p[0]].Some? { RepairedAgrees(children[p[0]].value, p[1..], v, n - 1); }
      case Extension(path, child) =>
        var c := CommonPrefix(path, p);
        if c == |path| { RepairedAgrees(child, p[c..], v, n - c); }
    }
  }

  lemma {:induction false} RepairedCanonicalIn<V>(d: Digest<V>, p: Path, v: V, n: nat)
    requires Canonical(d, n) && |p| == n > 0 && Shaped(d) && FitsIn(d, p)
    ensures Canonical(RepairedIn(d, p, v), n)
    ensures d.node.Branch? ==> RepairedIn(d, p, v).node.Branch?
    decreases d
  {
    match d.node {
      case Leaf(key, value) => if key != p { SplitLeafCanonical(key, value, p, v); }
      case Branch(children, _) =>
        var i := p[0];
        if n > 1 && children[i].Some? { RepairedCanonicalIn(children[i].value, p[1..], v, n - 1); }
        TwoChildrenKept(children, i, Repaired(children[i], p[1..], v));
      case Extension(path, child) =>
        var c := CommonPrefix(path, p);
        if c < |path| {
          SplitExtensionCanonical(path, child, p, v, n);
        } else {
          RepairedCanonicalIn(child, p[c..], v, n - c);
        }
    }
  }

  /** The read of a key, or of a path one nibble short, after a repaired insertion. */
  lemma {:induction false} RepairedReadsIn<V>(d: Digest<V>, p: Path, v: V, n: nat, q: Path)
    requires Canonical(d, n) && |p| == n > 0 && Shaped(d) && FitsIn(d, p) && (|q| == n || |q| + 1 == n)
    ensures ReadIn(RepairedIn(d, p, v), q) == if q == p then Some(v) else ReadIn(d, q)
    decreases d, 0
  {
    match d.node {
      case Leaf(key, value) =>
        if key != p {
          CommonBelow(key, p);
          ReadSplitLeaf(key, value, p, v, q);
        }
      case Branch(children, _) =>
        if q != [] && q[0] == p[0] {
          assert p == [p[0]] + p[1..] && q == [q[0]] + q[1..];
          RepairedReads(children[p[0]], p[1..], v, n - 1, q[1..]);
        }
      case Extension(path, child) =>
        var c := CommonPrefix(path, p);
        if c < |path| {
          ReadSplitExtension(path, child, p, v, q);
        } else {
          RepairedReadsBelow(path, child, p, v, n, q);
        }
    }
  }

  lemma {:induction false} RepairedReads<V>(o: Root<V>, p: Path, v: V, n: nat, q: Path)
    requires CanonicalRoot(o, n) && |p| == n && ShapedRoot(o) && Fits(o, p) && (|q| == n || |q| + 1 == n)
    ensures Read(Some(Repaired(o, p, v)), q) == if q == p then Some(v) else Read(o, q)
    decreases o, 1
  {
    if p != [] && o.Some? { RepairedReadsIn(o.value, p, v, n, q); }
  }

  lemma {:induction false} RepairedReadsBelow<V>(path: Path, child: Digest<V>, p: Path, v: V, n: nat, q: Path)
    requires Canonical(Digest(Extension(path, child)), n) && |p| == n && Shaped(child)
    requires path <= p && CommonPrefix(path, p) == |path| && FitsIn(Digest(Extension(path, child)), p)
    requires |q| == n || |q| + 1 == n
    ensures ReadIn(RepairedIn(Digest(Extension(path, child)), p, v), q)
         == if q == p then Some(v) else ReadIn(Digest(Extension(path, child)), q)
    decreases child, 2
  {
    var c := |path|;
    assert p == path + p[c..];
    if path <= q {
      assert q == path + q[c..];
      RepairedReadsIn(child, p[c..], v, n - c, q[c..]);
    }
  }

  /** `o` is the canonical trie of the map, all keys having `n` bytes. */
  ghost predicate Holds<V>(o: Root<V>, m: map<Bytes, V>, n: nat)
  {
    Represents(o, Content(m, map[]), n)
  }

  ghost function RepairedAll<V>(o: Root<V>, ops: seq<(Bytes, V)>, n: nat): (r: Root<V>)
    requires CanonicalRoot(o, 2 * n) && ShapedRoot(o) && OfLength(ops, n)
    ensures CanonicalRoot(r, 2 * n) && ShapedRoot(r)
    decreases |ops|
  {
    if ops == [] then o
    else
      CanonicalStep(o, Nibbles(ops[0].0), ops[0].1, 2 * n);
      RepairedAll(Some(Repaired(o, Nibbles(ops[0].0), ops[0].1)), ops[1..], n)
  }

  lemma CanonicalStep<V>(o: Root<V>, p: Path, v: V, n: nat)
    requires CanonicalRoot(o, n) && ShapedRoot(o) && |p| == n
    ensures Fits(o, p) && Canonical(Repaired(o, p, v), n)
  {
    if n > 0 && o.Some? {
      FitsCanonical(o.value, p, n);
      RepairedCanonicalIn(o.value, p, v, n);
    }
  }

  /** A repaired insertion of any key of the common length is a map update. */
  lemma RepairedHolds<V>(o: Root<V>, m: map<Bytes, V>, key: Bytes, v: V, n: nat)
    requires Holds(o, m, n) && |key| == n
    ensures Fits(o, Nibbles(key)) && Holds(Some(Repaired(o, Nibbles(key), v)), m[key := v], n)
  {
    hide Read, Canonical, Shaped, Fits, Repaired, Nibbles;
    var p := Nibbles(key);
    CanonicalStep(o, p, v, 2 * n);
    var r := Some(Repaired(o, p, v));
    forall k: Bytes | |k| == n ensures Lookup(r, k) == Find(m[key := v], k) {
      RepairedLookup(o, key, v, n, k);
      assert Lookup(o, k) == Find(m, k);
    }
    forall s: Path | |s| + 1 == 2 * n ensures Read(r, s) == None {
      RepairedReads(o, p, v, 2 * n, s);
      assert Read(o, s) == Find(map[], s);
    }
  }

  lemma RepairedLookup<V>(o: Root<V>, key: Bytes, v: V, n: nat, k: Bytes)
    requires CanonicalRoot(o, 2 * n) && ShapedRoot(o) && |key| == |k| == n && Fits(o, Nibbles(key))
    ensures Lookup(Some(Repaired(o, Nibbles(key), v)), k) == if k == key then Some(v) else Lookup(o, k)
  {
    RepairedReads(o, Nibbles(key), v, 2 * n, Nibbles(k));
    if Nibbles(k) == Nibbles(key) { NibblesInjective(k, key); }
    hide Read, Canonical, Shaped, Fits, Repaired, Nibbles;
  }

  /** The repaired trie agrees with a map for all keys of one length: every read is the map lookup, and
      the root depends on the map only. */
  lemma RepairedIsMap<V>(a: seq<(Bytes, V)>, b: seq<(Bytes, V)>, n: nat, k: Bytes)
    requires OfLength(a, n) && OfLength(b, n) && |k| == n
    ensures Lookup(RepairedAll(None, a, n), k) == Find(Plain(map[], a), k)
    ensures RepairedAll(None, a, n) == RepairedAll(None, b, n) <==> Plain(map[], a) == Plain(map[], b)
  {
    RepairedAllHolds(None, map[], a, n);
    RepairedAllHolds(None, map[], b, n);
    RootIffContent(RepairedAll(None, a, n), Content(Plain(map[], a), map[]),
                   RepairedAll(None, b, n), Content(Plain(map[], b), map[]), n);
  }

  lemma {:induction false} RepairedAllHolds<V>(o: Root<V>, m: map<Bytes, V>, ops: seq<(Bytes, V)>, n: nat)
    requires Holds(o, m, n) && OfLength(ops, n)
    ensures Holds(RepairedAll(o, ops, n), Plain(m, ops), n)
    decreases |ops|
  {
    if ops != [] {
      RepairedHolds(o, m, ops[0].0, ops[0].1, n);
      RepairedAllHolds(Some(Repaired(o, Nibbles(ops[0].0), ops[0].1)), m[ops[0].0 := ops[0].1], ops[1..], n);
    }
  }
}
