/** The Merkle Patricia trie as a value.

    A digest wraps the node it is the hash of, so two digests are equal exactly when the
    nodes are, and a digest is the whole subtree below it. */
module TrieModel {
  import opened Base

  type Nibble = n: nat | n < 16

  type Path = seq<Nibble>

  datatype Node<V> =
    | Leaf(key: Path, value: V)
    | Branch(children: seq<Option<Digest<V>>>, here: Option<V>)
    | Extension(path: Path, child: Digest<V>)

  datatype Digest<V> = Digest(node: Node<V>)

  type Root<V> = Option<Digest<V>>

  const EMPTY_PATH: Path := []

  /** Every branch has sixteen child slots. */
  ghost predicate Shaped<V>(d: Digest<V>)
  {
    match d.node
    case Leaf(_, _) => true
    case Branch(children, _) =>
      |children| == 16 && forall i :: 0 <= i < 16 && children[i].Some? ==> Shaped(children[i].value)
    case Extension(_, child) => Shaped(child)
  }

  ghost predicate ShapedRoot<V>(o: Root<V>)
  {
    o.Some? ==> Shaped(o.value)
  }

  /** Length of the longest common prefix. */
  function CommonPrefix(a: Path, b: Path): (c: nat)
    ensures c <= |a| && c <= |b| && a[..c] == b[..c]
    ensures c < |a| && c < |b| ==> a[c] != b[c]
  {
    if a == [] || b == [] || a[0] != b[0] then 0 else 1 + CommonPrefix(a[1..], b[1..])
  }

  /** What `get_at` finds below a digest. */
  function ReadIn<V>(d: Digest<V>, p: Path): Option<V>
    requires Shaped(d)
    decreases d, 0
  {
    match d.node
    case Leaf(key, value) => if key == p then Some(value) else None
    case Branch(children, here) => if p == [] then here else Read(children[p[0]], p[1..])
    case Extension(path, child) => if path <= p then ReadIn(child, p[|path|..]) else None
  }

  function Read<V>(o: Root<V>, p: Path): Option<V>
    requires ShapedRoot(o)
    decreases o, 1
  {
    if o.None? then None else ReadIn(o.value, p)
  }

  function LeafOf<V>(key: Path, value: V): Digest<V>
  {
    Digest(Leaf(key, value))
  }

  function NoChildren<V>(): (children: seq<Option<Digest<V>>>)
    ensures |children| == 16
    ensures forall i :: 0 <= i < 16 ==> children[i].None?
  {
    seq(16, i => None)
  }

  /** The extension wrapper around a new branch; there is none for an empty prefix. */
  function Wrap<V>(prefix: Path, branch: Node<V>): Digest<V>
  {
    if |prefix| > 0 then Digest(Extension(prefix, Digest(branch))) else Digest(branch)
  }

  /** The children of the branch that separates a leaf from a new key after `c` common nibbles. */
  function LeafSlots<V>(key: Path, value: V, p: Path, v: V, c: nat): (kids: seq<Root<V>>)
    requires c <= |key| && c <= |p|
    ensures |kids| == 16
  {
    var kids := if c < |key| then NoChildren()[key[c] := Some(LeafOf(key[c + 1..], value))] else NoChildren();
    if c < |p| then kids[p[c] := Some(LeafOf(p[c + 1..], v))] else kids
  }

  /** `split_leaf`: a leaf that is a prefix of the new key, or the other way round, is dropped. */
  function SplitLeaf<V>(leafKey: Path, leafValue: V, newKey: Path, newValue: V): Digest<V>
  {
    var c := CommonPrefix(leafKey, newKey);
    Wrap(leafKey[..c], Branch(LeafSlots(leafKey, leafValue, newKey, newValue, c), None))
  }

  /** What remains of an extension below its nibble at `c`. */
  function Shortened<V>(ext: Path, child: Digest<V>, c: nat): Digest<V>
    requires c < |ext|
  {
    if |ext| == c + 1 then child else Digest(Extension(ext[c + 1..], child))
  }

  function ForkSlots<V>(ext: Path, child: Digest<V>, p: Path, v: V, c: nat): (kids: seq<Root<V>>)
    requires c < |ext| && c < |p|
    ensures |kids| == 16
  {
    NoChildren()[ext[c] := Some(Shortened(ext, child, c))][p[c] := Some(LeafOf(p[c + 1..], v))]
  }

  /** `split_extension`: indexing `newKey` at `c` is out of range when the new key ends there. */
  function SplitExtension<V>(ext: Path, child: Digest<V>, newKey: Path, newValue: V, c: nat): Digest<V>
    requires c < |ext| && c < |newKey|
  {
    Wrap(ext[..c], Branch(ForkSlots(ext, child, newKey, newValue, c), None))
  }

  /** Inserting along `p` never indexes out of range: the walk does not end strictly inside an extension. */
  predicate FitsIn<V>(d: Digest<V>, p: Path)
    requires Shaped(d)
    decreases d, 0
  {
    match d.node
    case Leaf(_, _) => true
    case Branch(children, _) => |p| <= 1 || Fits(children[p[0]], p[1..])
    case Extension(path, child) =>
      var c := CommonPrefix(path, p);
      if c == |path| then p[c..] == [] || FitsIn(child, p[c..]) else c < |p|
  }

  predicate Fits<V>(o: Root<V>, p: Path)
    requires ShapedRoot(o)
    decreases o, 1
  {
    p == [] || o.None? || FitsIn(o.value, p)
  }

  /** `insert_at` on the value of the subtree. */
  function InsertedIn<V>(d: Digest<V>, p: Path, v: V): (r: Digest<V>)
    requires Shaped(d) && p != [] && FitsIn(d, p)
    ensures Shaped(r)
    decreases d, 0
  {
    match d.node
    case Leaf(key, value) => if key == p then LeafOf(p, v) else SplitLeaf(key, value, p, v)
    case Branch(children, here) =>
      if |p| == 1 then Digest(Branch(children, Some(v)))
      else Digest(Branch(children[p[0] := Some(Inserted(children[p[0]], p[1..], v))], here))
    case Extension(path, child) =>
      var c := CommonPrefix(path, p);
      if c == |path| then
        Digest(Extension(path, if p[c..] == [] then LeafOf([], v) else InsertedIn(child, p[c..], v)))
      else
        SplitExtension(path, child, p, v, c)
  }

  function Inserted<V>(o: Root<V>, p: Path, v: V): (r: Digest<V>)
    requires ShapedRoot(o) && Fits(o, p)
    ensures Shaped(r)
    decreases o, 1
  {
    if p == [] || o.None? then LeafOf(p, v) else InsertedIn(o.value, p, v)
  }

  // ---------------------------------------------------------------------------------------
  // What one insertion does to every read, on every trie
  // ---------------------------------------------------------------------------------------

  /** Where an insertion ends up.
      `Stored`: under its own key. `Spilled`: in the value slot of the branch above its last
      nibble, where no read of the key looks. `Dropped`: nowhere. `Displaced(n)`: stored, and
      the leaf under the first `n` nibbles is lost. `Clobbered`: stored, and every longer key
      that starts with it is lost. */
  datatype Landing = Stored | Spilled | Dropped | Displaced(at: nat) | Clobbered

  function Deeper(l: Landing, k: nat): Landing
  {
    if l.Displaced? then Displaced(l.at + k) else l
  }

  function LandingIn<V>(d: Digest<V>, p: Path): (l: Landing)
    requires Shaped(d) && p != [] && FitsIn(d, p)
    ensures l.Displaced? ==> l.at < |p|
    decreases d, 0
  {
    match d.node
    case Leaf(key, _) =>
      var c := CommonPrefix(key, p);
      if key == p then Stored
      else if c == |key| then Displaced(c)
      else if c == |p| then Dropped
      else Stored
    case Branch(children, _) =>
      if |p| == 1 then Spilled else Deeper(LandingOf(children[p[0]], p[1..]), 1)
    case Extension(path, child) =>
      var c := CommonPrefix(path, p);
      if c < |path| then Stored
      else if p[c..] == [] then Clobbered
      else Deeper(LandingIn(child, p[c..]), c)
  }

  function LandingOf<V>(o: Root<V>, p: Path): (l: Landing)
    requires ShapedRoot(o) && Fits(o, p)
    ensures l.Displaced? ==> l.at < |p|
    decreases o, 1
  {
    if p == [] then Clobbered else if o.None? then Stored else LandingIn(o.value, p)
  }

  /** The read of `q` after an insertion of `v` under `p` that landed as `l`, given the read before it. */
  function After<V>(l: Landing, p: Path, v: V, q: Path, before: Option<V>): Option<V>
  {
    match l
    case Stored => if q == p then Some(v) else before
    case Spilled => if p != [] && q == p[..|p| - 1] then Some(v) else before
    case Dropped => before
    case Displaced(at) =>
      if q == p then Some(v) else if at < |p| && q == p[..at] then None else before
    case Clobbered => if q == p then Some(v) else if p < q then None else before
  }

  lemma AfterShift<V>(l: Landing, e: Path, p: Path, v: V, q: Path, before: Option<V>)
    requires l.Spilled? ==> p != []
    ensures After(Deeper(l, |e|), e + p, v, e + q, before) == After(l, p, v, q, before)
  {
    assert (e + p)[|e|..] == p && (e + q)[|e|..] == q;
    match l {
      case Spilled => assert (e + p)[..|e + p| - 1] == e + p[..|p| - 1];
                      assert (e + p[..|p| - 1])[|e|..] == p[..|p| - 1];
      case Displaced(at) =>
        if at < |p| {
          assert (e + p)[..at + |e|] == e + p[..at];
          assert (e + p[..at])[|e|..] == p[..at];
        }
      case Clobbered => PrefixShift(e, p, q);
      case _ =>
    }
  }

  lemma PrefixShift(e: Path, p: Path, q: Path)
    ensures e + p <= e + q <==> p <= q
  {
    if p <= q {
      assert e + q == (e + p) + q[|p|..];
    }
    if e + p <= e + q {
      var rest := (e + q)[|e + p|..];
      assert e + q == e + p + rest;
      assert q == (e + p + rest)[|e|..] == p + rest;
    }
  }

  /** A read that does not start with `e` is not touched by an insertion below `e`. */
  lemma AfterElsewhere<V>(l: Landing, e: Path, p: Path, v: V, q: Path, before: Option<V>)
    requires !(e <= q)
    requires l.Spilled? ==> p != []
    ensures After(Deeper(l, |e|), e + p, v, q, before) == before
  {
    assert e <= e + p;
    match l {
      case Spilled => assert (e + p)[..|e + p| - 1] == e + p[..|p| - 1];
      case Displaced(at) => if at < |p| { assert (e + p)[..at + |e|] == e + p[..at]; }
      case Clobbered => assert !(e + p <= q);
      case _ =>
    }
  }

  lemma ReadWrap<V>(prefix: Path, branch: Node<V>, q: Path)
    requires branch.Branch? && Shaped(Digest(branch))
    ensures Shaped(Wrap(prefix, branch))
    ensures ReadIn(Wrap(prefix, branch), q)
         == if prefix <= q then ReadIn(Digest(branch), q[|prefix|..]) else None
  {
    if prefix == [] { assert q[0..] == q; }
  }

  /** Comparing `q` with `a` one nibble after a common start of length `c`. */
  lemma CompareAt(a: Path, c: nat, q: Path)
    requires c < |a| && a[..c] <= q
    ensures q == a <==> c < |q| && q[c] == a[c] && q[c + 1..] == a[c + 1..]
    ensures a <= q <==> c < |q| && q[c] == a[c] && a[c + 1..] <= q[c + 1..]
  {
    assert a == a[..c] + [a[c]] + a[c + 1..];
    if c < |q| {
      assert q == a[..c] + [q[c]] + q[c + 1..];
      if q[c] == a[c] && a[c + 1..] <= q[c + 1..] {
        assert q == a + q[c + 1..][|a| - c - 1..];
      }
      if a <= q {
        assert q == a + q[|a|..];
        assert q[c + 1..] == a[c + 1..] + q[|a|..];
      }
    }
  }

  lemma ReadSplitLeaf<V>(key: Path, value: V, p: Path, v: V, q: Path)
    requires p != [] && key != p
    ensures Shaped(SplitLeaf(key, value, p, v))
    ensures ReadIn(SplitLeaf(key, value, p, v), q)
         == After(LandingIn(LeafOf(key, value), p), p, v, q, ReadIn(LeafOf(key, value), q))
  {
    var c := CommonPrefix(key, p);
    if c == |key| { assert key[..c] == key; }
    if c == |p| { assert p[..c] == p; }
    ReadFork(key[..c], LeafSlots(key, value, p, v, c), q);
    if key[..c] <= q && c < |q| {
      if c < |key| { CompareAt(key, c, q); ReadLeaf(key[c + 1..], value, q[c + 1..]); }
      if c < |p| { CompareAt(p, c, q); ReadLeaf(p[c + 1..], v, q[c + 1..]); }
    }
  }

  /** Reading through a fresh branch under `prefix`. */
  lemma ReadFork<V>(prefix: Path, kids: seq<Root<V>>, q: Path)
    requires |kids| == 16 && forall i :: 0 <= i < 16 && kids[i].Some? ==> Shaped(kids[i].value)
    ensures Shaped(Wrap(prefix, Branch(kids, None)))
    ensures ReadIn(Wrap(prefix, Branch(kids, None)), q)
         == if prefix <= q && |prefix| < |q| then Read(kids[q[|prefix|]], q[|prefix| + 1..]) else None
  {
    ReadWrap(prefix, Branch(kids, None), q);
    if prefix <= q && |prefix| < |q| { assert q[|prefix|..][1..] == q[|prefix| + 1..]; }
  }

  lemma ReadLeaf<V>(key: Path, v: V, q: Path)
    ensures Read(Some(LeafOf(key, v)), q) == if q == key then Some(v) else None
  {
  }

  lemma ReadSplitExtension<V>(ext: Path, child: Digest<V>, p: Path, v: V, q: Path)
    requires Shaped(child)
    requires CommonPrefix(ext, p) < |ext| && CommonPrefix(ext, p) < |p|
    ensures Shaped(SplitExtension(ext, child, p, v, CommonPrefix(ext, p)))
    ensures ReadIn(SplitExtension(ext, child, p, v, CommonPrefix(ext, p)), q)
         == After(Stored, p, v, q, ReadIn(Digest(Extension(ext, child)), q))
  {
    var c := CommonPrefix(ext, p);
    ReadFork(ext[..c], ForkSlots(ext, child, p, v, c), q);
    if ext[..c] <= q && c < |q| {
      CompareAt(p, c, q);
      CompareAt(ext, c, q);
      ReadLeaf(p[c + 1..], v, q[c + 1..]);
      if q[c] == ext[c] { ReadExtensionRest(ext, child, c, q); }
    }
  }

  lemma ReadExtensionRest<V>(ext: Path, child: Digest<V>, c: nat, q: Path)
    requires Shaped(child) && c < |ext| && c < |q| && ext[..c] <= q && q[c] == ext[c]
    ensures ReadIn(Digest(Extension(ext, child)), q) == Read(Some(Shortened(ext, child, c)), q[c + 1..])
  {
    CompareAt(ext, c, q);
    if ext <= q { assert q[c + 1..][|ext| - c - 1..] == q[|ext|..]; }
    if |ext| == c + 1 { assert ext[c + 1..] == []; }
  }

  /** The law of insertion, on every trie, every key and every read: the read of `q` afterwards is
      what the landing says. */
  lemma {:induction false} ReadAfterInsertIn<V>(d: Digest<V>, p: Path, v: V, q: Path)
    requires Shaped(d) && p != [] && FitsIn(d, p)
    ensures ReadIn(InsertedIn(d, p, v), q) == After(LandingIn(d, p), p, v, q, ReadIn(d, q))
    decreases d, 0
  {
    match d.node {
      case Leaf(key, value) =>
        if key != p { ReadSplitLeaf(key, value, p, v, q); }
      case Branch(children, here) =>
        if |p| > 1 {
          var l := LandingOf(children[p[0]], p[1..]);
          assert p == [p[0]] + p[1..];
          if q != [] && q[0] == p[0] {
            assert q == [q[0]] + q[1..];
            ReadAfterInsert(children[p[0]], p[1..], v, q[1..]);
            AfterShift(l, [p[0]], p[1..], v, q[1..], ReadIn(d, q));
          } else {
            AfterElsewhere(l, [p[0]], p[1..], v, q, ReadIn(d, q));
          }
        }
      case Extension(path, child) =>
        var c := CommonPrefix(path, p);
        if c < |path| {
          ReadSplitExtension(path, child, p, v, q);
        } else {
          ReadBelowExtension(path, child, p, v, q);
        }
    }
  }

  lemma {:induction false} ReadBelowExtension<V>(path: Path, child: Digest<V>, p: Path, v: V, q: Path)
    requires Shaped(child) && p != [] && path <= p && FitsIn(Digest(Extension(path, child)), p)
    requires CommonPrefix(path, p) == |path|
    ensures ReadIn(InsertedIn(Digest(Extension(path, child)), p, v), q)
         == After(LandingIn(Digest(Extension(path, child)), p), p, v, q, ReadIn(Digest(Extension(path, child)), q))
    decreases child, 2
  {
    var rest := p[|path|..];
    assert p == path + rest;
    var l := if rest == [] then Clobbered else LandingIn(child, rest);
    if path <= q {
      assert q == path + q[|path|..];
      AfterShift(l, path, rest, v, q[|path|..], ReadIn(child, q[|path|..]));
      if rest != [] { ReadAfterInsertIn(child, rest, v, q[|path|..]); }
    } else {
      AfterElsewhere(l, path, rest, v, q, None);
    }
  }

  lemma {:induction false} ReadAfterInsert<V>(o: Root<V>, p: Path, v: V, q: Path)
    requires ShapedRoot(o) && Fits(o, p)
    ensures Read(Some(Inserted(o, p, v)), q) == After(LandingOf(o, p), p, v, q, Read(o, q))
    decreases o, 1
  {
    if p != [] && o.Some? { ReadAfterInsertIn(o.value, p, v, q); }
  }
}
