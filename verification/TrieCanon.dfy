/** The canonical form of a trie whose keys all have the same length, and why its root is a
    function of what it stores. */
module TrieCanon {
  import opened Base
  import opened TrieModel

  /** The shape every insertion of keys of `n` nibbles keeps: extensions are non-empty and lead to
      a branch, a branch has at least two children, and only a branch at the last nibble can hold
      a value of its own. */
  ghost predicate Canonical<V>(d: Digest<V>, n: nat)
  {
    match d.node
    case Leaf(key, _) => |key| == n
    case Branch(children, here) =>
      && n >= 1 && |children| == 16 && (here.Some? ==> n == 1)
      && TwoChildren(children)
      && forall i :: 0 <= i < 16 && children[i].Some? ==> Canonical(children[i].value, n - 1)
    case Extension(path, child) =>
      0 < |path| < n && child.node.Branch? && Canonical(child, n - |path|)
  }

  ghost predicate TwoChildren<V>(children: seq<Root<V>>)
  {
    exists i, j :: 0 <= i < j < |children| && children[i].Some? && children[j].Some?
  }

  ghost predicate CanonicalRoot<V>(o: Root<V>, n: nat)
  {
    o.Some? ==> Canonical(o.value, n)
  }

  lemma {:induction false} CanonicalIsShaped<V>(d: Digest<V>, n: nat)
    requires Canonical(d, n)
    ensures Shaped(d)
    decreases d
  {
    match d.node {
      case Leaf(_, _) =>
      case Branch(children, _) =>
        forall i | 0 <= i < 16 && children[i].Some? ensures Shaped(children[i].value) {
          CanonicalIsShaped(children[i].value, n - 1);
        }
      case Extension(path, child) => CanonicalIsShaped(child, n - |path|);
    }
  }

  /** Keys of one length never make an insertion index out of range, and land under their own key
      or in the value slot of a branch. */
  lemma {:induction false} FitsCanonical<V>(d: Digest<V>, p: Path, n: nat)
    requires Canonical(d, n) && |p| == n > 0
    ensures Shaped(d) && FitsIn(d, p)
    ensures LandingIn(d, p).Stored? || LandingIn(d, p).Spilled?
    decreases d
  {
    CanonicalIsShaped(d, n);
    match d.node {
      case Leaf(key, _) => if key != p { CommonBelow(key, p); }
      case Branch(children, _) =>
        if n > 1 && children[p[0]].Some? { FitsCanonical(children[p[0]].value, p[1..], n - 1); }
      case Extension(path, child) =>
        var c := CommonPrefix(path, p);
        if c == |path| { FitsCanonical(child, p[c..], n - c); }
    }
  }

  lemma CommonBelow(a: Path, b: Path)
    requires |a| == |b| && a != b
    ensures CommonPrefix(a, b) < |a|
  {
    assert a == a[..|a|] && b == b[..|b|];
  }

  /** Inserting a key of the common length keeps the canonical shape. */
  lemma {:induction false} InsertCanonicalIn<V>(d: Digest<V>, p: Path, v: V, n: nat)
    requires Canonical(d, n) && |p| == n > 0 && Shaped(d) && FitsIn(d, p)
    ensures Canonical(InsertedIn(d, p, v), n)
    ensures d.node.Branch? ==> InsertedIn(d, p, v).node.Branch?
    decreases d
  {
    match d.node {
      case Leaf(key, value) => if key != p { SplitLeafCanonical(key, value, p, v); }
      case Branch(children, here) =>
        if n > 1 {
          var i := p[0];
          if children[i].Some? { InsertCanonicalIn(children[i].value, p[1..], v, n - 1); }
          BranchUpdated(children, here, i, Inserted(children[i], p[1..], v), n);
        }
      case Extension(path, child) =>
        var c := CommonPrefix(path, p);
        if c < |path| {
          SplitExtensionCanonical(path, child, p, v, n);
        } else {
          InsertCanonicalIn(child, p[c..], v, n - c);
        }
    }
  }

  lemma TwoChildrenKept<V>(children: seq<Root<V>>, i: nat, child: Digest<V>)
    requires i < |children| && TwoChildren(children)
    ensures TwoChildren(children[i := Some(child)])
  {
    var a, b :| 0 <= a < b < |children| && children[a].Some? && children[b].Some?;
    assert children[i := Some(child)][a].Some? && children[i := Some(child)][b].Some?;
  }

  lemma BranchUpdated<V>(children: seq<Root<V>>, here: Option<V>, i: Nibble, child: Digest<V>, n: nat)
    requires Canonical(Digest(Branch(children, here)), n) && n > 1 && Canonical(child, n - 1)
    ensures Canonical(Digest(Branch(children[i := Some(child)], here)), n)
  {
    TwoChildrenKept(children, i, child);
  }

  lemma TwoChildrenMade<V>(i: Nibble, j: Nibble, a: Digest<V>, b: Digest<V>)
    requires i != j
    ensures TwoChildren(NoChildren()[i := Some(a)][j := Some(b)])
  {
    var kids := NoChildren()[i := Some(a)][j := Some(b)];
    if i < j { assert kids[i].Some? && kids[j].Some?; } else { assert kids[j].Some? && kids[i].Some?; }
  }

  lemma WrapCanonical<V>(prefix: Path, branch: Node<V>, n: nat)
    requires branch.Branch? && |prefix| <= n && Canonical(Digest(branch), n - |prefix|)
    ensures Canonical(Wrap(prefix, branch), n)
  {
  }

  lemma SplitLeafCanonical<V>(key: Path, value: V, p: Path, v: V)
    requires |key| == |p| && key != p
    ensures CommonPrefix(key, p) < |p|
    ensures Canonical(SplitLeaf(key, value, p, v), |p|)
  {
    var c := CommonPrefix(key, p);
    CommonBelow(key, p);
    TwoChildrenMade(key[c], p[c], LeafOf(key[c + 1..], value), LeafOf(p[c + 1..], v));
    WrapCanonical(key[..c], Branch(LeafSlots(key, value, p, v, c), None), |p|);
  }

  lemma SplitExtensionCanonical<V>(ext: Path, child: Digest<V>, p: Path, v: V, n: nat)
    requires Canonical(Digest(Extension(ext, child)), n) && |p| == n
    requires CommonPrefix(ext, p) < |ext|
    ensures Canonical(SplitExtension(ext, child, p, v, CommonPrefix(ext, p)), n)
  {
    var c := CommonPrefix(ext, p);
    var rest := Shortened(ext, child, c);
    assert Canonical(rest, n - c - 1);
    TwoChildrenMade(ext[c], p[c], rest, LeafOf(p[c + 1..], v));
    WrapCanonical(ext[..c], Branch(ForkSlots(ext, child, p, v, c), None), n);
  }

  // ---------------------------------------------------------------------------------------
  // Uniqueness: a canonical trie is determined by its reads
  // ---------------------------------------------------------------------------------------

  /** Some key of the trie. */
  lemma {:induction false} SomeKey<V>(d: Digest<V>, n: nat) returns (q: Path)
    requires Canonical(d, n)
    ensures Shaped(d) && |q| == n && ReadIn(d, q).Some?
    decreases d
  {
    CanonicalIsShaped(d, n);
    match d.node {
      case Leaf(key, _) => q := key;
      case Branch(children, _) =>
        var i, j :| 0 <= i < j < |children| && children[i].Some? && children[j].Some?;
        q := KeyThrough(d, n, i);
      case Extension(path, child) =>
        var rest := SomeKey(child, n - |path|);
        q := path + rest;
        assert q[|path|..] == rest;
    }
  }

  lemma {:induction false} KeyThrough<V>(d: Digest<V>, n: nat, i: Nibble) returns (q: Path)
    requires d.node.Branch? && Canonical(d, n) && d.node.children[i].Some?
    ensures Shaped(d) && |q| == n && q[0] == i && ReadIn(d, q).Some?
    decreases d, 0
  {
    CanonicalIsShaped(d, n);
    var rest := SomeKey(d.node.children[i].value, n - 1);
    q := [i] + rest;
    assert q[1..] == rest;
  }

  /** Two keys of a branch that differ in their first nibble. */
  lemma ForkedKeys<V>(d: Digest<V>, n: nat) returns (q: Path, r: Path)
    requires d.node.Branch? && Canonical(d, n)
    ensures Shaped(d) && |q| == |r| == n && q[0] != r[0] && ReadIn(d, q).Some? && ReadIn(d, r).Some?
  {
    var i, j :| 0 <= i < j < |d.node.children| && d.node.children[i].Some? && d.node.children[j].Some?;
    q := KeyThrough(d, n, i);
    r := KeyThrough(d, n, j);
  }

  /** The two tries answer every read of a whole key, and of a key without its last nibble, alike. */
  ghost predicate SameReads<V>(a: Digest<V>, b: Digest<V>, n: nat)
    requires Shaped(a) && Shaped(b)
  {
    forall q: Path :: (|q| == n || |q| + 1 == n) ==> ReadIn(a, q) == ReadIn(b, q)
  }

  lemma {:induction false} Unique<V>(a: Digest<V>, b: Digest<V>, n: nat)
    requires Canonical(a, n) && Canonical(b, n) && Shaped(a) && Shaped(b)
    requires SameReads(a, b, n)
    ensures a == b
    decreases a
  {
    match (a.node, b.node) {
      case (Leaf(key, _), Leaf(_, _)) => assert ReadIn(a, key) == ReadIn(b, key);
      case (Leaf(_, _), _) => LeafAlone(a, b, n);
      case (_, Leaf(_, _)) => LeafAlone(b, a, n);
      case (Branch(_, _), Extension(_, _)) => BranchIsNotExtension(a, b, n);
      case (Extension(_, _), Branch(_, _)) => BranchIsNotExtension(b, a, n);
      case (Branch(ka, ha), Branch(kb, hb)) =>
        forall i | 0 <= i < 16 ensures ka[i] == kb[i] {
          if ka[i].Some? || kb[i].Some? {
            SameChild(a, b, n, i);
            Unique(ka[i].value, kb[i].value, n - 1);
          }
        }
        assert ka == kb;
        assert ha == hb by { if n == 1 { assert ReadIn(a, []) == ReadIn(b, []); } }
      case (Extension(pa, ca), Extension(pb, cb)) =>
        SamePath(a, b, n);
        forall q: Path | |q| == n - |pa| || |q| + 1 == n - |pa| ensures ReadIn(ca, q) == ReadIn(cb, q) {
          assert (pa + q)[|pa|..] == q;
          assert ReadIn(a, pa + q) == ReadIn(b, pa + q);
        }
        Unique(ca, cb, n - |pa|);
    }
  }

  /** A trie that is not a leaf has two keys that differ; a leaf has one. */
  lemma LeafAlone<V>(a: Digest<V>, b: Digest<V>, n: nat)
    requires Canonical(a, n) && Canonical(b, n) && Shaped(a) && Shaped(b)
    requires a.node.Leaf? && !b.node.Leaf?
    ensures !SameReads(a, b, n)
  {
    var q, r := TwoKeys(b, n);
    assert ReadIn(a, q) != ReadIn(b, q) || ReadIn(a, r) != ReadIn(b, r);
  }

  lemma TwoKeys<V>(d: Digest<V>, n: nat) returns (q: Path, r: Path)
    requires Canonical(d, n) && Shaped(d) && !d.node.Leaf?
    ensures |q| == |r| == n && q != r && ReadIn(d, q).Some? && ReadIn(d, r).Some?
    ensures d.node.Branch? ==> q[0] != r[0]
    ensures d.node.Extension? ==>
      var e := d.node.path;
      |e| < n && e <= q && e <= r && q[|e|] != r[|e|]
  {
    if d.node.Branch? {
      q, r := ForkedKeys(d, n);
    } else {
      var e := d.node.path;
      var q', r' := ForkedKeys(d.node.child, n - |e|);
      q, r := e + q', e + r';
      assert q[|e|..] == q' && r[|e|..] == r';
    }
  }

  lemma BranchIsNotExtension<V>(a: Digest<V>, b: Digest<V>, n: nat)
    requires Canonical(a, n) && Canonical(b, n) && Shaped(a) && Shaped(b)
    requires a.node.Branch? && b.node.Extension?
    ensures !SameReads(a, b, n)
  {
    var q, r := TwoKeys(a, n);
    assert ReadIn(b, q).None? || ReadIn(b, r).None? by {
      assert b.node.path <= q ==> b.node.path[0] == q[0];
      assert b.node.path <= r ==> b.node.path[0] == r[0];
    }
    assert ReadIn(a, q) != ReadIn(b, q) || ReadIn(a, r) != ReadIn(b, r);
  }

  lemma SameChild<V>(a: Digest<V>, b: Digest<V>, n: nat, i: Nibble)
    requires Canonical(a, n) && Canonical(b, n) && Shaped(a) && Shaped(b)
    requires a.node.Branch? && b.node.Branch? && SameReads(a, b, n)
    requires a.node.children[i].Some? || b.node.children[i].Some?
    ensures a.node.children[i].Some? && b.node.children[i].Some?
    ensures SameReads(a.node.children[i].value, b.node.children[i].value, n - 1)
  {
    var ca, cb := a.node.children[i], b.node.children[i];
    assert cb.Some? by {
      if ca.Some? {
        var q := KeyThrough(a, n, i);
        assert ReadIn(a, q) == ReadIn(b, q) == Read(cb, q[1..]);
      } else {
        var q := KeyThrough(b, n, i);
      }
    }
    assert ca.Some? by {
      var q := KeyThrough(b, n, i);
      assert ReadIn(b, q) == ReadIn(a, q) == Read(ca, q[1..]);
    }
    forall q: Path | |q| == n - 1 || |q| + 1 == n - 1 ensures ReadIn(ca.value, q) == ReadIn(cb.value, q) {
      var iq := [i] + q;
      assert iq[1..] == q && (|iq| == n || |iq| + 1 == n);
      assert ReadIn(a, iq) == Read(ca, q) && ReadIn(b, iq) == Read(cb, q);
    }
  }

  lemma SamePath<V>(a: Digest<V>, b: Digest<V>, n: nat)
    requires Canonical(a, n) && Canonical(b, n) && Shaped(a) && Shaped(b)
    requires a.node.Extension? && b.node.Extension? && SameReads(a, b, n)
    ensures a.node.path == b.node.path
  {
    var pa, pb := a.node.path, b.node.path;
    var q, r := TwoKeys(a, n);
    assert ReadIn(a, q) == ReadIn(b, q) && ReadIn(a, r) == ReadIn(b, r);
    assert pb <= q && pb <= r;
    var q', r' := TwoKeys(b, n);
    assert ReadIn(a, q') == ReadIn(b, q') && ReadIn(a, r') == ReadIn(b, r');
    assert pa <= q' && pa <= r';
    assert pa == q[..|pa|] == pb;
  }

  lemma OneRootEmpty<V>(a: Root<V>, b: Root<V>, n: nat) returns (q: Path)
    requires CanonicalRoot(a, n) && ShapedRoot(a)
    requires a.Some? && b.None?
    ensures |q| == n && Read(a, q) != Read(b, q)
  {
    q := SomeKey(a.value, n);
  }

  /** Two canonical roots are equal exactly when they answer all reads alike. */
  lemma UniqueRoot<V>(a: Root<V>, b: Root<V>, n: nat)
    requires CanonicalRoot(a, n) && CanonicalRoot(b, n) && ShapedRoot(a) && ShapedRoot(b)
    requires forall q: Path :: (|q| == n || |q| + 1 == n) ==> Read(a, q) == Read(b, q)
    ensures a == b
  {
    if a.Some? && b.Some? {
      forall q: Path | |q| == n || |q| + 1 == n ensures ReadIn(a.value, q) == ReadIn(b.value, q) {
        assert Read(a, q) == Read(b, q);
      }
      Unique(a.value, b.value, n);
    } else if a.Some? {
      var q := OneRootEmpty(a, b, n);
    } else if b.Some? {
      var q := OneRootEmpty(b, a, n);
    }
  }
}
