/** The trie as the program keeps it: a store of nodes addressed by their digests, and a root. */
module Trie {
  import opened Base
  import opened TrieModel
  import opened TrieContent

  /** `after` holds everything `before` held. */
  ghost predicate Extends<V>(before: map<Digest<V>, Node<V>>, after: map<Digest<V>, Node<V>>)
  {
    forall d :: d in before ==> d in after && after[d] == before[d]
  }

  /** Every digest a node mentions resolves in the store, and extension paths are not empty. */
  ghost predicate Linked<V>(nodes: map<Digest<V>, Node<V>>, node: Node<V>)
  {
    match node
    case Leaf(_, _) => true
    case Branch(children, _) =>
      |children| == 16 && forall i :: 0 <= i < 16 && children[i].Some? ==> children[i].value in nodes
    case Extension(path, child) => path != [] && child in nodes
  }

  ghost predicate Closed<V>(nodes: map<Digest<V>, Node<V>>)
  {
    forall d :: d in nodes ==> nodes[d] == d.node && Linked(nodes, d.node)
  }

  lemma {:induction false} ClosedIsShaped<V>(nodes: map<Digest<V>, Node<V>>, d: Digest<V>)
    requires Closed(nodes) && d in nodes
    ensures Shaped(d)
    decreases d
  {
    match d.node {
      case Leaf(_, _) =>
      case Branch(children, _) =>
        forall i | 0 <= i < 16 && children[i].Some? ensures Shaped(children[i].value) {
          ClosedIsShaped(nodes, children[i].value);
        }
      case Extension(_, child) => ClosedIsShaped(nodes, child);
    }
  }

  class MerklePatriciaTrie<V(==)> {
    var nodes: map<Digest<V>, Node<V>>
    var root: Root<V>

    ghost predicate Valid()
      reads this
    {
      Closed(nodes) && ShapedRoot(root) && (root.Some? ==> root.value in nodes)
    }

    constructor ()
      ensures Valid() && root == None && nodes == map[]
    {
      nodes, root := map[], None;
    }

    /** The store only grows, the new root is the model's, and every digest of the old store reads
        every path as it did. */
    method Insert(key: Bytes, value: V)
      requires Valid() && Fits(root, Nibbles(key))
      modifies this
      ensures Valid() && Extends(old(nodes), nodes)
      ensures root == Some(Inserted(old(root), Nibbles(key), value))
      ensures forall d, p: Path :: d in old(nodes) ==> GetAt(d, p) == old(GetAt(d, p))
    {
      var nibbles := ToNibbles(key);
      var hash := InsertAt(root, nibbles, value);
      root := Some(hash);
    }

    method Get(key: Bytes) returns (value: Option<V>)
      requires Valid()
      ensures value == Lookup(root, key)
    {
      var nibbles := ToNibbles(key);
      if root.None? { return None; }
      value := GetAt(root.value, nibbles);
    }

    static method ToNibbles(bytes: Bytes) returns (nibbles: Path)
      ensures nibbles == Nibbles(bytes)
    {
      nibbles := [];
      for i := 0 to |bytes|
        invariant nibbles == Nibbles(bytes[..i])
      {
        nibbles := nibbles + [High(bytes[i])];
        nibbles := nibbles + [Low(bytes[i])];
        assert bytes[..i + 1][..i] == bytes[..i];
      }
      assert bytes[..|bytes|] == bytes;
    }

    method Store(node: Node<V>) returns (hash: Digest<V>)
      requires Closed(nodes) && Linked(nodes, node)
      modifies this`nodes
      ensures Closed(nodes) && Extends(old(nodes), nodes)
      ensures hash == Digest(node) && hash in nodes
    {
      hash := Digest(node);
      nodes := nodes[hash := node];
    }

    /** The lookup of a child digest cannot miss: the store is closed. */
    method InsertAt(nodeHash: Root<V>, path: Path, value: V) returns (hash: Digest<V>)
      requires Closed(nodes) && (nodeHash.Some? ==> nodeHash.value in nodes)
      requires ShapedRoot(nodeHash) && Fits(nodeHash, path)
      modifies this`nodes
      ensures Closed(nodes) && Extends(old(nodes), nodes)
      ensures hash == Inserted(nodeHash, path, value) && hash in nodes
      decreases |path|
    {
      if path == [] || nodeHash.None? {
        hash := Store(Leaf(path, value));
        return;
      }
      match nodes[nodeHash.value] {
        case Leaf(leafKey, leafValue) =>
          if leafKey == path {
            hash := Store(Leaf(path, value));
          } else {
            hash := SplitLeafNode(leafKey, leafValue, path, value);
          }
        case Branch(children, branchValue) =>
          var nibble, rest := path[0], path[1..];
          if rest == [] {
            hash := Store(Branch(children, Some(value)));
          } else {
            var childHash := InsertAt(children[nibble], rest, value);
            hash := Store(Branch(children[nibble := Some(childHash)], branchValue));
          }
        case Extension(extPath, child) =>
          var common := CommonPrefix(extPath, path);
          if common == |extPath| {
            var newChild := InsertAt(Some(child), path[common..], value);
            hash := Store(Extension(extPath, newChild));
          } else {
            hash := SplitExtensionNode(extPath, child, path, value, common);
          }
      }
    }

    method SplitLeafNode(leafKey: Path, leafValue: V, newKey: Path, newValue: V) returns (hash: Digest<V>)
      requires Closed(nodes) && leafKey != newKey
      modifies this`nodes
      ensures Closed(nodes) && Extends(old(nodes), nodes)
      ensures hash == SplitLeaf(leafKey, leafValue, newKey, newValue) && hash in nodes
    {
      var common := CommonPrefix(leafKey, newKey);
      var children: seq<Root<V>> := NoChildren();
      if common < |leafKey| {
        var leafHash := Store(Leaf(leafKey[common + 1..], leafValue));
        children := children[leafKey[common] := Some(leafHash)];
      }
      if common < |newKey| {
        var newHash := Store(Leaf(newKey[common + 1..], newValue));
        children := children[newKey[common] := Some(newHash)];
      }
      hash := Store(Branch(children, None));
      if common > 0 {
        hash := Store(Extension(leafKey[..common], hash));
      }
    }

    method SplitExtensionNode(extPath: Path, extChild: Digest<V>, newKey: Path, newValue: V, common: nat)
      returns (hash: Digest<V>)
      requires Closed(nodes) && extChild in nodes
      requires common < |extPath| && common < |newKey|
      modifies this`nodes
      ensures Closed(nodes) && Extends(old(nodes), nodes)
      ensures hash == SplitExtension(extPath, extChild, newKey, newValue, common) && hash in nodes
    {
      var children: seq<Root<V>> := NoChildren();
      var extRest := extPath[common + 1..];
      if extRest == [] {
        children := children[extPath[common] := Some(extChild)];
      } else {
        var newExt := Store(Extension(extRest, extChild));
        children := children[extPath[common] := Some(newExt)];
      }
      var newHash := Store(Leaf(newKey[common + 1..], newValue));
      children := children[newKey[common] := Some(newHash)];
      hash := Store(Branch(children, None));
      if common > 0 {
        hash := Store(Extension(extPath[..common], hash));
      }
    }

    function GetAt(nodeHash: Digest<V>, path: Path): (r: Option<V>)
      requires Closed(nodes) && nodeHash in nodes
      reads this
      ensures Shaped(nodeHash) && r == ReadIn(nodeHash, path)
      decreases nodeHash
    {
      ClosedIsShaped(nodes, nodeHash);
      match nodes[nodeHash]
      case Leaf(key, value) => if key == path then Some(value) else None
      case Branch(children, value) =>
        if path == [] then value
        else
          var child := children[path[0]];
          if child.None? then None else GetAt(child.value, path[1..])
      case Extension(extPath, child) =>
        if extPath <= path then GetAt(child, path[|extPath|..]) else None
    }
  }

  // ---------------------------------------------------------------------------------------
  // Where the trie is not a map
  // ---------------------------------------------------------------------------------------

  /** Three keys that differ only in the last nibble: the third is not read back. */
  lemma ThirdSiblingIsNotRead<V>(a: V, b: V, c: V)
    ensures CanInsertAll(None, [([0], a), ([1], b), ([2], c)])
    ensures Lookup(InsertAll(None, [([0], a), ([1], b), ([2], c)]), [2]) == None
  {
    var ops := [([0], a), ([1], b), ([2], c)];
    ReadsAreContent(ops, 1, [2]);
    PutThreeSiblings([0], a, [1], b, [2], c);
  }

  /** ... so the root depends on the order of insertion. */
  lemma SiblingOrderMatters<V>(a: V, b: V, c: V)
    ensures var x, y := [([0], a), ([1], b), ([2], c)], [([0], a), ([2], c), ([1], b)];
            && Plain(map[], x) == Plain(map[], y)
            && CanInsertAll(None, x) && CanInsertAll(None, y) && InsertAll(None, x) != InsertAll(None, y)
  {
    var x, y := [([0], a), ([1], b), ([2], c)], [([0], a), ([2], c), ([1], b)];
    SameRootIffSameContent(x, y, 1);
    PutThreeSiblings([0], a, [1], b, [2], c);
    PutThreeSiblings([0], a, [2], c, [1], b);
    assert [1] in PutAll(Empty(), x).items && [1] !in PutAll(Empty(), y).items;
    PlainThree([0], a, [1], b, [2], c);
    PlainThree([0], a, [2], c, [1], b);
  }

  lemma PutCons<V>(c: Content<V>, k: Bytes, v: V, rest: seq<(Bytes, V)>)
    ensures PutAll(c, [(k, v)] + rest) == PutAll(Put(c, k, v), rest)
  {
    assert ([(k, v)] + rest)[1..] == rest;
  }

  lemma PlainCons<V>(m: map<Bytes, V>, k: Bytes, v: V, rest: seq<(Bytes, V)>)
    ensures Plain(m, [(k, v)] + rest) == Plain(m[k := v], rest)
  {
    assert ([(k, v)] + rest)[1..] == rest;
  }

  lemma PutThreeSiblings<V>(k0: Bytes, a: V, k1: Bytes, b: V, k2: Bytes, c: V)
    requires Siblings(k0, k2) && Siblings(k1, k2) && k0 != k1
    ensures PutAll(Empty(), [(k0, a), (k1, b), (k2, c)]) == Content(map[k0 := a, k1 := b], map[Stem(k2) := c])
  {
    var one, two := map[k0 := a], map[k0 := a, k1 := b];
    assert [(k0, a), (k1, b), (k2, c)] == [(k0, a)] + ([(k1, b)] + ([(k2, c)] + []));
    PutCons(Empty(), k0, a, [(k1, b)] + ([(k2, c)] + []));
    assert Put(Empty(), k0, a) == Content(one, map[]);
    PutCons(Content(one, map[]), k1, b, [(k2, c)] + []);
    assert !Crowded(one, k1) && one[k1 := b] == two;
    PutCons(Content(two, map[]), k2, c, []);
    assert k0 in two && k1 in two && Crowded(two, k2);
  }

  lemma PlainThree<V>(k0: Bytes, a: V, k1: Bytes, b: V, k2: Bytes, c: V)
    ensures Plain(map[], [(k0, a), (k1, b), (k2, c)]) == map[][k0 := a][k1 := b][k2 := c]
  {
    assert [(k0, a), (k1, b), (k2, c)] == [(k0, a)] + ([(k1, b)] + ([(k2, c)] + []));
    PlainCons(map[], k0, a, [(k1, b)] + ([(k2, c)] + []));
    PlainCons(map[][k0 := a], k1, b, [(k2, c)] + []);
    PlainCons(map[][k0 := a][k1 := b], k2, c, []);
  }

  /** A stored key is lost when a longer key that starts with it is inserted next ... */
  lemma LongerKeyDisplaces<V>(k: Bytes, v: V, longer: Bytes, w: V)
    requires Nibbles(k) < Nibbles(longer)
    ensures CanInsertAll(None, [(k, v), (longer, w)])
    ensures Lookup(InsertAll(None, [(k, v), (longer, w)]), k) == None
    ensures Lookup(InsertAll(None, [(k, v), (longer, w)]), longer) == Some(w)
  {
    var p, q := Nibbles(k), Nibbles(longer);
    InsertTwo(k, v, longer, w);
    assert p == q[..|p|];
    ReadAfterInsert(Some(LeafOf(p, v)), q, w, p);
    ReadAfterInsert(Some(LeafOf(p, v)), q, w, q);
  }

  /** ... and a key is dropped when a longer key that starts with it is stored. */
  lemma ShorterKeyIsDropped<V>(k: Bytes, v: V, shorter: Bytes, w: V)
    requires shorter != [] && Nibbles(shorter) < Nibbles(k)
    ensures CanInsertAll(None, [(k, v), (shorter, w)])
    ensures Lookup(InsertAll(None, [(k, v), (shorter, w)]), shorter) == None
  {
    var p, q := Nibbles(k), Nibbles(shorter);
    InsertTwo(k, v, shorter, w);
    assert q == p[..|q|];
    ReadAfterInsert(Some(LeafOf(p, v)), q, w, q);
  }

  lemma InsertTwo<V>(k: Bytes, v: V, l: Bytes, w: V)
    ensures CanInsertAll(None, [(k, v), (l, w)])
    ensures InsertAll(None, [(k, v), (l, w)]) == Some(Inserted(Some(LeafOf(Nibbles(k), v)), Nibbles(l), w))
  {
    assert [(k, v), (l, w)] == [(k, v)] + ([(l, w)] + []);
    InsertCons(Some(LeafOf(Nibbles(k), v)), l, w, []);
    InsertCons(None, k, v, [(l, w)] + []);
  }

  lemma InsertCons<V>(o: Root<V>, k: Bytes, v: V, rest: seq<(Bytes, V)>)
    requires ShapedRoot(o) && Fits(o, Nibbles(k)) && CanInsertAll(Some(Inserted(o, Nibbles(k), v)), rest)
    ensures CanInsertAll(o, [(k, v)] + rest)
    ensures InsertAll(o, [(k, v)] + rest) == InsertAll(Some(Inserted(o, Nibbles(k), v)), rest)
  {
    assert ([(k, v)] + rest)[1..] == rest;
  }
}
