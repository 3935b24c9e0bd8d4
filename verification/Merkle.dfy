/** The Merkle root of a block's transactions. */
module Merkle {
  import opened Base

  /** A digest is either a transaction hash or the hash of two digests. */
  datatype MerkleDigest = Leaf(hash: Bytes) | Pair(left: MerkleDigest, right: MerkleDigest)

  /** One level up: neighbours are paired, an odd last digest with itself. */
  function Level(hs: seq<MerkleDigest>): (r: seq<MerkleDigest>)
    ensures |r| == (|hs| + 1) / 2
  {
    if |hs| == 0 then []
    else if |hs| == 1 then [Pair(hs[0], hs[0])]
    else [Pair(hs[0], hs[1])] + Level(hs[2..])
  }

  function Root(hs: seq<MerkleDigest>): MerkleDigest
    requires hs != []
    decreases |hs|
  {
    if |hs| == 1 then hs[0] else Root(Level(hs))
  }

  /** The root of a block; there is none without transactions. */
  function MerkleRoot(hashes: seq<Bytes>): Option<MerkleDigest>
  {
    if hashes == [] then None else Some(Root(Leaves(hashes)))
  }

  function Leaves(hashes: seq<Bytes>): seq<MerkleDigest>
  {
    seq(|hashes|, i requires 0 <= i < |hashes| => Leaf(hashes[i]))
  }

  method CalculateMerkleRoot(txHashes: seq<Bytes>) returns (root: Option<MerkleDigest>)
    ensures root == MerkleRoot(txHashes)
  {
    if txHashes == [] { return None; }
    var hashes := Leaves(txHashes);
    while |hashes| > 1
      invariant hashes != [] && Root(hashes) == Root(Leaves(txHashes))
      decreases |hashes|
    {
      hashes := NextLevel(hashes);
    }
    root := Some(hashes[0]);
  }

  /** The inner loop over chunks of two. */
  method NextLevel(hashes: seq<MerkleDigest>) returns (nextLevel: seq<MerkleDigest>)
    ensures nextLevel == Level(hashes)
  {
    nextLevel := [];
    var rest := hashes;
    while rest != []
      invariant Level(hashes) == nextLevel + Level(rest)
      decreases |rest|
    {
      if |rest| >= 2 {
        nextLevel := nextLevel + [Pair(rest[0], rest[1])];
        rest := rest[2..];
      } else {
        nextLevel := nextLevel + [Pair(rest[0], rest[0])];
        rest := [];
      }
    }
  }

  // ---------------------------------------------------------------------------------------
  // The same root, top down
  // ---------------------------------------------------------------------------------------

  function Pow2(k: nat): (p: nat)
    ensures p > 0
  {
    if k == 0 then 1 else 2 * Pow2(k - 1)
  }

  /** The perfect tree of height `k` over `hs`: split in the middle, and a half that is missing
      repeats the other. */
  function Tree(hs: seq<MerkleDigest>, k: nat): MerkleDigest
    requires 0 < |hs| <= Pow2(k)
    decreases k
  {
    if k == 0 then hs[0]
    else if |hs| <= Pow2(k - 1) then Pair(Tree(hs, k - 1), Tree(hs, k - 1))
    else Pair(Tree(hs[..Pow2(k - 1)], k - 1), Tree(hs[Pow2(k - 1)..], k - 1))
  }

  lemma {:induction false} LevelSplit(a: seq<MerkleDigest>, b: seq<MerkleDigest>)
    requires |a| % 2 == 0
    ensures Level(a + b) == Level(a) + Level(b)
    decreases |a|
  {
    if a == [] {
      assert a + b == b;
    } else {
      assert (a + b)[2..] == a[2..] + b;
      LevelSplit(a[2..], b);
    }
  }

  /** Pairing the leaves first and splitting in the middle first build the same tree. */
  lemma {:induction false} TreeOfLevel(hs: seq<MerkleDigest>, k: nat)
    requires k > 0 && 0 < |hs| <= Pow2(k)
    ensures 0 < |Level(hs)| <= Pow2(k - 1) && Tree(hs, k) == Tree(Level(hs), k - 1)
    decreases k
  {
    hide Level;
    if k == 1 {
      LevelOfPair(hs);
    } else if |hs| <= Pow2(k - 1) {
      TreeOfLevel(hs, k - 1);
    } else {
      TreeOfLevel(hs[..Pow2(k - 1)], k - 1);
      TreeOfLevel(hs[Pow2(k - 1)..], k - 1);
      TreeOfHalves(hs, k);
    }
  }

  lemma LevelOfPair(hs: seq<MerkleDigest>)
    requires 0 < |hs| <= 2
    ensures Level(hs) == [Tree(hs, 1)]
  {
    if |hs| == 2 { assert Level(hs[2..]) == []; }
  }

  lemma TreeOfHalves(hs: seq<MerkleDigest>, k: nat)
    requires k > 1 && Pow2(k - 1) < |hs| <= Pow2(k)
    requires Tree(hs[..Pow2(k - 1)], k - 1) == Tree(Level(hs[..Pow2(k - 1)]), k - 2)
    requires |Level(hs[Pow2(k - 1)..])| <= Pow2(k - 2)
    requires Tree(hs[Pow2(k - 1)..], k - 1) == Tree(Level(hs[Pow2(k - 1)..]), k - 2)
    ensures |Level(hs)| <= Pow2(k - 1) && Tree(hs, k) == Tree(Level(hs), k - 1)
  {
    LevelHalves(hs, Pow2(k - 1));
    hide Level;
  }

  lemma LevelHalves(hs: seq<MerkleDigest>, half: nat)
    requires half % 2 == 0 && half <= |hs|
    ensures |Level(hs)| >= half / 2
    ensures Level(hs)[..half / 2] == Level(hs[..half]) && Level(hs)[half / 2..] == Level(hs[half..])
  {
    assert hs == hs[..half] + hs[half..];
    LevelSplit(hs[..half], hs[half..]);
  }

  /** The level-by-level loop computes the top-down tree of the least height that holds the list. */
  lemma {:induction false} RootIsTree(hs: seq<MerkleDigest>, k: nat)
    requires hs != [] && |hs| <= Pow2(k) && (k > 0 ==> Pow2(k - 1) < |hs|)
    ensures Root(hs) == Tree(hs, k)
    decreases k
  {
    if k > 0 {
      TreeOfLevel(hs, k);
      RootIsTree(Level(hs), k - 1);
    }
  }

  // ---------------------------------------------------------------------------------------
  // Binding
  // ---------------------------------------------------------------------------------------

  lemma {:induction false} LevelInjective(a: seq<MerkleDigest>, b: seq<MerkleDigest>)
    requires |a| == |b| && Level(a) == Level(b)
    ensures a == b
    decreases |a|
  {
    if |a| >= 2 {
      assert Level(a)[0] == Level(b)[0];
      assert Level(a)[1..] == Level(a[2..]) && Level(b)[1..] == Level(b[2..]);
      LevelInjective(a[2..], b[2..]);
      assert a == a[..2] + a[2..] && b == b[..2] + b[2..];
    } else if |a| == 1 {
      assert Level(a)[0] == Level(b)[0];
    }
  }

  /** Two lists of equal length with the same root are equal, whatever their digests are. */
  lemma {:induction false} RootBinds(a: seq<MerkleDigest>, b: seq<MerkleDigest>)
    requires |a| == |b| > 0 && Root(a) == Root(b)
    ensures a == b
    decreases |a|
  {
    if |a| > 1 {
      RootBinds(Level(a), Level(b));
      LevelInjective(a, b);
    }
  }

  /** The root of a block binds its transaction hashes among lists of the same length. */
  lemma MerkleRootBinds(a: seq<Bytes>, b: seq<Bytes>)
    requires |a| == |b| && MerkleRoot(a) == MerkleRoot(b)
    ensures a == b
  {
    if a != [] {
      RootBinds(Leaves(a), Leaves(b));
      forall i | 0 <= i < |a| ensures a[i] == b[i] { assert Leaves(a)[i] == Leaves(b)[i]; }
    }
  }

  /** The length matters: a list of odd length from three on shares its root with the list that
      repeats its last element. */
  lemma OddListsCollide(hs: seq<MerkleDigest>)
    requires |hs| % 2 == 1 && |hs| >= 3
    ensures Root(hs) == Root(hs + [hs[|hs| - 1]])
  {
    LastPair(hs);
  }

  lemma {:induction false} LastPair(hs: seq<MerkleDigest>)
    requires |hs| % 2 == 1
    ensures Level(hs) == Level(hs + [hs[|hs| - 1]])
    decreases |hs|
  {
    var last := hs[|hs| - 1];
    if |hs| == 1 {
      assert (hs + [last])[2..] == [];
    } else {
      LastPair(hs[2..]);
      assert (hs + [last])[2..] == hs[2..] + [last];
    }
  }
}
