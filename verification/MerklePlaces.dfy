/** What the path verifier really establishes. It takes paths of any length and any index,
    so what it accepts is a node of the tree, at the height the path leaves it at and at
    the place the index leads to from the root; only at full length is that a leaf. */
module MerklePlaces {
  import opened Bytes
  import opened Merkle

  // ------------------------------------------------------------------- places

  /** Where index `j` leads to on level `d`: from the root down, the child on the side its
      bits say, or the only child where the level ends. */
  function Place(n: nat, d: nat, j: nat): (i: nat)
    requires n > 0 && d <= Depth(n)
    ensures i < Count(n, d)
    decreases Depth(n) - d
  {
    DepthIsLeast(n);
    if d == Depth(n) then 0
    else
      var q := Place(n, d + 1, j / 2);
      if 2 * q + j % 2 < Count(n, d) then 2 * q + j % 2 else 2 * q
  }

  /** An index within the level leads to itself. */
  lemma {:induction false} PlaceOfNode(n: nat, d: nat, j: nat)
    requires n > 0 && d <= Depth(n) && j < Count(n, d)
    ensures Place(n, d, j) == j
    decreases Depth(n) - d
  {
    DepthIsLeast(n);
    if d < Depth(n) {
      PlaceOfNode(n, d + 1, j / 2);
    }
  }

  function NodeAt(h: Hasher, leaves: seq<bytes>, d: nat, j: nat): bytes
    requires leaves != [] && d <= Depth(|leaves|)
  {
    Node(h, leaves, d, Place(|leaves|, d, j))
  }

  function PathAt(h: Hasher, leaves: seq<bytes>, d: nat, j: nat): seq<bytes>
    requires leaves != [] && d <= Depth(|leaves|)
  {
    PathFrom(h, leaves, d, Place(|leaves|, d, j))
  }

  /** The node an index leads to and its sibling hash to the parent in the order that the
      index says, also where a node is paired with itself. */
  lemma {:induction false} PlaceParent(h: Hasher, leaves: seq<bytes>, d: nat, j: nat)
    requires leaves != [] && d < Depth(|leaves|)
    ensures Place(|leaves|, d, j) / 2 == Place(|leaves|, d + 1, j / 2)
    ensures
      var x, y := NodeAt(h, leaves, d, j), Sibling(h, leaves, d, Place(|leaves|, d, j));
      NodeAt(h, leaves, d + 1, j / 2) == if j % 2 == 0 then h.Pair(x, y) else h.Pair(y, x)
  {
    ParentOf(h, leaves, d, Place(|leaves|, d, j));
  }

  /** Every node's own path is accepted from the index that leads to it. */
  lemma {:induction false} PlaceClimbs(h: Hasher, leaves: seq<bytes>, d: nat, j: nat)
    requires h.Sized() && WellFormed(leaves) && d <= Depth(|leaves|)
    ensures Fold(h, NodeAt(h, leaves, d, j), j, PathAt(h, leaves, d, j)) == NodeAt(h, leaves, Depth(|leaves|), 0)
    ensures |PathAt(h, leaves, d, j)| == Depth(|leaves|) - d
    ensures forall k :: 0 <= k < |PathAt(h, leaves, d, j)| ==> |PathAt(h, leaves, d, j)[k]| == 32
    decreases Depth(|leaves|) - d
  {
    if d < Depth(|leaves|) {
      PlaceParent(h, leaves, d, j);
      SiblingSize(h, leaves, d, Place(|leaves|, d, j));
      PlaceClimbs(h, leaves, d + 1, j / 2);
      assert PathAt(h, leaves, d, j)[1..] == PathAt(h, leaves, d + 1, j / 2);
    }
  }

  // ------------------------------------------------------------- the padded tree

  /** Node `q` of level `d` of a perfect tree: every level is hashed in pairs, and the leaf
      at any index is the one that the index leads to. */
  function Perfect(h: Hasher, leaves: seq<bytes>, d: nat, q: nat): bytes
    requires leaves != []
  {
    if d == 0 then leaves[Place(|leaves|, 0, q)]
    else h.Pair(Perfect(h, leaves, d - 1, 2 * q), Perfect(h, leaves, d - 1, 2 * q + 1))
  }

  /** The two children of the node an index leads to. */
  lemma {:induction false} PlaceChildren(n: nat, d: nat, q: nat)
    requires n > 0 && 0 < d <= Depth(n)
    ensures
      var p := Place(n, d, q);
      && Place(n, d - 1, 2 * q) == 2 * p
      && Place(n, d - 1, 2 * q + 1) == if 2 * p + 1 < Count(n, d - 1) then 2 * p + 1 else 2 * p
  {
    assert (2 * q) / 2 == q == (2 * q + 1) / 2 && (2 * q) % 2 == 0 && (2 * q + 1) % 2 == 1;
    Halves(Count(n, d - 1), Place(n, d, q));
  }

  lemma Halves(c: nat, p: nat)
    requires p < (c + 1) / 2
    ensures 2 * p < c
  {}

  /** Pairing the last node of an odd level with itself gives the perfect tree over the
      leaves with leaves repeated at the end. */
  lemma {:induction false} PaddedIsPerfect(h: Hasher, leaves: seq<bytes>, d: nat, q: nat)
    requires leaves != [] && d <= Depth(|leaves|)
    ensures NodeAt(h, leaves, d, q) == Perfect(h, leaves, d, q)
    decreases d
  {
    if d > 0 {
      PaddedIsPerfect(h, leaves, d - 1, 2 * q);
      PaddedIsPerfect(h, leaves, d - 1, 2 * q + 1);
      PlaceChildren(|leaves|, d, q);
    }
  }

  /** The root of a tree is the root of a perfect tree of its depth whose leaves are the
      tree's own leaves, followed by repeated ones. */
  lemma RootIsPerfect(h: Hasher, t: Tree)
    requires h.Sized() && Built(h, t)
    ensures t.root == Perfect(h, t.leaves, Depth(|t.leaves|), 0)
    ensures forall i :: 0 <= i < |t.leaves| ==> Perfect(h, t.leaves, 0, i) == t.leaves[i]
  {
    RootIsTop(h, t);
    PaddedIsPerfect(h, t.leaves, Depth(|t.leaves|), 0);
    forall i | 0 <= i < |t.leaves|
      ensures Perfect(h, t.leaves, 0, i) == t.leaves[i]
    {
      PlaceOfNode(|t.leaves|, 0, i);
    }
  }

  // -------------------------------------------------------- paths of any length

  predicate Hashes(proof: seq<bytes>) {
    forall k :: 0 <= k < |proof| ==> |proof[k]| == 32
  }

  /** The index after `m` steps up. */
  function Halved(i: nat, m: nat): nat {
    if m == 0 then i else Halved(i / 2, m - 1)
  }

  /** Steps of the path that lie below the leaves. */
  function Excess(n: nat, proof: seq<bytes>): nat {
    if |proof| > Depth(n) then |proof| - Depth(n) else 0
  }

  /** The level at which a path meets the tree. */
  function Meets(n: nat, proof: seq<bytes>): (d: nat)
    ensures d <= Depth(n)
  {
    if |proof| > Depth(n) then 0 else Depth(n) - |proof|
  }

  /** The part of a path inside the tree is the own path of the node it meets. */
  ghost predicate Genuine(h: Hasher, leaves: seq<bytes>, x: bytes, i: nat, proof: seq<bytes>)
    requires leaves != []
  {
    var m, d := Excess(|leaves|, proof), Meets(|leaves|, proof);
    var j := Halved(i, m);
    Fold(h, x, i, proof[..m]) == NodeAt(h, leaves, d, j) && proof[m..] == PathAt(h, leaves, d, j)
  }

  /** Inside the tree, two different pairs are hashed to one value. */
  ghost predicate Collides(h: Hasher, leaves: seq<bytes>, x: bytes, i: nat, proof: seq<bytes>)
    requires leaves != []
  {
    var m, d := Excess(|leaves|, proof), Meets(|leaves|, proof);
    var j := Halved(i, m);
    && |PathAt(h, leaves, d, j)| == |proof[m..]|
    && PathsCollide(h, Fold(h, x, i, proof[..m]), proof[m..], NodeAt(h, leaves, d, j), PathAt(h, leaves, d, j), j)
  }

  lemma {:induction false} FoldConcat(h: Hasher, x: bytes, i: nat, low: seq<bytes>, high: seq<bytes>)
    ensures Fold(h, x, i, low + high) == Fold(h, Fold(h, x, i, low), Halved(i, |low|), high)
    decreases |low|
  {
    if low == [] {
      assert low + high == high;
    } else {
      var parent := if i % 2 == 0 then h.Pair(x, low[0]) else h.Pair(low[0], x);
      assert (low + high)[1..] == low[1..] + high;
      FoldConcat(h, parent, i / 2, low[1..], high);
    }
  }

  lemma {:induction false} FoldSize(h: Hasher, x: bytes, i: nat, proof: seq<bytes>)
    requires h.Sized() && |x| == 32
    ensures |Fold(h, x, i, proof)| == 32
    decreases |proof|
  {
    if proof != [] {
      FoldSize(h, if i % 2 == 0 then h.Pair(x, proof[0]) else h.Pair(proof[0], x), i / 2, proof[1..]);
    }
  }

  /** Split a path where it enters the tree. */
  lemma Enters(h: Hasher, n: nat, x: bytes, i: nat, proof: seq<bytes>)
    ensures
      var m := Excess(n, proof);
      Fold(h, x, i, proof) == Fold(h, Fold(h, x, i, proof[..m]), Halved(i, m), proof[m..])
  {
    var m := Excess(n, proof);
    FoldConcat(h, x, i, proof[..m], proof[m..]);
    assert proof == proof[..m] + proof[m..];
  }

  lemma RootIsTop(h: Hasher, t: Tree)
    requires h.Sized() && Built(h, t)
    ensures t.root == NodeAt(h, t.leaves, Depth(|t.leaves|), 0) && |t.root| == 32
  {
    NodeSize(h, t.leaves, Depth(|t.leaves|), 0);
  }

  /** A path that meets the tree at level `d` leads to the root exactly if it is the own
      path of the node it meets, or collides with that path. */
  lemma {:induction false} InsideTree(h: Hasher, leaves: seq<bytes>, d: nat, j: nat, y: bytes, p: seq<bytes>)
    requires h.Sized() && WellFormed(leaves) && d <= Depth(|leaves|) && |p| == Depth(|leaves|) - d
    requires |y| == 32 && Hashes(p)
    ensures |PathAt(h, leaves, d, j)| == |p|
    ensures
      var own := y == NodeAt(h, leaves, d, j) && p == PathAt(h, leaves, d, j);
      var leads := Fold(h, y, j, p) == NodeAt(h, leaves, Depth(|leaves|), 0);
      && (own ==> leads)
      && (leads ==> own || PathsCollide(h, y, p, NodeAt(h, leaves, d, j), PathAt(h, leaves, d, j), j))
  {
    PlaceClimbs(h, leaves, d, j);
    NodeSize(h, leaves, d, Place(|leaves|, d, j));
    if Fold(h, y, j, p) == NodeAt(h, leaves, Depth(|leaves|), 0) {
      var k := Binding(h, y, p, NodeAt(h, leaves, d, j), PathAt(h, leaves, d, j), j);
    }
  }

  /** For every tree, every index, every hash and every path of hashes, of any length: a
      genuine answer is accepted, and an accepted answer is genuine, unless a pair on its
      way inside the tree collides with the tree's own. */
  lemma {:induction false} AcceptedIffGenuine(h: Hasher, t: Tree, x: bytes, i: nat, proof: seq<bytes>)
    requires h.Sized() && Built(h, t)
    ensures |x| == 32 && Hashes(proof) && Genuine(h, t.leaves, x, i, proof) ==> Accepts(h, x, i, proof, t.root)
    ensures Accepts(h, x, i, proof, t.root) ==>
      Genuine(h, t.leaves, x, i, proof) || Collides(h, t.leaves, x, i, proof)
  {
    if |x| == 32 && Hashes(proof) {
      var m, d := Excess(|t.leaves|, proof), Meets(|t.leaves|, proof);
      Enters(h, |t.leaves|, x, i, proof);
      FoldSize(h, x, i, proof[..m]);
      InsideTree(h, t.leaves, d, Halved(i, m), Fold(h, x, i, proof[..m]), proof[m..]);
      RootIsTop(h, t);
    }
  }

  // ------------------------------------------------------------------- results

  /** Every node, on every level, is accepted with its own path, for every index that
      leads to it. */
  lemma EveryNodeAccepted(h: Hasher, t: Tree, d: nat, i: nat)
    requires h.Sized() && Built(h, t) && d <= Depth(|t.leaves|)
    ensures Accepts(h, NodeAt(h, t.leaves, d, i), i, PathAt(h, t.leaves, d, i), t.root)
  {
    PlaceClimbs(h, t.leaves, d, i);
    NodeSize(h, t.leaves, d, Place(|t.leaves|, d, i));
    RootIsTop(h, t);
  }

  /** In particular the root itself is accepted with the empty path, for every index. */
  lemma RootAccepted(h: Hasher, t: Tree, i: nat)
    requires h.Sized() && Built(h, t)
    ensures Accepts(h, t.root, i, [], t.root)
  {
    RootIsTop(h, t);
  }

  /** An accepted path that is no longer than the tree is deep carries the node its index
      leads to, with that node's own path. */
  lemma ShortPathCarriesNode(h: Hasher, t: Tree, x: bytes, i: nat, proof: seq<bytes>)
    requires h.Sized() && Built(h, t) && |proof| <= Depth(|t.leaves|) && Accepts(h, x, i, proof, t.root)
    requires !Collides(h, t.leaves, x, i, proof)
    ensures
      var d := Depth(|t.leaves|) - |proof|;
      x == NodeAt(h, t.leaves, d, i) && proof == PathAt(h, t.leaves, d, i)
  {
    AcceptedIffGenuine(h, t, x, i, proof);
    assert proof[..0] == [] && proof[0..] == proof;
  }

  /** At full length and a leaf index that is the very leaf. */
  lemma AcceptedLeafIsGenuine(h: Hasher, t: Tree, x: bytes, i: nat, proof: seq<bytes>)
    requires h.Sized() && Built(h, t) && i < |t.leaves|
    requires |proof| == Depth(|t.leaves|) && Accepts(h, x, i, proof, t.root)
    ensures |AuditPath(h, t.leaves, i)| == |proof|
    ensures (x == t.leaves[i] && proof == AuditPath(h, t.leaves, i))
      || PathsCollide(h, x, proof, t.leaves[i], AuditPath(h, t.leaves, i), i)
  {
    PlaceOfNode(|t.leaves|, 0, i);
    PlaceClimbs(h, t.leaves, 0, i);
    assert proof[..0] == [] && proof[0..] == proof;
    if !Collides(h, t.leaves, x, i, proof) {
      ShortPathCarriesNode(h, t, x, i, proof);
    }
  }

  /** So a path no longer than the tree is deep proves the leaf exactly if it has full
      length, or the node it meets happens to equal the leaf. */
  lemma CarriesLeafIff(h: Hasher, t: Tree, x: bytes, i: nat, proof: seq<bytes>)
    requires h.Sized() && Built(h, t) && |proof| <= Depth(|t.leaves|) && Accepts(h, x, i, proof, t.root)
    requires !Collides(h, t.leaves, x, i, proof) && i < |t.leaves|
    ensures
      x == t.leaves[i] <==>
        || |proof| == Depth(|t.leaves|)
        || NodeAt(h, t.leaves, Depth(|t.leaves|) - |proof|, i) == t.leaves[i]
  {
    ShortPathCarriesNode(h, t, x, i, proof);
    PlaceOfNode(|t.leaves|, 0, i);
  }

  /** An accepted path that is longer than the tree is deep goes on below a leaf: that leaf
      is itself the hash of two hashes. */
  lemma LongPathHashesPair(h: Hasher, t: Tree, x: bytes, i: nat, proof: seq<bytes>)
    requires h.Sized() && Built(h, t) && |proof| > Depth(|t.leaves|) && Accepts(h, x, i, proof, t.root)
    requires !Collides(h, t.leaves, x, i, proof)
    ensures
      var m := |proof| - Depth(|t.leaves|);
      var leaf, pair := Place(|t.leaves|, 0, Halved(i, m)), PairAt(h, x, i, proof, m - 1);
      && |pair.0| == |pair.1| == 32 && t.leaves[leaf] == h.Pair(pair.0, pair.1)
      && proof[m..] == AuditPath(h, t.leaves, leaf)
  {
    var m := |proof| - Depth(|t.leaves|);
    AcceptedIffGenuine(h, t, x, i, proof);
    LastPair(h, x, i, proof, m);
  }

  lemma {:induction false} LastPair(h: Hasher, x: bytes, i: nat, proof: seq<bytes>, m: nat)
    requires h.Sized() && |x| == 32 && Hashes(proof) && 0 < m <= |proof|
    ensures
      var pair := PairAt(h, x, i, proof, m - 1);
      |pair.0| == |pair.1| == 32 && Fold(h, x, i, proof[..m]) == h.Pair(pair.0, pair.1)
    decreases m
  {
    var parent := if i % 2 == 0 then h.Pair(x, proof[0]) else h.Pair(proof[0], x);
    assert proof[..m][1..] == proof[1..][..m - 1] && proof[..m][0] == proof[0];
    if m > 1 {
      LastPair(h, parent, i / 2, proof[1..], m - 1);
    }
  }

  /** What the verifier is documented to accept for this index, among paths no longer than
      the tree is deep: only the leaf itself, collisions aside. */
  ghost predicate OnlyTheLeaf(h: Hasher, t: Tree, i: nat)
    requires t.leaves != [] && i < |t.leaves|
  {
    forall x, proof :: |proof| <= Depth(|t.leaves|) && Accepts(h, x, i, proof, t.root) ==>
      x == t.leaves[i] || Collides(h, t.leaves, x, i, proof)
  }

  /** The tree's own path does not collide with itself. */
  lemma OwnPathDoesNotCollide(h: Hasher, leaves: seq<bytes>, d: nat, i: nat)
    requires h.Sized() && WellFormed(leaves) && d <= Depth(|leaves|)
    ensures !Collides(h, leaves, NodeAt(h, leaves, d, i), i, PathAt(h, leaves, d, i))
  {
    PlaceClimbs(h, leaves, d, i);
    var p := PathAt(h, leaves, d, i);
    assert p[..0] == [] && p[0..] == p;
  }

  /** The documented promise holds at an index exactly if all nodes that the index leads to,
      from the root down, equal the leaf; for a single leaf it does. */
  lemma OnlyTheLeafIff(h: Hasher, t: Tree, i: nat)
    requires h.Sized() && Built(h, t) && i < |t.leaves|
    ensures OnlyTheLeaf(h, t, i) <==>
      forall d :: 0 <= d <= Depth(|t.leaves|) ==> NodeAt(h, t.leaves, d, i) == t.leaves[i]
  {
    if OnlyTheLeaf(h, t, i) {
      forall d | 0 <= d <= Depth(|t.leaves|)
        ensures NodeAt(h, t.leaves, d, i) == t.leaves[i]
      {
        PlaceClimbs(h, t.leaves, d, i);
        EveryNodeAccepted(h, t, d, i);
        OwnPathDoesNotCollide(h, t.leaves, d, i);
      }
    } else {
      var x, proof :| |proof| <= Depth(|t.leaves|) && Accepts(h, x, i, proof, t.root) &&
        x != t.leaves[i] && !Collides(h, t.leaves, x, i, proof);
      ShortPathCarriesNode(h, t, x, i, proof);
    }
  }
}
