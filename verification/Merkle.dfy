/** The Merkle tree of a file's chunk hashes, its audit paths, and the verifier that
    checks a path. A level of odd length has its last node paired with itself. */
module Merkle {
  import opened Arithmetic
  import opened Bytes
  import opened Options

  /** SHA-256 as a function from byte strings to 32-byte strings. */
  datatype Hasher = Hasher(sha: bytes -> bytes) {
    ghost predicate Sized() {
      forall x: bytes :: |sha(x)| == 32
    }

    function Pair(left: bytes, right: bytes): bytes {
      sha(left + right)
    }
  }

  datatype Error = NoLeaves | BadLeaf | OutOfBounds

  datatype Tree = Tree(leaves: seq<bytes>, levels: seq<seq<bytes>>, root: bytes)

  // ------------------------------------------------- reference definition

  /** How many nodes level `d` has above `n` leaves. */
  function Count(n: nat, d: nat): nat {
    if d == 0 then n else (Count(n, d - 1) + 1) / 2
  }

  /** The node at position `i` of level `d`, from the leaves alone. */
  function Node(h: Hasher, leaves: seq<bytes>, d: nat, i: nat): bytes
    requires i < Count(|leaves|, d)
  {
    if d == 0 then leaves[i]
    else
      var right := if 2 * i + 1 < Count(|leaves|, d - 1) then 2 * i + 1 else 2 * i;
      h.Pair(Node(h, leaves, d - 1, 2 * i), Node(h, leaves, d - 1, right))
  }

  function Pow2(d: nat): (p: nat)
    ensures p > 0
  {
    if d == 0 then 1 else 2 * Pow2(d - 1)
  }

  /** Levels above the leaves until a single node is left. */
  function DepthFrom(c: nat): nat {
    if c <= 1 then 0 else 1 + DepthFrom((c + 1) / 2)
  }

  function Depth(n: nat): nat { DepthFrom(n) }

  /** Level sizes are the leaf count divided by a power of two, rounded up. */
  lemma {:induction false} CountIsCeiling(n: nat, d: nat)
    requires n > 0
    ensures 1 <= Count(n, d)
    ensures (Count(n, d) - 1) * Pow2(d) < n <= Count(n, d) * Pow2(d)
  {
    if d > 0 {
      CountIsCeiling(n, d - 1);
      HalveCeiling(n, Count(n, d - 1), Pow2(d - 1));
    }
  }

  lemma HalveCeiling(n: nat, a: nat, p: nat)
    requires a >= 1 && (a - 1) * p < n <= a * p
    ensures ((a + 1) / 2 - 1) * (2 * p) < n <= ((a + 1) / 2) * (2 * p)
  {
    var b := (a + 1) / 2;
    MulMono(a, 2 * b, p);
    MulMono(2 * (b - 1), a - 1, p);
    assert b * (2 * p) == (2 * b) * p;
    assert (b - 1) * (2 * p) == (2 * (b - 1)) * p;
  }

  lemma {:induction false} DepthCount(n: nat, d: nat)
    requires n > 0 && d <= Depth(n)
    ensures DepthFrom(Count(n, d)) == Depth(n) - d
  {
    if d > 0 {
      DepthCount(n, d - 1);
      assert Count(n, d - 1) > 1;
    }
  }

  /** The tree depth is the least `d` with `2^d` at least the number of leaves. */
  lemma DepthIsLeast(n: nat)
    requires n > 0
    ensures Count(n, Depth(n)) == 1 && n <= Pow2(Depth(n))
    ensures forall d: nat :: d < Depth(n) ==> Pow2(d) < n
  {
    DepthCount(n, Depth(n));
    CountIsCeiling(n, Depth(n));
    forall d: nat | d < Depth(n)
      ensures Pow2(d) < n
    {
      DepthCount(n, d);
      CountIsCeiling(n, d);
      MulMono(1, Count(n, d) - 1, Pow2(d));
    }
  }

  // ------------------------------------------------------------- building

  function Level(h: Hasher, leaves: seq<bytes>, d: nat): (l: seq<bytes>)
    ensures |l| == Count(|leaves|, d)
    ensures forall i :: 0 <= i < |l| ==> l[i] == Node(h, leaves, d, i)
  {
    seq(Count(|leaves|, d), i requires 0 <= i < Count(|leaves|, d) => Node(h, leaves, d, i))
  }

  predicate WellFormed(leafHashes: seq<bytes>) {
    leafHashes != [] && forall i :: 0 <= i < |leafHashes| ==> |leafHashes[i]| == 32
  }

  ghost predicate Built(h: Hasher, t: Tree) {
    && WellFormed(t.leaves)
    && |t.levels| == Depth(|t.leaves|) + 1
    && (forall d :: 0 <= d < |t.levels| ==> t.levels[d] == Level(h, t.leaves, d))
    && Count(|t.leaves|, Depth(|t.leaves|)) == 1
    && t.root == Node(h, t.leaves, Depth(|t.leaves|), 0)
  }

  /** A level of odd length gets its last node a second time. */
  function Padded(level: seq<bytes>): (p: seq<bytes>)
    ensures |p| % 2 == 0 && level <= p
  {
    if |level| % 2 != 0 then level + [level[|level| - 1]] else level
  }

  method NewMerkleTree(h: Hasher, leafHashes: seq<bytes>) returns (r: Result<Tree, Error>)
    ensures r.Ok? <==> WellFormed(leafHashes)
    ensures r.Ok? ==> r.value.leaves == leafHashes && Built(h, r.value)
    ensures r.Err? ==> r.error == (if leafHashes == [] then NoLeaves else BadLeaf)
  {
    if |leafHashes| == 0 {
      return Err(NoLeaves);
    }
    for i := 0 to |leafHashes|
      invariant forall j :: 0 <= j < i ==> |leafHashes[j]| == 32
    {
      if |leafHashes[i]| != 32 {
        return Err(BadLeaf);
      }
    }
    DepthIsLeast(|leafHashes|);
    if |leafHashes| == 1 {
      assert Level(h, leafHashes, 0) == leafHashes;
      return Ok(Tree(leafHashes, [leafHashes], leafHashes[0]));
    }
    var levels := BuildLevels(h, leafHashes);
    r := Ok(Tree(leafHashes, levels, levels[|levels| - 1][0]));
  }

  /** Pair up level after level until one node is left. */
  method BuildLevels(h: Hasher, leaves: seq<bytes>) returns (levels: seq<seq<bytes>>)
    requires leaves != []
    ensures |levels| == Depth(|leaves|) + 1
    ensures forall d :: 0 <= d < |levels| ==> levels[d] == Level(h, leaves, d)
  {
    assert Level(h, leaves, 0) == leaves;
    var current := leaves;
    levels := [current];
    ghost var d := 0;
    while |current| > 1
      invariant d <= Depth(|leaves|) && |levels| == d + 1
      invariant current == Level(h, leaves, d)
      invariant |current| >= 1 && DepthFrom(|current|) == Depth(|leaves|) - d
      invariant forall e :: 0 <= e < |levels| ==> levels[e] == Level(h, leaves, e)
      decreases |current|
    {
      var padded := current;
      if |padded| % 2 != 0 {
        padded := padded + [padded[|padded| - 1]];
      }
      var next := PairUp(h, padded);
      NextLevel(h, leaves, d, current, padded, next);
      levels := levels + [next];
      current := next;
      d := d + 1;
    }
  }

  method PairUp(h: Hasher, padded: seq<bytes>) returns (next: seq<bytes>)
    requires |padded| % 2 == 0
    ensures |next| == |padded| / 2
    ensures forall j :: 0 <= j < |next| ==> next[j] == h.Pair(padded[2 * j], padded[2 * j + 1])
  {
    next := [];
    var i := 0;
    while i < |padded|
      invariant 0 <= i <= |padded| && i % 2 == 0 && |next| == i / 2
      invariant forall j :: 0 <= j < |next| ==> next[j] == h.Pair(padded[2 * j], padded[2 * j + 1])
    {
      next := next + [h.Pair(padded[i], padded[i + 1])];
      i := i + 2;
    }
  }

  /** Pairing up a padded level gives the next level. */
  lemma {:induction false} NextLevel(
    h: Hasher, leaves: seq<bytes>, d: nat, current: seq<bytes>, padded: seq<bytes>, next: seq<bytes>)
    requires current == Level(h, leaves, d) && current != []
    requires padded == Padded(current)
    requires |next| == |padded| / 2
    requires forall j :: 0 <= j < |next| ==> next[j] == h.Pair(padded[2 * j], padded[2 * j + 1])
    ensures next == Level(h, leaves, d + 1)
  {
    assert |next| == Count(|leaves|, d + 1);
    forall j | 0 <= j < |next|
      ensures next[j] == Node(h, leaves, d + 1, j)
    {
      assert padded[2 * j] == Node(h, leaves, d, 2 * j);
    }
  }

  // -------------------------------------------------------- audit paths

  /** The node hashed together with position `i` of level `d`. */
  function Sibling(h: Hasher, leaves: seq<bytes>, d: nat, i: nat): bytes
    requires i < Count(|leaves|, d)
  {
    if i % 2 == 1 then Node(h, leaves, d, i - 1)
    else if i + 1 < Count(|leaves|, d) then Node(h, leaves, d, i + 1)
    else Node(h, leaves, d, i)
  }

  /** Siblings of position `i` of level `d` and of its ancestors, below the root. */
  function PathFrom(h: Hasher, leaves: seq<bytes>, d: nat, i: nat): seq<bytes>
    requires i < Count(|leaves|, d) && d <= Depth(|leaves|)
    decreases Depth(|leaves|) - d
  {
    if d == Depth(|leaves|) then []
    else [Sibling(h, leaves, d, i)] + PathFrom(h, leaves, d + 1, i / 2)
  }

  function AuditPath(h: Hasher, leaves: seq<bytes>, i: nat): seq<bytes>
    requires i < |leaves|
  {
    PathFrom(h, leaves, 0, i)
  }

  lemma {:induction false} SiblingInLevel(h: Hasher, leaves: seq<bytes>, d: nat, i: nat, nodes: seq<bytes>)
    requires i < Count(|leaves|, d)
    requires nodes == Padded(Level(h, leaves, d))
    ensures i % 2 == 0 ==> i + 1 < |nodes| && nodes[i + 1] == Sibling(h, leaves, d, i)
    ensures i % 2 != 0 ==> i - 1 < |nodes| && nodes[i - 1] == Sibling(h, leaves, d, i)
  {
    PaddedAt(Level(h, leaves, d), i);
  }

  lemma PaddedAt(l: seq<bytes>, i: nat)
    requires i < |l|
    ensures i % 2 == 0 ==> i + 1 < |Padded(l)| && Padded(l)[i + 1] == if i + 1 < |l| then l[i + 1] else l[i]
    ensures i % 2 != 0 ==> Padded(l)[i - 1] == l[i - 1]
  {}

  /** The neighbour in the padded level. */
  method SiblingOf(h: Hasher, ghost leaves: seq<bytes>, ghost d: nat, idx: nat, level: seq<bytes>)
    returns (sibling: bytes)
    requires idx < Count(|leaves|, d) && level == Level(h, leaves, d)
    ensures sibling == Sibling(h, leaves, d, idx)
  {
    var nodes := level;
    if |nodes| % 2 != 0 {
      nodes := nodes + [nodes[|nodes| - 1]];
    }
    SiblingInLevel(h, leaves, d, idx, nodes);
    sibling := if idx % 2 == 0 then nodes[idx + 1] else nodes[idx - 1];
  }

  lemma PathStep(h: Hasher, leaves: seq<bytes>, d: nat, i: nat)
    requires i < Count(|leaves|, d) && d < Depth(|leaves|)
    ensures i / 2 < Count(|leaves|, d + 1)
    ensures PathFrom(h, leaves, d, i) == [Sibling(h, leaves, d, i)] + PathFrom(h, leaves, d + 1, i / 2)
  {}

  method GenerateProof(h: Hasher, t: Tree, leafIndex: int) returns (r: Result<seq<bytes>, Error>)
    requires Built(h, t)
    ensures r.Ok? <==> 0 <= leafIndex < |t.leaves|
    ensures r.Ok? ==> r.value == AuditPath(h, t.leaves, leafIndex)
  {
    if leafIndex < 0 || leafIndex >= |t.leaves| {
      return Err(OutOfBounds);
    }
    if |t.leaves| == 1 {
      return Ok([]);
    }
    var proof, idx := [], leafIndex;
    for level := 0 to |t.levels| - 1
      invariant 0 <= idx < Count(|t.leaves|, level)
      invariant proof + PathFrom(h, t.leaves, level, idx) == AuditPath(h, t.leaves, leafIndex)
    {
      var sibling := SiblingOf(h, t.leaves, level, idx, t.levels[level]);
      PathStep(h, t.leaves, level, idx);
      proof := proof + [sibling];
      idx := idx / 2;
    }
    return Ok(proof);
  }

  // ---------------------------------------------------------- verification

  /** Hash upward from `current` at position `idx` along `proof`. */
  function Fold(h: Hasher, current: bytes, idx: nat, proof: seq<bytes>): bytes
    decreases |proof|
  {
    if proof == [] then current
    else
      var parent := if idx % 2 == 0 then h.Pair(current, proof[0]) else h.Pair(proof[0], current);
      Fold(h, parent, idx / 2, proof[1..])
  }

  predicate Accepts(h: Hasher, leaf: bytes, idx: int, proof: seq<bytes>, root: bytes) {
    && |leaf| == 32 && |root| == 32 && idx >= 0
    && (forall i :: 0 <= i < |proof| ==> |proof[i]| == 32)
    && Fold(h, leaf, idx, proof) == root
  }

  method VerifyMerkleProof(h: Hasher, leafHash: bytes, leafIndex: int, proof: seq<bytes>, expectedRoot: bytes)
    returns (ok: bool)
    ensures ok <==> Accepts(h, leafHash, leafIndex, proof, expectedRoot)
  {
    if |leafHash| != 32 || |expectedRoot| != 32 || leafIndex < 0 {
      return false;
    }
    var current, idx := leafHash, leafIndex;
    for i := 0 to |proof|
      invariant idx >= 0
      invariant forall j :: 0 <= j < i ==> |proof[j]| == 32
      invariant Fold(h, current, idx, proof[i..]) == Fold(h, leafHash, leafIndex, proof)
    {
      if |proof[i]| != 32 {
        return false;
      }
      assert proof[i..][1..] == proof[i + 1..];
      if idx % 2 == 0 {
        current := h.Pair(current, proof[i]);
      } else {
        current := h.Pair(proof[i], current);
      }
      idx := idx / 2;
    }
    return current == expectedRoot;
  }

  // ---------------------------------------------------------- completeness

  lemma {:induction false} NodeSize(h: Hasher, leaves: seq<bytes>, d: nat, i: nat)
    requires h.Sized() && WellFormed(leaves) && i < Count(|leaves|, d)
    ensures |Node(h, leaves, d, i)| == 32
  {}

  lemma {:induction false} SiblingSize(h: Hasher, leaves: seq<bytes>, d: nat, i: nat)
    requires h.Sized() && WellFormed(leaves) && i < Count(|leaves|, d)
    ensures |Sibling(h, leaves, d, i)| == 32
  {
    NodeSize(h, leaves, d, i);
    if i % 2 == 1 {
      NodeSize(h, leaves, d, i - 1);
    } else if i + 1 < Count(|leaves|, d) {
      NodeSize(h, leaves, d, i + 1);
    }
  }

  /** A node and its sibling, in the order of their positions, hash to the parent. */
  lemma {:induction false} ParentOf(h: Hasher, leaves: seq<bytes>, d: nat, i: nat)
    requires i < Count(|leaves|, d)
    ensures i / 2 < Count(|leaves|, d + 1)
    ensures
      var x, y := Node(h, leaves, d, i), Sibling(h, leaves, d, i);
      Node(h, leaves, d + 1, i / 2) == if i % 2 == 0 then h.Pair(x, y) else h.Pair(y, x)
  {}

  lemma {:induction false} PathClimbs(h: Hasher, leaves: seq<bytes>, d: nat, i: nat)
    requires h.Sized() && WellFormed(leaves) && i < Count(|leaves|, d) && d <= Depth(|leaves|)
    requires Count(|leaves|, Depth(|leaves|)) == 1
    ensures Fold(h, Node(h, leaves, d, i), i, PathFrom(h, leaves, d, i)) == Node(h, leaves, Depth(|leaves|), 0)
    ensures |PathFrom(h, leaves, d, i)| == Depth(|leaves|) - d
    ensures forall j :: 0 <= j < |PathFrom(h, leaves, d, i)| ==> |PathFrom(h, leaves, d, i)[j]| == 32
    decreases Depth(|leaves|) - d
  {
    if d < Depth(|leaves|) {
      ParentOf(h, leaves, d, i);
      SiblingSize(h, leaves, d, i);
      PathClimbs(h, leaves, d + 1, i / 2);
      assert PathFrom(h, leaves, d, i)[1..] == PathFrom(h, leaves, d + 1, i / 2);
    }
  }

  /** Every generated path verifies against the root, and is as long as the tree is
      deep. */
  lemma GeneratedProofVerifies(h: Hasher, t: Tree, i: nat)
    requires h.Sized() && Built(h, t) && i < |t.leaves|
    ensures Accepts(h, t.leaves[i], i, AuditPath(h, t.leaves, i), t.root)
    ensures |AuditPath(h, t.leaves, i)| == Depth(|t.leaves|)
  {
    PathClimbs(h, t.leaves, 0, i);
    NodeSize(h, t.leaves, Depth(|t.leaves|), 0);
  }

  // --------------------------------------------------------------- binding

  /** Two distinct pairs of nodes with one hash. */
  predicate Collision(h: Hasher, a: (bytes, bytes), b: (bytes, bytes)) {
    && |a.0| == |a.1| == |b.0| == |b.1| == 32
    && a != b
    && h.Pair(a.0, a.1) == h.Pair(b.0, b.1)
  }

  /** The pair that is hashed at step `k` of the way up. */
  function PairAt(h: Hasher, current: bytes, idx: nat, proof: seq<bytes>, k: nat): (bytes, bytes)
    requires k < |proof|
    decreases |proof|
  {
    var pair := if idx % 2 == 0 then (current, proof[0]) else (proof[0], current);
    if k == 0 then pair else PairAt(h, h.Pair(pair.0, pair.1), idx / 2, proof[1..], k - 1)
  }

  /** Two ways up from one index hash different pairs to one value at some step. */
  ghost predicate PathsCollide(h: Hasher, x: bytes, p: seq<bytes>, y: bytes, q: seq<bytes>, idx: nat)
    requires |p| == |q|
  {
    exists k :: 0 <= k < |p| && Collision(h, PairAt(h, x, idx, p, k), PairAt(h, y, idx, q, k))
  }

  /** Two paths of one length from one index to one root are the same path from the same
      leaf, or the pairs hashed at step `k` collide. */
  lemma {:induction false} Binding(h: Hasher, x: bytes, p: seq<bytes>, y: bytes, q: seq<bytes>, idx: nat)
    returns (k: nat)
    requires h.Sized() && |x| == |y| == 32 && |p| == |q|
    requires forall i :: 0 <= i < |p| ==> |p[i]| == 32 && |q[i]| == 32
    requires Fold(h, x, idx, p) == Fold(h, y, idx, q)
    ensures (x == y && p == q) || (k < |p| && Collision(h, PairAt(h, x, idx, p, k), PairAt(h, y, idx, q, k)))
    decreases |p|
  {
    k := 0;
    if p != [] {
      var l := if idx % 2 == 0 then (x, p[0]) else (p[0], x);
      var r := if idx % 2 == 0 then (y, q[0]) else (q[0], y);
      if !Collision(h, l, r) {
        var j := Binding(h, h.Pair(l.0, l.1), p[1..], h.Pair(r.0, r.1), q[1..], idx / 2);
        k := j + 1;
        assert p == [p[0]] + p[1..] && q == [q[0]] + q[1..];
      }
    }
  }

  /** Acceptance depends on the index only modulo two to the path length. */
  lemma {:induction false} IndexModulo(h: Hasher, current: bytes, idx: nat, proof: seq<bytes>)
    ensures Fold(h, current, idx, proof) == Fold(h, current, idx % Pow2(|proof|), proof)
    decreases |proof|
  {
    if proof != [] {
      var m := Pow2(|proof| - 1);
      HalfModulo(idx, m);
      var parent := if idx % 2 == 0 then h.Pair(current, proof[0]) else h.Pair(proof[0], current);
      IndexModulo(h, parent, idx / 2, proof[1..]);
    }
  }

  lemma HalfModulo(n: nat, m: nat)
    requires m > 0
    ensures (n % (2 * m)) % 2 == n % 2 && (n % (2 * m)) / 2 == (n / 2) % m
  {
    var q, r := n / (2 * m), n % (2 * m);
    assert n == q * (2 * m) + r == 2 * (q * m) + r;
    assert n / 2 == q * m + r / 2;
    assert 0 <= r / 2 < m;
    DivModUnique(n / 2, m, q, r / 2);
  }
}
