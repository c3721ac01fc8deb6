/** Circular placement of chunks on providers, and the exact load it puts on each. */
module Planner {
  import opened Arithmetic
  import opened Bytes
  import opened Options
  import opened Shared
  import Counting

  datatype Error = NoProviders | BadReplication | TooFewProviders | NoChunks

  datatype Plan = Plan(assignments: map<ChunkId, seq<Peer>>, providerChunks: map<Peer, seq<ChunkId>>, replication: nat)

  // ---------------------------------------------------------- specification

  /** The `r` providers from position `i` on, around the ring. */
  ghost function Ring<P>(providers: seq<P>, i: nat, r: nat): (ps: seq<P>)
    requires providers != []
    ensures |ps| == r
  {
    seq(r, k requires 0 <= k < r => providers[(i + k) % |providers|])
  }

  ghost function Times<C, P>(c: C, ps: seq<P>, p: P): seq<C> {
    if ps == [] then [] else Times(c, ps[..|ps| - 1], p) + (if ps[|ps| - 1] == p then [c] else [])
  }

  /** What the first `m` chunks put on provider `p`, in order. */
  ghost function Placed<C, P>(ids: seq<C>, providers: seq<P>, r: nat, p: P, m: nat): seq<C>
    requires providers != [] && m <= |ids|
  {
    if m == 0 then []
    else Placed(ids, providers, r, p, m - 1) + Times(ids[m - 1], Ring(providers, m - 1, r), p)
  }

  lemma RingSnoc<P>(providers: seq<P>, i: nat, r: nat)
    requires providers != []
    ensures Ring(providers, i, r + 1) == Ring(providers, i, r) + [providers[(i + r) % |providers|]]
  {}

  lemma TimesSnoc<C, P>(c: C, ps: seq<P>, last: P, p: P)
    ensures Times(c, ps + [last], p) == Times(c, ps, p) + (if last == p then [c] else [])
  {
    assert (ps + [last])[..|ps|] == ps;
  }

  /** Among the first `n`, chunk `k` is not listed again. */
  predicate LastListing<K(==)>(ids: seq<K>, k: nat, n: nat)
    requires k < |ids| && n <= |ids|
  {
    forall j :: k < j < n ==> ids[j] != ids[k]
  }

  /** A chunk listed more than once keeps the placement of its last listing. */
  ghost predicate IsPlan(ids: seq<ChunkId>, providers: seq<Peer>, r: nat, plan: Plan)
    requires providers != []
  {
    && plan.replication == r
    && (forall c :: c in plan.assignments <==> c in ids)
    && (forall i :: 0 <= i < |ids| && LastListing(ids, i, |ids|) ==> plan.assignments[ids[i]] == Ring(providers, i, r))
    && (forall p :: p in plan.providerChunks <==> p in providers)
    && (forall p :: p in providers ==> plan.providerChunks[p] == Placed(ids, providers, r, p, |ids|))
  }

  /** With these rows placed, each chunk has the row of its last listing so far. */
  ghost predicate Assigned<K(!new), V>(ids: seq<K>, rows: seq<V>, assignments: map<K, V>)
    requires |rows| <= |ids|
  {
    && (forall c :: c in assignments <==> c in ids[..|rows|])
    && (forall k :: 0 <= k < |rows| && LastListing(ids, k, |rows|) ==>
          ids[k] in assignments && assignments[ids[k]] == rows[k])
  }

  ghost predicate Rows<P>(providers: seq<P>, r: nat, rows: seq<seq<P>>)
    requires providers != []
  {
    forall k :: 0 <= k < |rows| ==> rows[k] == Ring(providers, k, r)
  }

  /** The provider lists after the first `i` chunks. */
  ghost predicate Filled<C, P(!new)>(ids: seq<C>, providers: seq<P>, r: nat, i: nat, chunks: map<P, seq<C>>)
    requires providers != [] && i <= |ids|
  {
    && (forall p :: p in chunks <==> p in providers)
    && (forall p :: p in providers ==> chunks[p] == Placed(ids, providers, r, p, i))
  }

  lemma RowStep<C(!new), P>(ids: seq<C>, providers: seq<P>, r: nat, rows: seq<seq<P>>, before: map<C, seq<P>>)
    requires providers != [] && |rows| < |ids| && Rows(providers, r, rows) && Assigned(ids, rows, before)
    ensures
      var row := Ring(providers, |rows|, r);
      Rows(providers, r, rows + [row]) && Assigned(ids, rows + [row], before[ids[|rows|] := row])
  {
    AssignStep(ids, rows, before, Ring(providers, |rows|, r));
  }

  lemma AssignStep<K(!new), V>(ids: seq<K>, rows: seq<V>, before: map<K, V>, row: V)
    requires |rows| < |ids| && Assigned(ids, rows, before)
    ensures Assigned(ids, rows + [row], before[ids[|rows|] := row])
  {
    var i, rows', after := |rows|, rows + [row], before[ids[|rows|] := row];
    assert ids[..i + 1] == ids[..i] + [ids[i]];
    forall k | 0 <= k < |rows'| && LastListing(ids, k, |rows'|)
      ensures ids[k] in after && after[ids[k]] == rows'[k]
    {
      if k < i {
        EarlierListing(ids, k, i);
        assert ids[k] in before && before[ids[k]] == rows[k];
      }
    }
  }

  lemma EarlierListing<K>(ids: seq<K>, k: nat, i: nat)
    requires k < i < |ids| && LastListing(ids, k, i + 1)
    ensures LastListing(ids, k, i) && ids[i] != ids[k]
  {}

  method EmptyLists(providers: seq<Peer>) returns (chunks: map<Peer, seq<ChunkId>>)
    ensures forall p :: p in chunks <==> p in providers
    ensures forall p :: p in chunks ==> chunks[p] == []
  {
    chunks := map[];
    for k := 0 to |providers|
      invariant forall p :: p in chunks <==> p in providers[..k]
      invariant forall p :: p in chunks ==> chunks[p] == []
    {
      chunks := chunks[providers[k] := []];
    }
    assert providers[..|providers|] == providers;
  }

  method PlanPlacement(ids: seq<ChunkId>, providers: seq<Peer>, replication: int) returns (res: Result<Plan, Error>)
    ensures res.Ok? <==> providers != [] && 0 < replication <= |providers| && ids != []
    ensures res.Ok? ==> IsPlan(ids, providers, replication, res.value)
  {
    if |providers| == 0 { return Err(NoProviders); }
    if replication <= 0 { return Err(BadReplication); }
    if replication > |providers| { return Err(TooFewProviders); }
    if |ids| == 0 { return Err(NoChunks); }
    var assignments: map<ChunkId, seq<Peer>> := map[];
    var chunks := EmptyLists(providers);
    ghost var rows: seq<seq<Peer>> := [];
    for i := 0 to |ids|
      invariant |rows| == i && Rows(providers, replication, rows) && Assigned(ids, rows, assignments)
      invariant Filled(ids, providers, replication, i, chunks)
    {
      var row: seq<Peer>;
      row, chunks := PlaceChunk(ids, providers, replication, i, chunks);
      RowStep(ids, providers, replication, rows, assignments);
      assignments := assignments[ids[i] := row];
      rows := rows + [row];
    }
    PlanBuilt(ids, providers, replication, rows, Plan(assignments, chunks, replication));
    res := Ok(Plan(assignments, chunks, replication));
  }

  lemma PlanBuilt(ids: seq<ChunkId>, providers: seq<Peer>, r: nat, rows: seq<seq<Peer>>, plan: Plan)
    requires providers != [] && |rows| == |ids| && Assigned(ids, rows, plan.assignments) && plan.replication == r
    requires Rows(providers, r, rows) && Filled(ids, providers, r, |ids|, plan.providerChunks)
    ensures IsPlan(ids, providers, r, plan)
  {
    assert ids[..|ids|] == ids;
  }

  /** The inner loop: `replication` consecutive providers get chunk `i`. */
  method PlaceChunk(ids: seq<ChunkId>, providers: seq<Peer>, replication: nat, i: nat, before: map<Peer, seq<ChunkId>>)
    returns (row: seq<Peer>, chunks: map<Peer, seq<ChunkId>>)
    requires providers != [] && i < |ids|
    requires Filled(ids, providers, replication, i, before)
    ensures row == Ring(providers, i, replication)
    ensures Filled(ids, providers, replication, i + 1, chunks)
  {
    row, chunks := [], before;
    for r := 0 to replication
      invariant row == Ring(providers, i, r)
      invariant forall p :: p in chunks <==> p in providers
      invariant forall p :: p in providers ==> chunks[p] == before[p] + Times(ids[i], row, p)
    {
      var next := providers[(i + r) % |providers|];
      forall p | p in providers
        ensures Times(ids[i], row + [next], p) == Times(ids[i], row, p) + (if next == p then [ids[i]] else [])
      {
        TimesSnoc(ids[i], row, next, p);
      }
      RingSnoc(providers, i, r);
      row := row + [next];
      chunks := chunks[next := chunks[next] + [ids[i]]];
    }
  }

  // ------------------------------------------------------- load arithmetic

  function Hit(n: nat, i: nat, r: nat, j: nat): nat
    requires n > 0
  {
    if (i + r) % n == j then 1 else 0
  }

  /** How often chunk `i` lands on position `j`. */
  function Row(n: nat, i: nat, r: nat, j: nat): nat
    requires n > 0
  {
    if r == 0 then 0 else Row(n, i, r - 1, j) + Hit(n, i, r - 1, j)
  }

  /** How often replica number `r` of the first `m` chunks lands on position `j`. */
  function Col(n: nat, m: nat, r: nat, j: nat): nat
    requires n > 0
  {
    if m == 0 then 0 else Col(n, m - 1, r, j) + Hit(n, m - 1, r, j)
  }

  /** The load of position `j`, chunk by chunk. */
  function Load(n: nat, m: nat, r: nat, j: nat): nat
    requires n > 0
  {
    if m == 0 then 0 else Load(n, m - 1, r, j) + Row(n, m - 1, r, j)
  }

  function ByReplica(n: nat, m: nat, r: nat, j: nat): nat
    requires n > 0
  {
    if r == 0 then 0 else ByReplica(n, m, r - 1, j) + Col(n, m, r - 1, j)
  }

  lemma {:induction false} ReplicaSnoc(n: nat, m: nat, r: nat, j: nat)
    requires n > 0
    ensures ByReplica(n, m + 1, r, j) == ByReplica(n, m, r, j) + Row(n, m, r, j)
  {
    if r > 0 {
      ReplicaSnoc(n, m, r - 1, j);
    }
  }

  lemma {:induction false} ReplicaNone(n: nat, r: nat, j: nat)
    requires n > 0
    ensures ByReplica(n, 0, r, j) == 0
  {
    if r > 0 {
      ReplicaNone(n, r - 1, j);
    }
  }

  lemma {:induction false} LoadByReplica(n: nat, m: nat, r: nat, j: nat)
    requires n > 0
    ensures Load(n, m, r, j) == ByReplica(n, m, r, j)
  {
    if m == 0 {
      ReplicaNone(n, r, j);
    } else {
      LoadByReplica(n, m - 1, r, j);
      ReplicaSnoc(n, m - 1, r, j);
    }
  }

  lemma HitIffResidue(n: nat, i: nat, r: nat, j: nat)
    requires n > 0 && j < n
    ensures Hit(n, i, r, j) == 1 <==> i % n == (j - r) % n
  {
    var a, k := i % n, (j - r) % n;
    var q, q2 := i / n, (j - r) / n;
    assert i == q * n + a && j - r == q2 * n + k;
    assert i + r == (q - q2) * n + (j + a - k);
    var x := j + a - k;
    if x < 0 {
      assert i + r == (q - q2 - 1) * n + (x + n);
      DivModUnique(i + r, n, q - q2 - 1, x + n);
    } else if x < n {
      DivModUnique(i + r, n, q - q2, x);
    } else {
      assert i + r == (q - q2 + 1) * n + (x - n);
      DivModUnique(i + r, n, q - q2 + 1, x - n);
    }
  }

  lemma NextQuotient(m: nat, n: nat)
    requires n > 0
    ensures m % n + 1 < n ==> (m + 1) / n == m / n && (m + 1) % n == m % n + 1
    ensures m % n + 1 == n ==> (m + 1) / n == m / n + 1 && (m + 1) % n == 0
  {
    var q, t := m / n, m % n;
    assert m == q * n + t;
    if t + 1 < n {
      DivModUnique(m + 1, n, q, t + 1);
    } else {
      assert m + 1 == (q + 1) * n + 0;
      DivModUnique(m + 1, n, q + 1, 0);
    }
  }

  /** One replica number is spread evenly, the first `m mod n` residues getting one more. */
  lemma {:induction false} ColExact(n: nat, m: nat, r: nat, j: nat)
    requires n > 0 && j < n
    ensures Col(n, m, r, j) == m / n + (if (j - r) % n < m % n then 1 else 0)
  {
    if m == 0 {
      DivModUnique(0, n, 0, 0);
    } else {
      ColExact(n, m - 1, r, j);
      HitIffResidue(n, m - 1, r, j);
      NextQuotient(m - 1, n);
    }
  }

  /** The number of replica numbers below `r` whose residue for position `j` is below `t`. */
  function Extra(n: nat, t: nat, r: nat, j: nat): nat
    requires n > 0
  {
    if r == 0 then 0 else Extra(n, t, r - 1, j) + (if (j - (r - 1)) % n < t then 1 else 0)
  }

  lemma {:induction false} ReplicaExact(n: nat, m: nat, r: nat, j: nat)
    requires n > 0 && j < n
    ensures ByReplica(n, m, r, j) == (m / n) * r + Extra(n, m % n, r, j)
  {
    if r > 0 {
      ReplicaExact(n, m, r - 1, j);
      ColExact(n, m, r - 1, j);
      MulStep(m / n, r);
    }
  }

  /** Position `j` carries exactly q*R plus its share of the remainder. */
  lemma LoadExact(n: nat, m: nat, r: nat, j: nat)
    requires n > 0 && j < n
    ensures Load(n, m, r, j) == (m / n) * r + Extra(n, m % n, r, j)
  {
    LoadByReplica(n, m, r, j);
    ReplicaExact(n, m, r, j);
  }

  // ------------------------------------------------------- how even it is

  function Residue(n: nat, j: nat, k: nat): nat
    requires n > 0
  {
    (j - k) % n
  }

  /** The replica numbers below `r` whose residue for position `j` is in [lo, hi). */
  function Share(n: nat, lo: nat, hi: nat, r: nat, j: nat): set<nat>
    requires n > 0
  {
    set k: nat | k < r && lo <= Residue(n, j, k) < hi
  }

  lemma ResidueInjective(n: nat, j: nat, a: nat, b: nat)
    requires n > 0 && a < n && b < n && (j - a) % n == (j - b) % n
    ensures a == b
  {
    var qa, qb, k := (j - a) / n, (j - b) / n, (j - a) % n;
    assert j - a == qa * n + k && j - b == qb * n + k;
    assert b - a == (qa - qb) * n + 0;
    if qa > qb {
      MulMono(1, qa - qb, n);
    } else if qa < qb {
      MulMono(qa - qb, -1, n);
    }
  }

  lemma ShareSize(n: nat, lo: nat, hi: nat, r: nat, j: nat)
    requires n > 0 && r <= n && lo <= hi
    ensures |Share(n, lo, hi, r, j)| <= hi - lo
  {
    var f := (k: nat) => var v: nat := if Residue(n, j, k) >= lo then Residue(n, j, k) - lo else 0; v;
    var a := Share(n, lo, hi, r, j);
    forall x, y | x in a && y in a && f(x) == f(y)
      ensures x == y
    {
      ResidueInjective(n, j, x, y);
    }
    Counting.PigeonHole(a, f, hi - lo);
  }

  lemma {:induction false} ExtraIsShare(n: nat, t: nat, r: nat, j: nat)
    requires n > 0 && t <= n
    ensures Extra(n, t, r, j) == |Share(n, 0, t, r, j)|
    ensures r - Extra(n, t, r, j) == |Share(n, t, n, r, j)|
  {
    if r > 0 {
      ExtraIsShare(n, t, r - 1, j);
      var k: nat := r - 1;
      ShareSnoc(n, 0, t, k, j);
      ShareSnoc(n, t, n, k, j);
    }
  }

  lemma ShareSnoc(n: nat, lo: nat, hi: nat, k: nat, j: nat)
    requires n > 0
    ensures Share(n, lo, hi, k + 1, j) == Share(n, lo, hi, k, j) + (if lo <= Residue(n, j, k) < hi then {k} else {})
    ensures k !in Share(n, lo, hi, k, j)
  {}

  /** Any two positions differ by at most min(t, n-t, R, n-R), t being the remainder. */
  lemma LoadsBalanced(n: nat, m: nat, r: nat, j: nat, k: nat)
    requires n > 0 && r <= n && j < n && k < n
    ensures
      var t := m % n;
      Load(n, m, r, j) - Load(n, m, r, k) <= Min(Min(t, n - t), Min(r, n - r))
  {
    var t := m % n;
    LoadExact(n, m, r, j);
    LoadExact(n, m, r, k);
    ExtraIsShare(n, t, r, j);
    ExtraIsShare(n, t, r, k);
    ShareSize(n, 0, t, r, j);
    ShareSize(n, t, n, r, k);
  }

  // ------------------------------------------- what the plan itself promises

  lemma {:induction false} TimesCount<C, P>(c: C, providers: seq<P>, i: nat, r: nat, j: nat)
    requires providers != [] && Distinct(providers) && j < |providers|
    ensures |Times(c, Ring(providers, i, r), providers[j])| == Row(|providers|, i, r, j)
  {
    if r > 0 {
      RingSnoc(providers, i, r - 1);
      TimesSnoc(c, Ring(providers, i, r - 1), providers[(i + r - 1) % |providers|], providers[j]);
      TimesCount(c, providers, i, r - 1, j);
    }
  }

  /** The plan gives provider `j` exactly the computed load. */
  lemma Lengths<T>(a: seq<T>, b: seq<T>)
    ensures |a + b| == |a| + |b|
  {}

  lemma {:induction false} PlacedCount<C, P>(ids: seq<C>, providers: seq<P>, r: nat, j: nat, m: nat)
    requires providers != [] && Distinct(providers) && j < |providers| && m <= |ids|
    ensures |Placed(ids, providers, r, providers[j], m)| == Load(|providers|, m, r, j)
  {
    if m > 0 {
      PlacedCount(ids, providers, r, j, m - 1);
      TimesCount(ids[m - 1], providers, m - 1, r, j);
      Lengths(Placed(ids, providers, r, providers[j], m - 1),
              Times(ids[m - 1], Ring(providers, m - 1, r), providers[j]));
    }
  }

  lemma {:induction false} TimesMember<C, P>(c: C, ps: seq<P>, p: P)
    ensures forall x :: x in Times(c, ps, p) ==> x == c
    ensures Times(c, ps, p) != [] <==> p in ps
  {
    if ps != [] {
      TimesMember(c, ps[..|ps| - 1], p);
      assert ps == ps[..|ps| - 1] + [ps[|ps| - 1]];
    }
  }

  ghost predicate Lands<C, P>(ids: seq<C>, providers: seq<P>, r: nat, p: P, c: C, i: nat)
    requires providers != [] && i < |ids|
  {
    ids[i] == c && p in Ring(providers, i, r)
  }

  lemma TimesLands<C, P>(ids: seq<C>, providers: seq<P>, r: nat, p: P, c: C, i: nat)
    requires providers != [] && i < |ids|
    ensures c in Times(ids[i], Ring(providers, i, r), p) <==> Lands(ids, providers, r, p, c, i)
  {
    TimesMember(ids[i], Ring(providers, i, r), p);
    if Lands(ids, providers, r, p, c, i) {
      var ts := Times(ids[i], Ring(providers, i, r), p);
      assert ts[0] in ts;
    }
  }

  lemma {:induction false} PlacedLands<C, P>(ids: seq<C>, providers: seq<P>, r: nat, p: P, m: nat, c: C)
    returns (i: nat)
    requires providers != [] && m <= |ids| && c in Placed(ids, providers, r, p, m)
    ensures i < m && Lands(ids, providers, r, p, c, i)
  {
    if c in Placed(ids, providers, r, p, m - 1) {
      i := PlacedLands(ids, providers, r, p, m - 1, c);
    } else {
      i := m - 1;
      TimesLands(ids, providers, r, p, c, i);
    }
  }

  /** Only listed chunks are placed. */
  lemma {:induction false} PlacedIsListed<C, P>(ids: seq<C>, providers: seq<P>, r: nat, p: P, c: C) returns (i: nat)
    requires providers != [] && c in Placed(ids, providers, r, p, |ids|)
    ensures i < |ids| && ids[i] == c
  {
    i := PlacedLands(ids, providers, r, p, |ids|, c);
  }

  /** A chunk is only placed at providers of its own ring. */
  lemma {:induction false} PlacedIsRing<C, P>(ids: seq<C>, providers: seq<P>, r: nat, p: P, i: nat)
    requires providers != [] && Distinct(ids) && i < |ids| && ids[i] in Placed(ids, providers, r, p, |ids|)
    ensures p in Ring(providers, i, r)
  {
    var k := PlacedLands(ids, providers, r, p, |ids|, ids[i]);
  }

  lemma {:induction false} LandsPlaced<C, P>(ids: seq<C>, providers: seq<P>, r: nat, p: P, m: nat, c: C, i: nat)
    requires providers != [] && i < m <= |ids| && Lands(ids, providers, r, p, c, i)
    ensures c in Placed(ids, providers, r, p, m)
  {
    if i < m - 1 {
      LandsPlaced(ids, providers, r, p, m - 1, c, i);
    } else {
      TimesLands(ids, providers, r, p, c, i);
    }
  }

  lemma RingDistinct<P>(providers: seq<P>, i: nat, r: nat)
    requires providers != [] && Distinct(providers) && r <= |providers|
    ensures Distinct(Ring(providers, i, r))
  {
    var n := |providers|;
    forall a, b | 0 <= a < b < r
      ensures Ring(providers, i, r)[a] != Ring(providers, i, r)[b]
    {
      OffsetInjective(n, i, a, b);
    }
  }

  lemma OffsetInjective(n: nat, i: nat, a: nat, b: nat)
    requires n > 0 && a < b < n
    ensures (i + a) % n != (i + b) % n
  {
    var qa, qb, k := (i + a) / n, (i + b) / n, (i + a) % n;
    if (i + b) % n == k {
      assert i + a == qa * n + k && i + b == qb * n + k;
      assert b - a == (qb - qa) * n;
      if qb > qa {
        MulMono(1, qb - qa, n);
      } else {
        MulMono(qb - qa, 0, n);
      }
    }
  }

  lemma AssignedIsListed(ids: seq<ChunkId>, providers: seq<Peer>, r: nat, plan: Plan, i: nat, p: Peer)
    requires providers != [] && IsPlan(ids, providers, r, plan) && i < |ids| && p in Ring(providers, i, r)
    ensures p in plan.providerChunks && ids[i] in plan.providerChunks[p]
  {
    var k :| 0 <= k < r && Ring(providers, i, r)[k] == p;
    assert p == providers[(i + k) % |providers|];
    LandsPlaced(ids, providers, r, p, |ids|, ids[i], i);
  }

  lemma {:induction false} TimesOnce<C, P>(c: C, ps: seq<P>, p: P)
    requires Distinct(ps)
    ensures Times(c, ps, p) == if p in ps then [c] else []
  {
    if ps != [] {
      TimesOnce(c, ps[..|ps| - 1], p);
      assert ps == ps[..|ps| - 1] + [ps[|ps| - 1]];
    }
  }

  lemma NotPlacedYet<C, P>(ids: seq<C>, providers: seq<P>, r: nat, p: P, m: nat)
    requires providers != [] && Distinct(ids) && m < |ids|
    ensures ids[m] !in Placed(ids, providers, r, p, m)
  {
    if ids[m] in Placed(ids, providers, r, p, m) {
      var i := PlacedLands(ids, providers, r, p, m, ids[m]);
    }
  }

  lemma {:induction false} PlacedOneMore<C, P>(ids: seq<C>, providers: seq<P>, r: nat, p: P, m: nat)
    requires providers != [] && Distinct(providers) && r <= |providers| && 0 < m <= |ids|
    ensures
      || Placed(ids, providers, r, p, m) == Placed(ids, providers, r, p, m - 1)
      || Placed(ids, providers, r, p, m) == Placed(ids, providers, r, p, m - 1) + [ids[m - 1]]
  {
    RingDistinct(providers, m - 1, r);
    TimesOnce(ids[m - 1], Ring(providers, m - 1, r), p);
  }

  lemma SnocDistinct<C>(l: seq<C>, x: C)
    requires Distinct(l) && x !in l
    ensures Distinct(l + [x])
  {}

  /** No provider is given a chunk twice. */
  lemma {:induction false} PlacedDistinct<C, P>(ids: seq<C>, providers: seq<P>, r: nat, p: P, m: nat)
    requires providers != [] && Distinct(providers) && Distinct(ids) && r <= |providers| && m <= |ids|
    ensures Distinct(Placed(ids, providers, r, p, m))
  {
    if m > 0 {
      var before := Placed(ids, providers, r, p, m - 1);
      PlacedDistinct(ids, providers, r, p, m - 1);
      NotPlacedYet(ids, providers, r, p, m - 1);
      SnocDistinct(before, ids[m - 1]);
      PlacedOneMore(ids, providers, r, p, m);
    }
  }

  /** For distinct chunks and providers: every chunk gets R distinct providers and the
      two maps of the plan are inverses of each other. */
  lemma PlanIsSound(ids: seq<ChunkId>, providers: seq<Peer>, r: nat, plan: Plan)
    requires providers != [] && Distinct(providers) && Distinct(ids) && r <= |providers|
    requires IsPlan(ids, providers, r, plan)
    ensures forall c :: c in ids ==> |plan.assignments[c]| == r && Distinct(plan.assignments[c])
    ensures forall c, p :: c in ids && p in providers ==> (p in plan.assignments[c] <==> c in plan.providerChunks[p])
  {
    forall c | c in ids
      ensures |plan.assignments[c]| == r && Distinct(plan.assignments[c])
      ensures forall p :: p in providers ==> (p in plan.assignments[c] <==> c in plan.providerChunks[p])
    {
      var i :| 0 <= i < |ids| && ids[i] == c;
      assert LastListing(ids, i, |ids|);
      RingDistinct(providers, i, r);
      forall p | p in providers
        ensures p in plan.assignments[c] <==> c in plan.providerChunks[p]
      {
        if c in plan.providerChunks[p] {
          var k := PlacedLands(ids, providers, r, p, |ids|, c);
        }
        if p in plan.assignments[c] {
          LandsPlaced(ids, providers, r, p, |ids|, c, i);
        }
      }
    }
  }

  /** The exact load of every provider, and how close any two are. */
  lemma PlanLoads(ids: seq<ChunkId>, providers: seq<Peer>, r: nat, plan: Plan, j: nat, k: nat)
    requires providers != [] && Distinct(providers) && r <= |providers|
    requires IsPlan(ids, providers, r, plan) && j < |providers| && k < |providers|
    ensures
      var n, m := |providers|, |ids|;
      var t := m % n;
      && |plan.providerChunks[providers[j]]| == (m / n) * r + |Share(n, 0, t, r, j)|
      && |plan.providerChunks[providers[j]]| - |plan.providerChunks[providers[k]]| <= Min(Min(t, n - t), Min(r, n - r))
  {
    var n, m := |providers|, |ids|;
    PlacedCount(ids, providers, r, j, m);
    PlacedCount(ids, providers, r, k, m);
    LoadExact(n, m, r, j);
    ExtraIsShare(n, m % n, r, j);
    LoadsBalanced(n, m, r, j, k);
  }

  // Total load.

  function SumLoads(n: nat, m: nat, r: nat, k: nat): nat
    requires n > 0
  {
    if k == 0 then 0 else SumLoads(n, m, r, k - 1) + Load(n, m, r, k - 1)
  }

  function SumRow(n: nat, i: nat, r: nat, k: nat): nat
    requires n > 0
  {
    if k == 0 then 0 else SumRow(n, i, r, k - 1) + Row(n, i, r, k - 1)
  }

  function SumHits(n: nat, i: nat, r: nat, k: nat): nat
    requires n > 0
  {
    if k == 0 then 0 else SumHits(n, i, r, k - 1) + Hit(n, i, r, k - 1)
  }

  lemma {:induction false} OneHit(n: nat, i: nat, r: nat, k: nat)
    requires n > 0
    ensures SumHits(n, i, r, k) == if (i + r) % n < k then 1 else 0
  {
    if k > 0 {
      OneHit(n, i, r, k - 1);
    }
  }

  lemma {:induction false} RowSplit(n: nat, i: nat, r: nat, k: nat)
    requires n > 0
    ensures SumRow(n, i, r + 1, k) == SumRow(n, i, r, k) + SumHits(n, i, r, k)
  {
    if k > 0 {
      RowSplit(n, i, r, k - 1);
    }
  }

  lemma {:induction false} RowTotal(n: nat, i: nat, r: nat)
    requires n > 0
    ensures SumRow(n, i, r, n) == r
  {
    if r == 0 {
      RowNone(n, i, n);
    } else {
      RowTotal(n, i, r - 1);
      RowSplit(n, i, r - 1, n);
      OneHit(n, i, r - 1, n);
    }
  }

  lemma {:induction false} RowNone(n: nat, i: nat, k: nat)
    requires n > 0
    ensures SumRow(n, i, 0, k) == 0
  {
    if k > 0 {
      RowNone(n, i, k - 1);
    }
  }

  lemma {:induction false} LoadSplit(n: nat, m: nat, r: nat, k: nat)
    requires n > 0
    ensures SumLoads(n, m + 1, r, k) == SumLoads(n, m, r, k) + SumRow(n, m, r, k)
  {
    if k > 0 {
      LoadSplit(n, m, r, k - 1);
    }
  }

  lemma {:induction false} LoadNone(n: nat, r: nat, k: nat)
    requires n > 0
    ensures SumLoads(n, 0, r, k) == 0
  {
    if k > 0 {
      LoadNone(n, r, k - 1);
    }
  }

  /** All providers together carry every chunk R times. */
  lemma {:induction false} TotalLoad(n: nat, m: nat, r: nat)
    requires n > 0
    ensures SumLoads(n, m, r, n) == r * m
  {
    if m == 0 {
      LoadNone(n, r, n);
    } else {
      TotalLoad(n, m - 1, r);
      LoadSplit(n, m - 1, r, n);
      RowTotal(n, m - 1, r);
      MulStep(r, m);
    }
  }

  /** Chunks held by the first `k` providers together. */
  function Holdings(plan: Plan, providers: seq<Peer>, k: nat): nat
    requires k <= |providers| && forall p :: p in providers ==> p in plan.providerChunks
  {
    if k == 0 then 0 else Holdings(plan, providers, k - 1) + |plan.providerChunks[providers[k - 1]]|
  }

  lemma {:induction false} HoldingsAreLoads(plan: Plan, providers: seq<Peer>, m: nat, r: nat, k: nat)
    requires providers != [] && k <= |providers| && forall p :: p in providers ==> p in plan.providerChunks
    requires forall j :: 0 <= j < |providers| ==> |plan.providerChunks[providers[j]]| == Load(|providers|, m, r, j)
    ensures Holdings(plan, providers, k) == SumLoads(|providers|, m, r, k)
  {
    if k > 0 {
      HoldingsAreLoads(plan, providers, m, r, k - 1);
      assert |plan.providerChunks[providers[k - 1]]| == Load(|providers|, m, r, k - 1);
    }
  }

  lemma PlanTotal(ids: seq<ChunkId>, providers: seq<Peer>, r: nat, plan: Plan)
    requires providers != [] && Distinct(providers) && IsPlan(ids, providers, r, plan)
    ensures Holdings(plan, providers, |providers|) == r * |ids|
  {
    forall j | 0 <= j < |providers|
      ensures |plan.providerChunks[providers[j]]| == Load(|providers|, |ids|, r, j)
    {
      PlacedCount(ids, providers, r, j, |ids|);
    }
    HoldingsAreLoads(plan, providers, |ids|, r, |providers|);
    TotalLoad(|providers|, |ids|, r);
  }
}
