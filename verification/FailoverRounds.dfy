/** What a failover round hands to whom. */
module FailoverRounds {
  import opened Distribution
  import opened Shared

  /** Neither holding nor receiving the chunk; a provider that failed on it is eligible. */
  predicate Eligible(t: Tracker, c: ChunkId, p: Peer) {
    !StatusOf(t, c, p).Committed? && !StatusOf(t, c, p).Uploading?
  }

  function Candidates(t: Tracker, c: ChunkId, ps: seq<Peer>): seq<Peer> {
    if ps == [] then []
    else (if Eligible(t, c, ps[0]) then [ps[0]] else []) + Candidates(t, c, ps[1..])
  }

  /** The first `n` elements, or all of them. */
  function FirstOf<T>(s: seq<T>, n: int): seq<T> {
    if n <= 0 then [] else s[..Min(n, |s|)]
  }

  lemma FirstOfCons<T>(x: T, s: seq<T>, n: int)
    requires n > 0
    ensures FirstOf([x] + s, n) == [x] + FirstOf(s, n - 1)
  {}

  /** Failover takes the first candidates in the order of the active providers. */
  lemma {:induction false} ChosenIsPrefix(t: Tracker, c: ChunkId, active: seq<Peer>, needed: int)
    ensures Chosen(t, c, active, needed) == FirstOf(Candidates(t, c, active), needed)
  {
    if active != [] && needed > 0 {
      if Eligible(t, c, active[0]) {
        ChosenIsPrefix(t, c, active[1..], needed - 1);
        FirstOfCons(active[0], Candidates(t, c, active[1..]), needed);
      } else {
        ChosenIsPrefix(t, c, active[1..], needed);
      }
    }
  }

  lemma {:induction false} CandidatesConcat(t: Tracker, c: ChunkId, a: seq<Peer>, b: seq<Peer>)
    ensures Candidates(t, c, a + b) == Candidates(t, c, a) + Candidates(t, c, b)
  {
    if a == [] {
      assert a + b == b;
    } else {
      assert (a + b)[1..] == a[1..] + b;
      CandidatesConcat(t, c, a[1..], b);
    }
  }

  lemma {:induction false} CandidatesMember(t: Tracker, c: ChunkId, ps: seq<Peer>, p: Peer)
    ensures p in Candidates(t, c, ps) <==> p in ps && Eligible(t, c, p)
  {
    if ps != [] {
      CandidatesMember(t, c, ps[1..], p);
      assert ps == [ps[0]] + ps[1..];
    }
  }

  lemma CandidatesAround(t: Tracker, c: ChunkId, active: seq<Peer>, k: nat)
    requires k < |active|
    ensures Candidates(t, c, active) == Candidates(t, c, active[..k])
      + (if Eligible(t, c, active[k]) then [active[k]] else []) + Candidates(t, c, active[k + 1..])
  {
    var p, after := active[k], active[k + 1..];
    assert active == active[..k] + ([p] + after) && ([p] + after)[1..] == after;
    CandidatesConcat(t, c, active[..k], [p] + after);
  }

  /** An active provider is chosen exactly if it is eligible and fewer candidates than
      needed come before it. */
  lemma ChosenIff(t: Tracker, c: ChunkId, active: seq<Peer>, needed: int, k: nat)
    requires Distinct(active) && k < |active|
    ensures active[k] in Chosen(t, c, active, needed) <==>
      Eligible(t, c, active[k]) && |Candidates(t, c, active[..k])| < needed
  {
    var p := active[k];
    ChosenIsPrefix(t, c, active, needed);
    CandidatesAround(t, c, active, k);
    CandidatesMember(t, c, active[..k], p);
    CandidatesMember(t, c, active[k + 1..], p);
    CandidatesMember(t, c, active, p);
    if Eligible(t, c, p) {
      PlaceOf(Candidates(t, c, active[..k]), p, Candidates(t, c, active[k + 1..]), needed);
    }
  }

  /** Past a candidate at position `n`, what is chosen fills up what is left. */
  lemma ChosenAfter(t: Tracker, c: ChunkId, active: seq<Peer>, n: nat, needed: int, p: Peer)
    requires n < |active| && Eligible(t, c, active[n]) && needed > |Candidates(t, c, active[..n])|
    requires p in Chosen(t, c, active, needed) && p !in active[..n] && p != active[n]
    ensures
      var tail := Candidates(t, c, active[n + 1..]);
      p in tail[..Min(needed - |Candidates(t, c, active[..n])| - 1, |tail|)]
  {
    ChosenIsPrefix(t, c, active, needed);
    CandidatesAround(t, c, active, n);
    CandidatesMember(t, c, active[..n], p);
    TailPart(Candidates(t, c, active[..n]), active[n], Candidates(t, c, active[n + 1..]), needed, p);
  }

  lemma TailPart<T>(head: seq<T>, u: T, tail: seq<T>, needed: int, p: T)
    requires needed > |head| && p !in head && p != u
    requires p in (head + [u] + tail)[..Min(needed, |head| + 1 + |tail|)]
    ensures p in tail[..Min(needed - |head| - 1, |tail|)]
  {
    var all, m := head + [u] + tail, Min(needed, |head| + 1 + |tail|);
    var k :| 0 <= k < m && all[k] == p;
    assert k > |head|;
    assert tail[k - |head| - 1] == p;
  }

  /** An element found in one place is in a prefix exactly if the prefix reaches it. */
  lemma PlaceOf<T>(a: seq<T>, x: T, b: seq<T>, n: int)
    requires x !in a && x !in b
    ensures x in (a + [x] + b)[..if n <= 0 then 0 else Min(n, |a| + 1 + |b|)] <==> |a| < n
  {
    var all, m := a + [x] + b, if n <= 0 then 0 else Min(n, |a| + 1 + |b|);
    if |a| < n {
      assert all[..m][|a|] == x;
    } else {
      assert all[..m] == a[..m];
    }
  }

  lemma {:induction false} ChosenFacts(t: Tracker, c: ChunkId, active: seq<Peer>, needed: int)
    requires Distinct(active)
    ensures
      var ps := Chosen(t, c, active, needed);
      && Distinct(ps)
      && (forall p :: p in ps ==> p in active && !StatusOf(t, c, p).Committed? && !StatusOf(t, c, p).Uploading?)
  {
    if active != [] && needed > 0 {
      ChosenFacts(t, c, active[1..], needed);
      ChosenFacts(t, c, active[1..], needed - 1);
      assert forall p :: p in active[1..] ==> p in active && p != active[0];
    }
  }

  lemma {:induction false} AssignFacts(f: Failover, c: ChunkId, ps: seq<Peer>, d: ChunkId, q: Peer)
    requires Distinct(ps)
    ensures
      var g := Assign(f, c, ps);
      && StatusOf(g.tracker, d, q) == (if d == c && q in ps then Pending else StatusOf(f.tracker, d, q))
      && Listed(g.batch, q) == Listed(f.batch, q) + (if q in ps then [c] else [])
      && (q in g.batch <==> q in f.batch || q in ps)
  {
    if ps != [] {
      AssignFacts(f, c, ps[..|ps| - 1], d, q);
      LastIsNew(ps, q);
    }
  }

  lemma LastIsNew(ps: seq<Peer>, q: Peer)
    requires Distinct(ps) && ps != []
    ensures q in ps <==> q in ps[..|ps| - 1] || q == ps[|ps| - 1]
    ensures ps[|ps| - 1] !in ps[..|ps| - 1]
  {
    assert ps == ps[..|ps| - 1] + [ps[|ps| - 1]];
  }

  lemma SpreadFacts(f: Failover, c: ChunkId, active: seq<Peer>, r: int, d: ChunkId, q: Peer)
    requires Distinct(active)
    ensures
      var g := Spread(f, c, active, r);
      && (StatusOf(g.tracker, d, q).Committed? <==> StatusOf(f.tracker, d, q).Committed?)
      && (StatusOf(g.tracker, d, q).Uploading? ==> StatusOf(f.tracker, d, q).Uploading?)
      && (|| (Listed(g.batch, q) == Listed(f.batch, q) && (q in g.batch <==> q in f.batch))
          || (Listed(g.batch, q) == Listed(f.batch, q) + [c] && q in active && !StatusOf(f.tracker, c, q).Committed?))
  {
    var needed := r - |CommittedPeers(f.tracker, c)|;
    ChosenFacts(f.tracker, c, active, needed);
    AssignFacts(f, c, Chosen(f.tracker, c, active, needed), d, q);
  }

  lemma {:induction false} ReassignStatus(
    t: Tracker, ids: seq<ChunkId>, active: seq<Peer>, r: int, n: nat, c: ChunkId, p: Peer)
    requires n <= |ids| && Distinct(active)
    ensures
      var f := Reassign(t, ids, active, r, n);
      && (StatusOf(f.tracker, c, p).Committed? <==> StatusOf(t, c, p).Committed?)
      && (StatusOf(f.tracker, c, p).Uploading? ==> StatusOf(t, c, p).Uploading?)
  {
    if n > 0 {
      ReassignStatus(t, ids, active, r, n - 1, c, p);
      SpreadFacts(Reassign(t, ids, active, r, n - 1), ids[n - 1], active, r, c, p);
    }
  }

  /** A batch lists distinct chunks, for an active provider, none already committed there. */
  ghost predicate GoodBatch(t: Tracker, ids: seq<ChunkId>, active: seq<Peer>, n: nat, p: Peer, b: Batch)
    requires n <= |ids|
  {
    && (p in b ==> p in active && b[p] != [])
    && Distinct(Listed(b, p))
    && (forall c :: c in Listed(b, p) ==> c in ids[..n] && !StatusOf(t, c, p).Committed?)
  }

  lemma GrowBatch(t: Tracker, ids: seq<ChunkId>, active: seq<Peer>, n: nat, p: Peer, b: Batch, b': Batch)
    requires 0 < n <= |ids| && Distinct(ids) && GoodBatch(t, ids, active, n - 1, p, b)
    requires
      || (Listed(b', p) == Listed(b, p) && (p in b' <==> p in b))
      || (Listed(b', p) == Listed(b, p) + [ids[n - 1]] && p in active && !StatusOf(t, ids[n - 1], p).Committed?)
    ensures GoodBatch(t, ids, active, n, p, b')
  {
    assert ids[..n] == ids[..n - 1] + [ids[n - 1]];
    assert ids[n - 1] !in ids[..n - 1];
  }

  lemma SpreadBatch(t: Tracker, ids: seq<ChunkId>, active: seq<Peer>, r: int, n: nat, p: Peer, f: Failover)
    requires 0 < n <= |ids| && Distinct(ids) && Distinct(active)
    requires GoodBatch(t, ids, active, n - 1, p, f.batch)
    requires StatusOf(f.tracker, ids[n - 1], p).Committed? <==> StatusOf(t, ids[n - 1], p).Committed?
    ensures GoodBatch(t, ids, active, n, p, Spread(f, ids[n - 1], active, r).batch)
  {
    SpreadFacts(f, ids[n - 1], active, r, ids[n - 1], p);
    GrowBatch(t, ids, active, n, p, f.batch, Spread(f, ids[n - 1], active, r).batch);
  }

  lemma {:induction false} ReassignBatch(t: Tracker, ids: seq<ChunkId>, active: seq<Peer>, r: int, n: nat, p: Peer)
    returns (f: Failover)
    requires n <= |ids| && Distinct(ids) && Distinct(active)
    ensures f == Reassign(t, ids, active, r, n) && GoodBatch(t, ids, active, n, p, f.batch)
  {
    if n == 0 {
      f := Failover(t, map[]);
    } else {
      var g := ReassignBatch(t, ids, active, r, n - 1, p);
      ReassignStatus(t, ids, active, r, n - 1, ids[n - 1], p);
      SpreadBatch(t, ids, active, r, n, p, g);
      f := Spread(g, ids[n - 1], active, r);
    }
  }

  /** Failover never reassigns a committed pair and never unmarks one. */
  lemma FailoverSparesCommitted(t: Tracker, ids: seq<ChunkId>, active: seq<Peer>, r: int, c: ChunkId, p: Peer)
    requires Distinct(ids) && Distinct(active) && StatusOf(t, c, p).Committed?
    ensures
      var f := Reassign(t, ids, active, r, |ids|);
      StatusOf(f.tracker, c, p).Committed? && c !in Listed(f.batch, p)
  {
    ReassignStatus(t, ids, active, r, |ids|, c, p);
    var f := ReassignBatch(t, ids, active, r, |ids|, p);
  }

  // ------------------------------------------------- who is offered what

  /** Handling one chunk changes nothing about another. */
  lemma SpreadOther(f: Failover, c: ChunkId, active: seq<Peer>, r: int, d: ChunkId, p: Peer)
    requires Distinct(active) && d != c
    ensures
      var g := Spread(f, c, active, r);
      && StatusOf(g.tracker, d, p) == StatusOf(f.tracker, d, p)
      && (d in Listed(g.batch, p) <==> d in Listed(f.batch, p))
  {
    var needed := r - |CommittedPeers(f.tracker, c)|;
    ChosenFacts(f.tracker, c, active, needed);
    AssignFacts(f, c, Chosen(f.tracker, c, active, needed), d, p);
  }

  lemma {:induction false} SpreadOwn(f: Failover, c: ChunkId, active: seq<Peer>, r: int, p: Peer)
    requires Distinct(active) && c !in Listed(f.batch, p)
    ensures c in Listed(Spread(f, c, active, r).batch, p)
      <==> p in Chosen(f.tracker, c, active, r - |CommittedPeers(f.tracker, c)|)
  {
    var needed := r - |CommittedPeers(f.tracker, c)|;
    ChosenFacts(f.tracker, c, active, needed);
    AssignOwn(f, c, Chosen(f.tracker, c, active, needed), p);
  }

  lemma {:induction false} AssignOwn(f: Failover, c: ChunkId, ps: seq<Peer>, p: Peer)
    requires Distinct(ps) && c !in Listed(f.batch, p)
    ensures c in Listed(Assign(f, c, ps).batch, p) <==> p in ps
  {
    AssignFacts(f, c, ps, c, p);
  }

  lemma {:induction false} OthersUntouched(
    t: Tracker, ids: seq<ChunkId>, active: seq<Peer>, r: int, n: nat, c: ChunkId, p: Peer) returns (f: Failover)
    requires n <= |ids| && Distinct(active) && c !in ids[..n]
    ensures f == Reassign(t, ids, active, r, n)
    ensures StatusOf(f.tracker, c, p) == StatusOf(t, c, p) && c !in Listed(f.batch, p)
  {
    if n == 0 {
      f := Failover(t, map[]);
    } else {
      assert ids[..n] == ids[..n - 1] + [ids[n - 1]];
      var g := OthersUntouched(t, ids, active, r, n - 1, c, p);
      SpreadOther(g, ids[n - 1], active, r, c, p);
      f := Spread(g, ids[n - 1], active, r);
    }
  }

  /** Chunks handled later neither take an offer back nor add one. */
  lemma {:induction false} OfferStays(
    t: Tracker, ids: seq<ChunkId>, active: seq<Peer>, r: int, m: nat, n: nat, c: ChunkId, p: Peer) returns (f: Failover)
    requires m <= n <= |ids| && Distinct(active) && c !in ids[m..n]
    ensures f == Reassign(t, ids, active, r, n)
    ensures c in Listed(f.batch, p) <==> c in Listed(Reassign(t, ids, active, r, m).batch, p)
    decreases n - m
  {
    if m == n {
      f := Reassign(t, ids, active, r, n);
    } else {
      assert ids[m..n] == ids[m..n - 1] + [ids[n - 1]];
      var g := OfferStays(t, ids, active, r, m, n - 1, c, p);
      SpreadOther(g, ids[n - 1], active, r, c, p);
      f := Spread(g, ids[n - 1], active, r);
    }
  }

  lemma SamePeers(t: Tracker, t': Tracker, c: ChunkId)
    requires forall p :: StatusOf(t', c, p) == StatusOf(t, c, p)
    ensures CommittedPeers(t', c) == CommittedPeers(t, c)
  {}

  lemma {:induction false} SameChosen(t: Tracker, t': Tracker, c: ChunkId, active: seq<Peer>, needed: int)
    requires forall p :: StatusOf(t', c, p) == StatusOf(t, c, p)
    ensures Chosen(t', c, active, needed) == Chosen(t, c, active, needed)
  {
    if active != [] && needed > 0 {
      SameChosen(t, t', c, active[1..], needed);
      SameChosen(t, t', c, active[1..], needed - 1);
    }
  }

  lemma SameStatus(t: Tracker, ids: seq<ChunkId>, active: seq<Peer>, r: int, i: nat)
    requires Distinct(ids) && Distinct(active) && i < |ids|
    ensures forall q :: StatusOf(Reassign(t, ids, active, r, i).tracker, ids[i], q) == StatusOf(t, ids[i], q)
  {
    forall q
      ensures StatusOf(Reassign(t, ids, active, r, i).tracker, ids[i], q) == StatusOf(t, ids[i], q)
    {
      var f := OthersUntouched(t, ids, active, r, i, ids[i], q);
    }
  }

  lemma OfferedAtOnce(t: Tracker, ids: seq<ChunkId>, active: seq<Peer>, r: int, i: nat, p: Peer)
    requires Distinct(ids) && Distinct(active) && i < |ids|
    ensures ids[i] in Listed(Reassign(t, ids, active, r, i + 1).batch, p)
      <==> p in Chosen(t, ids[i], active, r - |CommittedPeers(t, ids[i])|)
  {
    var c := ids[i];
    var f := OthersUntouched(t, ids, active, r, i, c, p);
    SameStatus(t, ids, active, r, i);
    SamePeers(t, f.tracker, c);
    SameChosen(t, f.tracker, c, active, r - |CommittedPeers(t, c)|);
    SpreadOwn(f, c, active, r, p);
  }

  /** The providers that a failover round hands chunk `i` to, from the tracker alone. */
  lemma OfferedIsChosen(t: Tracker, ids: seq<ChunkId>, active: seq<Peer>, r: int, i: nat, p: Peer)
    requires Distinct(ids) && Distinct(active) && i < |ids|
    ensures ids[i] in Listed(Reassign(t, ids, active, r, |ids|).batch, p)
      <==> p in Chosen(t, ids[i], active, r - |CommittedPeers(t, ids[i])|)
  {
    assert ids[i] !in ids[i + 1..|ids|];
    OfferedAtOnce(t, ids, active, r, i, p);
    var f := OfferStays(t, ids, active, r, i + 1, |ids|, ids[i], p);
  }

  /** A provider that failed on a chunk is offered it again exactly if it is active and
      fewer providers than are still needed are eligible before it. */
  lemma FailedIsOfferedAgainIff(t: Tracker, ids: seq<ChunkId>, active: seq<Peer>, r: int, i: nat, k: nat)
    requires Distinct(ids) && Distinct(active) && i < |ids| && k < |active|
    requires StatusOf(t, ids[i], active[k]).Failed?
    ensures ids[i] in Listed(Reassign(t, ids, active, r, |ids|).batch, active[k])
      <==> |Candidates(t, ids[i], active[..k])| + |CommittedPeers(t, ids[i])| < r
  {
    OfferedIsChosen(t, ids, active, r, i, active[k]);
    ChosenIff(t, ids[i], active, r - |CommittedPeers(t, ids[i])|, k);
  }

  /** So the first active provider is offered every chunk it failed on, as long as the
      chunk lacks replicas, however many others have never been asked. */
  lemma FirstIsOfferedAgain(t: Tracker, ids: seq<ChunkId>, active: seq<Peer>, r: int, i: nat)
    requires Distinct(ids) && Distinct(active) && i < |ids| && active != []
    requires StatusOf(t, ids[i], active[0]).Failed? && |CommittedPeers(t, ids[i])| < r
    ensures ids[i] in Listed(Reassign(t, ids, active, r, |ids|).batch, active[0])
  {
    FailedIsOfferedAgainIff(t, ids, active, r, i, 0);
  }
}
