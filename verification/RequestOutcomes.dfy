/** What becomes of a request, told by the calls: who asked for it, and who ended it how. */
module RequestOutcomes {
  import opened Options
  import opened Shared
  import opened Requests

  // ------------------------------------------------------------ who asked for it

  ghost predicate HasPending(s: State, file: string, client: string) {
    exists r: nat :: r < |s.arena| && IsPair(s.arena[r], file, client)
  }

  /** The pair that a call makes a new record for. */
  ghost function Asked(s: State, e: Event): seq<(string, string)> {
    if e.GetOrCreate? && e.lifetime > 0 && !HasPending(s, e.file, e.client) then [(e.file, e.client)] else []
  }

  ghost function AskedAll(s: State, es: seq<Event>): seq<(string, string)>
    requires Feasible(s, es)
    decreases |es|
  {
    if es == [] then [] else Asked(s, es[0]) + AskedAll(Step(s, es[0]), es[1..])
  }

  function Pairs(arena: seq<Record>): (ps: seq<(string, string)>)
    ensures |ps| == |arena| && forall i :: 0 <= i < |arena| ==> ps[i] == (arena[i].file, arena[i].client)
  {
    seq(|arena|, i requires 0 <= i < |arena| => (arena[i].file, arena[i].client))
  }

  lemma FoundIff(s: State, file: string, client: string)
    requires Inv(s)
    ensures Lookup(s.arena, s.store, file, client).Some? <==> HasPending(s, file, client)
  {
    if Lookup(s.arena, s.store, file, client).None? {
      forall r: nat | r < |s.arena|
        ensures !IsPair(s.arena[r], file, client)
      {
        if s.arena[r].status.Pending? {
          LookupMisses(s.arena, s.store, file, client, r);
        }
      }
    }
  }

  lemma PairsStep(s: State, e: Event)
    requires Inv(s) && Enabled(s, e)
    ensures Pairs(Step(s, e).arena) == Pairs(s.arena) + Asked(s, e)
  {
    if e.GetOrCreate? {
      FoundIff(s, e.file, e.client);
    }
  }

  lemma {:induction false} PairsRun(s: State, es: seq<Event>)
    requires Inv(s) && Feasible(s, es)
    ensures Pairs(After(s, es).arena) == Pairs(s.arena) + AskedAll(s, es)
    decreases |es|
  {
    if es != [] {
      PairsStep(s, es[0]);
      InvStep(s, es[0]);
      PairsRun(Step(s, es[0]), es[1..]);
      assert Pairs(s.arena) + (Asked(s, es[0]) + AskedAll(Step(s, es[0]), es[1..]))
        == Pairs(s.arena) + Asked(s, es[0]) + AskedAll(Step(s, es[0]), es[1..]);
    }
  }

  /** After any run the records are, in order, those of the calls that asked for a pair with
      no pending request and a positive lifetime. */
  lemma {:induction false} RecordsAreAskedFor(es: seq<Event>)
    requires Feasible(EMPTY, es)
    ensures Pairs(After(EMPTY, es).arena) == AskedAll(EMPTY, es)
  {
    PairsRun(EMPTY, es);
    assert Pairs(EMPTY.arena) == [];
  }

  // ------------------------------------------------------------------ who ended it

  /** What a goroutine found stays in its hands until it finishes. */
  lemma {:induction false} HeldUntilFinish(s: State, es: seq<Event>, thread: nat)
    requires thread in s.held && Feasible(s, es) && Finish(thread) !in es
    ensures thread in After(s, es).held && After(s, es).held[thread] == s.held[thread]
    decreases |es|
  {
    if es != [] {
      assert es[0] != Finish(thread);
      HeldUntilFinish(Step(s, es[0]), es[1..], thread);
    }
  }

  lemma FoundIsThePair(s: State, file: string, client: string, r: nat)
    requires Inv(s) && r < |s.arena| && IsPair(s.arena[r], file, client)
    ensures Lookup(s.arena, s.store, file, client) == Some(r)
  {
    FoundIff(s, file, client);
  }

  /** One record has left, with this status, and nothing else has changed. */
  ghost predicate Ends(s: State, s': State, r: nat, to: Status) {
    && r < |s.arena| && s'.arena == s.arena[r := s.arena[r].(status := to)]
    && forall q :: q in s'.store <==> q in s.store && q != r
  }

  lemma TransitionEnds(s: State, r: nat, to: Status)
    requires Inv(s) && r < |s.arena| && s.arena[r].status.Pending?
    ensures Ends(s, Transition(s, r, to), r, to)
  {
    RemoveFacts(s.store, r);
  }

  /** Resolving or aborting a pair that has a pending request ends exactly that request, as
      resolved or aborted, whatever happens between its two locked sections, as long as the
      request is still pending then. */
  lemma EndsAsAsked(s: State, thread: nat, file: string, client: string, to: Status, es: seq<Event>, r: nat)
    requires Reached(s) && Enabled(s, Find(thread, file, client, to))
    requires r < |s.arena| && IsPair(s.arena[r], file, client)
    requires Feasible(Step(s, Find(thread, file, client, to)), es) && Finish(thread) !in es
    requires r < |After(Step(s, Find(thread, file, client, to)), es).arena|
    requires After(Step(s, Find(thread, file, client, to)), es).arena[r].status.Pending?
    ensures
      var mid := After(Step(s, Find(thread, file, client, to)), es);
      Enabled(mid, Finish(thread)) && Ends(mid, Step(mid, Finish(thread)), r, to)
  {
    ReachedInv(s);
    FoundIsThePair(s, file, client, r);
    var s1 := Step(s, Find(thread, file, client, to));
    InvStep(s, Find(thread, file, client, to));
    InvRun(s1, es);
    HeldUntilFinish(s1, es, thread);
    var mid := After(s1, es);
    assert Inv(mid.(held := mid.held - {thread}));
    TransitionEnds(mid.(held := mid.held - {thread}), r, to);
  }

  /** A timer that fires while its request is pending ends it as expired. */
  lemma TimerExpires(s: State, r: nat)
    requires Reached(s) && r < |s.arena| && s.arena[r].status.Pending?
    ensures Ends(s, Step(s, Timer(r)), r, Expired)
  {
    ReachedInv(s);
    TransitionEnds(s, r, Expired);
  }
}
