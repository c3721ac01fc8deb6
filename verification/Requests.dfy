/** The store of active requests: clients create, resolve and abort, timers expire.
    Records live in an arena and a goroutine holds a record by its position, so one that
    found its record before unlocking, or an old timer, may come back to a record that
    has left the store. */
module Requests {
  import opened Options
  import opened Shared
  import Counting

  datatype Status = Pending | Resolved | Aborted | Expired
  datatype Record = Record(file: string, client: string, status: Status)

  /** `held` is what each goroutine found before it unlocked; `exits` logs every change
      from Pending, in order. */
  datatype State = State(
    arena: seq<Record>, store: seq<nat>, held: map<nat, (nat, Status)>, exits: seq<(nat, Status)>)

  datatype Event =
    | GetOrCreate(file: string, client: string, lifetime: int)
    | Find(thread: nat, file: string, client: string, to: Status)
    | Finish(thread: nat)
    | Timer(record: nat)

  predicate IsPair(r: Record, file: string, client: string) {
    r.file == file && r.client == client && r.status.Pending?
  }

  /** The first stored record of the pair that is Pending. */
  function Lookup(arena: seq<Record>, store: seq<nat>, file: string, client: string): (r: Option<nat>)
    ensures r.Some? ==> r.value in store && r.value < |arena| && IsPair(arena[r.value], file, client)
  {
    if store == [] then None
    else if store[0] < |arena| && IsPair(arena[store[0]], file, client) then Some(store[0])
    else Lookup(arena, store[1..], file, client)
  }

  function Remove(store: seq<nat>, r: nat): seq<nat> {
    if store == [] then [] else if store[0] == r then store[1..] else [store[0]] + Remove(store[1..], r)
  }

  /** Move one record out of Pending, if it still is. */
  function Transition(s: State, r: nat, to: Status): State
    requires r < |s.arena|
  {
    if !s.arena[r].status.Pending? then s
    else s.(arena := s.arena[r := s.arena[r].(status := to)], store := Remove(s.store, r), exits := s.exits + [(r, to)])
  }

  predicate Enabled(s: State, e: Event) {
    match e
    case GetOrCreate(_, _, _) => true
    case Find(thread, _, _, to) => thread !in s.held && (to.Resolved? || to.Aborted?)
    case Finish(thread) => thread in s.held && s.held[thread].0 < |s.arena|
    case Timer(r) => r < |s.arena|
  }

  function Step(s: State, e: Event): State
    requires Enabled(s, e)
  {
    match e
    case GetOrCreate(file, client, lifetime) =>
      if lifetime <= 0 || Lookup(s.arena, s.store, file, client).Some? then s
      else s.(arena := s.arena + [Record(file, client, Pending)], store := s.store + [|s.arena|])
    case Find(thread, file, client, to) =>
      var found := Lookup(s.arena, s.store, file, client);
      if found.None? then s else s.(held := s.held[thread := (found.value, to)])
    case Finish(thread) => Transition(s.(held := s.held - {thread}), s.held[thread].0, s.held[thread].1)
    case Timer(r) => Transition(s, r, Expired)
  }

  predicate Feasible(s: State, es: seq<Event>)
    decreases |es|
  {
    es == [] || (Enabled(s, es[0]) && Feasible(Step(s, es[0]), es[1..]))
  }

  function After(s: State, es: seq<Event>): State
    requires Feasible(s, es)
    decreases |es|
  {
    if es == [] then s else After(Step(s, es[0]), es[1..])
  }

  const EMPTY := State([], [], map[], [])

  // -------------------------------------------------------------- invariant

  predicate Within(s: State) {
    forall i :: 0 <= i < |s.store| ==> s.store[i] < |s.arena|
  }

  /** The store is exactly the Pending records, once each. */
  ghost predicate StoreIsPending(s: State) {
    && Within(s) && Distinct(s.store)
    && forall r: nat :: r in s.store <==> r < |s.arena| && s.arena[r].status.Pending?
  }

  ghost predicate PairsDiffer(s: State) {
    forall q: nat, r: nat ::
      q < |s.arena| && r < |s.arena| && q != r && s.arena[q].status.Pending? && s.arena[r].status.Pending? ==>
      (s.arena[q].file, s.arena[q].client) != (s.arena[r].file, s.arena[r].client)
  }

  /** The log has one entry for each record that left Pending, with its final status. */
  ghost predicate LogIsFaithful(s: State) {
    && (forall i :: 0 <= i < |s.exits| ==>
          s.exits[i].0 < |s.arena| && s.arena[s.exits[i].0].status == s.exits[i].1 && !s.exits[i].1.Pending?)
    && (forall i, j :: 0 <= i < j < |s.exits| ==> s.exits[i].0 != s.exits[j].0)
  }

  ghost predicate Inv(s: State) {
    && StoreIsPending(s) && PairsDiffer(s) && LogIsFaithful(s)
    && forall t :: t in s.held ==> s.held[t].0 < |s.arena| && !s.held[t].1.Pending?
  }

  lemma {:induction false} LookupMisses(arena: seq<Record>, store: seq<nat>, file: string, client: string, r: nat)
    requires Lookup(arena, store, file, client).None? && r in store && r < |arena|
    ensures !IsPair(arena[r], file, client)
  {
    if store[0] != r {
      LookupMisses(arena, store[1..], file, client, r);
    }
  }

  lemma {:induction false} RemoveFacts(store: seq<nat>, r: nat)
    requires Distinct(store)
    ensures Distinct(Remove(store, r)) && forall q :: q in Remove(store, r) <==> q in store && q != r
  {
    if store != [] {
      assert store == [store[0]] + store[1..] && store[0] !in store[1..];
      RemoveFacts(store[1..], r);
      assert store[0] !in Remove(store[1..], r);
    }
  }

  lemma {:induction false} RemoveFirst(store: seq<nat>, r: nat, i: nat)
    requires i < |store| && store[i] == r && r !in store[..i]
    ensures Remove(store, r) == store[..i] + store[i + 1..]
  {
    if i > 0 {
      assert store[0] in store[..i];
      assert store[1..][..i - 1] == store[..i][1..] && store[1..][i..] == store[i + 1..];
      RemoveFirst(store[1..], r, i - 1);
      assert store[..i] == [store[0]] + store[..i][1..];
    }
  }

  lemma {:induction false} RemoveNone(store: seq<nat>, r: nat)
    requires r !in store
    ensures Remove(store, r) == store
  {
    if store != [] {
      RemoveNone(store[1..], r);
    }
  }

  lemma CreateInv(s: State, file: string, client: string)
    requires Inv(s) && Lookup(s.arena, s.store, file, client).None?
    ensures Inv(s.(arena := s.arena + [Record(file, client, Pending)], store := s.store + [|s.arena|]))
  {
    forall r: nat | r < |s.arena| && s.arena[r].status.Pending?
      ensures (s.arena[r].file, s.arena[r].client) != (file, client)
    {
      LookupMisses(s.arena, s.store, file, client, r);
    }
    assert |s.arena| !in s.store;
  }

  lemma TransitionInv(s: State, r: nat, to: Status)
    requires Inv(s) && r < |s.arena| && !to.Pending?
    ensures Inv(Transition(s, r, to))
  {
    RemoveFacts(s.store, r);
    var left := Remove(s.store, r);
    forall i | 0 <= i < |left|
      ensures left[i] < |s.arena|
    {
      assert left[i] in left;
    }
  }

  lemma InvStep(s: State, e: Event)
    requires Inv(s) && Enabled(s, e)
    ensures Inv(Step(s, e))
  {
    match e
    case GetOrCreate(file, client, lifetime) =>
      if lifetime > 0 && Lookup(s.arena, s.store, file, client).None? { CreateInv(s, file, client); }
    case Find(_, _, _, _) =>
    case Finish(thread) =>
      var s' := s.(held := s.held - {thread});
      assert Inv(s');
      TransitionInv(s', s.held[thread].0, s.held[thread].1);
    case Timer(r) => TransitionInv(s, r, Expired);
  }

  lemma {:induction false} InvRun(s: State, es: seq<Event>)
    requires Inv(s) && Feasible(s, es)
    ensures Inv(After(s, es))
    decreases |es|
  {
    if es != [] {
      InvStep(s, es[0]);
      InvRun(Step(s, es[0]), es[1..]);
    }
  }

  // ---------------------------------------------------------------- results

  ghost predicate Reached(s: State) {
    exists es :: Feasible(EMPTY, es) && s == After(EMPTY, es)
  }

  lemma ReachedInv(s: State)
    requires Reached(s)
    ensures Inv(s)
  {
    var es :| Feasible(EMPTY, es) && s == After(EMPTY, es);
    InvRun(EMPTY, es);
  }

  /** In every interleaving the store holds exactly the Pending records, no two of the
      same file and client. */
  lemma StoreHoldsPending(s: State)
    requires Reached(s)
    ensures StoreIsPending(s) && PairsDiffer(s)
  {
    ReachedInv(s);
  }

  /** Every record leaves Pending at most once, and keeps the status it left with. */
  lemma LeavesPendingOnce(s: State)
    requires Reached(s)
    ensures LogIsFaithful(s)
  {
    ReachedInv(s);
  }

  /** A step changes at most one existing record, and only one that is Pending; a timer
      changes at most its own. */
  lemma StepTouchesOne(s: State, e: Event, r: nat)
    requires Enabled(s, e) && r < |s.arena|
    ensures |s.arena| <= |Step(s, e).arena|
    ensures !s.arena[r].status.Pending? ==> Step(s, e).arena[r] == s.arena[r]
    ensures e.Timer? && e.record != r ==> Step(s, e).arena[r] == s.arena[r]
    ensures e.Finish? && s.held[e.thread].0 != r ==> Step(s, e).arena[r] == s.arena[r]
    ensures s.exits <= Step(s, e).exits
  {}

  /** Once resolved, aborted or expired, a record is never changed again by anything. */
  lemma {:induction false} FinalIsFinal(s: State, es: seq<Event>, r: nat)
    requires Feasible(s, es) && r < |s.arena| && !s.arena[r].status.Pending?
    ensures r < |After(s, es).arena| && After(s, es).arena[r] == s.arena[r]
    decreases |es|
  {
    if es != [] {
      StepTouchesOne(s, es[0], r);
      FinalIsFinal(Step(s, es[0]), es[1..], r);
    }
  }

  /** A timer whose record has left the store changes nothing, even if a newer record
      for the same file and client is Pending. */
  lemma OldTimerIsHarmless(s: State, r: nat, newer: nat)
    requires Reached(s) && r < |s.arena| && newer in s.store && newer != r
    ensures newer < |s.arena|
    ensures Step(s, Timer(r)).arena[newer] == s.arena[newer] && newer in Step(s, Timer(r)).store
    ensures r !in s.store ==> Step(s, Timer(r)) == s
  {
    ReachedInv(s);
    RemoveFacts(s.store, r);
  }

  /** A resolve or abort that lost the race after unlocking does nothing either. */
  lemma LateTransitionIsHarmless(s: State, thread: nat)
    requires Reached(s) && thread in s.held && s.held[thread].0 !in s.store
    ensures Enabled(s, Finish(thread)) && Step(s, Finish(thread)) == s.(held := s.held - {thread})
  {
    ReachedInv(s);
  }

  /** A pair gets a new record exactly if it has none pending. */
  lemma CreatesIff(s: State, file: string, client: string, lifetime: int)
    requires Reached(s) && lifetime > 0
    ensures |Step(s, GetOrCreate(file, client, lifetime)).arena| > |s.arena| <==>
      !exists r: nat :: r < |s.arena| && IsPair(s.arena[r], file, client)
  {
    ReachedInv(s);
    if Lookup(s.arena, s.store, file, client).None? {
      forall r: nat | r < |s.arena|
        ensures !IsPair(s.arena[r], file, client)
      {
        if s.arena[r].status.Pending? {
          LookupMisses(s.arena, s.store, file, client, r);
        }
      }
    }
  }

  // ----------------------------------------------------------------- demand

  /** Entries of the file among the first `k` of the store. */
  function Count(s: State, file: string, k: nat): nat
    requires k <= |s.store| && Within(s)
  {
    if k == 0 then 0 else Count(s, file, k - 1) + (if s.arena[s.store[k - 1]].file == file then 1 else 0)
  }

  ghost function Clients(s: State, file: string, k: nat): set<string>
    requires k <= |s.store| && Within(s)
  {
    set i | 0 <= i < k && s.arena[s.store[i]].file == file :: s.arena[s.store[i]].client
  }

  lemma ClientsSnoc(s: State, file: string, k: nat)
    requires Within(s) && 0 < k <= |s.store|
    ensures
      var r := s.arena[s.store[k - 1]];
      Clients(s, file, k) == Clients(s, file, k - 1) + (if r.file == file then {r.client} else {})
  {}

  lemma {:induction false} CountIsClients(s: State, file: string, k: nat)
    requires Inv(s) && k <= |s.store|
    ensures Count(s, file, k) == |Clients(s, file, k)|
  {
    if k > 0 {
      CountIsClients(s, file, k - 1);
      ClientsSnoc(s, file, k);
      var r := s.arena[s.store[k - 1]];
      if r.file == file {
        NewClient(s, file, k);
        Counting.OneMore(Clients(s, file, k - 1), r.client, Clients(s, file, k));
      }
    }
  }

  lemma NewClient(s: State, file: string, k: nat)
    requires Inv(s) && 0 < k <= |s.store| && s.arena[s.store[k - 1]].file == file
    ensures s.arena[s.store[k - 1]].client !in Clients(s, file, k - 1)
  {
    forall i | 0 <= i < k - 1 && s.arena[s.store[i]].file == file
      ensures s.arena[s.store[i]].client != s.arena[s.store[k - 1]].client
    {
      var q, r := s.store[i], s.store[k - 1];
      assert q in s.store && r in s.store && q != r;
    }
  }

  /** The clients that have a Pending record for the file. */
  ghost predicate Wants(s: State, file: string, client: string) {
    exists r: nat :: r < |s.arena| && IsPair(s.arena[r], file, client)
  }

  /** Demand is the number of distinct clients with a Pending request for the file. */
  lemma DemandIsClients(s: State, file: string)
    requires Reached(s)
    ensures Within(s)
    ensures Count(s, file, |s.store|) == |Clients(s, file, |s.store|)|
    ensures forall client :: client in Clients(s, file, |s.store|) <==> Wants(s, file, client)
  {
    ReachedInv(s);
    CountIsClients(s, file, |s.store|);
    forall client
      ensures client in Clients(s, file, |s.store|) <==> Wants(s, file, client)
    {
      if client in Clients(s, file, |s.store|) {
        var i :| 0 <= i < |s.store| && s.arena[s.store[i]].file == file && s.arena[s.store[i]].client == client;
        assert s.store[i] in s.store;
      }
      if Wants(s, file, client) {
        var r: nat :| r < |s.arena| && IsPair(s.arena[r], file, client);
        assert r in s.store;
        var i :| 0 <= i < |s.store| && s.store[i] == r;
      }
    }
  }

  // -------------------------------------------------------------- the store

  class RequestStore {
    var arena: seq<Record>
    var store: seq<nat>
    ghost var held: map<nat, (nat, Status)>
    ghost var exits: seq<(nat, Status)>

    ghost function View(): State
      reads this
    {
      State(arena, store, held, exits)
    }

    constructor ()
      ensures View() == EMPTY && Inv(View())
    {
      arena, store, held, exits := [], [], map[], [];
    }

    method FindPending(file: string, client: string) returns (found: Option<nat>)
      requires Inv(View())
      ensures found == Lookup(arena, store, file, client)
    {
      assert store[0..] == store;
      for i := 0 to |store|
        invariant Lookup(arena, store, file, client) == Lookup(arena, store[i..], file, client)
      {
        assert store[i..][1..] == store[i + 1..] && store[i] in store;
        var r := store[i];
        if arena[r].file == file && arena[r].client == client && arena[r].status.Pending? {
          return Some(r);
        }
      }
      found := None;
    }

    /** The request of the pair, and whether it is a new one; nothing if the lifetime is
        not positive. */
    method GetOrCreateRequest(file: string, client: string, lifetime: int) returns (r: Option<(Record, bool)>)
      requires Inv(View())
      modifies this
      ensures View() == Step(old(View()), GetOrCreate(file, client, lifetime)) && Inv(View())
      ensures r.Some? <==> lifetime > 0
      ensures r.Some? ==> r.value.0 == Record(file, client, Pending) && (r.value.1 <==> |arena| > |old(arena)|)
    {
      InvStep(View(), GetOrCreate(file, client, lifetime));
      if lifetime <= 0 { return None; }
      var found := FindPending(file, client);
      if found.Some? { return Some((arena[found.value], false)); }
      store := store + [|arena|];
      arena := arena + [Record(file, client, Pending)];
      r := Some((Record(file, client, Pending), true));
    }

    method RemoveRecord(r: nat)
      modifies this`store
      ensures store == Remove(old(store), r)
    {
      for i := 0 to |store|
        invariant store == old(store) && r !in store[..i]
      {
        if store[i] == r {
          RemoveFirst(store, r, i);
          store := store[..i] + store[i + 1..];
          return;
        }
        assert store[..i + 1] == store[..i] + [store[i]];
      }
      assert store[..|store|] == store;
      RemoveNone(store, r);
    }

    /** The second locked section: the status is checked again. */
    method TransitionRecord(r: nat, to: Status) returns (changed: bool)
      requires Inv(View()) && r < |arena| && !to.Pending?
      modifies this
      ensures View() == Transition(old(View()), r, to) && Inv(View())
      ensures changed <==> old(arena[r]).status.Pending?
      ensures changed ==> r !in store && arena[r].status == to
    {
      TransitionInv(View(), r, to);
      RemoveFacts(store, r);
      if !arena[r].status.Pending? { return false; }
      arena := arena[r := arena[r].(status := to)];
      RemoveRecord(r);
      exits := exits + [(r, to)];
      changed := true;
    }

    /** Count the Pending requests of a file in a snapshot of the store. */
    method CalculateDemand(file: string) returns (count: Option<nat>)
      requires Inv(View())
      ensures count.Some? <==> file != ""
      ensures count.Some? ==> count.value == |Clients(View(), file, |store|)|
    {
      if file == "" { return None; }
      var n := 0;
      for i := 0 to |store|
        invariant n == Count(View(), file, i)
      {
        assert store[i] in store;
        if arena[store[i]].file == file {
          n := n + 1;
        }
      }
      CountIsClients(View(), file, |store|);
      count := Some(n);
    }
  }
}
