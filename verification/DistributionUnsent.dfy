/** With no attempt allowed, willing providers are enough for a nil return: a run in which
    every announced manifest is acknowledged, and not one chunk is sent. */
module DistributionUnsent {
  import opened Options
  import opened Shared
  import opened Distribution
  import opened DistributionSafety
  import opened DistributionOutcome
  import opened DistributionRefusal
  import opened FailoverRounds
  import H = PushHandler
  import Planner
  import Counting

  // -------------------------------------------------------------------- runs

  lemma RunCons(cfg: Config, s: State, e: Event, rest: seq<Event>)
    requires Enabled(cfg, s, e) && Feasible(cfg, Step(cfg, s, e), rest)
    ensures Feasible(cfg, s, [e] + rest) && After(cfg, s, [e] + rest) == After(cfg, Step(cfg, s, e), rest)
  {
    assert ([e] + rest)[1..] == rest;
  }

  lemma Associate<T>(e: T, rest: seq<T>, more: seq<T>)
    ensures [e] + (rest + more) == ([e] + rest) + more
  {}

  lemma {:induction false} RunConcat(cfg: Config, s: State, es: seq<Event>, more: seq<Event>)
    requires Feasible(cfg, s, es) && Feasible(cfg, After(cfg, s, es), more)
    ensures Feasible(cfg, s, es + more) && After(cfg, s, es + more) == After(cfg, After(cfg, s, es), more)
    decreases |es|
  {
    if es == [] {
      assert es + more == more;
    } else {
      var e, rest := es[0], es[1..];
      RunConcat(cfg, Step(cfg, s, e), rest, more);
      RunCons(cfg, s, e, rest + more);
      Associate(e, rest, more);
      assert es == [e] + rest;
    }
  }

  /** No provider's store has changed. */
  ghost predicate SameStores(s: State, s': State) {
    s'.net.Keys == s.net.Keys && forall p :: p in s.net ==> s'.net[p].store == s.net[p].store
  }

  /** Only `p`'s job went on, and no store changed. */
  ghost predicate OneJob(s: State, s': State, p: Peer) {
    && p in s.jobs && s'.jobs.Keys == s.jobs.Keys && SameStores(s, s')
    && s'.result == s.result && s'.round == s.round && s'.active == s.active
    && (forall q :: q in s.jobs && q != p ==> s'.jobs[q] == s.jobs[q])
  }

  ghost predicate CommittedFrom(s: State, p: Peer, chunks: seq<ChunkId>, k: nat) {
    forall i :: k <= i < |chunks| ==> StatusOf(s.tracker, chunks[i], p).Committed?
  }

  /** With no attempt allowed, reading a chunk is enough to mark it Committed. */
  lemma ReadStep(cfg: Config, s: State, p: Peer)
    requires cfg.maxRetries < 1 && p in s.jobs && s.jobs[p].stage.Reading? && s.jobs[p].pos < |s.jobs[p].chunks|
    ensures Enabled(cfg, s, Read(p, true))
    ensures
      var s' := Step(cfg, s, Read(p, true));
      && OneJob(s, s', p) && Keeps(s, s') && s'.jobs[p] == Advance(s.jobs[p], 1)
      && StatusOf(s'.tracker, Current(s.jobs[p]), p).Committed?
  {
    SetStatusAt(s.tracker, Current(s.jobs[p]), p, Committed);
  }

  /** The job committed all its chunks from the `k`-th on, and nothing else happened. */
  ghost predicate ReadAll(s: State, s': State, p: Peer, k: nat) {
    OneJob(s, s', p) && s'.jobs[p].stage.Done? && Keeps(s, s') && CommittedFrom(s', p, s.jobs[p].chunks, k)
  }

  lemma ReadThenAll(s: State, s1: State, s': State, p: Peer)
    requires p in s.jobs && s.jobs[p].pos < |s.jobs[p].chunks|
    requires OneJob(s, s1, p) && Keeps(s, s1) && StatusOf(s1.tracker, Current(s.jobs[p]), p).Committed?
    requires s1.jobs[p] == Advance(s.jobs[p], 1)
    requires if s.jobs[p].pos + 1 < |s.jobs[p].chunks| then ReadAll(s1, s', p, s.jobs[p].pos + 1) else s' == s1
    ensures ReadAll(s, s', p, s.jobs[p].pos)
  {}

  lemma {:induction false} ReadOn(cfg: Config, s: State, p: Peer) returns (es: seq<Event>)
    requires cfg.maxRetries < 1 && p in s.jobs && s.jobs[p].stage.Reading? && s.jobs[p].pos < |s.jobs[p].chunks|
    ensures Feasible(cfg, s, es) && ReadAll(s, After(cfg, s, es), p, s.jobs[p].pos)
    decreases |s.jobs[p].chunks| - s.jobs[p].pos
  {
    var j, s1 := s.jobs[p], Step(cfg, s, Read(p, true));
    ReadStep(cfg, s, p);
    var rest := [];
    if j.pos + 1 < |j.chunks| {
      rest := ReadOn(cfg, s1, p);
    }
    ReadThenAll(s, s1, After(cfg, s1, rest), p);
    RunCons(cfg, s, Read(p, true), rest);
    es := [Read(p, true)] + rest;
  }

  lemma {:induction false} FreshStream(used: set<nat>) returns (w: nat)
    ensures forall v :: v in used ==> v < w
  {
    if used == {} {
      w := 0;
    } else {
      var v :| v in used;
      var u := FreshStream(used - {v});
      w := if v < u then u else v + 1;
      assert forall x :: x in used ==> x == v || x in used - {v};
    }
  }

  function ManifestFor(cfg: Config, chunks: seq<ChunkId>, w: nat): H.Event {
    H.PushManifest(w, cfg.content, chunks, [], Some(H.Manifest(cfg.content, cfg.ids)))
  }

  /** The provider accepts the publisher's stream. */
  lemma AcceptStream(cfg: Config, s: State, p: Peer, w: nat)
    requires p in s.jobs && p in s.net && w !in s.net[p].streams && Willing(cfg, p)
    ensures
      var accept := Net(p, H.Accept(w, cfg.publisher));
      && Enabled(cfg, s, accept)
      && var s' := Step(cfg, s, accept);
         && OneJob(s, s', p) && s'.jobs == s.jobs && s'.tracker == s.tracker
         && s'.net[p].streams == s.net[p].streams[w := H.Ready]
  {}

  /** Then it answers the manifest of the batch. */
  lemma AnswerManifest(cfg: Config, s: State, p: Peer, w: nat)
    requires p in s.jobs && p in s.net && s.jobs[p].stage.Announcing? && s.jobs[p].stream == w && Willing(cfg, p)
    requires w in s.net[p].streams && s.net[p].streams[w] == H.Ready
    ensures
      var manifest := Net(p, ManifestFor(cfg, s.jobs[p].chunks, w));
      && Enabled(cfg, s, manifest)
      && var s' := Step(cfg, s, manifest);
         OneJob(s, s', p) && s'.jobs == s.jobs && s'.tracker == s.tracker && Enabled(cfg, s', Announced(p, true))
  {
    var s' := Step(cfg, s, Net(p, ManifestFor(cfg, s.jobs[p].chunks, w)));
    assert s'.net[p].acks[|s.net[p].acks|] == (w, H.ManifestAck(cfg.content, H.OK));
  }

  /** From a fresh stream to the first chunk. */
  lemma Announce(cfg: Config, s: State, p: Peer) returns (es: seq<Event>)
    requires p in s.jobs && p in s.net && s.jobs[p].stage.Announcing? && Willing(cfg, p)
    requires s.jobs[p].stream !in s.net[p].streams
    ensures Feasible(cfg, s, es)
    ensures
      var s' := After(cfg, s, es);
      OneJob(s, s', p) && s'.tracker == s.tracker && s'.jobs[p] == s.jobs[p].(stage := Reading)
  {
    var w := s.jobs[p].stream;
    var accept, manifest := Net(p, H.Accept(w, cfg.publisher)), Net(p, ManifestFor(cfg, s.jobs[p].chunks, w));
    AcceptStream(cfg, s, p, w);
    var s1 := Step(cfg, s, accept);
    AnswerManifest(cfg, s1, p, w);
    var s2 := Step(cfg, s1, manifest);
    RunCons(cfg, s2, Announced(p, true), []);
    RunCons(cfg, s1, manifest, [Announced(p, true)] + []);
    RunCons(cfg, s, accept, [manifest] + ([Announced(p, true)] + []));
    es := [accept] + ([manifest] + ([Announced(p, true)] + []));
  }

  /** A job at a willing provider can run to its end without sending anything. */
  lemma RunWilling(cfg: Config, s: State, p: Peer) returns (es: seq<Event>)
    requires cfg.maxRetries < 1 && p in s.jobs && GoodJob(s, p, s.jobs[p]) && s.jobs[p].stage.Connecting?
    requires Willing(cfg, p)
    ensures Feasible(cfg, s, es)
    ensures
      var s' := After(cfg, s, es);
      && OneJob(s, s', p) && s'.jobs[p].stage.Done? && Keeps(s, s') && CommittedFrom(s', p, s.jobs[p].chunks, 0)
  {
    var w := FreshStream(s.net[p].streams.Keys);
    var s1 := Step(cfg, s, Connected(p, w, true));
    var announce := Announce(cfg, s1, p);
    var rest := ReadOn(cfg, After(cfg, s1, announce), p);
    RunConcat(cfg, s1, announce, rest);
    RunCons(cfg, s, Connected(p, w, true), announce + rest);
    es := [Connected(p, w, true)] + (announce + rest);
  }

  /** At any other provider the connection may fail. */
  lemma RunRefused(cfg: Config, s: State, p: Peer) returns (es: seq<Event>)
    requires Inv(cfg, s) && s.result.None? && p in s.jobs && s.jobs[p].stage.Connecting?
    ensures Feasible(cfg, s, es)
    ensures
      var s' := After(cfg, s, es);
      OneJob(s, s', p) && s'.jobs[p].stage.Done? && Keeps(s, s')
  {
    var refuse := Connected(p, 0, false);
    CheckpointInv(cfg, s, p, false, s.jobs[p].(stage := Announcing));
    RunCons(cfg, s, refuse, []);
    es := [refuse] + [];
  }

  ghost predicate Waiting(s: State, todo: set<Peer>) {
    forall p :: p in s.jobs ==> if p in todo then s.jobs[p].stage.Connecting? else s.jobs[p].stage.Done?
  }

  /** All jobs are done; those of willing providers committed all their chunks. */
  ghost predicate AllRan(cfg: Config, s: State, s': State, todo: set<Peer>) {
    && s'.result == s.result && s'.round == s.round && s'.active == s.active && SameStores(s, s') && Keeps(s, s')
    && (forall p :: p in s'.jobs ==> s'.jobs[p].stage.Done?)
    && (forall p :: p in todo && p in s.jobs && Willing(cfg, p) ==> CommittedFrom(s', p, s.jobs[p].chunks, 0))
  }

  lemma RunOne(cfg: Config, s: State, p: Peer) returns (es: seq<Event>)
    requires cfg.maxRetries < 1 && Inv(cfg, s) && p in s.jobs && s.jobs[p].stage.Connecting?
    requires s.result.None? && Distinct(cfg.ids)
    ensures Feasible(cfg, s, es)
    ensures
      var s' := After(cfg, s, es);
      && OneJob(s, s', p) && s'.jobs[p].stage.Done? && Keeps(s, s')
      && (Willing(cfg, p) ==> CommittedFrom(s', p, s.jobs[p].chunks, 0))
  {
    if Willing(cfg, p) {
      assert GoodJob(s, p, s.jobs[p]);
      es := RunWilling(cfg, s, p);
    } else {
      es := RunRefused(cfg, s, p);
    }
  }

  lemma {:induction false} RunJobs(cfg: Config, s: State, todo: set<Peer>) returns (es: seq<Event>)
    requires cfg.maxRetries < 1 && Inv(cfg, s) && Distinct(cfg.ids) && s.result.None?
    requires Waiting(s, todo) && todo <= s.jobs.Keys
    ensures Feasible(cfg, s, es) && AllRan(cfg, s, After(cfg, s, es), todo)
    decreases |todo|
  {
    if todo == {} {
      es := [];
    } else {
      var p :| p in todo;
      var first := RunOne(cfg, s, p);
      var mid := After(cfg, s, first);
      InvRun(cfg, s, first);
      var rest := RunJobs(cfg, mid, todo - {p});
      RunConcat(cfg, s, first, rest);
      es := first + rest;
      JoinRuns(cfg, s, mid, After(cfg, mid, rest), p, todo);
    }
  }

  lemma JoinRuns(cfg: Config, s: State, mid: State, s': State, p: Peer, todo: set<Peer>)
    requires p in todo && OneJob(s, mid, p) && Keeps(s, mid) && AllRan(cfg, mid, s', todo - {p})
    requires Willing(cfg, p) ==> CommittedFrom(mid, p, s.jobs[p].chunks, 0)
    ensures AllRan(cfg, s, s', todo)
  {
    forall q | q in todo && q in s.jobs && Willing(cfg, q)
      ensures CommittedFrom(s', q, s.jobs[q].chunks, 0)
    {
      if q != p {
        assert CommittedFrom(s', q, mid.jobs[q].chunks, 0);
      }
    }
  }

  // -------------------------------------------------------------- first round

  lemma RanCommits(cfg: Config, s: State, s': State, p: Peer, c: ChunkId)
    requires AllRan(cfg, s, s', s.jobs.Keys) && p in s.jobs && Willing(cfg, p) && c in s.jobs[p].chunks
    ensures StatusOf(s'.tracker, c, p).Committed?
  {
    assert CommittedFrom(s', p, s.jobs[p].chunks, 0);
    var k :| 0 <= k < |s.jobs[p].chunks| && s.jobs[p].chunks[k] == c;
  }

  /** Every provider the plan assigns to a chunk has a job that lists the chunk. */
  lemma AssignedHasJob(cfg: Config, providers: seq<Peer>, plan: Planner.Plan, s: State, i: nat, p: Peer)
    requires Begins(cfg, providers, plan, s) && i < |cfg.ids| && p in Planner.Ring(providers, i, cfg.replication)
    ensures p in s.jobs && cfg.ids[i] in s.jobs[p].chunks
  {
    Planner.AssignedIsListed(cfg.ids, providers, cfg.replication, plan, i, p);
  }

  lemma FirstRound(cfg: Config, providers: seq<Peer>, plan: Planner.Plan, s: State, s': State, i: nat, p: Peer)
    requires Begins(cfg, providers, plan, s) && AllRan(cfg, s, s', s.jobs.Keys) && i < |cfg.ids|
    requires p in Planner.Ring(providers, i, cfg.replication) && Willing(cfg, p)
    ensures p in CommittedPeers(s'.tracker, cfg.ids[i])
  {
    AssignedHasJob(cfg, providers, plan, s, i, p);
    RanCommits(cfg, s, s', p, cfg.ids[i]);
  }

  /** Without failover, all planned providers are willing, so the first round completes. */
  lemma FirstRoundCompletes(cfg: Config, providers: seq<Peer>, plan: Planner.Plan, s: State, s': State, i: nat)
    requires Begins(cfg, providers, plan, s) && AllRan(cfg, s, s', s.jobs.Keys) && i < |cfg.ids|
    requires cfg.failoverRounds < 1 && Completable(cfg, s.active, Planner.Ring(providers, i, cfg.replication))
    ensures |CommittedPeers(s'.tracker, cfg.ids[i])| >= cfg.replication
  {
    var ring := Planner.Ring(providers, i, cfg.replication);
    forall p | p in ring
      ensures p in CommittedPeers(s'.tracker, cfg.ids[i])
    {
      FirstRound(cfg, providers, plan, s, s', i, p);
    }
    Planner.RingDistinct(providers, i, cfg.replication);
    Counting.DistinctSize(ring);
    Counting.SubsetSize((set p | p in ring), CommittedPeers(s'.tracker, cfg.ids[i]));
  }

  lemma NoGap(cfg: Config, providers: seq<Peer>, plan: Planner.Plan, s: State, s': State, i: nat)
    requires Begins(cfg, providers, plan, s) && AllRan(cfg, s, s', s.jobs.Keys) && i < |cfg.ids|
    requires cfg.failoverRounds >= 1 && Completable(cfg, s.active, Planner.Ring(providers, i, cfg.replication))
    ensures Gap(cfg, s'.tracker, cfg.ids[i], s.active) <= 0
  {
    var ring, leaders := Planner.Ring(providers, i, cfg.replication), Leaders(cfg, s.active);
    forall p | p in Stragglers(cfg, s.active, ring)
      ensures p in CommittedPeers(s'.tracker, cfg.ids[i]) - leaders
    {
      FirstRound(cfg, providers, plan, s, s', i, p);
    }
    Counting.SubsetSize(Stragglers(cfg, s.active, ring), CommittedPeers(s'.tracker, cfg.ids[i]) - leaders);
  }

  // ------------------------------------------------------------- second round

  /** Without a gap the leaders fill up what is missing. */
  lemma {:induction false} LeadersAreChosen(cfg: Config, t: Tracker, c: ChunkId, active: seq<Peer>)
    requires Distinct(active) && Calm(cfg, t, c) && Gap(cfg, t, c, active) <= 0
    requires |CommittedPeers(t, c)| < cfg.replication
    ensures
      var needed := cfg.replication - |CommittedPeers(t, c)|;
      var head := Candidates(t, c, active[..Lead(cfg, active)]);
      needed <= |head| && Chosen(t, c, active, needed) == head[..needed]
  {
    var n, needed := Lead(cfg, active), cfg.replication - |CommittedPeers(t, c)|;
    NeededBeyond(cfg, t, c, active);
    ChosenIsPrefix(t, c, active, needed);
    CandidatesConcat(t, c, active[..n], active[n..]);
    assert active == active[..n] + active[n..];
  }

  lemma {:induction false} ChosenIsLeader(cfg: Config, t: Tracker, c: ChunkId, active: seq<Peer>, p: Peer)
    requires Distinct(active) && Calm(cfg, t, c) && Gap(cfg, t, c, active) <= 0
    requires p in Chosen(t, c, active, cfg.replication - |CommittedPeers(t, c)|)
    ensures Willing(cfg, p) && p !in CommittedPeers(t, c)
  {
    var n := Lead(cfg, active);
    if |CommittedPeers(t, c)| < cfg.replication {
      LeadersAreChosen(cfg, t, c, active);
      CandidatesMember(t, c, active[..n], p);
      var k :| 0 <= k < n && active[k] == p;
      LeadersAreWilling(cfg, active, k);
    } else {
      ChosenIsPrefix(t, c, active, cfg.replication - |CommittedPeers(t, c)|);
    }
  }

  ghost predicate AllChosenIn(cfg: Config, t: Tracker, c: ChunkId, active: seq<Peer>, done: set<Peer>) {
    forall p :: p in Chosen(t, c, active, cfg.replication - |CommittedPeers(t, c)|) ==> p in done
  }

  lemma {:induction false} EnoughChosen(cfg: Config, t: Tracker, c: ChunkId, active: seq<Peer>, done: set<Peer>)
    requires Distinct(active) && Calm(cfg, t, c) && Gap(cfg, t, c, active) <= 0
    requires CommittedPeers(t, c) <= done
    requires AllChosenIn(cfg, t, c, active, done)
    ensures |done| >= cfg.replication
  {
    var committed, needed := CommittedPeers(t, c), cfg.replication - |CommittedPeers(t, c)|;
    var chosen := Chosen(t, c, active, needed);
    if needed > 0 {
      LeadersAreChosen(cfg, t, c, active);
      ChosenFacts(t, c, active, needed);
      Counting.DistinctSize(chosen);
      assert committed !! (set p | p in chosen);
      Counting.SubsetSize(committed + (set p | p in chosen), done);
    } else {
      Counting.SubsetSize(committed, done);
    }
  }

  /** Nothing is being sent, and the leaders can fill up every chunk. */
  ghost predicate Fillable(cfg: Config, t: Tracker, c: ChunkId, active: seq<Peer>) {
    Calm(cfg, t, c) && Gap(cfg, t, c, active) <= 0
  }

  ghost predicate AllFillable(cfg: Config, t: Tracker, active: seq<Peer>) {
    && Distinct(cfg.ids) && Distinct(active)
    && forall i :: 0 <= i < |cfg.ids| ==> Fillable(cfg, t, cfg.ids[i], active)
  }

  /** The first round is over, and another one may follow. */
  ghost predicate Recoverable(cfg: Config, s: State) {
    Inv(cfg, s) && AllFillable(cfg, s.tracker, s.active) && Enabled(cfg, s, Barrier) && s.round < cfg.failoverRounds
  }

  lemma {:induction false} ChosenHasJob(cfg: Config, t: Tracker, active: seq<Peer>, i: nat, p: Peer)
    requires Distinct(cfg.ids) && Distinct(active) && i < |cfg.ids|
    requires p in Chosen(t, cfg.ids[i], active, cfg.replication - |CommittedPeers(t, cfg.ids[i])|)
    ensures
      var batch := Reassign(t, cfg.ids, active, cfg.replication, |cfg.ids|).batch;
      p in batch && p in Launch(batch) && cfg.ids[i] in Launch(batch)[p].chunks
  {
    OfferedIsChosen(t, cfg.ids, active, cfg.replication, i, p);
    ListedHasJob(Reassign(t, cfg.ids, active, cfg.replication, |cfg.ids|).batch, cfg.ids[i], p);
  }

  lemma ListedHasJob(b: Batch, c: ChunkId, p: Peer)
    requires c in Listed(b, p)
    ensures p in b && p in Launch(b) && c in Launch(b)[p].chunks
  {}

  /** So it is not given up for lack of providers. */
  lemma {:induction false} SomeoneIsAsked(cfg: Config, t: Tracker, active: seq<Peer>, i: nat)
    requires Distinct(cfg.ids) && Distinct(active) && i < |cfg.ids| && Fillable(cfg, t, cfg.ids[i], active)
    requires |CommittedPeers(t, cfg.ids[i])| < cfg.replication
    ensures Reassign(t, cfg.ids, active, cfg.replication, |cfg.ids|).batch != map[]
  {
    LeadersAreChosen(cfg, t, cfg.ids[i], active);
    var p := Chosen(t, cfg.ids[i], active, cfg.replication - |CommittedPeers(t, cfg.ids[i])|)[0];
    ChosenHasJob(cfg, t, active, i, p);
  }

  lemma RelaunchesIfIncomplete(cfg: Config, s: State)
    requires AllFillable(cfg, s.tracker, s.active) && Enabled(cfg, s, Barrier) && s.round < cfg.failoverRounds
    requires !IsComplete(s.tracker, cfg.ids, cfg.replication)
    ensures Step(cfg, s, Barrier).result.None?
  {
    var i :| 0 <= i < |cfg.ids| && |CommittedPeers(s.tracker, cfg.ids[i])| < cfg.replication;
    SomeoneIsAsked(cfg, s.tracker, s.active, i);
  }

  ghost predicate FailoverJobs(cfg: Config, t: Tracker, active: seq<Peer>, jobs: map<Peer, Job>) {
    jobs == Launch(Reassign(t, cfg.ids, active, cfg.replication, |cfg.ids|).batch)
  }

  /** A chosen provider is willing, so its job commits the chunk. */
  lemma {:induction false} ChosenCommits(
      cfg: Config, t: Tracker, active: seq<Peer>, s1: State, s2: State, i: nat, p: Peer)
    requires Distinct(cfg.ids) && Distinct(active) && i < |cfg.ids| && Fillable(cfg, t, cfg.ids[i], active)
    requires FailoverJobs(cfg, t, active, s1.jobs)
    requires AllRan(cfg, s1, s2, s1.jobs.Keys)
    requires p in Chosen(t, cfg.ids[i], active, cfg.replication - |CommittedPeers(t, cfg.ids[i])|)
    ensures p in CommittedPeers(s2.tracker, cfg.ids[i])
  {
    ChosenIsLeader(cfg, t, cfg.ids[i], active, p);
    ChosenHasJob(cfg, t, active, i, p);
    RanCommits(cfg, s1, s2, p, cfg.ids[i]);
  }

  lemma {:induction false} AllChosenCommit(cfg: Config, t: Tracker, active: seq<Peer>, s1: State, s2: State, i: nat)
    requires Distinct(cfg.ids) && Distinct(active) && i < |cfg.ids| && Fillable(cfg, t, cfg.ids[i], active)
    requires FailoverJobs(cfg, t, active, s1.jobs)
    requires AllRan(cfg, s1, s2, s1.jobs.Keys)
    ensures AllChosenIn(cfg, t, cfg.ids[i], active, CommittedPeers(s2.tracker, cfg.ids[i]))
  {
    forall p | p in Chosen(t, cfg.ids[i], active, cfg.replication - |CommittedPeers(t, cfg.ids[i])|)
      ensures p in CommittedPeers(s2.tracker, cfg.ids[i])
    {
      ChosenCommits(cfg, t, active, s1, s2, i, p);
    }
  }

  lemma {:induction false} SecondRoundChunk(cfg: Config, t: Tracker, active: seq<Peer>, s1: State, s2: State, i: nat)
    requires Distinct(cfg.ids) && Distinct(active) && i < |cfg.ids| && Fillable(cfg, t, cfg.ids[i], active)
    requires FailoverJobs(cfg, t, active, s1.jobs)
    requires AllRan(cfg, s1, s2, s1.jobs.Keys)
    requires CommittedPeers(t, cfg.ids[i]) <= CommittedPeers(s2.tracker, cfg.ids[i])
    ensures |CommittedPeers(s2.tracker, cfg.ids[i])| >= cfg.replication
  {
    AllChosenCommit(cfg, t, active, s1, s2, i);
    EnoughChosen(cfg, t, cfg.ids[i], active, CommittedPeers(s2.tracker, cfg.ids[i]));
  }

  lemma SecondRound(cfg: Config, s: State, s1: State, s2: State)
    requires Recoverable(cfg, s) && s1 == Step(cfg, s, Barrier) && s1.result.None?
    requires AllRan(cfg, s1, s2, s1.jobs.Keys)
    ensures IsComplete(s2.tracker, cfg.ids, cfg.replication)
  {
    BarrierInv(cfg, s);
    BarrierRelaunches(cfg, s);
    forall i | 0 <= i < |cfg.ids|
      ensures |CommittedPeers(s2.tracker, cfg.ids[i])| >= cfg.replication
    {
      SecondRoundChunk(cfg, s.tracker, s.active, s1, s2, i);
    }
  }

  lemma Recover(cfg: Config, s: State) returns (es: seq<Event>)
    requires Recoverable(cfg, s) && cfg.maxRetries < 1 && !IsComplete(s.tracker, cfg.ids, cfg.replication)
    ensures Feasible(cfg, s, es) && After(cfg, s, es).result == Some(true) && SameStores(s, After(cfg, s, es))
  {
    RelaunchesIfIncomplete(cfg, s);
    BarrierRelaunches(cfg, s);
    BarrierInv(cfg, s);
    NetOnlyByNet(cfg, s, Barrier);
    var s1 := Step(cfg, s, Barrier);
    var run := RunJobs(cfg, s1, s1.jobs.Keys);
    var s2 := After(cfg, s1, run);
    SecondRound(cfg, s, s1, s2);
    var rest := Conclude(cfg, s1, run);
    RunCons(cfg, s, Barrier, rest);
    es := [Barrier] + rest;
  }

  /** A finished round with every chunk complete ends the run with nil. */
  lemma Conclude(cfg: Config, s: State, run: seq<Event>) returns (es: seq<Event>)
    requires Feasible(cfg, s, run) && SameStores(s, After(cfg, s, run)) && Enabled(cfg, After(cfg, s, run), Barrier)
    requires IsComplete(After(cfg, s, run).tracker, cfg.ids, cfg.replication)
    ensures Feasible(cfg, s, es) && After(cfg, s, es).result == Some(true) && SameStores(s, After(cfg, s, es))
  {
    RunCons(cfg, After(cfg, s, run), Barrier, []);
    RunConcat(cfg, s, run, [Barrier] + []);
    es := run + ([Barrier] + []);
  }

  // -------------------------------------------------------------------- result

  lemma BecomesRecoverable(cfg: Config, providers: seq<Peer>, plan: Planner.Plan, s: State, run: seq<Event>)
    requires Begins(cfg, providers, plan, s) && Feasible(cfg, s, run) && cfg.failoverRounds >= 1
    requires AllRan(cfg, s, After(cfg, s, run), s.jobs.Keys)
    requires forall i :: 0 <= i < |cfg.ids| ==> Completable(cfg, s.active, Planner.Ring(providers, i, cfg.replication))
    ensures Recoverable(cfg, After(cfg, s, run))
  {
    var s' := After(cfg, s, run);
    StartInv(cfg, providers, plan, s);
    InvRun(cfg, s, run);
    StartWilling(cfg, providers, plan, s);
    WillingRun(cfg, s, run);
    forall i | 0 <= i < |cfg.ids|
      ensures Fillable(cfg, s'.tracker, cfg.ids[i], s'.active)
    {
      BarrierIsCalm(cfg, s', cfg.ids[i]);
      NoGap(cfg, providers, plan, s, s', i);
    }
  }

  lemma {:induction false} WillingRun(cfg: Config, s: State, es: seq<Event>)
    requires Inv(cfg, s) && WillingInv(cfg, s) && Distinct(cfg.ids) && Feasible(cfg, s, es)
    ensures WillingInv(cfg, After(cfg, s, es))
    decreases |es|
  {
    if es != [] {
      InvStep(cfg, s, es[0]);
      WillingStep(cfg, s, es[0]);
      WillingRun(cfg, Step(cfg, s, es[0]), es[1..]);
    }
  }

  /** If every chunk is completable, a run in which every announcement goes through and
      no chunk is sent returns nil and leaves every provider's store as it was. */
  lemma UnsentReturnsNil(cfg: Config, providers: seq<Peer>, plan: Planner.Plan, s: State) returns (es: seq<Event>)
    requires Begins(cfg, providers, plan, s) && cfg.maxRetries < 1
    requires forall i :: 0 <= i < |cfg.ids| ==> Completable(cfg, s.active, Planner.Ring(providers, i, cfg.replication))
    ensures Feasible(cfg, s, es) && After(cfg, s, es).result == Some(true) && SameStores(s, After(cfg, s, es))
  {
    StartInv(cfg, providers, plan, s);
    StartWaits(cfg, providers, plan, s);
    var run := RunJobs(cfg, s, s.jobs.Keys);
    var s1 := After(cfg, s, run);
    if cfg.failoverRounds < 1 {
      forall i | 0 <= i < |cfg.ids|
        ensures |CommittedPeers(s1.tracker, cfg.ids[i])| >= cfg.replication
      {
        FirstRoundCompletes(cfg, providers, plan, s, s1, i);
      }
    }
    if IsComplete(s1.tracker, cfg.ids, cfg.replication) {
      es := Conclude(cfg, s, run);
    } else {
      BecomesRecoverable(cfg, providers, plan, s, run);
      var more := Recover(cfg, s1);
      RunConcat(cfg, s, run, more);
      es := run + more;
    }
  }

  lemma StartWaits(cfg: Config, providers: seq<Peer>, plan: Planner.Plan, s: State)
    requires Begins(cfg, providers, plan, s)
    ensures Waiting(s, s.jobs.Keys)
  {
    forall p | p in s.jobs
      ensures s.jobs[p].stage.Connecting?
    {
      StartJob(cfg, providers, plan, s, p);
    }
  }
}
