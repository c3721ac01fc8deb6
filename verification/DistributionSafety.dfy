/** Why a nil return from a distribution means that every chunk really is replicated. */
module DistributionSafety {
  import opened Options
  import opened Distribution
  import opened FailoverRounds
  import opened Shared
  import H = PushHandler

  // ------------------------------------------------------------- invariant

  ghost predicate GoodJob(s: State, p: Peer, j: Job) {
    && p in s.net
    && j.chunks != [] && j.pos <= |j.chunks|
    && Distinct(j.chunks)
    && (j.stage.Connecting? || j.stage.Announcing? ==> j.pos == 0)
    && (j.stage.Reading? || j.stage.Sending? ==> j.pos < |j.chunks|)
    && (!j.stage.Done? ==> forall k :: j.pos <= k < |j.chunks| ==> !StatusOf(s.tracker, j.chunks[k], p).Committed?)
  }

  /** A pair is only marked Uploading while its job is sending exactly that chunk. */
  ghost predicate UploadingInJob(s: State, c: ChunkId, p: Peer) {
    StatusOf(s.tracker, c, p).Uploading? ==>
      && p in s.jobs && s.jobs[p].stage.Sending?
      && s.jobs[p].pos < |s.jobs[p].chunks| && s.jobs[p].chunks[s.jobs[p].pos] == c
  }

  /** A pair marked Committed is stored at that provider. */
  ghost predicate CommittedStored(s: State, c: ChunkId, p: Peer) {
    StatusOf(s.tracker, c, p).Committed? ==> p in s.net && c in s.net[p].store
  }

  ghost predicate Inv(cfg: Config, s: State) {
    && (forall p :: p in s.net ==> p in cfg.handlers && H.Inv(cfg.handlers[p], s.net[p]))
    && (forall p :: p in s.active ==> p in s.net)
    && Distinct(s.active)
    && (forall p :: p in s.jobs ==> GoodJob(s, p, s.jobs[p]))
    && (forall c, p :: UploadingInJob(s, c, p))
    && (s.result.Some? ==> forall p :: p in s.jobs ==> s.jobs[p].stage.Done?)
    && (s.result == Some(true) ==> IsComplete(s.tracker, cfg.ids, cfg.replication))
  }

  /** What needs an attempt per chunk: Committed means stored. */
  ghost predicate Stored(s: State) {
    forall c, p :: CommittedStored(s, c, p)
  }

  ghost predicate Keeps(s: State, s': State) {
    forall c, p :: StatusOf(s.tracker, c, p).Committed? ==> StatusOf(s'.tracker, c, p).Committed?
  }

  // ----------------------------------------------------- steps of one job

  /** A job step touches only its own job and its own provider's statuses. */
  ghost predicate Local(s: State, s': State, p: Peer) {
    && s'.net == s.net && s'.active == s.active && s'.round == s.round && s'.result == s.result
    && p in s.jobs && p in s'.jobs
    && (forall q :: q != p ==> (q in s'.jobs <==> q in s.jobs))
    && (forall q :: q != p && q in s.jobs ==> s'.jobs[q] == s.jobs[q])
    && (forall c, q :: q != p ==> StatusOf(s'.tracker, c, q) == StatusOf(s.tracker, c, q))
  }

  lemma LocalInv(cfg: Config, s: State, s': State, p: Peer)
    requires Inv(cfg, s) && Local(s, s', p) && s.result.None?
    requires GoodJob(s', p, s'.jobs[p])
    requires forall c :: UploadingInJob(s', c, p)
    ensures Inv(cfg, s')
  {
    forall q | q in s'.jobs
      ensures GoodJob(s', q, s'.jobs[q])
    {
      if q != p {
        assert GoodJob(s, q, s.jobs[q]);
      }
    }
    forall c, q
      ensures UploadingInJob(s', c, q)
    {
      assert UploadingInJob(s, c, q);
    }
  }

  lemma CheckpointInv(cfg: Config, s: State, p: Peer, ok: bool, next: Job)
    requires Inv(cfg, s) && s.result.None? && p in s.jobs
    requires next.chunks == s.jobs[p].chunks && next.pos == s.jobs[p].pos
    requires (s.jobs[p].stage.Connecting? && next.stage.Announcing?)
      || (s.jobs[p].stage.Announcing? && next.stage.Reading?)
    ensures
      var s' := Checkpoint(s, p, ok, next);
      && Inv(cfg, s') && Keeps(s, s')
      && forall c, q :: StatusOf(s'.tracker, c, q).Committed? ==> StatusOf(s.tracker, c, q).Committed?
  {
    var s', j := Checkpoint(s, p, ok, next), s.jobs[p];
    assert GoodJob(s, p, j);
    forall c, q
      ensures
        StatusOf(s'.tracker, c, q) == if !ok && q == p && c in j.chunks then Failed else StatusOf(s.tracker, c, q)
      ensures UploadingInJob(s, c, q)
    {
      FailAllStatus(s.tracker, j.chunks, p, c, q);
    }
    LocalInv(cfg, s, s', p);
  }

  lemma MarkInv(cfg: Config, s: State, s': State, p: Peer, st: Status)
    requires Inv(cfg, s) && s.result.None? && p in s.jobs
    requires s.jobs[p].stage.Reading? || s.jobs[p].stage.Sending?
    requires s.jobs[p].pos < |s.jobs[p].chunks|
    requires
      var j := s.jobs[p];
      var c := Current(j);
      && s'.tracker == SetStatus(s.tracker, c, p, st)
      && s'.jobs.Keys == s.jobs.Keys
      && (forall q :: q != p && q in s.jobs ==> s'.jobs[q] == s.jobs[q])
      && (if st.Uploading? then s'.jobs[p] == j.(stage := Sending(1))
          else exists gained :: s'.jobs[p] == Advance(j, gained))
    requires s'.net == s.net && s'.active == s.active && s'.round == s.round && s'.result == s.result
    ensures Inv(cfg, s') && Keeps(s, s')
  {
    var j := s.jobs[p];
    SetStatusAt(s.tracker, Current(j), p, st);
    assert GoodJob(s, p, j);
    forall c
      ensures UploadingInJob(s', c, p)
    {
      assert UploadingInJob(s, c, p);
    }
    LocalInv(cfg, s, s', p);
  }

  lemma ReadInv(cfg: Config, s: State, p: Peer, ok: bool)
    requires Inv(cfg, s) && Enabled(cfg, s, Read(p, ok))
    ensures Inv(cfg, Step(cfg, s, Read(p, ok))) && Keeps(s, Step(cfg, s, Read(p, ok)))
  {
    MarkInv(cfg, s, Step(cfg, s, Read(p, ok)), p,
            if !ok then Failed else if cfg.maxRetries < 1 then Committed else Uploading);
  }

  lemma SentInv(cfg: Config, s: State, p: Peer, ok: bool)
    requires Inv(cfg, s) && Enabled(cfg, s, Sent(p, ok))
    ensures Inv(cfg, Step(cfg, s, Sent(p, ok))) && Keeps(s, Step(cfg, s, Sent(p, ok)))
  {
    var s', j := Step(cfg, s, Sent(p, ok)), s.jobs[p];
    if ok {
      MarkInv(cfg, s, s', p, Committed);
    } else if j.stage.attempt < cfg.maxRetries {
      assert GoodJob(s, p, j);
      forall c
        ensures UploadingInJob(s', c, p)
      {
        assert UploadingInJob(s, c, p);
      }
      LocalInv(cfg, s, s', p);
    } else {
      MarkInv(cfg, s, s', p, Failed);
    }
  }

  lemma NetInv(cfg: Config, s: State, p: Peer, e: H.Event)
    requires Inv(cfg, s) && Enabled(cfg, s, Net(p, e))
    ensures Inv(cfg, Step(cfg, s, Net(p, e))) && Keeps(s, Step(cfg, s, Net(p, e)))
  {
    var s' := Step(cfg, s, Net(p, e));
    H.InvStep(cfg.handlers[p], s.net[p], e);
    H.Monotone(cfg.handlers[p], s.net[p], e);
    forall q | q in s'.jobs
      ensures GoodJob(s', q, s'.jobs[q])
    {
      assert GoodJob(s, q, s.jobs[q]);
    }
    forall c, q
      ensures UploadingInJob(s', c, q)
    {
      assert UploadingInJob(s, c, q);
    }
  }

  // -------------------------------------------------------------- barriers

  /** At a round barrier nothing is marked Uploading. */
  lemma BarrierQuiet(cfg: Config, s: State, c: ChunkId, p: Peer)
    requires Inv(cfg, s) && Enabled(cfg, s, Barrier)
    ensures !StatusOf(s.tracker, c, p).Uploading?
  {
    assert UploadingInJob(s, c, p);
  }

  lemma RelaunchInv(cfg: Config, s: State, s': State)
    requires Inv(cfg, s) && Distinct(cfg.ids) && Enabled(cfg, s, Barrier)
    requires
      var f := Reassign(s.tracker, cfg.ids, s.active, cfg.replication, |cfg.ids|);
      s' == s.(tracker := f.tracker, jobs := Launch(f.batch), round := s.round + 1)
    ensures Inv(cfg, s') && Keeps(s, s') && Keeps(s', s)
  {
    forall c, p
      ensures StatusOf(s'.tracker, c, p).Committed? <==> StatusOf(s.tracker, c, p).Committed?
      ensures UploadingInJob(s', c, p)
    {
      ReassignStatus(s.tracker, cfg.ids, s.active, cfg.replication, |cfg.ids|, c, p);
      BarrierQuiet(cfg, s, c, p);
    }
    forall p | p in s'.jobs
      ensures GoodJob(s', p, s'.jobs[p])
    {
      var f := ReassignBatch(s.tracker, cfg.ids, s.active, cfg.replication, |cfg.ids|, p);
    }
  }

  lemma BarrierInv(cfg: Config, s: State)
    requires Inv(cfg, s) && Distinct(cfg.ids) && Enabled(cfg, s, Barrier)
    ensures
      var s' := Step(cfg, s, Barrier);
      Inv(cfg, s') && Keeps(s, s') && Keeps(s', s)
  {
    var s' := Step(cfg, s, Barrier);
    if s'.result.None? {
      RelaunchInv(cfg, s, s');
    } else {
      SettleInv(cfg, s, s'.result.value);
    }
  }

  lemma SettleInv(cfg: Config, s: State, ok: bool)
    requires Inv(cfg, s) && Enabled(cfg, s, Barrier) && (ok ==> IsComplete(s.tracker, cfg.ids, cfg.replication))
    ensures Inv(cfg, s.(result := Some(ok)))
  {
    var s' := s.(result := Some(ok));
    forall p | p in s'.jobs
      ensures GoodJob(s', p, s'.jobs[p])
    {
      assert GoodJob(s, p, s.jobs[p]);
    }
    forall c, p
      ensures UploadingInJob(s', c, p)
    {
      assert UploadingInJob(s, c, p);
    }
  }

  lemma InvStep(cfg: Config, s: State, e: Event)
    requires Inv(cfg, s) && Distinct(cfg.ids) && Enabled(cfg, s, e)
    ensures Inv(cfg, Step(cfg, s, e)) && Keeps(s, Step(cfg, s, e))
  {
    match e
    case Net(p, ev) => NetInv(cfg, s, p, ev);
    case Connected(p, w, ok) => CheckpointInv(cfg, s, p, ok, s.jobs[p].(stage := Announcing, stream := w));
    case Announced(p, ok) => CheckpointInv(cfg, s, p, ok, s.jobs[p].(stage := Reading));
    case Read(p, ok) => ReadInv(cfg, s, p, ok);
    case Sent(p, ok) => SentInv(cfg, s, p, ok);
    case Barrier => BarrierInv(cfg, s);
  }

  /** Whatever attempts and rounds are allowed: the tracker invariant holds after any
      sequence of steps, and no committed pair is ever unmarked. */
  lemma {:induction false} InvRun(cfg: Config, s: State, es: seq<Event>)
    requires Inv(cfg, s) && Distinct(cfg.ids) && Feasible(cfg, s, es)
    ensures Inv(cfg, After(cfg, s, es)) && Keeps(s, After(cfg, s, es))
    decreases |es|
  {
    if es != [] {
      InvStep(cfg, s, es[0]);
      InvRun(cfg, Step(cfg, s, es[0]), es[1..]);
    }
  }

  // ------------------------------------------------- what Committed stands for

  /** A pair becomes Committed only by its own job's current chunk: on an OK answer, or,
      with no attempt allowed, on reading it. */
  ghost predicate JustCommitted(cfg: Config, s: State, e: Event, c: ChunkId, p: Peer) {
    && p in s.jobs && s.jobs[p].pos < |s.jobs[p].chunks| && Current(s.jobs[p]) == c
    && ((e == Sent(p, true) && s.jobs[p].stage.Sending?)
        || (e == Read(p, true) && cfg.maxRetries < 1 && s.jobs[p].stage.Reading?))
  }

  lemma NewlyCommitted(cfg: Config, s: State, e: Event, c: ChunkId, p: Peer)
    requires Inv(cfg, s) && Distinct(cfg.ids) && Enabled(cfg, s, e)
    requires StatusOf(Step(cfg, s, e).tracker, c, p).Committed? && !StatusOf(s.tracker, c, p).Committed?
    ensures JustCommitted(cfg, s, e, c, p)
  {
    match e
    case Net(_, _) =>
    case Connected(q, w, ok) => CheckpointInv(cfg, s, q, ok, s.jobs[q].(stage := Announcing, stream := w));
    case Announced(q, ok) => CheckpointInv(cfg, s, q, ok, s.jobs[q].(stage := Reading));
    case Read(q, ok) => SetStatusAt(s.tracker, Current(s.jobs[q]), q,
                                    if !ok then Failed else if cfg.maxRetries < 1 then Committed else Uploading);
    case Sent(q, ok) => SetStatusAt(s.tracker, Current(s.jobs[q]), q, if ok then Committed else Failed);
    case Barrier => BarrierInv(cfg, s);
  }

  lemma StoredNet(cfg: Config, s: State, p: Peer, e: H.Event)
    requires Stored(s) && Enabled(cfg, s, Net(p, e))
    ensures Stored(Step(cfg, s, Net(p, e)))
  {
    H.Monotone(cfg.handlers[p], s.net[p], e);
    forall c, q
      ensures CommittedStored(Step(cfg, s, Net(p, e)), c, q)
    {
      assert CommittedStored(s, c, q);
    }
  }

  /** Publishers' own steps leave the providers alone. */
  lemma NetOnlyByNet(cfg: Config, s: State, e: Event)
    requires Enabled(cfg, s, e) && !e.Net?
    ensures Step(cfg, s, e).net == s.net
  {}

  lemma StoredStep(cfg: Config, s: State, e: Event)
    requires Inv(cfg, s) && Stored(s) && Distinct(cfg.ids) && cfg.maxRetries >= 1 && Enabled(cfg, s, e)
    ensures Stored(Step(cfg, s, e))
  {
    if e.Net? {
      StoredNet(cfg, s, e.p, e.e);
    } else {
      NetOnlyByNet(cfg, s, e);
      forall c, p
        ensures CommittedStored(Step(cfg, s, e), c, p)
      {
        assert CommittedStored(s, c, p);
        if StatusOf(Step(cfg, s, e).tracker, c, p).Committed? && !StatusOf(s.tracker, c, p).Committed? {
          NewlyCommitted(cfg, s, e, c, p);
          assert Answered(s.net[p], s.jobs[p].stream, H.ChunkAck(c, H.OK));
        }
      }
    }
  }

  /** With at least one attempt allowed, a Committed pair is stored at its provider. */
  lemma {:induction false} StoredRun(cfg: Config, s: State, es: seq<Event>)
    requires Inv(cfg, s) && Stored(s) && Distinct(cfg.ids) && cfg.maxRetries >= 1 && Feasible(cfg, s, es)
    ensures Stored(After(cfg, s, es))
    decreases |es|
  {
    if es != [] {
      InvStep(cfg, s, es[0]);
      StoredStep(cfg, s, es[0]);
      StoredRun(cfg, Step(cfg, s, es[0]), es[1..]);
    }
  }
}
