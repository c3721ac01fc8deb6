/** Publishing with replication: the uploads of one round run in parallel, one job per
    provider, against providers that run the push handler; a barrier ends the round and
    failover rounds follow until every chunk has enough committed replicas. */
module Distribution {
  import opened Options
  import opened Shared
  import H = PushHandler
  import Planner

  datatype Status = Pending | Uploading | Committed | Failed
  type Tracker = map<ChunkId, map<Peer, Status>>

  datatype Stage = Connecting | Announcing | Reading | Sending(attempt: nat) | Done

  /** `stream` is the job's own stream to its provider, once it is connected. */
  datatype Job = Job(chunks: seq<ChunkId>, pos: nat, stage: Stage, committed: nat, stream: nat)

  /** What is published, by whom, and how the providers' handlers are configured. */
  datatype Config = Config(
    publisher: Peer, content: H.ContentId, ids: seq<ChunkId>, replication: int, maxRetries: int,
    failoverRounds: int, handlers: map<Peer, H.Config>)

  /** `net` is what each provider's handler has come to; it also serves other publishers. */
  datatype State = State(
    tracker: Tracker, jobs: map<Peer, Job>, active: seq<Peer>, round: nat,
    result: Option<bool>, net: map<Peer, H.State>)

  datatype Event =
    | Net(p: Peer, e: H.Event)
    | Connected(p: Peer, stream: nat, ok: bool)
    | Announced(p: Peer, ok: bool)
    | Read(p: Peer, ok: bool)
    | Sent(p: Peer, ok: bool)
    | Barrier

  // -------------------------------------------------------------- tracker

  function StatusOf(t: Tracker, c: ChunkId, p: Peer): Status {
    if c in t && p in t[c] then t[c][p] else Pending
  }

  function SetStatus(t: Tracker, c: ChunkId, p: Peer, st: Status): Tracker {
    t[c := (if c in t then t[c] else map[])[p := st]]
  }

  /** Setting one status leaves all others alone. */
  lemma SetStatusAt(t: Tracker, c: ChunkId, p: Peer, st: Status)
    ensures StatusOf(SetStatus(t, c, p, st), c, p) == st
    ensures forall d, q :: (d, q) != (c, p) ==> StatusOf(SetStatus(t, c, p, st), d, q) == StatusOf(t, d, q)
  {}

  function CommittedPeers(t: Tracker, c: ChunkId): (ps: set<Peer>)
    ensures forall p :: p in ps <==> StatusOf(t, c, p).Committed?
  {
    if c in t then set p | p in t[c] && t[c][p].Committed? else {}
  }

  predicate IsComplete(t: Tracker, ids: seq<ChunkId>, r: int) {
    forall i :: 0 <= i < |ids| ==> |CommittedPeers(t, ids[i])| >= r
  }

  function FailAll(t: Tracker, chunks: seq<ChunkId>, p: Peer): Tracker {
    if chunks == [] then t else SetStatus(FailAll(t, chunks[..|chunks| - 1], p), chunks[|chunks| - 1], p, Failed)
  }

  lemma {:induction false} FailAllStatus(t: Tracker, chunks: seq<ChunkId>, p: Peer, c: ChunkId, q: Peer)
    ensures StatusOf(FailAll(t, chunks, p), c, q) == if q == p && c in chunks then Failed else StatusOf(t, c, q)
  {
    if chunks != [] {
      FailAllStatus(t, chunks[..|chunks| - 1], p, c, q);
      assert chunks == chunks[..|chunks| - 1] + [chunks[|chunks| - 1]];
    }
  }

  // ------------------------------------------------------------- failover

  /** The first `needed` providers that neither hold nor are receiving the chunk. */
  function Chosen(t: Tracker, c: ChunkId, active: seq<Peer>, needed: int): seq<Peer> {
    if active == [] || needed <= 0 then []
    else if StatusOf(t, c, active[0]).Committed? || StatusOf(t, c, active[0]).Uploading?
    then Chosen(t, c, active[1..], needed)
    else [active[0]] + Chosen(t, c, active[1..], needed - 1)
  }

  type Batch = map<Peer, seq<ChunkId>>

  function Listed(b: Batch, p: Peer): seq<ChunkId> {
    if p in b then b[p] else []
  }

  datatype Failover = Failover(tracker: Tracker, batch: Batch)

  function Assign(f: Failover, c: ChunkId, ps: seq<Peer>): Failover {
    if ps == [] then f
    else
      var g := Assign(f, c, ps[..|ps| - 1]);
      var p := ps[|ps| - 1];
      Failover(SetStatus(g.tracker, c, p, Pending), g.batch[p := Listed(g.batch, p) + [c]])
  }

  /** Give one chunk to as many further providers as it still needs. */
  function Spread(f: Failover, c: ChunkId, active: seq<Peer>, r: int): Failover {
    Assign(f, c, Chosen(f.tracker, c, active, r - |CommittedPeers(f.tracker, c)|))
  }

  /** Reassignments for the first `n` chunks. */
  function Reassign(t: Tracker, ids: seq<ChunkId>, active: seq<Peer>, r: int, n: nat): Failover
    requires n <= |ids|
  {
    if n == 0 then Failover(t, map[])
    else Spread(Reassign(t, ids, active, r, n - 1), ids[n - 1], active, r)
  }

  // ---------------------------------------------------------------- steps

  function Launch(b: Batch): map<Peer, Job> {
    map p | p in b && b[p] != [] :: Job(b[p], 0, Connecting, 0, 0)
  }

  function Start(cfg: Config, plan: Planner.Plan, active: seq<Peer>, net: map<Peer, H.State>): State {
    var tracker := map c | c in plan.assignments :: map p | p in plan.assignments[c] :: Pending;
    State(tracker, Launch(plan.providerChunks), active, 0, None, net)
  }

  /** The provider has written this answer to stream `w`. */
  predicate Answered(s: H.State, w: nat, a: H.Ack) {
    (w, a) in s.acks
  }

  predicate OnOwnStream(s: State, p: Peer, w: nat) {
    p in s.jobs && !s.jobs[p].stage.Connecting? && s.jobs[p].stream == w
  }

  /** A job's own stream carries only what the publisher sends for it. */
  predicate FromPublisher(cfg: Config, j: Job, e: H.Event) {
    match e
    case Accept(_, peer) => peer == cfg.publisher
    case PushManifest(_, content, listed, _, parsed) =>
      content == cfg.content && listed == j.chunks && parsed == Some(H.Manifest(cfg.content, cfg.ids))
    case PushChunk(_, content, chunk, _) => content == cfg.content && chunk in j.chunks
    case BatchComplete(_, content, _) => content == cfg.content
    case _ => true
  }

  ghost predicate Enabled(cfg: Config, s: State, e: Event) {
    match e
    case Net(p, ev) =>
      && p in s.net && p in cfg.handlers && H.Enabled(cfg.handlers[p], s.net[p], ev)
      && (OnOwnStream(s, p, ev.stream) ==> FromPublisher(cfg, s.jobs[p], ev))
    case Connected(p, w, ok) =>
      && p in s.jobs && s.jobs[p].stage.Connecting?
      && (ok ==> p in s.net && w !in s.net[p].streams)
    case Announced(p, ok) =>
      && p in s.jobs && s.jobs[p].stage.Announcing?
      && (ok ==> p in s.net && Answered(s.net[p], s.jobs[p].stream, H.ManifestAck(cfg.content, H.OK)))
    case Read(p, _) => p in s.jobs && s.jobs[p].stage.Reading? && s.jobs[p].pos < |s.jobs[p].chunks|
    case Sent(p, ok) =>
      && p in s.jobs && s.jobs[p].stage.Sending? && s.jobs[p].pos < |s.jobs[p].chunks|
      && (ok ==> p in s.net && Answered(s.net[p], s.jobs[p].stream, H.ChunkAck(Current(s.jobs[p]), H.OK)))
    case Barrier => s.result.None? && forall p :: p in s.jobs ==> s.jobs[p].stage.Done?
  }

  /** The chunk a job is at. */
  function Current(j: Job): ChunkId
    requires j.pos < |j.chunks|
  {
    j.chunks[j.pos]
  }

  /** Move on to the next chunk of the batch. */
  function Advance(j: Job, gained: nat): Job {
    j.(pos := j.pos + 1, stage := if j.pos + 1 == |j.chunks| then Done else Reading, committed := j.committed + gained)
  }

  ghost function Step(cfg: Config, s: State, e: Event): State
    requires Enabled(cfg, s, e)
  {
    match e
    case Net(p, ev) => s.(net := s.net[p := H.Step(cfg.handlers[p], s.net[p], ev)])
    case Connected(p, w, ok) => Checkpoint(s, p, ok, s.jobs[p].(stage := Announcing, stream := w))
    case Announced(p, ok) => Checkpoint(s, p, ok, s.jobs[p].(stage := Reading))
    case Read(p, ok) =>
      var j := s.jobs[p];
      var c := Current(j);
      if !ok then s.(tracker := SetStatus(s.tracker, c, p, Failed), jobs := s.jobs[p := Advance(j, 0)])
      else if cfg.maxRetries < 1 then
        s.(tracker := SetStatus(s.tracker, c, p, Committed), jobs := s.jobs[p := Advance(j, 1)])
      else s.(tracker := SetStatus(s.tracker, c, p, Uploading), jobs := s.jobs[p := j.(stage := Sending(1))])
    case Sent(p, ok) =>
      var j := s.jobs[p];
      var c := Current(j);
      if ok then s.(tracker := SetStatus(s.tracker, c, p, Committed), jobs := s.jobs[p := Advance(j, 1)])
      else if j.stage.attempt < cfg.maxRetries then s.(jobs := s.jobs[p := j.(stage := Sending(j.stage.attempt + 1))])
      else s.(tracker := SetStatus(s.tracker, c, p, Failed), jobs := s.jobs[p := Advance(j, 0)])
    case Barrier => EndRound(cfg, s)
  }

  /** Connecting or announcing either works or fails the whole batch. */
  function Checkpoint(s: State, p: Peer, ok: bool, next: Job): State
    requires p in s.jobs
  {
    var j := s.jobs[p];
    if ok then s.(jobs := s.jobs[p := next])
    else s.(tracker := FailAll(s.tracker, j.chunks, p), jobs := s.jobs[p := j.(stage := Done)])
  }

  function EndRound(cfg: Config, s: State): State {
    if IsComplete(s.tracker, cfg.ids, cfg.replication) then s.(result := Some(true))
    else if s.round >= cfg.failoverRounds then s.(result := Some(false))
    else
      var f := Reassign(s.tracker, cfg.ids, s.active, cfg.replication, |cfg.ids|);
      if f.batch == map[] then s.(result := Some(false))
      else s.(tracker := f.tracker, jobs := Launch(f.batch), round := s.round + 1)
  }

  ghost predicate Feasible(cfg: Config, s: State, es: seq<Event>)
    decreases |es|
  {
    es == [] || (Enabled(cfg, s, es[0]) && Feasible(cfg, Step(cfg, s, es[0]), es[1..]))
  }

  ghost function After(cfg: Config, s: State, es: seq<Event>): State
    requires Feasible(cfg, s, es)
    decreases |es|
  {
    if es == [] then s else After(cfg, Step(cfg, s, es[0]), es[1..])
  }
}
