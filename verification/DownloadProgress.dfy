/** Progress of a download outlives every crash: what was saved as done stays done and is
    never fetched again, and a download saved as completed is complete. */
module DownloadProgress {
  import opened Options
  import opened Download
  import opened Shared

  // ---------------------------------------------------------------- saved bits

  /** Bit `i` is set in the saved session. */
  predicate Saved(disk: Option<Session>, i: nat) {
    disk.Some? && i < |disk.value.done| && disk.value.done[i]
  }

  /** The running session has everything that is saved. */
  ghost predicate InSession(w: World, i: nat) {
    Saved(w.disk, i) ==>
      && (w.process.Scanning? ==> i < |w.process.sess.done| && w.process.sess.done[i])
      && (w.process.Running? ==> i < |w.process.sess.done| && w.process.sess.done[i])
  }

  lemma InSessionStep(job: Job, w: World, a: Action, i: nat)
    requires WorldInv(job, w) && InSession(w, i) && Enabled(job, w, a)
    ensures InSession(Step(job, w, a), i)
    ensures Saved(w.disk, i) ==> Saved(Step(job, w, a).disk, i)
  {}

  lemma {:induction false} InSessionRun(job: Job, w: World, acts: seq<Action>, i: nat)
    requires WorldInv(job, w) && InSession(w, i) && Feasible(job, w, acts)
    ensures InSession(After(job, w, acts), i)
    ensures Saved(w.disk, i) ==> Saved(After(job, w, acts).disk, i)
    decreases |acts|
  {
    if acts != [] {
      WorldStep(job, w, acts[0]);
      InSessionStep(job, w, acts[0], i);
      InSessionRun(job, Step(job, w, acts[0]), acts[1..], i);
    }
  }

  lemma ReachedInSession(job: Job, w: World, i: nat)
    requires Reached(job, w)
    ensures WorldInv(job, w) && InSession(w, i)
  {
    var store: set<ChunkId>, acts: seq<Action> :|
      Feasible(job, World(None, store, Idle), acts) && w == After(job, World(None, store, Idle), acts);
    InSessionRun(job, World(None, store, Idle), acts, i);
    ReachedInv(job, w);
  }

  /** After a completion whose save works, everything done so far is saved, that chunk
      included. */
  lemma CompletionIsSaved(job: Job, w: World)
    requires Reached(job, w) && Enabled(job, w, Progress(true))
    ensures
      var w', i := Step(job, w, Progress(true)), w.process.sched.completions[w.process.consumed].key.index;
      && Saved(w'.disk, i) && w'.process.Running?
      && forall j :: 0 <= j < |w'.process.sess.done| && w'.process.sess.done[j] ==> Saved(w'.disk, j)
  {
    ReachedInv(job, w);
  }

  // ------------------------------------------------------- what is fetched again

  /** No run of the scheduler has a task for chunk `i`. */
  ghost predicate Unscheduled(w: World, i: nat) {
    && (w.process.Scanning? ==> i < |w.process.sess.done| && w.process.sess.done[i])
    && (w.process.Running? ==> forall t :: t in w.process.config.tasks ==> t.key.index != i)
  }

  lemma UnscheduledStep(job: Job, w: World, a: Action, i: nat)
    requires WorldInv(job, w) && Saved(w.disk, i) && Unscheduled(w, i) && Enabled(job, w, a)
    ensures Unscheduled(Step(job, w, a), i)
  {}

  lemma {:induction false} UnscheduledRun(job: Job, w: World, acts: seq<Action>, i: nat)
    requires WorldInv(job, w) && InSession(w, i) && Saved(w.disk, i) && Unscheduled(w, i) && Feasible(job, w, acts)
    ensures Unscheduled(After(job, w, acts), i)
    decreases |acts|
  {
    if acts != [] {
      WorldStep(job, w, acts[0]);
      InSessionStep(job, w, acts[0], i);
      UnscheduledStep(job, w, acts[0], i);
      UnscheduledRun(job, Step(job, w, acts[0]), acts[1..], i);
    }
  }

  /** Once saved as done, a chunk stays saved as done through any run, crashes and resumes
      included; and no download that is started from then on schedules it. */
  lemma SavedProgressIsKept(job: Job, w: World, acts: seq<Action>, i: nat)
    requires Reached(job, w) && Saved(w.disk, i) && Feasible(job, w, acts)
    ensures Saved(After(job, w, acts).disk, i)
    ensures !w.process.Running? && After(job, w, acts).process.Running? ==>
      forall t :: t in After(job, w, acts).process.config.tasks ==> t.key.index != i
  {
    ReachedInSession(job, w, i);
    InSessionRun(job, w, acts, i);
    if !w.process.Running? {
      UnscheduledRun(job, w, acts, i);
    }
  }

  // ------------------------------------------------------------ the saved status

  ghost predicate AllStored(job: Job, w: World) {
    forall i :: 0 <= i < |job.ids| ==> job.ids[i] in w.store
  }

  ghost predicate StatusIsTrue(job: Job, w: World) {
    w.disk.Some? && w.disk.value.status.Completed? ==> AllStored(job, w)
  }

  lemma StoreGrows(job: Job, w: World, a: Action)
    requires WorldInv(job, w) && Enabled(job, w, a)
    ensures w.store <= Step(job, w, a).store
  {
    if a.Swarm? {
      CompletionsGrow(w.process.config, w.process.sched, a.e);
    }
  }

  /** Only a successful end is saved as completed. */
  lemma SavedAsCompleted(job: Job, w: World, a: Action)
    requires WorldInv(job, w) && Enabled(job, w, a)
    requires Step(job, w, a).disk.Some? && Step(job, w, a).disk.value.status.Completed?
    ensures Step(job, w, a).disk == w.disk || Step(job, w, a).process == Ended(true)
      || (w.process.Scanning? && w.process.sess.status.Completed?)
      || (w.process.Running? && w.process.sess.status.Completed?)
  {}

  ghost predicate OpenSessions(w: World) {
    && (w.process.Scanning? ==> w.process.sess.status.InProgress?)
    && (w.process.Running? ==> w.process.sess.status.InProgress?)
  }

  lemma OpenStep(job: Job, w: World, a: Action)
    requires OpenSessions(w) && Enabled(job, w, a)
    ensures OpenSessions(Step(job, w, a))
  {}

  lemma {:induction false} StatusRun(job: Job, w: World, acts: seq<Action>)
    requires WorldInv(job, w) && OpenSessions(w) && StatusIsTrue(job, w) && Feasible(job, w, acts)
    ensures StatusIsTrue(job, After(job, w, acts))
    decreases |acts|
  {
    if acts != [] {
      var w' := Step(job, w, acts[0]);
      WorldStep(job, w, acts[0]);
      OpenStep(job, w, acts[0]);
      StoreGrows(job, w, acts[0]);
      if w'.disk.Some? && w'.disk.value.status.Completed? {
        SavedAsCompleted(job, w, acts[0]);
      }
      StatusRun(job, w', acts[1..]);
    }
  }

  /** A session saved as completed means that every chunk of the manifest is stored. */
  lemma CompletedMeansStored(job: Job, w: World)
    requires Reached(job, w) && w.disk.Some? && w.disk.value.status.Completed?
    ensures AllStored(job, w)
  {
    var store: set<ChunkId>, acts: seq<Action> :|
      Feasible(job, World(None, store, Idle), acts) && w == After(job, World(None, store, Idle), acts);
    StatusRun(job, World(None, store, Idle), acts);
  }
}
