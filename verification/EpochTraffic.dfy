/** What a run of other calls does to one epoch. */
module EpochTraffic {
  import opened Bytes
  import opened Options
  import opened Shared
  import opened Epochs

  /** The call asks this epoch for a chunk. */
  predicate Draws(e: Event, id: EpochId) {
    e.Select? && e.id == id && e.hash != []
  }

  /** The call starts an epoch for this key, which ends the one before it. */
  predicate Replaces(e: Event, key: string) {
    e.Create? && CreateError(e).None? && KeyOf(e.provider, e.file) == key
  }

  function DrawCount(es: seq<Event>, id: EpochId): nat {
    if es == [] then 0 else (if Draws(es[0], id) then 1 else 0) + DrawCount(es[1..], id)
  }

  predicate AnyReplaces(es: seq<Event>, key: string) {
    exists i :: 0 <= i < |es| && Replaces(es[i], key)
  }

  function KeyAt(s: Store, id: EpochId): string
    requires id in s.epochs
  {
    KeyOf(s.epochs[id].provider, s.epochs[id].file)
  }

  /** An epoch keeps its identity, its counter never falls, and once ended it stays so. */
  ghost predicate Ages(s: Store, s': Store, id: EpochId) {
    id in s.epochs ==>
      && id in s'.epochs
      && var e, e' := s.epochs[id], s'.epochs[id];
         && (e'.provider, e'.file, e'.total, e'.round) == (e.provider, e.file, e.total, e.round)
         && e'.counter >= e.counter && (e'.active ==> e.active)
  }

  lemma StepAges(s: Store, e: Event, id: EpochId)
    requires Enabled(s, e)
    ensures Ages(s, Step(s, e), id)
  {}

  lemma {:induction false} RunAges(s: Store, es: seq<Event>, id: EpochId)
    requires Feasible(s, es)
    ensures Ages(s, After(s, es), id)
    decreases |es|
  {
    if es != [] {
      StepAges(s, es[0], id);
      RunAges(Step(s, es[0]), es[1..], id);
    }
  }

  ghost predicate AllAge(s: Store, s': Store) {
    forall id :: Ages(s, s', id)
  }

  lemma AllAgeStep(s: Store, e: Event)
    requires Enabled(s, e)
    ensures AllAge(s, Step(s, e))
  {
    forall id
      ensures Ages(s, Step(s, e), id)
    {
      StepAges(s, e, id);
    }
  }

  lemma AllAgeRun(s: Store, es: seq<Event>)
    requires Feasible(s, es)
    ensures AllAge(s, After(s, es))
  {
    forall id
      ensures Ages(s, After(s, es), id)
    {
      RunAges(s, es, id);
    }
  }

  lemma AllAgeTrans(a: Store, b: Store, c: Store)
    requires AllAge(a, b) && AllAge(b, c)
    ensures AllAge(a, c)
  {
    forall id
      ensures Ages(a, c, id)
    {
      assert Ages(a, b, id) && Ages(b, c, id);
    }
  }

  /** What one call does to an active epoch. */
  lemma StepEffect(s: Store, e: Event, id: EpochId)
    requires Inv(s) && Enabled(s, e) && id in s.epochs && s.epochs[id].active
    ensures id in Step(s, e).epochs
    ensures
      var x, x' := s.epochs[id], Step(s, e).epochs[id];
      var taken := if Draws(e, id) && x.uncovered != [] then 1 else 0;
      && (x'.active <==> !Replaces(e, KeyAt(s, id)))
      && x'.counter == x.counter + taken && |x'.uncovered| == |x.uncovered| - taken
  {
    assert Current(s, id);
  }

  lemma AnyReplacesFirst(es: seq<Event>, key: string)
    requires es != []
    ensures AnyReplaces(es, key) <==> Replaces(es[0], key) || AnyReplaces(es[1..], key)
  {
    if AnyReplaces(es, key) {
      var i :| 0 <= i < |es| && Replaces(es[i], key);
      if i > 0 {
        assert es[1..][i - 1] == es[i];
      }
    }
    if AnyReplaces(es[1..], key) {
      var i :| 0 <= i < |es[1..]| && Replaces(es[1..][i], key);
      assert es[i + 1] == es[1..][i];
    }
  }

  /** Other calls leave an epoch active exactly if none of them starts an epoch for its
      key; then they take as many chunks as they ask for, as long as there are any. */
  lemma {:induction false} RunEffect(s: Store, es: seq<Event>, id: EpochId)
    requires Inv(s) && Feasible(s, es) && id in s.epochs && s.epochs[id].active
    ensures Inv(After(s, es)) && id in After(s, es).epochs
    ensures
      var x, x' := s.epochs[id], After(s, es).epochs[id];
      var taken := Min(DrawCount(es, id), |x.uncovered|);
      && (x'.active <==> !AnyReplaces(es, KeyAt(s, id)))
      && (x'.active ==> x'.counter == x.counter + taken && |x'.uncovered| == |x.uncovered| - taken)
    decreases |es|
  {
    InvRun(s, es);
    RunAges(s, es, id);
    if es != [] {
      var s1 := Step(s, es[0]);
      InvStep(s, es[0]);
      StepAges(s, es[0], id);
      StepEffect(s, es[0], id);
      AnyReplacesFirst(es, KeyAt(s, id));
      RunAges(s1, es[1..], id);
      if s1.epochs[id].active {
        RunEffect(s1, es[1..], id);
      }
    }
  }
}
