/** What a provider publishes, told by the messages it received. */
module PushTraces {
  import opened Bytes
  import opened Options
  import opened Shared
  import opened PushHandler

  // ------------------------------------------------------------ announcements

  /** The manifest is accepted: it parses and is about the announced content. */
  predicate Opens(e: Event) {
    e.PushManifest? && e.parsed.Some? && e.parsed.value.id == e.content
  }

  function Opening(e: Event): seq<Event> {
    if Opens(e) then [e] else []
  }

  /** The accepted announcements among the messages, in order. */
  function Announced(es: seq<Event>): (a: seq<Event>)
    ensures forall i :: 0 <= i < |a| ==> Opens(a[i])
  {
    if es == [] then [] else Opening(es[0]) + Announced(es[1..])
  }

  ghost predicate AsAnnounced(x: Session, e: Event) {
    && Opens(e) && x.content == e.content && x.manifest == e.parsed.value && x.manifestBytes == e.manifestBytes
    && forall k :: k in x.expected <==> k in e.listed
  }

  /** The sessions are the announcements, and the table has the latest one of a content. */
  ghost predicate Matches(s: State, a: seq<Event>) {
    && |s.arena| == |a|
    && (forall i :: 0 <= i < |a| ==> AsAnnounced(s.arena[i], a[i]))
    && (forall x :: x in s.sessions ==> Latest(a, x, s.sessions[x]))
  }

  ghost predicate Latest(a: seq<Event>, x: ContentId, i: nat) {
    i < |a| && Opens(a[i]) && a[i].content == x && forall j :: i < j < |a| && Opens(a[j]) ==> a[j].content != x
  }

  lemma MatchesOpening(c: Config, s: State, a: seq<Event>, e: Event)
    requires Matches(s, a) && Enabled(c, s, e) && Opens(e)
    ensures Matches(Step(c, s, e), a + [e])
  {
    var s' := Step(c, s, e);
    forall x | x in s'.sessions
      ensures Latest(a + [e], x, s'.sessions[x])
    {
      if x != e.content {
        assert Latest(a, x, s.sessions[x]);
      }
    }
  }

  /** Other messages leave what a session is about alone. */
  lemma SameSessions(c: Config, s: State, e: Event)
    requires Enabled(c, s, e) && !Opens(e)
    ensures |Step(c, s, e).arena| == |s.arena|
    ensures forall i :: 0 <= i < |s.arena| ==>
      Step(c, s, e).arena[i] == s.arena[i].(committed := Step(c, s, e).arena[i].committed)
    ensures forall x :: x in Step(c, s, e).sessions ==> x in s.sessions && Step(c, s, e).sessions[x] == s.sessions[x]
  {}

  lemma MatchesStep(c: Config, s: State, a: seq<Event>, e: Event)
    requires Matches(s, a) && Enabled(c, s, e)
    ensures Matches(Step(c, s, e), a + Opening(e))
  {
    if Opens(e) {
      MatchesOpening(c, s, a, e);
    } else {
      SameSessions(c, s, e);
      assert a + Opening(e) == a;
      forall i | 0 <= i < |a|
        ensures AsAnnounced(Step(c, s, e).arena[i], a[i])
      {
        assert AsAnnounced(s.arena[i], a[i]);
      }
    }
  }

  lemma {:induction false} MatchesRun(c: Config, s: State, a: seq<Event>, es: seq<Event>)
    requires Matches(s, a) && Feasible(c, s, es)
    ensures Matches(After(c, s, es), a + Announced(es))
    decreases |es|
  {
    if es == [] {
      assert a + Announced(es) == a;
    } else {
      MatchesStep(c, s, a, es[0]);
      MatchesRun(c, Step(c, s, es[0]), a + Opening(es[0]), es[1..]);
      assert a + Announced(es) == a + Opening(es[0]) + Announced(es[1..]);
    }
  }

  /** In every run: a content is only published for an announcement of it, and then every
      chunk assigned by that announcement is listed in its manifest and stored under its
      own hash. */
  lemma PublishedAsAnnounced(c: Config, store: map<ChunkId, bytes>, es: seq<Event>, content: ContentId)
    requires Addressed(c, store) && Feasible(c, Fresh(store), es) && content in After(c, Fresh(store), es).published
    ensures
      var s, a := After(c, Fresh(store), es), Announced(es);
      var i := s.published[content];
      && i < |a| && a[i].content == content
      && forall x :: x in a[i].listed ==> x in a[i].parsed.value.chunks && x in s.store && c.digest(s.store[x]) == x
  {
    var s, a := After(c, Fresh(store), es), Announced(es);
    MatchesRun(c, Fresh(store), [], es);
    assert [] + a == a;
    assert Reached(c, s);
    PublishedMeansStored(c, s, content);
    assert AsAnnounced(s.arena[s.published[content]], a[s.published[content]]);
  }

  /** In every run: a completed batch publishes exactly if its content has an announcement
      whose batch was not completed yet, the manifest can be written, and every chunk that
      the latest announcement assigned has been committed; and the answer says so. */
  lemma CompletionIff(
    c: Config, store: map<ChunkId, bytes>, es: seq<Event>, w: nat, content: ContentId, putOk: bool)
    requires Addressed(c, store) && Feasible(c, Fresh(store), es)
    requires Enabled(c, After(c, Fresh(store), es), BatchComplete(w, content, putOk))
    ensures
      var s, a := After(c, Fresh(store), es), Announced(es);
      var s' := Step(c, s, BatchComplete(w, content, putOk));
      var open := content in s.sessions;
      && (open ==> Latest(a, content, s.sessions[content]) && s.sessions[content] < |s.arena|)
      && var full := open &&
           forall x :: x in a[s.sessions[content]].listed ==> x in s.arena[s.sessions[content]].committed;
         && s'.published == (if full && putOk then s.published[content := s.sessions[content]] else s.published)
         && s'.acks == s.acks + [(w, BatchAck(content, if !full then Incomplete else if putOk then OK else IOError))]
         && (content in s'.sessions <==> open && !(full && putOk))
  {
    var s, a := After(c, Fresh(store), es), Announced(es);
    MatchesRun(c, Fresh(store), [], es);
    assert [] + a == a;
    assert Reached(c, s);
    ReachedInv(c, s);
    if content in s.sessions {
      var i := s.sessions[content];
      assert Latest(a, content, i) && AsAnnounced(s.arena[i], a[i]);
      if s.arena[i].expected <= s.arena[i].committed {
        LengthTestRedundant(c, s, i);
      }
    }
  }

  /** In every run: a pushed chunk gets past the checks exactly if the latest announcement
      of its content, not yet completed, assigns it, its manifest lists it and the data has
      its hash; otherwise nothing is kept and the answer names the first of these it fails. */
  lemma PushedChunkIff(
    c: Config, store: map<ChunkId, bytes>, es: seq<Event>, w: nat, content: ContentId, x: ChunkId, data: bytes)
    requires Addressed(c, store) && Feasible(c, Fresh(store), es)
    requires Enabled(c, After(c, Fresh(store), es), PushChunk(w, content, x, data))
    ensures
      var s, a := After(c, Fresh(store), es), Announced(es);
      var s' := Step(c, s, PushChunk(w, content, x, data));
      && (content in s.sessions ==> Latest(a, content, s.sessions[content]))
      && s' == if content !in s.sessions || x !in a[s.sessions[content]].listed
               then Reply(s, w, ChunkAck(x, NotInAssignedSet))
               else if x !in a[s.sessions[content]].parsed.value.chunks then Reply(s, w, ChunkAck(x, Malformed))
               else if c.digest(data) != x then Reply(s, w, ChunkAck(x, HashMismatch))
               else s.(streams := s.streams[w := Checked(s.sessions[content], x, data)])
  {
    var s, a := After(c, Fresh(store), es), Announced(es);
    MatchesRun(c, Fresh(store), [], es);
    assert [] + a == a;
    if content in s.sessions {
      assert Latest(a, content, s.sessions[content]);
      assert AsAnnounced(s.arena[s.sessions[content]], a[s.sessions[content]]);
    }
  }

  // ------------------------------------------------------------ an undisturbed push

  /** The steps of pushing one chunk; `has` is whether the store says it has it. */
  function Push(w: nat, content: ContentId, x: ChunkId, data: bytes, has: bool): seq<Event> {
    if has then [PushChunk(w, content, x, data), HasChunk(w, true), CommitChunk(w)]
    else [PushChunk(w, content, x, data), HasChunk(w, false), PutChunk(w, true), CommitChunk(w)]
  }

  function PushAll(
    w: nat, content: ContentId, listed: seq<ChunkId>, data: ChunkId -> bytes, has: ChunkId -> bool): seq<Event>
  {
    if listed == [] then []
    else Push(w, content, listed[0], data(listed[0]), has(listed[0])) + PushAll(w, content, listed[1..], data, has)
  }

  function OkAcks(w: nat, listed: seq<ChunkId>): seq<(nat, Ack)> {
    if listed == [] then [] else [(w, ChunkAck(listed[0], OK))] + OkAcks(w, listed[1..])
  }

  lemma OneAck(w: nat, x: ChunkId)
    ensures OkAcks(w, [x]) == [(w, ChunkAck(x, OK))]
  {
    assert |[x][1..]| == 0;
  }

  /** Stream `w` can push chunks of this announcement to session `i`. */
  ghost predicate Receiving(s: State, w: nat, i: nat, e: Event) {
    && w in s.streams && s.streams[w].Ready? && i < |s.arena| && AsAnnounced(s.arena[i], e)
    && e.content in s.sessions && s.sessions[e.content] == i
  }

  /** The chunk is assigned, listed in the manifest, and the data is its own. */
  predicate Fitting(c: Config, e: Event, x: ChunkId, data: bytes) {
    Opens(e) && x in e.listed && x in e.parsed.value.chunks && c.digest(data) == x
  }

  /** Only this chunk was added, and acknowledged. */
  ghost predicate Gained(s: State, s': State, w: nat, i: nat, xs: seq<ChunkId>) {
    && s'.acks == s.acks + OkAcks(w, xs) && s'.sessions == s.sessions && s'.published == s.published
    && i < |s.arena| == |s'.arena| && s.arena[i].committed <= s'.arena[i].committed
    && s.store.Keys <= s'.store.Keys
    && forall x :: x in xs ==> x in s'.arena[i].committed
  }

  lemma RunCons(c: Config, s: State, e: Event, rest: seq<Event>)
    requires Enabled(c, s, e) && Feasible(c, Step(c, s, e), rest)
    ensures Feasible(c, s, [e] + rest) && After(c, s, [e] + rest) == After(c, Step(c, s, e), rest)
  {
    assert ([e] + rest)[1..] == rest;
  }

  lemma {:induction false} RunConcat(c: Config, s: State, es: seq<Event>, more: seq<Event>)
    requires Feasible(c, s, es) && Feasible(c, After(c, s, es), more)
    ensures Feasible(c, s, es + more) && After(c, s, es + more) == After(c, After(c, s, es), more)
    decreases |es|
  {
    if es == [] {
      assert es + more == more;
    } else {
      RunConcat(c, Step(c, s, es[0]), es[1..], more);
      RunCons(c, s, es[0], es[1..] + more);
      assert es + more == [es[0]] + (es[1..] + more);
    }
  }

  lemma CheckPasses(c: Config, s: State, w: nat, i: nat, e: Event, x: ChunkId, data: bytes)
    requires Receiving(s, w, i, e) && Fitting(c, e, x, data)
    ensures Enabled(c, s, PushChunk(w, e.content, x, data))
    ensures Step(c, s, PushChunk(w, e.content, x, data)) == s.(streams := s.streams[w := Checked(i, x, data)])
  {}

  /** From the check on, a chunk that can be stored is committed and acknowledged. */
  lemma StoreAndCommit(c: Config, s: State, w: nat, i: nat, e: Event, x: ChunkId, data: bytes, has: bool)
    requires Receiving(s, w, i, e) && Fitting(c, e, x, data) && (has ==> x in s.store)
    ensures Feasible(c, s, Push(w, e.content, x, data, has))
    ensures
      var s' := After(c, s, Push(w, e.content, x, data, has));
      Gained(s, s', w, i, [x]) && Receiving(s', w, i, e)
  {
    CheckPasses(c, s, w, i, e, x, data);
    var s1 := Step(c, s, PushChunk(w, e.content, x, data));
    var s2 := Step(c, s1, HasChunk(w, has));
    OneAck(w, x);
    if has {
      RunCons(c, s2, CommitChunk(w), []);
      RunCons(c, s1, HasChunk(w, true), [CommitChunk(w)] + []);
      RunCons(c, s, PushChunk(w, e.content, x, data), [HasChunk(w, true)] + ([CommitChunk(w)] + []));
      assert Push(w, e.content, x, data, has)
        == [PushChunk(w, e.content, x, data)] + ([HasChunk(w, true)] + ([CommitChunk(w)] + []));
    } else {
      var s3 := Step(c, s2, PutChunk(w, true));
      RunCons(c, s3, CommitChunk(w), []);
      RunCons(c, s2, PutChunk(w, true), [CommitChunk(w)] + []);
      RunCons(c, s1, HasChunk(w, false), [PutChunk(w, true)] + ([CommitChunk(w)] + []));
      RunCons(c, s, PushChunk(w, e.content, x, data),
              [HasChunk(w, false)] + ([PutChunk(w, true)] + ([CommitChunk(w)] + [])));
      assert Push(w, e.content, x, data, has)
        == [PushChunk(w, e.content, x, data)]
           + ([HasChunk(w, false)] + ([PutChunk(w, true)] + ([CommitChunk(w)] + [])));
    }
  }

  lemma GainedMore(s: State, s1: State, s': State, w: nat, i: nat, xs: seq<ChunkId>)
    requires xs != [] && Gained(s, s1, w, i, [xs[0]]) && Gained(s1, s', w, i, xs[1..])
    ensures Gained(s, s', w, i, xs)
  {
    OneAck(w, xs[0]);
    assert xs[0] in [xs[0]] && xs == [xs[0]] + xs[1..];
  }

  lemma {:induction false} PushesAll(
    c: Config, s: State, w: nat, i: nat, e: Event, xs: seq<ChunkId>, data: ChunkId -> bytes, has: ChunkId -> bool)
    requires Receiving(s, w, i, e) && forall x :: x in xs ==> Fitting(c, e, x, data(x)) && (has(x) ==> x in s.store)
    ensures Feasible(c, s, PushAll(w, e.content, xs, data, has))
    ensures
      var s' := After(c, s, PushAll(w, e.content, xs, data, has));
      Gained(s, s', w, i, xs) && Receiving(s', w, i, e)
    decreases |xs|
  {
    if xs != [] {
      var x := xs[0];
      StoreAndCommit(c, s, w, i, e, x, data(x), has(x));
      var s1 := After(c, s, Push(w, e.content, x, data(x), has(x)));
      PushesAll(c, s1, w, i, e, xs[1..], data, has);
      RunConcat(c, s, Push(w, e.content, x, data(x), has(x)), PushAll(w, e.content, xs[1..], data, has));
      GainedMore(s, s1, After(c, s1, PushAll(w, e.content, xs[1..], data, has)), w, i, xs);
    }
  }

  /** An undisturbed push on an accepted stream, in any reached state: announce, push every
      assigned chunk with data that fits, complete the batch. Every message is acknowledged
      OK, in order, and the content is published for this announcement. */
  lemma PushIsPublished(
    c: Config, s: State, e: Event, data: ChunkId -> bytes, has: ChunkId -> bool)
    requires Reached(c, s) && Opens(e) && e.stream in s.streams && s.streams[e.stream].Ready?
    requires forall x :: x in e.listed ==> Fitting(c, e, x, data(x)) && (has(x) ==> x in s.store)
    ensures
      var w, run := e.stream, [e] + (PushAll(e.stream, e.content, e.listed, data, has) +
                                     [BatchComplete(e.stream, e.content, true)]);
      && Feasible(c, s, run)
      && var s' := After(c, s, run);
         && e.content in s'.published && s'.published[e.content] == |s.arena|
         && s'.acks == s.acks + [(w, ManifestAck(e.content, OK))] + OkAcks(w, e.listed) + [(w, BatchAck(e.content, OK))]
  {
    var w, i, pushes := e.stream, |s.arena|, PushAll(e.stream, e.content, e.listed, data, has);
    var s1 := Step(c, s, e);
    assert Receiving(s1, w, i, e);
    PushesAll(c, s1, w, i, e, e.listed, data, has);
    var s2, done := After(c, s1, pushes), BatchComplete(w, e.content, true);
    ReachedInv(c, s);
    InvStep(c, s, e);
    InvRun(c, s1, pushes);
    FullCompletes(c, s2, w, i, e);
    RunCons(c, s2, done, []);
    RunConcat(c, s1, pushes, [done] + []);
    RunCons(c, s, e, pushes + ([done] + []));
    assert [done] + [] == [done];
  }

  lemma FullCompletes(c: Config, s: State, w: nat, i: nat, e: Event)
    requires Inv(c, s) && Receiving(s, w, i, e) && forall x :: x in e.listed ==> x in s.arena[i].committed
    ensures Enabled(c, s, BatchComplete(w, e.content, true))
    ensures
      var s' := Step(c, s, BatchComplete(w, e.content, true));
      && s'.published == s.published[e.content := i] && s'.acks == s.acks + [(w, BatchAck(e.content, OK))]
  {
    assert SoundSession(s, s.arena[i]);
    assert s.arena[i].committed == s.arena[i].expected;
  }
}
