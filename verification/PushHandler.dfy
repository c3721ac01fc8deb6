/** The provider side of a push: streams from publishers run concurrently against one
    session table and one chunk store. Sessions live in an arena, so that a stream may
    still hold one that has meanwhile been replaced or removed from the table. */
module PushHandler {
  import opened Bytes
  import opened Options
  import opened Shared

  type ContentId = bytes

  datatype Manifest = Manifest(id: ContentId, chunks: seq<ChunkId>)

  datatype Session = Session(
    content: ContentId, manifest: Manifest, manifestBytes: bytes,
    expected: set<ChunkId>, committed: set<ChunkId>)

  /** How far a stream is with the chunk it is handling. */
  datatype Stream =
    | Ready
    | Checked(session: nat, chunk: ChunkId, data: bytes)
    | Absent(session: nat, chunk: ChunkId, data: bytes)
    | Stored(session: nat, chunk: ChunkId)

  datatype Status = OK | Malformed | Incomplete | HashMismatch | NotInAssignedSet | IOError

  datatype Ack =
    | ManifestAck(content: ContentId, status: Status)
    | ChunkAck(chunk: ChunkId, status: Status)
    | BatchAck(content: ContentId, status: Status)
    | Refusal

  datatype Config = Config(digest: bytes -> bytes, allowPush: bool, openPolicy: bool, allowed: set<Peer>) {
    predicate Authorized(p: Peer) { allowPush && (openPolicy || p in allowed) }
  }

  /** `acks` is every message written back so far, with the stream it went to; `published`
      maps a content to the session whose manifest was committed last. */
  datatype State = State(
    arena: seq<Session>, sessions: map<ContentId, nat>, streams: map<nat, Stream>,
    store: map<ChunkId, bytes>, published: map<ContentId, nat>, acks: seq<(nat, Ack)>)

  datatype Event =
    | Accept(stream: nat, peer: Peer)
    | PushManifest(
        stream: nat, content: ContentId, listed: seq<ChunkId>, manifestBytes: bytes, parsed: Option<Manifest>)
    | PushChunk(stream: nat, content: ContentId, chunk: ChunkId, data: bytes)
    | HasChunk(stream: nat, answer: bool)
    | PutChunk(stream: nat, ok: bool)
    | CommitChunk(stream: nat)
    | BatchComplete(stream: nat, content: ContentId, putOk: bool)

  function Reply(s: State, stream: nat, a: Ack): State {
    s.(acks := s.acks + [(stream, a)])
  }

  predicate Enabled(c: Config, s: State, e: Event) {
    match e
    case Accept(w, peer) => w !in s.streams && c.Authorized(peer)
    case PushManifest(w, _, _, _, _) => w in s.streams && s.streams[w].Ready?
    case PushChunk(w, _, _, _) => w in s.streams && s.streams[w].Ready?
    case HasChunk(w, answer) => w in s.streams && s.streams[w].Checked? && (answer ==> s.streams[w].chunk in s.store)
    case PutChunk(w, _) => w in s.streams && s.streams[w].Absent?
    case CommitChunk(w) => w in s.streams && s.streams[w].Stored? && s.streams[w].session < |s.arena|
    case BatchComplete(w, content, _) =>
      w in s.streams && s.streams[w].Ready? && (content in s.sessions ==> s.sessions[content] < |s.arena|)
  }

  /** Look up the session and check the chunk against it; nothing is locked afterwards. */
  function Receive(c: Config, s: State, w: nat, content: ContentId, chunk: ChunkId, data: bytes): State {
    if content !in s.sessions || s.sessions[content] >= |s.arena| then Reply(s, w, ChunkAck(chunk, NotInAssignedSet))
    else
      var session := s.arena[s.sessions[content]];
      if chunk !in session.expected then Reply(s, w, ChunkAck(chunk, NotInAssignedSet))
      else if chunk !in session.manifest.chunks then Reply(s, w, ChunkAck(chunk, Malformed))
      else if c.digest(data) != chunk then Reply(s, w, ChunkAck(chunk, HashMismatch))
      else s.(streams := s.streams[w := Checked(s.sessions[content], chunk, data)])
  }

  function Complete(s: State, w: nat, content: ContentId, putOk: bool): State
    requires content in s.sessions ==> s.sessions[content] < |s.arena|
  {
    if content !in s.sessions then Reply(s, w, BatchAck(content, Incomplete))
    else
      var session := s.arena[s.sessions[content]];
      if !(session.expected <= session.committed) || |session.committed| < |session.expected|
      then Reply(s, w, BatchAck(content, Incomplete))
      else if !putOk then Reply(s, w, BatchAck(content, IOError))
      else
        Reply(s.(published := s.published[content := s.sessions[content]], sessions := s.sessions - {content}),
              w, BatchAck(content, OK))
  }

  function Step(c: Config, s: State, e: Event): State
    requires Enabled(c, s, e)
  {
    match e
    case Accept(w, _) => s.(streams := s.streams[w := Ready])
    case PushManifest(w, content, listed, manifestBytes, parsed) =>
      if parsed.None? || parsed.value.id != content then Reply(s, w, Refusal)
      else
        var session := Session(content, parsed.value, manifestBytes, set x | x in listed, {});
        var s' := s.(arena := s.arena + [session], sessions := s.sessions[content := |s.arena|]);
        Reply(s', w, ManifestAck(content, OK))
    case PushChunk(w, content, chunk, data) => Receive(c, s, w, content, chunk, data)
    case HasChunk(w, answer) =>
      var Checked(i, chunk, data) := s.streams[w];
      s.(streams := s.streams[w := if answer then Stored(i, chunk) else Absent(i, chunk, data)])
    case PutChunk(w, ok) =>
      var Absent(i, chunk, data) := s.streams[w];
      if ok then s.(store := s.store[chunk := data], streams := s.streams[w := Stored(i, chunk)])
      else Reply(s.(streams := s.streams[w := Ready]), w, ChunkAck(chunk, IOError))
    case CommitChunk(w) =>
      var Stored(i, chunk) := s.streams[w];
      var session := s.arena[i];
      Reply(s.(arena := s.arena[i := session.(committed := session.committed + {chunk})],
               streams := s.streams[w := Ready]),
            w, ChunkAck(chunk, OK))
    case BatchComplete(w, content, putOk) => Complete(s, w, content, putOk)
  }

  predicate Feasible(c: Config, s: State, es: seq<Event>)
    decreases |es|
  {
    es == [] || (Enabled(c, s, es[0]) && Feasible(c, Step(c, s, es[0]), es[1..]))
  }

  function After(c: Config, s: State, es: seq<Event>): State
    requires Feasible(c, s, es)
    decreases |es|
  {
    if es == [] then s else After(c, Step(c, s, es[0]), es[1..])
  }

  function Fresh(store: map<ChunkId, bytes>): State {
    State([], map[], map[], store, map[], [])
  }

  // ------------------------------------------------------------- invariant

  /** Every stored chunk is filed under the digest of its bytes. */
  ghost predicate Addressed(c: Config, store: map<ChunkId, bytes>) {
    forall x :: x in store ==> c.digest(store[x]) == x
  }

  ghost predicate SoundSession(s: State, x: Session) {
    && x.manifest.id == x.content
    && x.committed <= x.expected
    && (forall k :: k in x.committed ==> k in x.manifest.chunks && k in s.store)
  }

  /** A stream past its checks works for a session that expects the chunk. */
  ghost predicate SoundStream(c: Config, s: State, t: Stream) {
    !t.Ready? ==>
      && t.session < |s.arena|
      && t.chunk in s.arena[t.session].expected
      && t.chunk in s.arena[t.session].manifest.chunks
      && (t.Checked? || t.Absent? ==> c.digest(t.data) == t.chunk)
      && (t.Stored? ==> t.chunk in s.store)
  }

  ghost predicate Inv(c: Config, s: State) {
    && Addressed(c, s.store)
    && (forall i :: 0 <= i < |s.arena| ==> SoundSession(s, s.arena[i]))
    && (forall x :: x in s.sessions ==> s.sessions[x] < |s.arena| && s.arena[s.sessions[x]].content == x)
    && (forall w :: w in s.streams ==> SoundStream(c, s, s.streams[w]))
    && (forall x :: x in s.published ==>
          && s.published[x] < |s.arena|
          && s.arena[s.published[x]].content == x
          && s.arena[s.published[x]].expected <= s.arena[s.published[x]].committed)
    && (forall i :: 0 <= i < |s.acks| && s.acks[i].1.ChunkAck? && s.acks[i].1.status.OK? ==>
          s.acks[i].1.chunk in s.store)
    && AnswersAccepted(s)
  }

  /** Only streams that were accepted are ever answered by the message handlers. */
  predicate AnswersAccepted(s: State) {
    forall i :: 0 <= i < |s.acks| ==> s.acks[i].0 in s.streams
  }

  lemma CommitInv(c: Config, s: State, w: nat)
    requires Inv(c, s) && Enabled(c, s, CommitChunk(w))
    ensures Inv(c, Step(c, s, CommitChunk(w)))
  {}

  lemma ReceiveInv(c: Config, s: State, w: nat, content: ContentId, chunk: ChunkId, data: bytes)
    requires Inv(c, s) && w in s.streams && s.streams[w].Ready?
    ensures Inv(c, Receive(c, s, w, content, chunk, data))
  {
    if content !in s.sessions {
      RefusedInv(c, s, w, ChunkAck(chunk, NotInAssignedSet));
    } else {
      var session := s.arena[s.sessions[content]];
      if chunk !in session.expected {
        RefusedInv(c, s, w, ChunkAck(chunk, NotInAssignedSet));
      } else if chunk !in session.manifest.chunks {
        RefusedInv(c, s, w, ChunkAck(chunk, Malformed));
      } else if c.digest(data) != chunk {
        RefusedInv(c, s, w, ChunkAck(chunk, HashMismatch));
      } else {
        CheckedInv(c, s, w, Checked(s.sessions[content], chunk, data));
      }
    }
  }

  /** The stream goes on with a chunk that its session expects. */
  lemma CheckedInv(c: Config, s: State, w: nat, t: Stream)
    requires Inv(c, s) && SoundStream(c, s, t)
    ensures Inv(c, s.(streams := s.streams[w := t]))
  {
    var s' := s.(streams := s.streams[w := t]);
    forall v | v in s'.streams
      ensures SoundStream(c, s', s'.streams[v])
    {
      assert v != w ==> SoundStream(c, s, s.streams[v]);
    }
  }

  lemma RefusedInv(c: Config, s: State, w: nat, a: Ack)
    requires Inv(c, s) && w in s.streams && !(a.ChunkAck? && a.status.OK?)
    ensures Inv(c, Reply(s, w, a))
  {}

  lemma CompleteInv(c: Config, s: State, w: nat, content: ContentId, putOk: bool)
    requires Inv(c, s) && w in s.streams
    ensures Inv(c, Complete(s, w, content, putOk))
  {}

  lemma ManifestInv(c: Config, s: State, e: Event)
    requires Inv(c, s) && e.PushManifest? && Enabled(c, s, e)
    ensures Inv(c, Step(c, s, e))
  {
    if Step(c, s, e).arena == s.arena {
      RefusedInv(c, s, e.stream, Refusal);
    } else {
      var session := Session(e.content, e.parsed.value, e.manifestBytes, set x | x in e.listed, {});
      OpenedInv(c, s, session);
      RefusedInv(c, s.(arena := s.arena + [session], sessions := s.sessions[e.content := |s.arena|]),
                 e.stream, ManifestAck(e.content, OK));
    }
  }

  /** A new session starts with nothing committed. */
  lemma OpenedInv(c: Config, s: State, x: Session)
    requires Inv(c, s) && x.manifest.id == x.content && x.committed == {}
    ensures Inv(c, s.(arena := s.arena + [x], sessions := s.sessions[x.content := |s.arena|]))
  {
    var s' := s.(arena := s.arena + [x], sessions := s.sessions[x.content := |s.arena|]);
    forall w | w in s'.streams
      ensures SoundStream(c, s', s'.streams[w])
    {
      assert SoundStream(c, s, s.streams[w]);
    }
  }

  lemma PutInv(c: Config, s: State, w: nat, ok: bool)
    requires Inv(c, s) && Enabled(c, s, PutChunk(w, ok))
    ensures Inv(c, Step(c, s, PutChunk(w, ok)))
  {
    var s' := Step(c, s, PutChunk(w, ok));
    assert forall k :: k in s.store ==> k in s'.store;
    forall v | v in s'.streams
      ensures SoundStream(c, s', s'.streams[v])
    {
      assert SoundStream(c, s, s.streams[v]);
    }
    forall i | 0 <= i < |s'.arena|
      ensures SoundSession(s', s'.arena[i])
    {
      assert SoundSession(s, s.arena[i]);
    }
  }

  lemma InvStep(c: Config, s: State, e: Event)
    requires Inv(c, s) && Enabled(c, s, e)
    ensures Inv(c, Step(c, s, e))
  {
    match e
    case Accept(_, _) =>
    case PushManifest(_, _, _, _, _) => ManifestInv(c, s, e);
    case PushChunk(w, content, chunk, data) => ReceiveInv(c, s, w, content, chunk, data);
    case HasChunk(_, _) =>
    case PutChunk(w, ok) => PutInv(c, s, w, ok);
    case CommitChunk(w) => CommitInv(c, s, w);
    case BatchComplete(w, content, putOk) => CompleteInv(c, s, w, content, putOk);
  }

  lemma {:induction false} InvRun(c: Config, s: State, es: seq<Event>)
    requires Inv(c, s) && Feasible(c, s, es)
    ensures Inv(c, After(c, s, es))
    decreases |es|
  {
    if es != [] {
      InvStep(c, s, es[0]);
      InvRun(c, Step(c, s, es[0]), es[1..]);
    }
  }

  /** Chunks and acknowledgements already out never disappear. */
  lemma Monotone(c: Config, s: State, e: Event)
    requires Enabled(c, s, e)
    ensures s.store.Keys <= Step(c, s, e).store.Keys && s.acks <= Step(c, s, e).acks
  {}

  // -------------------------------------------------------------- results

  /** Some interleaving of streams, over a content-addressed store, leads to `s`. */
  ghost predicate Reached(c: Config, s: State) {
    exists store: map<ChunkId, bytes>, es: seq<Event> ::
      Addressed(c, store) && Feasible(c, Fresh(store), es) && s == After(c, Fresh(store), es)
  }

  lemma ReachedInv(c: Config, s: State)
    requires Reached(c, s)
    ensures Inv(c, s)
  {
    var store: map<ChunkId, bytes>, es: seq<Event> :|
      Addressed(c, store) && Feasible(c, Fresh(store), es) && s == After(c, Fresh(store), es);
    InvRun(c, Fresh(store), es);
  }

  /** In every interleaving a session only commits chunks it expects, that its manifest
      lists, and that are stored under their own hash; and an acknowledged chunk is
      stored. */
  lemma CommittedMeansStored(c: Config, s: State)
    requires Reached(c, s)
    ensures forall i :: 0 <= i < |s.arena| ==> s.arena[i].committed <= s.arena[i].expected
    ensures forall i, k :: 0 <= i < |s.arena| && k in s.arena[i].committed ==>
      k in s.arena[i].manifest.chunks && k in s.store && c.digest(s.store[k]) == k
    ensures forall i :: 0 <= i < |s.acks| && s.acks[i].1.ChunkAck? && s.acks[i].1.status.OK? ==>
      s.acks[i].1.chunk in s.store && c.digest(s.store[s.acks[i].1.chunk]) == s.acks[i].1.chunk
  {
    ReachedInv(c, s);
    forall i, k | 0 <= i < |s.arena| && k in s.arena[i].committed
      ensures k in s.arena[i].manifest.chunks && k in s.store
    {
      assert SoundSession(s, s.arena[i]);
    }
  }

  /** A manifest is only published under the identifier it declares, once every chunk
      assigned to this provider is stored with the right hash. */
  lemma PublishedMeansStored(c: Config, s: State, content: ContentId)
    requires Reached(c, s) && content in s.published
    ensures s.published[content] < |s.arena|
    ensures
      var x := s.arena[s.published[content]];
      && x.content == content && x.manifest.id == content
      && forall k :: k in x.expected ==> k in s.store && c.digest(s.store[k]) == k && k in x.manifest.chunks
  {
    ReachedInv(c, s);
    assert SoundSession(s, s.arena[s.published[content]]);
  }

  /** Once every expected chunk is committed the two counts are equal, so the length
      comparison of the completion check never decides anything. */
  lemma LengthTestRedundant(c: Config, s: State, i: nat)
    requires Reached(c, s) && i < |s.arena| && s.arena[i].expected <= s.arena[i].committed
    ensures |s.arena[i].committed| == |s.arena[i].expected|
  {
    ReachedInv(c, s);
    assert SoundSession(s, s.arena[i]);
    assert s.arena[i].committed == s.arena[i].expected;
  }

  // ------------------------------------------------------ the handler object

  class StreamHandler {
    const config: Config
    var arena: seq<Session>
    var sessions: map<ContentId, nat>
    var streams: map<nat, Stream>
    var store: map<ChunkId, bytes>
    var published: map<ContentId, nat>
    ghost var acks: seq<(nat, Ack)>

    ghost function View(): State
      reads this
    {
      State(arena, sessions, streams, store, published, acks)
    }

    constructor (c: Config, stored: map<ChunkId, bytes>)
      requires Addressed(c, stored)
      ensures config == c && View() == Fresh(stored) && Inv(c, View())
    {
      config, store := c, stored;
      arena, sessions, streams, published, acks := [], map[], map[], map[], [];
    }

    /** Start a session for the announced content, replacing any pending one. */
    method HandlePushManifest(
      w: nat, content: ContentId, listed: seq<ChunkId>, manifestBytes: bytes, parsed: Option<Manifest>)
      returns (ack: Ack)
      requires Inv(config, View()) && w in streams && streams[w].Ready?
      modifies this
      ensures View() == Step(config, old(View()), PushManifest(w, content, listed, manifestBytes, parsed))
      ensures Inv(config, View()) && acks == old(acks) + [(w, ack)]
    {
      ghost var before := View();
      if parsed.None? || parsed.value.id != content {
        ack := Refusal;
      } else {
        var expected: set<ChunkId> := {};
        for i := 0 to |listed|
          invariant expected == set x | x in listed[..i]
          invariant View() == before
        {
          expected := expected + {listed[i]};
        }
        assert listed[..|listed|] == listed;
        sessions := sessions[content := |arena|];
        arena := arena + [Session(content, parsed.value, manifestBytes, expected, {})];
        ack := ManifestAck(content, OK);
      }
      acks := acks + [(w, ack)];
      InvStep(config, before, PushManifest(w, content, listed, manifestBytes, parsed));
    }

    /** The checks a pushed chunk has to pass before it is stored. */
    method CheckChunk(w: nat, content: ContentId, chunk: ChunkId, data: bytes)
      requires Inv(config, View()) && w in streams && streams[w].Ready?
      modifies this
      ensures View() == Step(config, old(View()), PushChunk(w, content, chunk, data)) && Inv(config, View())
    {
      ghost var before := View();
      if content !in sessions {
        acks := acks + [(w, ChunkAck(chunk, NotInAssignedSet))];
      } else {
        var session := arena[sessions[content]];
        var found := false;
        for i := 0 to |session.manifest.chunks|
          invariant found <==> chunk in session.manifest.chunks[..i]
          invariant View() == before
        {
          if session.manifest.chunks[i] == chunk {
            found := true;
          }
        }
        assert session.manifest.chunks[..|session.manifest.chunks|] == session.manifest.chunks;
        if chunk !in session.expected {
          acks := acks + [(w, ChunkAck(chunk, NotInAssignedSet))];
        } else if !found {
          acks := acks + [(w, ChunkAck(chunk, Malformed))];
        } else if config.digest(data) != chunk {
          acks := acks + [(w, ChunkAck(chunk, HashMismatch))];
        } else {
          streams := streams[w := Checked(sessions[content], chunk, data)];
        }
      }
      InvStep(config, before, PushChunk(w, content, chunk, data));
    }

    /** Mark the chunk committed in the session the stream holds, current or not. */
    method Commit(w: nat)
      requires Inv(config, View()) && w in streams && streams[w].Stored?
      modifies this
      ensures View() == Step(config, old(View()), CommitChunk(w)) && Inv(config, View())
    {
      InvStep(config, View(), CommitChunk(w));
      var Stored(i, chunk) := streams[w];
      arena := arena[i := arena[i].(committed := arena[i].committed + {chunk})];
      streams := streams[w := Ready];
      acks := acks + [(w, ChunkAck(chunk, OK))];
    }

    /** Publish the manifest if every expected chunk is committed. */
    method HandlePushBatchComplete(w: nat, content: ContentId, putOk: bool) returns (ack: Ack)
      requires Inv(config, View()) && w in streams && streams[w].Ready?
      modifies this
      ensures View() == Step(config, old(View()), BatchComplete(w, content, putOk)) && Inv(config, View())
      ensures ack == BatchAck(content, OK) <==> content in published && content !in sessions && content in old(sessions)
    {
      InvStep(config, View(), BatchComplete(w, content, putOk));
      if content !in sessions {
        ack := BatchAck(content, Incomplete);
      } else {
        var session := arena[sessions[content]];
        if !(session.expected <= session.committed) || |session.committed| < |session.expected| {
          ack := BatchAck(content, Incomplete);
        } else if !putOk {
          ack := BatchAck(content, IOError);
        } else {
          published := published[content := sessions[content]];
          sessions := sessions - {content};
          ack := BatchAck(content, OK);
        }
      }
      acks := acks + [(w, ack)];
    }
  }
}
