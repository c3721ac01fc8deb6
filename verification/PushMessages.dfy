/** Messages of the push protocol: framing, payload builders and parsers, and the replies
    a publisher takes for a confirmation. */
module PushMessages {
  import opened Bytes
  import opened Options
  import opened Wire

  const MAX_MESSAGE: nat := 4 * 1024 * 1024
  const VERSION: uint16 := 1

  const PUSH_MANIFEST: byte := 0x10
  const PUSH_MANIFEST_ACK: byte := 0x11
  const PUSH_CHUNK: byte := 0x12
  const PUSH_CHUNK_ACK: byte := 0x13
  const BATCH_COMPLETE: byte := 0x14
  const BATCH_COMPLETE_ACK: byte := 0x15
  const PUSH_ERROR: byte := 0x16
  const STATUS_OK: byte := 0

  datatype Error = OverLimit | TooShort | EndOfStream | BadLength

  // ---------------------------------------------------------------- frames

  /** The limit is compared with the size after it was cut to 32 bits. */
  function WritePush(m: Message): Result<bytes, Error> {
    if |Envelope(m)| % UINT32 > MAX_MESSAGE then Err(OverLimit) else Ok(Written(m))
  }

  datatype Got = Got(result: Result<Message, Error>, rest: bytes)

  function ReadPush(s: bytes): Got {
    if |s| < 4 then Got(Err(EndOfStream), [])
    else
      var size, rest := FromLE(s[..4]), s[4..];
      if size > MAX_MESSAGE then Got(Err(OverLimit), rest)
      else if size < 3 then Got(Err(TooShort), rest)
      else if |rest| < size then Got(Err(EndOfStream), [])
      else Got(Ok(Opened(rest[..size])), rest[size..])
  }

  lemma ReadPushIff(s: bytes, m: Message, rest: bytes)
    ensures ReadPush(s) == Got(Ok(m), rest) <==> |Envelope(m)| <= MAX_MESSAGE && s == Written(m) + rest
  {
    if |Envelope(m)| <= MAX_MESSAGE {
      WrittenIff(m, s, rest);
      var n := |Envelope(m)|;
      if |s| >= 4 + n {
        assert s[4..][..n] == s[4..4 + n] && s[4..][n..] == s[4 + n..];
      }
    }
  }

  /** Sending works and the other side reads the same message exactly if it is within
      the limit. */
  lemma PushRoundTripIff(m: Message, tail: bytes)
    ensures |Envelope(m)| <= MAX_MESSAGE <==>
      WritePush(m).Ok? && ReadPush(WritePush(m).value + tail) == Got(Ok(m), tail)
  {
    if |Envelope(m)| <= MAX_MESSAGE || WritePush(m).Ok? {
      ReadPushIff(Written(m) + tail, m, tail);
    }
  }

  // ------------------------------------------------------------ push manifest

  function Joined(ids: seq<Hash>): (b: bytes)
    ensures |b| == 32 * |ids|
  {
    if ids == [] then [] else Joined(ids[..|ids| - 1]) + ids[|ids| - 1]
  }

  function ManifestPayload(content: Hash, ids: seq<Hash>, manifest: bytes): bytes {
    content + LE(4, |ids| % UINT32) + Joined(ids) + manifest
  }

  datatype PushManifest = PushManifest(content: Hash, ids: seq<Hash>, manifest: bytes)

  method BuildPushManifest(content: Hash, ids: seq<Hash>, manifest: bytes) returns (m: Message)
    ensures m == Message(VERSION, PUSH_MANIFEST, ManifestPayload(content, ids, manifest))
  {
    var buf := content + LE(4, |ids| % UINT32);
    for i := 0 to |ids|
      invariant buf == content + LE(4, |ids| % UINT32) + Joined(ids[..i])
    {
      assert ids[..i + 1][..i] == ids[..i];
      buf := buf + ids[i];
    }
    assert ids[..|ids|] == ids;
    m := Message(VERSION, PUSH_MANIFEST, buf + manifest);
  }

  function Slices(b: bytes, n: nat): (ids: seq<Hash>)
    requires |b| >= 32 * n
    ensures |ids| == n
  {
    if n == 0 then [] else Slices(b, n - 1) + [b[32 * (n - 1)..32 * n]]
  }

  function ParsedManifest(payload: bytes): Result<PushManifest, Error> {
    if |payload| < 36 then Err(BadLength)
    else
      var count := FromLE(payload[32..36]);
      if |payload| < 36 + count * 32 then Err(BadLength)
      else Ok(PushManifest(payload[..32], Slices(payload[36..], count), payload[36 + count * 32..]))
  }

  lemma SubSlice(s: bytes, from: nat, lo: nat, hi: nat)
    requires lo <= hi && from + hi <= |s|
    ensures s[from..][lo..hi] == s[from + lo..from + hi]
  {}

  method ParsePushManifest(payload: bytes) returns (r: Result<PushManifest, Error>)
    ensures r == ParsedManifest(payload)
  {
    if |payload| < 36 { return Err(BadLength); }
    var count := FromLE(payload[32..36]);
    if |payload| < 36 + count * 32 { return Err(BadLength); }
    var ids: seq<Hash> := [];
    for i := 0 to count
      invariant ids == Slices(payload[36..], i)
    {
      var offset := 36 + i * 32;
      SubSlice(payload, 36, 32 * i, 32 * (i + 1));
      ids := ids + [payload[offset..offset + 32]];
    }
    r := Ok(PushManifest(payload[..32], ids, payload[36 + count * 32..]));
  }

  lemma {:induction false} SlicesOfJoined(ids: seq<Hash>, tail: bytes)
    ensures Slices(Joined(ids) + tail, |ids|) == ids
  {
    if ids != [] {
      var init, last := ids[..|ids| - 1], ids[|ids| - 1];
      SlicesOfJoined(init, last + tail);
      var b := Joined(ids) + tail;
      assert b == Joined(init) + (last + tail);
      assert b[32 * |init|..32 * |ids|] == last;
      assert ids == init + [last];
    }
  }

  lemma {:induction false} JoinedOfSlices(b: bytes, n: nat)
    requires |b| >= 32 * n
    ensures Joined(Slices(b, n)) == b[..32 * n]
  {
    if n > 0 {
      JoinedOfSlices(b, n - 1);
      var ids := Slices(b, n);
      assert ids[..n - 1] == Slices(b, n - 1);
      assert b[..32 * n] == b[..32 * (n - 1)] + b[32 * (n - 1)..32 * n];
    }
  }

  lemma ManifestFields(content: Hash, ids: seq<Hash>, manifest: bytes)
    ensures
      var payload := ManifestPayload(content, ids, manifest);
      && |payload| == 36 + 32 * |ids| + |manifest|
      && payload[..32] == content && payload[32..36] == LE(4, |ids| % UINT32)
      && payload[36..] == Joined(ids) + manifest && payload[36 + |ids| * 32..] == manifest
  {
    FourParts(content, LE(4, |ids| % UINT32), Joined(ids), manifest);
  }

  lemma FourParts(a: bytes, b: bytes, c: bytes, d: bytes)
    ensures
      var s := a + b + c + d;
      && s[..|a|] == a && s[|a|..|a| + |b|] == b
      && s[|a| + |b|..] == c + d && s[|a| + |b| + |c|..] == d
  {}

  lemma CountField(n: nat)
    requires n < UINT32
    ensures FromLE(LE(4, n)) == n
  {
    Widths();
    FromLEOfLE(4, n);
  }

  lemma CountAt(payload: bytes, n: nat)
    requires |payload| >= 36 && n < UINT32 && payload[32..36] == LE(4, n % UINT32)
    ensures FromLE(payload[32..36]) == n
  {
    CountField(n);
  }

  lemma ManifestParses(content: Hash, ids: seq<Hash>, manifest: bytes)
    requires |ids| < UINT32
    ensures ParsedManifest(ManifestPayload(content, ids, manifest)) == Ok(PushManifest(content, ids, manifest))
  {
    ManifestFields(content, ids, manifest);
    CountAt(ManifestPayload(content, ids, manifest), |ids|);
    FieldsParse(ManifestPayload(content, ids, manifest), content, ids, manifest);
  }

  lemma FieldsParse(payload: bytes, content: Hash, ids: seq<Hash>, manifest: bytes)
    requires |payload| == 36 + 32 * |ids| + |manifest|
    requires payload[..32] == content && FromLE(payload[32..36]) == |ids|
    requires payload[36..] == Joined(ids) + manifest && payload[36 + |ids| * 32..] == manifest
    ensures ParsedManifest(payload) == Ok(PushManifest(content, ids, manifest))
  {
    SlicesOfJoined(ids, manifest);
  }

  lemma CountBytes(b: bytes)
    requires |b| == 4
    ensures FromLE(b) < UINT32 && LE(4, FromLE(b) % UINT32) == b
  {
    Widths();
    FieldInverse(b, UINT32);
  }

  /** What a successful parse says about the payload. */
  lemma ParsedFields(payload: bytes)
    requires ParsedManifest(payload).Ok?
    ensures
      var m := ParsedManifest(payload).value;
      && |payload| >= 36 + |m.ids| * 32 && |m.ids| == FromLE(payload[32..36])
      && m.content == payload[..32] && m.manifest == payload[36 + |m.ids| * 32..]
      && Joined(m.ids) == payload[36..][..32 * |m.ids|]
  {
    JoinedOfSlices(payload[36..], FromLE(payload[32..36]));
  }

  /** A built manifest message parses to what it was built from exactly if the number of
      chunks fits its 32-bit field. */
  lemma ManifestRoundTripIff(content: Hash, ids: seq<Hash>, manifest: bytes)
    ensures ParsedManifest(ManifestPayload(content, ids, manifest)) == Ok(PushManifest(content, ids, manifest))
      <==> |ids| < UINT32
  {
    if |ids| < UINT32 {
      ManifestParses(content, ids, manifest);
    } else if ParsedManifest(ManifestPayload(content, ids, manifest)).Ok? {
      ParsedFields(ManifestPayload(content, ids, manifest));
      CountBytes(ManifestPayload(content, ids, manifest)[32..36]);
    }
  }

  /** Conversely a parsed payload is the one built from the result. */
  lemma ManifestRebuilds(payload: bytes)
    requires ParsedManifest(payload).Ok?
    ensures
      var m := ParsedManifest(payload).value;
      |m.ids| < UINT32 && ManifestPayload(m.content, m.ids, m.manifest) == payload
  {
    ParsedFields(payload);
    CountBytes(payload[32..36]);
    Rebuilt(payload, ParsedManifest(payload).value);
  }

  lemma Rebuilt(payload: bytes, m: PushManifest)
    requires |payload| >= 36 + |m.ids| * 32
    requires m.content == payload[..32] && LE(4, |m.ids| % UINT32) == payload[32..36]
    requires Joined(m.ids) == payload[36..][..32 * |m.ids|] && m.manifest == payload[36 + |m.ids| * 32..]
    ensures ManifestPayload(m.content, m.ids, m.manifest) == payload
  {
    CutInFour(payload, |m.ids|);
  }

  lemma CutInFour(payload: bytes, count: nat)
    requires |payload| >= 36 + count * 32
    ensures payload == payload[..32] + payload[32..36] + payload[36..][..32 * count] + payload[36 + count * 32..]
  {}

  // --------------------------------------------------------------- push chunk

  function ChunkPayload(content: Hash, c: Chunk): bytes {
    content + HeaderBytes(c.header) + c.data
  }

  function ParseChunk(payload: bytes): Result<(Hash, Chunk), Error> {
    if |payload| < 32 + HEADER_SIZE then Err(BadLength)
    else Ok((payload[..32], Chunk(ParseHeader(payload[32..32 + HEADER_SIZE]), payload[32 + HEADER_SIZE..])))
  }

  lemma ChunkRoundTrip(content: Hash, c: Chunk)
    ensures ParseChunk(ChunkPayload(content, c)) == Ok((content, c))
  {
    var payload := ChunkPayload(content, c);
    HeaderParses(c.header);
    assert payload[..32] == content;
    assert payload[32..32 + HEADER_SIZE] == HeaderBytes(c.header) && payload[32 + HEADER_SIZE..] == c.data;
  }

  lemma ChunkRebuilds(payload: bytes)
    requires ParseChunk(payload).Ok?
    ensures ChunkPayload(ParseChunk(payload).value.0, ParseChunk(payload).value.1) == payload
  {
    ParsedHeaderBytes(payload[32..32 + HEADER_SIZE]);
    ThreeParts(payload, 32, 32 + HEADER_SIZE);
  }

  lemma ThreeParts<T>(s: seq<T>, i: nat, j: nat)
    requires i <= j <= |s|
    ensures s[..i] + s[i..j] + s[j..] == s
  {}

  // --------------------------------------------------------- acknowledgements

  function BuildAck(kind: byte, id: Hash, status: byte): Message {
    Message(VERSION, kind, id + [status])
  }

  function ParseAck(payload: bytes): Result<(Hash, byte), Error> {
    if |payload| != 33 then Err(BadLength) else Ok((payload[..32], payload[32]))
  }

  lemma AckRoundTrip(kind: byte, id: Hash, status: byte)
    ensures ParseAck(BuildAck(kind, id, status).payload) == Ok((id, status))
  {}

  datatype Reply =
    | Accepted | WriteFailed(why: Error) | ReadFailed(why: Error) | Refused | OtherType | BadAck | OtherId
    | Rejected(status: byte)

  /** Send a request and judge what comes back on the stream. */
  function Exchange(request: Message, ackKind: byte, id: Hash, incoming: bytes): Reply {
    var sent := WritePush(request);
    if sent.Err? then WriteFailed(sent.error)
    else
      var got := ReadPush(incoming);
      if got.result.Err? then ReadFailed(got.result.error)
      else
        var m := got.result.value;
        if m.kind == PUSH_ERROR then Refused
        else if m.kind != ackKind then OtherType
        else
          var ack := ParseAck(m.payload);
          if ack.Err? then BadAck
          else if ack.value.0 != id then OtherId
          else if ack.value.1 != STATUS_OK then Rejected(ack.value.1)
          else Accepted
  }

  predicate Confirmation(m: Message, ackKind: byte, id: Hash) {
    m.kind == ackKind && m.payload == id + [STATUS_OK]
  }

  /** A publisher takes a request for confirmed exactly if the request could be sent and
      the stream starts with an OK acknowledgement of that kind for that identifier. */
  lemma AcceptedIff(request: Message, ackKind: byte, id: Hash, incoming: bytes)
    requires ackKind in {PUSH_MANIFEST_ACK, PUSH_CHUNK_ACK, BATCH_COMPLETE_ACK}
    ensures Exchange(request, ackKind, id, incoming).Accepted? <==>
      && WritePush(request).Ok?
      && exists m: Message, rest: bytes :: Confirmation(m, ackKind, id) && incoming == Written(m) + rest
  {
    if WritePush(request).Ok? {
      var got := ReadPush(incoming);
      if got.result.Ok? {
        var m := got.result.value;
        ReadPushIff(incoming, m, got.rest);
        if |m.payload| == 33 {
          assert m.payload == m.payload[..32] + [m.payload[32]];
        }
        if Exchange(request, ackKind, id, incoming).Accepted? {
          assert Confirmation(m, ackKind, id) && incoming == Written(m) + got.rest;
        }
      }
      forall m: Message, rest: bytes | Confirmation(m, ackKind, id) && incoming == Written(m) + rest
        ensures Exchange(request, ackKind, id, incoming).Accepted?
      {
        ReadPushIff(incoming, m, rest);
      }
    }
  }

  /** What the handler answers to a chunk is what decides: its own acknowledgement of the
      chunk, with status OK. */
  lemma ChunkConfirmedByHandler(content: Hash, c: Chunk, id: Hash, status: byte, tail: bytes)
    requires WritePush(Message(VERSION, PUSH_CHUNK, ChunkPayload(content, c))).Ok?
    ensures
      var request, ack := Message(VERSION, PUSH_CHUNK, ChunkPayload(content, c)), BuildAck(PUSH_CHUNK_ACK, id, status);
      Exchange(request, PUSH_CHUNK_ACK, c.header.id, Written(ack) + tail).Accepted?
      <==> id == c.header.id && status == STATUS_OK
  {
    var ack := BuildAck(PUSH_CHUNK_ACK, id, status);
    ReadPushIff(Written(ack) + tail, ack, tail);
    AckRoundTrip(PUSH_CHUNK_ACK, id, status);
  }
}
