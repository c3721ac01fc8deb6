/** The chunk protocol's two readers: the strict frame decoder, whole or in two halves,
    and the lenient message reader followed by validation. */
module Frames {
  import opened Bytes
  import opened Options
  import opened Wire

  const VERSION: uint16 := 1
  const FRAME_HEADER := 7
  const MAX_FRAME: nat := 2 * 1024 * 1024
  const MAX_PAYLOAD: nat := MAX_FRAME - 3
  const MAX_REQUEST: nat := 512
  const MAX_TICKET: nat := 4096
  const MAX_ERROR_TEXT: nat := 512
  const MAX_ERROR: nat := MAX_ERROR_TEXT + 128

  const REQUEST_MANIFEST: byte := 1
  const MANIFEST: byte := 2
  const REQUEST_CHUNK: byte := 3
  const CHUNK: byte := 4
  const ACK: byte := 5
  const ERROR: byte := 6
  const TICKET: byte := 7

  /** Zero means that the type is unknown. */
  function MaxPayload(kind: byte): nat {
    if kind == REQUEST_MANIFEST || kind == REQUEST_CHUNK then MAX_REQUEST
    else if kind == MANIFEST || kind == CHUNK then MAX_PAYLOAD
    else if kind == ACK then HASH_SIZE + 1
    else if kind == TICKET then MAX_TICKET
    else if kind == ERROR then MAX_ERROR
    else 0
  }

  datatype Error = Truncated | BadSize | BadVersion | UnknownType | TooLarge | EndOfStream | PartialRead | OverFrameCap

  /** What a read returns and what it leaves in the stream. */
  datatype Got<+T> = Got(result: Result<T, Error>, rest: bytes)

  // --------------------------------------------------------- specification

  function DecodeFrame(s: bytes): Got<Message> {
    if |s| < FRAME_HEADER then Got(Err(Truncated), [])
    else
      var size, version, kind, rest := FromLE(s[..4]), FromLE(s[4..6]), s[6], s[7..];
      if size < 3 then Got(Err(BadSize), rest)
      else if version != VERSION then Got(Err(BadVersion), rest)
      else if MaxPayload(kind) == 0 then Got(Err(UnknownType), rest)
      else if size == 3 then Got(Err(BadSize), rest)
      else if size - 3 > MaxPayload(kind) then Got(Err(TooLarge), rest)
      else if |rest| < size - 3 then Got(Err(Truncated), [])
      else Got(Ok(Message(version, kind, rest[..size - 3])), rest[size - 3..])
  }

  datatype Header = Header(version: uint16, kind: byte, payloadSize: uint32)

  function DecodeHeader(s: bytes): Got<Header> {
    if |s| < FRAME_HEADER then Got(Err(Truncated), [])
    else
      Widths();
      var size, version, kind, rest := Field(s[..4]), Field(s[4..6]), s[6], s[7..];
      if size < 3 then Got(Err(BadSize), rest)
      else if version != VERSION then Got(Err(BadVersion), rest)
      else if MaxPayload(kind) == 0 then Got(Err(UnknownType), rest)
      else if size == 3 then Got(Err(BadSize), rest)
      else if size - 3 > MaxPayload(kind) then Got(Err(TooLarge), rest)
      else Got(Ok(Header(version, kind, size - 3)), rest)
  }

  function ReadPayload(s: bytes, kind: byte, size: uint32): Got<bytes> {
    if MaxPayload(kind) == 0 then Got(Err(UnknownType), s)
    else if size == 0 then Got(Err(BadSize), s)
    else if size > MaxPayload(kind) then Got(Err(TooLarge), s)
    else if |s| < size then Got(Err(Truncated), [])
    else Got(Ok(s[..size]), s[size..])
  }

  /** The error of a read that got `have` bytes instead of `want`. */
  function Short(have: nat, want: nat): Error {
    if have == 0 && want > 0 then EndOfStream else PartialRead
  }

  function ReadMessage(s: bytes): Got<Message> {
    if |s| < 4 then Got(Err(Short(|s|, 4)), [])
    else
      var size, rest := FromLE(s[..4]), s[4..];
      if size > MAX_FRAME then Got(Err(OverFrameCap), rest)
      else if |rest| < size then Got(Err(Short(|rest|, size)), [])
      else if size < 2 then Got(Err(Short(size, 2)), rest[size..])
      else if size < 3 then Got(Err(EndOfStream), rest[size..])
      else Got(Ok(Opened(rest[..size])), rest[size..])
  }

  // ------------------------------------------------------------ validation

  datatype Invalid =
    | Version | Type | PayloadLength | ContentId | ManifestPayload | ChunkId | ChunkIndex | Ciphertext
    | AckStatus | ErrorCode | ErrorText | EmptyTicket

  const MAX_CHUNK_INDEX: nat := UINT32 - 1

  function ValidateChunk(payload: bytes): Option<Invalid> {
    if |payload| < HEADER_SIZE then Some(PayloadLength)
    else
      var h, ciphertext := ParseHeader(payload[..HEADER_SIZE]), payload[HEADER_SIZE..];
      if h.version != VERSION then Some(Invalid.Version)
      else if h.index > MAX_CHUNK_INDEX then Some(ChunkIndex)
      else if h.cipherSize != |ciphertext| % UINT32 then Some(Ciphertext)
      else if ciphertext == [] then Some(Ciphertext)
      else None
  }

  function ValidateError(payload: bytes): Option<Invalid> {
    if payload == [] then Some(PayloadLength)
    else if !(1 <= payload[0] <= 8) then Some(ErrorCode)
    else if |payload| - 1 > MAX_ERROR_TEXT then Some(ErrorText)
    else None
  }

  function ValidatePayload(kind: byte, payload: bytes): Option<Invalid> {
    if MaxPayload(kind) == 0 then Some(Type)
    else if |payload| > MaxPayload(kind) then Some(PayloadLength)
    else if kind == REQUEST_MANIFEST then (if |payload| != HASH_SIZE then Some(ContentId) else None)
    else if kind == MANIFEST then (if |payload| < HASH_SIZE then Some(ManifestPayload) else None)
    else if kind == REQUEST_CHUNK then (if |payload| != HASH_SIZE then Some(ChunkId) else None)
    else if kind == CHUNK then ValidateChunk(payload)
    else if kind == ACK then
      (if |payload| != HASH_SIZE + 1 then Some(PayloadLength)
       else if payload[HASH_SIZE] != 0 then Some(AckStatus)
       else None)
    else if kind == TICKET then
      (if payload == [] then Some(EmptyTicket) else if |payload| > MAX_TICKET then Some(PayloadLength) else None)
    else ValidateError(payload)
  }

  function Validate(m: Message): Option<Invalid> {
    if m.version != VERSION then Some(Invalid.Version) else ValidatePayload(m.kind, m.payload)
  }

  // --------------------------------------------------------------- results

  /** A chunk payload: a header of version 1 that gives the size of the ciphertext after it. */
  ghost predicate IsChunkPayload(payload: bytes) {
    exists h: ChunkHeader, ciphertext: bytes ::
      && payload == HeaderBytes(h) + ciphertext && h.version == VERSION
      && ciphertext != [] && h.cipherSize == |ciphertext| % UINT32
  }

  lemma ValidChunkIff(payload: bytes)
    ensures ValidateChunk(payload).None? <==> IsChunkPayload(payload)
  {
    if |payload| >= HEADER_SIZE {
      var h, ciphertext := ParseHeader(payload[..HEADER_SIZE]), payload[HEADER_SIZE..];
      ParsedHeaderBytes(payload[..HEADER_SIZE]);
      assert payload == HeaderBytes(h) + ciphertext;
    }
    if IsChunkPayload(payload) {
      var h: ChunkHeader, ciphertext: bytes :|
        && payload == HeaderBytes(h) + ciphertext && h.version == VERSION
        && ciphertext != [] && h.cipherSize == |ciphertext| % UINT32;
      HeaderParses(h);
      assert payload[..HEADER_SIZE] == HeaderBytes(h) && payload[HEADER_SIZE..] == ciphertext;
    }
  }

  /** Exactly which messages are valid, type by type. */
  lemma ValidIff(m: Message)
    ensures
      Validate(m).None? <==>
        && m.version == 1
        && (|| (m.kind in {REQUEST_MANIFEST, REQUEST_CHUNK} && |m.payload| == 32)
            || (m.kind == MANIFEST && 32 <= |m.payload| <= MAX_PAYLOAD)
            || (m.kind == CHUNK && |m.payload| <= MAX_PAYLOAD && IsChunkPayload(m.payload))
            || (m.kind == ACK && |m.payload| == 33 && m.payload[32] == 0)
            || (m.kind == TICKET && 1 <= |m.payload| <= 4096)
            || (m.kind == ERROR && 1 <= |m.payload| <= 513 && 1 <= m.payload[0] <= 8))
  {
    ValidChunkIff(m.payload);
  }

  /** On every stream the whole decoder does what its two halves do in a row, down to the
      error and to what stays unread. */
  lemma DecodeInTwoHalves(s: bytes)
    ensures
      var h := DecodeHeader(s);
      DecodeFrame(s) ==
        if h.result.Err? then Got(Err(h.result.error), h.rest)
        else
          var p := ReadPayload(h.rest, h.result.value.kind, h.result.value.payloadSize);
          if p.result.Err? then Got(Err(p.result.error), p.rest)
          else Got(Ok(Message(h.result.value.version, h.result.value.kind, p.result.value)), p.rest)
  {}

  /** What the decoder accepts: current version, known type, a payload in its limits. */
  predicate Framed(m: Message) {
    m.version == VERSION && 1 <= |m.payload| <= MaxPayload(m.kind)
  }

  /** What the lenient reader accepts: anything that fits a frame. */
  predicate Fits(m: Message) {
    |Envelope(m)| <= MAX_FRAME
  }

  /** The decoder inverts the writer on exactly the messages it accepts. */
  lemma DecodeFrameIff(s: bytes, m: Message, rest: bytes)
    ensures DecodeFrame(s) == Got(Ok(m), rest) <==> Framed(m) && s == Written(m) + rest
  {
    if Framed(m) {
      WrittenIff(m, s, rest);
      var n := |Envelope(m)|;
      if |s| >= 4 + n {
        var data := s[4..4 + n];
        assert data[..2] == s[4..6] && data[2] == s[6] && data[3..] == s[7..4 + n];
        assert s[7..][..n - 3] == s[7..4 + n] && s[7..][n - 3..] == s[4 + n..];
      }
    }
  }

  lemma ReadMessageIff(s: bytes, m: Message, rest: bytes)
    ensures ReadMessage(s) == Got(Ok(m), rest) <==> Fits(m) && s == Written(m) + rest
  {
    if Fits(m) {
      WrittenIff(m, s, rest);
      var n := |Envelope(m)|;
      if |s| >= 4 + n {
        assert s[4..][..n] == s[4..4 + n] && s[4..][n..] == s[4 + n..];
      }
    }
  }

  /** Whatever the decoder accepts, the reader reads as the same message. */
  lemma DecodedIsRead(s: bytes)
    requires DecodeFrame(s).result.Ok?
    ensures ReadMessage(s) == DecodeFrame(s)
  {
    var Got(r, rest) := DecodeFrame(s);
    DecodeFrameIff(s, r.value, rest);
    ReadMessageIff(s, r.value, rest);
  }

  lemma ValidIsFramed(m: Message)
    requires Validate(m).None?
    ensures Framed(m)
  {}

  /** A message that was read and is valid is also what the decoder gives. */
  lemma ValidReadIsDecoded(s: bytes)
    requires ReadMessage(s).result.Ok? && Validate(ReadMessage(s).result.value).None?
    ensures DecodeFrame(s) == ReadMessage(s)
  {
    var Got(r, rest) := ReadMessage(s);
    ReadMessageIff(s, r.value, rest);
    ValidIsFramed(r.value);
    DecodeFrameIff(s, r.value, rest);
  }

  /** Writing then reading gives the message back exactly if it fits a frame. */
  lemma RoundTripIff(m: Message, tail: bytes)
    ensures ReadMessage(Written(m) + tail) == Got(Ok(m), tail) <==> Fits(m)
  {
    ReadMessageIff(Written(m) + tail, m, tail);
  }

  function WriteAll(ms: seq<Message>): bytes {
    if ms == [] then [] else Written(ms[0]) + WriteAll(ms[1..])
  }

  /** Read `n` messages in a row. */
  function ReadAll(s: bytes, n: nat): Got<seq<Message>> {
    if n == 0 then Got(Ok([]), s)
    else
      var first := ReadMessage(s);
      if first.result.Err? then Got(Err(first.result.error), first.rest)
      else
        var others := ReadAll(first.rest, n - 1);
        if others.result.Err? then others else Got(Ok([first.result.value] + others.result.value), others.rest)
  }

  /** Messages written back to back read back unchanged, whatever follows them. */
  lemma {:induction false} BackToBack(ms: seq<Message>, tail: bytes)
    requires forall i :: 0 <= i < |ms| ==> Fits(ms[i])
    ensures ReadAll(WriteAll(ms) + tail, |ms|) == Got(Ok(ms), tail)
  {
    if ms == [] {
      assert WriteAll(ms) + tail == tail;
    } else {
      var after := WriteAll(ms[1..]) + tail;
      assert WriteAll(ms) + tail == Written(ms[0]) + after;
      RoundTripIff(ms[0], after);
      BackToBack(ms[1..], tail);
      assert ms == [ms[0]] + ms[1..];
    }
  }

  /** Two lists of messages with the same bytes are the same list. */
  lemma {:induction false} WriteAllInjective(ms: seq<Message>, ns: seq<Message>)
    requires WriteAll(ms) == WriteAll(ns)
    requires forall i :: 0 <= i < |ms| ==> Fits(ms[i])
    requires forall i :: 0 <= i < |ns| ==> Fits(ns[i])
    ensures ms == ns
  {
    if ms != [] && ns != [] {
      RoundTripIff(ms[0], WriteAll(ms[1..]));
      RoundTripIff(ns[0], WriteAll(ns[1..]));
      WriteAllInjective(ms[1..], ns[1..]);
      assert ms == [ms[0]] + ms[1..] && ns == [ns[0]] + ns[1..];
    }
  }

  /** Some payload the decoder accepts for this type is not valid. */
  function InvalidPayload(kind: byte): bytes {
    if kind == ACK then seq(HASH_SIZE, _ => 0) + [1] else [0]
  }

  /** The decoder and the validation agree on a known type, so that every decoded frame of
      it is valid, exactly for tickets. */
  lemma DecodedIsValidIff(kind: byte)
    requires MaxPayload(kind) > 0
    ensures
      (forall s :: DecodeFrame(s).result.Ok? && DecodeFrame(s).result.value.kind == kind ==>
         Validate(DecodeFrame(s).result.value).None?)
      <==> kind == TICKET
  {
    if kind == TICKET {
      forall s | DecodeFrame(s).result.Ok? && DecodeFrame(s).result.value.kind == kind
        ensures Validate(DecodeFrame(s).result.value).None?
      {
        DecodeFrameIff(s, DecodeFrame(s).result.value, DecodeFrame(s).rest);
      }
    } else {
      var m := Message(VERSION, kind, InvalidPayload(kind));
      assert Written(m) + [] == Written(m);
      DecodeFrameIff(Written(m), m, []);
      assert Validate(m).Some?;
    }
  }

  /** The decoder alone lets a failed acknowledgement through; validation does not. */
  lemma DecodedNeedNotBeValid(id: Hash)
    ensures
      var m := Message(VERSION, ACK, id + [1]);
      DecodeFrame(Written(m)) == Got(Ok(m), []) && Validate(m) == Some(AckStatus)
  {
    var m := Message(VERSION, ACK, id + [1]);
    assert Written(m) + [] == Written(m);
    DecodeFrameIff(Written(m), m, []);
  }

  // ------------------------------------------------------- reading a stream

  /** Size, version and type are taken from the first bytes; the payload buffer is only
      filled after its size has been checked. */
  class Reader {
    var rest: bytes

    constructor (s: bytes)
      ensures rest == s
    {
      rest := s;
    }

    /** Take exactly `n` bytes; a shorter stream is used up and the read fails. */
    method ReadFull(n: nat) returns (r: Result<bytes, Error>)
      modifies this
      ensures r.Ok? <==> |old(rest)| >= n
      ensures r.Ok? ==> r.value == old(rest)[..n] && rest == old(rest)[n..]
      ensures r.Err? ==> rest == [] && r.error == Short(|old(rest)|, n)
    {
      if |rest| < n {
        r := Err(if |rest| == 0 then EndOfStream else PartialRead);
        rest := [];
      } else {
        r := Ok(rest[..n]);
        rest := rest[n..];
      }
    }

    method Decode() returns (r: Result<Message, Error>)
      modifies this
      ensures Got(r, rest) == DecodeFrame(old(rest))
    {
      var header := ReadFull(FRAME_HEADER);
      if header.Err? { return Err(Truncated); }
      ghost var s := old(rest);
      assert s[..7][..4] == s[..4] && s[..7][4..6] == s[4..6];
      Widths();
      var size, version, kind := Field(header.value[..4]), Field(header.value[4..6]), header.value[6];
      if size < 3 { return Err(BadSize); }
      if version != VERSION { return Err(BadVersion); }
      var limit := MaxPayload(kind);
      if limit <= 0 { return Err(UnknownType); }
      var declared := size - 3;
      if declared == 0 { return Err(BadSize); }
      if declared > limit { return Err(TooLarge); }
      var payload := ReadFull(declared);
      if payload.Err? { return Err(Truncated); }
      r := Ok(Message(version, kind, payload.value));
    }

    method HeaderOnly() returns (r: Result<Header, Error>)
      modifies this
      ensures Got(r, rest) == DecodeHeader(old(rest))
    {
      var header := ReadFull(FRAME_HEADER);
      if header.Err? { return Err(Truncated); }
      ghost var s := old(rest);
      assert s[..7][..4] == s[..4] && s[..7][4..6] == s[4..6];
      Widths();
      var size, version, kind := Field(header.value[..4]), Field(header.value[4..6]), header.value[6];
      if size < 3 { return Err(BadSize); }
      if version != VERSION { return Err(BadVersion); }
      var limit := MaxPayload(kind);
      if limit <= 0 { return Err(UnknownType); }
      if size == 3 { return Err(BadSize); }
      if size - 3 > limit { return Err(TooLarge); }
      r := Ok(Header(version, kind, size - 3));
    }

    method PayloadOnly(kind: byte, size: uint32) returns (r: Result<bytes, Error>)
      modifies this
      ensures Got(r, rest) == ReadPayload(old(rest), kind, size)
    {
      var limit := MaxPayload(kind);
      if limit <= 0 { return Err(UnknownType); }
      if size == 0 { return Err(BadSize); }
      if size > limit { return Err(TooLarge); }
      r := ReadFull(size);
      if r.Err? { return Err(Truncated); }
    }

    method Read() returns (r: Result<Message, Error>)
      modifies this
      ensures Got(r, rest) == ReadMessage(old(rest))
    {
      var prefix := ReadFull(4);
      if prefix.Err? { return Err(prefix.error); }
      var size := FromLE(prefix.value);
      if size > MAX_FRAME { return Err(OverFrameCap); }
      var data := ReadFull(size);
      if data.Err? { return Err(data.error); }
      if |data.value| < 2 { return Err(if |data.value| == 0 then EndOfStream else PartialRead); }
      if |data.value| < 3 { return Err(EndOfStream); }
      r := Ok(Opened(data.value));
    }
  }
}
