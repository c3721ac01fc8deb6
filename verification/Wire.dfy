/** The envelope both stream protocols share: a 4-byte little-endian size, then version,
    message type and payload; and the fixed-size chunk header inside chunk payloads. */
module Wire {
  import opened Bytes

  datatype Message = Message(version: uint16, kind: byte, payload: bytes)

  function Envelope(m: Message): (b: bytes)
    ensures |b| == 3 + |m.payload|
  {
    LE(2, m.version) + [m.kind] + m.payload
  }

  /** The bytes a message is written as; the size prefix keeps only 32 bits. */
  function Written(m: Message): bytes {
    LE(4, |Envelope(m)| % UINT32) + Envelope(m)
  }

  /** Split a complete envelope. */
  function Opened(data: bytes): (m: Message)
    requires |data| >= 3
    ensures |m.payload| == |data| - 3
  {
    Widths();
    LEOfFromLE(data[..2]);
    Message(FromLE(data[..2]), data[2], data[3..])
  }

  lemma OpenedEnvelope(m: Message)
    ensures Opened(Envelope(m)) == m
  {
    Widths();
    FromLEOfLE(2, m.version);
    assert Envelope(m)[..2] == LE(2, m.version) && Envelope(m)[3..] == m.payload;
  }

  lemma EnvelopeOpened(data: bytes)
    requires |data| >= 3
    ensures Envelope(Opened(data)) == data
  {
    LEOfFromLE(data[..2]);
    assert data == data[..2] + [data[2]] + data[3..];
  }

  /** The size prefix announces an envelope that is all there and opens to `m`. */
  predicate Announces(s: bytes, m: Message, rest: bytes) {
    var n := |Envelope(m)|;
    |s| >= 4 + n && FromLE(s[..4]) == n && Opened(s[4..4 + n]) == m && s[4 + n..] == rest
  }

  lemma WrittenAnnounces(m: Message, rest: bytes)
    requires |Envelope(m)| < UINT32
    ensures Announces(Written(m) + rest, m, rest)
  {
    var n, s := |Envelope(m)|, Written(m) + rest;
    Widths();
    FromLEOfLE(4, n);
    assert s[..4] == LE(4, n) && s[4..4 + n] == Envelope(m) && s[4 + n..] == rest;
    OpenedEnvelope(m);
  }

  lemma AnnouncedIsWritten(s: bytes, m: Message, rest: bytes)
    requires |Envelope(m)| < UINT32 && Announces(s, m, rest)
    ensures s == Written(m) + rest
  {
    var n := |Envelope(m)|;
    LEOfFromLE(s[..4]);
    EnvelopeOpened(s[4..4 + n]);
    assert s == s[..4] + s[4..4 + n] + s[4 + n..];
  }

  lemma WrittenIff(m: Message, s: bytes, rest: bytes)
    requires |Envelope(m)| < UINT32
    ensures s == Written(m) + rest <==> Announces(s, m, rest)
  {
    WrittenAnnounces(m, rest);
    if Announces(s, m, rest) {
      AnnouncedIsWritten(s, m, rest);
    }
  }

  // -------------------------------------------------------- chunk headers

  const HASH_SIZE := 32
  const NONCE_SIZE := 12
  const HEADER_SIZE := 66

  type Hash = b: bytes | |b| == 32
    witness [0, 0, 0, 0, 0, 0, 0, 0, 0, 0, 0, 0, 0, 0, 0, 0, 0, 0, 0, 0, 0, 0, 0, 0, 0, 0, 0, 0, 0, 0, 0, 0]
  type Nonce = b: bytes | |b| == 12 witness [0, 0, 0, 0, 0, 0, 0, 0, 0, 0, 0, 0]

  datatype ChunkHeader = ChunkHeader(
    version: uint16, id: Hash, index: uint32, offset: int64, plainSize: uint32, cipherSize: uint32, nonce: Nonce)

  datatype Chunk = Chunk(header: ChunkHeader, data: bytes)

  function HeaderBytes(h: ChunkHeader): (b: bytes)
    ensures |b| == HEADER_SIZE
  {
    LE(2, h.version) + h.id + LE(4, h.index) + LE(8, TwosComplement(h.offset)) + LE(4, h.plainSize)
    + LE(4, h.cipherSize) + h.nonce
  }

  function Signed(u: uint64): int64 {
    if u < 0x8000_0000_0000_0000 then u else u - UINT64
  }

  function Field(b: bytes): (v: nat)
    ensures v < Pow256(|b|)
  {
    LEOfFromLE(b);
    FromLE(b)
  }

  function ParseHeader(b: bytes): ChunkHeader
    requires |b| == HEADER_SIZE
  {
    Widths();
    ChunkHeader(
      Field(b[..2]), b[2..34], Field(b[34..38]), Signed(Field(b[38..46])), Field(b[46..50]), Field(b[50..54]), b[54..])
  }

  lemma HeaderParses(h: ChunkHeader)
    ensures ParseHeader(HeaderBytes(h)) == h
  {
    var b := HeaderBytes(h);
    Widths();
    FromLEOfLE(2, h.version);
    FromLEOfLE(4, h.index);
    FromLEOfLE(8, TwosComplement(h.offset));
    FromLEOfLE(4, h.plainSize);
    FromLEOfLE(4, h.cipherSize);
    assert b[..2] == LE(2, h.version) && b[2..34] == h.id && b[34..38] == LE(4, h.index);
    assert b[38..46] == LE(8, TwosComplement(h.offset)) && b[46..50] == LE(4, h.plainSize);
    assert b[50..54] == LE(4, h.cipherSize) && b[54..] == h.nonce;
  }

  lemma ParsedHeaderBytes(b: bytes)
    requires |b| == HEADER_SIZE
    ensures HeaderBytes(ParseHeader(b)) == b
  {
    LEOfFromLE(b[..2]);
    LEOfFromLE(b[34..38]);
    LEOfFromLE(b[38..46]);
    LEOfFromLE(b[46..50]);
    LEOfFromLE(b[50..54]);
    assert b == b[..2] + b[2..34] + b[34..38] + b[38..46] + b[46..50] + b[50..54] + b[54..];
  }
}
