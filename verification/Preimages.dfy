/** The byte strings that get signed: payment vouchers, fail records and cache
    announcements, together with the textual escrow identifiers inside them. */
module Preimages {
  import opened Bytes
  import opened Options

  /** Length-prefixed string, big-endian. */
  function Str(s: text): bytes { BE(8, |s|) + s }
  function U64(v: uint64): bytes { BE(8, v) }
  function I64(v: int64): bytes { BE(8, TwosComplement(v)) }

  /** A length-prefixed string at the head of a message can be split off in one way only. */
  lemma StrHead(a: text, x: bytes, b: text, y: bytes)
    requires Str(a) + x == Str(b) + y
    ensures a == b && x == y
  {
    var l, r := Str(a) + x, Str(b) + y;
    assert l[..8] == BE(8, |a|) && r[..8] == BE(8, |b|);
    Widths();
    BEInjective(8, |a|, |b|);
    assert a == l[8..8 + |a|] && b == r[8..8 + |b|];
    assert x == l[8 + |a|..] && y == r[8 + |b|..];
  }

  lemma U64Head(v: uint64, x: bytes, w: uint64, y: bytes)
    requires U64(v) + x == U64(w) + y
    ensures v == w && x == y
  {
    var l, r := U64(v) + x, U64(w) + y;
    assert l[..8] == U64(v) && r[..8] == U64(w);
    assert x == l[8..] && y == r[8..];
    Widths();
    BEInjective(8, v, w);
  }

  lemma I64Head(v: int64, x: bytes, w: int64, y: bytes)
    requires I64(v) + x == I64(w) + y
    ensures v == w && x == y
  {
    U64Head(TwosComplement(v), x, TwosComplement(w), y);
  }

  // -------------------------------------------------------- payment vouchers

  datatype PaymentState = PaymentState(
    contractId: text, publisher: text, provider: text,
    sequence: uint64, period: uint64, cumulative: uint64,
    lastChallenge: text, validUntil: uint64, status: text,
    signature: bytes)

  function VoucherTail(s: PaymentState): bytes {
    Str(s.lastChallenge) + (U64(s.validUntil) + (Str(s.status) + []))
  }

  /** What the voucher digest is taken over; the signature itself is not part of it. */
  function VoucherPreimage(s: PaymentState): bytes {
    Str(s.contractId) + (Str(s.publisher) + (Str(s.provider) +
      (U64(s.sequence) + (U64(s.period) + (U64(s.cumulative) + VoucherTail(s))))))
  }

  /** Two vouchers with the same preimage agree in every signed field. */
  lemma VoucherInjective(a: PaymentState, b: PaymentState)
    requires VoucherPreimage(a) == VoucherPreimage(b)
    ensures a.(signature := []) == b.(signature := [])
  {
    var a6, b6 := VoucherTail(a), VoucherTail(b);
    var a5, b5 := U64(a.cumulative) + a6, U64(b.cumulative) + b6;
    var a4, b4 := U64(a.period) + a5, U64(b.period) + b5;
    var a3, b3 := U64(a.sequence) + a4, U64(b.sequence) + b4;
    var a2, b2 := Str(a.provider) + a3, Str(b.provider) + b3;
    StrHead(a.contractId, Str(a.publisher) + a2, b.contractId, Str(b.publisher) + b2);
    StrHead(a.publisher, a2, b.publisher, b2);
    StrHead(a.provider, a3, b.provider, b3);
    U64Head(a.sequence, a4, b.sequence, b4);
    U64Head(a.period, a5, b.period, b5);
    U64Head(a.cumulative, a6, b.cumulative, b6);
    VoucherTailInjective(a, b);
  }

  lemma VoucherTailInjective(a: PaymentState, b: PaymentState)
    requires VoucherTail(a) == VoucherTail(b)
    ensures a.lastChallenge == b.lastChallenge && a.validUntil == b.validUntil && a.status == b.status
  {
    var a1, b1 := Str(a.status) + [], Str(b.status) + [];
    StrHead(a.lastChallenge, U64(a.validUntil) + a1, b.lastChallenge, U64(b.validUntil) + b1);
    U64Head(a.validUntil, a1, b.validUntil, b1);
    StrHead(a.status, [], b.status, []);
  }

  /** The hasher's input, field by field. */
  method WriteVoucher(s: PaymentState) returns (buf: bytes)
    ensures buf == VoucherPreimage(s)
  {
    buf := Str(s.contractId);
    buf := buf + Str(s.publisher);
    buf := buf + Str(s.provider);
    buf := buf + U64(s.sequence);
    buf := buf + U64(s.period);
    buf := buf + U64(s.cumulative);
    buf := buf + Str(s.lastChallenge);
    buf := buf + U64(s.validUntil);
    buf := buf + Str(s.status);
  }

  // ----------------------------------------------------------- fail records

  /** "CIPHER_FAIL_RECORD_V1" */
  const DOMAIN_TAG: text :=
    [67, 73, 80, 72, 69, 82, 95, 70, 65, 73, 76, 95, 82, 69, 67, 79, 82, 68, 95, 86, 49]

  datatype FailRecord = FailRecord(
    escrowId: text, providerAddress: text, challengeId: text,
    period: uint64, sequence: uint64, issuedAt: int64,
    signature: bytes)

  function FailPayload(r: FailRecord): bytes {
    Str(DOMAIN_TAG) + (Str(r.escrowId) + (Str(r.providerAddress) + (Str(r.challengeId) +
      (U64(r.period) + (U64(r.sequence) + (I64(r.issuedAt) + []))))))
  }

  /** Two fail records with the same payload agree in every signed field. */
  lemma FailPayloadInjective(a: FailRecord, b: FailRecord)
    requires FailPayload(a) == FailPayload(b)
    ensures a.(signature := []) == b.(signature := [])
  {
    var a5, b5 := I64(a.issuedAt) + [], I64(b.issuedAt) + [];
    var a4, b4 := U64(a.sequence) + a5, U64(b.sequence) + b5;
    var a3, b3 := U64(a.period) + a4, U64(b.period) + b4;
    var a2, b2 := Str(a.challengeId) + a3, Str(b.challengeId) + b3;
    var a1, b1 := Str(a.providerAddress) + a2, Str(b.providerAddress) + b2;
    StrHead(DOMAIN_TAG, Str(a.escrowId) + a1, DOMAIN_TAG, Str(b.escrowId) + b1);
    StrHead(a.escrowId, a1, b.escrowId, b1);
    StrHead(a.providerAddress, a2, b.providerAddress, b2);
    StrHead(a.challengeId, a3, b.challengeId, b3);
    U64Head(a.period, a4, b.period, b4);
    U64Head(a.sequence, a5, b.sequence, b5);
    I64Head(a.issuedAt, [], b.issuedAt, []);
  }

  method BuildFailRecordPayload(r: FailRecord) returns (buf: bytes)
    ensures buf == FailPayload(r)
  {
    buf := Str(DOMAIN_TAG);
    buf := buf + Str(r.escrowId);
    buf := buf + Str(r.providerAddress);
    buf := buf + Str(r.challengeId);
    buf := buf + U64(r.period);
    buf := buf + U64(r.sequence);
    buf := buf + I64(r.issuedAt);
  }

  // ------------------------------------------------------ escrow identifiers

  /** A 32-byte on-chain agreement identifier. */
  type EscrowId = b: bytes | |b| == 32 witness seq(32, _ => 0)

  function Digit(v: nat): byte
    requires v < 16
  {
    if v < 10 then 48 + v else 87 + v
  }

  /** The value of a hex digit, upper or lower case; 16 for anything else. */
  function DigitValue(c: byte): (v: nat)
    ensures v <= 16
  {
    if 48 <= c <= 57 then c - 48
    else if 97 <= c <= 102 then c - 87
    else if 65 <= c <= 70 then c - 55
    else 16
  }

  function HexEncode(b: bytes): (h: bytes)
    ensures |h| == 2 * |b|
  {
    if b == [] then [] else [Digit(b[0] / 16), Digit(b[0] % 16)] + HexEncode(b[1..])
  }

  function HexDecode(h: bytes): Option<bytes> {
    if h == [] then Some([])
    else if |h| == 1 || DigitValue(h[0]) == 16 || DigitValue(h[1]) == 16 then None
    else
      match HexDecode(h[2..])
      case None => None
      case Some(rest) => Some([16 * DigitValue(h[0]) + DigitValue(h[1])] + rest)
  }

  lemma {:induction false} HexRoundTrip(b: bytes)
    ensures HexDecode(HexEncode(b)) == Some(b)
  {
    if b != [] {
      HexRoundTrip(b[1..]);
      assert HexEncode(b)[2..] == HexEncode(b[1..]);
      assert b == [b[0]] + b[1..];
    }
  }

  /** "0x" followed by 64 hex digits. */
  function EscrowString(id: EscrowId): (s: text)
    ensures |s| == 66
  {
    [48, 120] + HexEncode(id)
  }

  function ParseEscrowId(value: text): Option<EscrowId> {
    var digits := if |value| == 66 && value[..2] == [48, 120] then value[2..] else value;
    match HexDecode(digits)
    case None => None
    case Some(b) => if |b| == 32 then Some(b) else None
  }

  /** Parsing a printed identifier gives it back. */
  lemma EscrowRoundTrip(id: EscrowId)
    ensures ParseEscrowId(EscrowString(id)) == Some(id)
  {
    var s := EscrowString(id);
    assert s[..2] == [48, 120] && s[2..] == HexEncode(id);
    HexRoundTrip(id);
  }

  /** Distinct escrow agreements print differently. */
  lemma EscrowStringInjective(a: EscrowId, b: EscrowId)
    requires EscrowString(a) == EscrowString(b)
    ensures a == b
  {
    EscrowRoundTrip(a);
    EscrowRoundTrip(b);
  }

  /** A voucher for an escrow agreement never has the bytes of a fail record: its first
      length prefix is 66, theirs is the length of the domain tag. */
  lemma VoucherIsNotFailRecord(s: PaymentState, id: EscrowId, r: FailRecord)
    requires s.contractId == EscrowString(id)
    ensures VoucherPreimage(s) != FailPayload(r)
  {
    var v, f := VoucherPreimage(s), FailPayload(r);
    assert v[..8] == BE(8, 66) && f[..8] == BE(8, 21);
    Widths();
    if v == f {
      BEInjective(8, 66, 21);
    }
  }

  // ----------------------------------------------------- cache announcements

  datatype Announcement = Announcement(
    providerId: text, fileId: text, merkleRoot: text, version: uint64, expiry: int64)

  function AnnouncementBytes(a: Announcement): bytes {
    Str(a.providerId) + (Str(a.fileId) + (Str(a.merkleRoot) + (I64(a.expiry) + (U64(a.version) + []))))
  }

  method BuildSigningPayload(a: Announcement) returns (r: Option<bytes>)
    ensures r == if a.providerId == [] || a.fileId == [] || a.merkleRoot == [] then None else Some(AnnouncementBytes(a))
  {
    if a.providerId == [] || a.fileId == [] || a.merkleRoot == [] {
      return None;
    }
    var buf := Str(a.providerId);
    buf := buf + Str(a.fileId);
    buf := buf + Str(a.merkleRoot);
    buf := buf + I64(a.expiry);
    buf := buf + U64(a.version);
    assert buf == AnnouncementBytes(a);
    r := Some(buf);
  }

  /** Two announcements with the same signing payload are the same announcement. */
  lemma AnnouncementInjective(a: Announcement, b: Announcement)
    requires AnnouncementBytes(a) == AnnouncementBytes(b)
    ensures a == b
  {
    var a3, b3 := U64(a.version) + [], U64(b.version) + [];
    var a2, b2 := I64(a.expiry) + a3, I64(b.expiry) + b3;
    var a1, b1 := Str(a.merkleRoot) + a2, Str(b.merkleRoot) + b2;
    StrHead(a.providerId, Str(a.fileId) + a1, b.providerId, Str(b.fileId) + b1);
    StrHead(a.fileId, a1, b.fileId, b1);
    StrHead(a.merkleRoot, a2, b.merkleRoot, b2);
    I64Head(a.expiry, a3, b.expiry, b3);
    U64Head(a.version, [], b.version, []);
  }
}
