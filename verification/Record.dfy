/** Little-endian integers over bytes. */
module Bytes {
  import opened Crc

  type u8 = byte
  type u16 = n: int | 0 <= n < 0x1_0000
  type u32 = n: int | 0 <= n < 0x1_0000_0000
  type u64 = n: int | 0 <= n < 0x1_0000_0000_0000_0000

  function Put2(n: u16): (s: seq<byte>)
    ensures |s| == 2
  {
    [n % 0x100, n / 0x100]
  }

  function Put4(n: u32): (s: seq<byte>)
    ensures |s| == 4
  {
    Put2(n % 0x1_0000) + Put2(n / 0x1_0000)
  }

  function Put8(n: u64): (s: seq<byte>)
    ensures |s| == 8
  {
    Put4(n % 0x1_0000_0000) + Put4(n / 0x1_0000_0000)
  }

  function Get2(s: seq<byte>): u16
    requires |s| == 2
  {
    s[0] as int + 0x100 * s[1] as int
  }

  function Get4(s: seq<byte>): u32
    requires |s| == 4
  {
    Get2(s[..2]) + 0x1_0000 * Get2(s[2..])
  }

  function Get8(s: seq<byte>): u64
    requires |s| == 8
  {
    Get4(s[..4]) + 0x1_0000_0000 * Get4(s[4..])
  }

  lemma Get2OfPut2(n: u16)
    ensures Get2(Put2(n)) == n
  {}

  lemma Put2OfGet2(s: seq<byte>)
    requires |s| == 2
    ensures Put2(Get2(s)) == s
  {}

  lemma Get4OfPut4(n: u32)
    ensures Get4(Put4(n)) == n
  {
    Get2OfPut2(n % 0x1_0000);
    Get2OfPut2(n / 0x1_0000);
    assert Put4(n)[..2] == Put2(n % 0x1_0000) && Put4(n)[2..] == Put2(n / 0x1_0000);
  }

  lemma SplitHalves(a: int, b: int)
    ensures 0 <= a < 0x1_0000 ==> (a + 0x1_0000 * b) % 0x1_0000 == a && (a + 0x1_0000 * b) / 0x1_0000 == b
    ensures 0 <= a < 0x1_0000_0000 ==>
              (a + 0x1_0000_0000 * b) % 0x1_0000_0000 == a && (a + 0x1_0000_0000 * b) / 0x1_0000_0000 == b
  {}

  lemma Put4OfGet4(s: seq<byte>)
    requires |s| == 4
    ensures Put4(Get4(s)) == s
  {
    SplitHalves(Get2(s[..2]), Get2(s[2..]));
    Put2OfGet2(s[..2]);
    Put2OfGet2(s[2..]);
    assert s[..2] + s[2..] == s;
  }

  lemma Get8OfPut8(n: u64)
    ensures Get8(Put8(n)) == n
  {
    Get4OfPut4(n % 0x1_0000_0000);
    Get4OfPut4(n / 0x1_0000_0000);
    assert Put8(n)[..4] == Put4(n % 0x1_0000_0000) && Put8(n)[4..] == Put4(n / 0x1_0000_0000);
  }

  lemma Put8OfGet8(s: seq<byte>)
    requires |s| == 8
    ensures Put8(Get8(s)) == s
  {
    SplitHalves(Get4(s[..4]), Get4(s[4..]));
    Put4OfGet4(s[..4]);
    Put4OfGet4(s[4..]);
    assert s[..4] + s[4..] == s;
  }
}

/** The on-disk record: a 40-byte header, a body whose size its kind fixes, and a CRC-32. */
module Record {
  import opened Crc
  import opened Bytes

  const MAGIC: u32 := 0x31525743
  const HDR_SIZE := 40
  const CRC_SIZE := 4
  const EVENT_TEXT_MAX := 200
  const MAX_BODY := 4 + EVENT_TEXT_MAX

  const SAMPLE: u16 := 1
  const BEGIN: u16 := 2
  const COMMIT: u16 := 3
  const BOOT: u16 := 4
  const SHUTDOWN: u16 := 5
  const EVENT: u16 := 6

  /** A header and its body. The magic number and the body's length are implied. */
  datatype Rec = Rec(kind: u16, seqNo: u64, mono: u64, wall: u64, src: u8, flags: u8, reserved: u16,
                     bootId: u32, body: seq<byte>)

  datatype Status = Short | BadMagic | BadKind | BadLen | BadCrc | BadSrc

  datatype Decoded = Ok(rec: Rec, size: nat) | Bad(status: Status)

  predicate KindOk(kind: u16) {
    SAMPLE <= kind <= EVENT
  }

  predicate BodyLenOk(kind: u16, n: nat) {
    match kind
    case 1 => n == 12
    case 2 => n == 8
    case 3 => n == 16
    case 4 => n == 12
    case 5 => n == 8
    case 6 => 4 <= n <= MAX_BODY
    case _ => false
  }

  predicate SrcOk(src: u8) {
    1 <= src <= 3
  }

  /** An event's length field accounts for exactly the rest of its body. */
  predicate EventOk(body: seq<byte>)
    requires |body| >= 4
  {
    Get2(body[2..4]) <= EVENT_TEXT_MAX && Get2(body[2..4]) + 4 == |body|
  }

  predicate ValidRec(r: Rec) {
    KindOk(r.kind) && BodyLenOk(r.kind, |r.body|) && SrcOk(r.src) && (r.kind == EVENT ==> EventOk(r.body))
  }

  function HdrBytes(r: Rec): (s: seq<byte>)
    requires |r.body| <= MAX_BODY
    ensures |s| == HDR_SIZE
  {
    (Put4(MAGIC) + Put2(r.kind) + Put2(|r.body|)) + (Put8(r.seqNo) + Put8(r.mono) + Put8(r.wall))
    + ([r.src, r.flags] + Put2(r.reserved) + Put4(r.bootId))
  }

  function Payload(r: Rec): (s: seq<byte>)
    requires |r.body| <= MAX_BODY
    ensures |s| == HDR_SIZE + |r.body|
  {
    HdrBytes(r) + r.body
  }

  function RecBytes(r: Rec): (s: seq<byte>)
    requires |r.body| <= MAX_BODY
    ensures |s| == HDR_SIZE + |r.body| + CRC_SIZE
  {
    Payload(r) + Check(Payload(r))
  }

  /** The bytes rec_encode writes into cap bytes of room, or nothing if it refuses the record. */
  function Encode(r: Rec, cap: nat): (s: seq<byte>)
    ensures s != [] <==> ValidRec(r) && HDR_SIZE + |r.body| + CRC_SIZE <= cap
    ensures s != [] ==> s == RecBytes(r.(reserved := 0))
  {
    if !ValidRec(r) || cap < HDR_SIZE + |r.body| + CRC_SIZE then [] else RecBytes(r.(reserved := 0))
  }

  function ReadRec(buf: seq<byte>, n: nat): Rec
    requires HDR_SIZE + n <= |buf|
  {
    Rec(Get2(buf[4..6]), Get8(buf[8..16]), Get8(buf[16..24]), Get8(buf[24..32]), buf[32], buf[33],
        Get2(buf[34..36]), Get4(buf[36..40]), buf[HDR_SIZE..HDR_SIZE + n])
  }

  /** The record at the front of buf, with rec_decode's checks in its order. */
  function Decode(buf: seq<byte>): Decoded {
    if |buf| < HDR_SIZE then Bad(Short) else
    var kind, n := Get2(buf[4..6]), Get2(buf[6..8]);
    if Get4(buf[0..4]) != MAGIC then Bad(BadMagic) else
    if !KindOk(kind) then Bad(BadKind) else
    if !BodyLenOk(kind, n) then Bad(BadLen) else
    if |buf| < HDR_SIZE + n + CRC_SIZE then Bad(Short) else
    if buf[HDR_SIZE + n..HDR_SIZE + n + CRC_SIZE] != Check(buf[..HDR_SIZE + n]) then Bad(BadCrc) else
    if !SrcOk(buf[32]) then Bad(BadSrc) else
    if kind == EVENT && !EventOk(buf[HDR_SIZE..HDR_SIZE + n]) then Bad(BadLen) else
    Ok(ReadRec(buf, n), HDR_SIZE + n + CRC_SIZE)
  }

  // ------------------------------------------------------------------ the header's fields

  lemma HdrSlices(r: Rec)
    requires |r.body| <= MAX_BODY
    ensures var h := HdrBytes(r);
            h[0..4] == Put4(MAGIC) && h[4..6] == Put2(r.kind) && h[6..8] == Put2(|r.body|)
            && h[8..16] == Put8(r.seqNo) && h[16..24] == Put8(r.mono) && h[24..32] == Put8(r.wall)
            && h[32] == r.src && h[33] == r.flags && h[34..36] == Put2(r.reserved) && h[36..40] == Put4(r.bootId)
  {
    var a := Put4(MAGIC) + Put2(r.kind) + Put2(|r.body|);
    var b := Put8(r.seqNo) + Put8(r.mono) + Put8(r.wall);
    var c := [r.src, r.flags] + Put2(r.reserved) + Put4(r.bootId);
    var h := HdrBytes(r);
    assert h[0..8] == a && h[8..32] == b && h[32..40] == c;
    assert a[0..4] == Put4(MAGIC) && a[4..6] == Put2(r.kind) && a[6..8] == Put2(|r.body|);
    assert b[0..8] == Put8(r.seqNo) && b[8..16] == Put8(r.mono) && b[16..24] == Put8(r.wall);
    assert c[2..4] == Put2(r.reserved) && c[4..8] == Put4(r.bootId);
    assert h[8..16] == b[0..8] && h[16..24] == b[8..16] && h[24..32] == b[16..24];
    assert h[34..36] == c[2..4] && h[36..40] == c[4..8];
  }

  /** Reading back a header gives the fields that were written. */
  lemma HdrReads(r: Rec, buf: seq<byte>)
    requires |r.body| <= MAX_BODY && HDR_SIZE + |r.body| <= |buf| && buf[..HDR_SIZE + |r.body|] == Payload(r)
    ensures Get4(buf[0..4]) == MAGIC && Get2(buf[4..6]) == r.kind && Get2(buf[6..8]) == |r.body|
    ensures ReadRec(buf, |r.body|) == r
  {
    var h := HdrBytes(r);
    assert buf[..HDR_SIZE] == h && buf[HDR_SIZE..HDR_SIZE + |r.body|] == r.body;
    HdrSlices(r);
    assert buf[0..4] == h[0..4] && buf[4..6] == h[4..6] && buf[6..8] == h[6..8];
    assert buf[8..16] == h[8..16] && buf[16..24] == h[16..24] && buf[24..32] == h[24..32];
    assert buf[32] == h[32] && buf[33] == h[33] && buf[34..36] == h[34..36] && buf[36..40] == h[36..40];
    Get4OfPut4(MAGIC); Get2OfPut2(r.kind); Get2OfPut2(|r.body|);
    Get8OfPut8(r.seqNo); Get8OfPut8(r.mono); Get8OfPut8(r.wall);
    Get2OfPut2(r.reserved); Get4OfPut4(r.bootId);
  }

  /** The fields read from a header determine its forty bytes. */
  lemma HdrWrites(buf: seq<byte>, n: nat)
    requires HDR_SIZE + n <= |buf| && n <= MAX_BODY && Get4(buf[0..4]) == MAGIC && Get2(buf[6..8]) == n
    ensures Payload(ReadRec(buf, n)) == buf[..HDR_SIZE + n]
  {
    Put4OfGet4(buf[0..4]); Put2OfGet2(buf[4..6]); Put2OfGet2(buf[6..8]);
    Put8OfGet8(buf[8..16]); Put8OfGet8(buf[16..24]); Put8OfGet8(buf[24..32]);
    Put2OfGet2(buf[34..36]); Put4OfGet4(buf[36..40]);
    assert buf[0..4] + buf[4..6] + buf[6..8] == buf[0..8];
    assert buf[8..16] + buf[16..24] + buf[24..32] == buf[8..32];
    assert [buf[32], buf[33]] + buf[34..36] + buf[36..40] == buf[32..40];
    assert buf[0..8] + buf[8..32] + buf[32..40] == buf[..HDR_SIZE];
    assert buf[..HDR_SIZE] + buf[HDR_SIZE..HDR_SIZE + n] == buf[..HDR_SIZE + n];
  }

  // ------------------------------------------------------------------ encode and decode are inverse

  /** Whatever follows an encoded record, decoding gives it back. */
  lemma DecodeOfRecBytes(r: Rec, tail: seq<byte>)
    requires ValidRec(r)
    ensures Decode(RecBytes(r) + tail) == Ok(r, |RecBytes(r)|)
  {
    var buf, n := RecBytes(r) + tail, |r.body|;
    assert buf[..HDR_SIZE + n] == Payload(r);
    HdrReads(r, buf);
    assert buf[HDR_SIZE + n..HDR_SIZE + n + CRC_SIZE] == Check(Payload(r));
    assert buf[HDR_SIZE..HDR_SIZE + n] == r.body;
  }

  /** rec_encode and rec_decode: a record that is valid and fits reads back, whatever follows it, with its
      reserved field zeroed; of any other nothing is written. */
  lemma EncodeReadsBack(r: Rec, cap: nat, tail: seq<byte>)
    ensures if ValidRec(r) && HDR_SIZE + |r.body| + CRC_SIZE <= cap
            then Decode(Encode(r, cap) + tail) == Ok(r.(reserved := 0), |Encode(r, cap)|)
            else Encode(r, cap) == []
  {
    if ValidRec(r) && HDR_SIZE + |r.body| + CRC_SIZE <= cap { DecodeOfRecBytes(r.(reserved := 0), tail); }
  }

  /** What decodes is exactly the encoding of the record it decodes to. */
  lemma RecBytesOfDecode(buf: seq<byte>)
    requires Decode(buf).Ok?
    ensures var d := Decode(buf);
            ValidRec(d.rec) && d.size == |RecBytes(d.rec)| && d.size <= |buf| && buf[..d.size] == RecBytes(d.rec)
  {
    var n := Get2(buf[6..8]);
    HdrWrites(buf, n);
    assert buf[..HDR_SIZE + n] + buf[HDR_SIZE + n..HDR_SIZE + n + CRC_SIZE] == buf[..HDR_SIZE + n + CRC_SIZE];
  }

  // ------------------------------------------------------------------ damage

  lemma DecodeLength(buf: seq<byte>, n: nat)
    requires Decode(buf).Ok? && n == Get2(buf[6..8])
    ensures BodyLenOk(Get2(buf[4..6]), n) && |buf| >= HDR_SIZE + n + CRC_SIZE
  {}

  lemma BadSum(buf: seq<byte>, n: nat, stored: seq<byte>, sum: seq<byte>)
    requires |buf| >= HDR_SIZE + n + CRC_SIZE && n == Get2(buf[6..8]) && stored != sum
    requires stored == buf[HDR_SIZE + n..HDR_SIZE + n + CRC_SIZE] && sum == Check(buf[..HDR_SIZE + n])
    ensures !Decode(buf).Ok?
  {}

  lemma DecodeSum(buf: seq<byte>, n: nat, stored: seq<byte>, sum: seq<byte>)
    requires Decode(buf).Ok? && n == Get2(buf[6..8]) && |buf| >= HDR_SIZE + n + CRC_SIZE
    requires stored == buf[HDR_SIZE + n..HDR_SIZE + n + CRC_SIZE] && sum == Check(buf[..HDR_SIZE + n])
    ensures stored == sum
  {
    if stored != sum { BadSum(buf, n, stored, sum); }
  }

  lemma DecodeEvent(buf: seq<byte>, n: nat)
    requires Decode(buf).Ok? && n == Get2(buf[6..8]) && |buf| >= HDR_SIZE + n + CRC_SIZE && Get2(buf[4..6]) == EVENT
    ensures EventOk(buf[HDR_SIZE..HDR_SIZE + n])
  {}

  /** What a buffer that decodes has been checked for. */
  lemma DecodeChecks(buf: seq<byte>, n: nat)
    requires Decode(buf).Ok? && n == Get2(buf[6..8])
    ensures BodyLenOk(Get2(buf[4..6]), n) && |buf| >= HDR_SIZE + n + CRC_SIZE
    ensures buf[HDR_SIZE + n..HDR_SIZE + n + CRC_SIZE] == Check(buf[..HDR_SIZE + n])
    ensures Get2(buf[4..6]) == EVENT ==> EventOk(buf[HDR_SIZE..HDR_SIZE + n])
  {
    DecodeLength(buf, n);
    DecodeSum(buf, n, buf[HDR_SIZE + n..HDR_SIZE + n + CRC_SIZE], Check(buf[..HDR_SIZE + n]));
    if Get2(buf[4..6]) == EVENT { DecodeEvent(buf, n); }
  }

  lemma SliceOfSlice(s: seq<byte>, from: nat, n: nat, i: nat, j: nat)
    requires from + n <= |s| && i <= j <= n
    ensures s[from..from + n][i..j] == s[from + i..from + j]
  {
    var a, b := s[from..from + n][i..j], s[from + i..from + j];
    forall k | 0 <= k < j - i ensures a[k] == b[k] { assert a[k] == s[from + i + k]; }
  }

  lemma EventLength(buf: seq<byte>, n: nat)
    requires HDR_SIZE + n <= |buf| && n >= 4 && EventOk(buf[HDR_SIZE..HDR_SIZE + n])
    ensures |buf| >= 44 && Get2(buf[42..44]) + 4 == n
  {
    SliceOfSlice(buf, HDR_SIZE, n, 2, 4);
  }

  lemma LengthField(r: Rec)
    requires |r.body| <= MAX_BODY
    ensures HdrBytes(r)[4..6] == Put2(r.kind) && HdrBytes(r)[6..8] == Put2(|r.body|)
    ensures Get2(Put2(r.kind)) == r.kind && Get2(Put2(|r.body|)) == |r.body|
  {
    HdrSlices(r);
    Get2OfPut2(r.kind);
    Get2OfPut2(|r.body|);
  }

  /** A changed length field is another length, under the same kind. */
  lemma DamagedLength(r: Rec, h: seq<byte>, i: nat, b: byte)
    requires |r.body| <= MAX_BODY && 6 <= i < 8 && b != HdrBytes(r)[i] && h == HdrBytes(r)[i := b]
    ensures Get2(h[4..6]) == r.kind && Get2(h[6..8]) != |r.body|
  {
    LengthField(r);
    assert h[4..6] == HdrBytes(r)[4..6];
    Put2OfGet2(h[6..8]);
    assert h[6..8][i - 6] == b && Put2(|r.body|)[i - 6] == HdrBytes(r)[i];
  }

  lemma KeptLength(r: Rec, h: seq<byte>, i: nat, b: byte)
    requires |r.body| <= MAX_BODY && i < HDR_SIZE && (i < 6 || 8 <= i) && h == HdrBytes(r)[i := b]
    ensures Get2(h[6..8]) == |r.body|
  {
    LengthField(r);
    assert h[6..8] == HdrBytes(r)[6..8];
  }

  /** A payload and its stored checksum, differing in one byte from a good pair, disagree. */
  lemma DamagedSum(p: seq<byte>, q: seq<byte>, t: seq<byte>, i: nat, b: byte)
    requires i < |p| + |t| && (p + t)[i := b] == q + Check(q) && |q| == |p| && t == Check(p)
    ensures b == (p + t)[i]
  {
    if i < |p| {
      assert q == ((p + t)[i := b])[..|p|] == p[i := b];
      assert Check(q) == ((p + t)[i := b])[|p|..] == t;
      if b != p[i] { OneByteChangesCheck(p, i, b); }
    } else {
      assert q == ((p + t)[i := b])[..|p|] == p;
      assert Check(q) == ((p + t)[i := b])[|p|..] == t[i - |p| := b];
      assert t[i - |p| := b][i - |p|] == b;
    }
  }

  /** The same, in a buffer that goes on after the record. */
  lemma DamagedBuffer(r: Rec, buf: seq<byte>, m: nat, i: nat, b: byte)
    requires |r.body| <= MAX_BODY && m == HDR_SIZE + |r.body| && i < m + CRC_SIZE <= |buf|
    requires buf[..m + CRC_SIZE] == (Payload(r) + Check(Payload(r)))[i := b]
    requires buf[m..m + CRC_SIZE] == Check(buf[..m])
    ensures b == RecBytes(r)[i]
  {
    assert buf[..m + CRC_SIZE] == buf[..m] + buf[m..m + CRC_SIZE];
    DamagedSum(Payload(r), buf[..m], Check(Payload(r)), i, b);
  }

  lemma HeaderOfBuffer(h: seq<byte>, rest: seq<byte>, buf: seq<byte>, i: nat, b: byte)
    requires |h| == HDR_SIZE && i < |h + rest| <= |buf| && buf[..|h + rest|] == (h + rest)[i := b]
    ensures buf[..HDR_SIZE] == if i < HDR_SIZE then h[i := b] else h
    ensures i < HDR_SIZE && |rest| >= 4 ==> buf[42..44] == rest[2..4]
    ensures buf[4..6] == buf[..HDR_SIZE][4..6] && buf[6..8] == buf[..HDR_SIZE][6..8]
  {
    var d := (h + rest)[i := b];
    assert buf[..HDR_SIZE] == d[..HDR_SIZE];
    if i < HDR_SIZE && |rest| >= 4 {
      assert buf[42..44] == d[42..44] == (h + rest)[42..44];
    }
  }

  /** What decodes with a valid record's kind, and its text length if it is an event, has its length. */
  lemma LengthAgrees(r: Rec, buf: seq<byte>)
    requires ValidRec(r) && Decode(buf).Ok? && Get2(buf[4..6]) == r.kind
    requires |r.body| >= 4 ==> |buf| >= 44 && buf[42..44] == r.body[2..4]
    ensures Get2(buf[6..8]) == |r.body|
  {
    var n := Get2(buf[6..8]);
    DecodeChecks(buf, n);
    if r.kind == EVENT { EventLength(buf, n); }
  }

  lemma DamagedLengthIsCaught(r: Rec, buf: seq<byte>, i: nat, b: byte)
    requires ValidRec(r) && 6 <= i < 8 && b != HdrBytes(r)[i]
    requires |buf| >= HDR_SIZE + 4 && buf[..HDR_SIZE] == HdrBytes(r)[i := b]
    requires |r.body| >= 4 ==> buf[42..44] == r.body[2..4]
    ensures !Decode(buf).Ok?
  {
    DamagedLength(r, buf[..HDR_SIZE], i, b);
    assert buf[4..6] == buf[..HDR_SIZE][4..6] && buf[6..8] == buf[..HDR_SIZE][6..8];
    if Decode(buf).Ok? { LengthAgrees(r, buf); }
  }

  lemma DamageElsewhereIsCaught(r: Rec, buf: seq<byte>, m: nat, i: nat, b: byte)
    requires ValidRec(r) && m == HDR_SIZE + |r.body| && i < m + CRC_SIZE <= |buf|
    requires buf[..m + CRC_SIZE] == (Payload(r) + Check(Payload(r)))[i := b] && b != RecBytes(r)[i]
    requires Get2(buf[6..8]) == |r.body|
    ensures !Decode(buf).Ok?
  {
    if Decode(buf).Ok? {
      DecodeChecks(buf, |r.body|);
      DamagedBuffer(r, buf, m, i, b);
    }
  }

  lemma FrontDamaged(a: seq<byte>, tail: seq<byte>, i: nat, b: byte)
    requires i < |a|
    ensures (a + tail)[i := b][..|a|] == a[i := b]
  {}

  lemma FrontDamageIsCaught(r: Rec, buf: seq<byte>, i: nat, b: byte)
    requires ValidRec(r) && i < |RecBytes(r)| <= |buf| && b != RecBytes(r)[i]
    requires buf[..|RecBytes(r)|] == RecBytes(r)[i := b]
    ensures !Decode(buf).Ok?
  {
    var h, sum := HdrBytes(r), Check(Payload(r));
    assert RecBytes(r) == h + (r.body + sum);
    HeaderOfBuffer(h, r.body + sum, buf, i, b);
    if 6 <= i < 8 {
      DamagedLengthIsCaught(r, buf, i, b);
    } else {
      LengthField(r);
      if i < HDR_SIZE { KeptLength(r, buf[..HDR_SIZE], i, b); }
      DamageElsewhereIsCaught(r, buf, HDR_SIZE + |r.body|, i, b);
    }
  }

  /** Replacing any one byte of any record, whatever follows it, is always caught. */
  lemma OneByteDamageIsCaught(r: Rec, tail: seq<byte>, i: nat, b: byte)
    requires ValidRec(r) && i < |RecBytes(r)| && b != RecBytes(r)[i]
    ensures !Decode((RecBytes(r) + tail)[i := b]).Ok?
  {
    FrontDamaged(RecBytes(r), tail, i, b);
    FrontDamageIsCaught(r, (RecBytes(r) + tail)[i := b], i, b);
  }
}
