/** The write-ahead log: the writer's state and operations as values. */
module Wal {
  import opened Crc
  import opened Bytes
  import opened Framing
  import opened Log
  import opened Record
  import opened LogFormat

  const SEGMENT_BYTES := 16 * 1024 * 1024
  const BATCH_SAMPLES := 64
  const BATCH_NS := 1_000_000_000
  const MAX_SIZE := HDR_SIZE + MAX_BODY + CRC_SIZE
  const BUF_BYTES := BATCH_SAMPLES * 56 + 32 * MAX_SIZE
  const COMMIT_SIZE := HDR_SIZE + 16 + CRC_SIZE

  /** Unsigned wrap-around: n modulo 2^64, and modulo 2^32. */
  function U64(n: nat): u64 { if n < 0x1_0000_0000_0000_0000 then n else U64(n - 0x1_0000_0000_0000_0000) }
  function U32(n: nat): u32 { if n < 0x1_0000_0000 then n else U32(n - 0x1_0000_0000) }

  datatype Clock = Clock(mono: u64, wall: u64)
  datatype PrevEnd = PrevClean | PrevRecovered | PrevFirst

  /** wal_t. batch is the open batch: buf[0, len) holds its records' bytes. */
  datatype Wal = Wal(segBytes: nat, nextSeq: u64, nextTxn: u64, bootId: u32, src: u8, flags: u8, recovered: Scan,
                     prevEnd: PrevEnd, truncated: nat, openBatch: bool, batchSeq0: u64, batchMono: u64,
                     batchSamples: u32, batch: seq<Rec>)

  function BufLen(fmt: Format, w: Wal): nat { |Flat(fmt.codec, w.batch)| }

  function NextRec(w: Wal, kind: u16, src: u8, t: Clock, body: seq<byte>): Rec {
    Rec(kind, w.nextSeq, t.mono, t.wall, src, w.flags, 0, w.bootId, body)
  }

  function Append(fmt: Format, w: Wal, kind: u16, src: u8, t: Clock, body: seq<byte>): Option<Wal> {
    var r := NextRec(w, kind, src, t, body);
    if fmt.codec.valid(r) && BufLen(fmt, w) + |fmt.codec.enc(r)| <= BUF_BYTES
    then Some(w.(batch := w.batch + [r], nextSeq := U64(w.nextSeq + 1)))
    else None
  }

  /** Starts a batch if none is open. */
  function Begun(fmt: Format, w: Wal, now: Clock): Option<Wal> {
    if w.openBatch then Some(w) else
    match Append(fmt, w.(batchSeq0 := w.nextSeq), BEGIN, w.src, now, Put8(w.nextTxn))
    case None => None
    case Some(v) => Some(v.(openBatch := true, batchMono := now.mono, batchSamples := 0))
  }

  /** wal_add: whether the record was taken, and the writer after it. */
  function Add(fmt: Format, w: Wal, kind: u16, src: u8, t: Clock, body: seq<byte>, now: Clock): (bool, Wal) {
    if BufLen(fmt, w) + HDR_SIZE + |body| + CRC_SIZE + COMMIT_SIZE > BUF_BYTES then (false, w) else
    match Begun(fmt, w, now)
    case None => (false, w.(batchSeq0 := w.nextSeq))
    case Some(v) =>
      match Append(fmt, v, kind, src, t, body)
      case None => (false, v)
      case Some(u) => (true, if kind == SAMPLE then u.(batchSamples := U32(u.batchSamples + 1)) else u)
  }

  predicate Due(w: Wal, now: u64) {
    w.openBatch && (w.batchSamples >= BATCH_SAMPLES || U64(now + 0x1_0000_0000_0000_0000 - w.batchMono) >= BATCH_NS)
  }

  lemma {:induction false} ElapsedWraps(began: nat, elapsed: nat)
    requires elapsed < 0x1_0000_0000_0000_0000
    ensures U64(U64(began + elapsed) + 0x1_0000_0000_0000_0000 - U64(began)) == elapsed
  {
    if began >= 0x1_0000_0000_0000_0000 { ElapsedWraps(began - 0x1_0000_0000_0000_0000, elapsed); }
  }

  /** A batch is due exactly when it holds 64 samples or is a second old, whatever the clock's wrapped readings
      at its beginning and now, as long as it is no 2^64 ns old. */
  lemma DueIsElapsed(w: Wal, began: nat, elapsed: nat)
    requires w.batchMono == U64(began) && elapsed < 0x1_0000_0000_0000_0000
    ensures Due(w, U64(began + elapsed)) <==> w.openBatch && (w.batchSamples >= 64 || elapsed >= 1_000_000_000)
  {
    ElapsedWraps(began, elapsed);
  }

  /** The COMMIT that closes the open batch, before it is written. */
  function Seal(fmt: Format, w: Wal, now: Clock): Option<Wal> {
    Append(fmt, w, COMMIT, w.src, now, Put8(w.nextTxn) + Put4(w.batchSamples) + Put4(0))
  }

  /** drop_batch: empties the buffer and hands the batch's numbers out again. */
  function Drop(w: Wal): Wal {
    w.(batch := [], openBatch := false, batchSamples := 0, nextSeq := w.batchSeq0)
  }

  /** The sealed batch is on disk. */
  function Landed(fmt: Format, w: Wal): Wal {
    w.(segBytes := w.segBytes + BufLen(fmt, w), batch := [], openBatch := false, batchSamples := 0,
       nextTxn := U64(w.nextTxn + 1))
  }

  /** The writer wal_open makes from a segment of size bytes whose name says first. */
  function Opened(scan: Scan, first: u64, size: nat, src: u8, flags: u8): Wal {
    Wal(scan.committedLen, if scan.anyCommitted then U64(scan.lastSeq + 1) else first, U64(scan.lastTxn + 1),
        U32(scan.lastBootId + 1), src, flags, scan,
        if scan.endedClean && scan.committedLen == size then PrevClean else PrevRecovered,
        if scan.committedLen <= size then size - scan.committedLen else 0, false, 0, 0, 0, [])
  }

  /** The writer wal_open makes in an empty directory. */
  function OpenedFirst(src: u8, flags: u8): Wal {
    Opened(NO_SCAN, 0, 0, src, flags).(prevEnd := PrevFirst)
  }

  // ------------------------------------------------------------------ consecutive sequence numbers

  lemma {:induction false} U64Absorbs(a: nat, i: nat)
    ensures U64(U64(a) + i) == U64(a + i)
  {
    if a >= 0x1_0000_0000_0000_0000 { U64Absorbs(a - 0x1_0000_0000_0000_0000, i); }
  }

  lemma U64Next(a: nat, i: nat)
    ensures U64(U64(a + i) + 1) == U64(a + i + 1)
    ensures U64(U64(a) + i) == U64(a + i)
  {
    U64Absorbs(a + i, 1);
    U64Absorbs(a, i);
  }

  ghost predicate SeqsFrom(first: nat, rs: seq<Rec>) {
    forall i :: 0 <= i < |rs| ==> rs[i].seqNo == U64(first + i)
  }

  lemma SeqsAppend(first: nat, a: seq<Rec>, next: u64, b: seq<Rec>)
    requires SeqsFrom(first, a) && next == U64(first + |a|) && SeqsFrom(next, b)
    ensures SeqsFrom(first, a + b)
  {
    forall i | 0 <= i < |a + b| ensures (a + b)[i].seqNo == U64(first + i) {
      if i >= |a| { U64Next(first + |a|, i - |a|); }
    }
  }

  // ------------------------------------------------------------------ the open batch

  /** The batch in the buffer: BEGIN, then records that neither begin nor commit, consecutively
      numbered, one boot, with room left for the COMMIT. */
  ghost predicate BatchOk(fmt: Format, w: Wal) {
    if !w.openBatch then w.batch == [] else
    && |w.batch| > 0 && AllValid(fmt.codec, w.batch)
    && w.batch[0].kind == BEGIN && w.batch[0].body == Put8(w.nextTxn)
    && (forall i :: 0 < i < |w.batch| ==> w.batch[i].kind != BEGIN && w.batch[i].kind != COMMIT)
    && (forall i :: 0 <= i < |w.batch| ==> w.batch[i].bootId == w.bootId)
    && SeqsFrom(w.batchSeq0, w.batch) && w.nextSeq == U64(w.batchSeq0 + |w.batch|)
    && BufLen(fmt, w) + COMMIT_SIZE <= BUF_BYTES
  }

  /** The batch with its COMMIT: whole, numbered on from batchSeq0, and fitting the buffer. */
  ghost predicate SealedOk(fmt: Format, w: Wal) {
    && w.openBatch && |w.batch| >= 2 && AllValid(fmt.codec, w.batch)
    && WholeBatch(Items(fmt.view, w.batch))
    && fmt.view(w.batch[|w.batch| - 1]).what == Commit(w.nextTxn)
    && w.batch[|w.batch| - 1].bootId == w.bootId
    && SeqsFrom(w.batchSeq0, w.batch) && w.nextSeq == U64(w.batchSeq0 + |w.batch|)
    && BufLen(fmt, w) <= BUF_BYTES
  }

  lemma AppendFacts(fmt: Format, w: Wal, kind: u16, src: u8, t: Clock, body: seq<byte>)
    requires Good(fmt) && AllValid(fmt.codec, w.batch)
    ensures Append(fmt, w, kind, src, t, body).Some? <==>
              ValidRec(NextRec(w, kind, src, t, body)) && BufLen(fmt, w) + HDR_SIZE + |body| + CRC_SIZE <= BUF_BYTES
    ensures match Append(fmt, w, kind, src, t, body)
            case None => true
            case Some(v) => AllValid(fmt.codec, v.batch) && BufLen(fmt, v) == BufLen(fmt, w) + HDR_SIZE + |body| + CRC_SIZE
                            && v == w.(batch := w.batch + [NextRec(w, kind, src, t, body)], nextSeq := U64(w.nextSeq + 1))
  {
    var r := NextRec(w, kind, src, t, body);
    assert MarksOf(fmt, r);
    FlatSnoc(fmt.codec, w.batch, r);
  }

  lemma SeqsSnoc(first: nat, rs: seq<Rec>, r: Rec)
    requires SeqsFrom(first, rs) && r.seqNo == U64(first + |rs|)
    ensures SeqsFrom(first, rs + [r]) && U64(r.seqNo + 1) == U64(first + |rs + [r]|)
  {
    U64Next(first, |rs|);
  }

  lemma BegunKeepsBatch(fmt: Format, w: Wal, now: Clock)
    requires Good(fmt) && BatchOk(fmt, w)
    ensures match Begun(fmt, w, now)
            case None => !SrcOk(w.src) && !w.openBatch
            case Some(v) => v.openBatch && BatchOk(fmt, v) && v.nextTxn == w.nextTxn && v.bootId == w.bootId
                            && v.flags == w.flags && (!w.openBatch ==> BufLen(fmt, v) == 52 && v.batchSeq0 == w.nextSeq)
                            && (w.openBatch ==> v == w)
                            && v.batchSamples == (if w.openBatch then w.batchSamples else 0)
                            && v.segBytes == w.segBytes && v.recovered == w.recovered
  {
    if !w.openBatch {
      var w0 := w.(batchSeq0 := w.nextSeq);
      AppendFacts(fmt, w0, BEGIN, w.src, now, Put8(w.nextTxn));
      assert w0.batch == [] && BufLen(fmt, w0) == 0;
      SeqsSnoc(w.nextSeq, [], NextRec(w0, BEGIN, w.src, now, Put8(w.nextTxn)));
      assert [] + [NextRec(w0, BEGIN, w.src, now, Put8(w.nextTxn))] == [NextRec(w0, BEGIN, w.src, now, Put8(w.nextTxn))];
      assert U64(w.nextSeq) == w.nextSeq;
    }
  }

  /** wal_add of anything but a batch mark keeps the batch well formed, with room for its COMMIT. */
  lemma AddKeepsBatch(fmt: Format, w: Wal, kind: u16, src: u8, t: Clock, body: seq<byte>, now: Clock)
    requires Good(fmt) && BatchOk(fmt, w) && kind != BEGIN && kind != COMMIT
    ensures BatchOk(fmt, Add(fmt, w, kind, src, t, body, now).1)
  {
    BegunKeepsBatch(fmt, w, now);
    var b := Begun(fmt, w, now);
    if BufLen(fmt, w) + HDR_SIZE + |body| + CRC_SIZE + COMMIT_SIZE <= BUF_BYTES && b.Some? {
      AppendKeepsBatch(fmt, b.value, kind, src, t, body);
    }
  }

  lemma AppendKeepsBatch(fmt: Format, v: Wal, kind: u16, src: u8, t: Clock, body: seq<byte>)
    requires Good(fmt) && BatchOk(fmt, v) && v.openBatch && kind != BEGIN && kind != COMMIT
    requires |body| <= MAX_BODY ==> BufLen(fmt, v) + HDR_SIZE + |body| + CRC_SIZE + COMMIT_SIZE <= BUF_BYTES
    ensures match Append(fmt, v, kind, src, t, body)
            case None => true
            case Some(u) => forall n: u32 :: BatchOk(fmt, u.(batchSamples := n))
  {
    AppendFacts(fmt, v, kind, src, t, body);
    if Append(fmt, v, kind, src, t, body).Some? {
      SeqsSnoc(v.batchSeq0, v.batch, NextRec(v, kind, src, t, body));
      assert |body| <= MAX_BODY;
    }
  }

  /** What wal_add leaves alone, and when it takes the record. */
  lemma AddFacts(fmt: Format, w: Wal, kind: u16, src: u8, t: Clock, body: seq<byte>, now: Clock)
    requires Good(fmt) && BatchOk(fmt, w)
    ensures var (ok, v) := Add(fmt, w, kind, src, t, body, now);
            && v.nextTxn == w.nextTxn && v.bootId == w.bootId && v.segBytes == w.segBytes && v.recovered == w.recovered
            && (if v.openBatch then v.batchSeq0 else v.nextSeq) == (if w.openBatch then w.batchSeq0 else w.nextSeq)
            && (w.openBatch ==> v.openBatch) && (ok ==> v.openBatch)
            && (ok ==> |v.batch| > 0 && v.batch[|v.batch| - 1].kind == kind && v.batch[|v.batch| - 1].body == body
                       && v.batch[|v.batch| - 1].src == src && v.batch[|v.batch| - 1].mono == t.mono
                       && v.batch[..|v.batch| - 1] == if w.openBatch then w.batch else [NextRec(w, BEGIN, w.src, now, Put8(w.nextTxn))])
  {
    BegunKeepsBatch(fmt, w, now);
  }

  /** wal_add takes every valid record that leaves room for the COMMIT. */
  lemma AddTakes(fmt: Format, w: Wal, kind: u16, src: u8, t: Clock, body: seq<byte>, now: Clock)
    requires Good(fmt) && BatchOk(fmt, w) && SrcOk(w.src) && ValidRec(NextRec(w, kind, src, t, body))
    requires BufLen(fmt, w) + (if w.openBatch then 0 else 52) + HDR_SIZE + |body| + CRC_SIZE + COMMIT_SIZE <= BUF_BYTES
    ensures var (ok, v) := Add(fmt, w, kind, src, t, body, now);
            && ok && v.openBatch && v.src == w.src && (kind != BEGIN && kind != COMMIT ==> BatchOk(fmt, v))
            && BufLen(fmt, v) == BufLen(fmt, w) + (if w.openBatch then 0 else 52) + HDR_SIZE + |body| + CRC_SIZE
            && v.batchSamples == U32((if w.openBatch then w.batchSamples else 0) + if kind == SAMPLE then 1 else 0)
  {
    BegunKeepsBatch(fmt, w, now);
    BegunTakes(fmt, w, now);
    if kind != BEGIN && kind != COMMIT { AddKeepsBatch(fmt, w, kind, src, t, body, now); }
    var v := Begun(fmt, w, now).value;
    AppendFacts(fmt, v, kind, src, t, body);
  }

  lemma BegunTakes(fmt: Format, w: Wal, now: Clock)
    requires Good(fmt) && BatchOk(fmt, w) && SrcOk(w.src)
    ensures Begun(fmt, w, now).Some? && Begun(fmt, w, now).value.src == w.src
    ensures BufLen(fmt, Begun(fmt, w, now).value) == BufLen(fmt, w) + if w.openBatch then 0 else 52
  {
    BegunKeepsBatch(fmt, w, now);
    assert w.batch == [] ==> BufLen(fmt, w) == 0;
  }

  lemma {:induction false} InnerItems(fmt: Format, rs: seq<Rec>)
    requires Good(fmt) && AllValid(fmt.codec, rs)
    requires forall i :: 0 <= i < |rs| ==> rs[i].kind != BEGIN && rs[i].kind != COMMIT
    ensures forall i :: 0 <= i < |rs| ==> Inner(Items(fmt.view, rs)[i].what)
  {
    forall i | 0 <= i < |rs| ensures Inner(Items(fmt.view, rs)[i].what) { assert MarksOf(fmt, rs[i]); }
  }

  /** A BEGIN, inner records and the COMMIT of the same transaction are a whole batch. */
  lemma MarkedBatchIsWhole(fmt: Format, b: Rec, inner: seq<Rec>, c: Rec, txn: u64)
    requires Good(fmt) && ValidRec(b) && ValidRec(c) && AllValid(fmt.codec, inner)
    requires b.kind == BEGIN && b.body == Put8(txn) && c.kind == COMMIT && c.body[..8] == Put8(txn)
    requires forall i :: 0 <= i < |inner| ==> inner[i].kind != BEGIN && inner[i].kind != COMMIT
    ensures WholeBatch(Items(fmt.view, [b] + inner + [c])) && fmt.view(c).what == Commit(txn)
  {
    var its := Items(fmt.view, [b] + inner + [c]);
    assert MarksOf(fmt, b) && MarksOf(fmt, c) && ReadsMark(fmt, b, txn) && ReadsMark(fmt, c, txn);
    InnerItems(fmt, inner);
    assert its[1..] == Items(fmt.view, inner) + [fmt.view(c)];
    InnerRunIs(Items(fmt.view, inner), [fmt.view(c)]);
  }

  /** The COMMIT always fits and always encodes: sealing an open batch cannot fail, and the sealed
      batch is whole. */
  lemma SealNeverFails(fmt: Format, w: Wal, now: Clock)
    requires Good(fmt) && BatchOk(fmt, w) && w.openBatch && SrcOk(w.src)
    ensures Seal(fmt, w, now).Some? && SealedOk(fmt, Seal(fmt, w, now).value)
    ensures var v := Seal(fmt, w, now).value;
            v.batchSeq0 == w.batchSeq0 && v.nextTxn == w.nextTxn && v.bootId == w.bootId && v.segBytes == w.segBytes
            && v.recovered == w.recovered && v.batch[..|v.batch| - 1] == w.batch
            && v.batch[|v.batch| - 1].kind == COMMIT && v.batchSamples == w.batchSamples
  {
    var body := Put8(w.nextTxn) + Put4(w.batchSamples) + Put4(0);
    var c := NextRec(w, COMMIT, w.src, now, body);
    AppendFacts(fmt, w, COMMIT, w.src, now, body);
    SeqsSnoc(w.batchSeq0, w.batch, c);
    assert body[..8] == Put8(w.nextTxn);
    var b, inner := w.batch[0], w.batch[1..];
    assert w.batch + [c] == [b] + inner + [c];
    assert MarksOf(fmt, b) && fmt.codec.valid(b);
    MarkedBatchIsWhole(fmt, b, inner, c, w.nextTxn);
  }
}
