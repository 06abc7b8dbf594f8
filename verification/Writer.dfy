/** wal_t in place: the writer with its byte buffer, and wal_commit against a disk that may take any part of
    a write, fail any call, or lose the process at any of them. */
module Writer {
  import opened Crc
  import opened Bytes
  import opened Framing
  import opened Log
  import opened Record
  import opened LogFormat
  import opened Memory
  import opened Wal
  import Values = Wal
  import Durability
  import World

  lemma Written(out: seq<byte>, was: seq<byte>, at: nat, s: seq<byte>, t: seq<byte>, now: seq<byte>)
    requires at + |s| + |t| <= |was| && out == was[..at] + s + was[at + |s|..]
    requires now == out[..at + |s|] + t + out[at + |s| + |t|..]
    ensures now == was[..at] + (s + t) + was[at + |s + t|..]
  {}

  // The checksum as a function value, so that a proof that only moves it about never looks inside.

  ghost predicate ChecksLike(check: seq<byte> -> seq<byte>, s: seq<byte>) { check(s) == Check(s) }

  ghost predicate IsCheck(check: seq<byte> -> seq<byte>) { forall s :: ChecksLike(check, s) }

  /** The checksum bytes of out[from, to). */
  method Checksum(out: array<byte>, from: nat, to: nat, ghost check: seq<byte> -> seq<byte>) returns (sum: seq<byte>)
    requires from <= to <= out.Length && IsCheck(check)
    ensures sum == check(out[from..to]) && |sum| == CRC_SIZE
  {
    var crc := RecCrc32(out[from..to]);
    assert ChecksLike(check, out[from..to]);
    sum := CrcBytes(crc);
  }

  lemma EncodedIs(r: Rec, cap: nat, e: seq<byte>, h: seq<byte>, check: seq<byte> -> seq<byte>)
    requires ValidRec(r) && HDR_SIZE + |r.body| + CRC_SIZE <= cap && e == Encode(r, cap)
    requires h == HdrBytes(r.(reserved := 0)) && check == (s => Check(s))
    ensures IsCheck(check) && e == h + r.body + check(h + r.body) && |e| == HDR_SIZE + |r.body| + CRC_SIZE
  {}

  lemma EncodedSize(r: Rec, cap: nat, e: seq<byte>)
    requires e == Encode(r, cap)
    ensures |e| == if ValidRec(r) && HDR_SIZE + |r.body| + CRC_SIZE <= cap then HDR_SIZE + |r.body| + CRC_SIZE else 0
  {}

  /** Two pieces, one after the other. */
  method CopyTwo(out: array<byte>, at: nat, s: seq<byte>, t: seq<byte>)
    requires at + |s| + |t| <= out.Length
    modifies out
    ensures out[..] == old(out[..at]) + (s + t) + old(out[at + |s + t|..])
  {
    ghost var was := out[..];
    Copy(out, at, s);
    ghost var one := out[..];
    Copy(out, at + |s|, t);
    Written(one, was, at, s, t, out[..]);
  }

  /** Header, body, then the checksum of what was just written. */
  method WriteParts(out: array<byte>, at: nat, h: seq<byte>, body: seq<byte>, ghost e: seq<byte>,
                    ghost check: seq<byte> -> seq<byte>)
    requires IsCheck(check) && e == h + body + check(h + body) && |e| == |h| + |body| + CRC_SIZE && at + |e| <= out.Length
    modifies out
    ensures out[..] == old(out[..at]) + e + old(out[at + |e|..])
  {
    ghost var was := out[..];
    CopyTwo(out, at, h, body);
    ghost var two := out[..];
    assert two[at..at + |h| + |body|] == h + body;
    var sum := Checksum(out, at, at + |h| + |body|, check);
    Copy(out, at + |h| + |body|, sum);
    Written(two, was, at, h + body, sum, out[..]);
  }

  /** rec_encode: writes the record at out[at..] and gives its size, or writes nothing. */
  method RecEncode(out: array<byte>, at: nat, r: Rec) returns (n: nat)
    requires at <= out.Length
    modifies out
    ensures n == |Encode(r, out.Length - at)|
    ensures at + n <= out.Length && out[..] == old(out[..at]) + Encode(r, out.Length - at) + old(out[at + n..])
  {
    ghost var was, e, check := out[..], Encode(r, out.Length - at), (s: seq<byte>) => Check(s);
    EncodedSize(r, out.Length - at, e);
    if !ValidRec(r) || out.Length - at < HDR_SIZE + |r.body| + CRC_SIZE {
      assert was == was[..at] + e + was[at..];
      return 0;
    }
    var h := HdrBytes(r.(reserved := 0));
    EncodedIs(r, out.Length - at, e, h, check);
    WriteParts(out, at, h, r.body, e, check);
    n := HDR_SIZE + |r.body| + CRC_SIZE;
  }

  /** The bytes an encoder of fmt writes for r into cap bytes of room. */
  function Piece(fmt: Format, r: Rec, cap: nat): seq<byte> {
    if fmt.codec.valid(r) && |fmt.codec.enc(r)| <= cap then fmt.codec.enc(r) else []
  }

  ghost predicate EncodesPiece(fmt: Format, r: Rec, cap: nat) {
    r.reserved == 0 ==> Encode(r, cap) == Piece(fmt, r, cap) && (fmt.codec.valid(r) ==> fmt.codec.enc(r) != [])
  }

  /** rec_encode writes this format. */
  ghost predicate Writes(fmt: Format) { forall r, cap: nat :: EncodesPiece(fmt, r, cap) }

  lemma EncodePlain(r: Rec, cap: nat, bytes: seq<byte>)
    requires r.reserved == 0 && (ValidRec(r) ==> bytes == RecBytes(r))
    ensures Encode(r, cap) == if ValidRec(r) && HDR_SIZE + |r.body| + CRC_SIZE <= cap then bytes else []
  {
    assert r.(reserved := 0) == r;
  }

  lemma Cwr1Encodes(r: Rec, bytes: seq<byte>)
    requires ValidRec(r) ==> bytes == RecBytes(r)
    ensures CWR1.codec.valid(r) == ValidRec(r)
    ensures ValidRec(r) ==> CWR1.codec.enc(r) == bytes && |bytes| == HDR_SIZE + |r.body| + CRC_SIZE
  {}

  lemma Cwr1Pieces(r: Rec, cap: nat)
    ensures EncodesPiece(CWR1, r, cap)
  {
    if r.reserved == 0 {
      var bytes := if ValidRec(r) then RecBytes(r) else [];
      EncodePlain(r, cap, bytes);
      Cwr1Encodes(r, bytes);
    }
  }

  lemma Cwr1IsWritten()
    ensures Writes(CWR1)
  {
    forall r, cap: nat ensures EncodesPiece(CWR1, r, cap) { Cwr1Pieces(r, cap); }
  }

  method EncodeInto(ghost fmt: Format, out: array<byte>, at: nat, r: Rec) returns (n: nat)
    requires Writes(fmt) && at <= out.Length && r.reserved == 0
    modifies out
    ensures n == |Piece(fmt, r, out.Length - at)|
    ensures at + n <= out.Length && out[..] == old(out[..at]) + Piece(fmt, r, out.Length - at) + old(out[at + n..])
  {
    assert EncodesPiece(fmt, r, out.Length - at);
    n := RecEncode(out, at, r);
  }

  lemma AppendedBytes(fmt: Format, w: Wal, kind: u16, tag: u8, t: Clock, body: seq<byte>, r: Rec, len: nat, n: nat,
                      was: seq<byte>, now: seq<byte>)
    requires Writes(fmt) && |was| == BUF_BYTES && len <= BUF_BYTES && was[..len] == Flat(fmt.codec, w.batch)
    requires r == NextRec(w, kind, tag, t, body) && n == |Piece(fmt, r, BUF_BYTES - len)| && len + n <= BUF_BYTES
    requires now == was[..len] + Piece(fmt, r, BUF_BYTES - len) + was[len + n..]
    ensures now[..len + n] == Flat(fmt.codec, if n > 0 then w.batch + [r] else w.batch)
    ensures Values.Append(fmt, w, kind, tag, t, body)
            == if n > 0 then Some(w.(batch := w.batch + [r], nextSeq := U64(w.nextSeq + 1))) else None
  {
    assert EncodesPiece(fmt, r, BUF_BYTES - len);
    FlatSnoc(fmt.codec, w.batch, r);
    assert now[..len + n] == was[..len] + Piece(fmt, r, BUF_BYTES - len);
  }

  lemma PrefixTo(s: seq<byte>, n: nat)
    requires n <= |s|
    ensures s[..n] <= s && (n == |s| ==> s[..n] == s)
  {}

  /** How one call into the kernel ends. */
  datatype Outcome = Took(n: nat) | Interrupted | Broke

  /** The log directory: its older segments, the newest one with how many of its bytes an fsync has made
      durable, and how many of the newest directory entries no fsync has. */
  datatype Files = Files(older: seq<World.Segment>, first: u64, bytes: seq<byte>, durable: nat, loose: nat)

  class Disk {
    var older: seq<World.Segment>
    var first: u64
    var bytes: seq<byte>
    var durable: nat
    var loose: nat

    function Model(): Files
      reads this
    {
      Files(older, first, bytes, durable, loose)
    }

    constructor (firstSeq: u64)
      ensures Model() == Files([], firstSeq, [], 0, 0)
    {
      older, first, bytes, durable, loose := [], firstSeq, [], 0, 0;
    }

    /** write: takes at most what it is offered. */
    method Write(s: seq<byte>, outcome: Outcome) returns (n: int)
      modifies `bytes
      ensures n < 0 ==> bytes == old(bytes)
      ensures n >= 0 ==> outcome.Took? && n == TookOf(outcome.n, |s|) && bytes == old(bytes) + s[..n]
      ensures n < 0 <==> !outcome.Took?
    {
      if !outcome.Took? { return -1; }
      n := TookOf(outcome.n, |s|);
      bytes := bytes + s[..n];
    }

    method Sync(outcome: Outcome) returns (ok: bool)
      modifies `durable
      ensures ok == outcome.Took? && durable == if ok then |bytes| else old(durable)
    {
      ok := outcome.Took?;
      if ok { durable := |bytes|; }
    }

    method Truncate(n: nat)
      modifies `bytes
      ensures bytes == if n <= |old(bytes)| then old(bytes)[..n] else old(bytes)
    {
      if n <= |bytes| { bytes := bytes[..n]; }
    }

    /** A new, empty newest segment; its entry is not durable yet. */
    method Create(firstSeq: u64, outcome: Outcome) returns (ok: bool)
      modifies this
      ensures ok == outcome.Took? && Model() == if ok then WithSegment(old(Model()), firstSeq) else old(Model())
    {
      ok := outcome.Took?;
      if ok { older, first, bytes, durable, loose := older + [World.Segment(first, bytes)], firstSeq, [], 0, loose + 1; }
    }

    /** sync_dir: every entry of the directory becomes durable. */
    method SyncDir(outcome: Outcome) returns (ok: bool)
      modifies `loose
      ensures ok == outcome.Took? && loose == if ok then 0 else old(loose)
    {
      ok := outcome.Took?;
      if ok { loose := 0; }
    }
  }

  function TookOf(n: nat, offered: nat): (k: nat)
    ensures k <= offered
  {
    if n <= offered then n else offered
  }

  function WithSegment(f: Files, firstSeq: u64): Files {
    Files(f.older + [World.Segment(f.first, f.bytes)], firstSeq, [], 0, f.loose + 1)
  }

  // ------------------------------------------------------------------ how the calls of a commit can end

  datatype WriteEnd = AllOut(rest: seq<Outcome>) | BrokeOff | RanOut

  /** The write loop with n bytes to go: all out with these outcomes left for later calls, a call that failed,
      or the process dead. */
  function WriteEnds(n: nat, fd: bool, outcomes: seq<Outcome>): WriteEnd {
    if n == 0 then AllOut(outcomes)
    else if outcomes == [] then RanOut
    else if !fd || outcomes[0].Broke? then BrokeOff
    else WriteEnds(if outcomes[0].Took? then n - TookOf(outcomes[0].n, n) else n, fd, outcomes[1..])
  }

  /** The fsync after the writes was reached and succeeded. */
  predicate FsyncSucceeds(n: nat, fd: bool, outcomes: seq<Outcome>) {
    var e := WriteEnds(n, fd, outcomes);
    fd && e.AllOut? && e.rest != [] && e.rest[0].Took?
  }

  /** create_segment, called after that fsync, returned -1: it could not make the file or sync the directory. */
  predicate CreateFails(n: nat, fd: bool, outcomes: seq<Outcome>) {
    var e := WriteEnds(n, fd, outcomes);
    e.AllOut? && |e.rest| >= 2 && (!e.rest[1].Took? || (|e.rest| >= 3 && !e.rest[2].Took?))
  }

  /** What becomes of a commit: a value returned, or the process dead inside it. */
  datatype Ending = Returned(rc: int) | Killed

  ghost predicate Rotated(sealed: Wal, w: Wal, fd: bool, stored: Files, now: Files, outcomes: seq<Outcome>,
                          end: Ending) {
    var landed := sealed.nextSeq;
    if outcomes == [] then end == Killed && now == stored && !fd
    else if !outcomes[0].Took? then end == Returned(-1) && now == stored && !fd
    else if |outcomes| == 1 then end == Killed && now == WithSegment(stored, landed) && !fd
    else if !outcomes[1].Took? then end == Returned(-1) && now == WithSegment(stored, landed) && !fd
    else end == Returned(0) && now == WithSegment(stored, landed).(loose := 0) && fd
  }

  /** The batch is stored: what follows when the segment is not full, and when it is. */
  ghost predicate Stored(fmt: Format, sealed: Wal, w: Wal, fd: bool, stored: Files, now: Files, outcomes: seq<Outcome>,
                         end: Ending) {
    var landed := Landed(fmt, sealed);
    if landed.segBytes < SEGMENT_BYTES then end == Returned(0) && w == landed && fd && now == stored
    else Rotated(sealed, w, fd, stored, now, outcomes, end) && w == if fd then landed.(segBytes := 0) else landed
  }

  /** What a commit of the sealed batch leaves in memory and on disk. */
  ghost predicate Ended(fmt: Format, sealed: Wal, fdWas: bool, outcomes: seq<Outcome>, w: Wal, fd: bool, was: Files,
                        now: Files, end: Ending) {
    var bytes := Flat(fmt.codec, sealed.batch);
    var e := WriteEnds(|bytes|, fdWas, outcomes);
    if e.RanOut? || (e.AllOut? && e.rest == []) then
      end == Killed && w == sealed && fd == fdWas && was.bytes <= now.bytes <= was.bytes + bytes && now.(bytes := was.bytes) == was
      && (!fdWas ==> now == was)
    else if e.BrokeOff? || !fdWas || !e.rest[0].Took? then
      end == Returned(-1) && w == Drop(sealed) && fd == fdWas && now == was
    else
      Stored(fmt, sealed, w, fd, was.(bytes := was.bytes + bytes, durable := |was.bytes + bytes|), now, e.rest[1..], end)
  }

  /** The batch is in a file, after what was there, and all of it has been synced. */
  predicate HoldsDurably(was: Files, now: Files, batch: seq<byte>) {
    || (now.bytes == was.bytes + batch && now.durable == |now.bytes|)
    || now.older == was.older + [World.Segment(was.first, was.bytes + batch)]
  }

  lemma SealedIsSomething(fmt: Format, w: Wal, now: Clock)
    requires Writes(fmt) && Seal(fmt, w, now).Some?
    ensures BufLen(fmt, Seal(fmt, w, now).value) > 0
  {
    var r := NextRec(w, COMMIT, w.src, now, Put8(w.nextTxn) + Put4(w.batchSamples) + Put4(0));
    assert EncodesPiece(fmt, r, 0);
    FlatSnoc(fmt.codec, w.batch, r);
  }

  /** However its calls end: a commit returns -1 with its batch durable in its file exactly when the fsync
      succeeded, the segment was full and create_segment failed; every other -1 leaves the disk as it was. */
  lemma MinusOneWithDurableBatch(fmt: Format, sealed: Wal, fdWas: bool, outcomes: seq<Outcome>, w: Wal, fd: bool,
                                 was: Files, now: Files, end: Ending, n: nat)
    requires Ended(fmt, sealed, fdWas, outcomes, w, fd, was, now, end) && n == BufLen(fmt, sealed) > 0
    ensures end == Returned(-1) && HoldsDurably(was, now, Flat(fmt.codec, sealed.batch))
            <==> FsyncSucceeds(n, fdWas, outcomes) && sealed.segBytes + n >= SEGMENT_BYTES && CreateFails(n, fdWas, outcomes)
    ensures end == Returned(-1) && !(FsyncSucceeds(n, fdWas, outcomes) && CreateFails(n, fdWas, outcomes)) ==> now == was
  {
    var bytes := Flat(fmt.codec, sealed.batch);
    assert was.bytes != was.bytes + bytes;
    assert was.older != was.older + [World.Segment(was.first, was.bytes + bytes)];
  }

  /** Calls that end so, for every batch that fills its segment: one write takes all of it, the fsync succeeds,
      and the next segment cannot be made. The commit returns -1 and the batch is durable. */
  lemma DurableYetMinusOne(fmt: Format, sealed: Wal, outcomes: seq<Outcome>, w: Wal, fd: bool, was: Files, now: Files,
                           end: Ending, n: nat)
    requires n == BufLen(fmt, sealed) > 0 && sealed.segBytes + n >= SEGMENT_BYTES && outcomes == [Took(n), Took(0), Broke]
    requires Ended(fmt, sealed, true, outcomes, w, fd, was, now, end)
    ensures FsyncSucceeds(n, true, outcomes) && CreateFails(n, true, outcomes)
    ensures end == Returned(-1) && w == Landed(fmt, sealed) && !fd
    ensures now == was.(bytes := was.bytes + Flat(fmt.codec, sealed.batch), durable := |was.bytes| + n)
  {
    var rest := [Took(0), Broke];
    assert outcomes[1..] == rest && rest[1..] == [Broke];
    assert WriteEnds(n, true, outcomes) == WriteEnds(0, true, rest) == AllOut(rest);
  }

  class WalWriter {
    var segBytes: nat
    var nextSeq: u64
    var nextTxn: u64
    var bootId: u32
    const src: u8
    const flags: u8
    var recovered: Scan
    var prevEnd: PrevEnd
    var truncated: nat
    var openBatch: bool
    var batchSeq0: u64
    var batchMono: u64
    var batchSamples: u32
    var len: nat
    var fd: bool
    const buf: array<byte>
    ghost const fmt: Format
    ghost var batch: seq<Rec>     // the records whose bytes are buf[0, len)

    ghost function Model(): Wal
      reads this
    {
      Wal(segBytes, nextSeq, nextTxn, bootId, src, flags, recovered, prevEnd, truncated, openBatch, batchSeq0, batchMono,
          batchSamples, batch)
    }

    ghost predicate Valid()
      reads this, buf
    {
      Writes(fmt) && buf.Length == BUF_BYTES && len <= BUF_BYTES && buf[..len] == Flat(fmt.codec, batch)
    }

    /** The writer wal_open makes once the segment has been scanned and cut. */
    constructor (ghost f: Format, scan: Scan, first: u64, size: nat, tag: u8, flagBits: u8)
      requires Writes(f)
      ensures Valid() && fmt == f && fresh(buf) && fd && Model() == Opened(scan, first, size, tag, flagBits)
    {
      fmt := f;
      segBytes, truncated := scan.committedLen, if scan.committedLen <= size then size - scan.committedLen else 0;
      nextSeq := if scan.anyCommitted then U64(scan.lastSeq + 1) else first;
      nextTxn, bootId := U64(scan.lastTxn + 1), U32(scan.lastBootId + 1);
      src, flags, recovered := tag, flagBits, scan;
      prevEnd := if scan.endedClean && scan.committedLen == size then PrevClean else PrevRecovered;
      openBatch, batchSeq0, batchMono, batchSamples, len, fd := false, 0, 0, 0, 0, true;
      batch := [];
      buf := new byte[BUF_BYTES];
    }

    /** append: encodes one record at the end of the buffer. */
    method Append(kind: u16, tag: u8, t: Clock, body: seq<byte>) returns (ok: bool)
      requires Valid()
      modifies this`nextSeq, this`len, this`batch, buf
      ensures Valid()
      ensures match Values.Append(fmt, old(Model()), kind, tag, t, body)
              case None => !ok && Model() == old(Model())
              case Some(v) => ok && Model() == v
    {
      var r := Rec(kind, nextSeq, t.mono, t.wall, tag, flags, 0, bootId, body);
      ghost var was := buf[..];
      var n := EncodeInto(fmt, buf, len, r);
      AppendedBytes(fmt, Model(), kind, tag, t, body, r, len, n, was, buf[..]);
      ok := n > 0;
      if ok {
        len, nextSeq, batch := len + n, U64(nextSeq + 1), batch + [r];
      }
    }

    /** Starts a batch if none is open. */
    method Begin(now: Clock) returns (ok: bool)
      requires Valid()
      modifies this`nextSeq, this`len, this`batch, this`openBatch, this`batchSeq0, this`batchMono, this`batchSamples, buf
      ensures Valid()
      ensures match Begun(fmt, old(Model()), now)
              case None => !ok && Model() == old(Model()).(batchSeq0 := old(nextSeq))
              case Some(v) => ok && Model() == v
    {
      if openBatch { return true; }
      batchSeq0 := nextSeq;
      ok := Append(BEGIN, src, now, Put8(nextTxn));
      if ok { openBatch, batchMono, batchSamples := true, now.mono, 0; }
    }

    /** wal_add. */
    method Add(kind: u16, tag: u8, t: Clock, body: seq<byte>, now: Clock) returns (ok: bool)
      requires Valid()
      modifies this`nextSeq, this`len, this`batch, this`openBatch, this`batchSeq0, this`batchMono, this`batchSamples, buf
      ensures Valid() && (ok, Model()) == Values.Add(fmt, old(Model()), kind, tag, t, body, now)
    {
      if len + HDR_SIZE + |body| + CRC_SIZE + COMMIT_SIZE > BUF_BYTES { return false; }
      ok := Begin(now);
      if !ok { return; }
      ok := Append(kind, tag, t, body);
      if ok && kind == SAMPLE { batchSamples := U32(batchSamples + 1); }
    }

    /** drop_batch. */
    method DropBatch()
      requires Valid()
      modifies this`nextSeq, this`len, this`batch, this`openBatch, this`batchSamples
      ensures Valid() && Model() == Drop(old(Model()))
    {
      len, openBatch, batchSamples, nextSeq := 0, false, 0, batchSeq0;
      batch := [];
    }

    /** wal_commit's loop of write calls. */
    method WriteAll(disk: Disk, outcomes: seq<Outcome>) returns (done: nat, call: nat, broke: bool)
      requires Valid()
      modifies disk`bytes
      ensures done <= len && disk.bytes == old(disk.bytes) + buf[..len][..done] && call <= |outcomes|
      ensures match WriteEnds(len, fd, outcomes)
              case AllOut(rest) => !broke && done == len && rest == outcomes[call..]
              case BrokeOff => broke
              case RanOut => !broke && done < len
      ensures !fd ==> done == 0
    {
      done, call, broke := 0, 0, false;
      assert outcomes[0..] == outcomes;
      while done < len && call < |outcomes|
        invariant done <= len && call <= |outcomes| && (!fd ==> done == 0)
        invariant disk.bytes == old(disk.bytes) + buf[..len][..done]
        invariant WriteEnds(len - done, fd, outcomes[call..]) == WriteEnds(len, fd, outcomes)
        decreases |outcomes| - call
      {
        assert outcomes[call..][1..] == outcomes[call + 1..];
        if !fd || outcomes[call].Broke? {
          broke := true;
          return;
        }
        var n := disk.Write(buf[done..len], outcomes[call]);
        if n >= 0 {
          assert buf[..len][..done + n] == buf[..len][..done] + buf[done..len][..n];
          done := done + n;
        }
        call := call + 1;
      }
    }

    /** wal_commit: seals the batch, writes it piece by piece, syncs, and rotates a full segment; when a write
        or the fsync fails, cuts the file back and drops the batch. outcomes says how each call ends; when they
        run out the process has died there. */
    method Commit(disk: Disk, now: Clock, outcomes: seq<Outcome>) returns (end: Ending)
      requires Valid() && (fd ==> segBytes == |disk.bytes|)
      modifies this, buf, disk
      ensures Valid()
      ensures !old(openBatch) ==> end == Returned(0) && Model() == old(Model()) && fd == old(fd) && disk.Model() == old(disk.Model())
      ensures old(openBatch) ==>
                match Seal(fmt, old(Model()), now)
                case None => end == Returned(-1) && Model() == Drop(old(Model())) && disk.Model() == old(disk.Model())
                case Some(sealed) =>
                  && Ended(fmt, sealed, old(fd), outcomes, Model(), fd, old(disk.Model()), disk.Model(), end)
                  && (end == Returned(-1) && HoldsDurably(old(disk.Model()), disk.Model(), Flat(fmt.codec, sealed.batch))
                      <==> FsyncSucceeds(BufLen(fmt, sealed), old(fd), outcomes)
                           && sealed.segBytes + BufLen(fmt, sealed) >= SEGMENT_BYTES
                           && CreateFails(BufLen(fmt, sealed), old(fd), outcomes))
    {
      if !openBatch { return Returned(0); }
      var ok := Append(COMMIT, src, now, Put8(nextTxn) + Put4(batchSamples) + Put4(0));
      if !ok {
        DropBatch();
        return Returned(-1);
      }
      ghost var sealed := Model();
      SealedIsSomething(fmt, old(Model()), now);
      end := CommitSealed(disk, outcomes);
      MinusOneWithDurableBatch(fmt, sealed, old(fd), outcomes, Model(), fd, old(disk.Model()), disk.Model(), end, BufLen(fmt, sealed));
    }

    /** The sealed batch, written and synced, and a full segment rotated. */
    method CommitSealed(disk: Disk, outcomes: seq<Outcome>) returns (end: Ending)
      requires Valid() && (fd ==> segBytes == |disk.bytes|)
      modifies this`nextSeq, this`len, this`batch, this`openBatch, this`batchSamples, this`segBytes, this`nextTxn, this`fd, disk
      ensures Valid() && Ended(fmt, old(Model()), old(fd), outcomes, Model(), fd, old(disk.Model()), disk.Model(), end)
    {
      var done, call, broke := WriteAll(disk, outcomes);
      PrefixTo(buf[..len], done);
      if broke {
        Undo(disk);
        return Returned(-1);
      }
      if done < len || call == |outcomes| { return Killed; }
      assert outcomes[call..][1..] == outcomes[call + 1..];
      end := Settle(disk, outcomes[call], outcomes[call + 1..]);
    }

    /** The fsync after the last write, and what follows it. */
    method Settle(disk: Disk, outcome: Outcome, outcomes: seq<Outcome>) returns (end: Ending)
      requires Valid()
      modifies this`nextSeq, this`len, this`batch, this`openBatch, this`batchSamples, this`segBytes, this`nextTxn, this`fd, disk
      ensures Valid()
      ensures if old(fd) && outcome.Took? then
                Stored(fmt, old(Model()), Model(), fd, old(disk.Model()).(durable := |old(disk.bytes)|), disk.Model(), outcomes, end)
              else
                end == Returned(-1) && Model() == Drop(old(Model())) && fd == old(fd)
                && disk.Model() == old(disk.Model()).(bytes := CutBack(fd, old(segBytes), old(disk.bytes)))
    {
      var synced := SyncBatch(disk, outcome);
      if !synced { return Returned(-1); }
      if segBytes < SEGMENT_BYTES { return Returned(0); }
      end := CreateSegment(disk, outcomes);
    }

    /** create_segment, after the full segment has been closed. */
    method CreateSegment(disk: Disk, outcomes: seq<Outcome>) returns (end: Ending)
      requires Valid()
      modifies this`fd, this`segBytes, disk
      ensures Valid() && Rotated(old(Model()), Model(), fd, old(disk.Model()), disk.Model(), outcomes, end)
      ensures Model() == if fd then old(Model()).(segBytes := 0) else old(Model())
    {
      fd := false;
      if outcomes == [] { return Killed; }
      var ok := disk.Create(nextSeq, outcomes[0]);
      if !ok { return Returned(-1); }
      if |outcomes| == 1 { return Killed; }
      ok := disk.SyncDir(outcomes[1]);
      if !ok { return Returned(-1); }
      fd, segBytes := true, 0;
      end := Returned(0);
    }

    /** The fsync that makes a written batch durable. */
    method SyncBatch(disk: Disk, outcome: Outcome) returns (ok: bool)
      requires Valid()
      modifies this`nextSeq, this`len, this`batch, this`openBatch, this`batchSamples, this`segBytes, this`nextTxn, disk`bytes, disk`durable
      ensures Valid() && ok == (fd && outcome.Took?)
      ensures ok ==> Model() == Landed(fmt, old(Model())) && disk.bytes == old(disk.bytes) && disk.durable == |disk.bytes|
      ensures !ok ==> Model() == Drop(old(Model())) && disk.durable == old(disk.durable)
                      && disk.bytes == CutBack(fd, old(segBytes), old(disk.bytes))
    {
      ok := false;
      if fd { ok := disk.Sync(outcome); }
      if ok { CloseBatch(); } else { Undo(disk); }
    }

    /** The batch is durable: the next one begins after it. */
    method CloseBatch()
      requires Valid()
      modifies this`len, this`batch, this`openBatch, this`batchSamples, this`segBytes, this`nextTxn
      ensures Valid() && Model() == Landed(fmt, old(Model()))
    {
      segBytes, nextTxn := segBytes + len, U64(nextTxn + 1);
      len, openBatch, batchSamples, batch := 0, false, 0, [];
    }

    /** The undo path of wal_commit. */
    method Undo(disk: Disk)
      requires Valid()
      modifies this`nextSeq, this`len, this`batch, this`openBatch, this`batchSamples, disk`bytes
      ensures Valid() && Model() == Drop(old(Model())) && disk.bytes == CutBack(fd, segBytes, old(disk.bytes))
    {
      if fd { disk.Truncate(segBytes); }
      DropBatch();
    }
  }

  // ------------------------------------------------------------------ a commit is a run of the machine

  function FilesOf(s: World.World): Files { Files(s.older, s.first, s.file, s.durable, s.loose) }

  /** The writer of s is w, on an open segment or on none, between batches. */
  predicate Rests(s: World.World, w: Wal, fd: bool) { s.proc.Up? && s.proc.w == w && s.proc.fd == fd && s.proc.phase.Idle? }

  lemma WrittenRun(fmt: Format, s: World.World, sealed: Wal, d: nat, booted: bool)
    requires s.proc == World.Up(sealed, true, World.Writing(0), booted) && d <= BufLen(fmt, sealed)
    ensures Durability.CanRun(fmt, s, [World.Step.Write(d)])
    ensures Durability.After(fmt, s, [World.Step.Write(d)])
            == s.(file := s.file + Flat(fmt.codec, sealed.batch)[..d], proc := World.Up(sealed, true, World.Writing(d), booted))
  {
    Durability.RunThen(fmt, s, [], s, World.Step.Write(d));
    assert [] + [World.Step.Write(d)] == [World.Step.Write(d)];
  }

  lemma KilledRun(fmt: Format, s: World.World, sealed: Wal, booted: bool, now: Files) returns (steps: seq<World.Step>)
    requires s.proc == World.Up(sealed, true, World.Writing(0), booted) && now.(bytes := s.file) == FilesOf(s)
    requires s.file <= now.bytes <= s.file + Flat(fmt.codec, sealed.batch)
    ensures Durability.CanRun(fmt, s, steps)
    ensures FilesOf(Durability.After(fmt, s, steps)) == now && Durability.After(fmt, s, steps).proc.Down?
  {
    var d := |now.bytes| - |s.file|;
    assert now.bytes == s.file + Flat(fmt.codec, sealed.batch)[..d];
    WrittenRun(fmt, s, sealed, d, booted);
    Durability.RunThen(fmt, s, [World.Step.Write(d)], Durability.After(fmt, s, [World.Step.Write(d)]), World.Exit);
    steps := [World.Step.Write(d)] + [World.Exit];
  }

  lemma StoredRun(fmt: Format, s: World.World, sealed: Wal, booted: bool, steps: seq<World.Step>)
    requires s.proc == World.Up(sealed, true, World.Writing(0), booted)
    requires steps == [World.Step.Write(BufLen(fmt, sealed))] + [World.Synced]
    ensures Durability.CanRun(fmt, s, steps)
    ensures var t, v, file := Durability.After(fmt, s, steps), Landed(fmt, sealed), s.file + Flat(fmt.codec, sealed.batch);
            && FilesOf(t) == FilesOf(s).(bytes := file, durable := |file|)
            && t.proc == World.Up(v, true, if v.segBytes >= SEGMENT_BYTES then World.Rotating else World.Idle, true)
  {
    var n := BufLen(fmt, sealed);
    WrittenRun(fmt, s, sealed, n, booted);
    assert Flat(fmt.codec, sealed.batch)[..n] == Flat(fmt.codec, sealed.batch);
    Durability.RunThen(fmt, s, [World.Step.Write(n)], Durability.After(fmt, s, [World.Step.Write(n)]), World.Synced);
  }

  lemma UndoneRun(fmt: Format, s: World.World, sealed: Wal, fd: bool, booted: bool)
    requires s.proc == World.Up(sealed, fd, World.Writing(0), booted) && (fd ==> sealed.segBytes == |s.file|)
    ensures Durability.CanRun(fmt, s, [World.Failed])
    ensures FilesOf(Durability.After(fmt, s, [World.Failed])) == FilesOf(s)
            && Rests(Durability.After(fmt, s, [World.Failed]), Drop(sealed), fd)
  {
    Durability.RunThen(fmt, s, [], s, World.Failed);
    assert [] + [World.Failed] == [World.Failed];
  }

  lemma LeftRun(fmt: Format, s: World.World)
    ensures Durability.CanRun(fmt, s, [World.Exit]) && Durability.After(fmt, s, [World.Exit]) == s.(proc := World.Down)
  {
    Durability.RunThen(fmt, s, [], s, World.Exit);
    assert [] + [World.Exit] == [World.Exit];
  }

  /** From a state whose batch is stored and whose segment is full: what rotation comes to. */
  lemma RotatedRun(fmt: Format, s: World.World, steps: seq<World.Step>, t: World.World, landed: Wal, outcomes: seq<Outcome>,
                   w: Wal, fd: bool, now: Files, end: Ending) returns (all: seq<World.Step>)
    requires Durability.CanRun(fmt, s, steps) && Durability.After(fmt, s, steps) == t
    requires t.proc == World.Up(landed, true, World.Rotating, true)
    requires Rotated(landed, w, fd, FilesOf(t), now, outcomes, end) && w == if fd then landed.(segBytes := 0) else landed
    ensures Durability.CanRun(fmt, s, all) && FilesOf(Durability.After(fmt, s, all)) == now
    ensures if end.Killed? then Durability.After(fmt, s, all).proc.Down? else Rests(Durability.After(fmt, s, all), w, fd)
  {
    if outcomes == [] {
      Durability.RunThen(fmt, s, steps, t, World.Exit);
      return steps + [World.Exit];
    }
    var turn := World.Rotate(outcomes[0].Took?, |outcomes| > 1 && outcomes[1].Took?);
    Durability.RunThen(fmt, s, steps, t, turn);
    all := steps + [turn];
    if end.Killed? {
      Durability.RunThen(fmt, s, all, Durability.After(fmt, s, all), World.Exit);
      all := all + [World.Exit];
    }
  }

  /** However its calls end, what a commit does to the directory and the writer is what a run of the machine's
      steps does, with a segment open or none. */
  lemma CommitIsARun(fmt: Format, s: World.World, sealed: Wal, fdWas: bool, booted: bool, outcomes: seq<Outcome>, w: Wal,
                     fd: bool, now: Files, end: Ending) returns (steps: seq<World.Step>)
    requires s.proc == World.Up(sealed, fdWas, World.Writing(0), booted) && (fdWas ==> sealed.segBytes == |s.file|)
    requires Ended(fmt, sealed, fdWas, outcomes, w, fd, FilesOf(s), now, end)
    ensures Durability.CanRun(fmt, s, steps) && FilesOf(Durability.After(fmt, s, steps)) == now
    ensures if end.Killed? then Durability.After(fmt, s, steps).proc.Down? else Rests(Durability.After(fmt, s, steps), w, fd)
  {
    var e := WriteEnds(BufLen(fmt, sealed), fdWas, outcomes);
    if !fdWas && end.Killed? {
      LeftRun(fmt, s);
      steps := [World.Exit];
    } else if e.RanOut? || (e.AllOut? && e.rest == []) {
      steps := KilledRun(fmt, s, sealed, booted, now);
    } else if e.BrokeOff? || !fdWas || !e.rest[0].Took? {
      UndoneRun(fmt, s, sealed, fdWas, booted);
      steps := [World.Failed];
    } else {
      steps := [World.Step.Write(BufLen(fmt, sealed))] + [World.Synced];
      StoredRun(fmt, s, sealed, booted, steps);
      if Landed(fmt, sealed).segBytes >= SEGMENT_BYTES {
        steps := RotatedRun(fmt, s, steps, Durability.After(fmt, s, steps), Landed(fmt, sealed), e.rest[1..], w, fd, now, end);
      }
    }
  }

  function CutBack(fd: bool, segBytes: nat, bytes: seq<byte>): seq<byte> {
    if fd && segBytes <= |bytes| then bytes[..segBytes] else bytes
  }
}
