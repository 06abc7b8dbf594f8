/** What a log says about the rings that fed it: the samples, in order, and how far it holds each ring. */
module Tallies {
  import opened Crc
  import opened Bytes
  import opened Framing
  import opened Log
  import opened Record
  import opened LogFormat
  import opened Wal
  import opened World
  import Note

  /** place is how many slots of the ring with generation gen the records hold: one more than the last slot
      named since the generation last changed. noted and last: whether any place was ever named, and the
      last one. */
  datatype Tally = Tally(samples: seq<Reading>, gen: Ns<u64>, place: Ns<nat>, noted: Ns<bool>, last: Ns<u64>)

  const NOTHING := Tally([], Ns(0, 0), Ns(0, 0), Ns(false, false), Ns(0, 0))

  function Count(t: Tally, w: What): Tally {
    match w
    case Sample(_, reading) => t.(samples := t.samples + [reading])
    case RingGen(ns, g) =>
      if ns < 2 && t.gen.At(ns) != g then t.(gen := t.gen.Set(ns, g), place := t.place.Set(ns, 0)) else t
    case RingSeq(ns, q) =>
      if ns < 2 then t.(place := t.place.Set(ns, q + 1), noted := t.noted.Set(ns, true), last := t.last.Set(ns, q)) else t
    case _ => t
  }

  function TallyOf(fmt: Format, rs: seq<Rec>): Tally {
    if rs == [] then NOTHING else Count(TallyOf(fmt, rs[..|rs| - 1]), fmt.view(rs[|rs| - 1]).what)
  }

  lemma TallySnoc(fmt: Format, rs: seq<Rec>, r: Rec, all: seq<Rec>)
    requires all == rs + [r]
    ensures TallyOf(fmt, all) == Count(TallyOf(fmt, rs), fmt.view(r).what)
  {
    assert all[..|all| - 1] == rs;
  }

  /** The tally of a log is what the recovery scan finds in it. */
  lemma {:induction false} TallyIsFacts(fmt: Format, rs: seq<Rec>)
    ensures var f, t := FactsOf(Items(fmt.view, rs)), TallyOf(fmt, rs);
            f.samples == |t.samples| && f.ringGen == t.gen && f.hasRingSeq == t.noted && f.ringSeq == t.last
  {
    if rs != [] {
      var init := rs[..|rs| - 1];
      TallyIsFacts(fmt, init);
      ItemsPrefix(fmt.view, rs, |rs| - 1);
    }
  }

  lemma TallyIsScan(fmt: Format, file: seq<byte>)
    ensures var scan, t := ScanOf(fmt.codec, fmt.view, file), TallyOf(fmt, Committed(fmt.codec, fmt.view, file));
            scan.ringGen == t.gen && scan.hasRingSeq == t.noted && scan.ringSeq == t.last
  {
    var rs := Parse(fmt.codec, file);
    var n := CommittedCount(Items(fmt.view, rs));
    ItemsPrefix(fmt.view, rs, n);
    TallyIsFacts(fmt, rs[..n]);
  }

  /** A place is named exactly when one was named at all and no generation has come since. */
  lemma {:induction false} PlaceIsLast(fmt: Format, rs: seq<Rec>, ns: nat)
    requires ns < 2
    ensures var t := TallyOf(fmt, rs); t.place.At(ns) > 0 ==> t.noted.At(ns) && t.place.At(ns) == t.last.At(ns) + 1
  {
    if rs != [] { PlaceIsLast(fmt, rs[..|rs| - 1], ns); }
  }

  /** What the newest segment's records add to the older ones'. */
  lemma {:induction false} TallyJoins(fmt: Format, older: seq<Rec>, newest: seq<Rec>, ns: nat)
    requires ns < 2
    ensures var d, n := TallyOf(fmt, older + newest), TallyOf(fmt, newest);
            n.noted.At(ns) ==> d.noted.At(ns) && d.last.At(ns) == n.last.At(ns)
    decreases |newest|
  {
    if newest != [] {
      var init, r := newest[..|newest| - 1], newest[|newest| - 1];
      TallyJoins(fmt, older, init, ns);
      TallySnoc(fmt, older + init, r, older + newest);
    }
  }

  // ------------------------------------------------------------------ the log behind and ahead of the open batch

  /** The committed log of the whole directory, behind the open batch. */
  function CommittedLog(fmt: Format, s: World): seq<Rec> {
    OlderLogs(fmt, s.older)
    + if s.proc.Up? && s.proc.w.segBytes <= |s.file| then LogIn(fmt, s.file[..s.proc.w.segBytes]) else []
  }

  /** What is committed, and what will be once the open batch is. */
  function Behind(fmt: Format, s: World): Tally { TallyOf(fmt, CommittedLog(fmt, s)) }

  function Ahead(fmt: Format, s: World): Tally
    requires s.proc.Up?
  {
    TallyOf(fmt, CommittedLog(fmt, s) + s.proc.w.batch)
  }

  /** What is committed in the directory if left is what there is of the newest segment. */
  function Left(fmt: Format, s: World, left: seq<byte>): Tally {
    TallyOf(fmt, OlderLogs(fmt, s.older) + Committed(fmt.codec, fmt.view, left))
  }

  /** A running writer on its open segment. */
  predicate Running(s: World) { s.proc.Up? && s.proc.fd }

  lemma AddedTally(fmt: Format, log: seq<Rec>, w: Wal, kind: u16, src: u8, t: Clock, body: seq<byte>, now: Clock,
                   v: Wal)
    requires Good(fmt) && BatchOk(fmt, w) && kind != BEGIN && kind != COMMIT
    requires Add(fmt, w, kind, src, t, body, now) == (true, v)
    ensures |v.batch| > 0 && ValidRec(v.batch[|v.batch| - 1])
    ensures TallyOf(fmt, log + v.batch) == Count(TallyOf(fmt, log + w.batch), fmt.view(v.batch[|v.batch| - 1]).what)
  {
    AddFacts(fmt, w, kind, src, t, body, now);
    AddKeepsBatch(fmt, w, kind, src, t, body, now);
    var init, r := v.batch[..|v.batch| - 1], v.batch[|v.batch| - 1];
    assert MarksOf(fmt, r);
    assert log + v.batch == log + init + [r];
    TallySnoc(fmt, log + init, r, log + v.batch);
    if !w.openBatch {
      var b := NextRec(w, BEGIN, w.src, now, Put8(w.nextTxn));
      assert v.batch[0] == b;
      BeginCounts(fmt, log, b, init, w.batch);
    }
  }

  /** A BEGIN adds nothing to a tally. */
  lemma BeginCounts(fmt: Format, log: seq<Rec>, b: Rec, init: seq<Rec>, was: seq<Rec>)
    requires Good(fmt) && fmt.codec.valid(b) && b.kind == BEGIN && init == [b] && was == []
    ensures TallyOf(fmt, log + init) == TallyOf(fmt, log + was)
  {
    assert MarksOf(fmt, b);
    TallySnoc(fmt, log, b, log + init);
    assert log + was == log;
  }

  lemma SampleCounts(fmt: Format, log: seq<Rec>, w: Wal, src: u8, t: Clock, body: seq<byte>, now: Clock, v: Wal)
    requires Good(fmt) && BatchOk(fmt, w) && Add(fmt, w, SAMPLE, src, t, body, now) == (true, v)
    ensures var a := TallyOf(fmt, log + w.batch);
            TallyOf(fmt, log + v.batch) == a.(samples := a.samples + [Reading(src, t.mono, body)])
  {
    AddedTally(fmt, log, w, SAMPLE, src, t, body, now, v);
    AddFacts(fmt, w, SAMPLE, src, t, body, now);
    assert MarksOf(fmt, v.batch[|v.batch| - 1]);
  }

  lemma NoteCounts(fmt: Format, log: seq<Rec>, w: Wal, code: u16, ns: nat, q: u64, t: Clock, now: Clock, v: Wal)
    requires Good(fmt) && BatchOk(fmt, w) && ns < 2 && (code == EV_RING_GEN || code == EV_RING_SEQ)
    requires |NoteOf(code, ns, q)| <= EVENT_TEXT_MAX
    requires Add(fmt, w, EVENT, w.src, t, EventBody(code, NoteOf(code, ns, q)), now) == (true, v)
    ensures TallyOf(fmt, log + v.batch)
            == Count(TallyOf(fmt, log + w.batch), if code == EV_RING_GEN then RingGen(ns, q) else RingSeq(ns, q))
  {
    var body := EventBody(code, NoteOf(code, ns, q));
    AddedTally(fmt, log, w, EVENT, w.src, t, body, now, v);
    AddFacts(fmt, w, EVENT, w.src, t, body, now);
    assert ReadsNote(fmt, v.batch[|v.batch| - 1], ns, q);
  }

  function NoteOf(code: u16, ns: nat, q: u64): seq<byte>
    requires ns < 2
  {
    Note.NoteText(if code == EV_RING_GEN then Note.GEN_EQ else Note.SEQ_EQ, ns, q)
  }

  lemma PlainCounts(fmt: Format, log: seq<Rec>, w: Wal, kind: u16, src: u8, t: Clock, body: seq<byte>, now: Clock,
                    v: Wal)
    requires Good(fmt) && BatchOk(fmt, w) && (kind == BOOT || kind == SHUTDOWN)
    requires Add(fmt, w, kind, src, t, body, now) == (true, v)
    ensures TallyOf(fmt, log + v.batch) == TallyOf(fmt, log + w.batch)
  {
    AddedTally(fmt, log, w, kind, src, t, body, now, v);
    AddFacts(fmt, w, kind, src, t, body, now);
    assert MarksOf(fmt, v.batch[|v.batch| - 1]);
  }

  lemma SealCounts(fmt: Format, log: seq<Rec>, w: Wal, now: Clock, v: Wal)
    requires Good(fmt) && BatchOk(fmt, w) && w.openBatch && SrcOk(w.src) && Seal(fmt, w, now) == Some(v)
    ensures TallyOf(fmt, log + v.batch) == TallyOf(fmt, log + w.batch)
  {
    SealNeverFails(fmt, w, now);
    var c := v.batch[|v.batch| - 1];
    assert MarksOf(fmt, c) && log + v.batch == (log + w.batch) + [c];
    TallySnoc(fmt, log + w.batch, c, log + v.batch);
  }

  // ------------------------------------------------------------------ what each step of the log does to them

  lemma UpBase(fmt: Format, s: World)
    requires Inv(fmt, s) && Running(s)
    ensures s.proc.w.segBytes <= |s.file| && s.durable <= s.proc.w.segBytes && SrcOk(s.proc.w.src)
    ensures s.proc.booted ==> s.durable == s.proc.w.segBytes
    ensures s.proc.phase.Idle? ==> |s.file| == s.proc.w.segBytes && BatchOk(fmt, s.proc.w)
    ensures Follows(fmt, s.first, s.file[..s.proc.w.segBytes], s.proc.w, s.proc.booted)
    ensures s.proc.phase.Writing? ==> SealedOk(fmt, s.proc.w)
  {
    InvToUp(fmt, s);
  }

  lemma UpSizes(fmt: Format, s: World)
    requires Inv(fmt, s) && Running(s)
    ensures s.durable <= s.proc.w.segBytes <= |s.file| && SrcOk(s.proc.w.src)
    ensures s.proc.booted ==> s.durable == s.proc.w.segBytes
    ensures s.proc.phase.Idle? ==> |s.file| == s.proc.w.segBytes && BatchOk(fmt, s.proc.w)
  {
    UpBase(fmt, s);
  }

  /** A crash that leaves just the committed bytes leaves what is behind the open batch. */
  lemma CutAtBase(fmt: Format, s: World)
    requires Good(fmt) && Inv(fmt, s) && Running(s)
    ensures s.proc.w.segBytes <= |s.file| && Left(fmt, s, s.file[..s.proc.w.segBytes]) == Behind(fmt, s)
  {
    UpBase(fmt, s);
    var bytes := s.file[..s.proc.w.segBytes];
    LogFileReads(fmt, s.first, LogIn(fmt, bytes), bytes);
  }

  /** While a batch is being written, the file is the committed log and a piece of the batch. */
  lemma WritingFile(fmt: Format, s: World, w: Wal, base: seq<byte>, done: nat)
    requires Good(fmt) && Inv(fmt, s) && Running(s) && s.proc.w == w && s.proc.phase == Writing(done)
    requires w.segBytes <= |s.file| && base == s.file[..w.segBytes]
    ensures LogFile(fmt, s.first, LogIn(fmt, base), base) && BaseSeq(w) == U64(s.first + |LogIn(fmt, base)|)
    ensures SealedOk(fmt, w) && done <= BufLen(fmt, w) && s.file == base + Flat(fmt.codec, w.batch)[..done]
  {
    InvToUp(fmt, s);
    UpToFollows(fmt, s.first, s.file, s.durable, w, done, s.proc.booted);
  }

  /** A crash while the batch is being written leaves what is behind it, or all of it. */
  lemma CutWhileWriting(fmt: Format, s: World, left: seq<byte>)
    requires Good(fmt) && Inv(fmt, s) && Running(s) && s.proc.phase.Writing?
    requires left <= s.file && s.proc.w.segBytes <= |left|
    ensures Left(fmt, s, left) == Behind(fmt, s) || Left(fmt, s, left) == Ahead(fmt, s)
  {
    var w, base := s.proc.w, s.file[..s.proc.w.segBytes];
    WritingFile(fmt, s, w, base, s.proc.phase.done);
    CutOfWritten(s.file, base, Flat(fmt.codec, w.batch), s.proc.phase.done, left);
    TornCut(fmt, s.first, LogIn(fmt, base), base, w.batch, |left| - |base|, left);
    Appended(OlderLogs(fmt, s.older), LogIn(fmt, base), w.batch);
  }

  lemma Appended(a: seq<Rec>, b: seq<Rec>, c: seq<Rec>)
    ensures a + b + c == a + (b + c)
  {}

  lemma TornCut(fmt: Format, first: u64, log: seq<Rec>, base: seq<byte>, batch: seq<Rec>, d: nat, cut: seq<byte>)
    requires Good(fmt) && LogFile(fmt, first, log, base) && AllValid(fmt.codec, batch)
    requires WholeBatch(Items(fmt.view, batch)) && d <= |Flat(fmt.codec, batch)|
    requires cut == base + Flat(fmt.codec, batch)[..d]
    ensures Committed(fmt.codec, fmt.view, cut) == log || Committed(fmt.codec, fmt.view, cut) == log + batch
  {
    TornBatch(fmt, first, log, base, batch, d);
  }

  lemma CutOfWritten(file: seq<byte>, base: seq<byte>, buf: seq<byte>, done: nat, left: seq<byte>)
    requires done <= |buf| && file == base + buf[..done] && left <= file && |base| <= |left|
    ensures left == base + buf[..|left| - |base|]
  {
    assert left == file[..|left|];
  }

  lemma SyncedTallies(fmt: Format, s: World)
    requires Good(fmt) && Inv(fmt, s) && Running(s) && CanSync(fmt, s)
    ensures Behind(fmt, DoSynced(fmt, s)) == Ahead(fmt, s) == Ahead(fmt, DoSynced(fmt, s))
    ensures DoSynced(fmt, s).durable == |DoSynced(fmt, s).file| == DoSynced(fmt, s).proc.w.segBytes
  {
    UpBase(fmt, s);
    var w, t := s.proc.w, DoSynced(fmt, s);
    var base := s.file[..w.segBytes];
    WritingFile(fmt, s, w, base, BufLen(fmt, w));
    SyncedFile(fmt, s.first, base, w, s.file);
    LandedLog(fmt, s, base, t, Landed(fmt, w));
    NoBatch(fmt, t);
  }

  lemma SyncedFile(fmt: Format, first: u64, base: seq<byte>, w: Wal, file: seq<byte>)
    requires Good(fmt) && LogFile(fmt, first, LogIn(fmt, base), base) && BaseSeq(w) == U64(first + |LogIn(fmt, base)|)
    requires SealedOk(fmt, w) && file == base + Flat(fmt.codec, w.batch)[..BufLen(fmt, w)]
    ensures LogIn(fmt, file) == LogIn(fmt, base) + w.batch && |file| == |base| + BufLen(fmt, w)
  {
    assert Flat(fmt.codec, w.batch)[..BufLen(fmt, w)] == Flat(fmt.codec, w.batch);
    SyncedLog(fmt, first, base, LogIn(fmt, base), w, file, LogIn(fmt, base) + w.batch);
  }

  lemma LandedLog(fmt: Format, s: World, base: seq<byte>, t: World, v: Wal)
    requires s.proc.Up? && s.proc.w.segBytes <= |s.file| && base == s.file[..s.proc.w.segBytes]
    requires t.proc.Up? && t.proc.w == v && t.file == s.file && t.older == s.older && v.segBytes == |s.file|
    requires LogIn(fmt, s.file) == LogIn(fmt, base) + s.proc.w.batch
    ensures Behind(fmt, t) == Ahead(fmt, s)
  {
    assert t.file[..|t.file|] == s.file;
    Appended(OlderLogs(fmt, s.older), LogIn(fmt, base), s.proc.w.batch);
  }

  lemma NoBatch(fmt: Format, s: World)
    requires s.proc.Up? && s.proc.w.batch == []
    ensures Ahead(fmt, s) == Behind(fmt, s)
  {
    assert CommittedLog(fmt, s) + [] == CommittedLog(fmt, s);
  }

  lemma FailedTallies(fmt: Format, s: World)
    requires Good(fmt) && Inv(fmt, s) && Running(s) && s.proc.phase.Writing?
    ensures Running(DoFailed(s)) && Behind(fmt, DoFailed(s)) == Behind(fmt, s)
    ensures DoFailed(s).file <= s.file && DoFailed(s).durable == s.durable && DoFailed(s).past <= s.past + {s.file}
    ensures DoFailed(s).older == s.older
  {
    UpBase(fmt, s);
    var t := DoFailed(s);
    DoFailedIs(fmt, s, s.proc.w, true, s.proc.w.segBytes);
    assert t.file[..s.proc.w.segBytes] == s.file[..s.proc.w.segBytes];
  }

  lemma WroteTallies(fmt: Format, s: World, n: nat)
    requires Inv(fmt, s) && Running(s) && CanWrite(fmt, s, n)
    ensures Behind(fmt, DoWrite(fmt, s, n)) == Behind(fmt, s) && Ahead(fmt, DoWrite(fmt, s, n)) == Ahead(fmt, s)
    ensures s.file <= DoWrite(fmt, s, n).file
  {
    UpBase(fmt, s);
    var t := DoWrite(fmt, s, n);
    assert t.file[..s.proc.w.segBytes] == s.file[..s.proc.w.segBytes];
  }

  /** What opening finds: the scan of the newest file. */
  predicate Found(fmt: Format, w: Wal, file: seq<byte>) { w.recovered == ScanOf(fmt.codec, fmt.view, file) }

  lemma OpenedTallies(fmt: Format, s: World, src: u8, flags: u8, created: bool, entrySynced: bool, t: World)
    requires Good(fmt) && Inv(fmt, s) && s.proc.Down? && SrcOk(src) && t == DoOpen(fmt, s, src, flags, created, entrySynced)
    ensures t.proc.Up? ==> Behind(fmt, t) == Left(fmt, s, s.file) && Found(fmt, t.proc.w, s.file)
    ensures t.proc.Truncating? ==> Left(fmt, t, t.file) == Left(fmt, s, s.file) && Found(fmt, t.proc.writer, s.file)
    ensures t.older == s.older && t.file <= s.file && t.past <= s.past + {s.file}
    ensures t.durable == s.durable || ScanOf(fmt.codec, fmt.view, s.file).committedLen <= t.durable <= s.durable
  {
    OpenKeeps(fmt, s, src, flags, created, entrySynced);
    if s.made {
      var w := Opened(ScanOf(fmt.codec, fmt.view, s.file), s.first, |s.file|, src, flags);
      ScanFits(fmt, s.file);
      DoOpenIs(fmt, s, src, flags, created, entrySynced, w, CutTo(s, w.segBytes));
      if t.proc.Up? { OpenedFile(fmt, s, w, t); } else { OpenedCut(fmt, s, w.segBytes, CutTo(s, w.segBytes)); }
    } else {
      NothingDecodesEmpty(fmt.codec);
    }
  }

  lemma OpenedCut(fmt: Format, s: World, k: nat, t: World)
    requires Good(fmt) && k == ScanOf(fmt.codec, fmt.view, s.file).committedLen < |s.file| && t == CutTo(s, k)
    ensures Left(fmt, t, t.file) == Left(fmt, s, s.file) && t.file <= s.file
  {
    CutKeepsCommitted(fmt.codec, fmt.view, s.file, k);
  }

  lemma OpenedFile(fmt: Format, s: World, w: Wal, t: World)
    requires Good(fmt) && Inv(fmt, s) && w.segBytes == |s.file| && t == s.(proc := Up(w, true, Idle, false)) && Inv(fmt, t)
    ensures Behind(fmt, t) == Left(fmt, s, s.file)
  {
    CutAtBase(fmt, t);
    assert s.file[..|s.file|] == s.file;
  }

  lemma TruncatedTallies(fmt: Format, s: World)
    requires Good(fmt) && Inv(fmt, s) && s.proc.Truncating?
    ensures Behind(fmt, DoTruncated(s)) == Left(fmt, s, s.file)
  {
    var t := DoTruncated(s);
    TruncatedKeeps(fmt, s);
    UpBase(fmt, t);
    CutAtBase(fmt, t);
    assert t.file[..|t.file|] == s.file;
  }

  /** Rotation changes nothing of what the directory says about the rings. */
  lemma RotatedTallies(fmt: Format, s: World, created: bool, entrySynced: bool, t: World)
    requires Good(fmt) && Inv(fmt, s) && s.proc.Up? && s.proc.phase.Rotating? && t == DoRotate(s, created, entrySynced)
    ensures Behind(fmt, t) == Behind(fmt, s)
  {
    RotatingHasFd(fmt, s);
    UpBase(fmt, s);
    InvToUp(fmt, s);
    var log := LogIn(fmt, s.file);
    assert s.file[..|s.file|] == s.file && s.proc.w.segBytes == |s.file|;
    if created {
      NothingDecodesEmpty(fmt.codec);
      var none: seq<byte> := [];
      assert none[..0] == none;
      assert t.older[..|t.older| - 1] == s.older;
      assert OlderLogs(fmt, t.older) == OlderLogs(fmt, s.older) + log;
      assert CommittedLog(fmt, t) == OlderLogs(fmt, t.older) + [] == CommittedLog(fmt, s);
    }
  }
}
