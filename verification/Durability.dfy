/** What holds over every run of the log: no durable record is ever lost or changed, which batches are
    durable, that sequence numbers have no gap and no repeat, and how the writer's memory and a fresh
    scan agree. */
module Durability {
  import opened Crc
  import opened Bytes
  import opened Framing
  import opened Log
  import opened Record
  import opened LogFormat
  import opened Wal
  import opened World

  // ------------------------------------------------------------------ runs

  ghost predicate CanRun(fmt: Format, s: World, steps: seq<Step>)
    decreases |steps|
  {
    steps == [] || (Enabled(fmt, s, steps[0]) && CanRun(fmt, Apply(fmt, s, steps[0]), steps[1..]))
  }

  function After(fmt: Format, s: World, steps: seq<Step>): World
    requires CanRun(fmt, s, steps)
    decreases |steps|
  {
    if steps == [] then s else After(fmt, Apply(fmt, s, steps[0]), steps[1..])
  }

  /** Whatever the process, the disk and the power do, the invariant holds. */
  lemma {:induction false} RunKeepsInv(fmt: Format, s: World, steps: seq<Step>)
    requires Good(fmt) && Inv(fmt, s) && CanRun(fmt, s, steps)
    ensures Inv(fmt, After(fmt, s, steps))
    decreases |steps|
  {
    if steps != [] {
      StepKeepsInv(fmt, s, steps[0]);
      RunKeepsInv(fmt, Apply(fmt, s, steps[0]), steps[1..]);
    }
  }

  // ------------------------------------------------------------------ the writer agrees with the disk

  lemma WriterAgreesWithFile(fmt: Format, first: u64, file: seq<byte>, w: Wal, log: seq<Rec>, scan: Scan)
    requires Good(fmt) && Follows(fmt, first, file, w, true) && !w.openBatch && log == LogIn(fmt, file)
    requires scan == ScanOf(fmt.codec, fmt.view, file)
    ensures scan.committedLen == |file|
    ensures w.nextSeq == if scan.anyCommitted then U64(scan.lastSeq + 1) else first
    ensures scan.anyCommitted ==> w.nextTxn == U64(scan.lastTxn + 1) && w.bootId == scan.lastBootId
  {
    LogFileReads(fmt, first, log, file);
    ScanLast(fmt, file);
    NextSeqOfLog(fmt, first, log);
  }

  /** Between batches, every number the writer keeps in memory is what a fresh scan of its segment
      would compute. */
  lemma WriterAgreesWithDisk(fmt: Format, s: World, w: Wal, scan: Scan)
    requires Good(fmt) && Inv(fmt, s) && s.proc == Up(w, true, Idle, true) && !w.openBatch
    requires scan == ScanOf(fmt.codec, fmt.view, s.file)
    ensures w.segBytes == scan.committedLen == |s.file| == s.durable
    ensures w.nextSeq == if scan.anyCommitted then U64(scan.lastSeq + 1) else s.first
    ensures scan.anyCommitted ==> w.nextTxn == U64(scan.lastTxn + 1) && w.bootId == scan.lastBootId
  {
    InvToUp(fmt, s);
    assert s.file[..|s.file|] == s.file;
    WriterAgreesWithFile(fmt, s.first, s.file, w, LogIn(fmt, s.file), scan);
  }

  /** Leaving, by exit or kill, and opening again. */
  function Reopen(src: u8, flags: u8): seq<Step> { [Exit, Open(src, flags, true, true)] }

  lemma ReopenRuns(fmt: Format, s: World, src: u8, flags: u8)
    requires SrcOk(src)
    ensures CanRun(fmt, s, Reopen(src, flags))
    ensures After(fmt, s, Reopen(src, flags)) == DoOpen(fmt, s.(proc := Down), src, flags, true, true)
  {
    var down := s.(proc := Down);
    After2(fmt, s, Exit, Open(src, flags, true, true), down, DoOpen(fmt, down, src, flags, true, true));
  }

  lemma After2(fmt: Format, s: World, a: Step, b: Step, t: World, u: World)
    requires Enabled(fmt, s, a) && t == Apply(fmt, s, a) && Enabled(fmt, t, b) && u == Apply(fmt, t, b)
    ensures CanRun(fmt, s, [a, b]) && After(fmt, s, [a, b]) == u
  {
    assert [a, b][1..] == [b] && [b][1..] == [];
    assert CanRun(fmt, u, []) && CanRun(fmt, t, [b]) && After(fmt, t, [b]) == u;
  }

  /** Every byte of the open batch is in the file. */
  predicate AllWritten(fmt: Format, s: World)
    requires s.proc.Up?
  {
    s.proc.fd && s.proc.phase == Writing(BufLen(fmt, s.proc.w))
  }

  lemma WrittenCommitted(fmt: Format, first: u64, file: seq<byte>, durable: nat, w: Wal, booted: bool, log: seq<Rec>, v: Wal)
    requires Good(fmt) && UpOk(fmt, first, file, durable, w, true, Writing(BufLen(fmt, w)), booted) && v == Landed(fmt, w)
    requires log == Committed(fmt.codec, fmt.view, file)
    ensures w.segBytes <= |file| && log == LogIn(fmt, file[..w.segBytes]) + w.batch
    ensures BaseSeq(v) == U64(first + |log|) && Continues(fmt, log, v, true)
  {
    WholeFollows(fmt, first, file, durable, w, booted);
    LogFileReads(fmt, first, LogIn(fmt, file), file);
  }

  lemma UnwrittenCommitted(fmt: Format, first: u64, file: seq<byte>, durable: nat, w: Wal, fd: bool, phase: Phase,
                           booted: bool, log: seq<Rec>)
    requires Good(fmt) && UpOk(fmt, first, file, durable, w, fd, phase, booted)
    requires !(fd && phase == Writing(BufLen(fmt, w))) && log == Committed(fmt.codec, fmt.view, file)
    ensures var base := Base(w, fd, file);
            base <= |file| && log == LogIn(fmt, file[..base]) + []
    ensures BaseSeq(w) == U64(first + |log|) && Continues(fmt, log, w, booted)
  {
    if phase.Writing? && fd {
      UpToFollows(fmt, first, file, durable, w, phase.done, booted);
      TornBatch(fmt, first, LogIn(fmt, file[..w.segBytes]), file[..w.segBytes], w.batch, phase.done);
    } else {
      assert file[..|file|] == file;
      LogFileReads(fmt, first, LogIn(fmt, file), file);
    }
  }

  /** What the newest segment has committed while a process is up: whole batches, the one being written among
      them only once it is all there. */
  lemma CommittedWhileUp(fmt: Format, first: u64, file: seq<byte>, durable: nat, w: Wal, fd: bool, phase: Phase,
                         booted: bool, whole: bool, log: seq<Rec>, v: Wal)
    requires Good(fmt) && UpOk(fmt, first, file, durable, w, fd, phase, booted)
    requires whole == (fd && phase == Writing(BufLen(fmt, w))) && v == if whole then Landed(fmt, w) else w
    requires log == Committed(fmt.codec, fmt.view, file)
    ensures Base(w, fd, file) <= |file|
    ensures log == LogIn(fmt, file[..Base(w, fd, file)]) + if whole then w.batch else []
    ensures BaseSeq(v) == U64(first + |log|) && Continues(fmt, log, v, booted || whole)
  {
    if whole {
      WrittenCommitted(fmt, first, file, durable, w, booted, log, v);
    } else {
      UnwrittenCommitted(fmt, first, file, durable, w, fd, phase, booted, log);
    }
  }

  /** A process that leaves at any point, with its batch unwritten, torn or whole on the disk, between batches
      or without a segment, and the next one: it numbers records on from what the newest segment has
      committed, and continues the transactions and counts the boot exactly when that is anything; in a
      segment that holds no whole batch both numbers start again at 1. (The other case of the condition is
      that they were to be 1 anyway.) */
  lemma ReopenContinues(fmt: Format, s: World, w: Wal, whole: bool, src: u8, flags: u8, v: Wal, log: seq<Rec>)
    requires Good(fmt) && Inv(fmt, s) && s.proc.Up? && w == s.proc.w && whole == AllWritten(fmt, s) && SrcOk(src)
    requires v == Opened(ScanOf(fmt.codec, fmt.view, s.file), s.first, |s.file|, src, flags)
    requires log == Committed(fmt.codec, fmt.view, s.file)
    ensures CanRun(fmt, s, Reopen(src, flags)) && v.segBytes <= |s.file|
    ensures var t := After(fmt, s, Reopen(src, flags));
            t.proc == (if v.segBytes == |s.file| then Up(v, true, Idle, false) else Truncating(v))
            && Committed(fmt.codec, fmt.view, t.file) == log
    ensures var base := Base(w, s.proc.fd, s.file);
            base <= |s.file| && log == LogIn(fmt, s.file[..base]) + if whole then w.batch else []
    ensures v.nextSeq == if whole then w.nextSeq else BaseSeq(w)
    ensures var txn := if whole then U64(w.nextTxn + 1) else w.nextTxn;
            var boot := if s.proc.booted || whole then U32(w.bootId + 1) else w.bootId;
            v.nextTxn == txn && v.bootId == boot <==> log != [] || (txn == 1 && boot == 1)
    ensures log == [] ==> v.nextTxn == 1 && v.bootId == 1
  {
    InvToUp(fmt, s);
    ReopenEnds(fmt, s, src, flags, v);
    ReopenFacts(fmt, s.first, s.file, s.durable, w, s.proc.fd, s.proc.phase, s.proc.booted, whole, log, src, flags, v);
  }

  lemma ReopenFacts(fmt: Format, first: u64, file: seq<byte>, durable: nat, w: Wal, fd: bool, phase: Phase, booted: bool,
                    whole: bool, log: seq<Rec>, src: u8, flags: u8, v: Wal)
    requires Good(fmt) && UpOk(fmt, first, file, durable, w, fd, phase, booted) && SeqsFrom(first, log)
    requires whole == (fd && phase == Writing(BufLen(fmt, w))) && log == Committed(fmt.codec, fmt.view, file)
    requires v == Opened(ScanOf(fmt.codec, fmt.view, file), first, |file|, src, flags)
    ensures Base(w, fd, file) <= |file|
    ensures log == LogIn(fmt, file[..Base(w, fd, file)]) + if whole then w.batch else []
    ensures v.nextSeq == if whole then w.nextSeq else BaseSeq(w)
    ensures var txn := if whole then U64(w.nextTxn + 1) else w.nextTxn;
            var boot := if booted || whole then U32(w.bootId + 1) else w.bootId;
            v.nextTxn == txn && v.bootId == boot <==> log != [] || (txn == 1 && boot == 1)
    ensures log == [] ==> v.nextTxn == 1 && v.bootId == 1
  {
    var u := if whole then Landed(fmt, w) else w;
    CommittedWhileUp(fmt, first, file, durable, w, fd, phase, booted, whole, log, u);
    ReopenNumbers(fmt, first, file, w, booted, whole, u, log, src, flags, v);
  }

  lemma ReopenNumbers(fmt: Format, first: u64, file: seq<byte>, w: Wal, booted: bool, whole: bool, u: Wal, log: seq<Rec>,
                      src: u8, flags: u8, v: Wal)
    requires Good(fmt) && SeqsFrom(first, log) && log == Committed(fmt.codec, fmt.view, file)
    requires u == (if whole then Landed(fmt, w) else w)
    requires BaseSeq(u) == U64(first + |log|) && Continues(fmt, log, u, booted || whole)
    requires v == Opened(ScanOf(fmt.codec, fmt.view, file), first, |file|, src, flags)
    ensures v.nextSeq == if whole then w.nextSeq else BaseSeq(w)
    ensures var txn := if whole then U64(w.nextTxn + 1) else w.nextTxn;
            var boot := if booted || whole then U32(w.bootId + 1) else w.bootId;
            v.nextTxn == txn && v.bootId == boot <==> log != [] || (txn == 1 && boot == 1)
    ensures log == [] ==> v.nextTxn == 1 && v.bootId == 1
  {
    OpenedNumbers(fmt, first, file, log, u, booted || whole, src, flags, v);
  }

  lemma OpenedNumbers(fmt: Format, first: u64, file: seq<byte>, log: seq<Rec>, u: Wal, booted: bool, src: u8, flags: u8,
                      v: Wal)
    requires Good(fmt) && SeqsFrom(first, log) && log == Committed(fmt.codec, fmt.view, file)
    requires BaseSeq(u) == U64(first + |log|) && Continues(fmt, log, u, booted)
    requires v == Opened(ScanOf(fmt.codec, fmt.view, file), first, |file|, src, flags)
    ensures v.nextSeq == BaseSeq(u)
    ensures var boot := if booted then U32(u.bootId + 1) else u.bootId;
            v.nextTxn == u.nextTxn && v.bootId == boot <==> log != [] || (u.nextTxn == 1 && boot == 1)
    ensures log == [] ==> v.nextTxn == 1 && v.bootId == 1
  {
    OpenedContinues(fmt, first, file, log, v);
    if log == [] { ScanOfNothing(fmt, file); }
  }

  lemma ReopenEnds(fmt: Format, s: World, src: u8, flags: u8, v: Wal)
    requires Good(fmt) && Inv(fmt, s) && s.proc.Up? && SrcOk(src)
    requires v == Opened(ScanOf(fmt.codec, fmt.view, s.file), s.first, |s.file|, src, flags)
    ensures CanRun(fmt, s, Reopen(src, flags)) && v.segBytes <= |s.file|
    ensures var t := After(fmt, s, Reopen(src, flags));
            t.proc == (if v.segBytes == |s.file| then Up(v, true, Idle, false) else Truncating(v))
            && Committed(fmt.codec, fmt.view, t.file) == Committed(fmt.codec, fmt.view, s.file)
  {
    var down := s.(proc := Down);
    InvToUp(fmt, s);
    ScanFits(fmt, s.file);
    ReopenRuns(fmt, s, src, flags);
    DoOpenIs(fmt, down, src, flags, true, true, v, CutTo(down, v.segBytes));
    CutKeepsCommitted(fmt.codec, fmt.view, s.file, v.segBytes);
  }

  lemma ScanOfNothing(fmt: Format, file: seq<byte>)
    requires Committed(fmt.codec, fmt.view, file) == []
    ensures ScanOf(fmt.codec, fmt.view, file).lastTxn == 0 && ScanOf(fmt.codec, fmt.view, file).lastBootId == 0
  {}

  /** Rotation, then leaving and opening again before the next commit: the numbers of transactions and
      boots start at 1, whatever they were. */
  lemma RotationRestartsNumbers(fmt: Format, s: World, src: u8, flags: u8)
    requires Good(fmt) && Inv(fmt, s) && s.proc.Up? && s.proc.phase.Rotating? && SrcOk(src)
    ensures var t := DoRotate(s, true, true);
            && CanRun(fmt, t, Reopen(src, flags)) && After(fmt, t, Reopen(src, flags)).proc.Up?
            && (var v := After(fmt, t, Reopen(src, flags)).proc.w;
                v.nextTxn == 1 && v.bootId == 1 && v.nextSeq == s.proc.w.nextSeq)
  {
    RotatingHasFd(fmt, s);
    RotateStepKeeps(fmt, s, true, true);
    InvToUp(fmt, s);
    var t := DoRotate(s, true, true);
    NothingDecodesEmpty(fmt.codec);
    ReopenContinues(fmt, t, t.proc.w, false, src, flags, Opened(ScanOf(fmt.codec, fmt.view, t.file), t.first, |t.file|, src, flags), []);
  }

  lemma NextSeqOfLog(fmt: Format, first: u64, log: seq<Rec>)
    requires Good(fmt) && SeqsFrom(first, log)
    ensures if log == [] then U64(first + |log|) == first
            else U64(first + |log|) == U64(fmt.view(log[|log| - 1]).seqNo + 1)
  {
    if log != [] {
      assert MarksOf(fmt, log[|log| - 1]);
      U64Next(first, |log| - 1);
    }
  }

  // ------------------------------------------------------------------ no gap and no repeat

  /** Every record committed anywhere in the directory, in order. */
  function AllLog(fmt: Format, s: World): seq<Rec> {
    OlderLogs(fmt, s.older) + Committed(fmt.codec, fmt.view, s.file)
  }

  lemma {:induction false} OlderSeqs(fmt: Format, older: seq<Segment>, first: u64, start: u64)
    requires OlderOk(fmt, older, first) && start == (if older == [] then first else older[0].first)
    ensures SeqsFrom(start, OlderLogs(fmt, older)) && first == U64(start + |OlderLogs(fmt, older)|)
    decreases |older|
  {
    if older != [] {
      var seg, init := older[|older| - 1], older[..|older| - 1];
      var a, b := OlderLogs(fmt, init), LogIn(fmt, seg.file);
      OlderSeqs(fmt, init, seg.first, start);
      SeqsAppend(start, a, seg.first, b);
      SeqEnd(start, |a|, seg.first, |b|);
    }
  }

  /** Committed sequence numbers run on from the first one across every segment. */
  lemma AllLogIsConsecutive(fmt: Format, s: World)
    requires Inv(fmt, s)
    ensures SeqsFrom(Start(s), AllLog(fmt, s))
  {
    OlderSeqs(fmt, s.older, s.first, Start(s));
    SeqsAppend(Start(s), OlderLogs(fmt, s.older), s.first, Committed(fmt.codec, fmt.view, s.file));
  }

  lemma StepKeepsStart(fmt: Format, s: World, step: Step)
    requires (s.loose > |s.older| ==> Start(s) == 0) && (s.made || s == EMPTY) && Enabled(fmt, s, step)
    ensures Start(Apply(fmt, s, step)) == Start(s)
  {}

  lemma {:induction false} RunKeepsStart(fmt: Format, s: World, steps: seq<Step>)
    requires Good(fmt) && Inv(fmt, s) && CanRun(fmt, s, steps)
    ensures Start(After(fmt, s, steps)) == Start(s)
    decreases |steps|
  {
    if steps != [] {
      StepKeepsStart(fmt, s, steps[0]);
      StepKeepsInv(fmt, s, steps[0]);
      RunKeepsStart(fmt, Apply(fmt, s, steps[0]), steps[1..]);
    }
  }

  /** From an empty directory, whatever happens: the committed records are numbered 0, 1, 2, ... */
  lemma CommittedSeqsHaveNoGap(fmt: Format, steps: seq<Step>)
    requires Good(fmt) && CanRun(fmt, EMPTY, steps)
    ensures SeqsFrom(0, AllLog(fmt, After(fmt, EMPTY, steps)))
  {
    EmptyInv(fmt);
    RunKeepsInv(fmt, EMPTY, steps);
    RunKeepsStart(fmt, EMPTY, steps);
    AllLogIsConsecutive(fmt, After(fmt, EMPTY, steps));
  }

  // ------------------------------------------------------------------ no durable record is lost

  /** The segments whose directory entries are durable, and of the newest one its durable bytes. */
  function DurableLog(fmt: Format, s: World): seq<Rec> {
    if s.loose > 0 then (if s.loose > |s.older| then [] else OlderLogs(fmt, s.older[..|s.older| + 1 - s.loose]))
    else OlderLogs(fmt, s.older) + DurableHere(fmt, s)
  }

  function DurableHere(fmt: Format, s: World): seq<Rec> {
    Committed(fmt.codec, fmt.view, if s.durable <= |s.file| then s.file[..s.durable] else s.file)
  }

  lemma {:induction false} OlderLogsGrow(fmt: Format, older: seq<Segment>, k: nat)
    requires k <= |older|
    ensures OlderLogs(fmt, older[..k]) <= OlderLogs(fmt, older)
    decreases |older|
  {
    if k < |older| {
      OlderLogsGrow(fmt, older[..|older| - 1], k);
      assert older[..|older| - 1][..k] == older[..k];
    } else {
      assert older[..k] == older;
    }
  }

  lemma OlderLogsSnoc(fmt: Format, older: seq<Segment>, seg: Segment, more: seq<Segment>)
    requires more == older + [seg]
    ensures OlderLogs(fmt, more) == OlderLogs(fmt, older) + LogIn(fmt, seg.file)
  {
    assert more[..|more| - 1] == older;
  }

  /** Nothing is durable that is not in an older segment or the newest one's durable bytes. */
  lemma DurableLogAtMost(fmt: Format, s: World)
    ensures DurableLog(fmt, s) <= OlderLogs(fmt, s.older) + DurableHere(fmt, s)
  {
    if 0 < s.loose <= |s.older| { OlderLogsGrow(fmt, s.older, |s.older| + 1 - s.loose); }
  }

  lemma {:induction false} OlderLogsNest(fmt: Format, older: seq<Segment>, i: nat, j: nat)
    requires i <= j <= |older|
    ensures OlderLogs(fmt, older[..i]) <= OlderLogs(fmt, older[..j])
  {
    OlderLogsGrow(fmt, older[..j], i);
    assert older[..j][..i] == older[..i];
  }

  /** While the older segments stay, and no entry is made, what was durable stays if it does in the newest
      file. */
  lemma DirectoryKept(fmt: Format, s: World, t: World)
    requires Good(fmt) && s.older == t.older && (t.loose == s.loose || t.loose == 0 || s == EMPTY)
    requires DurableHere(fmt, s) <= DurableHere(fmt, t)
    ensures DurableLog(fmt, s) <= DurableLog(fmt, t)
  {
    if s == EMPTY { NothingDecodesEmpty(fmt.codec); }
    if t.loose != s.loose { DurableLogAtMost(fmt, s); }
  }

  lemma InvDurable(fmt: Format, s: World)
    requires Inv(fmt, s)
    ensures s.durable <= |s.file| && DurableHere(fmt, s) == Committed(fmt.codec, fmt.view, s.file[..s.durable])
    ensures FileOk(fmt, s.first, s.file, s.durable, s.past) && s.loose <= |s.older| + 1
  {}

  lemma HereGrows(fmt: Format, s: World, t: World)
    requires Good(fmt) && s.durable <= |s.file| && t.durable <= |t.file| && s.file[..s.durable] <= t.file[..t.durable]
    ensures DurableHere(fmt, s) <= DurableHere(fmt, t)
  {
    var now := t.file[..t.durable];
    CutCommittedIsPrefix(fmt.codec, fmt.view, now, s.durable);
    assert now[..s.durable] == s.file[..s.durable];
  }

  lemma OpenKeepsHere(fmt: Format, s: World, src: u8, flags: u8, created: bool, entrySynced: bool)
    requires Good(fmt) && Inv(fmt, s) && s.proc.Down?
    ensures DurableHere(fmt, s) <= DurableHere(fmt, DoOpen(fmt, s, src, flags, created, entrySynced))
  {
    InvDurable(fmt, s);
    if s.made {
      var k := ScanOf(fmt.codec, fmt.view, s.file).committedLen;
      var w := Opened(ScanOf(fmt.codec, fmt.view, s.file), s.first, |s.file|, src, flags);
      ScanFits(fmt, s.file);
      DoOpenIs(fmt, s, src, flags, created, entrySynced, w, CutTo(s, k));
      CutToKeepsHere(fmt, s, k, CutTo(s, k));
    }
  }

  /** A cut at or after the committed end takes nothing durable. */
  lemma CutToKeepsHere(fmt: Format, s: World, k: nat, t: World)
    requires Good(fmt) && ScanOf(fmt.codec, fmt.view, s.file).committedLen <= k <= |s.file| && s.durable <= |s.file|
    requires t == CutTo(s, k)
    ensures DurableHere(fmt, s) <= DurableHere(fmt, t)
  {
    if s.durable <= k {
      assert t.file[..t.durable] == s.file[..s.durable];
    } else {
      CutKeepsCommitted(fmt.codec, fmt.view, s.file, k);
      CutCommittedIsPrefix(fmt.codec, fmt.view, s.file, s.durable);
      assert t.file[..t.durable] == s.file[..k];
    }
  }

  lemma FailedKeepsHere(fmt: Format, s: World)
    requires Good(fmt) && Inv(fmt, s) && s.proc.Up? && s.proc.phase.Writing?
    ensures DurableHere(fmt, s) <= DurableHere(fmt, DoFailed(s))
  {
    var w, fd, base := s.proc.w, s.proc.fd, Base(s.proc.w, s.proc.fd, s.file);
    var t := DoFailed(s);
    InvToUp(fmt, s);
    DoFailedIs(fmt, s, w, fd, base);
    assert t.file[..t.durable] == s.file[..s.durable];
    HereGrows(fmt, s, t);
  }

  lemma WriteKeepsHere(fmt: Format, s: World, n: nat)
    requires Good(fmt) && Inv(fmt, s) && CanWrite(fmt, s, n)
    ensures DurableHere(fmt, s) <= DurableHere(fmt, DoWrite(fmt, s, n))
  {
    var t := DoWrite(fmt, s, n);
    InvDurable(fmt, s);
    assert t.file[..t.durable] == s.file[..s.durable];
    HereGrows(fmt, s, t);
  }

  lemma SyncKeepsHere(fmt: Format, s: World, t: World)
    requires Good(fmt) && Inv(fmt, s) && t.file == s.file && t.durable == |s.file|
    ensures DurableHere(fmt, s) <= DurableHere(fmt, t)
  {
    InvDurable(fmt, s);
    assert t.file[..t.durable] == s.file;
    HereGrows(fmt, s, t);
  }

  lemma CutKeepsHere(fmt: Format, s: World, left: seq<byte>)
    requires Good(fmt) && Inv(fmt, s) && Leaves(s, left)
    ensures DurableHere(fmt, s) <= DurableHere(fmt, DoCut(s, left))
  {
    InvDurable(fmt, s);
    var v := LeftOf(fmt, s, left);
    assert left[..|left|] == left;
    HereGrows(fmt, s, DoCut(s, left));
  }

  /** Steps that neither make nor lose a segment. */
  predicate InPlace(step: Step) { !(step.Rotate? && step.created) && !(step.PowerCut? && step.lost > 0) }

  lemma InPlaceKeepsEntries(fmt: Format, s: World, step: Step, t: World)
    requires Enabled(fmt, s, step) && InPlace(step) && t == Apply(fmt, s, step) && (s.made || s == EMPTY)
    ensures t.older == s.older && (t.loose == s.loose || t.loose == 0 || s == EMPTY)
  {}

  lemma StepKeepsHere(fmt: Format, s: World, step: Step, t: World)
    requires Good(fmt) && Inv(fmt, s) && Enabled(fmt, s, step) && InPlace(step) && t == Apply(fmt, s, step)
    ensures DurableHere(fmt, s) <= DurableHere(fmt, t)
  {
    if step.Open? {
      OpenKeepsHere(fmt, s, step.src, step.flags, step.created, step.entrySynced);
    } else if step.Truncated? || step.Synced? {
      SyncKeepsHere(fmt, s, t);
    } else if step.Write? {
      WriteKeepsHere(fmt, s, step.n);
    } else if step.Failed? {
      FailedKeepsHere(fmt, s);
    } else if step.PowerCut? {
      CutKeepsHere(fmt, s, step.left);
    } else {
      OthersKeepHere(fmt, s, step, t);
    }
  }

  lemma OthersKeepHere(fmt: Format, s: World, step: Step, t: World)
    requires Enabled(fmt, s, step) && InPlace(step) && t == Apply(fmt, s, step)
    requires step.AddRec? || step.StartCommit? || step.Rotate? || step.Exit?
    ensures DurableHere(fmt, t) == DurableHere(fmt, s)
  {}

  lemma RotatedLogs(fmt: Format, s: World, t: World)
    requires Good(fmt) && Inv(fmt, s) && s.proc.Up? && s.proc.phase.Rotating? && t.older == s.older + [Segment(s.first, s.file)]
    ensures OlderLogs(fmt, t.older) == OlderLogs(fmt, s.older) + DurableHere(fmt, s)
  {
    InvToUp(fmt, s);
    RotatingHasFd(fmt, s);
    assert s.file[..|s.file|] == s.file && s.durable == |s.file|;
    LogFileReads(fmt, s.first, LogIn(fmt, s.file), s.file);
    OlderLogsSnoc(fmt, s.older, Segment(s.first, s.file), t.older);
  }

  lemma NothingHere(fmt: Format, t: World)
    requires Good(fmt) && (t.file == [] || t.durable == 0)
    ensures DurableHere(fmt, t) == []
  {
    NothingDecodesEmpty(fmt.codec);
    assert t.file[..0] == [];
  }

  /** A new segment in a synced directory leaves everything before it durable. */
  lemma TightKeepsDurable(fmt: Format, s: World, t: World)
    requires Good(fmt) && t.loose == 0 && t.file == [] && OlderLogs(fmt, t.older) == OlderLogs(fmt, s.older) + DurableHere(fmt, s)
    ensures DurableLog(fmt, s) <= DurableLog(fmt, t)
  {
    DurableLogAtMost(fmt, s);
    NothingHere(fmt, t);
  }

  /** A new segment whose entry is not durable leaves what was durable so. */
  lemma LooseKeepsDurable(fmt: Format, s: World, seg: Segment, t: World)
    requires t.older == s.older + [seg] && t.loose == s.loose + 1
    requires OlderLogs(fmt, t.older) == OlderLogs(fmt, s.older) + DurableHere(fmt, s)
    ensures DurableLog(fmt, s) == DurableLog(fmt, t)
  {
    if s.loose == 0 {
      assert t.older[..|t.older|] == t.older;
    } else if s.loose <= |s.older| {
      assert t.older[..|t.older| + 1 - t.loose] == s.older[..|s.older| + 1 - s.loose];
    }
  }

  lemma TakeNext(older: seq<Segment>, k: nat)
    requires k < |older|
    ensures older[..k + 1] == older[..k] + [older[k]]
  {}

  /** After losing entries the directory's log is that of the segments that are left, all of it durable. */
  lemma LostTo(fmt: Format, s: World, lost: nat, k: nat)
    requires Good(fmt) && Inv(fmt, s) && 0 < lost <= |s.older| && k == |s.older| - lost
    ensures DurableLog(fmt, DoLose(s, lost)) == AllLog(fmt, DoLose(s, lost)) == OlderLogs(fmt, s.older[..k + 1])
  {
    var seg, t := s.older[k], DoLose(s, lost);
    OlderFileAt(fmt, s.older, s.first, k, seg);
    LogFileReads(fmt, seg.first, LogIn(fmt, seg.file), seg.file);
    assert t.file[..|t.file|] == t.file;
    TakeNext(s.older, k);
    OlderLogsSnoc(fmt, s.older[..k], seg, s.older[..k + 1]);
  }

  /** The segments with durable entries are among any that outlast a power cut. */
  lemma KeptSegments(fmt: Format, s: World, k: nat)
    requires s.loose > 0 && k <= |s.older| < k + s.loose
    ensures DurableLog(fmt, s) <= OlderLogs(fmt, s.older[..k])
  {
    if s.loose <= |s.older| { OlderLogsNest(fmt, s.older, |s.older| + 1 - s.loose, k); }
  }

  lemma LoseKeepsDurable(fmt: Format, s: World, lost: nat)
    requires Good(fmt) && Inv(fmt, s) && 0 < lost <= s.loose
    ensures DurableLog(fmt, s) <= DurableLog(fmt, DoLose(s, lost))
  {
    if lost <= |s.older| {
      LostTo(fmt, s, lost, |s.older| - lost);
      KeptSegments(fmt, s, |s.older| - lost + 1);
    } else {
      InvDurable(fmt, s);
    }
  }

  /** No step loses or changes a durable record; it can only add after them. */
  lemma StepKeepsDurable(fmt: Format, s: World, step: Step)
    requires Good(fmt) && Inv(fmt, s) && Enabled(fmt, s, step)
    ensures DurableLog(fmt, s) <= DurableLog(fmt, Apply(fmt, s, step))
  {
    var t := Apply(fmt, s, step);
    if InPlace(step) {
      StepKeepsHere(fmt, s, step, t);
      InPlaceKeepsEntries(fmt, s, step, t);
      DirectoryKept(fmt, s, t);
    } else if step.Rotate? {
      RotatedLogs(fmt, s, t);
      if step.entrySynced { TightKeepsDurable(fmt, s, t); } else { LooseKeepsDurable(fmt, s, Segment(s.first, s.file), t); }
    } else {
      LoseKeepsDurable(fmt, s, step.lost);
    }
  }

  /** Over any run, with any number of crashes, power cuts and reopenings, what was durable stays. */
  lemma {:induction false} DurableIsForever(fmt: Format, s: World, steps: seq<Step>)
    requires Good(fmt) && Inv(fmt, s) && CanRun(fmt, s, steps)
    ensures DurableLog(fmt, s) <= DurableLog(fmt, After(fmt, s, steps))
    decreases |steps|
  {
    if steps != [] {
      StepKeepsDurable(fmt, s, steps[0]);
      StepKeepsInv(fmt, s, steps[0]);
      DurableIsForever(fmt, Apply(fmt, s, steps[0]), steps[1..]);
    }
  }

  /** The worst power cut. */
  function WorstCut(s: World): Step { PowerCut(if s.durable <= |s.file| then s.file[..s.durable] else s.file, s.loose) }

  /** Durable is what every power cut leaves: each leaves at least that, and one leaves no more. */
  lemma DurableIsWhatCutsLeave(fmt: Format, s: World, cut: Step)
    requires Good(fmt) && Inv(fmt, s) && cut.PowerCut? && Enabled(fmt, s, cut)
    ensures DurableLog(fmt, s) <= AllLog(fmt, Apply(fmt, s, cut))
    ensures Enabled(fmt, s, WorstCut(s)) && AllLog(fmt, Apply(fmt, s, WorstCut(s))) == DurableLog(fmt, s)
  {
    StepKeepsDurable(fmt, s, cut);
    CutLog(fmt, s, cut);
    InvDurable(fmt, s);
    WorstCutLog(fmt, s);
  }

  lemma SparedCutLog(fmt: Format, s: World)
    requires s.loose == 0 && s.durable <= |s.file|
    ensures Enabled(fmt, s, WorstCut(s)) && AllLog(fmt, Apply(fmt, s, WorstCut(s))) == DurableLog(fmt, s)
  {}

  lemma LosingCutLog(fmt: Format, s: World)
    requires Good(fmt) && Inv(fmt, s) && 0 < s.loose <= |s.older|
    ensures Enabled(fmt, s, WorstCut(s)) && AllLog(fmt, Apply(fmt, s, WorstCut(s))) == DurableLog(fmt, s)
  {
    LostTo(fmt, s, s.loose, |s.older| - s.loose);
  }

  lemma WorstCutLog(fmt: Format, s: World)
    requires Good(fmt) && Inv(fmt, s)
    ensures Enabled(fmt, s, WorstCut(s)) && AllLog(fmt, Apply(fmt, s, WorstCut(s))) == DurableLog(fmt, s)
  {
    InvDurable(fmt, s);
    if s.loose == 0 {
      SparedCutLog(fmt, s);
    } else if s.loose <= |s.older| {
      LosingCutLog(fmt, s);
    } else {
      NothingDecodesEmpty(fmt.codec);
    }
  }

  lemma CutLog(fmt: Format, s: World, cut: Step)
    requires Good(fmt) && Inv(fmt, s) && cut.PowerCut? && Enabled(fmt, s, cut)
    ensures DurableLog(fmt, Apply(fmt, s, cut)) == AllLog(fmt, Apply(fmt, s, cut))
  {
    var t := Apply(fmt, s, cut);
    assert t.file[..|t.file|] == t.file;
    NothingDecodesEmpty(fmt.codec);
  }

  // ------------------------------------------------------------------ which batches are durable

  lemma SyncedCommitted(fmt: Format, s: World, w: Wal)
    requires Good(fmt) && Inv(fmt, s) && CanSync(fmt, s) && w == s.proc.w
    ensures w.segBytes <= |s.file| && w.batch != []
    ensures Committed(fmt.codec, fmt.view, s.file) == LogIn(fmt, s.file[..w.segBytes]) + w.batch
  {
    InvToUp(fmt, s);
    WholeFollows(fmt, s.first, s.file, s.durable, w, s.proc.booted);
    UpToFollows(fmt, s.first, s.file, s.durable, w, BufLen(fmt, w), s.proc.booted);
  }

  /** A batch whose fsync succeeded is durable, right after everything committed before it, exactly when
      its segment's directory entry is; otherwise nothing of its segment is. */
  lemma SyncedBatchIsDurable(fmt: Format, s: World, w: Wal, log: seq<Rec>)
    requires Good(fmt) && Inv(fmt, s) && CanSync(fmt, s) && w == s.proc.w
    requires w.segBytes <= |s.file| && log == LogIn(fmt, s.file[..w.segBytes])
    ensures AllLog(fmt, DoSynced(fmt, s)) == OlderLogs(fmt, s.older) + (log + w.batch)
    ensures DurableLog(fmt, DoSynced(fmt, s)) == AllLog(fmt, DoSynced(fmt, s)) <==> s.loose == 0
    ensures s.loose > 0 ==> DurableLog(fmt, DoSynced(fmt, s)) <= OlderLogs(fmt, s.older)
  {
    SyncedCommitted(fmt, s, w);
    WholeIsDurable(fmt, DoSynced(fmt, s), log + w.batch);
  }

  /** When all of the newest file has been synced, all of the log is durable exactly if its entry is. */
  lemma WholeIsDurable(fmt: Format, t: World, here: seq<Rec>)
    requires t.durable == |t.file| && here == Committed(fmt.codec, fmt.view, t.file) && here != []
    ensures AllLog(fmt, t) == OlderLogs(fmt, t.older) + here
    ensures DurableLog(fmt, t) == AllLog(fmt, t) <==> t.loose == 0
    ensures t.loose > 0 ==> DurableLog(fmt, t) <= OlderLogs(fmt, t.older)
  {
    assert t.file[..|t.file|] == t.file;
    if 0 < t.loose <= |t.older| { OlderLogsGrow(fmt, t.older, |t.older| + 1 - t.loose); }
  }

  /** Whether the newest segment's directory entry is durable after a step, if it was before it: the
      directory is synced when a segment is made, and a power cut settles it. */
  function EntryNow(s: World, step: Step, was: bool): bool {
    match step
    case Open(_, _, created, entrySynced) => if s.made || !created then was else entrySynced
    case Rotate(created, entrySynced) => if created then entrySynced else was
    case PowerCut(_, _) => true
    case _ => was
  }

  function EntryAfter(fmt: Format, s: World, steps: seq<Step>, was: bool): bool
    requires CanRun(fmt, s, steps)
    decreases |steps|
  {
    if steps == [] then was else EntryAfter(fmt, Apply(fmt, s, steps[0]), steps[1..], EntryNow(s, steps[0], was))
  }

  lemma StepEntry(fmt: Format, s: World, step: Step)
    requires (s.made || s == EMPTY) && Enabled(fmt, s, step)
    ensures Apply(fmt, s, step).loose == 0 <==> EntryNow(s, step, s.loose == 0)
  {}

  /** Over every run: a synced batch is durable exactly when the directory was synced as its segment was made
      in it, or a power cut has spared the segment since. */
  lemma {:induction false} EntryIsDurable(fmt: Format, s: World, steps: seq<Step>)
    requires Good(fmt) && Inv(fmt, s) && CanRun(fmt, s, steps)
    ensures After(fmt, s, steps).loose == 0 <==> EntryAfter(fmt, s, steps, s.loose == 0)
    decreases |steps|
  {
    if steps != [] {
      StepEntry(fmt, s, steps[0]);
      StepKeepsInv(fmt, s, steps[0]);
      EntryIsDurable(fmt, Apply(fmt, s, steps[0]), steps[1..]);
    }
  }

  // ------------------------------------------------------------------ what an unsynced entry costs

  lemma RunThen(fmt: Format, s: World, steps: seq<Step>, t: World, step: Step)
    requires CanRun(fmt, s, steps) && After(fmt, s, steps) == t && Enabled(fmt, t, step)
    ensures CanRun(fmt, s, steps + [step]) && After(fmt, s, steps + [step]) == Apply(fmt, t, step)
    decreases |steps|
  {
    if steps == [] {
      assert [] + [step] == [step] && [step][1..] == [];
    } else {
      assert (steps + [step])[0] == steps[0] && (steps + [step])[1..] == steps[1..] + [step];
      RunThen(fmt, Apply(fmt, s, steps[0]), steps[1..], t, step);
    }
  }

  /** A power cut that loses the newest segment's entry leaves the log of the older ones, whatever was
      synced into the newest. */
  lemma LooseSegmentIsLost(fmt: Format, s: World)
    requires Good(fmt) && Inv(fmt, s) && s.loose > 0
    ensures Enabled(fmt, s, PowerCut([], 1)) && AllLog(fmt, DoLose(s, 1)) == OlderLogs(fmt, s.older)
  {
    if s.older == [] {
      NothingDecodesEmpty(fmt.codec);
    } else {
      LostTo(fmt, s, 1, |s.older| - 1);
      assert s.older[..|s.older|] == s.older;
    }
  }

  /** A batch with one record, committed by a writer between batches. */
  function OneBatch(fmt: Format, w: Wal, body: seq<byte>, now: Clock): seq<Step> {
    var v := Add(fmt, w, BOOT, w.src, now, body, now).1;
    var n := match Seal(fmt, v, now) case Some(u) => BufLen(fmt, u) case None => 0;
    [AddRec(BOOT, w.src, now, body, now), StartCommit(now), Write(n), Synced]
  }

  lemma OneBatchRuns(fmt: Format, s: World, w: Wal, body: seq<byte>, now: Clock, steps: seq<Step>, from: World)
    requires Good(fmt) && Inv(fmt, s) && s.proc == Up(w, true, Idle, false) && !w.openBatch && |body| == 12
    requires CanRun(fmt, from, steps) && After(fmt, from, steps) == s
    ensures CanRun(fmt, from, steps + OneBatch(fmt, w, body, now))
    ensures var t := After(fmt, from, steps + OneBatch(fmt, w, body, now));
            Inv(fmt, t) && t.older == s.older && t.loose == s.loose && |AllLog(fmt, t)| > |OlderLogs(fmt, s.older)|
  {
    InvToUp(fmt, s);
    var v := Add(fmt, w, BOOT, w.src, now, body, now).1;
    OneBatchSeals(fmt, w, body, now, v);
    var u := Seal(fmt, v, now).value;
    var a := AddRec(BOOT, w.src, now, body, now);
    OneBatchStarts(fmt, s, w, v, u, body, now, steps, from, a);
    OneBatchLands(fmt, s.(proc := Up(u, true, Writing(0), false)), u, steps + [a] + [StartCommit(now)], from);
    OneByOne(steps, a, StartCommit(now), Write(BufLen(fmt, u)), Synced);
  }

  lemma OneByOne(steps: seq<Step>, a: Step, b: Step, c: Step, d: Step)
    ensures steps + [a] + [b] + [c] + [d] == steps + [a, b, c, d]
  {}

  lemma OneBatchSeals(fmt: Format, w: Wal, body: seq<byte>, now: Clock, v: Wal)
    requires Good(fmt) && BatchOk(fmt, w) && !w.openBatch && SrcOk(w.src) && |body| == 12
    requires v == Add(fmt, w, BOOT, w.src, now, body, now).1
    ensures v.openBatch && BatchOk(fmt, v) && v.src == w.src && Seal(fmt, v, now).Some?
  {
    assert w.batch == [] && BufLen(fmt, w) == 0;
    AddTakes(fmt, w, BOOT, w.src, now, body, now);
    SealNeverFails(fmt, v, now);
  }

  lemma OneBatchStarts(fmt: Format, s: World, w: Wal, v: Wal, u: Wal, body: seq<byte>, now: Clock, steps: seq<Step>,
                       from: World, a: Step)
    requires Good(fmt) && Inv(fmt, s) && s.proc == Up(w, true, Idle, false) && a == AddRec(BOOT, w.src, now, body, now)
    requires v == Add(fmt, w, BOOT, w.src, now, body, now).1 && v.openBatch && Seal(fmt, v, now) == Some(u)
    requires CanRun(fmt, from, steps) && After(fmt, from, steps) == s
    ensures CanRun(fmt, from, steps + [a] + [StartCommit(now)])
    ensures After(fmt, from, steps + [a] + [StartCommit(now)]) == s.(proc := Up(u, true, Writing(0), false))
    ensures Inv(fmt, s.(proc := Up(u, true, Writing(0), false)))
  {
    var s1 := s.(proc := Up(v, true, Idle, false));
    RunThen(fmt, from, steps, s, a);
    RunThen(fmt, from, steps + [a], s1, StartCommit(now));
    AddKeeps(fmt, s, BOOT, w.src, now, body, now, v);
    CommitKeeps(fmt, s1, now);
  }

  lemma OneBatchLands(fmt: Format, s: World, u: Wal, steps: seq<Step>, from: World)
    requires Good(fmt) && Inv(fmt, s) && s.proc == Up(u, true, Writing(0), false)
    requires CanRun(fmt, from, steps) && After(fmt, from, steps) == s
    ensures var all := steps + [Write(BufLen(fmt, u))] + [Synced];
            CanRun(fmt, from, all) &&
            var t := After(fmt, from, all);
            Inv(fmt, t) && t.older == s.older && t.loose == s.loose && |AllLog(fmt, t)| > |OlderLogs(fmt, s.older)|
  {
    var n := BufLen(fmt, u);
    var s3 := DoWrite(fmt, s, n);
    RunThen(fmt, from, steps, s, Write(n));
    StepKeepsInv(fmt, s, Write(n));
    RunThen(fmt, from, steps + [Write(n)], s3, Synced);
    StepKeepsInv(fmt, s3, Synced);
    SyncedCommitted(fmt, s3, u);
  }

  /** The failing run. Rotation makes a segment but cannot sync the directory; the process leaves, the next
      one opens that segment and commits a batch whose fsync succeeds; then the power fails. The batch is
      gone, with its segment. */
  lemma UnsyncedEntryLosesBatch(fmt: Format, s: World, src: u8, flags: u8, body: seq<byte>, now: Clock, w: Wal)
    requires Good(fmt) && Inv(fmt, s) && s.proc.Up? && s.proc.phase.Rotating? && SrcOk(src) && |body| == 12
    requires w == Opened(ScanOf(fmt.codec, fmt.view, []), s.proc.w.nextSeq, 0, src, flags)
    ensures var steps := [Rotate(true, false)] + Reopen(src, flags) + OneBatch(fmt, w, body, now);
            && CanRun(fmt, s, steps) && Enabled(fmt, After(fmt, s, steps), PowerCut([], 1))
            && var t := After(fmt, s, steps);
            |AllLog(fmt, Apply(fmt, t, PowerCut([], 1)))| < |AllLog(fmt, t)|
  {
    RotatingHasFd(fmt, s);
    var s1 := DoRotate(s, true, false);
    assert [] + [Rotate(true, false)] == [Rotate(true, false)];
    RunThen(fmt, s, [], s, Rotate(true, false));
    RotateStepKeeps(fmt, s, true, false);
    LooseReopens(fmt, s, s1, src, flags, w);
    var s3 := s1.(proc := Up(w, true, Idle, false));
    InvToUp(fmt, s3);
    OneBatchRuns(fmt, s3, w, body, now, [Rotate(true, false)] + Reopen(src, flags), s);
    LooseSegmentIsLost(fmt, After(fmt, s, [Rotate(true, false)] + Reopen(src, flags) + OneBatch(fmt, w, body, now)));
  }

  lemma LooseReopens(fmt: Format, s: World, s1: World, src: u8, flags: u8, w: Wal)
    requires Good(fmt) && Inv(fmt, s1) && s1.made && s1.file == [] && SrcOk(src)
    requires w == Opened(ScanOf(fmt.codec, fmt.view, []), s1.first, 0, src, flags)
    requires CanRun(fmt, s, [Rotate(true, false)]) && After(fmt, s, [Rotate(true, false)]) == s1
    ensures CanRun(fmt, s, [Rotate(true, false)] + Reopen(src, flags))
    ensures After(fmt, s, [Rotate(true, false)] + Reopen(src, flags)) == s1.(proc := Up(w, true, Idle, false))
    ensures Inv(fmt, s1.(proc := Up(w, true, Idle, false)))
  {
    NothingDecodesEmpty(fmt.codec);
    var open := Open(src, flags, true, true);
    var s2 := s1.(proc := Down);
    RunThen(fmt, s, [Rotate(true, false)], s1, Exit);
    RunThen(fmt, s, [Rotate(true, false)] + [Exit], s2, open);
    ExitKeeps(fmt, s1);
    OpenKeeps(fmt, s2, src, flags, true, true);
    assert [Rotate(true, false)] + [Exit] + [open] == [Rotate(true, false)] + Reopen(src, flags);
  }

  // ------------------------------------------------------------------ a file system that keeps entries

  /** A power cut that loses an entry loses only that of a file nothing has been synced into: a file
      system that makes a file's entry durable with its first fsync. */
  predicate EntriesFollowFiles(fmt: Format, s: World, steps: seq<Step>)
    requires CanRun(fmt, s, steps)
    decreases |steps|
  {
    if steps == [] then true else
    && (steps[0].PowerCut? && steps[0].lost > 0 ==> steps[0].lost == 1 && s.durable == 0)
    && EntriesFollowFiles(fmt, Apply(fmt, s, steps[0]), steps[1..])
  }

  /** Everything synced, whether or not its entry is. */
  function SyncedLog(fmt: Format, s: World): seq<Rec> { OlderLogs(fmt, s.older) + DurableHere(fmt, s) }

  lemma StepKeepsSynced(fmt: Format, s: World, step: Step)
    requires Good(fmt) && Inv(fmt, s) && Enabled(fmt, s, step)
    requires step.PowerCut? && step.lost > 0 ==> step.lost == 1 && s.durable == 0
    ensures SyncedLog(fmt, s) <= SyncedLog(fmt, Apply(fmt, s, step))
  {
    var t := Apply(fmt, s, step);
    if InPlace(step) {
      StepKeepsHere(fmt, s, step, t);
      InPlaceKeepsEntries(fmt, s, step, t);
    } else if step.Rotate? {
      RotatedLogs(fmt, s, t);
      NothingHere(fmt, t);
    } else {
      NothingHere(fmt, s);
      LooseSegmentIsLost(fmt, s);
      WholeIsSynced(fmt, t);
    }
  }

  lemma WholeIsSynced(fmt: Format, t: World)
    requires t.durable >= |t.file|
    ensures SyncedLog(fmt, t) == AllLog(fmt, t)
  {
    assert t.file[..|t.file|] == t.file;
  }

  /** On such a file system every synced batch is durable, whatever becomes of the directory's fsyncs. */
  lemma {:induction false} SyncedIsForever(fmt: Format, s: World, steps: seq<Step>)
    requires Good(fmt) && Inv(fmt, s) && CanRun(fmt, s, steps) && EntriesFollowFiles(fmt, s, steps)
    ensures SyncedLog(fmt, s) <= SyncedLog(fmt, After(fmt, s, steps))
    decreases |steps|
  {
    if steps != [] {
      StepKeepsSynced(fmt, s, steps[0]);
      StepKeepsInv(fmt, s, steps[0]);
      SyncedIsForever(fmt, Apply(fmt, s, steps[0]), steps[1..]);
    }
  }
}
