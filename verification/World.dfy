/** The log on disk, as a machine: a writer process over segment files, with torn writes, failed
    writes, crashes, power cuts and reopenings at every point. */
module World {
  import opened Crc
  import opened Bytes
  import opened Framing
  import opened Log
  import opened Record
  import opened LogFormat
  import opened Wal

  datatype Segment = Segment(first: u64, file: seq<byte>)

  /** Where wal_commit is. */
  datatype Phase = Idle | Writing(done: nat) | Rotating

  datatype Proc =
    | Down
    | Truncating(writer: Wal)                         // recovery has cut the file and not yet synced it
    | Up(w: Wal, fd: bool, phase: Phase, booted: bool)

  /** older and (first, file) are the directory's segments, once one is made; the entries of its newest
      `loose` segments are not durable. Of the newest file the first durable bytes are, and past holds
      what it was before each cut that is not yet synced. */
  datatype World = World(made: bool, older: seq<Segment>, loose: nat, first: u64, file: seq<byte>, durable: nat,
                         past: set<seq<byte>>, proc: Proc)

  const EMPTY := World(false, [], 0, 0, [], 0, {}, Down)

  datatype Step =
    | Open(src: u8, flags: u8, created: bool, entrySynced: bool)   // wal_open up to recovery's truncation
    | Truncated                               // recovery's fsync
    | AddRec(kind: u16, src: u8, t: Clock, body: seq<byte>, now: Clock)
    | StartCommit(now: Clock)                 // wal_commit up to its first write
    | Write(n: nat)                           // one write call takes n bytes
    | Synced                                  // the batch's fsync succeeds
    | Failed                                  // a write or the fsync fails: undo
    | Rotate(created: bool, entrySynced: bool)
    | Exit                                    // exit, or kill -9
    | PowerCut(left: seq<byte>, lost: nat)    // left survives of the newest file, or the newest entries are lost

  /** What a power cut may leave of the newest file: a front piece, with at least its durable bytes, of
      the file or of what it was before a cut. */
  predicate Leaves(s: World, left: seq<byte>) {
    s.durable <= |left| && (left <= s.file || exists v :: v in s.past && left <= v)
  }

  predicate Enabled(fmt: Format, s: World, step: Step) {
    match step
    case Open(src, _, _, _) => s.proc.Down? && SrcOk(src)
    case Truncated => s.proc.Truncating?
    case AddRec(kind, _, _, _, _) => s.proc.Up? && s.proc.phase.Idle? && kind != BEGIN && kind != COMMIT
    case StartCommit(_) => s.proc.Up? && s.proc.phase.Idle? && s.proc.w.openBatch
    case Write(n) => CanWrite(fmt, s, n)
    case Synced => CanSync(fmt, s)
    case Failed => s.proc.Up? && s.proc.phase.Writing?
    case Rotate(_, _) => s.proc.Up? && s.proc.phase.Rotating?
    case Exit => true
    case PowerCut(left, lost) => if lost == 0 then Leaves(s, left) else lost <= s.loose
  }

  predicate CanWrite(fmt: Format, s: World, n: nat) {
    s.proc.Up? && s.proc.phase.Writing? && s.proc.fd && s.proc.phase.done + n <= BufLen(fmt, s.proc.w)
  }

  predicate CanSync(fmt: Format, s: World) {
    s.proc.Up? && s.proc.fd && s.proc.phase.Writing? && s.proc.phase.done == BufLen(fmt, s.proc.w)
  }

  function Apply(fmt: Format, s: World, step: Step): World
    requires Enabled(fmt, s, step)
  {
    match step
    case Open(src, flags, created, entrySynced) => DoOpen(fmt, s, src, flags, created, entrySynced)
    case Truncated => DoTruncated(s)
    case AddRec(kind, src, t, body, now) => s.(proc := s.proc.(w := Add(fmt, s.proc.w, kind, src, t, body, now).1))
    case StartCommit(now) => DoCommit(fmt, s, now)
    case Write(n) => DoWrite(fmt, s, n)
    case Synced => DoSynced(fmt, s)
    case Failed => DoFailed(s)
    case Rotate(created, entrySynced) => DoRotate(s, created, entrySynced)
    case Exit => s.(proc := Down)
    case PowerCut(left, lost) => if lost == 0 then DoCut(s, left) else DoLose(s, lost)
  }

  /** Scans the newest segment and cuts it back to its last COMMIT, or makes the first one. */
  function DoOpen(fmt: Format, s: World, src: u8, flags: u8, created: bool, entrySynced: bool): World {
    if !s.made then DoCreate(s, src, flags, created, entrySynced) else
    var scan := ScanOf(fmt.codec, fmt.view, s.file);
    var w := Opened(scan, s.first, |s.file|, src, flags);
    if scan.committedLen < |s.file| then CutTo(s, scan.committedLen).(proc := Truncating(w))
    else s.(proc := Up(w, true, Idle, false))
  }

  /** create_segment in an empty directory: wal_open fails if it does, and a file whose directory was not
      synced stays. */
  function DoCreate(s: World, src: u8, flags: u8, created: bool, entrySynced: bool): World {
    if !created then s
    else if !entrySynced then s.(made := true, loose := 1)
    else s.(made := true, proc := Up(OpenedFirst(src, flags), true, Idle, false))
  }

  /** ftruncate: in effect at once, durable only at the next fsync. */
  function CutTo(s: World, n: nat): World {
    if n < |s.file| then s.(file := s.file[..n], durable := if s.durable <= n then s.durable else n, past := s.past + {s.file})
    else s
  }

  function DoTruncated(s: World): World
    requires s.proc.Truncating?
  {
    s.(durable := |s.file|, past := {}, proc := Up(s.proc.writer, true, Idle, false))
  }

  function DoCommit(fmt: Format, s: World, now: Clock): World
    requires s.proc.Up?
  {
    match Seal(fmt, s.proc.w, now)
    case None => s.(proc := s.proc.(w := Drop(s.proc.w)))
    case Some(v) => s.(proc := s.proc.(w := v, phase := Writing(0)))
  }

  function DoWrite(fmt: Format, s: World, n: nat): World
    requires CanWrite(fmt, s, n)
  {
    var done := s.proc.phase.done;
    s.(file := s.file + Flat(fmt.codec, s.proc.w.batch)[done..done + n], proc := s.proc.(phase := Writing(done + n)))
  }

  /** The batch is durable in its file; a full segment is then rotated. */
  function DoSynced(fmt: Format, s: World): World
    requires CanSync(fmt, s)
  {
    var v := Landed(fmt, s.proc.w);
    s.(durable := |s.file|, past := {}, proc := Up(v, true, if v.segBytes >= SEGMENT_BYTES then Rotating else Idle, true))
  }

  /** Cuts off what of the batch was written, if a segment is open, and hands its numbers out again. */
  function DoFailed(s: World): World
    requires s.proc.Up?
  {
    (if s.proc.fd then CutTo(s, s.proc.w.segBytes) else s).(proc := s.proc.(w := Drop(s.proc.w), phase := Idle))
  }

  /** create_segment: not created, created with the directory unsynced, or done; syncing the directory
      makes all its entries durable. */
  function DoRotate(s: World, created: bool, entrySynced: bool): World
    requires s.proc.Up?
  {
    var w := s.proc.w;
    if !created then s.(proc := s.proc.(fd := false, phase := Idle)) else
    var next := s.(older := s.older + [Segment(s.first, s.file)], loose := if entrySynced then 0 else s.loose + 1,
                   first := w.nextSeq, file := [], durable := 0, past := {});
    if entrySynced then next.(proc := s.proc.(w := w.(segBytes := 0), phase := Idle))
    else next.(proc := s.proc.(fd := false, phase := Idle))
  }

  /** A power cut that spares the entries: what survives it is on the disk. */
  function DoCut(s: World, left: seq<byte>): World {
    s.(loose := 0, file := left, durable := |left|, past := {}, proc := Down)
  }

  /** A power cut that loses the directory entries of the newest segments. */
  function DoLose(s: World, lost: nat): World
    requires 0 < lost
  {
    if lost > |s.older| then EMPTY else
    var seg := s.older[|s.older| - lost];
    World(true, s.older[..|s.older| - lost], 0, seg.first, seg.file, |seg.file|, {}, Down)
  }

  // ------------------------------------------------------------------ the invariant

  function LogIn(fmt: Format, bytes: seq<byte>): seq<Rec> { Parse(fmt.codec, bytes) }

  function OlderLogs(fmt: Format, older: seq<Segment>): seq<Rec>
    decreases |older|
  {
    if older == [] then [] else OlderLogs(fmt, older[..|older| - 1]) + LogIn(fmt, older[|older| - 1].file)
  }

  /** The first number of the directory's log. */
  function Start(s: World): u64 { if s.older == [] then s.first else s.older[0].first }

  /** bytes are exactly the whole batches of log, numbered consecutively from first. */
  ghost predicate LogFile(fmt: Format, first: u64, log: seq<Rec>, bytes: seq<byte>) {
    AllValid(fmt.codec, log) && Closed(Items(fmt.view, log)) && SeqsFrom(first, log) && bytes == Flat(fmt.codec, log)
  }

  /** An older segment is whole batches to its end, and the next one's name continues its numbers. */
  ghost predicate SegmentOk(fmt: Format, seg: Segment, next: u64) {
    var log := LogIn(fmt, seg.file);
    LogFile(fmt, seg.first, log, seg.file) && next == U64(seg.first + |log|)
  }

  ghost predicate OlderOk(fmt: Format, older: seq<Segment>, first: u64)
    decreases |older|
  {
    older == [] ||
    var seg := older[|older| - 1];
    SegmentOk(fmt, seg, first) && OlderOk(fmt, older[..|older| - 1], seg.first)
  }

  /** The writer's transaction and boot numbers continue the log's last COMMIT. */
  ghost predicate Continues(fmt: Format, log: seq<Rec>, w: Wal, booted: bool) {
    log != [] ==>
      var last := fmt.view(log[|log| - 1]);
      && last.what.Commit? && w.nextTxn == U64(last.what.txn + 1)
      && (if booted then w.bootId == last.bootId else w.bootId == U32(last.bootId + 1))
  }

  function Base(w: Wal, fd: bool, file: seq<byte>): nat { if fd then w.segBytes else |file| }

  function BaseSeq(w: Wal): u64 { if w.openBatch then w.batchSeq0 else w.nextSeq }

  /** The writer's numbers continue the whole batches in its segment's committed bytes. */
  ghost predicate Follows(fmt: Format, first: u64, bytes: seq<byte>, w: Wal, booted: bool) {
    var log := LogIn(fmt, bytes);
    LogFile(fmt, first, log, bytes) && BaseSeq(w) == U64(first + |log|) && Continues(fmt, log, w, booted)
  }

  /** The file beyond the committed bytes is what of the batch in the buffer has been written. */
  ghost predicate PhaseOk(fmt: Format, base: nat, file: seq<byte>, w: Wal, fd: bool, phase: Phase, booted: bool) {
    base <= |file| &&
    match phase
    case Idle => BatchOk(fmt, w) && |file| == base
    case Writing(done) => SealedOk(fmt, w) && done <= BufLen(fmt, w) && (!fd ==> done == 0)
                          && file == file[..base] + Flat(fmt.codec, w.batch)[..done]
    case Rotating => fd && booted && !w.openBatch && w.batch == [] && |file| == base
  }

  ghost predicate UpOk(fmt: Format, first: u64, file: seq<byte>, durable: nat, w: Wal, fd: bool, phase: Phase,
                       booted: bool) {
    var base := Base(w, fd, file);
    && base <= |file| && durable <= base && (booted ==> durable == base) && SrcOk(w.src)
    && Follows(fmt, first, file[..base], w, booted) && PhaseOk(fmt, base, file, w, fd, phase, booted)
  }

  /** An earlier version of the newest file: it has the durable bytes, and its log is numbered on too. */
  ghost predicate PastOk(fmt: Format, first: u64, kept: seq<byte>, v: seq<byte>) {
    kept <= v && SeqsFrom(first, Committed(fmt.codec, fmt.view, v))
  }

  ghost predicate FileOk(fmt: Format, first: u64, file: seq<byte>, durable: nat, past: set<seq<byte>>) {
    && durable <= |file| && SeqsFrom(first, Committed(fmt.codec, fmt.view, file))
    && forall v :: v in past ==> PastOk(fmt, first, file[..durable], v)
  }

  /** The directory around the newest segment's process. Only a directory that has lost nothing else can
      lose all its entries, and its log starts at 0. */
  ghost predicate DirOk(fmt: Format, s: World) {
    && s.made && OlderOk(fmt, s.older, s.first)
    && s.loose <= |s.older| + 1 && (s.loose > |s.older| ==> Start(s) == 0)
  }

  ghost predicate Inv(fmt: Format, s: World) {
    && (if s.made then DirOk(fmt, s) else s == EMPTY)
    && FileOk(fmt, s.first, s.file, s.durable, s.past)
    && match s.proc
       case Down => true
       case Truncating(w) => UpOk(fmt, s.first, s.file, s.durable, w, true, Idle, false)
       case Up(w, fd, phase, booted) => UpOk(fmt, s.first, s.file, s.durable, w, fd, phase, booted)
  }

  // ------------------------------------------------------------------ reading a log file back

  /** A file of whole batches scans to exactly those batches, all of its bytes committed. */
  lemma LogFileReads(fmt: Format, first: u64, log: seq<Rec>, bytes: seq<byte>)
    requires Good(fmt) && LogFile(fmt, first, log, bytes)
    ensures LogIn(fmt, bytes) == log && Committed(fmt.codec, fmt.view, bytes) == log
    ensures ScanOf(fmt.codec, fmt.view, bytes).committedLen == |bytes|
  {
    ParseOfFlat(fmt.codec, log, []);
    NothingDecodesEmpty(fmt.codec);
    assert Flat(fmt.codec, log) + [] == bytes && log + [] == log;
    assert log[..|log|] == log;
  }

  lemma CommittedIsLogFile(fmt: Format, first: u64, file: seq<byte>)
    requires Good(fmt) && SeqsFrom(first, Committed(fmt.codec, fmt.view, file))
    ensures var len := ScanOf(fmt.codec, fmt.view, file).committedLen;
            len <= |file| && LogFile(fmt, first, Committed(fmt.codec, fmt.view, file), file[..len])
            && LogIn(fmt, file[..len]) == Committed(fmt.codec, fmt.view, file)
  {
    var log := Committed(fmt.codec, fmt.view, file);
    CommittedIsLongest(fmt.codec, fmt.view, file);
    LogFileReads(fmt, first, log, Flat(fmt.codec, log));
  }

  lemma TornParse(fmt: Format, log: seq<Rec>, batch: seq<Rec>, d: nat) returns (part: seq<Rec>)
    requires Good(fmt) && AllValid(fmt.codec, log) && AllValid(fmt.codec, batch) && d <= |Flat(fmt.codec, batch)|
    ensures part <= batch && LogIn(fmt, Flat(fmt.codec, log) + Flat(fmt.codec, batch)[..d]) == log + part
    ensures part == batch <==> d == |Flat(fmt.codec, batch)|
  {
    var m := ParseOfCut(fmt.codec, batch, d);
    part := batch[..m];
    ParseOfFlat(fmt.codec, log, Flat(fmt.codec, batch)[..d]);
    assert m < |batch| ==> |part| != |batch|;
    if m < |batch| { FlatGrows(fmt.codec, batch, m + 1, |batch|); }
    assert batch[..|batch|] == batch;
  }

  lemma CommittedRecords(fmt: Format, file: seq<byte>, rs: seq<Rec>, its: seq<Item>, k: nat)
    requires rs == LogIn(fmt, file) && its == Items(fmt.view, rs) && k == CommittedCount(its)
    ensures Committed(fmt.codec, fmt.view, file) == rs[..k]
  {}

  lemma FrontOf(a: seq<Rec>, b: seq<Rec>)
    ensures (a + b)[..|a|] == a && (a + b)[..|a| + |b|] == a + b
  {}

  /** A file of whole batches and a front piece of one more: that one counts for nothing. */
  lemma TornCommitted(fmt: Format, log: seq<Rec>, batch: seq<Rec>, part: seq<Rec>, file: seq<byte>)
    requires Closed(Items(fmt.view, log)) && WholeBatch(Items(fmt.view, batch)) && part <= batch && |part| < |batch|
    requires LogIn(fmt, file) == log + part
    ensures Committed(fmt.codec, fmt.view, file) == log
  {
    TornItems(fmt, log, batch, part);
    CommittedRecords(fmt, file, log + part, Items(fmt.view, log + part), |log|);
    FrontOf(log, part);
  }

  lemma WholeCommitted(fmt: Format, log: seq<Rec>, batch: seq<Rec>, file: seq<byte>)
    requires Closed(Items(fmt.view, log)) && WholeBatch(Items(fmt.view, batch)) && LogIn(fmt, file) == log + batch
    ensures Committed(fmt.codec, fmt.view, file) == log + batch
  {
    TornItems(fmt, log, batch, batch);
    CommittedRecords(fmt, file, log + batch, Items(fmt.view, log + batch), |log| + |batch|);
    FrontOf(log, batch);
  }

  lemma ProperFront(part: seq<Rec>, batch: seq<Rec>)
    requires part <= batch
    ensures part == batch || |part| < |batch|
  {
    if |part| == |batch| { assert part == batch[..|part|] == batch; }
  }

  /** A torn batch after whole ones changes nothing that is committed; the whole batch commits. */
  lemma TornBatch(fmt: Format, first: u64, log: seq<Rec>, bytes: seq<byte>, batch: seq<Rec>, d: nat)
    requires Good(fmt) && LogFile(fmt, first, log, bytes) && AllValid(fmt.codec, batch)
    requires WholeBatch(Items(fmt.view, batch)) && d <= |Flat(fmt.codec, batch)|
    ensures Committed(fmt.codec, fmt.view, bytes + Flat(fmt.codec, batch)[..d])
            == if d < |Flat(fmt.codec, batch)| then log else log + batch
  {
    var file := bytes + Flat(fmt.codec, batch)[..d];
    var part := TornParse(fmt, log, batch, d);
    if d < |Flat(fmt.codec, batch)| {
      ProperFront(part, batch);
      TornCommitted(fmt, log, batch, part, file);
    } else {
      WholeCommitted(fmt, log, batch, file);
    }
  }

  lemma TornItems(fmt: Format, log: seq<Rec>, batch: seq<Rec>, part: seq<Rec>)
    requires Closed(Items(fmt.view, log)) && WholeBatch(Items(fmt.view, batch)) && part <= batch
    ensures CommittedCount(Items(fmt.view, log + part)) == |log| + if |part| < |batch| then 0 else |batch|
  {
    ItemsAppend(fmt.view, log, part);
    CommittedCountAppend(Items(fmt.view, log), Items(fmt.view, part));
    if |part| < |batch| {
      UnfinishedBatchCountsNothing(Items(fmt.view, batch), |part|);
      assert Items(fmt.view, part) == Items(fmt.view, batch)[..|part|];
    } else {
      assert part == batch;
      WholeBatchIsClosed(Items(fmt.view, batch));
    }
  }

  lemma ValidAppend(fmt: Format, a: seq<Rec>, b: seq<Rec>)
    requires AllValid(fmt.codec, a) && AllValid(fmt.codec, b)
    ensures AllValid(fmt.codec, a + b)
  {}

  lemma LogFileAppend(fmt: Format, first: u64, log: seq<Rec>, bytes: seq<byte>, batch: seq<Rec>, next: u64,
                      file: seq<byte>, all: seq<Rec>)
    requires Good(fmt) && LogFile(fmt, first, log, bytes) && next == U64(first + |log|)
    requires AllValid(fmt.codec, batch) && WholeBatch(Items(fmt.view, batch)) && SeqsFrom(next, batch)
    requires file == bytes + Flat(fmt.codec, batch) && all == log + batch
    ensures LogFile(fmt, first, all, file)
  {
    FlatAppend(fmt.codec, log, batch);
    ValidAppend(fmt, log, batch);
    ClosedRecords(fmt, log, batch);
    SeqsAppend(first, log, next, batch);
  }

  lemma SeqEnd(first: nat, n: nat, next: u64, k: nat)
    requires next == U64(first + n)
    ensures U64(next + k) == U64(first + (n + k))
  {
    U64Absorbs(first + n, k);
  }

  lemma ClosedRecords(fmt: Format, log: seq<Rec>, batch: seq<Rec>)
    requires Closed(Items(fmt.view, log)) && WholeBatch(Items(fmt.view, batch))
    ensures Closed(Items(fmt.view, log + batch))
  {
    ItemsAppend(fmt.view, log, batch);
    WholeBatchIsClosed(Items(fmt.view, batch));
    ClosedAppend(Items(fmt.view, log), Items(fmt.view, batch));
  }

  /** The scan's last numbers are those of the last committed record, a COMMIT. */
  lemma ScanLast(fmt: Format, file: seq<byte>)
    requires Good(fmt)
    ensures var scan, log := ScanOf(fmt.codec, fmt.view, file), Committed(fmt.codec, fmt.view, file);
            if log == [] then !scan.anyCommitted else
            var last := fmt.view(log[|log| - 1]);
            scan.anyCommitted && last.what.Commit? && scan.lastTxn == last.what.txn && scan.lastSeq == last.seqNo
            && scan.lastBootId == last.bootId
  {
    var rs := Parse(fmt.codec, file);
    var its := Items(fmt.view, rs);
    var n := CommittedCount(its);
    ItemsPrefix(fmt.view, rs, n);
    CommittedPrefixIsClosed(its);
    if n > 0 { ClosedEndsWithCommit(its[..n]); }
  }

  /** A file that scans as it should, opened: the writer continues it. */
  lemma OpenedContinues(fmt: Format, first: u64, file: seq<byte>, log: seq<Rec>, w: Wal)
    requires Good(fmt) && SeqsFrom(first, log) && log == Committed(fmt.codec, fmt.view, file)
    requires var scan := ScanOf(fmt.codec, fmt.view, file);
             w.nextSeq == (if scan.anyCommitted then U64(scan.lastSeq + 1) else first)
             && w.nextTxn == U64(scan.lastTxn + 1) && w.bootId == U32(scan.lastBootId + 1)
    ensures w.nextSeq == U64(first + |log|) && Continues(fmt, log, w, false)
  {
    ScanLast(fmt, file);
    if log != [] {
      assert MarksOf(fmt, log[|log| - 1]);
      U64Next(first, |log| - 1);
    }
  }

  lemma {:induction false} ClosedEndsWithCommit(its: seq<Item>)
    requires Closed(its) && its != []
    ensures its[|its| - 1].what.Commit?
    decreases |its|
  {
    var b := BatchLen(its);
    var rest := its[b..];
    if rest != [] { ClosedEndsWithCommit(rest); }
  }

  // ------------------------------------------------------------------ every step keeps the invariant

  lemma FollowsSame(fmt: Format, first: u64, bytes: seq<byte>, w: Wal, v: Wal, booted: bool)
    requires Follows(fmt, first, bytes, w, booted)
    requires BaseSeq(v) == BaseSeq(w) && v.nextTxn == w.nextTxn && v.bootId == w.bootId
    ensures Follows(fmt, first, bytes, v, booted)
  {}

  lemma InvFromUp(fmt: Format, s: World, w: Wal, fd: bool, phase: Phase, booted: bool)
    requires s.proc == Up(w, fd, phase, booted) && DirOk(fmt, s) && FileOk(fmt, s.first, s.file, s.durable, s.past)
    requires UpOk(fmt, s.first, s.file, s.durable, w, fd, phase, booted)
    ensures Inv(fmt, s)
  {}

  lemma InvToUp(fmt: Format, s: World)
    requires Inv(fmt, s) && s.proc.Up?
    ensures DirOk(fmt, s) && FileOk(fmt, s.first, s.file, s.durable, s.past)
    ensures SeqsFrom(s.first, Committed(fmt.codec, fmt.view, s.file))
    ensures UpOk(fmt, s.first, s.file, s.durable, s.proc.w, s.proc.fd, s.proc.phase, s.proc.booted)
  {}

  lemma CutKeepsSeqs(fmt: Format, first: u64, file: seq<byte>, left: seq<byte>)
    requires Good(fmt) && left <= file && SeqsFrom(first, Committed(fmt.codec, fmt.view, file))
    ensures SeqsFrom(first, Committed(fmt.codec, fmt.view, left))
  {
    CutCommittedIsPrefix(fmt.codec, fmt.view, file, |left|);
    assert file[..|left|] == left;
  }

  /** Cutting a file keeps its front and remembers what it was. */
  lemma CutFileOk(fmt: Format, first: u64, file: seq<byte>, durable: nat, past: set<seq<byte>>, cut: seq<byte>,
                  kept: nat)
    requires Good(fmt) && FileOk(fmt, first, file, durable, past) && cut <= file
    requires kept == if durable <= |cut| then durable else |cut|
    ensures FileOk(fmt, first, cut, kept, past + {file})
  {
    CutKeepsSeqs(fmt, first, file, cut);
    forall v | v in past + {file} ensures PastOk(fmt, first, cut[..kept], v) {
      assert cut[..kept] == file[..kept];
      if v in past { KeptShorter(fmt, first, file, durable, v, kept); }
    }
  }

  lemma KeptShorter(fmt: Format, first: u64, file: seq<byte>, durable: nat, v: seq<byte>, kept: nat)
    requires durable <= |file| && PastOk(fmt, first, file[..durable], v) && kept <= durable
    ensures PastOk(fmt, first, file[..kept], v)
  {
    assert file[..durable][..kept] == file[..kept];
  }

  /** A longer file keeps the versions before it. */
  lemma LongerFileOk(fmt: Format, first: u64, file: seq<byte>, durable: nat, past: set<seq<byte>>, next: seq<byte>)
    requires FileOk(fmt, first, file, durable, past) && file <= next && SeqsFrom(first, Committed(fmt.codec, fmt.view, next))
    ensures FileOk(fmt, first, next, durable, past)
  {
    assert next[..durable] == file[..durable];
  }

  lemma OpenedFollows(fmt: Format, first: u64, file: seq<byte>, src: u8, flags: u8, len: nat, w: Wal)
    requires Good(fmt) && SeqsFrom(first, Committed(fmt.codec, fmt.view, file))
    requires w == Opened(ScanOf(fmt.codec, fmt.view, file), first, |file|, src, flags) && len == w.segBytes
    ensures len <= |file| && Follows(fmt, first, file[..len], w, false)
  {
    CommittedIsLogFile(fmt, first, file);
    OpenedContinues(fmt, first, file, Committed(fmt.codec, fmt.view, file), w);
  }

  lemma OpenedUp(fmt: Format, first: u64, file: seq<byte>, durable: nat, w: Wal)
    requires Follows(fmt, first, file, w, false) && !w.openBatch && w.batch == [] && w.segBytes == |file|
    requires durable <= |file| && SrcOk(w.src)
    ensures UpOk(fmt, first, file, durable, w, true, Idle, false)
  {
    assert file[..|file|] == file;
  }

  lemma OpenFirstFollows(fmt: Format, src: u8, flags: u8)
    requires Good(fmt)
    ensures Follows(fmt, 0, [], OpenedFirst(src, flags), false)
  {
    NothingDecodesEmpty(fmt.codec);
  }

  lemma EmptyInv(fmt: Format)
    requires Good(fmt)
    ensures Inv(fmt, EMPTY)
  {
    NothingDecodesEmpty(fmt.codec);
  }

  lemma CreateKeeps(fmt: Format, src: u8, flags: u8, created: bool, entrySynced: bool, t: World)
    requires Good(fmt) && SrcOk(src) && t == DoCreate(EMPTY, src, flags, created, entrySynced)
    ensures Inv(fmt, t)
  {
    EmptyInv(fmt);
    OpenFirstFollows(fmt, src, flags);
    OpenedUp(fmt, 0, [], 0, OpenedFirst(src, flags));
  }

  /** The file cut back to its last COMMIT, and the writer that continues it. */
  lemma CutBackUp(fmt: Format, first: u64, file: seq<byte>, src: u8, flags: u8, w: Wal, cut: seq<byte>, durable: nat)
    requires Good(fmt) && SeqsFrom(first, Committed(fmt.codec, fmt.view, file)) && SrcOk(src)
    requires w == Opened(ScanOf(fmt.codec, fmt.view, file), first, |file|, src, flags)
    requires w.segBytes <= |file| && cut == file[..w.segBytes] && durable <= |cut|
    ensures UpOk(fmt, first, cut, durable, w, true, Idle, false)
    ensures Committed(fmt.codec, fmt.view, cut) == Committed(fmt.codec, fmt.view, file)
  {
    OpenedFollows(fmt, first, file, src, flags, w.segBytes, w);
    OpenedUp(fmt, first, cut, durable, w);
    CutKeepsCommitted(fmt.codec, fmt.view, file, w.segBytes);
  }

  lemma ScanFits(fmt: Format, file: seq<byte>)
    requires Good(fmt)
    ensures ScanOf(fmt.codec, fmt.view, file).committedLen <= |file|
  {
    CommittedIsLongest(fmt.codec, fmt.view, file);
  }

  lemma DoOpenIs(fmt: Format, s: World, src: u8, flags: u8, created: bool, entrySynced: bool, w: Wal, cut: World)
    requires s.made && w == Opened(ScanOf(fmt.codec, fmt.view, s.file), s.first, |s.file|, src, flags)
    requires w.segBytes <= |s.file| && s.durable <= |s.file| && cut == CutTo(s, w.segBytes)
    ensures DoOpen(fmt, s, src, flags, created, entrySynced)
            == if w.segBytes < |s.file| then cut.(proc := Truncating(w)) else s.(proc := Up(w, true, Idle, false))
    ensures cut.file == s.file[..w.segBytes] && cut.durable == if s.durable <= w.segBytes then s.durable else w.segBytes
  {
    if w.segBytes == |s.file| { assert s.file[..|s.file|] == s.file; }
  }

  /** Whatever a crash left, opening it restores the invariant. */
  lemma OpenKeeps(fmt: Format, s: World, src: u8, flags: u8, created: bool, entrySynced: bool)
    requires Good(fmt) && Inv(fmt, s) && s.proc.Down? && SrcOk(src)
    ensures Inv(fmt, DoOpen(fmt, s, src, flags, created, entrySynced))
  {
    if !s.made {
      CreateKeeps(fmt, src, flags, created, entrySynced, DoOpen(fmt, s, src, flags, created, entrySynced));
    } else {
      var w := Opened(ScanOf(fmt.codec, fmt.view, s.file), s.first, |s.file|, src, flags);
      ScanFits(fmt, s.file);
      var cut := CutTo(s, w.segBytes);
      DoOpenIs(fmt, s, src, flags, created, entrySynced, w, cut);
      CutBackUp(fmt, s.first, s.file, src, flags, w, s.file[..w.segBytes], cut.durable);
      OpenedInv(fmt, s, w, cut);
    }
  }

  lemma OpenedInv(fmt: Format, s: World, w: Wal, cut: World)
    requires Good(fmt) && Inv(fmt, s) && s.made && w.segBytes <= |s.file| && cut == CutTo(s, w.segBytes)
    requires UpOk(fmt, s.first, s.file[..w.segBytes], cut.durable, w, true, Idle, false)
    ensures w.segBytes < |s.file| ==> Inv(fmt, cut.(proc := Truncating(w)))
    ensures w.segBytes == |s.file| ==> Inv(fmt, s.(proc := Up(w, true, Idle, false)))
  {
    if w.segBytes < |s.file| {
      CutFileOk(fmt, s.first, s.file, s.durable, s.past, s.file[..w.segBytes], cut.durable);
    } else {
      assert s.file[..|s.file|] == s.file;
    }
  }

  lemma SyncedFileOk(fmt: Format, first: u64, file: seq<byte>)
    requires SeqsFrom(first, Committed(fmt.codec, fmt.view, file))
    ensures FileOk(fmt, first, file, |file|, {})
  {}

  lemma TruncatedKeeps(fmt: Format, s: World)
    requires Inv(fmt, s) && s.proc.Truncating?
    ensures Inv(fmt, DoTruncated(s))
  {
    SyncedFileOk(fmt, s.first, s.file);
  }

  lemma AddUp(fmt: Format, first: u64, file: seq<byte>, durable: nat, w: Wal, fd: bool, booted: bool,
              kind: u16, src: u8, t: Clock, body: seq<byte>, now: Clock)
    requires Good(fmt) && UpOk(fmt, first, file, durable, w, fd, Idle, booted) && kind != BEGIN && kind != COMMIT
    ensures UpOk(fmt, first, file, durable, Add(fmt, w, kind, src, t, body, now).1, fd, Idle, booted)
  {
    var v := Add(fmt, w, kind, src, t, body, now).1;
    AddKeepsBatch(fmt, w, kind, src, t, body, now);
    AddFacts(fmt, w, kind, src, t, body, now);
    FollowsSame(fmt, first, file[..Base(w, fd, file)], w, v, booted);
  }

  lemma AddKeeps(fmt: Format, s: World, kind: u16, src: u8, t: Clock, body: seq<byte>, now: Clock, v: Wal)
    requires Good(fmt) && Inv(fmt, s) && s.proc.Up? && s.proc.phase.Idle? && kind != BEGIN && kind != COMMIT
    requires v == Add(fmt, s.proc.w, kind, src, t, body, now).1
    ensures Inv(fmt, s.(proc := s.proc.(w := v)))
  {
    InvToUp(fmt, s);
    AddUp(fmt, s.first, s.file, s.durable, s.proc.w, s.proc.fd, s.proc.booted, kind, src, t, body, now);
    InvFromUp(fmt, s.(proc := s.proc.(w := v)), v, s.proc.fd, Idle, s.proc.booted);
  }

  lemma CommitUp(fmt: Format, first: u64, file: seq<byte>, durable: nat, w: Wal, fd: bool, booted: bool, now: Clock)
    requires Good(fmt) && UpOk(fmt, first, file, durable, w, fd, Idle, booted) && w.openBatch
    ensures Seal(fmt, w, now).Some? && UpOk(fmt, first, file, durable, Seal(fmt, w, now).value, fd, Writing(0), booted)
  {
    SealNeverFails(fmt, w, now);
    var v := Seal(fmt, w, now).value;
    var base := Base(w, fd, file);
    FollowsSame(fmt, first, file[..base], w, v, booted);
    assert file == file[..base] + Flat(fmt.codec, v.batch)[..0];
  }

  lemma CommitKeeps(fmt: Format, s: World, now: Clock)
    requires Good(fmt) && Inv(fmt, s) && s.proc.Up? && s.proc.phase.Idle? && s.proc.w.openBatch
    ensures Inv(fmt, DoCommit(fmt, s, now))
  {
    InvToUp(fmt, s);
    CommitUp(fmt, s.first, s.file, s.durable, s.proc.w, s.proc.fd, s.proc.booted, now);
    InvFromUp(fmt, DoCommit(fmt, s, now), Seal(fmt, s.proc.w, now).value, s.proc.fd, Writing(0), s.proc.booted);
  }

  lemma WrittenFile(file: seq<byte>, base: nat, buf: seq<byte>, done: nat, n: nat)
    requires base <= |file| && done + n <= |buf| && file == file[..base] + buf[..done]
    ensures (file + buf[done..done + n])[..base] == file[..base]
    ensures file + buf[done..done + n] == file[..base] + buf[..done + n]
  {}

  lemma WriteUp(fmt: Format, first: u64, file: seq<byte>, durable: nat, w: Wal, booted: bool, done: nat, n: nat)
    requires Good(fmt) && UpOk(fmt, first, file, durable, w, true, Writing(done), booted) && done + n <= BufLen(fmt, w)
    ensures var next := file + Flat(fmt.codec, w.batch)[done..done + n];
            UpOk(fmt, first, next, durable, w, true, Writing(done + n), booted)
            && next == file[..w.segBytes] + Flat(fmt.codec, w.batch)[..done + n]
  {
    WrittenFile(file, w.segBytes, Flat(fmt.codec, w.batch), done, n);
  }

  /** However much of the batch has been written, the committed records stay consecutive. */
  lemma TornSeqs(fmt: Format, first: u64, log: seq<Rec>, base: seq<byte>, batch: seq<Rec>, next: u64, d: nat)
    requires Good(fmt) && LogFile(fmt, first, log, base) && next == U64(first + |log|)
    requires AllValid(fmt.codec, batch) && WholeBatch(Items(fmt.view, batch)) && SeqsFrom(next, batch)
    requires d <= |Flat(fmt.codec, batch)|
    ensures SeqsFrom(first, Committed(fmt.codec, fmt.view, base + Flat(fmt.codec, batch)[..d]))
  {
    TornBatch(fmt, first, log, base, batch, d);
    SeqsAppend(first, log, next, batch);
  }

  lemma WriteKeeps(fmt: Format, s: World, n: nat, w: Wal, done: nat, booted: bool, next: seq<byte>, t: World)
    requires Good(fmt) && Inv(fmt, s) && s.proc == Up(w, true, Writing(done), booted) && done + n <= BufLen(fmt, w)
    requires next == s.file + Flat(fmt.codec, w.batch)[done..done + n]
    requires t == s.(file := next, proc := Up(w, true, Writing(done + n), booted))
    ensures Inv(fmt, t)
  {
    InvToUp(fmt, s);
    WriteUp(fmt, s.first, s.file, s.durable, w, booted, done, n);
    WrittenFileOk(fmt, s.first, s.file, s.durable, s.past, w, booted, done, n, next);
    InvFromUp(fmt, t, w, true, Writing(done + n), booted);
  }

  lemma WrittenFileOk(fmt: Format, first: u64, file: seq<byte>, durable: nat, past: set<seq<byte>>, w: Wal, booted: bool,
                      done: nat, n: nat, next: seq<byte>)
    requires Good(fmt) && UpOk(fmt, first, file, durable, w, true, Writing(done), booted) && done + n <= BufLen(fmt, w)
    requires FileOk(fmt, first, file, durable, past) && file <= next
    requires next == file[..w.segBytes] + Flat(fmt.codec, w.batch)[..done + n]
    ensures FileOk(fmt, first, next, durable, past)
  {
    UpToFollows(fmt, first, file, durable, w, done, booted);
    TornFollows(fmt, first, file[..w.segBytes], w, booted, done + n, next);
    LongerFileOk(fmt, first, file, durable, past, next);
  }

  lemma UpToFollows(fmt: Format, first: u64, file: seq<byte>, durable: nat, w: Wal, done: nat, booted: bool)
    requires UpOk(fmt, first, file, durable, w, true, Writing(done), booted)
    ensures w.segBytes <= |file| && Follows(fmt, first, file[..w.segBytes], w, booted) && SealedOk(fmt, w)
    ensures file == file[..w.segBytes] + Flat(fmt.codec, w.batch)[..done] && done <= BufLen(fmt, w)
    ensures w.openBatch
  {}

  lemma TornFollows(fmt: Format, first: u64, base: seq<byte>, w: Wal, booted: bool, d: nat, file: seq<byte>)
    requires Good(fmt) && Follows(fmt, first, base, w, booted) && SealedOk(fmt, w) && d <= BufLen(fmt, w)
    requires file == base + Flat(fmt.codec, w.batch)[..d]
    ensures SeqsFrom(first, Committed(fmt.codec, fmt.view, file))
  {
    TornSeqs(fmt, first, LogIn(fmt, base), base, w.batch, w.batchSeq0, d);
  }

  lemma LandedContinues(fmt: Format, log: seq<Rec>, w: Wal, all: seq<Rec>)
    requires Good(fmt) && SealedOk(fmt, w) && all == log + w.batch
    ensures Continues(fmt, all, Landed(fmt, w), true)
  {
    assert all[|all| - 1] == w.batch[|w.batch| - 1];
    assert MarksOf(fmt, w.batch[|w.batch| - 1]);
  }

  lemma SyncedFollows(fmt: Format, first: u64, base: seq<byte>, w: Wal, booted: bool, file: seq<byte>)
    requires Good(fmt) && Follows(fmt, first, base, w, booted) && SealedOk(fmt, w)
    requires file == base + Flat(fmt.codec, w.batch)
    ensures Follows(fmt, first, file, Landed(fmt, w), true)
    ensures Committed(fmt.codec, fmt.view, file) == LogIn(fmt, base) + w.batch
    ensures SeqsFrom(first, Committed(fmt.codec, fmt.view, file))
  {
    var log := LogIn(fmt, base);
    var all := log + w.batch;
    SyncedLog(fmt, first, base, log, w, file, all);
    SyncedNumbers(fmt, first, log, w, all);
    FollowsFromParts(fmt, first, file, all, Landed(fmt, w));
  }

  lemma FollowsFromParts(fmt: Format, first: u64, file: seq<byte>, all: seq<Rec>, v: Wal)
    requires LogFile(fmt, first, all, file) && LogIn(fmt, file) == all
    requires BaseSeq(v) == U64(first + |all|) && Continues(fmt, all, v, true)
    ensures Follows(fmt, first, file, v, true)
  {}

  lemma SyncedLog(fmt: Format, first: u64, base: seq<byte>, log: seq<Rec>, w: Wal, file: seq<byte>, all: seq<Rec>)
    requires Good(fmt) && LogFile(fmt, first, log, base) && BaseSeq(w) == U64(first + |log|) && SealedOk(fmt, w)
    requires file == base + Flat(fmt.codec, w.batch) && all == log + w.batch
    ensures LogFile(fmt, first, all, file) && LogIn(fmt, file) == all && Committed(fmt.codec, fmt.view, file) == all
  {
    LogFileAppend(fmt, first, log, base, w.batch, w.batchSeq0, file, all);
    LogFileReads(fmt, first, all, file);
  }

  lemma SyncedNumbers(fmt: Format, first: u64, log: seq<Rec>, w: Wal, all: seq<Rec>)
    requires Good(fmt) && BaseSeq(w) == U64(first + |log|) && SealedOk(fmt, w) && all == log + w.batch
    ensures BaseSeq(Landed(fmt, w)) == U64(first + |all|) && Continues(fmt, all, Landed(fmt, w), true)
  {
    SeqEnd(first, |log|, w.batchSeq0, |w.batch|);
    LandedContinues(fmt, log, w, all);
  }

  lemma LandedUp(fmt: Format, first: u64, file: seq<byte>, v: Wal, phase: Phase)
    requires Follows(fmt, first, file, v, true) && v.segBytes == |file| && SrcOk(v.src)
    requires !v.openBatch && v.batch == [] && !phase.Writing?
    ensures UpOk(fmt, first, file, |file|, v, true, phase, true)
  {
    assert file[..|file|] == file;
  }

  lemma WholeFollows(fmt: Format, first: u64, file: seq<byte>, durable: nat, w: Wal, booted: bool)
    requires Good(fmt) && UpOk(fmt, first, file, durable, w, true, Writing(BufLen(fmt, w)), booted)
    ensures Follows(fmt, first, file, Landed(fmt, w), true) && Landed(fmt, w).segBytes == |file|
    ensures SeqsFrom(first, Committed(fmt.codec, fmt.view, file))
    ensures w.segBytes <= |file| && Committed(fmt.codec, fmt.view, file) == LogIn(fmt, file[..w.segBytes]) + w.batch
  {
    UpToFollows(fmt, first, file, durable, w, BufLen(fmt, w), booted);
    assert Flat(fmt.codec, w.batch)[..BufLen(fmt, w)] == Flat(fmt.codec, w.batch);
    SyncedFollows(fmt, first, file[..w.segBytes], w, booted, file);
  }

  lemma SyncedKeeps(fmt: Format, s: World, w: Wal, booted: bool, v: Wal, phase: Phase, t: World)
    requires Good(fmt) && Inv(fmt, s) && s.proc == Up(w, true, Writing(BufLen(fmt, w)), booted)
    requires v == Landed(fmt, w) && !phase.Writing?
    requires t == s.(durable := |s.file|, past := {}, proc := Up(v, true, phase, true))
    ensures Inv(fmt, t)
  {
    InvToUp(fmt, s);
    WholeFollows(fmt, s.first, s.file, s.durable, w, booted);
    LandedUp(fmt, s.first, s.file, v, phase);
    SyncedFileOk(fmt, s.first, s.file);
    InvFromUp(fmt, t, v, true, phase, true);
  }

  lemma DroppedUp(fmt: Format, first: u64, file: seq<byte>, durable: nat, w: Wal, fd: bool, done: nat, booted: bool,
                  cut: seq<byte>)
    requires Good(fmt) && UpOk(fmt, first, file, durable, w, fd, Writing(done), booted)
    requires cut == file[..Base(w, fd, file)]
    ensures UpOk(fmt, first, cut, durable, Drop(w), fd, Idle, booted)
  {
    assert cut[..|cut|] == cut;
    FollowsSame(fmt, first, cut, w, Drop(w), booted);
  }

  lemma DoFailedIs(fmt: Format, s: World, w: Wal, fd: bool, base: nat)
    requires s.proc.Up? && w == s.proc.w && fd == s.proc.fd && base == Base(w, fd, s.file) && s.durable <= base <= |s.file|
    ensures DoFailed(s) == CutTo(s, base).(proc := s.proc.(w := Drop(w), phase := Idle))
    ensures CutTo(s, base).file == s.file[..base] && CutTo(s, base).durable == s.durable
    ensures CutTo(s, base).past == if base < |s.file| then s.past + {s.file} else s.past
  {
    assert s.file[..|s.file|] == s.file;
  }

  lemma FailedKeeps(fmt: Format, s: World)
    requires Good(fmt) && Inv(fmt, s) && s.proc.Up? && s.proc.phase.Writing?
    ensures Inv(fmt, DoFailed(s))
  {
    var w, fd, base := s.proc.w, s.proc.fd, Base(s.proc.w, s.proc.fd, s.file);
    InvToUp(fmt, s);
    DroppedUp(fmt, s.first, s.file, s.durable, w, fd, s.proc.phase.done, s.proc.booted, s.file[..base]);
    DoFailedIs(fmt, s, w, fd, base);
    if base < |s.file| {
      CutFileOk(fmt, s.first, s.file, s.durable, s.past, s.file[..base], s.durable);
    } else {
      assert s.file[..|s.file|] == s.file;
    }
    InvFromUp(fmt, DoFailed(s), Drop(w), fd, Idle, s.proc.booted);
  }

  lemma EmptyFollows(fmt: Format, w: Wal, booted: bool)
    requires Good(fmt)
    ensures BaseSeq(w) == w.nextSeq ==> Follows(fmt, w.nextSeq, [], w, booted)
    ensures forall first :: SeqsFrom(first, Committed(fmt.codec, fmt.view, []))
  {
    NothingDecodesEmpty(fmt.codec);
    assert U64(w.nextSeq) == w.nextSeq;
  }

  lemma RotatedUp(fmt: Format, w: Wal, v: Wal, fd: bool)
    requires Good(fmt) && !w.openBatch && w.batch == [] && SrcOk(w.src)
    requires v == (if fd then w.(segBytes := 0) else w)
    ensures UpOk(fmt, w.nextSeq, [], 0, v, fd, Idle, true) && FileOk(fmt, w.nextSeq, [], 0, {})
  {
    EmptyFollows(fmt, v, true);
    var none: seq<byte> := [];
    assert none[..0] == none;
  }

  lemma ClosedDownUp(fmt: Format, first: u64, file: seq<byte>, durable: nat, w: Wal, booted: bool)
    requires UpOk(fmt, first, file, durable, w, true, Rotating, booted)
    ensures UpOk(fmt, first, file, durable, w, false, Idle, booted)
    ensures booted && SrcOk(w.src) && !w.openBatch && w.batch == [] && SegmentOk(fmt, Segment(first, file), w.nextSeq)
  {
    assert file[..|file|] == file;
  }

  lemma OlderSnoc(fmt: Format, older: seq<Segment>, seg: Segment, next: u64)
    requires OlderOk(fmt, older, seg.first) && SegmentOk(fmt, seg, next)
    ensures OlderOk(fmt, older + [seg], next)
  {
    assert (older + [seg])[..|older|] == older;
  }

  /** Rotation, done, half done or failed, keeps every older segment whole and the numbers continuous. */
  lemma RotateKeeps(fmt: Format, s: World, created: bool, entrySynced: bool, t: World, w: Wal, booted: bool)
    requires Good(fmt) && Inv(fmt, s) && s.proc == Up(w, true, Rotating, booted) && t == DoRotate(s, created, entrySynced)
    ensures Inv(fmt, t)
  {
    InvToUp(fmt, s);
    ClosedDownUp(fmt, s.first, s.file, s.durable, w, booted);
    if !created {
      InvFromUp(fmt, t, w, false, Idle, booted);
    } else {
      var v := if entrySynced then w.(segBytes := 0) else w;
      RotatedUp(fmt, w, v, entrySynced);
      OlderSnoc(fmt, s.older, Segment(s.first, s.file), w.nextSeq);
      InvFromUp(fmt, t, v, entrySynced, Idle, true);
    }
  }

  lemma ExitKeeps(fmt: Format, s: World)
    requires Inv(fmt, s)
    ensures Inv(fmt, s.(proc := Down))
  {}

  /** The version of the newest file that a power cut leaves a front piece of. */
  lemma LeftOf(fmt: Format, s: World, left: seq<byte>) returns (v: seq<byte>)
    requires FileOk(fmt, s.first, s.file, s.durable, s.past) && Leaves(s, left)
    ensures left <= v && s.file[..s.durable] <= left && SeqsFrom(s.first, Committed(fmt.codec, fmt.view, v))
  {
    if left <= s.file {
      v := s.file;
    } else {
      v :| v in s.past && left <= v;
      assert PastOk(fmt, s.first, s.file[..s.durable], v);
    }
  }

  lemma CutKeeps(fmt: Format, s: World, left: seq<byte>)
    requires Good(fmt) && Inv(fmt, s) && Leaves(s, left)
    ensures Inv(fmt, DoCut(s, left))
  {
    var v := LeftOf(fmt, s, left);
    CutKeepsSeqs(fmt, s.first, v, left);
    SyncedFileOk(fmt, s.first, left);
  }

  lemma OlderLast(fmt: Format, older: seq<Segment>, first: u64, seg: Segment, init: seq<Segment>)
    requires OlderOk(fmt, older, first) && older != [] && seg == older[|older| - 1] && init == older[..|older| - 1]
    ensures LogFile(fmt, seg.first, LogIn(fmt, seg.file), seg.file) && OlderOk(fmt, init, seg.first)
  {}

  lemma TakeOfInit<T>(s: seq<T>, init: seq<T>, k: nat)
    requires s != [] && init == s[..|s| - 1] && k <= |init|
    ensures init[..k] == s[..k] && s[k] == if k < |init| then init[k] else s[|s| - 1]
  {
    if k == |init| { assert init[..k] == init; }
  }

  lemma {:induction false} OlderOkAt(fmt: Format, older: seq<Segment>, first: u64, k: nat, seg: Segment, front: seq<Segment>)
    requires OlderOk(fmt, older, first) && k < |older| && seg == older[k] && front == older[..k]
    ensures OlderOk(fmt, front, seg.first)
    decreases |older|
  {
    var last, init := older[|older| - 1], older[..|older| - 1];
    OlderLast(fmt, older, first, last, init);
    TakeOfInit(older, init, k);
    if k < |init| { OlderOkAt(fmt, init, last.first, k, seg, front); }
  }

  lemma {:induction false} OlderFileAt(fmt: Format, older: seq<Segment>, first: u64, k: nat, seg: Segment)
    requires OlderOk(fmt, older, first) && k < |older| && seg == older[k]
    ensures LogFile(fmt, seg.first, LogIn(fmt, seg.file), seg.file)
    decreases |older|
  {
    var last, init := older[|older| - 1], older[..|older| - 1];
    OlderLast(fmt, older, first, last, init);
    if k < |init| { OlderFileAt(fmt, init, last.first, k, seg); }
  }

  lemma LoseKeeps(fmt: Format, s: World, lost: nat)
    requires Good(fmt) && Inv(fmt, s) && 0 < lost <= s.loose
    ensures Inv(fmt, DoLose(s, lost))
  {
    if lost > |s.older| {
      EmptyInv(fmt);
    } else {
      var k := |s.older| - lost;
      var seg := s.older[k];
      OlderOkAt(fmt, s.older, s.first, k, seg, s.older[..k]);
      OlderFileAt(fmt, s.older, s.first, k, seg);
      LogFileReads(fmt, seg.first, LogIn(fmt, seg.file), seg.file);
      SyncedFileOk(fmt, seg.first, seg.file);
    }
  }

  lemma RotatingHasFd(fmt: Format, s: World)
    requires Inv(fmt, s) && s.proc.Up? && s.proc.phase.Rotating?
    ensures s.proc == Up(s.proc.w, true, Rotating, s.proc.booted)
  {}

  lemma DoWriteIs(fmt: Format, s: World, n: nat, w: Wal, done: nat, booted: bool, next: seq<byte>)
    requires CanWrite(fmt, s, n) && s.proc == Up(w, true, Writing(done), booted)
    requires next == s.file + Flat(fmt.codec, w.batch)[done..done + n]
    ensures DoWrite(fmt, s, n) == s.(file := next, proc := Up(w, true, Writing(done + n), booted))
  {}

  lemma WriteStepKeeps(fmt: Format, s: World, n: nat)
    requires Good(fmt) && Inv(fmt, s) && CanWrite(fmt, s, n)
    ensures Inv(fmt, DoWrite(fmt, s, n))
  {
    var w, done, booted := s.proc.w, s.proc.phase.done, s.proc.booted;
    var next := s.file + Flat(fmt.codec, w.batch)[done..done + n];
    DoWriteIs(fmt, s, n, w, done, booted, next);
    WriteKeeps(fmt, s, n, w, done, booted, next, s.(file := next, proc := Up(w, true, Writing(done + n), booted)));
  }

  lemma SyncStepKeeps(fmt: Format, s: World)
    requires Good(fmt) && Inv(fmt, s) && CanSync(fmt, s)
    ensures Inv(fmt, DoSynced(fmt, s))
  {
    var t := DoSynced(fmt, s);
    SyncedKeeps(fmt, s, s.proc.w, s.proc.booted, t.proc.w, t.proc.phase, t);
  }

  lemma RotateStepKeeps(fmt: Format, s: World, created: bool, entrySynced: bool)
    requires Good(fmt) && Inv(fmt, s) && s.proc.Up? && s.proc.phase.Rotating?
    ensures Inv(fmt, DoRotate(s, created, entrySynced))
  {
    RotatingHasFd(fmt, s);
    RotateKeeps(fmt, s, created, entrySynced, DoRotate(s, created, entrySynced), s.proc.w, s.proc.booted);
  }

  /** Every step keeps the invariant. */
  lemma StepKeepsInv(fmt: Format, s: World, step: Step)
    requires Good(fmt) && Inv(fmt, s) && Enabled(fmt, s, step)
    ensures Inv(fmt, Apply(fmt, s, step))
  {
    match step
    case Open(src, flags, created, entrySynced) => OpenKeeps(fmt, s, src, flags, created, entrySynced);
    case Truncated => TruncatedKeeps(fmt, s);
    case AddRec(kind, src, t, body, now) =>
      AddKeeps(fmt, s, kind, src, t, body, now, Add(fmt, s.proc.w, kind, src, t, body, now).1);
    case StartCommit(now) => CommitKeeps(fmt, s, now);
    case Write(n) => WriteStepKeeps(fmt, s, n);
    case Synced => SyncStepKeeps(fmt, s);
    case Failed => FailedKeeps(fmt, s);
    case Rotate(created, entrySynced) => RotateStepKeeps(fmt, s, created, entrySynced);
    case Exit => ExitKeeps(fmt, s);
    case PowerCut(left, lost) => if lost == 0 { CutKeeps(fmt, s, left); } else { LoseKeeps(fmt, s, lost); }
  }
}
