/** What a restart skips, when that is right, what it loses or repeats when it is not, and what the finished
    theorem says of each ring. */
module Restart {
  import opened Crc
  import opened Bytes
  import opened Framing
  import opened Log
  import opened Record
  import opened LogFormat
  import opened Wal
  import opened World
  import opened Tallies
  import opened Sources
  import opened Storaged
  import opened Exactly

  // ------------------------------------------------------------------ the places a log gives

  /** The k-th record notes another generation of ring ns than the one before it. */
  predicate Changes(fmt: Format, rs: seq<Rec>, ns: nat, k: nat)
    requires ns < 2 && k < |rs|
  {
    var w := fmt.view(rs[k]).what;
    w.RingGen? && w.ns == ns && w.gen != TallyOf(fmt, rs[..k]).gen.At(ns)
  }

  predicate Places(fmt: Format, rs: seq<Rec>, ns: nat, k: nat)
    requires k < |rs|
  {
    fmt.view(rs[k]).what.RingSeq? && fmt.view(rs[k]).what.ns == ns
  }

  /** The j-th record names a place of ring ns, and after it comes neither another place nor another
      generation. */
  ghost predicate LastPlace(fmt: Format, rs: seq<Rec>, ns: nat, j: nat)
    requires ns < 2
  {
    && j < |rs| && Places(fmt, rs, ns, j)
    && forall k :: j < k < |rs| ==> !Places(fmt, rs, ns, k) && !Changes(fmt, rs, ns, k)
  }

  /** p is one more than the last slot named since the generation last changed, or 0 when none has been. */
  ghost predicate PlaceIs(fmt: Format, rs: seq<Rec>, ns: nat, p: nat)
    requires ns < 2
  {
    && (p > 0 ==> exists j: nat :: LastPlace(fmt, rs, ns, j))
    && forall j: nat :: LastPlace(fmt, rs, ns, j) ==> p == fmt.view(rs[j]).what.ring + 1
  }

  /** The tally's place is that. */
  lemma {:induction false} PlaceSays(fmt: Format, rs: seq<Rec>, ns: nat)
    requires ns < 2
    ensures PlaceIs(fmt, rs, ns, TallyOf(fmt, rs).place.At(ns))
    decreases |rs|
  {
    if rs != [] {
      var n := |rs| - 1;
      PlaceSays(fmt, rs[..n], ns);
      PlaceStep(fmt, rs, ns, n, TallyOf(fmt, rs[..n]).place.At(ns), TallyOf(fmt, rs).place.At(ns));
    }
  }

  lemma LastPlaceBefore(fmt: Format, rs: seq<Rec>, ns: nat, n: nat, j: nat)
    requires ns < 2 && |rs| == n + 1 && j < n
    ensures LastPlace(fmt, rs, ns, j)
            <==> LastPlace(fmt, rs[..n], ns, j) && !Places(fmt, rs, ns, n) && !Changes(fmt, rs, ns, n)
  {
    forall k | 0 <= k < n
      ensures Places(fmt, rs[..n], ns, k) == Places(fmt, rs, ns, k) && Changes(fmt, rs[..n], ns, k) == Changes(fmt, rs, ns, k)
    {
      assert rs[..n][..k] == rs[..k];
    }
  }

  lemma PlaceStep(fmt: Format, rs: seq<Rec>, ns: nat, n: nat, was: nat, now: nat)
    requires ns < 2 && |rs| == n + 1 && PlaceIs(fmt, rs[..n], ns, was)
    requires now == if Places(fmt, rs, ns, n) then fmt.view(rs[n]).what.ring + 1 else if Changes(fmt, rs, ns, n) then 0 else was
    ensures PlaceIs(fmt, rs, ns, now)
  {
    forall j: nat | j < n
      ensures LastPlace(fmt, rs, ns, j)
              <==> LastPlace(fmt, rs[..n], ns, j) && !Places(fmt, rs, ns, n) && !Changes(fmt, rs, ns, n)
    {
      LastPlaceBefore(fmt, rs, ns, n, j);
    }
    if Places(fmt, rs, ns, n) {
      assert LastPlace(fmt, rs, ns, n);
    } else if now > 0 {
      var j: nat :| LastPlace(fmt, rs[..n], ns, j);
      assert LastPlace(fmt, rs, ns, j);
    }
  }

  // ------------------------------------------------------------------ the skip point and the log

  /** In a log of one segment: the skip point is the number of slots the log holds exactly when its last
      generation note is of another ring, or a slot has been named since the generation last changed, or
      none was ever named. */
  lemma SkipPointIsLogged(fmt: Format, file: seq<byte>, ring: Ring, ns: nat)
    requires ns < 2
    ensures var t := TallyOf(fmt, Committed(fmt.codec, fmt.view, file));
            SkipPoint(ScanOf(fmt.codec, fmt.view, file), ring.gen, ns) == Logged(t, ring, ns)
            <==> t.gen.At(ns) != ring.gen || t.place.At(ns) > 0 || !t.noted.At(ns)
  {
    TallyIsScan(fmt, file);
    PlaceIsLast(fmt, Committed(fmt.codec, fmt.view, file), ns);
  }

  /** The newest segment names this ring and a place. */
  predicate Speaks(scan: Scan, gen: u64, ns: nat)
    requires ns < 2
  {
    scan.ringGen.At(ns) == gen && scan.hasRingSeq.At(ns)
  }

  /** In any directory: the skip point, which is read off the newest segment, is the number of slots the
      whole log holds exactly when that segment names this ring and a place if the log holds slots of the
      ring, and does not if the log holds none. One half fails after rotation, the other after a ring is
      made anew. */
  lemma SkipPointIsLoggedInDirectory(fmt: Format, older: seq<Rec>, file: seq<byte>, ring: Ring, ns: nat)
    requires ns < 2
    ensures var t := TallyOf(fmt, older + Committed(fmt.codec, fmt.view, file));
            var scan := ScanOf(fmt.codec, fmt.view, file);
            SkipPoint(scan, ring.gen, ns) == Logged(t, ring, ns) <==> (Logged(t, ring, ns) > 0 <==> Speaks(scan, ring.gen, ns))
  {
    TallyIsScan(fmt, file);
    TallyJoins(fmt, older, Committed(fmt.codec, fmt.view, file), ns);
    PlaceIsLast(fmt, older + Committed(fmt.codec, fmt.view, file), ns);
  }

  lemma SkipSetSkips(ring: Ring, ns: nat, w: Wal, slotSeq: nat)
    requires ns < 2
    ensures Skips(SkipSet(Fresh(true), ring, ns, w), slotSeq) <==> slotSeq < SkipPoint(w.recovered, ring.gen, ns)
  {}

  /** Of the slots from the tail on, now or later, the source skips exactly those the log holds. */
  ghost predicate SkipsRight(ring: Ring, src: Source, held: nat) {
    forall i: nat :: ring.tail <= i ==> (Skips(src, i) <==> i < held)
  }

  lemma RightIsSkipsRight(ring: Ring, ns: nat, w: Wal, held: nat)
    requires ns < 2
    ensures SkipsRight(ring, SkipSet(Fresh(true), ring, ns, w), held) <==> Right(w.recovered, ring, ns, held)
  {
    var k, src := SkipPoint(w.recovered, ring.gen, ns), SkipSet(Fresh(true), ring, ns, w);
    forall i: nat ensures Skips(src, i) <==> i < k { SkipSetSkips(ring, ns, w, i); }
    if !Right(w.recovered, ring, ns, held) {
      var i := if k < held then (if k <= ring.tail then ring.tail else k) else if held <= ring.tail then ring.tail else held;
      assert ring.tail <= i && (Skips(src, i) <==> !(i < held));
    }
  }

  /** A restart, on any directory, whatever its older segments and rings: it loses no unread slot and repeats
      none exactly when the newest segment names this ring and a place if the log holds slots of the ring
      and does not if it holds none; or when neither what it skips nor what the log holds reaches the unread
      slots. */
  lemma SkipsRightExactly(fmt: Format, older: seq<Rec>, file: seq<byte>, ring: Ring, ns: nat, w: Wal)
    requires ns < 2 && Found(fmt, w, file)
    ensures var t := TallyOf(fmt, older + Committed(fmt.codec, fmt.view, file));
            SkipsRight(ring, SkipSet(Fresh(true), ring, ns, w), Logged(t, ring, ns))
            <==> (Logged(t, ring, ns) > 0 <==> Speaks(w.recovered, ring.gen, ns))
                 || (Logged(t, ring, ns) <= ring.tail && SkipPoint(w.recovered, ring.gen, ns) <= ring.tail)
  {
    var t := TallyOf(fmt, older + Committed(fmt.codec, fmt.view, file));
    RightIsSkipsRight(ring, ns, w, Logged(t, ring, ns));
    SkipPointIsLoggedInDirectory(fmt, older, file, ring, ns);
  }

  // ------------------------------------------------------------------ a stale place loses slots

  function Plain(kind: u16, seqNo: u64, body: seq<byte>): Rec { Rec(kind, seqNo, 0, 0, 1, 0, 0, 1, body) }

  function RingNote(seqNo: u64, code: u16, v: u64): Rec { Plain(EVENT, seqNo, EventBody(code, EventText(code, 0, v))) }

  /** A batch: records, then a ring note. */
  function NoteBatch(seqNo: u64, txn: u64, inner: seq<Rec>, note: Rec): seq<Rec> {
    [Plain(BEGIN, seqNo, Put8(txn))] + (inner + [note]) + [Plain(COMMIT, U64(seqNo + 2), Put8(txn) + Put4(0) + Put4(0))]
  }

  predicate Samples(rs: seq<Rec>) { forall i :: 0 <= i < |rs| ==> rs[i].kind == SAMPLE && ValidRec(rs[i]) }

  /** An older ring's generation, its samples with its place, a new ring's generation. */
  function StaleLog(samples: seq<Rec>): seq<Rec> {
    NoteBatch(0, 1, [], RingNote(1, EV_RING_GEN, 1)) + NoteBatch(3, 2, samples, RingNote(4, EV_RING_SEQ, 5))
    + NoteBatch(6, 3, [], RingNote(7, EV_RING_GEN, 2))
  }

  lemma RingNoteReads(fmt: Format, seqNo: u64, code: u16, v: u64)
    requires Good(fmt) && (code == EV_RING_GEN || code == EV_RING_SEQ)
    ensures var r := RingNote(seqNo, code, v);
            ValidRec(r) && fmt.codec.valid(r) && fmt.view(r).what == if code == EV_RING_GEN then RingGen(0, v) else RingSeq(0, v)
  {
    var r := RingNote(seqNo, code, v);
    NoteTextShort(fmt, code, 0, v);
    assert ReadsNote(fmt, r, 0, v) && MarksOf(fmt, r);
  }

  lemma NoteBatchIsWhole(fmt: Format, seqNo: u64, txn: u64, inner: seq<Rec>, note: Rec)
    requires Good(fmt) && Samples(inner) && note.kind == EVENT && ValidRec(note)
    ensures AllValid(fmt.codec, NoteBatch(seqNo, txn, inner, note)) && WholeBatch(Items(fmt.view, NoteBatch(seqNo, txn, inner, note)))
  {
    var b, c := Plain(BEGIN, seqNo, Put8(txn)), Plain(COMMIT, U64(seqNo + 2), Put8(txn) + Put4(0) + Put4(0));
    assert c.body[..8] == Put8(txn);
    assert MarksOf(fmt, b) && MarksOf(fmt, c) && MarksOf(fmt, note);
    forall i | 0 <= i < |inner| ensures fmt.codec.valid(inner[i]) { assert MarksOf(fmt, inner[i]); }
    MarkedBatchIsWhole(fmt, b, inner + [note], c, txn);
  }

  /** What a batch with one note adds to a tally. */
  lemma {:induction false} SamplesTally(fmt: Format, log: seq<Rec>, inner: seq<Rec>)
    requires Good(fmt) && Samples(inner)
    ensures var t, d := TallyOf(fmt, log), TallyOf(fmt, log + inner);
            d.gen == t.gen && d.place == t.place && d.noted == t.noted && d.last == t.last
    decreases |inner|
  {
    if inner == [] {
      assert log + inner == log;
    } else {
      var init, r := inner[..|inner| - 1], inner[|inner| - 1];
      SamplesTally(fmt, log, init);
      TallySnoc(fmt, log + init, r, log + inner);
      assert MarksOf(fmt, r);
    }
  }

  lemma NoteBatchTally(fmt: Format, log: seq<Rec>, seqNo: u64, txn: u64, inner: seq<Rec>, note: Rec, all: seq<Rec>)
    requires Good(fmt) && Samples(inner) && all == log + NoteBatch(seqNo, txn, inner, note)
    ensures var t, d := Count(TallyOf(fmt, log), fmt.view(note).what), TallyOf(fmt, all);
            d.gen == t.gen && d.place == t.place && d.noted == t.noted && d.last == t.last
  {
    var b, c := Plain(BEGIN, seqNo, Put8(txn)), Plain(COMMIT, U64(seqNo + 2), Put8(txn) + Put4(0) + Put4(0));
    assert MarksOf(fmt, b) && MarksOf(fmt, c);
    MarkedTally(fmt, log, b, inner, note, c);
    InOrder(log, b, inner, note, c);
  }

  lemma InOrder(log: seq<Rec>, b: Rec, inner: seq<Rec>, note: Rec, c: Rec)
    ensures log + ([b] + (inner + [note]) + [c]) == log + [b] + inner + [note] + [c]
  {}

  lemma MarkedTally(fmt: Format, log: seq<Rec>, b: Rec, inner: seq<Rec>, note: Rec, c: Rec)
    requires Good(fmt) && Samples(inner) && fmt.view(b).what.Begin? && fmt.view(c).what.Commit?
    ensures var t, d := Count(TallyOf(fmt, log), fmt.view(note).what), TallyOf(fmt, log + [b] + inner + [note] + [c]);
            d.gen == t.gen && d.place == t.place && d.noted == t.noted && d.last == t.last
  {
    var two := log + [b] + inner;
    TallySnoc(fmt, log, b, log + [b]);
    SamplesTally(fmt, log + [b], inner);
    NoteEnds(fmt, TallyOf(fmt, log), two, note, c);
  }

  lemma NoteEnds(fmt: Format, was: Tally, log: seq<Rec>, note: Rec, c: Rec)
    requires fmt.view(c).what.Commit?
    requires var t := TallyOf(fmt, log); t.gen == was.gen && t.place == was.place && t.noted == was.noted && t.last == was.last
    ensures var t, d := Count(was, fmt.view(note).what), TallyOf(fmt, log + [note] + [c]);
            d.gen == t.gen && d.place == t.place && d.noted == t.noted && d.last == t.last
  {
    TallySnoc(fmt, log, note, log + [note]);
    TallySnoc(fmt, log + [note], c, log + [note] + [c]);
  }

  lemma StaleLogReads(fmt: Format, samples: seq<Rec>)
    requires Good(fmt) && Samples(samples)
    ensures Committed(fmt.codec, fmt.view, Flat(fmt.codec, StaleLog(samples))) == StaleLog(samples)
  {
    var g1, q, g2 := RingNote(1, EV_RING_GEN, 1), RingNote(4, EV_RING_SEQ, 5), RingNote(7, EV_RING_GEN, 2);
    var a, b, c := NoteBatch(0, 1, [], g1), NoteBatch(3, 2, samples, q), NoteBatch(6, 3, [], g2);
    RingNoteReads(fmt, 1, EV_RING_GEN, 1);
    RingNoteReads(fmt, 4, EV_RING_SEQ, 5);
    RingNoteReads(fmt, 7, EV_RING_GEN, 2);
    NoteBatchIsWhole(fmt, 0, 1, [], g1);
    NoteBatchIsWhole(fmt, 3, 2, samples, q);
    NoteBatchIsWhole(fmt, 6, 3, [], g2);
    ThreeBatchesRead(fmt, a, b, c);
  }

  lemma ThreeBatchesRead(fmt: Format, a: seq<Rec>, b: seq<Rec>, c: seq<Rec>)
    requires Good(fmt) && AllValid(fmt.codec, a) && AllValid(fmt.codec, b) && AllValid(fmt.codec, c)
    requires WholeBatch(Items(fmt.view, a)) && WholeBatch(Items(fmt.view, b)) && WholeBatch(Items(fmt.view, c))
    ensures Committed(fmt.codec, fmt.view, Flat(fmt.codec, a + b + c)) == a + b + c
  {
    WholeBatchIsClosed(Items(fmt.view, a));
    ClosedRecords(fmt, a, b);
    ClosedRecords(fmt, a + b, c);
    ValidAppend(fmt, a, b);
    ValidAppend(fmt, a + b, c);
    ClosedLogReads(fmt, a + b + c);
  }

  lemma ClosedLogReads(fmt: Format, log: seq<Rec>)
    requires Good(fmt) && AllValid(fmt.codec, log) && Closed(Items(fmt.view, log))
    ensures Committed(fmt.codec, fmt.view, Flat(fmt.codec, log)) == log
  {
    ParseOfFlat(fmt.codec, log, []);
    NothingDecodesEmpty(fmt.codec);
    assert Flat(fmt.codec, log) + [] == Flat(fmt.codec, log) && log + [] == log;
    assert log[..|log|] == log;
  }

  lemma StaleLogTally(fmt: Format, samples: seq<Rec>)
    requires Good(fmt) && Samples(samples)
    ensures var t := TallyOf(fmt, StaleLog(samples));
            t.gen.car == 2 && t.place.car == 0 && t.noted.car && t.last.car == 5
  {
    var g1, q, g2 := RingNote(1, EV_RING_GEN, 1), RingNote(4, EV_RING_SEQ, 5), RingNote(7, EV_RING_GEN, 2);
    RingNoteReads(fmt, 1, EV_RING_GEN, 1);
    RingNoteReads(fmt, 4, EV_RING_SEQ, 5);
    RingNoteReads(fmt, 7, EV_RING_GEN, 2);
    ThreeNotesTally(fmt, samples, g1, q, g2);
  }

  lemma ThreeNotesTally(fmt: Format, samples: seq<Rec>, g1: Rec, q: Rec, g2: Rec)
    requires Good(fmt) && Samples(samples)
    requires fmt.view(g1).what == RingGen(0, 1) && fmt.view(q).what == RingSeq(0, 5) && fmt.view(g2).what == RingGen(0, 2)
    ensures var t := TallyOf(fmt, NoteBatch(0, 1, [], g1) + NoteBatch(3, 2, samples, q) + NoteBatch(6, 3, [], g2));
            t.gen.car == 2 && t.place.car == 0 && t.noted.car && t.last.car == 5
  {
    var a, b, c := NoteBatch(0, 1, [], g1), NoteBatch(3, 2, samples, q), NoteBatch(6, 3, [], g2);
    assert [] + a == a;
    NoteBatchTally(fmt, [], 0, 1, [], g1, a);
    NoteBatchTally(fmt, a, 3, 2, samples, q, a + b);
    NoteBatchTally(fmt, a + b, 6, 3, [], g2, a + b + c);
  }

  lemma StaleLogSkips(fmt: Format, samples: seq<Rec>, w: Wal, file: seq<byte>, ring: Ring)
    requires Good(fmt) && Samples(samples) && ring.gen == 2 && file == Flat(fmt.codec, StaleLog(samples)) && Found(fmt, w, file)
    ensures Committed(fmt.codec, fmt.view, file) == StaleLog(samples)
    ensures Logged(TallyOf(fmt, StaleLog(samples)), ring, 0) == 0 && SkipPoint(w.recovered, 2, 0) == 6
  {
    StaleLogReads(fmt, samples);
    StaleLogTally(fmt, samples);
    TallyIsScan(fmt, file);
  }

  /** The failing log. storaged has drained an older ring up to slot 5 and logged it; the ring is made anew;
      storaged starts, notes the new generation and is killed before its first batch. On that file the next
      start skips slots 0 to 5 of the new ring, and the log holds none of them: all six are lost. */
  lemma StaleNoteLosesSlots(samples: seq<Rec>, ring: Ring, w: Wal, file: seq<byte>)
    requires Samples(samples) && ring.gen == 2 && file == Flat(CWR1.codec, StaleLog(samples)) && Found(CWR1, w, file)
    ensures Committed(CWR1.codec, CWR1.view, file) == StaleLog(samples)
    ensures Logged(TallyOf(CWR1, StaleLog(samples)), ring, 0) == 0
    ensures forall i: nat :: Skips(SkipSet(Fresh(true), ring, 0, w), i) <==> i < 6
  {
    Cwr1IsGood();
    StaleLogSkips(CWR1, samples, w, file, ring);
    forall i: nat ensures Skips(SkipSet(Fresh(true), ring, 0, w), i) <==> i < 6 { SkipSetSkips(ring, 0, w, i); }
  }

  // ------------------------------------------------------------------ rotation repeats slots

  /** A batch that fills the segment, a rotation that succeeds, and a kill before the release: the new segment
      names no ring, so the next start skips nothing, and of the unread slots it will add again exactly those
      the log holds, which of a ring that gave the batch samples are the slots the batch took. */
  lemma RotationRepeatsSlots(fmt: Format, org: Origin, s: State, src: u8, flags: u8, ns: nat, t: State, u: State)
    requires Good(fmt) && Exact(fmt, org, s) && s.pc == Full(Batch) && SrcOk(src) && ns < 2
    requires s.rings.At(ns).gen != 0 && Storaged.Enabled(fmt, s, NewSegment(true, true))
    requires t == Storaged.Apply(fmt, s, NewSegment(true, true)) && !t.pc.Off? && u == Storaged.Apply(fmt, t, Kill)
    ensures var next, ring, batch := DoOpen(fmt, u.world, src, flags, true, true), s.rings.At(ns), s.srcs.At(ns);
            && u.rings == s.rings && next.proc.Up?
            && (forall i: nat :: !Skips(SkipSet(Fresh(true), ring, ns, next.proc.w), i))
            && (batch.added ==> Logged(Left(fmt, next, next.file), ring, ns) == ring.tail + batch.taken > ring.tail)
  {
    ExactFull(fmt, org, s, Batch);
    KilledWorld(fmt, s, t, u);
    KilledAfterRotation(fmt, org, s, t.world, u.world);
    var next := DoOpen(fmt, u.world, src, flags, true, true);
    ReopensEmpty(fmt, u.world, src, flags, next);
    NothingSkipped(s.rings.At(ns), ns, next.proc.w);
    if s.srcs.At(ns).added { BatchHeld(Left(fmt, next, next.file), s.rings, s.srcs, ns); }
  }

  lemma KilledWorld(fmt: Format, s: State, t: State, u: State)
    requires s.pc.Full? && s.world.proc.Up? && s.world.proc.phase.Rotating?
    requires t == Storaged.Apply(fmt, s, NewSegment(true, true)) && !t.pc.Off? && u == Storaged.Apply(fmt, t, Kill)
    ensures u.rings == s.rings && t.world == DoRotate(s.world, true, true) && u.world == t.world.(proc := Down)
  {}

  lemma NothingSkipped(ring: Ring, ns: nat, w: Wal)
    requires ns < 2 && w.recovered.ringGen == Ns(0, 0) && ring.gen != 0
    ensures forall i: nat :: !Skips(SkipSet(Fresh(true), ring, ns, w), i)
  {
    forall i: nat ensures !Skips(SkipSet(Fresh(true), ring, ns, w), i) { SkipSetSkips(ring, ns, w, i); }
  }

  lemma BatchHeld(t: Tally, rings: Ns<Ring>, srcs: Ns<Source>, ns: nat)
    requires ns < 2 && Releases(t, rings, srcs, 0) && srcs.At(ns).added
    ensures Logged(t, rings.At(ns), ns) == rings.At(ns).tail + srcs.At(ns).taken > rings.At(ns).tail
  {}

  lemma KilledAfterRotation(fmt: Format, org: Origin, s: State, t: World, u: World)
    requires Good(fmt) && Safe(fmt, org, s.world, s.rings) && FullInv(fmt, s.world, s.rings, s.srcs, Batch)
    requires t == DoRotate(s.world, true, true) && u == t.(proc := Down)
    ensures u.made && u.file == [] && Left(fmt, u, u.file) == Behind(fmt, s.world)
    ensures Releases(Left(fmt, u, u.file), s.rings, s.srcs, 0)
  {
    RotatedTallies(fmt, s.world, true, true, t);
    RotatedFile(fmt, s.world, true, true, t);
  }

  lemma ReopensEmpty(fmt: Format, s: World, src: u8, flags: u8, next: World)
    requires Good(fmt) && s.made && s.file == [] && next == DoOpen(fmt, s, src, flags, true, true)
    ensures next.proc.Up? && next.file == [] && next.older == s.older
    ensures next.proc.w.recovered.ringGen == Ns(0, 0)
  {
    NothingDecodesEmpty(fmt.codec);
  }

  // ------------------------------------------------------------------ what exactly-once means for a reader

  /** In a segment that names places of these rings only, the place the scan gives for a ring is the number of
      its slots the segment holds. */
  lemma ScanGivesPlace(fmt: Format, org: Origin, file: seq<byte>, rings: Ns<Ring>, ns: nat)
    requires ns < 2 && org.named && ExactlyOnce(org, TallyOf(fmt, Committed(fmt.codec, fmt.view, file)), rings)
    ensures SkipPoint(ScanOf(fmt.codec, fmt.view, file), rings.At(ns).gen, ns)
            == Logged(TallyOf(fmt, Committed(fmt.codec, fmt.view, file)), rings.At(ns), ns)
  {
    TallyIsScan(fmt, file);
    PlaceIsLast(fmt, Committed(fmt.codec, fmt.view, file), ns);
  }

  /** Each producer keeps to its mode: the car's slots have one, the box's have mode 0. */
  ghost predicate ModesKept(rings: Ns<Ring>) {
    && (forall i :: 0 <= i < |rings.car.accepted| ==> rings.car.accepted[i].mode != 0)
    && (forall i :: 0 <= i < |rings.box.accepted| ==> rings.box.accepted[i].mode == 0)
  }

  lemma FirstKeepsMode(ring: Ring, n: nat, box: bool)
    requires n <= |ring.accepted| && forall i :: 0 <= i < |ring.accepted| ==> (ring.accepted[i].mode == 0) == box
    ensures forall i :: 0 <= i < |First(ring, n)| ==> IsBox(First(ring, n)[i]) == box
  {
    forall i | 0 <= i < n ensures IsBox(First(ring, n)[i]) == box {
      assert First(ring, n)[i] == ReadingOf(ring.accepted[i]);
    }
  }

  /** Over any run from an empty directory and new rings that begins no second segment: a file any kill or
      power cut leaves holds, namespace by namespace, precisely the readings of the first slots of that ring,
      in order, as many as its scan says, with every released slot among them. */
  lemma EachRingOnceInOrder(fmt: Format, s: State, moves: seq<Move>, file: seq<byte>, t: State)
    requires Good(fmt) && s.world == EMPTY && s.pc.Off? && s.rings.car.tail == 0 && s.rings.box.tail == 0
    requires Sound(s.rings.car) && Sound(s.rings.box) && Exactly.CanRun(fmt, s, moves) && OneSegment(moves)
    requires t == Run(fmt, s, moves) && ModesKept(t.rings) && Leaves(t.world, file)
    ensures var samples := TallyOf(fmt, Committed(fmt.codec, fmt.view, file)).samples;
            var scan := ScanOf(fmt.codec, fmt.view, file);
            var car, box := SkipPoint(scan, t.rings.car.gen, 0), SkipPoint(scan, t.rings.box.gen, 1);
            && t.rings.car.tail <= car <= |t.rings.car.accepted| && Only(false, samples) == Readings(t.rings.car.accepted[..car])
            && t.rings.box.tail <= box <= |t.rings.box.accepted| && Only(true, samples) == Readings(t.rings.box.accepted[..box])
  {
    EmptyBegins(fmt, s);
    LoggedExactlyOnce(fmt, [], s, moves, file);
    OnceInOrder(fmt, file, t.rings);
  }

  lemma OnceInOrder(fmt: Format, file: seq<byte>, rings: Ns<Ring>)
    requires ExactlyOnce(Origin([], true, true), TallyOf(fmt, Committed(fmt.codec, fmt.view, file)), rings) && ModesKept(rings)
    ensures var samples := TallyOf(fmt, Committed(fmt.codec, fmt.view, file)).samples;
            var scan := ScanOf(fmt.codec, fmt.view, file);
            var car, box := SkipPoint(scan, rings.car.gen, 0), SkipPoint(scan, rings.box.gen, 1);
            && rings.car.tail <= car <= |rings.car.accepted| && Only(false, samples) == Readings(rings.car.accepted[..car])
            && rings.box.tail <= box <= |rings.box.accepted| && Only(true, samples) == Readings(rings.box.accepted[..box])
  {
    var tally := TallyOf(fmt, Committed(fmt.codec, fmt.view, file));
    ScanGivesPlace(fmt, Origin([], true, true), file, rings, 0);
    ScanGivesPlace(fmt, Origin([], true, true), file, rings, 1);
    var car, box := Logged(tally, rings.car, 0), Logged(tally, rings.box, 1);
    FirstKeepsMode(rings.car, car, false);
    FirstKeepsMode(rings.box, box, true);
    MergedSeparates(tally.samples, First(rings.car, car), First(rings.box, box));
  }

  lemma EmptyBegins(fmt: Format, s: State)
    requires Good(fmt) && s.world == EMPTY && s.pc.Off? && s.rings.car.tail == 0 && s.rings.box.tail == 0
    requires Sound(s.rings.car) && Sound(s.rings.box)
    ensures FreshSegment(fmt, [], s)
  {
    EmptyInv(fmt);
    NothingDecodesEmpty(fmt.codec);
  }
}
