/** A ring made anew while storaged is down, and the slots its next starts then lose: a run of the machine. */
module Renewal {
  import opened Crc
  import opened Bytes
  import opened Framing
  import opened Log
  import opened Record
  import opened LogFormat
  import opened Wal
  import opened World
  import opened Tallies
  import opened Sources
  import opened Storaged
  import opened Exactly
  import Durability
  import Restart

  /** Ring ns made anew between two sessions of storaged: another generation, and no slot yet. */
  function Renewed(s: State, ns: nat, gen: u64): State
    requires ns < 2
  {
    s.(rings := s.rings.Set(ns, Ring(gen, [], 0)))
  }

  // ------------------------------------------------------------------ runs, one after the other

  lemma {:induction false} RunOn(fmt: Format, s: State, a: seq<Move>, b: seq<Move>)
    requires Exactly.CanRun(fmt, s, a) && Exactly.CanRun(fmt, Run(fmt, s, a), b)
    ensures Exactly.CanRun(fmt, s, a + b) && Run(fmt, s, a + b) == Run(fmt, Run(fmt, s, a), b)
    decreases |a|
  {
    if a == [] {
      assert a + b == b;
    } else {
      assert (a + b)[0] == a[0] && (a + b)[1..] == a[1..] + b;
      RunOn(fmt, Storaged.Apply(fmt, s, a[0]), a[1..], b);
    }
  }

  lemma OneMove(fmt: Format, s: State, m: Move)
    requires Storaged.Enabled(fmt, s, m)
    ensures Exactly.CanRun(fmt, s, [m]) && Run(fmt, s, [m]) == Storaged.Apply(fmt, s, m)
  {
    assert [m][1..] == [];
    assert Exactly.CanRun(fmt, Storaged.Apply(fmt, s, m), []);
  }

  lemma RunThen(fmt: Format, s: State, a: seq<Move>, t: State, m: Move)
    requires Exactly.CanRun(fmt, s, a) && Run(fmt, s, a) == t && Storaged.Enabled(fmt, t, m)
    ensures Exactly.CanRun(fmt, s, a + [m]) && Run(fmt, s, a + [m]) == Storaged.Apply(fmt, t, m)
  {
    OneMove(fmt, t, m);
    RunOn(fmt, s, a, [m]);
  }

  // ------------------------------------------------------------------ a record committed on its own

  /** storaged is about to commit the goal's record, with no batch open. */
  ghost predicate AtGoal(fmt: Format, s: State, goal: Goal, w: Wal, booted: bool) {
    && Good(fmt) && Inv(fmt, s.world) && s.pc == Preparing(goal) && (goal.Boot? || goal == Generation(0))
    && s.world.proc == Up(w, true, Idle, booted) && !w.openBatch
  }

  lemma GoalSeals(fmt: Format, s: State, goal: Goal, now: Clock, w: Wal, booted: bool, v: Wal)
    requires AtGoal(fmt, s, goal, w, booted) && v == AddGoal(fmt, s, goal, now, now).1
    ensures AddGoal(fmt, s, goal, now, now).0 && v.openBatch && BatchOk(fmt, w) && BatchOk(fmt, v) && SrcOk(v.src)
    ensures BufLen(fmt, v) <= 125 && v.segBytes == w.segBytes && v.recovered == w.recovered
  {
    InvToUp(fmt, s.world);
    assert w.batch == [] && BufLen(fmt, w) == 0;
    if goal.Boot? {
      AddTakes(fmt, w, BOOT, w.src, now, BootBody(w), now);
      AddFacts(fmt, w, BOOT, w.src, now, BootBody(w), now);
    } else {
      NoteIsTaken(fmt, w, EV_RING_GEN, 0, s.rings.car.gen, now, now);
      AddFacts(fmt, w, EVENT, w.src, now, EventBody(EV_RING_GEN, EventText(EV_RING_GEN, 0, s.rings.car.gen)), now);
    }
  }

  lemma SealSizes(fmt: Format, v: Wal, now: Clock, u: Wal)
    requires Good(fmt) && BatchOk(fmt, v) && v.openBatch && SrcOk(v.src) && Seal(fmt, v, now) == Some(u)
    ensures SealedOk(fmt, u) && BufLen(fmt, u) == BufLen(fmt, v) + COMMIT_SIZE
    ensures u.segBytes == v.segBytes && u.recovered == v.recovered
  {
    SealNeverFails(fmt, v, now);
    AppendFacts(fmt, v, COMMIT, v.src, now, Put8(v.nextTxn) + Put4(v.batchSamples) + Put4(0));
  }

  /** What a commit for the goal adds to a tally. */
  function WithGoal(t: Tally, goal: Goal, gen: u64): Tally { if goal.Boot? then t else Count(t, RingGen(0, gen)) }

  lemma GoalCounts(fmt: Format, s: State, goal: Goal, now: Clock, w: Wal, booted: bool, v: Wal, u: Wal, log: seq<Rec>)
    requires AtGoal(fmt, s, goal, w, booted) && v == AddGoal(fmt, s, goal, now, now).1 && Seal(fmt, v, now) == Some(u)
    ensures TallyOf(fmt, log + u.batch) == WithGoal(TallyOf(fmt, log), goal, s.rings.car.gen)
  {
    GoalSeals(fmt, s, goal, now, w, booted, v);
    SealCounts(fmt, log, v, now, u);
    assert log + w.batch == log;
    if goal.Boot? {
      PlainCounts(fmt, log, w, BOOT, w.src, now, BootBody(w), now, v);
    } else {
      NoteTextShort(fmt, EV_RING_GEN, 0, s.rings.car.gen);
      NoteCounts(fmt, log, w, EV_RING_GEN, 0, s.rings.car.gen, now, now, v);
    }
  }

  /** The goal's record is added, and the batch of it written in one piece and synced. */
  function GoalMoves(fmt: Format, u: Wal, now: Clock): seq<Move> { [Prepare(now, now), WriteSome(BufLen(fmt, u)), Sync] }

  lemma GoalPrepares(fmt: Format, s: State, goal: Goal, now: Clock, w: Wal, booted: bool, v: Wal, u: Wal, c: World)
    requires AtGoal(fmt, s, goal, w, booted) && v == AddGoal(fmt, s, goal, now, now).1 && Seal(fmt, v, now) == Some(u)
    requires c == s.world.(proc := Up(u, true, Writing(0), booted))
    ensures Storaged.Enabled(fmt, s, Prepare(now, now))
    ensures Storaged.Apply(fmt, s, Prepare(now, now)) == s.(world := c, pc := Committing(goal))
  {
    GoalSeals(fmt, s, goal, now, w, booted, v);
  }

  lemma GoalInv(fmt: Format, s: State, goal: Goal, now: Clock, w: Wal, booted: bool, v: Wal, u: Wal, c: World)
    requires AtGoal(fmt, s, goal, w, booted) && v == AddGoal(fmt, s, goal, now, now).1 && Seal(fmt, v, now) == Some(u)
    requires c == s.world.(proc := Up(u, true, Writing(0), booted))
    ensures Inv(fmt, c)
  {
    GoalSeals(fmt, s, goal, now, w, booted, v);
    if goal.Boot? {
      AddKeeps(fmt, s.world, BOOT, w.src, now, BootBody(w), now, v);
    } else {
      AddKeeps(fmt, s.world, EVENT, w.src, now, EventBody(EV_RING_GEN, EventText(EV_RING_GEN, 0, s.rings.car.gen)), now, v);
    }
    CommitKeeps(fmt, s.world.(proc := Up(v, true, Idle, booted)), now);
  }

  /** The sealed batch, written and synced, follows what was committed. */
  lemma BatchLands(fmt: Format, c: World, u: Wal, booted: bool, n: nat, x: World, y: World)
    requires Good(fmt) && Inv(fmt, c) && c.proc == Up(u, true, Writing(0), booted) && n == BufLen(fmt, u)
    requires u.segBytes == |c.file| && u.segBytes + n < SEGMENT_BYTES
    requires CanWrite(fmt, c, n) && x == DoWrite(fmt, c, n) && CanSync(fmt, x) && y == DoSynced(fmt, x)
    ensures Inv(fmt, y) && y.proc == Up(Landed(fmt, u), true, Idle, true) && y.older == c.older && y.made == c.made
    ensures |y.file| == |c.file| + n && Committed(fmt.codec, fmt.view, y.file) == LogIn(fmt, c.file) + u.batch
  {
    WriteStepKeeps(fmt, c, n);
    SyncStepKeeps(fmt, x);
    Durability.SyncedCommitted(fmt, x, u);
    assert x.file[..u.segBytes] == c.file;
  }

  lemma IdleLog(fmt: Format, s: World, w: Wal, booted: bool)
    requires Good(fmt) && Inv(fmt, s) && s.proc == Up(w, true, Idle, booted)
    ensures LogIn(fmt, s.file) == Committed(fmt.codec, fmt.view, s.file) && w.segBytes == |s.file|
  {
    InvToUp(fmt, s);
    assert s.file[..|s.file|] == s.file;
    LogFileReads(fmt, s.first, LogIn(fmt, s.file), s.file);
  }

  /** Committing the goal's record: the newest segment has its batch after what it had. */
  lemma GoalCommits(fmt: Format, s: State, goal: Goal, now: Clock, w: Wal, booted: bool, v: Wal, u: Wal) returns (y: World)
    requires AtGoal(fmt, s, goal, w, booted) && v == AddGoal(fmt, s, goal, now, now).1 && Seal(fmt, v, now) == Some(u)
    requires |s.world.file| + 200 < SEGMENT_BYTES
    ensures Inv(fmt, y) && y.proc == Up(Landed(fmt, u), true, Idle, true) && y.older == s.world.older
    ensures Exactly.CanRun(fmt, s, GoalMoves(fmt, u, now))
    ensures Run(fmt, s, GoalMoves(fmt, u, now)) == OnSuccess(s.(world := y, pc := Committing(goal)), goal)
    ensures |y.file| <= |s.world.file| + 200
    ensures Committed(fmt.codec, fmt.view, y.file) == Committed(fmt.codec, fmt.view, s.world.file) + u.batch
    ensures u.recovered == w.recovered
  {
    var n, c := BufLen(fmt, u), s.world.(proc := Up(u, true, Writing(0), booted));
    GoalSeals(fmt, s, goal, now, w, booted, v);
    SealSizes(fmt, v, now, u);
    IdleLog(fmt, s.world, w, booted);
    GoalPrepares(fmt, s, goal, now, w, booted, v, u, c);
    GoalInv(fmt, s, goal, now, w, booted, v, u, c);
    var x := DoWrite(fmt, c, n);
    y := DoSynced(fmt, x);
    BatchLands(fmt, c, u, booted, n, x, y);
    GoalRuns(fmt, s, goal, now, u, c, x, y);
  }

  lemma GoalRuns(fmt: Format, s: State, goal: Goal, now: Clock, u: Wal, c: World, x: World, y: World)
    requires Storaged.Enabled(fmt, s, Prepare(now, now))
    requires Storaged.Apply(fmt, s, Prepare(now, now)) == s.(world := c, pc := Committing(goal))
    requires CanWrite(fmt, c, BufLen(fmt, u)) && x == DoWrite(fmt, c, BufLen(fmt, u)) && CanSync(fmt, x)
    requires y == DoSynced(fmt, x) && y.proc.Up? && y.proc.phase.Idle?
    ensures Exactly.CanRun(fmt, s, GoalMoves(fmt, u, now))
    ensures Run(fmt, s, GoalMoves(fmt, u, now)) == OnSuccess(s.(world := y, pc := Committing(goal)), goal)
  {
    var a, b := Prepare(now, now), WriteSome(BufLen(fmt, u));
    OneMove(fmt, s, a);
    RunThen(fmt, s, [a], s.(world := c, pc := Committing(goal)), b);
    RunThen(fmt, s, [a] + [b], s.(world := x, pc := Committing(goal)), Sync);
    assert [a] + [b] + [Sync] == GoalMoves(fmt, u, now);
  }

  // ------------------------------------------------------------------ a start

  /** A start that finds a segment comes to the boot record, its file cut back to its last COMMIT. */
  lemma Opens(fmt: Format, s: State, src: u8, flags: u8, probe: bool) returns (moves: seq<Move>, x: World, w: Wal)
    requires Good(fmt) && Inv(fmt, s.world) && s.pc.Off? && s.world.proc.Down? && s.world.made && SrcOk(src)
    ensures Exactly.CanRun(fmt, s, moves)
    ensures Run(fmt, s, moves) == State(x, s.rings, Ns(Fresh(true), Fresh(probe)), Preparing(Boot))
    ensures Inv(fmt, x) && x.proc == Up(w, true, Idle, false) && !w.openBatch && x.older == s.world.older
    ensures |x.file| <= |s.world.file| && Committed(fmt.codec, fmt.view, x.file) == Committed(fmt.codec, fmt.view, s.world.file)
  {
    w := Opened(ScanOf(fmt.codec, fmt.view, s.world.file), s.world.first, |s.world.file|, src, flags);
    var start, next := Start(src, flags, probe, true, true), DoOpen(fmt, s.world, src, flags, true, true);
    OneMove(fmt, s, start);
    moves, x := [start], next;
    OpensWorld(fmt, s.world, src, flags, w, next);
    if next.proc.Truncating? {
      RunThen(fmt, s, [start], State(next, s.rings, Ns(Fresh(true), Fresh(probe)), Preparing(Boot)), CutBack);
      TruncatedKeeps(fmt, next);
      moves, x := [start] + [CutBack], DoTruncated(next);
    }
  }

  lemma OpensWorld(fmt: Format, s: World, src: u8, flags: u8, w: Wal, next: World)
    requires Good(fmt) && Inv(fmt, s) && s.proc.Down? && s.made && SrcOk(src)
    requires w == Opened(ScanOf(fmt.codec, fmt.view, s.file), s.first, |s.file|, src, flags)
    requires next == DoOpen(fmt, s, src, flags, true, true)
    ensures Inv(fmt, next) && (next.proc == Up(w, true, Idle, false) || next.proc == Truncating(w))
    ensures next.older == s.older && |next.file| <= |s.file|
    ensures Committed(fmt.codec, fmt.view, next.file) == Committed(fmt.codec, fmt.view, s.file)
  {
    OpenKeeps(fmt, s, src, flags, true, true);
    ScanFits(fmt, s.file);
    DoOpenIs(fmt, s, src, flags, true, true, w, CutTo(s, w.segBytes));
    CutKeepsCommitted(fmt.codec, fmt.view, s.file, w.segBytes);
  }

  // ------------------------------------------------------------------ the failing run

  /** The boot record and the generation note of ring 0 committed, one after the other. */
  lemma BootsAndNotes(fmt: Format, s: State, now: Clock, w: Wal) returns (moves: seq<Move>, y: World, b: seq<Rec>)
    requires AtGoal(fmt, s, Boot, w, false) && s.srcs == Ns(Fresh(true), Fresh(false))
    requires |s.world.file| + 400 < SEGMENT_BYTES
    ensures Exactly.CanRun(fmt, s, moves) && Run(fmt, s, moves).world == y && Run(fmt, s, moves).rings == s.rings
    ensures !Run(fmt, s, moves).pc.Off? && y.older == s.world.older && Inv(fmt, y)
    ensures Committed(fmt.codec, fmt.view, y.file) == Committed(fmt.codec, fmt.view, s.world.file) + b
    ensures forall log :: CountsGeneration(fmt, log, b, s.rings.car.gen)
  {
    var v := AddGoal(fmt, s, Boot, now, now).1;
    GoalSeals(fmt, s, Boot, now, w, false, v);
    SealNeverFails(fmt, v, now);
    var u := Seal(fmt, v, now).value;
    var x := GoalCommits(fmt, s, Boot, now, w, false, v, u);
    var s1 := OnSuccess(s.(world := x, pc := Committing(Boot)), Boot);
    var w1 := Landed(fmt, u);
    var v1 := AddGoal(fmt, s1, Generation(0), now, now).1;
    GoalSeals(fmt, s1, Generation(0), now, w1, true, v1);
    SealNeverFails(fmt, v1, now);
    var u1 := Seal(fmt, v1, now).value;
    y := GoalCommits(fmt, s1, Generation(0), now, w1, true, v1, u1);
    RunOn(fmt, s, GoalMoves(fmt, u, now), GoalMoves(fmt, u1, now));
    moves, b := GoalMoves(fmt, u, now) + GoalMoves(fmt, u1, now), u.batch + u1.batch;
    Appended(Committed(fmt.codec, fmt.view, s.world.file), u.batch, u1.batch);
    forall log ensures CountsGeneration(fmt, log, b, s.rings.car.gen) {
      GoalCounts(fmt, s, Boot, now, w, false, v, u, log);
      GoalCounts(fmt, s1, Generation(0), now, w1, true, v1, u1, log + u.batch);
      Appended(log, u.batch, u1.batch);
    }
  }

  ghost predicate CountsGeneration(fmt: Format, log: seq<Rec>, b: seq<Rec>, gen: u64) {
    TallyOf(fmt, log + b) == Count(TallyOf(fmt, log), RingGen(0, gen))
  }

  /** The failing run, from any log whose newest segment names a place of ring 0. The ring is made anew while
      storaged is down; storaged starts, commits its boot record and the new generation's note, and is killed
      before its first batch. Every start after that skips as many of the new ring's slots as the old place
      says, and the log holds none of them. */
  lemma RenewedRingLosesSlots(fmt: Format, s: State, gen: u64, src: u8, flags: u8, now: Clock, q: u64)
      returns (moves: seq<Move>)
    requires Good(fmt) && Inv(fmt, s.world) && s.pc.Off? && s.world.proc.Down? && s.world.made && SrcOk(src)
    requires var t := TallyOf(fmt, Committed(fmt.codec, fmt.view, s.world.file)); t.noted.car && t.last.car == q
    requires Left(fmt, s.world, s.world.file).gen.car != gen && |s.world.file| + 400 < SEGMENT_BYTES
    ensures Exactly.CanRun(fmt, Renewed(s, 0, gen), moves)
    ensures var t := Run(fmt, Renewed(s, 0, gen), moves);
            && t.pc.Off? && t.rings == s.rings.(car := Ring(gen, [], 0)) && Logged(Left(fmt, t.world, t.world.file), t.rings.car, 0) == 0
            && SkipPoint(ScanOf(fmt.codec, fmt.view, t.world.file), gen, 0) == q + 1
            && forall w, i: nat :: Found(fmt, w, t.world.file) ==> (Skips(SkipSet(Fresh(true), t.rings.car, 0, w), i) <==> i <= q)
  {
    var r := Renewed(s, 0, gen);
    var opens, x, w := Opens(fmt, r, src, flags, false);
    var s0 := State(x, r.rings, Ns(Fresh(true), Fresh(false)), Preparing(Boot));
    var goals, y, b := BootsAndNotes(fmt, s0, now, w);
    RunOn(fmt, r, opens, goals);
    RunThen(fmt, r, opens + goals, Run(fmt, s0, goals), Kill);
    moves := opens + goals + [Kill];
    var t := Run(fmt, r, moves);
    StaleTally(fmt, OlderLogs(fmt, s.world.older), s.world.file, b, t.world.file, gen, t.rings.car, q);
    forall w, i: nat | Found(fmt, w, t.world.file)
      ensures Skips(SkipSet(Fresh(true), t.rings.car, 0, w), i) <==> i <= q
    {
      Restart.SkipSetSkips(t.rings.car, 0, w, i);
    }
  }

  lemma StaleTally(fmt: Format, older: seq<Rec>, file: seq<byte>, b: seq<Rec>, now: seq<byte>, gen: u64, ring: Ring, q: u64)
    requires TallyOf(fmt, older + Committed(fmt.codec, fmt.view, file)).gen.car != gen && ring.gen == gen
    requires var t := TallyOf(fmt, Committed(fmt.codec, fmt.view, file)); t.noted.car && t.last.car == q
    requires Committed(fmt.codec, fmt.view, now) == Committed(fmt.codec, fmt.view, file) + b
    requires forall log :: CountsGeneration(fmt, log, b, gen)
    ensures Logged(TallyOf(fmt, older + Committed(fmt.codec, fmt.view, now)), ring, 0) == 0
    ensures SkipPoint(ScanOf(fmt.codec, fmt.view, now), gen, 0) == q + 1
  {
    var log := Committed(fmt.codec, fmt.view, file);
    assert CountsGeneration(fmt, log, b, gen) && CountsGeneration(fmt, older + log, b, gen);
    Appended(older, log, b);
    TallyIsScan(fmt, now);
  }
}
