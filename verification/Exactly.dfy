/** Exactly once: whatever the producers, the kills and the disk do, the log holds each ring's slots
    from the first to its skip point, each once and in order. */
module Exactly {
  import opened Crc
  import opened Bytes
  import opened Framing
  import opened Log
  import opened Record
  import opened LogFormat
  import opened Wal
  import opened World
  import opened Tallies
  import opened Sources
  import opened Storaged

  // ------------------------------------------------------------------ the invariant

  predicate Booted(world: World) { world.proc.Up? && world.proc.booted }

  /** With left as the newest file, the directory's log holds each ring's slots exactly once; and once the
      boot record is in, no less of them than is committed now. */
  ghost predicate CutSafe(fmt: Format, org: Origin, world: World, rings: Ns<Ring>, left: seq<byte>) {
    && ExactlyOnce(org, Left(fmt, world, left), rings)
    && (Booted(world) ==> Beyond(Behind(fmt, world), Left(fmt, world, left), rings))
  }

  /** Every file a kill or a power cut could leave now is safe in that sense. */
  ghost predicate Safe(fmt: Format, org: Origin, world: World, rings: Ns<Ring>) {
    && Inv(fmt, world) && (org.sole ==> world.older == [])
    && forall left :: Leaves(world, left) ==> CutSafe(fmt, org, world, rings, left)
  }

  predicate Quiet(world: World) {
    Running(world) && world.proc.phase.Idle? && !world.proc.w.openBatch && world.proc.w.batchSamples == 0
  }

  /** From the tail on, the slots below the scan's skip point are those the log holds. */
  predicate Right(scan: Scan, ring: Ring, ns: nat, held: nat)
    requires ns < 2
  {
    var k := SkipPoint(scan, ring.gen, ns);
    k == held || (k <= ring.tail && held <= ring.tail)
  }

  ghost predicate OpeningNs(t: Tally, ring: Ring, src: Source, ns: nat, w: Wal, ready: bool)
    requires ns < 2
  {
    && src == Cleared(src) && RingOwed(t, ring, ns) && |ring.accepted| < WRAP
    && if ready then InStep(t, ring, src, ns)
       else !src.skip && (src.attached ==> Right(w.recovered, ring, ns, Logged(t, ring, ns)))
  }

  /** The first done rings have their skip points and generation notes. */
  ghost predicate Opening(t: Tally, rings: Ns<Ring>, srcs: Ns<Source>, w: Wal, done: nat) {
    OpeningNs(t, rings.car, srcs.car, 0, w, 0 < done) && OpeningNs(t, rings.box, srcs.box, 1, w, 1 < done)
  }

  /** The open batch: 52 bytes of BEGIN, 56 a sample, at most 64 samples. */
  ghost predicate BatchSize(fmt: Format, w: Wal) {
    if w.openBatch then BufLen(fmt, w) == 52 + 56 * w.batchSamples && w.batchSamples <= BATCH_SAMPLES
    else w.batchSamples == 0
  }

  ghost predicate DrainNs(b: Tally, a: Tally, ring: Ring, src: Source, ns: nat)
    requires ns < 2
  {
    && InStep(b, ring, src, ns)
    && a.gen.At(ns) == b.gen.At(ns) && a.place.At(ns) == b.place.At(ns)
    && a.noted.At(ns) == b.noted.At(ns) && a.last.At(ns) == b.last.At(ns)
  }

  /** The log behind the open batch, the log with it, and the rings. */
  ghost predicate Drained(org: Origin, b: Tally, a: Tally, rings: Ns<Ring>, srcs: Ns<Source>) {
    && DrainNs(b, a, rings.car, srcs.car, 0) && DrainNs(b, a, rings.box, srcs.box, 1)
    && Merged(org.samples, a.samples, First(rings.car, Held(b, rings.car, srcs.car, 0)), First(rings.box, Held(b, rings.box, srcs.box, 1)))
  }

  ghost predicate ReleaseNs(t: Tally, ring: Ring, src: Source, ns: nat, pending: bool)
    requires ns < 2
  {
    if !pending then src == Cleared(src) && InStep(t, ring, src, ns) else
    && ring.tail + src.taken <= |ring.accepted| && InStep(t, Released(ring, src), Cleared(src), ns)
    && (src.added ==> src.attached && src.taken > 0 && Logged(t, ring, ns) == ring.tail + src.taken)
  }

  ghost predicate Releases(t: Tally, rings: Ns<Ring>, srcs: Ns<Source>, next: nat) {
    ReleaseNs(t, rings.car, srcs.car, 0, next <= 0) && ReleaseNs(t, rings.box, srcs.box, 1, next <= 1)
  }

  ghost predicate Steps(t: Tally, rings: Ns<Ring>, srcs: Ns<Source>) {
    InStep(t, rings.car, Cleared(srcs.car), 0) && InStep(t, rings.box, Cleared(srcs.box), 1)
  }

  /** What a commit for goal must leave, if the log is then t. */
  ghost predicate After(goal: Goal, t: Tally, rings: Ns<Ring>, srcs: Ns<Source>, w: Wal) {
    match goal
    case Boot => srcs.car.attached && Opening(t, rings, srcs, w, 0)
    case Generation(ns) => ns < 2 && srcs.car.attached && Opening(t, rings, srcs, w, ns + 1)
    case Batch => Releases(t, rings, srcs, 0)
    case Last => Releases(t, rings, srcs, 0)
    case End => true
  }

  ghost predicate PrepareInv(goal: Goal, t: Tally, rings: Ns<Ring>, srcs: Ns<Source>, w: Wal) {
    match goal
    case Boot => srcs.car.attached && Opening(t, rings, srcs, w, 0)
    case Generation(ns) =>
      ns < 2 && srcs.car.attached && Opening(Count(t, RingGen(ns, rings.At(ns).gen)), rings, srcs, w, ns + 1)
    case Batch => false
    case Last => false
    case End => true
  }

  ghost predicate PreparingInv(fmt: Format, world: World, rings: Ns<Ring>, srcs: Ns<Source>, goal: Goal) {
    if world.proc.Truncating? then
      && goal.Boot? && !world.proc.writer.openBatch && world.proc.writer.batchSamples == 0
      && PrepareInv(goal, Left(fmt, world, world.file), rings, srcs, world.proc.writer)
    else
      Quiet(world) && (goal.Boot? || world.proc.booted) && PrepareInv(goal, Behind(fmt, world), rings, srcs, world.proc.w)
  }

  ghost predicate CommittingInv(fmt: Format, org: Origin, world: World, rings: Ns<Ring>, srcs: Ns<Source>,
                                goal: Goal) {
    && Running(world) && world.proc.phase.Writing? && (goal.Boot? || world.proc.booted)
    && ExactlyOnce(org, Ahead(fmt, world), rings) && After(goal, Ahead(fmt, world), rings, srcs, world.proc.w)
    && Beyond(Behind(fmt, world), Ahead(fmt, world), rings) && (goal.Batch? ==> Steps(Behind(fmt, world), rings, srcs))
  }

  ghost predicate DrainingInv(fmt: Format, org: Origin, world: World, rings: Ns<Ring>, srcs: Ns<Source>) {
    && Running(world) && world.proc.phase.Idle? && world.proc.booted && BatchSize(fmt, world.proc.w)
    && Drained(org, Behind(fmt, world), Ahead(fmt, world), rings, srcs)
    && (srcs.car.added || srcs.box.added ==> world.proc.w.openBatch)
  }

  ghost predicate FullInv(fmt: Format, world: World, rings: Ns<Ring>, srcs: Ns<Source>, goal: Goal) {
    && Running(world) && world.proc.phase.Rotating? && world.proc.booted && world.past == {} && world.proc.w.batchSamples == 0
    && After(goal, Behind(fmt, world), rings, srcs, world.proc.w)
  }

  /** What a source would skip is logged. */
  ghost predicate SkipLogged(t: Tally, ring: Ring, src: Source, ns: nat)
    requires ns < 2
  {
    src.attached && src.skip ==> src.skipSeq + 1 <= Logged(t, ring, ns)
  }

  ghost predicate StuckInv(fmt: Format, world: World, rings: Ns<Ring>, srcs: Ns<Source>) {
    && Booted(world) && SkipLogged(Behind(fmt, world), rings.car, srcs.car, 0)
    && SkipLogged(Behind(fmt, world), rings.box, srcs.box, 1)
  }

  ghost predicate PcInv(fmt: Format, org: Origin, world: World, rings: Ns<Ring>, srcs: Ns<Source>, pc: Pc) {
    match pc
    case Off => world.proc.Down?
    case Preparing(goal) => PreparingInv(fmt, world, rings, srcs, goal)
    case Committing(goal) => CommittingInv(fmt, org, world, rings, srcs, goal)
    case Draining => DrainingInv(fmt, org, world, rings, srcs)
    case Releasing(next, _) => Quiet(world) && world.proc.booted && next <= 2 && Releases(Behind(fmt, world), rings, srcs, next)
    case Full(goal) => FullInv(fmt, world, rings, srcs, goal)
    case Stuck => StuckInv(fmt, world, rings, srcs)
    case Ended => true
  }

  ghost predicate Exact(fmt: Format, org: Origin, s: State) {
    && Safe(fmt, org, s.world, s.rings) && PcInv(fmt, org, s.world, s.rings, s.srcs, s.pc)
    && Sound(s.rings.car) && Sound(s.rings.box)
  }

  // ------------------------------------------------------------------ safety under the steps of the log

  lemma SafeBehind(fmt: Format, org: Origin, world: World, rings: Ns<Ring>)
    requires Good(fmt) && Safe(fmt, org, world, rings) && Running(world)
    ensures ExactlyOnce(org, Behind(fmt, world), rings)
  {
    UpBase(fmt, world);
    CutAtBase(fmt, world);
    assert CutSafe(fmt, org, world, rings, world.file[..world.proc.w.segBytes]);
  }

  /** No file can be left that could not be left before. */
  ghost predicate NoNewLeaves(world: World, next: World) {
    next.older == world.older && forall left :: Leaves(next, left) ==> Leaves(world, left)
  }

  lemma FewerLeaves(world: World, next: World)
    requires next.older == world.older && next.durable >= world.durable && next.file <= world.file
    requires next.past <= world.past + {world.file}
    ensures NoNewLeaves(world, next)
  {
    forall left | Leaves(next, left) ensures Leaves(world, left) {
      if !(left <= next.file) {
        var v :| v in next.past && left <= v;
        assert v == world.file || v in world.past;
      }
    }
  }

  lemma SafeSame(fmt: Format, org: Origin, world: World, rings: Ns<Ring>, next: World)
    requires Safe(fmt, org, world, rings) && Inv(fmt, next) && NoNewLeaves(world, next)
    requires Booted(next) ==> Booted(world) && Behind(fmt, next) == Behind(fmt, world)
    ensures Safe(fmt, org, next, rings)
  {
    forall left | Leaves(next, left) ensures CutSafe(fmt, org, next, rings, left) {
      assert CutSafe(fmt, org, world, rings, left);
    }
  }

  lemma SafeCutAfterWrite(fmt: Format, org: Origin, world: World, rings: Ns<Ring>, next: World, left: seq<byte>)
    requires Good(fmt) && Safe(fmt, org, world, rings) && Running(world) && Running(next) && Inv(fmt, next)
    requires next.proc.phase.Writing? && next.proc.w == world.proc.w && next.proc.booted == world.proc.booted
    requires next.durable == world.durable && next.past == world.past && next.older == world.older
    requires world.file <= next.file && Behind(fmt, next) == Behind(fmt, world)
    requires ExactlyOnce(org, Ahead(fmt, next), rings) && Beyond(Behind(fmt, next), Ahead(fmt, next), rings)
    requires Leaves(next, left)
    ensures CutSafe(fmt, org, next, rings, left)
  {
    UpSizes(fmt, world);
    SafeBehind(fmt, org, world, rings);
    if left <= next.file && world.proc.w.segBytes <= |left| {
      CutWhileWriting(fmt, next, left);
    } else {
      OldLeaf(world, next, left, world.proc.w.segBytes);
      assert CutSafe(fmt, org, world, rings, left);
    }
  }

  lemma OldLeaf(world: World, next: World, left: seq<byte>, base: nat)
    requires world.file <= next.file && next.durable == world.durable && next.past == world.past && base <= |world.file|
    requires Leaves(next, left) && !(left <= next.file && base <= |left|)
    ensures Leaves(world, left)
  {
    if left <= next.file {
      assert left == next.file[..|left|] == world.file[..|left|];
    }
  }

  lemma SafeAfterWrite(fmt: Format, org: Origin, world: World, rings: Ns<Ring>, n: nat, next: World)
    requires Good(fmt) && Safe(fmt, org, world, rings) && Running(world) && CanWrite(fmt, world, n)
    requires next == DoWrite(fmt, world, n) && ExactlyOnce(org, Ahead(fmt, world), rings)
    requires Beyond(Behind(fmt, world), Ahead(fmt, world), rings)
    ensures Safe(fmt, org, next, rings)
  {
    WriteStepKeeps(fmt, world, n);
    WroteTallies(fmt, world, n);
    forall left | Leaves(next, left) ensures CutSafe(fmt, org, next, rings, left) {
      SafeCutAfterWrite(fmt, org, world, rings, next, left);
    }
  }

  /** When all of the log is durable, it is the only file that can be left. */
  lemma SafeDurable(fmt: Format, org: Origin, world: World, rings: Ns<Ring>, b: Tally)
    requires Good(fmt) && Inv(fmt, world) && world.durable == |world.file| && world.past == {} && (org.sole ==> world.older == [])
    requires b == Left(fmt, world, world.file) && ExactlyOnce(org, b, rings) && (Booted(world) ==> Behind(fmt, world) == b)
    ensures Safe(fmt, org, world, rings)
  {
    forall left | Leaves(world, left) ensures CutSafe(fmt, org, world, rings, left) {
      assert left == world.file;
    }
  }

  lemma SafePush(fmt: Format, org: Origin, world: World, rings: Ns<Ring>, more: Ns<Ring>)
    requires Safe(fmt, org, world, rings) && MorePushed(rings.car, more.car) && MorePushed(rings.box, more.box)
    ensures Safe(fmt, org, world, more)
  {
    forall left | Leaves(world, left) ensures CutSafe(fmt, org, world, more, left) {
      assert CutSafe(fmt, org, world, rings, left);
      PushKeepsOwed(org, Left(fmt, world, left), rings, more);
    }
  }

  // ------------------------------------------------------------------ pushes

  lemma PushKeepsOpening(t: Tally, rings: Ns<Ring>, more: Ns<Ring>, srcs: Ns<Source>, w: Wal, done: nat)
    requires Opening(t, rings, srcs, w, done) && MorePushed(rings.car, more.car) && MorePushed(rings.box, more.box)
    ensures Opening(t, more, srcs, w, done)
  {}

  lemma PushKeepsReleases(t: Tally, rings: Ns<Ring>, more: Ns<Ring>, srcs: Ns<Source>, next: nat)
    requires Releases(t, rings, srcs, next) && MorePushed(rings.car, more.car) && MorePushed(rings.box, more.box)
    ensures Releases(t, more, srcs, next)
  {
    PushKeepsRelease(t, rings.car, more.car, srcs.car, 0, next <= 0);
    PushKeepsRelease(t, rings.box, more.box, srcs.box, 1, next <= 1);
  }

  lemma PushKeepsRelease(t: Tally, ring: Ring, more: Ring, src: Source, ns: nat, pending: bool)
    requires ns < 2 && ReleaseNs(t, ring, src, ns, pending) && MorePushed(ring, more)
    ensures ReleaseNs(t, more, src, ns, pending)
  {}

  lemma PushKeepsDrained(org: Origin, b: Tally, a: Tally, rings: Ns<Ring>, more: Ns<Ring>, srcs: Ns<Source>)
    requires Drained(org, b, a, rings, srcs) && MorePushed(rings.car, more.car) && MorePushed(rings.box, more.box)
    ensures Drained(org, b, a, more, srcs)
  {
    PushKeepsStep(b, rings.car, more.car, srcs.car, 0);
    PushKeepsStep(b, rings.box, more.box, srcs.box, 1);
    FirstOfMore(rings.car, more.car, Held(b, rings.car, srcs.car, 0));
    FirstOfMore(rings.box, more.box, Held(b, rings.box, srcs.box, 1));
  }

  lemma PushKeepsPrepare(goal: Goal, t: Tally, rings: Ns<Ring>, more: Ns<Ring>, srcs: Ns<Source>, w: Wal)
    requires PrepareInv(goal, t, rings, srcs, w) && MorePushed(rings.car, more.car) && MorePushed(rings.box, more.box)
    ensures PrepareInv(goal, t, more, srcs, w)
  {
    if goal.Boot? {
      PushKeepsOpening(t, rings, more, srcs, w, 0);
    } else if goal.Generation? {
      PushKeepsOpening(Count(t, RingGen(goal.ns, rings.At(goal.ns).gen)), rings, more, srcs, w, goal.ns + 1);
    }
  }

  lemma PushKeepsAfter(goal: Goal, t: Tally, rings: Ns<Ring>, more: Ns<Ring>, srcs: Ns<Source>, w: Wal)
    requires After(goal, t, rings, srcs, w) && MorePushed(rings.car, more.car) && MorePushed(rings.box, more.box)
    ensures After(goal, t, more, srcs, w)
  {
    if goal.Boot? {
      PushKeepsOpening(t, rings, more, srcs, w, 0);
    } else if goal.Generation? {
      PushKeepsOpening(t, rings, more, srcs, w, goal.ns + 1);
    } else if !goal.End? {
      PushKeepsReleases(t, rings, more, srcs, 0);
    }
  }

  lemma PushKeepsPreparing(fmt: Format, world: World, rings: Ns<Ring>, more: Ns<Ring>, srcs: Ns<Source>, goal: Goal)
    requires PreparingInv(fmt, world, rings, srcs, goal)
    requires MorePushed(rings.car, more.car) && MorePushed(rings.box, more.box)
    ensures PreparingInv(fmt, world, more, srcs, goal)
  {
    if world.proc.Truncating? {
      PushKeepsPrepare(goal, Left(fmt, world, world.file), rings, more, srcs, world.proc.writer);
    } else {
      PushKeepsPrepare(goal, Behind(fmt, world), rings, more, srcs, world.proc.w);
    }
  }

  lemma PushKeepsSteps(t: Tally, rings: Ns<Ring>, more: Ns<Ring>, srcs: Ns<Source>)
    requires Steps(t, rings, srcs) && MorePushed(rings.car, more.car) && MorePushed(rings.box, more.box)
    ensures Steps(t, more, srcs)
  {
    PushKeepsStep(t, rings.car, more.car, Cleared(srcs.car), 0);
    PushKeepsStep(t, rings.box, more.box, Cleared(srcs.box), 1);
  }

  lemma PushKeepsCommitting(fmt: Format, org: Origin, world: World, rings: Ns<Ring>, more: Ns<Ring>, srcs: Ns<Source>,
                            goal: Goal)
    requires CommittingInv(fmt, org, world, rings, srcs, goal)
    requires MorePushed(rings.car, more.car) && MorePushed(rings.box, more.box)
    ensures CommittingInv(fmt, org, world, more, srcs, goal)
  {
    PushKeepsOwed(org, Ahead(fmt, world), rings, more);
    PushKeepsAfter(goal, Ahead(fmt, world), rings, more, srcs, world.proc.w);
    if goal.Batch? { PushKeepsSteps(Behind(fmt, world), rings, more, srcs); }
  }

  lemma PushKeepsStuck(fmt: Format, world: World, rings: Ns<Ring>, more: Ns<Ring>, srcs: Ns<Source>)
    requires StuckInv(fmt, world, rings, srcs) && MorePushed(rings.car, more.car) && MorePushed(rings.box, more.box)
    ensures StuckInv(fmt, world, more, srcs)
  {}

  lemma PushKeepsFull(fmt: Format, world: World, rings: Ns<Ring>, more: Ns<Ring>, srcs: Ns<Source>, goal: Goal)
    requires FullInv(fmt, world, rings, srcs, goal) && MorePushed(rings.car, more.car) && MorePushed(rings.box, more.box)
    ensures FullInv(fmt, world, more, srcs, goal)
  {
    PushKeepsAfter(goal, Behind(fmt, world), rings, more, srcs, world.proc.w);
  }

  lemma PushKeepsPc(fmt: Format, org: Origin, world: World, rings: Ns<Ring>, more: Ns<Ring>, srcs: Ns<Source>,
                    pc: Pc)
    requires PcInv(fmt, org, world, rings, srcs, pc)
    requires MorePushed(rings.car, more.car) && MorePushed(rings.box, more.box)
    ensures PcInv(fmt, org, world, more, srcs, pc)
  {
    if pc.Preparing? {
      PushKeepsPreparing(fmt, world, rings, more, srcs, pc.goal);
    } else if pc.Committing? {
      PushKeepsCommitting(fmt, org, world, rings, more, srcs, pc.goal);
    } else if pc.Draining? {
      PushKeepsDrained(org, Behind(fmt, world), Ahead(fmt, world), rings, more, srcs);
    } else if pc.Releasing? {
      PushKeepsReleases(Behind(fmt, world), rings, more, srcs, pc.next);
    } else if pc.Full? {
      PushKeepsFull(fmt, world, rings, more, srcs, pc.goal);
    } else if pc.Stuck? {
      PushKeepsStuck(fmt, world, rings, more, srcs);
    }
  }

  /** A producer's push, at any moment, keeps the invariant. */
  lemma PushKeeps(fmt: Format, org: Origin, s: State, ns: nat, slot: Slot)
    requires Exact(fmt, org, s) && ns < 2 && CanPush(s.rings.At(ns), slot)
    ensures Exact(fmt, org, s.(rings := s.rings.Set(ns, s.rings.At(ns).(accepted := s.rings.At(ns).accepted + [slot]))))
  {
    var more := s.rings.Set(ns, s.rings.At(ns).(accepted := s.rings.At(ns).accepted + [slot]));
    SafePush(fmt, org, s.world, s.rings, more);
    PushKeepsPc(fmt, org, s.world, s.rings, more, s.srcs, s.pc);
  }

  // ------------------------------------------------------------------ draining

  /** A skipped slot was logged before. */
  lemma SkippedInStep(b: Tally, a: Tally, ring: Ring, src: Source, ns: nat, next: Source)
    requires ns < 2 && DrainNs(b, a, ring, src, ns) && src.attached && ring.tail + src.taken < |ring.accepted|
    requires src.skip && ring.tail + src.taken <= src.skipSeq
    requires next == src.(taken := src.taken + 1, lastSeq := ring.tail + src.taken)
    ensures DrainNs(b, a, ring, next, ns) && Held(b, ring, next, ns) == Held(b, ring, src, ns)
  {}

  /** A slot that is not skipped is the first one neither the log nor the batch holds. */
  lemma AddedInStep(b: Tally, a: Tally, ring: Ring, src: Source, ns: nat, next: Source)
    requires ns < 2 && DrainNs(b, a, ring, src, ns) && src.attached && ring.tail + src.taken < |ring.accepted|
    requires !(src.skip && ring.tail + src.taken <= src.skipSeq)
    requires next == src.(taken := src.taken + 1, lastSeq := ring.tail + src.taken, added := true)
    ensures DrainNs(b, a, ring, next, ns)
    ensures ring.tail + src.taken == Held(b, ring, src, ns) && Held(b, ring, next, ns) == Held(b, ring, src, ns) + 1
  {}

  lemma SkippedDrained(org: Origin, b: Tally, a: Tally, rings: Ns<Ring>, srcs: Ns<Source>, ns: nat,
                       next: Source)
    requires ns < 2 && Drained(org, b, a, rings, srcs)
    requires var ring, src := rings.At(ns), srcs.At(ns);
             && src.attached && ring.tail + src.taken < |ring.accepted| && src.skip && ring.tail + src.taken <= src.skipSeq
             && next == src.(taken := src.taken + 1, lastSeq := ring.tail + src.taken)
    ensures Drained(org, b, a, rings, srcs.Set(ns, next))
  {
    SkippedInStep(b, a, rings.At(ns), srcs.At(ns), ns, next);
  }

  /** The source's next slot is one it must add. */
  predicate AddsNext(ring: Ring, src: Source, next: Source, slot: Slot) {
    && src.attached && ring.tail + src.taken < |ring.accepted| && slot == ring.accepted[ring.tail + src.taken]
    && !(src.skip && ring.tail + src.taken <= src.skipSeq)
    && next == src.(taken := src.taken + 1, lastSeq := if ring.tail + src.taken < WRAP then ring.tail + src.taken else 0, added := true)
  }

  lemma AddedCar(org: Origin, b: Tally, a: Tally, rings: Ns<Ring>, srcs: Ns<Source>, next: Source,
                 more: Tally, slot: Slot)
    requires Drained(org, b, a, rings, srcs) && AddsNext(rings.car, srcs.car, next, slot)
    requires more == a.(samples := a.samples + [ReadingOf(slot)])
    ensures Drained(org, b, more, rings, Ns(next, srcs.box))
  {
    var n0, n1 := Held(b, rings.car, srcs.car, 0), Held(b, rings.box, srcs.box, 1);
    AddedInStep(b, a, rings.car, srcs.car, 0, next);
    AddedNs(b, a, more, rings.car, next, 0);
    AddedNs(b, a, more, rings.box, srcs.box, 1);
    MergedNext(org, a.samples, rings, n0, n1, n0 + 1, n1, slot);
    DrainedFrom(org, b, more, rings, Ns(next, srcs.box), n0 + 1, n1);
  }

  lemma AddedBox(org: Origin, b: Tally, a: Tally, rings: Ns<Ring>, srcs: Ns<Source>, next: Source,
                 more: Tally, slot: Slot)
    requires Drained(org, b, a, rings, srcs) && AddsNext(rings.box, srcs.box, next, slot)
    requires more == a.(samples := a.samples + [ReadingOf(slot)])
    ensures Drained(org, b, more, rings, Ns(srcs.car, next))
  {
    var n0, n1 := Held(b, rings.car, srcs.car, 0), Held(b, rings.box, srcs.box, 1);
    AddedInStep(b, a, rings.box, srcs.box, 1, next);
    AddedNs(b, a, more, rings.box, next, 1);
    AddedNs(b, a, more, rings.car, srcs.car, 0);
    MergedNext(org, a.samples, rings, n0, n1, n0, n1 + 1, slot);
    DrainedFrom(org, b, more, rings, Ns(srcs.car, next), n0, n1 + 1);
  }

  lemma AddedDrained(org: Origin, b: Tally, a: Tally, rings: Ns<Ring>, srcs: Ns<Source>, ns: nat, next: Source,
                     more: Tally, slot: Slot)
    requires ns < 2 && Drained(org, b, a, rings, srcs) && AddsNext(rings.At(ns), srcs.At(ns), next, slot)
    requires more == a.(samples := a.samples + [ReadingOf(slot)])
    ensures Drained(org, b, more, rings, srcs.Set(ns, next))
  {
    if ns == 0 {
      AddedCar(org, b, a, rings, srcs, next, more, slot);
    } else {
      AddedBox(org, b, a, rings, srcs, next, more, slot);
    }
  }

  lemma DrainedFrom(org: Origin, b: Tally, a: Tally, rings: Ns<Ring>, srcs: Ns<Source>, n0: nat, n1: nat)
    requires DrainNs(b, a, rings.car, srcs.car, 0) && DrainNs(b, a, rings.box, srcs.box, 1)
    requires n0 == Held(b, rings.car, srcs.car, 0) && n1 == Held(b, rings.box, srcs.box, 1)
    requires Merged(org.samples, a.samples, First(rings.car, n0), First(rings.box, n1))
    ensures Drained(org, b, a, rings, srcs)
  {}

  lemma AddedNs(b: Tally, a: Tally, more: Tally, ring: Ring, src: Source, ns: nat)
    requires ns < 2 && DrainNs(b, a, ring, src, ns) && more == a.(samples := more.samples)
    ensures DrainNs(b, more, ring, src, ns)
  {}

  lemma MergedNext(org: Origin, all: seq<Reading>, rings: Ns<Ring>, n0: nat, n1: nat, m0: nat, m1: nat,
                   slot: Slot)
    requires Merged(org.samples, all, First(rings.car, n0), First(rings.box, n1))
    requires (m0 == n0 + 1 && m1 == n1 && n0 < |rings.car.accepted| && rings.car.accepted[n0] == slot)
             || (m0 == n0 && m1 == n1 + 1 && n1 < |rings.box.accepted| && rings.box.accepted[n1] == slot)
    ensures Merged(org.samples, all + [ReadingOf(slot)], First(rings.car, m0), First(rings.box, m1))
  {
    MergedSnoc(org.samples, all, First(rings.car, n0), First(rings.box, n1), ReadingOf(slot));
    if m0 == n0 + 1 { FirstSnoc(rings.car, n0); } else { FirstSnoc(rings.box, n1); }
  }

  /** wal_add takes every sample of an accepted slot: drain's error branch is dead. */
  lemma SampleIsTaken(fmt: Format, w: Wal, slot: Slot, t: Clock, now: Clock)
    requires Good(fmt) && BatchOk(fmt, w) && BatchSize(fmt, w) && SrcOk(w.src) && SrcOk(slot.src)
    requires w.batchSamples < BATCH_SAMPLES
    ensures var (ok, v) := Add(fmt, w, SAMPLE, slot.src, t, SampleBody(slot), now);
            ok && v.openBatch && BatchOk(fmt, v) && BatchSize(fmt, v) && v.segBytes == w.segBytes
  {
    assert w.batch == [] ==> BufLen(fmt, w) == 0;
    AddTakes(fmt, w, SAMPLE, slot.src, t, SampleBody(slot), now);
    AddFacts(fmt, w, SAMPLE, slot.src, t, SampleBody(slot), now);
  }

  /** A writer with a longer open batch leaves the same files and the same log behind it. */
  lemma AddIsQuiet(fmt: Format, org: Origin, world: World, rings: Ns<Ring>, v: Wal, next: World)
    requires Safe(fmt, org, world, rings) && world.proc.Up? && v.segBytes == world.proc.w.segBytes
    requires next == WithWal(world, v) && Inv(fmt, next) && Running(world)
    ensures Safe(fmt, org, next, rings) && Behind(fmt, next) == Behind(fmt, world)
    ensures CommittedLog(fmt, next) == CommittedLog(fmt, world)
  {
    FewerLeaves(world, next);
    SafeSame(fmt, org, world, rings, next);
  }

  lemma TakeAdds(fmt: Format, org: Origin, world: World, rings: Ns<Ring>, slot: Slot, t: Clock, now: Clock,
                 v: Wal)
    requires Good(fmt) && Safe(fmt, org, world, rings) && Running(world) && world.proc.phase.Idle?
    requires BatchSize(fmt, world.proc.w) && world.proc.w.batchSamples < BATCH_SAMPLES && SrcOk(slot.src) && t.mono == slot.mono
    requires v == Add(fmt, world.proc.w, SAMPLE, slot.src, t, SampleBody(slot), now).1
    ensures Add(fmt, world.proc.w, SAMPLE, slot.src, t, SampleBody(slot), now).0 && v.openBatch && BatchSize(fmt, v)
    ensures Safe(fmt, org, WithWal(world, v), rings) && Behind(fmt, WithWal(world, v)) == Behind(fmt, world)
    ensures var a := Ahead(fmt, world); Ahead(fmt, WithWal(world, v)) == a.(samples := a.samples + [ReadingOf(slot)])
  {
    UpSizes(fmt, world);
    SampleIsTaken(fmt, world.proc.w, slot, t, now);
    AddKeeps(fmt, world, SAMPLE, slot.src, t, SampleBody(slot), now, v);
    AddIsQuiet(fmt, org, world, rings, v, WithWal(world, v));
    SampleCounts(fmt, CommittedLog(fmt, world), world.proc.w, slot.src, t, SampleBody(slot), now, v);
  }

  lemma TakeAddsDrained(fmt: Format, org: Origin, s: State, ns: nat, slot: Slot, next: Source, world: World)
    requires Good(fmt) && ns < 2 && s.world.proc.Up? && DrainingInv(fmt, org, s.world, s.rings, s.srcs)
    requires AddsNext(s.rings.At(ns), s.srcs.At(ns), next, slot)
    requires Running(world) && world.proc.phase.Idle? && world.proc.booted && world.proc.w.openBatch && BatchSize(fmt, world.proc.w)
    requires Behind(fmt, world) == Behind(fmt, s.world)
    requires var a := Ahead(fmt, s.world); Ahead(fmt, world) == a.(samples := a.samples + [ReadingOf(slot)])
    ensures DrainingInv(fmt, org, world, s.rings, s.srcs.Set(ns, next))
  {
    AddedDrained(org, Behind(fmt, s.world), Ahead(fmt, s.world), s.rings, s.srcs, ns, next, Ahead(fmt, world), slot);
  }

  lemma ExactDraining(fmt: Format, org: Origin, s: State, world: World, rings: Ns<Ring>, srcs: Ns<Source>)
    requires Safe(fmt, org, world, rings) && DrainingInv(fmt, org, world, rings, srcs)
    requires Sound(rings.car) && Sound(rings.box) && s == State(world, rings, srcs, Draining)
    ensures Exact(fmt, org, s)
  {}

  lemma ExactDrains(fmt: Format, org: Origin, s: State)
    requires Exact(fmt, org, s) && s.pc.Draining?
    ensures Safe(fmt, org, s.world, s.rings) && DrainingInv(fmt, org, s.world, s.rings, s.srcs)
    ensures Sound(s.rings.car) && Sound(s.rings.box)
    ensures Drained(org, Behind(fmt, s.world), Ahead(fmt, s.world), s.rings, s.srcs)
  {}

  lemma TakeSkips(fmt: Format, org: Origin, world: World, rings: Ns<Ring>, srcs: Ns<Source>, ns: nat,
                  src: Source,
                  p: nat, next: Source)
    requires DrainingInv(fmt, org, world, rings, srcs)
    requires ns < 2 && src == srcs.At(ns) && src.attached && p == rings.At(ns).tail + src.taken < |rings.At(ns).accepted|
    requires src.skip && p <= src.skipSeq && next == src.(taken := src.taken + 1, lastSeq := p)
    ensures DrainingInv(fmt, org, world, rings, srcs.Set(ns, next))
  {
    SkippedDrained(org, Behind(fmt, world), Ahead(fmt, world), rings, srcs, ns, next);
  }

  lemma DoTakeIs(fmt: Format, s: State, ns: nat, at: Clock, now: Clock, src: Source, p: nat, slot: Slot)
    requires CanTake(s, ns) && src == s.srcs.At(ns) && p == s.rings.At(ns).tail + src.taken && slot == s.rings.At(ns).accepted[p]
    ensures var (ok, v) := Add(fmt, s.world.proc.w, SAMPLE, slot.src, SampleClock(slot, at), SampleBody(slot), now);
            var passed := src.(taken := src.taken + 1, lastSeq := p);
            DoTake(fmt, s, ns, at, now)
            == if src.skip && p <= src.skipSeq then State(s.world, s.rings, s.srcs.Set(ns, passed), Draining)
               else if ok then State(WithWal(s.world, v), s.rings, s.srcs.Set(ns, passed.(added := true)), Draining)
               else State(WithWal(s.world, v), s.rings, s.srcs.Set(ns, src.(lastSeq := U64(p + WRAP - 1))), Draining)
  {}

  /** One slot of drain keeps the invariant. */
  lemma TakeKeeps(fmt: Format, org: Origin, s: State, ns: nat, at: Clock, now: Clock)
    requires Good(fmt) && Exact(fmt, org, s) && CanTake(s, ns)
    ensures Exact(fmt, org, DoTake(fmt, s, ns, at, now))
  {
    var src, p := s.srcs.At(ns), s.rings.At(ns).tail + s.srcs.At(ns).taken;
    var slot, next := s.rings.At(ns).accepted[p], src.(taken := src.taken + 1, lastSeq := p);
    var t := DoTake(fmt, s, ns, at, now);
    ExactDrains(fmt, org, s);
    DoTakeIs(fmt, s, ns, at, now, src, p, slot);
    if src.skip && p <= src.skipSeq {
      TakeSkips(fmt, org, s.world, s.rings, s.srcs, ns, src, p, next);
    } else {
      var v := Add(fmt, s.world.proc.w, SAMPLE, slot.src, SampleClock(slot, at), SampleBody(slot), now).1;
      TakeAdds(fmt, org, s.world, s.rings, slot, SampleClock(slot, at), now, v);
      TakeAddsDrained(fmt, org, s, ns, slot, next.(added := true), WithWal(s.world, v));
    }
    ExactDraining(fmt, org, t, t.world, t.rings, t.srcs);
  }

  // ------------------------------------------------------------------ noting and committing

  function NotedTally(t: Tally, src: Source, ns: nat): Tally
    requires ns < 2
  {
    if src.added then Count(t, RingSeq(ns, src.lastSeq)) else t
  }

  /** With its notes the batch says exactly how far it holds each ring. */
  lemma NotesSayHeld(org: Origin, b: Tally, a: Tally, rings: Ns<Ring>, srcs: Ns<Source>, f: Tally)
    requires Drained(org, b, a, rings, srcs) && ExactlyOnce(org, b, rings)
    requires f == NotedTally(NotedTally(a, srcs.car, 0), srcs.box, 1)
    ensures ExactlyOnce(org, f, rings) && Beyond(b, f, rings)
  {
    NoteSays(b, a, f, rings.car, srcs.car, 0);
    NoteSays(b, a, f, rings.box, srcs.box, 1);
    assert f.samples == a.samples;
  }

  /** f is what is ahead once the ring's note is in. */
  ghost predicate NoteIn(a: Tally, f: Tally, src: Source, ns: nat)
    requires ns < 2
  {
    && f.gen.At(ns) == a.gen.At(ns)
    && (if src.added then f.noted.At(ns) && f.last.At(ns) == src.lastSeq && f.place.At(ns) == src.lastSeq + 1
        else f.noted.At(ns) == a.noted.At(ns) && f.last.At(ns) == a.last.At(ns) && f.place.At(ns) == a.place.At(ns))
  }

  lemma NoteSays(b: Tally, a: Tally, f: Tally, ring: Ring, src: Source, ns: nat)
    requires ns < 2 && DrainNs(b, a, ring, src, ns) && RingOwed(b, ring, ns) && NoteIn(a, f, src, ns)
    ensures RingOwed(f, ring, ns) && Logged(f, ring, ns) == Held(b, ring, src, ns) >= Logged(b, ring, ns)
    ensures Named(b, ring, ns) ==> Named(f, ring, ns)
  {}

  lemma NoteReleases(b: Tally, a: Tally, f: Tally, ring: Ring, src: Source, ns: nat)
    requires ns < 2 && DrainNs(b, a, ring, src, ns) && NoteIn(a, f, src, ns)
    ensures ReleaseNs(f, ring, src, ns, true) && InStep(b, ring, Cleared(src), ns)
  {}

  /** Once such a batch is durable its slots may be released; if it is dropped, nothing is lost. */
  lemma NotesRelease(org: Origin, b: Tally, a: Tally, rings: Ns<Ring>, srcs: Ns<Source>, f: Tally)
    requires Drained(org, b, a, rings, srcs)
    requires f == NotedTally(NotedTally(a, srcs.car, 0), srcs.box, 1)
    ensures Releases(f, rings, srcs, 0) && Steps(b, rings, srcs)
  {
    NoteReleases(b, a, f, rings.car, srcs.car, 0);
    NoteReleases(b, a, f, rings.box, srcs.box, 1);
  }

  lemma NoteTextShort(fmt: Format, code: u16, ns: nat, v: u64)
    requires Good(fmt) && ns < 2 && (code == EV_RING_GEN || code == EV_RING_SEQ)
    ensures |NoteOf(code, ns, v)| <= 25 && EventText(code, ns, v) == NoteOf(code, ns, v)
  {
    assert ReadsNote(fmt, Rec(EVENT, 0, 0, 0, 1, 0, 0, 0, []), ns, v);
  }

  lemma NoteValid(fmt: Format, w: Wal, code: u16, ns: nat, v: u64, t: Clock, r: Rec)
    requires Good(fmt) && ns < 2 && (code == EV_RING_GEN || code == EV_RING_SEQ) && SrcOk(w.src)
    requires r == NextRec(w, EVENT, w.src, t, EventBody(code, EventText(code, ns, v)))
    ensures ValidRec(r) && |r.body| <= 29
  {
    NoteTextShort(fmt, code, ns, v);
    assert ReadsNote(fmt, r, ns, v);
  }

  /** A ring note always fits and is always taken: note_ring_seq and note_generation never fail. */
  lemma NoteIsTaken(fmt: Format, w: Wal, code: u16, ns: nat, q: u64, t: Clock, now: Clock)
    requires Good(fmt) && BatchOk(fmt, w) && SrcOk(w.src) && ns < 2 && (code == EV_RING_GEN || code == EV_RING_SEQ)
    requires BufLen(fmt, w) <= 52 + 56 * BATCH_SAMPLES + 73
    ensures var (ok, v) := NoteRing(fmt, w, code, ns, q, t, now);
            ok && v.openBatch && BatchOk(fmt, v) && v.segBytes == w.segBytes
            && BufLen(fmt, v) <= BufLen(fmt, w) + (if w.openBatch then 0 else 52) + 73
  {
    var body := EventBody(code, EventText(code, ns, q));
    NoteValid(fmt, w, code, ns, q, t, NextRec(w, EVENT, w.src, t, body));
    AddTakes(fmt, w, EVENT, w.src, t, body, now);
    AddFacts(fmt, w, EVENT, w.src, t, body, now);
  }

  lemma NoteAdds(fmt: Format, org: Origin, world: World, rings: Ns<Ring>, code: u16, ns: nat, q: u64, t: Clock,
                 now: Clock, v: Wal)
    requires Good(fmt) && Safe(fmt, org, world, rings) && Running(world) && world.proc.phase.Idle?
    requires ns < 2 && (code == EV_RING_GEN || code == EV_RING_SEQ) && BufLen(fmt, world.proc.w) <= 52 + 56 * BATCH_SAMPLES + 73
    requires v == NoteRing(fmt, world.proc.w, code, ns, q, t, now).1
    ensures NoteRing(fmt, world.proc.w, code, ns, q, t, now).0 && v.openBatch
    ensures BufLen(fmt, v) <= BufLen(fmt, world.proc.w) + (if world.proc.w.openBatch then 0 else 52) + 73
    ensures Safe(fmt, org, WithWal(world, v), rings) && Behind(fmt, WithWal(world, v)) == Behind(fmt, world)
    ensures Ahead(fmt, WithWal(world, v))
            == Count(Ahead(fmt, world), if code == EV_RING_GEN then RingGen(ns, q) else RingSeq(ns, q))
  {
    UpSizes(fmt, world);
    var body := EventBody(code, EventText(code, ns, q));
    NoteIsTaken(fmt, world.proc.w, code, ns, q, t, now);
    AddKeeps(fmt, world, EVENT, world.proc.w.src, t, body, now, v);
    AddIsQuiet(fmt, org, world, rings, v, WithWal(world, v));
    NoteTextShort(fmt, code, ns, q);
    NoteCounts(fmt, CommittedLog(fmt, world), world.proc.w, code, ns, q, t, now, v);
  }

  lemma NotedAdds(fmt: Format, org: Origin, world: World, rings: Ns<Ring>, src: Source, ns: nat, t: Clock,
                  now: Clock, v: Wal)
    requires Good(fmt) && Safe(fmt, org, world, rings) && Running(world) && world.proc.phase.Idle? && ns < 2
    requires BufLen(fmt, world.proc.w) <= 52 + 56 * BATCH_SAMPLES + 73 && (src.added ==> world.proc.w.openBatch)
    requires v == Noted(fmt, world.proc.w, src, ns, t, now).1
    ensures Noted(fmt, world.proc.w, src, ns, t, now).0 && v.openBatch == world.proc.w.openBatch
    ensures BufLen(fmt, v) <= BufLen(fmt, world.proc.w) + 73
    ensures Safe(fmt, org, WithWal(world, v), rings) && Behind(fmt, WithWal(world, v)) == Behind(fmt, world)
    ensures Ahead(fmt, WithWal(world, v)) == NotedTally(Ahead(fmt, world), src, ns)
  {
    if src.added {
      NoteAdds(fmt, org, world, rings, EV_RING_SEQ, ns, src.lastSeq, t, now, v);
    } else {
      assert WithWal(world, v) == world;
    }
  }

  /** Starting a commit leaves the same files and both tallies. */
  lemma CommitStarts(fmt: Format, org: Origin, world: World, rings: Ns<Ring>, now: Clock, next: World)
    requires Good(fmt) && Safe(fmt, org, world, rings) && Running(world) && world.proc.phase.Idle? && world.proc.w.openBatch
    requires next == DoCommit(fmt, world, now)
    ensures Running(next) && next.proc.phase.Writing? && next.proc.booted == world.proc.booted
    ensures next.proc.w.recovered == world.proc.w.recovered
    ensures Safe(fmt, org, next, rings) && Behind(fmt, next) == Behind(fmt, world) && Ahead(fmt, next) == Ahead(fmt, world)
  {
    UpSizes(fmt, world);
    CommitKeeps(fmt, world, now);
    SealNeverFails(fmt, world.proc.w, now);
    var v := Seal(fmt, world.proc.w, now).value;
    SealCounts(fmt, CommittedLog(fmt, world), world.proc.w, now, v);
    FewerLeaves(world, next);
    SafeSame(fmt, org, world, rings, next);
  }

  lemma DrainedBuf(fmt: Format, org: Origin, world: World, rings: Ns<Ring>, srcs: Ns<Source>)
    requires Safe(fmt, org, world, rings) && DrainingInv(fmt, org, world, rings, srcs)
    ensures BufLen(fmt, world.proc.w) <= 52 + 56 * BATCH_SAMPLES
    ensures !world.proc.w.openBatch ==> world.proc.w.batch == []
  {
    UpSizes(fmt, world);
  }

  /** The two ring notes of a batch, in the loop or at the stop. */
  lemma BothNoted(fmt: Format, org: Origin, world: World, rings: Ns<Ring>, srcs: Ns<Source>, notes: Ns<Clock>,
                  now: Clock, w0: Wal, w1: Wal, noted: World, f: Tally)
    requires Good(fmt) && Safe(fmt, org, world, rings) && DrainingInv(fmt, org, world, rings, srcs)
    requires w0 == Noted(fmt, world.proc.w, srcs.car, 0, notes.car, now).1
    requires w1 == Noted(fmt, w0, srcs.box, 1, notes.box, now).1 && noted == WithWal(world, w1)
    requires f == NotedTally(NotedTally(Ahead(fmt, world), srcs.car, 0), srcs.box, 1)
    ensures Noted(fmt, world.proc.w, srcs.car, 0, notes.car, now).0 && Noted(fmt, w0, srcs.box, 1, notes.box, now).0
    ensures Safe(fmt, org, noted, rings) && Behind(fmt, noted) == Behind(fmt, world) && Ahead(fmt, noted) == f
    ensures Running(noted) && noted.proc.phase.Idle? && noted.proc.booted && noted.proc.w.openBatch == world.proc.w.openBatch
  {
    DrainedBuf(fmt, org, world, rings, srcs);
    NotedAdds(fmt, org, world, rings, srcs.car, 0, notes.car, now, w0);
    NotedAdds(fmt, org, WithWal(world, w0), rings, srcs.box, 1, notes.box, now, w1);
  }

  lemma ExactCommitting(fmt: Format, org: Origin, s: State, world: World, rings: Ns<Ring>, srcs: Ns<Source>,
                        goal: Goal)
    requires Safe(fmt, org, world, rings) && CommittingInv(fmt, org, world, rings, srcs, goal)
    requires Sound(rings.car) && Sound(rings.box) && s == State(world, rings, srcs, Committing(goal))
    ensures Exact(fmt, org, s)
  {}

  lemma ExactReleasing(fmt: Format, org: Origin, s: State, world: World, rings: Ns<Ring>, srcs: Ns<Source>,
                       next: nat,
                       stopping: bool)
    requires Safe(fmt, org, world, rings) && Quiet(world) && world.proc.booted && next <= 2
    requires Releases(Behind(fmt, world), rings, srcs, next)
    requires Sound(rings.car) && Sound(rings.box) && s == State(world, rings, srcs, Releasing(next, stopping))
    ensures Exact(fmt, org, s)
  {}

  lemma DoBatchIs(fmt: Format, s: State, notes: Ns<Clock>, now: Clock, stop: bool, w0: Wal, w1: Wal, goal: Goal)
    requires CanBatch(s, now, stop) && goal == if stop then Last else Batch
    requires Noted(fmt, s.world.proc.w, s.srcs.car, 0, notes.car, now) == (true, w0)
    requires Noted(fmt, w0, s.srcs.box, 1, notes.box, now) == (true, w1)
    ensures DoBatch(fmt, s, notes, now, stop) == StartCommitting(fmt, s.(world := WithWal(s.world, w1)), goal, now)
  {}

  lemma CommitsNone(fmt: Format, org: Origin, s: State, goal: Goal, now: Clock)
    requires Safe(fmt, org, s.world, s.rings) && Sound(s.rings.car) && Sound(s.rings.box) && Quiet(s.world)
    requires s.world.proc.booted && (goal.Batch? || goal.Last?) && Releases(Behind(fmt, s.world), s.rings, s.srcs, 0)
    ensures Exact(fmt, org, StartCommitting(fmt, s, goal, now))
  {
    ExactReleasing(fmt, org, OnSuccess(s, goal), s.world, s.rings, s.srcs, 0, goal.Last?);
  }

  lemma CommitsOpen(fmt: Format, org: Origin, s: State, goal: Goal, now: Clock, next: World)
    requires Good(fmt) && Safe(fmt, org, s.world, s.rings) && Sound(s.rings.car) && Sound(s.rings.box)
    requires Running(s.world) && s.world.proc.phase.Idle? && s.world.proc.w.openBatch && next == DoCommit(fmt, s.world, now)
    requires CommittingInv(fmt, org, next, s.rings, s.srcs, goal) && Safe(fmt, org, next, s.rings)
    ensures Exact(fmt, org, StartCommitting(fmt, s, goal, now))
  {
    ExactCommitting(fmt, org, s.(world := next, pc := Committing(goal)), next, s.rings, s.srcs, goal);
  }

  lemma CommitsNotes(fmt: Format, org: Origin, s: State, goal: Goal, now: Clock, b: Tally, f: Tally)
    requires Good(fmt) && Safe(fmt, org, s.world, s.rings) && Sound(s.rings.car) && Sound(s.rings.box)
    requires Running(s.world) && s.world.proc.phase.Idle? && s.world.proc.booted && (goal.Batch? || goal.Last?)
    requires b == Behind(fmt, s.world) && f == Ahead(fmt, s.world) && (!s.world.proc.w.openBatch ==> Quiet(s.world))
    requires Beyond(b, f, s.rings) && ExactlyOnce(org, f, s.rings) && Releases(f, s.rings, s.srcs, 0) && Steps(b, s.rings, s.srcs)
    ensures Exact(fmt, org, StartCommitting(fmt, s, goal, now))
  {
    if s.world.proc.w.openBatch {
      var next := DoCommit(fmt, s.world, now);
      CommitStarts(fmt, org, s.world, s.rings, now, next);
      CommitsOpen(fmt, org, s, goal, now, next);
    } else {
      UpSizes(fmt, s.world);
      NoBatch(fmt, s.world);
      CommitsNone(fmt, org, s, goal, now);
    }
  }

  /** Noting the batch's place and starting its commit keeps the invariant. */
  lemma BatchKeeps(fmt: Format, org: Origin, s: State, notes: Ns<Clock>, now: Clock, stop: bool)
    requires Good(fmt) && Exact(fmt, org, s) && CanBatch(s, now, stop)
    ensures Exact(fmt, org, DoBatch(fmt, s, notes, now, stop))
  {
    var b, a := Behind(fmt, s.world), Ahead(fmt, s.world);
    var w0 := Noted(fmt, s.world.proc.w, s.srcs.car, 0, notes.car, now).1;
    var w1 := Noted(fmt, w0, s.srcs.box, 1, notes.box, now).1;
    var noted := WithWal(s.world, w1);
    var f := NotedTally(NotedTally(a, s.srcs.car, 0), s.srcs.box, 1);
    ExactDrains(fmt, org, s);
    SafeBehind(fmt, org, s.world, s.rings);
    BothNoted(fmt, org, s.world, s.rings, s.srcs, notes, now, w0, w1, noted, f);
    NotesSayHeld(org, b, a, s.rings, s.srcs, f);
    NotesRelease(org, b, a, s.rings, s.srcs, f);
    DoBatchIs(fmt, s, notes, now, stop, w0, w1, if stop then Last else Batch);
    NoNotes(fmt, s.world.proc.w, s.srcs, notes, now, w0, w1);
    CommitsNotes(fmt, org, s.(world := noted), if stop then Last else Batch, now, b, f);
  }

  lemma NoNotes(fmt: Format, w: Wal, srcs: Ns<Source>, notes: Ns<Clock>, now: Clock, w0: Wal, w1: Wal)
    requires w0 == Noted(fmt, w, srcs.car, 0, notes.car, now).1 && w1 == Noted(fmt, w0, srcs.box, 1, notes.box, now).1
    ensures !srcs.car.added && !srcs.box.added ==> w1 == w
  {}

  // ------------------------------------------------------------------ opening

  lemma OpeningSame(t: Tally, rings: Ns<Ring>, srcs: Ns<Source>, w: Wal, v: Wal, done: nat)
    requires Opening(t, rings, srcs, w, done) && v.recovered == w.recovered
    ensures Opening(t, rings, srcs, v, done)
  {}

  lemma OpeningSet(t: Tally, rings: Ns<Ring>, srcs: Ns<Source>, w: Wal, ns: nat)
    requires ns < 2 && Opening(t, rings, srcs, w, ns) && srcs.At(ns).attached
    ensures Opening(Count(t, RingGen(ns, rings.At(ns).gen)), rings,
                    srcs.Set(ns, SkipSet(srcs.At(ns), rings.At(ns), ns, w)), w, ns + 1)
  {}

  lemma OpeningAbsent(t: Tally, rings: Ns<Ring>, srcs: Ns<Source>, w: Wal)
    requires Opening(t, rings, srcs, w, 1) && !srcs.box.attached
    ensures Opening(t, rings, srcs, w, 2)
  {}

  lemma OpeningDrains(org: Origin, t: Tally, rings: Ns<Ring>, srcs: Ns<Source>, w: Wal)
    requires Opening(t, rings, srcs, w, 2) && ExactlyOnce(org, t, rings)
    ensures Drained(org, t, t, rings, srcs)
  {}

  lemma OpeningStarts(org: Origin, t: Tally, rings: Ns<Ring>, w: Wal, probe: bool)
    requires ExactlyOnce(org, t, rings) && Sound(rings.car) && Sound(rings.box)
    requires Right(w.recovered, rings.car, 0, Logged(t, rings.car, 0))
    requires probe ==> Right(w.recovered, rings.box, 1, Logged(t, rings.box, 1))
    ensures Opening(t, rings, Ns(Fresh(true), Fresh(probe)), w, 0)
  {}

  lemma GenerationOwed(org: Origin, t: Tally, rings: Ns<Ring>, ns: nat)
    requires ns < 2 && ExactlyOnce(org, t, rings)
    ensures ExactlyOnce(org, Count(t, RingGen(ns, rings.At(ns).gen)), rings)
    ensures Beyond(t, Count(t, RingGen(ns, rings.At(ns).gen)), rings)
  {}

  lemma ExactPreparing(fmt: Format, org: Origin, s: State, world: World, rings: Ns<Ring>, srcs: Ns<Source>,
                       goal: Goal)
    requires Safe(fmt, org, world, rings) && PreparingInv(fmt, world, rings, srcs, goal)
    requires Sound(rings.car) && Sound(rings.box) && s == State(world, rings, srcs, Preparing(goal))
    ensures Exact(fmt, org, s)
  {}

  /** The newest segment's scan gives each ring storaged will drain the right place to go on from. */
  predicate Resumes(fmt: Format, s: State, probe: bool) {
    var scan, t := ScanOf(fmt.codec, fmt.view, s.world.file), Left(fmt, s.world, s.world.file);
    && Right(scan, s.rings.car, 0, Logged(t, s.rings.car, 0))
    && (probe ==> Right(scan, s.rings.box, 1, Logged(t, s.rings.box, 1)))
  }

  lemma NamedIsRight(fmt: Format, file: seq<byte>, ring: Ring, ns: nat, t: Tally)
    requires ns < 2 && t == TallyOf(fmt, Committed(fmt.codec, fmt.view, file)) && Named(t, ring, ns)
    ensures Right(ScanOf(fmt.codec, fmt.view, file), ring, ns, Logged(t, ring, ns))
  {
    TallyIsScan(fmt, file);
    PlaceIsLast(fmt, Committed(fmt.codec, fmt.view, file), ns);
  }

  lemma AllCommitted(fmt: Format, s: World)
    requires s.older == []
    ensures forall left :: Left(fmt, s, left) == TallyOf(fmt, Committed(fmt.codec, fmt.view, left))
  {
    forall left ensures Left(fmt, s, left) == TallyOf(fmt, Committed(fmt.codec, fmt.view, left)) {
      assert [] + Committed(fmt.codec, fmt.view, left) == Committed(fmt.codec, fmt.view, left);
    }
  }

  /** In a directory of one segment, with places of these rings only, every restart resumes. */
  lemma SoleResumes(fmt: Format, org: Origin, s: State, probe: bool)
    requires Good(fmt) && Exact(fmt, org, s) && org.sole && org.named
    ensures Resumes(fmt, s, probe)
  {
    var t := Left(fmt, s.world, s.world.file);
    FileIsLeaf(fmt, s.world);
    assert CutSafe(fmt, org, s.world, s.rings, s.world.file);
    AllCommitted(fmt, s.world);
    NamedIsRight(fmt, s.world.file, s.rings.car, 0, t);
    NamedIsRight(fmt, s.world.file, s.rings.box, 1, t);
  }

  lemma FileIsLeaf(fmt: Format, world: World)
    requires Inv(fmt, world)
    ensures Leaves(world, world.file)
  {}

  /** A version of the file cut between its committed end and its durable bytes has the same log. */
  lemma CutBelowDurable(fmt: Format, world: World, k: nat, left: seq<byte>, v: seq<byte>)
    requires Good(fmt) && Inv(fmt, world) && (v == world.file || v in world.past) && left <= v
    requires ScanOf(fmt.codec, fmt.view, world.file).committedLen <= k <= |left| < world.durable
    ensures Left(fmt, world, left) == Left(fmt, world, world.file)
  {
    assert v in world.past ==> PastOk(fmt, world.first, world.file[..world.durable], v);
    assert left == v[..|left|] == world.file[..|left|];
    CutKeepsCommitted(fmt.codec, fmt.view, world.file, |left|);
  }

  lemma OpenSafe(fmt: Format, org: Origin, world: World, rings: Ns<Ring>, next: World)
    requires Good(fmt) && Safe(fmt, org, world, rings) && Inv(fmt, next) && !Booted(next) && next.older == world.older
    requires next.file <= world.file && next.past <= world.past + {world.file}
    requires next.durable == world.durable || ScanOf(fmt.codec, fmt.view, world.file).committedLen <= next.durable <= world.durable
    ensures Safe(fmt, org, next, rings)
  {
    forall left | Leaves(next, left) ensures CutSafe(fmt, org, next, rings, left) {
      OpenCutSafe(fmt, org, world, rings, next, left, if left <= next.file then world.file else Whose(next, left));
    }
  }

  lemma OpenCutSafe(fmt: Format, org: Origin, world: World, rings: Ns<Ring>, next: World, left: seq<byte>, v: seq<byte>)
    requires Good(fmt) && Safe(fmt, org, world, rings) && !Booted(next) && next.older == world.older && next.durable <= |left|
    requires (v == world.file || v in world.past) && left <= v
    requires next.durable == world.durable || ScanOf(fmt.codec, fmt.view, world.file).committedLen <= next.durable <= world.durable
    ensures CutSafe(fmt, org, next, rings, left)
  {
    if world.durable <= |left| {
      assert CutSafe(fmt, org, world, rings, left);
    } else {
      FileIsLeaf(fmt, world);
      CutBelowDurable(fmt, world, next.durable, left, v);
      assert CutSafe(fmt, org, world, rings, world.file);
    }
  }

  ghost function Whose(s: World, left: seq<byte>): (v: seq<byte>)
    requires Leaves(s, left) && !(left <= s.file)
    ensures v in s.past && left <= v
  {
    var v :| v in s.past && left <= v; v
  }

  /** A restart that resumes keeps the invariant. */
  lemma StartKeeps(fmt: Format, org: Origin, s: State, src: u8, flags: u8, probe: bool, created: bool,
                   entrySynced: bool,
                   world: World)
    requires Good(fmt) && Exact(fmt, org, s) && s.world.proc.Down? && SrcOk(src) && Resumes(fmt, s, probe)
    requires world == DoOpen(fmt, s.world, src, flags, created, entrySynced)
    ensures Exact(fmt, org, Started(s, probe, world))
  {
    var t := Left(fmt, s.world, s.world.file);
    OpenKeeps(fmt, s.world, src, flags, created, entrySynced);
    OpenedTallies(fmt, s.world, src, flags, created, entrySynced, world);
    OpenedIsNew(fmt, s.world, src, flags, created, entrySynced);
    OpenSafe(fmt, org, s.world, s.rings, world);
    FileIsLeaf(fmt, s.world);
    assert CutSafe(fmt, org, s.world, s.rings, s.world.file);
    if !world.proc.Down? {
      OpeningStarts(org, t, s.rings, if world.proc.Up? then world.proc.w else world.proc.writer, probe);
      var srcs := Ns(Fresh(true), Fresh(probe));
      ExactPreparing(fmt, org, State(world, s.rings, srcs, Preparing(Boot)), world, s.rings, srcs, Boot);
    }
  }

  lemma OpenedIsNew(fmt: Format, s: World, src: u8, flags: u8, created: bool, entrySynced: bool)
    requires s.proc.Down?
    ensures var t := DoOpen(fmt, s, src, flags, created, entrySynced); 
            && (t.proc.Up? ==> Quiet(t) && !t.proc.booted)
            && (t.proc.Truncating? ==> !t.proc.writer.openBatch && t.proc.writer.batchSamples == 0)
  {}

  lemma CutBackWorld(fmt: Format, org: Origin, before: World, rings: Ns<Ring>, world: World)
    requires Good(fmt) && Safe(fmt, org, before, rings) && before.proc.Truncating? && world == DoTruncated(before)
    requires before.proc.writer.batchSamples == 0 && !before.proc.writer.openBatch
    ensures Safe(fmt, org, world, rings) && Quiet(world) && Behind(fmt, world) == Left(fmt, before, before.file)
  {
    TruncatedKeeps(fmt, before);
    TruncatedTallies(fmt, before);
    FileIsLeaf(fmt, before);
    assert CutSafe(fmt, org, before, rings, before.file);
    SafeDurable(fmt, org, world, rings, Behind(fmt, world));
  }

  /** Recovery's truncation becomes durable. */
  lemma CutBackKeeps(fmt: Format, org: Origin, s: State, goal: Goal, world: World)
    requires Good(fmt) && Exact(fmt, org, s) && s.pc == Preparing(goal) && s.world.proc.Truncating?
    requires world == DoTruncated(s.world)
    ensures Exact(fmt, org, s.(world := world))
  {
    CutBackWorld(fmt, org, s.world, s.rings, world);
    ExactPreparing(fmt, org, s.(world := world), world, s.rings, s.srcs, goal);
  }

  // ------------------------------------------------------------------ the opening records

  /** The boot and shutdown records are always taken, and say nothing about the rings. */
  lemma PlainAdds(fmt: Format, org: Origin, world: World, rings: Ns<Ring>, kind: u16, body: seq<byte>, t: Clock,
                  now: Clock, v: Wal)
    requires Good(fmt) && Safe(fmt, org, world, rings) && Quiet(world)
    requires (kind == BOOT && |body| == BOOT_LEN) || (kind == SHUTDOWN && |body| == 8)
    requires v == Add(fmt, world.proc.w, kind, world.proc.w.src, t, body, now).1
    ensures Add(fmt, world.proc.w, kind, world.proc.w.src, t, body, now).0 && v.openBatch
    ensures v.recovered == world.proc.w.recovered && Safe(fmt, org, WithWal(world, v), rings)
    ensures Behind(fmt, WithWal(world, v)) == Behind(fmt, world) == Ahead(fmt, WithWal(world, v))
  {
    UpSizes(fmt, world);
    var w := world.proc.w;
    AddTakes(fmt, w, kind, w.src, t, body, now);
    AddFacts(fmt, w, kind, w.src, t, body, now);
    AddKeeps(fmt, world, kind, w.src, t, body, now, v);
    AddIsQuiet(fmt, org, world, rings, v, WithWal(world, v));
    PlainCounts(fmt, CommittedLog(fmt, world), w, kind, w.src, t, body, now, v);
    NoBatch(fmt, world);
  }

  lemma GenerationAdds(fmt: Format, org: Origin, world: World, rings: Ns<Ring>, ns: nat, t: Clock, now: Clock,
                       v: Wal)
    requires Good(fmt) && Safe(fmt, org, world, rings) && Quiet(world) && ns < 2
    requires v == NoteRing(fmt, world.proc.w, EV_RING_GEN, ns, rings.At(ns).gen, t, now).1
    ensures NoteRing(fmt, world.proc.w, EV_RING_GEN, ns, rings.At(ns).gen, t, now).0 && v.openBatch
    ensures v.recovered == world.proc.w.recovered && Safe(fmt, org, WithWal(world, v), rings)
    ensures Behind(fmt, WithWal(world, v)) == Behind(fmt, world)
    ensures Ahead(fmt, WithWal(world, v)) == Count(Behind(fmt, world), RingGen(ns, rings.At(ns).gen))
  {
    UpSizes(fmt, world);
    var w := world.proc.w;
    NoteAdds(fmt, org, world, rings, EV_RING_GEN, ns, rings.At(ns).gen, t, now, v);
    AddFacts(fmt, w, EVENT, w.src, t, EventBody(EV_RING_GEN, EventText(EV_RING_GEN, ns, rings.At(ns).gen)), now);
    NoBatch(fmt, world);
  }

  lemma GoalAdds(fmt: Format, org: Origin, s: State, goal: Goal, t: Clock, now: Clock, v: Wal, world: World)
    requires Good(fmt) && Safe(fmt, org, s.world, s.rings) && Quiet(s.world) && GoalOk(goal)
    requires PrepareInv(goal, Behind(fmt, s.world), s.rings, s.srcs, s.world.proc.w)
    requires v == AddGoal(fmt, s, goal, t, now).1 && world == WithWal(s.world, v)
    ensures AddGoal(fmt, s, goal, t, now).0 && v.openBatch && Safe(fmt, org, world, s.rings)
    ensures ExactlyOnce(org, Ahead(fmt, world), s.rings) && After(goal, Ahead(fmt, world), s.rings, s.srcs, v)
    ensures Behind(fmt, world) == Behind(fmt, s.world) && Beyond(Behind(fmt, world), Ahead(fmt, world), s.rings)
  {
    var b, w := Behind(fmt, s.world), s.world.proc.w;
    SafeBehind(fmt, org, s.world, s.rings);
    if goal.Boot? {
      PlainAdds(fmt, org, s.world, s.rings, BOOT, BootBody(w), t, now, v);
      OpeningSame(b, s.rings, s.srcs, w, v, 0);
    } else if goal.Generation? {
      GenerationAdds(fmt, org, s.world, s.rings, goal.ns, t, now, v);
      GenerationOwed(org, b, s.rings, goal.ns);
      OpeningSame(Ahead(fmt, world), s.rings, s.srcs, w, v, goal.ns + 1);
    } else {
      PlainAdds(fmt, org, s.world, s.rings, SHUTDOWN, ShutdownBody(), t, now, v);
    }
  }

  lemma AfterSame(goal: Goal, t: Tally, rings: Ns<Ring>, srcs: Ns<Source>, w: Wal, v: Wal)
    requires After(goal, t, rings, srcs, w) && v.recovered == w.recovered
    ensures After(goal, t, rings, srcs, v)
  {
    if goal.Boot? {
      OpeningSame(t, rings, srcs, w, v, 0);
    } else if goal.Generation? {
      OpeningSame(t, rings, srcs, w, v, goal.ns + 1);
    }
  }

  /** Adding the boot, generation or shutdown record and starting its commit keeps the invariant. */
  lemma PrepareKeeps(fmt: Format, org: Origin, s: State, goal: Goal, t: Clock, now: Clock)
    requires Good(fmt) && Exact(fmt, org, s) && s.pc == Preparing(goal) && Running(s.world) && GoalOk(goal)
    ensures Exact(fmt, org, DoPrepare(fmt, s, t, now))
  {
    var v := AddGoal(fmt, s, goal, t, now).1;
    var world := WithWal(s.world, v);
    GoalAdds(fmt, org, s, goal, t, now, v, world);
    var next := DoCommit(fmt, world, now);
    CommitStarts(fmt, org, world, s.rings, now, next);
    AfterSame(goal, Ahead(fmt, world), s.rings, s.srcs, v, next.proc.w);
    ExactCommitting(fmt, org, s.(world := next, pc := Committing(goal)), next, s.rings, s.srcs, goal);
  }

  // ------------------------------------------------------------------ the end of a commit

  lemma DrainingFrom(fmt: Format, org: Origin, s: State)
    requires Good(fmt) && Safe(fmt, org, s.world, s.rings) && Quiet(s.world) && s.world.proc.booted && s.pc.Draining?
    requires Drained(org, Behind(fmt, s.world), Behind(fmt, s.world), s.rings, s.srcs)
    requires !s.srcs.car.added && !s.srcs.box.added && Sound(s.rings.car) && Sound(s.rings.box)
    ensures Exact(fmt, org, s)
  {
    UpSizes(fmt, s.world);
    NoBatch(fmt, s.world);
    ExactDraining(fmt, org, s, s.world, s.rings, s.srcs);
  }

  lemma GenerationNext(fmt: Format, org: Origin, s: State, ns: nat)
    requires Good(fmt) && Safe(fmt, org, s.world, s.rings) && Quiet(s.world) && s.world.proc.booted && ns <= 2
    requires Sound(s.rings.car) && Sound(s.rings.box) && s.srcs.car.attached
    requires Opening(Behind(fmt, s.world), s.rings, s.srcs, s.world.proc.w, ns)
    ensures Exact(fmt, org, NextGeneration(s, ns))
    decreases 2 - ns
  {
    var b, w := Behind(fmt, s.world), s.world.proc.w;
    var t := NextGeneration(s, ns);
    if ns == 2 {
      SafeBehind(fmt, org, s.world, s.rings);
      OpeningDrains(org, b, s.rings, s.srcs, w);
      DrainingFrom(fmt, org, t);
    } else if s.srcs.At(ns).attached {
      OpeningSet(b, s.rings, s.srcs, w, ns);
      ExactPreparing(fmt, org, t, t.world, t.rings, t.srcs, Generation(ns));
    } else {
      OpeningAbsent(b, s.rings, s.srcs, w);
      GenerationNext(fmt, org, s, ns + 1);
    }
  }

  lemma SuccessKeeps(fmt: Format, org: Origin, s: State, goal: Goal)
    requires Good(fmt) && Safe(fmt, org, s.world, s.rings) && Quiet(s.world) && s.world.proc.booted
    requires Sound(s.rings.car) && Sound(s.rings.box)
    requires After(goal, Behind(fmt, s.world), s.rings, s.srcs, s.world.proc.w)
    ensures Exact(fmt, org, OnSuccess(s, goal))
  {
    var t := OnSuccess(s, goal);
    match goal
    case Boot => GenerationNext(fmt, org, s, 0);
    case Generation(ns) => GenerationNext(fmt, org, s, ns + 1);
    case Batch => ExactReleasing(fmt, org, t, t.world, t.rings, t.srcs, 0, false);
    case Last => ExactReleasing(fmt, org, t, t.world, t.rings, t.srcs, 0, true);
    case End =>
  }

  lemma SyncWorld(fmt: Format, org: Origin, world: World, rings: Ns<Ring>, next: World)
    requires Good(fmt) && Safe(fmt, org, world, rings) && Running(world) && CanSync(fmt, world) && next == DoSynced(fmt, world)
    requires ExactlyOnce(org, Ahead(fmt, world), rings)
    ensures Safe(fmt, org, next, rings) && Behind(fmt, next) == Ahead(fmt, world)
    ensures Running(next) && next.proc.w.recovered == world.proc.w.recovered && next.proc.booted && next.proc.w.batchSamples == 0
    ensures next.proc.phase.Rotating? ==> next.past == {}
    ensures !next.proc.phase.Rotating? ==> Quiet(next)
  {
    UpSizes(fmt, world);
    SyncStepKeeps(fmt, world);
    SyncedTallies(fmt, world);
    SyncedLeaf(fmt, world, next);
    SafeDurable(fmt, org, next, rings, Behind(fmt, next));
  }

  lemma SyncedLeaf(fmt: Format, world: World, next: World)
    requires Good(fmt) && Running(world) && CanSync(fmt, world) && next == DoSynced(fmt, world) && Inv(fmt, next)
    requires next.durable == |next.file| == next.proc.w.segBytes
    ensures Left(fmt, next, next.file) == Behind(fmt, next)
  {
    CutAtBase(fmt, next);
    assert next.file[..|next.file|] == next.file;
  }

  /** A successful fsync keeps the invariant. */
  lemma SyncKeeps(fmt: Format, org: Origin, s: State)
    requires Good(fmt) && Exact(fmt, org, s) && s.pc.Committing? && CanSync(fmt, s.world)
    ensures Exact(fmt, org, DoSync(fmt, s))
  {
    var world := DoSynced(fmt, s.world);
    SyncWorld(fmt, org, s.world, s.rings, world);
    AfterSame(s.pc.goal, Ahead(fmt, s.world), s.rings, s.srcs, s.world.proc.w, world.proc.w);
    if !world.proc.phase.Rotating? { SuccessKeeps(fmt, org, s.(world := world), s.pc.goal); }
  }

  lemma FailWorld(fmt: Format, org: Origin, world: World, rings: Ns<Ring>, next: World)
    requires Good(fmt) && Safe(fmt, org, world, rings) && Running(world) && world.proc.phase.Writing? && next == DoFailed(world)
    ensures Safe(fmt, org, next, rings) && Behind(fmt, next) == Behind(fmt, world)
    ensures Quiet(next) && next.proc.booted == world.proc.booted
  {
    FailedKeeps(fmt, world);
    FailedTallies(fmt, world);
    FewerLeaves(world, next);
    SafeSame(fmt, org, world, rings, next);
  }

  lemma StepsDrain(org: Origin, b: Tally, rings: Ns<Ring>, srcs: Ns<Source>, cleared: Ns<Source>)
    requires Steps(b, rings, srcs) && ExactlyOnce(org, b, rings) && cleared == Ns(Cleared(srcs.car), Cleared(srcs.box))
    ensures Drained(org, b, b, rings, cleared)
  {}

  /** A failed write or fsync drops the batch and starts again from the rings. */
  lemma FailKeeps(fmt: Format, org: Origin, s: State)
    requires Good(fmt) && Exact(fmt, org, s) && s.pc.Committing? && Running(s.world) && s.world.proc.phase.Writing?
    ensures Exact(fmt, org, OnFailure(s.(world := DoFailed(s.world)), s.pc.goal))
  {
    var world := DoFailed(s.world);
    FailWorld(fmt, org, s.world, s.rings, world);
    var t := OnFailure(s.(world := world), s.pc.goal);
    if s.pc.goal.Batch? {
      SafeBehind(fmt, org, world, s.rings);
      StepsDrain(org, Behind(fmt, world), s.rings, s.srcs, t.srcs);
      DrainingFrom(fmt, org, t);
    } else if s.pc.goal.Last? {
      ExactPreparing(fmt, org, t, world, s.rings, s.srcs, End);
    }
  }

  // ------------------------------------------------------------------ releasing

  /** A tail moved within what is committed is within what every file that can be left holds. */
  lemma SafeMoved(fmt: Format, org: Origin, world: World, rings: Ns<Ring>, ns: nat, ring: Ring)
    requires ns < 2 && Safe(fmt, org, world, rings) && Booted(world)
    requires ring == rings.At(ns).(tail := ring.tail) && ring.tail <= Logged(Behind(fmt, world), ring, ns)
    ensures Safe(fmt, org, world, rings.Set(ns, ring))
  {
    var b := Behind(fmt, world);
    forall left | Leaves(world, left) ensures CutSafe(fmt, org, world, rings.Set(ns, ring), left) {
      assert CutSafe(fmt, org, world, rings, left);
      MovedOwed(org, b, Left(fmt, world, left), rings, ns, ring);
    }
  }

  lemma MovedOwed(org: Origin, b: Tally, t: Tally, rings: Ns<Ring>, ns: nat, ring: Ring)
    requires ns < 2 && ExactlyOnce(org, t, rings) && Beyond(b, t, rings)
    requires ring == rings.At(ns).(tail := ring.tail) && ring.tail <= Logged(b, ring, ns)
    ensures ExactlyOnce(org, t, rings.Set(ns, ring)) && Beyond(b, t, rings.Set(ns, ring))
  {}

  lemma ReleasedTail(t: Tally, ring: Ring, src: Source, ns: nat)
    requires ns < 2 && ReleaseNs(t, ring, src, ns, true)
    ensures Released(ring, src) == ring.(tail := Released(ring, src).tail) && Released(ring, src).tail <= Logged(t, Released(ring, src), ns)
  {}

  lemma ReleasesNext(t: Tally, rings: Ns<Ring>, srcs: Ns<Source>, ns: nat)
    requires ns < 2 && Releases(t, rings, srcs, ns)
    ensures Releases(t, rings.Set(ns, Released(rings.At(ns), srcs.At(ns))), srcs.Set(ns, Cleared(srcs.At(ns))), ns + 1)
  {}

  lemma ReleasesDrain(org: Origin, t: Tally, rings: Ns<Ring>, srcs: Ns<Source>)
    requires Releases(t, rings, srcs, 2) && ExactlyOnce(org, t, rings)
    ensures Drained(org, t, t, rings, srcs) && !srcs.car.added && !srcs.box.added
  {}

  lemma ReleaseOne(fmt: Format, org: Origin, s: State, ns: nat, stopping: bool, rings: Ns<Ring>,
                   srcs: Ns<Source>)
    requires Good(fmt) && Safe(fmt, org, s.world, s.rings) && Quiet(s.world) && s.world.proc.booted && ns < 2
    requires Releases(Behind(fmt, s.world), s.rings, s.srcs, ns) && Sound(s.rings.car) && Sound(s.rings.box)
    requires rings == s.rings.Set(ns, Released(s.rings.At(ns), s.srcs.At(ns)))
    requires srcs == s.srcs.Set(ns, Cleared(s.srcs.At(ns)))
    ensures Exact(fmt, org, State(s.world, rings, srcs, Releasing(ns + 1, stopping)))
  {
    ReleasesOne(fmt, org, s.world, s.rings, s.srcs, ns, rings.At(ns));
    ExactReleasing(fmt, org, State(s.world, rings, srcs, Releasing(ns + 1, stopping)), s.world, rings, srcs, ns + 1, stopping);
  }

  lemma ReleasesOne(fmt: Format, org: Origin, world: World, rings: Ns<Ring>, srcs: Ns<Source>, ns: nat, ring: Ring)
    requires Safe(fmt, org, world, rings) && Booted(world) && ns < 2 && Releases(Behind(fmt, world), rings, srcs, ns)
    requires ring == Released(rings.At(ns), srcs.At(ns))
    ensures Safe(fmt, org, world, rings.Set(ns, ring))
    ensures Releases(Behind(fmt, world), rings.Set(ns, ring), srcs.Set(ns, Cleared(srcs.At(ns))), ns + 1)
  {
    ReleasedTail(Behind(fmt, world), rings.At(ns), srcs.At(ns), ns);
    SafeMoved(fmt, org, world, rings, ns, ring);
    ReleasesNext(Behind(fmt, world), rings, srcs, ns);
  }

  /** Releasing a ring's committed slots keeps the invariant: no unlogged slot is ever released. */
  lemma ReleaseKeeps(fmt: Format, org: Origin, s: State, ns: nat, stopping: bool)
    requires Good(fmt) && Exact(fmt, org, s) && s.pc == Releasing(ns, stopping)
    ensures Exact(fmt, org, DoRelease(s))
  {
    var t := DoRelease(s);
    if ns < 2 {
      ReleaseOne(fmt, org, s, ns, stopping, t.rings, t.srcs);
    } else if stopping {
      ExactPreparing(fmt, org, t, t.world, t.rings, t.srcs, End);
    } else {
      SafeBehind(fmt, org, s.world, s.rings);
      ReleasesDrain(org, Behind(fmt, s.world), s.rings, s.srcs);
      DrainingFrom(fmt, org, t);
    }
  }

  lemma WriteMoveKeeps(fmt: Format, org: Origin, s: State, n: nat, next: World)
    requires Good(fmt) && Exact(fmt, org, s) && s.pc.Committing? && CanWrite(fmt, s.world, n) && next == DoWrite(fmt, s.world, n)
    ensures Exact(fmt, org, s.(world := next))
  {
    SafeAfterWrite(fmt, org, s.world, s.rings, n, next);
    WroteTallies(fmt, s.world, n);
    ExactCommitting(fmt, org, s.(world := next), next, s.rings, s.srcs, s.pc.goal);
  }

  lemma KillKeeps(fmt: Format, org: Origin, s: State)
    requires Good(fmt) && Exact(fmt, org, s)
    ensures Exact(fmt, org, s.(world := s.world.(proc := Down), pc := Off))
  {
    var next := s.world.(proc := Down);
    ExitKeeps(fmt, s.world);
    forall left | Leaves(next, left) ensures CutSafe(fmt, org, next, s.rings, left) {
      assert Leaves(s.world, left);
      assert CutSafe(fmt, org, s.world, s.rings, left);
    }
  }

  // ------------------------------------------------------------------ rotation

  lemma ExactFull(fmt: Format, org: Origin, s: State, goal: Goal)
    requires Exact(fmt, org, s) && s.pc == Full(goal)
    ensures Safe(fmt, org, s.world, s.rings) && FullInv(fmt, s.world, s.rings, s.srcs, goal)
    ensures Sound(s.rings.car) && Sound(s.rings.box)
  {}

  /** Once a segment has been begun, the newest one need not tell where the rings stand. */
  function Onward(org: Origin, created: bool): Origin { if created then org.(sole := false) else org }

  /** Whatever create_segment comes to, the directory holds what it held. */
  lemma RotateWorld(fmt: Format, org: Origin, world: World, rings: Ns<Ring>, created: bool, entrySynced: bool, next: World)
    requires Good(fmt) && Safe(fmt, org, world, rings) && Running(world) && world.proc.phase.Rotating? && world.proc.booted
    requires world.past == {} && next == DoRotate(world, created, entrySynced)
    ensures Safe(fmt, Onward(org, created), next, rings) && Behind(fmt, next) == Behind(fmt, world)
  {
    SafeBehind(fmt, org, world, rings);
    RotateStepKeeps(fmt, world, created, entrySynced);
    RotatedTallies(fmt, world, created, entrySynced, next);
    RotatedFile(fmt, world, created, entrySynced, next);
    SafeDurable(fmt, Onward(org, created), next, rings, Behind(fmt, next));
  }

  lemma RotatedFile(fmt: Format, world: World, created: bool, entrySynced: bool, next: World)
    requires Good(fmt) && Inv(fmt, world) && world.proc.Up? && world.proc.phase.Rotating? && world.past == {}
    requires next == DoRotate(world, created, entrySynced)
    ensures next.durable == |next.file| && next.past == {} && Left(fmt, next, next.file) == Behind(fmt, next)
  {
    RotatingHasFd(fmt, world);
    UpBase(fmt, world);
    InvToUp(fmt, world);
    if created {
      NothingDecodesEmpty(fmt.codec);
    } else {
      assert world.file[..|world.file|] == world.file;
      LogFileReads(fmt, world.first, LogIn(fmt, world.file), world.file);
    }
  }

  lemma StuckFrom(t: Tally, ring: Ring, src: Source, ns: nat)
    requires ns < 2 && ReleaseNs(t, ring, src, ns, true)
    ensures SkipLogged(t, ring, src, ns)
  {}

  /** Rotation, however it ends, keeps the invariant of the directory. */
  lemma NewSegmentKeeps(fmt: Format, org: Origin, s: State, goal: Goal, created: bool, entrySynced: bool)
    requires Good(fmt) && Exact(fmt, org, s) && s.pc == Full(goal)
    ensures Exact(fmt, Onward(org, created), DoNewSegment(s, created, entrySynced))
  {
    var next := DoRotate(s.world, created, entrySynced);
    ExactFull(fmt, org, s, goal);
    RotateWorld(fmt, org, s.world, s.rings, created, entrySynced, next);
    var b := Behind(fmt, next);
    if created && entrySynced {
      InvToUp(fmt, s.world);
      AfterSame(goal, b, s.rings, s.srcs, s.world.proc.w, next.proc.w);
      SuccessKeeps(fmt, Onward(org, true), s.(world := next), goal);
    } else if goal.Batch? || goal.Last? {
      StuckFrom(b, s.rings.car, s.srcs.car, 0);
      StuckFrom(b, s.rings.box, s.srcs.box, 1);
    }
  }

  lemma ExactStuck(fmt: Format, org: Origin, s: State)
    requires Exact(fmt, org, s) && s.pc.Stuck?
    ensures Safe(fmt, org, s.world, s.rings) && StuckInv(fmt, s.world, s.rings, s.srcs) && Sound(s.rings.car) && Sound(s.rings.box)
  {}

  lemma StuckExact(fmt: Format, org: Origin, s: State)
    requires Safe(fmt, org, s.world, s.rings) && StuckInv(fmt, s.world, s.rings, s.srcs) && s.pc.Stuck?
    requires Sound(s.rings.car) && Sound(s.rings.box)
    ensures Exact(fmt, org, s)
  {}

  lemma SkimTail(t: Tally, ring: Ring, src: Source, ns: nat, moved: Ring)
    requires ns < 2 && SkipLogged(t, ring, src, ns) && src.attached && src.skip && moved.tail <= src.skipSeq + 1
    requires moved == ring.(tail := moved.tail)
    ensures moved.tail <= Logged(t, moved, ns) && SkipLogged(t, moved, src, ns)
  {}

  lemma SkimsLogged(t: Tally, rings: Ns<Ring>, srcs: Ns<Source>, ns: nat, moved: Ring)
    requires ns < 2 && SkipLogged(t, rings.car, srcs.car, 0) && SkipLogged(t, rings.box, srcs.box, 1)
    requires srcs.At(ns).attached && srcs.At(ns).skip && moved.tail <= srcs.At(ns).skipSeq + 1
    requires moved == rings.At(ns).(tail := moved.tail)
    ensures moved.tail <= Logged(t, moved, ns)
    ensures SkipLogged(t, rings.Set(ns, moved).car, srcs.car, 0) && SkipLogged(t, rings.Set(ns, moved).box, srcs.box, 1)
  {
    SkimTail(t, rings.At(ns), srcs.At(ns), ns, moved);
  }

  lemma SkimsStuck(fmt: Format, org: Origin, world: World, rings: Ns<Ring>, srcs: Ns<Source>, ns: nat, moved: Ring)
    requires Safe(fmt, org, world, rings) && StuckInv(fmt, world, rings, srcs) && ns < 2
    requires srcs.At(ns).attached && srcs.At(ns).skip && moved.tail <= srcs.At(ns).skipSeq + 1
    requires moved == rings.At(ns).(tail := moved.tail)
    ensures Safe(fmt, org, world, rings.Set(ns, moved)) && StuckInv(fmt, world, rings.Set(ns, moved), srcs)
  {
    SkimsLogged(Behind(fmt, world), rings, srcs, ns, moved);
    SafeMoved(fmt, org, world, rings, ns, moved);
  }

  lemma DoSkimIs(s: State, ns: nat, n: nat, ring: Ring, src: Source, moved: Ring)
    requires ns < 2 && CanSkim(s, ns, n) && ring == s.rings.At(ns) && src == s.srcs.At(ns)
    requires moved == Ring(ring.gen, ring.accepted, ring.tail + n)
    ensures DoSkim(s, ns, n) == State(s.world, s.rings.Set(ns, moved), s.srcs, Stuck)
    ensures src.attached && src.skip && moved.tail <= src.skipSeq + 1 && moved == ring.(tail := moved.tail)
  {}

  lemma SetKeepsSound(rings: Ns<Ring>, ns: nat, moved: Ring)
    requires ns < 2 && Sound(rings.car) && Sound(rings.box) && moved == rings.At(ns).(tail := moved.tail)
    ensures Sound(rings.Set(ns, moved).car) && Sound(rings.Set(ns, moved).box)
  {}

  /** With no segment, slots that the log held from the start may still be released. */
  lemma SkimKeeps(fmt: Format, org: Origin, s: State, ns: nat, n: nat)
    requires Exact(fmt, org, s) && ns < 2 && CanSkim(s, ns, n)
    ensures Exact(fmt, org, DoSkim(s, ns, n))
  {
    var ring, src := s.rings.At(ns), s.srcs.At(ns);
    var moved := Ring(ring.gen, ring.accepted, ring.tail + n);
    ExactStuck(fmt, org, s);
    DoSkimIs(s, ns, n, ring, src, moved);
    SkimsStuck(fmt, org, s.world, s.rings, s.srcs, ns, moved);
    SetKeepsSound(s.rings, ns, moved);
    StuckExact(fmt, org, State(s.world, s.rings.Set(ns, moved), s.srcs, Stuck));
  }

  // ------------------------------------------------------------------ every step, every run

  /** What the directory began with, as far as the invariant after this step needs it. */
  function NextOrigin(org: Origin, m: Move): Origin { if m.NewSegment? then Onward(org, m.created) else org }

  /** A restart must resume, which in a directory of one segment of these rings it does. */
  predicate MayStart(fmt: Format, org: Origin, s: State, m: Move) {
    m.Start? ==> (org.sole && org.named) || Resumes(fmt, s, m.probe)
  }

  /** Every step of storaged, every push and every kill keeps the invariant. */
  lemma MoveKeeps(fmt: Format, org: Origin, s: State, m: Move)
    requires Good(fmt) && Exact(fmt, org, s) && Storaged.Enabled(fmt, s, m) && MayStart(fmt, org, s, m)
    ensures Exact(fmt, NextOrigin(org, m), Storaged.Apply(fmt, s, m))
  {
    if m.Push? {
      PushMoveKeeps(fmt, org, s, m);
    } else if m.Skim? {
      SkimMoveKeeps(fmt, org, s, m);
    } else if m.Start? {
      StartMoveKeeps(fmt, org, s, m);
    } else if m.WriteSome? || m.Sync? || m.Fail? {
      CommitMoveKeeps(fmt, org, s, m);
    } else if m.NewSegment? {
      NewSegmentKeeps(fmt, org, s, s.pc.goal, m.created, m.entrySynced);
    } else {
      LogMoveKeeps(fmt, org, s, m);
    }
  }

  lemma PushMoveKeeps(fmt: Format, org: Origin, s: State, m: Move)
    requires Exact(fmt, org, s) && Storaged.Enabled(fmt, s, m) && m.Push?
    ensures Exact(fmt, org, Storaged.Apply(fmt, s, m))
  {
    PushKeeps(fmt, org, s, m.ns, m.slot);
  }

  lemma SkimMoveKeeps(fmt: Format, org: Origin, s: State, m: Move)
    requires Exact(fmt, org, s) && Storaged.Enabled(fmt, s, m) && m.Skim?
    ensures Exact(fmt, org, Storaged.Apply(fmt, s, m))
  {
    SkimKeeps(fmt, org, s, m.ns, m.n);
  }

  lemma CommitMoveKeeps(fmt: Format, org: Origin, s: State, m: Move)
    requires Good(fmt) && Exact(fmt, org, s) && Storaged.Enabled(fmt, s, m) && (m.WriteSome? || m.Sync? || m.Fail?)
    ensures Exact(fmt, org, Storaged.Apply(fmt, s, m))
  {
    if m.WriteSome? {
      WriteMoveKeeps(fmt, org, s, m.n, DoWrite(fmt, s.world, m.n));
    } else if m.Sync? {
      SyncKeeps(fmt, org, s);
    } else {
      FailKeeps(fmt, org, s);
    }
  }

  lemma LogMoveKeeps(fmt: Format, org: Origin, s: State, m: Move)
    requires Good(fmt) && Exact(fmt, org, s) && Storaged.Enabled(fmt, s, m)
    requires m.CutBack? || m.Prepare? || m.Take? || m.Batched? || m.Release? || m.Kill?
    ensures Exact(fmt, org, Storaged.Apply(fmt, s, m))
  {
    if m.CutBack? {
      CutBackKeeps(fmt, org, s, s.pc.goal, DoTruncated(s.world));
    } else if m.Prepare? {
      PrepareKeeps(fmt, org, s, s.pc.goal, m.t, m.now);
    } else if m.Take? {
      TakeKeeps(fmt, org, s, m.ns, m.at, m.now);
    } else if m.Release? {
      ReleaseKeeps(fmt, org, s, s.pc.next, s.pc.stopping);
    } else if m.Batched? {
      BatchKeeps(fmt, org, s, m.notes, m.now, m.stop);
    } else {
      KillKeeps(fmt, org, s);
    }
  }

  lemma StartMoveKeeps(fmt: Format, org: Origin, s: State, m: Move)
    requires Good(fmt) && Exact(fmt, org, s) && m.Start? && Storaged.Enabled(fmt, s, m) && MayStart(fmt, org, s, m)
    ensures Exact(fmt, org, Storaged.Apply(fmt, s, m))
  {
    if org.sole && org.named { SoleResumes(fmt, org, s, m.probe); }
    StartKeeps(fmt, org, s, m.src, m.flags, m.probe, m.created, m.entrySynced,
               DoOpen(fmt, s.world, m.src, m.flags, m.created, m.entrySynced));
  }

  ghost predicate CanRun(fmt: Format, s: State, moves: seq<Move>)
    decreases |moves|
  {
    moves == [] || (Storaged.Enabled(fmt, s, moves[0]) && CanRun(fmt, Storaged.Apply(fmt, s, moves[0]), moves[1..]))
  }

  function Run(fmt: Format, s: State, moves: seq<Move>): State
    requires CanRun(fmt, s, moves)
    decreases |moves|
  {
    if moves == [] then s else Run(fmt, Storaged.Apply(fmt, s, moves[0]), moves[1..])
  }

  /** Every restart in the run resumes: the newest segment's scan gives the right places. While the directory
      has one segment, all do. */
  predicate AllResume(fmt: Format, org: Origin, s: State, moves: seq<Move>)
    requires CanRun(fmt, s, moves)
    decreases |moves|
  {
    if moves == [] then true else
    && MayStart(fmt, org, s, moves[0])
    && AllResume(fmt, NextOrigin(org, moves[0]), Storaged.Apply(fmt, s, moves[0]), moves[1..])
  }

  function OriginAfter(org: Origin, moves: seq<Move>): (o: Origin)
    ensures o.samples == org.samples && o.named == org.named
    decreases |moves|
  {
    if moves == [] then org else OriginAfter(NextOrigin(org, moves[0]), moves[1..])
  }

  lemma {:induction false} RunKeeps(fmt: Format, org: Origin, s: State, moves: seq<Move>)
    requires Good(fmt) && Exact(fmt, org, s) && CanRun(fmt, s, moves) && AllResume(fmt, org, s, moves)
    ensures Exact(fmt, OriginAfter(org, moves), Run(fmt, s, moves))
    decreases |moves|
  {
    if moves != [] {
      MoveKeeps(fmt, org, s, moves[0]);
      RunKeeps(fmt, NextOrigin(org, moves[0]), Storaged.Apply(fmt, s, moves[0]), moves[1..]);
    }
  }

  /** storaged is down, all of the log is durable, and it holds no slot of these rings; if every place in it is
      to be one of theirs, it names none yet. */
  ghost predicate Beginning(fmt: Format, org: Origin, s: State) {
    && Inv(fmt, s.world) && s.world.proc.Down? && s.pc.Off? && s.world.durable == |s.world.file| && s.world.past == {}
    && Sound(s.rings.car) && Sound(s.rings.box) && s.rings.car.tail == 0 && s.rings.box.tail == 0
    && var t := Left(fmt, s.world, s.world.file);
       t.samples == org.samples && Logged(t, s.rings.car, 0) == 0 && Logged(t, s.rings.box, 1) == 0
       && (org.sole ==> s.world.older == []) && (org.named ==> !t.noted.car && !t.noted.box)
  }

  lemma BeginningIsExact(fmt: Format, org: Origin, s: State)
    requires Good(fmt) && Beginning(fmt, org, s)
    ensures Exact(fmt, org, s)
  {
    var t := Left(fmt, s.world, s.world.file);
    assert First(s.rings.car, 0) == [] && First(s.rings.box, 0) == [];
    assert ExactlyOnce(org, t, s.rings);
    SafeDurable(fmt, org, s.world, s.rings, t);
  }

  /** Exactly once, in the directory. Whatever run of pushes, drains, commits, failed commits, rotations,
      releases, kills and restarts that resume: in every file that a kill, or a power cut that spares the
      directory's entries, could leave behind, the samples of all segments after those of the beginning are
      an interleaving of the first slots of the two rings, every slot up to the place the log gives once and
      in order, and nothing was released that is not there. */
  lemma DirectoryExactlyOnce(fmt: Format, org: Origin, s: State, moves: seq<Move>, left: seq<byte>)
    requires Good(fmt) && Beginning(fmt, org, s) && CanRun(fmt, s, moves) && AllResume(fmt, org, s, moves)
    requires Leaves(Run(fmt, s, moves).world, left)
    ensures var t := Run(fmt, s, moves); ExactlyOnce(OriginAfter(org, moves), Left(fmt, t.world, left), t.rings)
  {
    BeginningIsExact(fmt, org, s);
    RunKeeps(fmt, org, s, moves);
    var t := Run(fmt, s, moves);
    assert CutSafe(fmt, OriginAfter(org, moves), t.world, t.rings, left);
  }

  // ------------------------------------------------------------------ kills that leave nothing unreleased

  /** Every slot the log holds has been released. */
  predicate Settled(fmt: Format, s: State) {
    var t := Left(fmt, s.world, s.world.file);
    Logged(t, s.rings.car, 0) <= s.rings.car.tail && Logged(t, s.rings.box, 1) <= s.rings.box.tail
  }

  /** Once a second segment has been begun, each kill comes when every logged slot has been released. */
  predicate KillsSettled(fmt: Format, org: Origin, s: State, moves: seq<Move>)
    requires CanRun(fmt, s, moves)
    decreases |moves|
  {
    if moves == [] then true else
    && (moves[0].Kill? && !org.sole ==> Settled(fmt, s))
    && KillsSettled(fmt, NextOrigin(org, moves[0]), Storaged.Apply(fmt, s, moves[0]), moves[1..])
  }

  lemma SettledIsRight(fmt: Format, older: seq<Rec>, file: seq<byte>, ring: Ring, ns: nat, t: Tally)
    requires ns < 2 && t == TallyOf(fmt, older + Committed(fmt.codec, fmt.view, file)) && Named(t, ring, ns)
    requires Logged(t, ring, ns) <= ring.tail
    ensures Right(ScanOf(fmt.codec, fmt.view, file), ring, ns, Logged(t, ring, ns))
  {
    TallyIsScan(fmt, file);
    TallyJoins(fmt, older, Committed(fmt.codec, fmt.view, file), ns);
  }

  /** A start after such a kill resumes, whatever the segments. */
  lemma SettledResumes(fmt: Format, org: Origin, s: State, probe: bool)
    requires Exact(fmt, org, s) && org.named && Settled(fmt, s)
    ensures Resumes(fmt, s, probe)
  {
    var t := Left(fmt, s.world, s.world.file);
    FileIsLeaf(fmt, s.world);
    assert CutSafe(fmt, org, s.world, s.rings, s.world.file);
    SettledIsRight(fmt, OlderLogs(fmt, s.world.older), s.world.file, s.rings.car, 0, t);
    SettledIsRight(fmt, OlderLogs(fmt, s.world.older), s.world.file, s.rings.box, 1, t);
  }

  lemma {:induction false} GenerationsStayUp(s: State, ns: nat)
    requires s.world.proc.Up?
    ensures !NextGeneration(s, ns).pc.Off?
    decreases 2 - ns
  {
    if ns < 2 && !s.srcs.At(ns).attached { GenerationsStayUp(s, ns + 1); }
  }

  lemma SuccessStaysUp(s: State, goal: Goal)
    requires s.world.proc.Up?
    ensures !OnSuccess(s, goal).pc.Off?
  {
    if goal.Boot? { GenerationsStayUp(s, 0); } else if goal.Generation? { GenerationsStayUp(s, goal.ns + 1); }
  }

  lemma CommittingStaysUp(fmt: Format, s: State, goal: Goal, now: Clock)
    requires s.world.proc.Up?
    ensures !StartCommitting(fmt, s, goal, now).pc.Off?
  {
    if !s.world.proc.w.openBatch { SuccessStaysUp(s, goal); }
  }

  lemma BatchStaysUp(fmt: Format, s: State, notes: Ns<Clock>, now: Clock, stop: bool)
    requires CanBatch(s, now, stop)
    ensures !DoBatch(fmt, s, notes, now, stop).pc.Off?
  {
    var w0 := Noted(fmt, s.world.proc.w, s.srcs.car, 0, notes.car, now).1;
    var w1 := Noted(fmt, w0, s.srcs.box, 1, notes.box, now).1;
    CommittingStaysUp(fmt, s.(world := WithWal(s.world, w1)), if stop then Last else Batch, now);
  }

  lemma PrepareStaysUp(fmt: Format, s: State, t: Clock, now: Clock)
    requires s.pc.Preparing? && s.world.proc.Up? && GoalOk(s.pc.goal)
    ensures !DoPrepare(fmt, s, t, now).pc.Off?
  {
    CommittingStaysUp(fmt, s.(world := WithWal(s.world, AddGoal(fmt, s, s.pc.goal, t, now).1)), s.pc.goal, now);
  }

  /** Only a kill ends a running storaged. */
  lemma OnlyKillEnds(fmt: Format, s: State, m: Move)
    requires Storaged.Enabled(fmt, s, m) && !m.Kill? && !s.pc.Off?
    ensures !Storaged.Apply(fmt, s, m).pc.Off?
  {
    if m.Prepare? {
      PrepareStaysUp(fmt, s, m.t, m.now);
    } else if m.Batched? {
      BatchStaysUp(fmt, s, m.notes, m.now, m.stop);
    } else if m.Sync? {
      SuccessStaysUp(s.(world := DoSynced(fmt, s.world)), s.pc.goal);
    } else if m.NewSegment? {
      SuccessStaysUp(s.(world := DoRotate(s.world, m.created, m.entrySynced)), s.pc.goal);
    }
  }

  /** While storaged is down, pushes and starts that fail leave it settled. */
  lemma DownStaysSettled(fmt: Format, s: State, m: Move)
    requires Storaged.Enabled(fmt, s, m) && s.pc.Off? && Settled(fmt, s) && Storaged.Apply(fmt, s, m).pc.Off?
    ensures Settled(fmt, Storaged.Apply(fmt, s, m))
  {
    if m.Start? { FailedOpenSame(fmt, s.world, m.src, m.flags, m.created, m.entrySynced); }
  }

  lemma FailedOpenSame(fmt: Format, s: World, src: u8, flags: u8, created: bool, entrySynced: bool)
    ensures var t := DoOpen(fmt, s, src, flags, created, entrySynced);
            t.proc.Down? ==> t.older == s.older && t.file == s.file
  {}

  lemma KillSettles(fmt: Format, s: State)
    requires !s.pc.Off? && Settled(fmt, s)
    ensures Settled(fmt, Storaged.Apply(fmt, s, Kill))
  {}

  /** Whatever the run: if, once a second segment has been begun, each kill comes when every logged slot has
      been released, then every start resumes. */
  lemma {:induction false} SettledKillsResume(fmt: Format, org: Origin, s: State, moves: seq<Move>)
    requires Good(fmt) && Exact(fmt, org, s) && org.named && CanRun(fmt, s, moves) && KillsSettled(fmt, org, s, moves)
    requires s.pc.Off? && !org.sole ==> Settled(fmt, s)
    ensures AllResume(fmt, org, s, moves)
    decreases |moves|
  {
    if moves != [] {
      var m, t := moves[0], Storaged.Apply(fmt, s, moves[0]);
      if m.Start? && !org.sole { SettledResumes(fmt, org, s, m.probe); }
      MoveKeeps(fmt, org, s, m);
      SettledAfter(fmt, org, s, m, t);
      SettledKillsResume(fmt, NextOrigin(org, m), t, moves[1..]);
    }
  }

  lemma SettledAfter(fmt: Format, org: Origin, s: State, m: Move, t: State)
    requires Storaged.Enabled(fmt, s, m) && t == Storaged.Apply(fmt, s, m)
    requires (m.Kill? || s.pc.Off?) && !org.sole ==> Settled(fmt, s)
    ensures t.pc.Off? && !NextOrigin(org, m).sole ==> Settled(fmt, t)
  {
    if t.pc.Off? && !NextOrigin(org, m).sole {
      if m.Kill? {
        KillSettles(fmt, s);
      } else {
        if !s.pc.Off? { OnlyKillEnds(fmt, s, m); }
        DownStaysSettled(fmt, s, m);
      }
    }
  }

  /** So exactly once, in the directory, over every run with that discipline, from rings the log does not
      name yet. */
  lemma SettledExactlyOnce(fmt: Format, org: Origin, s: State, moves: seq<Move>, left: seq<byte>)
    requires Good(fmt) && Beginning(fmt, org, s) && org.named && CanRun(fmt, s, moves) && KillsSettled(fmt, org, s, moves)
    requires Leaves(Run(fmt, s, moves).world, left)
    ensures AllResume(fmt, org, s, moves)
    ensures var t := Run(fmt, s, moves); ExactlyOnce(OriginAfter(org, moves), Left(fmt, t.world, left), t.rings)
  {
    BeginningIsExact(fmt, org, s);
    SettledKillsResume(fmt, org, s, moves);
    DirectoryExactlyOnce(fmt, org, s, moves, left);
  }

  // ------------------------------------------------------------------ one segment

  /** Runs that begin no new segment. */
  predicate OneSegment(moves: seq<Move>) { forall i :: 0 <= i < |moves| ==> !(moves[i].NewSegment? && moves[i].created) }

  lemma RestOfOneSegment(moves: seq<Move>)
    requires OneSegment(moves) && moves != []
    ensures OneSegment(moves[1..])
  {
    forall i | 0 <= i < |moves[1..]| ensures !(moves[1..][i].NewSegment? && moves[1..][i].created) {
      assert moves[1..][i] == moves[i + 1];
    }
  }

  /** The same but for the older segments. */
  predicate AlikeWorlds(a: World, b: World) {
    && a.made == b.made && a.first == b.first && a.file == b.file && a.durable == b.durable && a.past == b.past
    && a.proc == b.proc
  }

  predicate Alike(a: State, b: State) { AlikeWorlds(a.world, b.world) && a.rings == b.rings && a.srcs == b.srcs && a.pc == b.pc }

  lemma AlikeRingSteps(fmt: Format, a: State, b: State, m: Move)
    requires Alike(a, b) && Storaged.Enabled(fmt, a, m) && (m.Push? || m.Release? || m.Skim? || m.Kill? || m.CutBack?)
    ensures Storaged.Enabled(fmt, b, m) && Alike(Storaged.Apply(fmt, a, m), Storaged.Apply(fmt, b, m))
  {}

  lemma AlikeOpens(fmt: Format, a: World, b: World, src: u8, flags: u8, created: bool, entrySynced: bool)
    requires AlikeWorlds(a, b)
    ensures AlikeWorlds(DoOpen(fmt, a, src, flags, created, entrySynced), DoOpen(fmt, b, src, flags, created, entrySynced))
  {}

  lemma AlikeStarts(fmt: Format, a: State, b: State, m: Move)
    requires Alike(a, b) && Storaged.Enabled(fmt, a, m) && m.Start?
    ensures Storaged.Enabled(fmt, b, m) && Alike(Storaged.Apply(fmt, a, m), Storaged.Apply(fmt, b, m))
  {
    AlikeOpens(fmt, a.world, b.world, m.src, m.flags, m.created, m.entrySynced);
  }

  lemma {:induction false} AlikeGenerations(a: State, b: State, ns: nat)
    requires Alike(a, b) && a.world.proc.Up?
    ensures Alike(NextGeneration(a, ns), NextGeneration(b, ns))
    decreases 2 - ns
  {
    if ns < 2 && !a.srcs.At(ns).attached { AlikeGenerations(a, b, ns + 1); }
  }

  lemma AlikeSuccess(a: State, b: State, goal: Goal)
    requires Alike(a, b) && a.world.proc.Up?
    ensures Alike(OnSuccess(a, goal), OnSuccess(b, goal))
  {
    if goal.Boot? { AlikeGenerations(a, b, 0); } else if goal.Generation? { AlikeGenerations(a, b, goal.ns + 1); }
  }

  lemma AlikeCommitStarts(fmt: Format, a: World, b: World, now: Clock)
    requires AlikeWorlds(a, b) && a.proc.Up?
    ensures AlikeWorlds(DoCommit(fmt, a, now), DoCommit(fmt, b, now)) && DoCommit(fmt, a, now).proc.Up?
  {}

  lemma AlikeStartCommitting(fmt: Format, a: State, b: State, goal: Goal, now: Clock)
    requires Alike(a, b) && a.world.proc.Up?
    ensures Alike(StartCommitting(fmt, a, goal, now), StartCommitting(fmt, b, goal, now))
  {
    if a.world.proc.w.openBatch { AlikeCommitStarts(fmt, a.world, b.world, now); } else { AlikeSuccess(a, b, goal); }
  }

  lemma AlikeTakes(fmt: Format, a: State, b: State, m: Move)
    requires Alike(a, b) && Storaged.Enabled(fmt, a, m) && m.Take?
    ensures Storaged.Enabled(fmt, b, m) && Alike(Storaged.Apply(fmt, a, m), Storaged.Apply(fmt, b, m))
  {}

  lemma AlikeGoals(fmt: Format, a: State, b: State, goal: Goal, t: Clock, now: Clock)
    requires Alike(a, b) && a.world.proc.Up? && GoalOk(goal)
    ensures AddGoal(fmt, a, goal, t, now) == AddGoal(fmt, b, goal, t, now)
  {}

  lemma AlikePrepares(fmt: Format, a: State, b: State, t: Clock, now: Clock)
    requires Alike(a, b) && a.pc.Preparing? && a.world.proc.Up? && GoalOk(a.pc.goal)
    ensures Alike(DoPrepare(fmt, a, t, now), DoPrepare(fmt, b, t, now))
  {
    var v := AddGoal(fmt, a, a.pc.goal, t, now).1;
    AlikeGoals(fmt, a, b, a.pc.goal, t, now);
    AlikeStartCommitting(fmt, a.(world := WithWal(a.world, v)), b.(world := WithWal(b.world, v)), a.pc.goal, now);
  }

  lemma AlikeBatches(fmt: Format, a: State, b: State, notes: Ns<Clock>, now: Clock, stop: bool)
    requires Alike(a, b) && CanBatch(a, now, stop)
    ensures CanBatch(b, now, stop) && Alike(DoBatch(fmt, a, notes, now, stop), DoBatch(fmt, b, notes, now, stop))
  {
    var w0 := Noted(fmt, a.world.proc.w, a.srcs.car, 0, notes.car, now).1;
    var w1 := Noted(fmt, w0, a.srcs.box, 1, notes.box, now).1;
    AlikeStartCommitting(fmt, a.(world := WithWal(a.world, w1)), b.(world := WithWal(b.world, w1)), if stop then Last else Batch, now);
  }

  lemma AlikeAdds(fmt: Format, a: State, b: State, m: Move)
    requires Alike(a, b) && Storaged.Enabled(fmt, a, m) && (m.Prepare? || m.Batched?)
    ensures Storaged.Enabled(fmt, b, m) && Alike(Storaged.Apply(fmt, a, m), Storaged.Apply(fmt, b, m))
  {
    if m.Prepare? { AlikePrepares(fmt, a, b, m.t, m.now); } else { AlikeBatches(fmt, a, b, m.notes, m.now, m.stop); }
  }

  lemma AlikeCommits(fmt: Format, a: State, b: State, m: Move)
    requires Alike(a, b) && Storaged.Enabled(fmt, a, m) && (m.WriteSome? || m.Sync? || m.Fail? || (m.NewSegment? && !m.created))
    ensures Storaged.Enabled(fmt, b, m) && Alike(Storaged.Apply(fmt, a, m), Storaged.Apply(fmt, b, m))
  {}

  /** Without a new segment no step looks at the older ones. */
  lemma AlikeSteps(fmt: Format, a: State, b: State, m: Move)
    requires Alike(a, b) && Storaged.Enabled(fmt, a, m) && !(m.NewSegment? && m.created)
    ensures Storaged.Enabled(fmt, b, m) && Alike(Storaged.Apply(fmt, a, m), Storaged.Apply(fmt, b, m))
  {
    if m.Push? || m.Release? || m.Skim? || m.Kill? || m.CutBack? {
      AlikeRingSteps(fmt, a, b, m);
    } else if m.Start? {
      AlikeStarts(fmt, a, b, m);
    } else if m.Take? {
      AlikeTakes(fmt, a, b, m);
    } else if m.Prepare? || m.Batched? {
      AlikeAdds(fmt, a, b, m);
    } else {
      AlikeCommits(fmt, a, b, m);
    }
  }

  lemma {:induction false} AlikeRuns(fmt: Format, a: State, b: State, moves: seq<Move>, org: Origin)
    requires Alike(a, b) && CanRun(fmt, a, moves) && OneSegment(moves) && org.sole && org.named
    ensures CanRun(fmt, b, moves) && Alike(Run(fmt, a, moves), Run(fmt, b, moves))
    ensures AllResume(fmt, org, b, moves) && OriginAfter(org, moves) == org
    decreases |moves|
  {
    if moves != [] {
      AlikeSteps(fmt, a, b, moves[0]);
      RestOfOneSegment(moves);
      AlikeRuns(fmt, Storaged.Apply(fmt, a, moves[0]), Storaged.Apply(fmt, b, moves[0]), moves[1..], org);
    }
  }

  /** storaged is down, the newest segment is durable as it stands, and no place is named in it. */
  ghost predicate FreshSegment(fmt: Format, start: seq<Reading>, s: State) {
    && Inv(fmt, s.world) && s.world.proc.Down? && s.pc.Off? && s.world.durable == |s.world.file| && s.world.past == {}
    && Sound(s.rings.car) && Sound(s.rings.box) && s.rings.car.tail == 0 && s.rings.box.tail == 0
    && var t := TallyOf(fmt, Committed(fmt.codec, fmt.view, s.world.file));
       !t.noted.car && !t.noted.box && t.samples == start
  }

  lemma FreshBegins(fmt: Format, start: seq<Reading>, s: State, alone: State)
    requires Good(fmt) && FreshSegment(fmt, start, s) && alone == s.(world := s.world.(older := [], loose := 0))
    ensures Beginning(fmt, Origin(start, true, true), alone) && Alike(s, alone)
  {
    var log := Committed(fmt.codec, fmt.view, s.world.file);
    AllCommitted(fmt, alone.world);
    PlaceIsLast(fmt, log, 0);
    PlaceIsLast(fmt, log, 1);
  }

  /** Exactly once, in a segment. Whatever run of pushes, drains, commits, failed commits, releases, kills
      and restarts that begins no new segment: in every file that a kill, or a power cut that spares its
      directory entry, could leave behind, the samples after those of the beginning are an interleaving of
      the first slots of the two rings, every slot up to the ring's durable skip point once and in order,
      and nothing was released that is not there. */
  lemma LoggedExactlyOnce(fmt: Format, start: seq<Reading>, s: State, moves: seq<Move>, left: seq<byte>)
    requires Good(fmt) && FreshSegment(fmt, start, s) && CanRun(fmt, s, moves) && OneSegment(moves)
    requires Leaves(Run(fmt, s, moves).world, left)
    ensures ExactlyOnce(Origin(start, true, true), TallyOf(fmt, Committed(fmt.codec, fmt.view, left)), Run(fmt, s, moves).rings)
  {
    var org, alone := Origin(start, true, true), s.(world := s.world.(older := [], loose := 0));
    FreshBegins(fmt, start, s, alone);
    AlikeRuns(fmt, s, alone, moves, org);
    DirectoryExactlyOnce(fmt, org, alone, moves, left);
    BeginningIsExact(fmt, org, alone);
    RunKeeps(fmt, org, alone, moves);
    AllCommitted(fmt, Run(fmt, alone, moves).world);
  }

  /** In every reachable state storaged's error branches are dead: a slot that is not skipped is taken
      into the batch, both ring notes are taken, the COMMIT seals, and no batch passes 64 samples. */
  lemma ErrorBranchesAreDead(fmt: Format, org: Origin, s: State, moves: seq<Move>, t: State, ns: nat, at: Clock,
                             notes: Ns<Clock>, now: Clock)
    requires Good(fmt) && Beginning(fmt, org, s) && CanRun(fmt, s, moves) && AllResume(fmt, org, s, moves)
    requires t == Run(fmt, s, moves) && t.pc.Draining? && ns < 2
    ensures t.world.proc.Up? && t.world.proc.w.batchSamples <= BATCH_SAMPLES
    ensures CanTake(t, ns) ==>
              var slot := t.rings.At(ns).accepted[t.rings.At(ns).tail + t.srcs.At(ns).taken];
              Add(fmt, t.world.proc.w, SAMPLE, slot.src, SampleClock(slot, at), SampleBody(slot), now).0
    ensures var (ok0, w0) := Noted(fmt, t.world.proc.w, t.srcs.car, 0, notes.car, now);
            var (ok1, w1) := Noted(fmt, w0, t.srcs.box, 1, notes.box, now);
            ok0 && ok1 && (w1.openBatch ==> Seal(fmt, w1, now).Some?)
  {
    BeginningIsExact(fmt, org, s);
    RunKeeps(fmt, org, s, moves);
    ExactDrains(fmt, OriginAfter(org, moves), t);
    if CanTake(t, ns) { SlotIsTaken(fmt, OriginAfter(org, moves), t, ns, at, now); }
    NotesAreTaken(fmt, OriginAfter(org, moves), t.world, t.rings, t.srcs, notes, now);
  }

  lemma SlotIsTaken(fmt: Format, org: Origin, t: State, ns: nat, at: Clock, now: Clock)
    requires Good(fmt) && Safe(fmt, org, t.world, t.rings) && DrainingInv(fmt, org, t.world, t.rings, t.srcs)
    requires Sound(t.rings.car) && Sound(t.rings.box) && CanTake(t, ns)
    ensures var slot := t.rings.At(ns).accepted[t.rings.At(ns).tail + t.srcs.At(ns).taken];
            Add(fmt, t.world.proc.w, SAMPLE, slot.src, SampleClock(slot, at), SampleBody(slot), now).0
  {
    var slot := t.rings.At(ns).accepted[t.rings.At(ns).tail + t.srcs.At(ns).taken];
    UpSizes(fmt, t.world);
    SampleIsTaken(fmt, t.world.proc.w, slot, SampleClock(slot, at), now);
  }

  lemma NotesAreTaken(fmt: Format, org: Origin, world: World, rings: Ns<Ring>, srcs: Ns<Source>,
                      notes: Ns<Clock>,
                      now: Clock)
    requires Good(fmt) && Safe(fmt, org, world, rings) && DrainingInv(fmt, org, world, rings, srcs)
    ensures var (ok0, w0) := Noted(fmt, world.proc.w, srcs.car, 0, notes.car, now);
            var (ok1, w1) := Noted(fmt, w0, srcs.box, 1, notes.box, now);
            ok0 && ok1 && (w1.openBatch ==> Seal(fmt, w1, now).Some?)
  {
    var w0 := Noted(fmt, world.proc.w, srcs.car, 0, notes.car, now).1;
    var w1 := Noted(fmt, w0, srcs.box, 1, notes.box, now).1;
    var noted := WithWal(world, w1);
    BothNoted(fmt, org, world, rings, srcs, notes, now, w0, w1, noted,
              NotedTally(NotedTally(Ahead(fmt, world), srcs.car, 0), srcs.box, 1));
    UpSizes(fmt, noted);
    if w1.openBatch { SealNeverFails(fmt, w1, now); }
  }
}
