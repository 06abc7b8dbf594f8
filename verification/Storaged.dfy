/** storaged as a machine: it drains the rings into the log, notes its place, commits and releases,
    while producers push and a kill may come at any step. */
module Storaged {
  import opened Crc
  import opened Bytes
  import opened Framing
  import opened Log
  import opened Record
  import opened LogFormat
  import opened Wal
  import opened World
  import opened Tallies
  import opened Sources

  /** What a commit is for: the boot record, a ring's generation note, the loop's batch, the last
      batch of a clean stop, the shutdown record. */
  datatype Goal = Boot | Generation(ns: nat) | Batch | Last | End

  datatype Pc =
    | Off
    | Preparing(goal: Goal)     // the goal's record is about to be added and committed
    | Committing(goal: Goal)    // wal_commit is writing
    | Draining                  // the main loop, before its commit
    | Releasing(next: nat, stopping: bool)
    | Full(goal: Goal)          // the batch is durable and the segment full: rotation is next
    | Stuck                     // rotation failed: there is no segment to write to
    | Ended                     // only exit is left

  datatype State = State(world: World, rings: Ns<Ring>, srcs: Ns<Source>, pc: Pc)

  datatype Move =
    | Push(ns: nat, slot: Slot)                          // a producer's slot is accepted
    | Start(src: u8, flags: u8, probe: bool, created: bool, entrySynced: bool)   // wal_open up to recovery's truncation
    | CutBack                                            // recovery's fsync
    | Prepare(t: Clock, now: Clock)                      // add the goal's record, start its commit
    | Take(ns: nat, at: Clock, now: Clock)               // one slot of drain's loop
    | Batched(notes: Ns<Clock>, now: Clock, stop: bool)  // ring notes, then start the commit
    | WriteSome(n: nat)
    | Sync
    | NewSegment(created: bool, entrySynced: bool)       // create_segment, as far as it gets
    | Skim(ns: nat, n: nat)                              // with no segment, slots logged before may still be released
    | Fail
    | Release                                            // ring_release of the next ring
    | Kill

  const BOOT_LEN := 12
  const SHUT_SIGNAL: byte := 2

  /** rec_boot_t: how the last session ended, bytes truncated (saturated), samples lost. */
  function BootBody(w: Wal): (body: seq<byte>)
    ensures |body| == BOOT_LEN
  {
    [if w.prevEnd.PrevClean? then 0 else if w.prevEnd.PrevRecovered? then 1 else 2, 0, 0, 0]
    + Put4(if w.truncated > 0xFFFF_FFFF then 0xFFFF_FFFF else w.truncated) + Put4(w.recovered.recordsLost)
  }

  function ShutdownBody(): (body: seq<byte>)
    ensures |body| == 8
  {
    [SHUT_SIGNAL, 0, 0, 0, 0, 0, 0, 0]
  }

  function EventText(code: u16, ns: nat, v: u64): seq<byte>
    requires ns < 2
  {
    var text := NoteOf(code, ns, v);
    if |text| <= EVENT_TEXT_MAX then text else []
  }

  /** note_generation and note_ring_seq. */
  function NoteRing(fmt: Format, w: Wal, code: u16, ns: nat, v: u64, t: Clock, now: Clock): (bool, Wal)
    requires ns < 2
  {
    Add(fmt, w, EVENT, w.src, t, EventBody(code, EventText(code, ns, v)), now)
  }

  /** The record a goal adds before it commits. */
  function AddGoal(fmt: Format, s: State, goal: Goal, t: Clock, now: Clock): (bool, Wal)
    requires s.world.proc.Up? && (goal.Boot? || goal.End? || (goal.Generation? && goal.ns < 2))
  {
    var w := s.world.proc.w;
    match goal
    case Boot => Add(fmt, w, BOOT, w.src, t, BootBody(w), now)
    case Generation(ns) => NoteRing(fmt, w, EV_RING_GEN, ns, s.rings.At(ns).gen, t, now)
    case _ => Add(fmt, w, SHUTDOWN, w.src, t, ShutdownBody(), now)
  }

  function WithWal(world: World, w: Wal): World
    requires world.proc.Up?
  {
    world.(proc := world.proc.(w := w))
  }

  // ------------------------------------------------------------------ one slot

  predicate CanTake(s: State, ns: nat) {
    && ns < 2 && s.pc.Draining? && Running(s.world) && s.srcs.At(ns).attached
    && s.world.proc.w.batchSamples < BATCH_SAMPLES
    && s.rings.At(ns).tail + s.srcs.At(ns).taken < |s.rings.At(ns).accepted| < WRAP
  }

  /** The sample's wall clock: now, less the slot's age. */
  function SampleClock(slot: Slot, at: Clock): Clock {
    var age := if at.mono > slot.mono then at.mono - slot.mono else 0;
    Clock(slot.mono, U64(at.wall + WRAP - age))
  }

  /** One turn of drain's loop: skip a slot that is already durable, else add it; a slot the log
      does not take stays in the ring. */
  function DoTake(fmt: Format, s: State, ns: nat, at: Clock, now: Clock): State
    requires CanTake(s, ns)
  {
    var ring, src := s.rings.At(ns), s.srcs.At(ns);
    var slotSeq := ring.tail + src.taken;
    var slot := ring.accepted[slotSeq];
    var passed := src.(taken := src.taken + 1, lastSeq := slotSeq);
    if src.skip && slotSeq <= src.skipSeq then s.(srcs := s.srcs.Set(ns, passed)) else
    var (ok, v) := Add(fmt, s.world.proc.w, SAMPLE, slot.src, SampleClock(slot, at), SampleBody(slot), now);
    State(WithWal(s.world, v), s.rings,
          s.srcs.Set(ns, if ok then passed.(added := true) else src.(lastSeq := U64(slotSeq + WRAP - 1))), s.pc)
  }

  // ------------------------------------------------------------------ committing and releasing

  /** note_ring_seq for one source, if the batch holds a sample of it. */
  function Noted(fmt: Format, w: Wal, src: Source, ns: nat, t: Clock, now: Clock): (bool, Wal)
    requires ns < 2
  {
    if src.added then NoteRing(fmt, w, EV_RING_SEQ, ns, src.lastSeq, t, now) else (true, w)
  }

  predicate CanBatch(s: State, now: Clock, stop: bool) {
    && s.pc.Draining? && Running(s.world)
    && (stop || Due(s.world.proc.w, now.mono)
        || ((s.srcs.car.taken > 0 || s.srcs.box.taken > 0) && !s.world.proc.w.openBatch))
  }

  function DoBatch(fmt: Format, s: State, notes: Ns<Clock>, now: Clock, stop: bool): State
    requires CanBatch(s, now, stop)
  {
    var (ok0, w0) := Noted(fmt, s.world.proc.w, s.srcs.car, 0, notes.car, now);
    var (ok1, w1) := Noted(fmt, w0, s.srcs.box, 1, notes.box, now);
    var world := WithWal(s.world, w1);
    if !stop && !(ok0 && ok1) then State(world, s.rings, Ns(Cleared(s.srcs.car), Cleared(s.srcs.box)), Draining)
    else StartCommitting(fmt, s.(world := world), if stop then Last else Batch, now)
  }

  /** wal_commit up to its first write; nothing to do if no batch is open. */
  function StartCommitting(fmt: Format, s: State, goal: Goal, now: Clock): State
    requires s.world.proc.Up?
  {
    if !s.world.proc.w.openBatch then OnSuccess(s, goal) else
    var world := DoCommit(fmt, s.world, now);
    if world.proc.phase.Writing? then s.(world := world, pc := Committing(goal)) else OnFailure(s.(world := world), goal)
  }

  /** The slots below this one a restart skips: the newest segment's last note, if its last generation note
      is this ring's. */
  function SkipPoint(scan: Scan, gen: u64, ns: nat): nat
    requires ns < 2
  {
    if scan.ringGen.At(ns) == gen && scan.hasRingSeq.At(ns) then scan.ringSeq.At(ns) + 1 else 0
  }

  /** Before ring ns's generation note: was this ring drained before, and how far? */
  function SkipSet(src: Source, ring: Ring, ns: nat, w: Wal): Source
    requires ns < 2
  {
    if src.attached && w.recovered.ringGen.At(ns) == ring.gen && w.recovered.hasRingSeq.At(ns)
    then src.(skip := true, skipSeq := w.recovered.ringSeq.At(ns)) else src
  }

  function NextGeneration(s: State, ns: nat): State
    requires s.world.proc.Up?
    decreases 2 - ns
  {
    if ns >= 2 then s.(pc := Draining) else
    if !s.srcs.At(ns).attached then NextGeneration(s, ns + 1) else
    s.(srcs := s.srcs.Set(ns, SkipSet(s.srcs.At(ns), s.rings.At(ns), ns, s.world.proc.w)), pc := Preparing(Generation(ns)))
  }

  function OnSuccess(s: State, goal: Goal): State
    requires s.world.proc.Up?
  {
    match goal
    case Boot => NextGeneration(s, 0)
    case Generation(ns) => NextGeneration(s, ns + 1)
    case Batch => s.(pc := Releasing(0, false))
    case Last => s.(pc := Releasing(0, true))
    case End => s.(pc := Ended)
  }

  function OnFailure(s: State, goal: Goal): State {
    match goal
    case Batch => s.(srcs := Ns(Cleared(s.srcs.car), Cleared(s.srcs.box)), pc := Draining)
    case Last => s.(pc := Preparing(End))
    case _ => s.(pc := Ended)
  }

  /** ring_release of taken slots; it refuses more than the ring holds. */
  function Released(ring: Ring, src: Source): Ring {
    if src.attached && ring.tail + src.taken <= |ring.accepted| then ring.(tail := ring.tail + src.taken) else ring
  }

  function DoRelease(s: State): State
    requires s.pc.Releasing?
  {
    var ns := s.pc.next;
    if ns >= 2 then s.(pc := if s.pc.stopping then Preparing(End) else Draining) else
    s.(rings := s.rings.Set(ns, Released(s.rings.At(ns), s.srcs.At(ns))), srcs := s.srcs.Set(ns, Cleared(s.srcs.At(ns))),
       pc := Releasing(ns + 1, s.pc.stopping))
  }

  // ------------------------------------------------------------------ the machine

  /** ring_push accepts a labelled slot while the ring is not full. */
  predicate CanPush(ring: Ring, slot: Slot) {
    SrcOk(slot.src) && |ring.accepted| + 1 < WRAP && |ring.accepted| < ring.tail + CAPACITY
  }

  predicate Enabled(fmt: Format, s: State, m: Move) {
    match m
    case Push(ns, slot) => ns < 2 && CanPush(s.rings.At(ns), slot)
    case Start(src, _, _, _, _) => s.pc.Off? && s.world.proc.Down? && SrcOk(src)
    case CutBack => s.pc.Preparing? && s.world.proc.Truncating?
    case Prepare(_, _) => s.pc.Preparing? && Running(s.world) && s.world.proc.phase.Idle? && GoalOk(s.pc.goal)
    case Take(ns, _, _) => CanTake(s, ns)
    case Batched(_, now, stop) => CanBatch(s, now, stop)
    case WriteSome(n) => s.pc.Committing? && CanWrite(fmt, s.world, n)
    case Sync => s.pc.Committing? && CanSync(fmt, s.world)
    case NewSegment(_, _) => s.pc.Full? && s.world.proc.Up? && s.world.proc.phase.Rotating?
    case Skim(ns, n) => ns < 2 && CanSkim(s, ns, n)
    case Fail => s.pc.Committing? && Running(s.world) && s.world.proc.phase.Writing?
    case Release => s.pc.Releasing? && s.world.proc.Up?
    case Kill => !s.pc.Off?
  }

  predicate CanSkim(s: State, ns: nat, n: nat)
    requires ns < 2
  {
    var ring, src := s.rings.At(ns), s.srcs.At(ns);
    s.pc.Stuck? && src.attached && src.skip && ring.tail + n <= src.skipSeq + 1 && ring.tail + n <= |ring.accepted|
  }

  function DoSkim(s: State, ns: nat, n: nat): State
    requires ns < 2 && CanSkim(s, ns, n)
  {
    var ring := s.rings.At(ns);
    s.(rings := s.rings.Set(ns, ring.(tail := ring.tail + n)))
  }

  predicate GoalOk(goal: Goal) { goal.Boot? || goal.End? || (goal.Generation? && goal.ns < 2) }

  function Apply(fmt: Format, s: State, m: Move): State
    requires Enabled(fmt, s, m)
  {
    match m
    case Push(ns, slot) =>
      s.(rings := s.rings.Set(ns, s.rings.At(ns).(accepted := s.rings.At(ns).accepted + [slot])))
    case Start(src, flags, probe, created, entrySynced) =>
      Started(s, probe, DoOpen(fmt, s.world, src, flags, created, entrySynced))
    case CutBack => s.(world := DoTruncated(s.world))
    case Prepare(t, now) => DoPrepare(fmt, s, t, now)
    case Take(ns, at, now) => DoTake(fmt, s, ns, at, now)
    case Batched(notes, now, stop) => DoBatch(fmt, s, notes, now, stop)
    case WriteSome(n) => s.(world := DoWrite(fmt, s.world, n))
    case Sync => DoSync(fmt, s)
    case NewSegment(created, entrySynced) => DoNewSegment(s, created, entrySynced)
    case Skim(ns, n) => DoSkim(s, ns, n)
    case Fail => OnFailure(s.(world := DoFailed(s.world)), s.pc.goal)
    case Release => DoRelease(s)
    case Kill => s.(world := s.world.(proc := Down), pc := Off)
  }

  /** storaged goes on if wal_open has a segment, and exits if not. */
  function Started(s: State, probe: bool, world: World): State {
    State(world, s.rings, Ns(Fresh(true), Fresh(probe)), if world.proc.Down? then Off else Preparing(Boot))
  }

  function DoPrepare(fmt: Format, s: State, t: Clock, now: Clock): State
    requires s.pc.Preparing? && s.world.proc.Up? && GoalOk(s.pc.goal)
  {
    var (ok, v) := AddGoal(fmt, s, s.pc.goal, t, now);
    var added := s.(world := WithWal(s.world, v));
    if ok then StartCommitting(fmt, added, s.pc.goal, now) else added.(pc := Ended)
  }

  function DoSync(fmt: Format, s: State): State
    requires s.pc.Committing? && CanSync(fmt, s.world)
  {
    var world := DoSynced(fmt, s.world);
    if world.proc.phase.Rotating? then s.(world := world, pc := Full(s.pc.goal)) else OnSuccess(s.(world := world), s.pc.goal)
  }

  /** wal_commit's rotation: it returns 0 only if the new segment is there and its entry synced. */
  function DoNewSegment(s: State, created: bool, entrySynced: bool): State
    requires s.pc.Full? && s.world.proc.Up? && s.world.proc.phase.Rotating?
  {
    var world := DoRotate(s.world, created, entrySynced);
    if created && entrySynced then OnSuccess(s.(world := world), s.pc.goal)
    else s.(world := world, pc := if s.pc.goal.Batch? || s.pc.goal.Last? then Stuck else Ended)
  }
}
