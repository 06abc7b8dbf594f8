/** The single-producer single-consumer ring: its array in place, and its two ends as interleaved
    steps that may act on an out-of-date view of each other. */
module SpscRing {
  import opened Bytes
  import opened Record
  import opened Sources
  import opened Wal

  /** A stored slot: the caller's fields and the position ring_push stamps on it. */
  datatype Stored = Stored(seqNo: u64, slot: Slot)

  const BLANK := Stored(0, Slot(0, 0, 0, 0, 0, [0, 0, 0, 0], seq(16, _ => 0)))

  function Index(n: nat): (i: nat)
    ensures i < CAPACITY
  {
    n % CAPACITY
  }

  /** head - tail in unsigned 64-bit arithmetic. */
  function Minus(head: u64, tail: u64): u64 { if head >= tail then head - tail else head + WRAP - tail }

  // ------------------------------------------------------------------ wrapping positions

  lemma {:induction false} U64Index(n: nat)
    ensures Index(U64(n)) == Index(n)
  {
    if n >= WRAP {
      U64Index(n - WRAP);
      WholeTurns(n - WRAP, 0x10_0000_0000_0000);
    }
  }

  lemma WholeTurns(n: nat, k: nat)
    ensures (n + CAPACITY * k) % CAPACITY == n % CAPACITY
  {}

  lemma {:induction false} U64Minus(t: nat, d: nat)
    requires d < WRAP
    ensures Minus(U64(t + d), U64(t)) == d
  {
    if t >= WRAP { U64Minus(t - WRAP, d); }
  }

  lemma DistinctPlaces(a: nat, b: nat)
    requires a < b < a + CAPACITY
    ensures Index(a) != Index(b)
  {}

  // ------------------------------------------------------------------ the ring in place

  /** Positions from released to the head hold what was pushed there, stamped with the position. */
  ghost predicate Holds(slots: seq<Stored>, accepted: seq<Slot>, released: nat) {
    && |slots| == CAPACITY && released <= |accepted| <= released + CAPACITY
    && forall i :: released <= i < |accepted| ==> slots[Index(i)] == Stored(U64(i), accepted[i])
  }

  lemma HoldsOneMore(slots: seq<Stored>, accepted: seq<Slot>, released: nat, slot: Slot, at: nat, more: seq<Slot>)
    requires Holds(slots, accepted, released) && |accepted| < released + CAPACITY
    requires at == Index(|accepted|) && more == accepted + [slot]
    ensures Holds(slots[at := Stored(U64(|accepted|), slot)], more, released)
  {
    var next := slots[at := Stored(U64(|accepted|), slot)];
    forall i | released <= i < |more| ensures next[Index(i)] == Stored(U64(i), more[i]) {
      if i < |accepted| { DistinctPlaces(i, |accepted|); }
    }
  }

  class RingBuffer {
    var head: u64
    var tail: u64
    var overruns: u64
    var rejected: u64
    const slot: array<Stored>
    ghost var accepted: seq<Slot>   // every slot ever accepted
    ghost var released: nat         // how many of them the consumer has released

    ghost predicate Valid()
      reads this, slot
    {
      && slot.Length == CAPACITY && Holds(slot[..], accepted, released)
      && head == U64(|accepted|) && tail == U64(released)
    }

    /** ring_init. */
    constructor ()
      ensures Valid() && fresh(slot) && accepted == [] && released == 0 && overruns == 0 && rejected == 0
    {
      head, tail, overruns, rejected := 0, 0, 0, 0;
      accepted, released := [], 0;
      slot := new Stored[CAPACITY](_ => BLANK);
    }

    /** ring_push: takes the slot exactly when it is labelled and the ring is not full; otherwise
        counts why not and changes nothing else. */
    method Push(s: Slot) returns (ok: bool)
      requires Valid()
      modifies this`head, this`overruns, this`rejected, this`accepted, slot
      ensures Valid() && ok == (SrcOk(s.src) && |old(accepted)| < released + CAPACITY)
      ensures accepted == if ok then old(accepted) + [s] else old(accepted)
      ensures rejected == if SrcOk(s.src) then old(rejected) else U64(old(rejected) + 1)
      ensures overruns == if SrcOk(s.src) && !ok then U64(old(overruns) + 1) else old(overruns)
    {
      U64Minus(released, |accepted| - released);
      if !SrcOk(s.src) {
        rejected := U64(rejected + 1);
        return false;
      }
      if Minus(head, tail) >= CAPACITY {
        overruns := U64(overruns + 1);
        return false;
      }
      U64Index(|accepted|);
      HoldsOneMore(slot[..], accepted, released, s, Index(head), accepted + [s]);
      slot[Index(head)] := Stored(head, s);
      U64Next(0, |accepted|);
      head := U64(head + 1);
      accepted := accepted + [s];
      ok := true;
    }

    /** ring_peek: the i-th unread slot, if there is one. */
    method Peek(i: nat) returns (ok: bool, out: Stored)
      requires Valid()
      ensures ok == (released + i < |accepted|)
      ensures ok ==> out == Stored(U64(released + i), accepted[released + i])
    {
      U64Minus(released, |accepted| - released);
      out := BLANK;
      if Minus(head, tail) <= i { return false, out; }
      U64Absorbs(released, i);
      U64Index(released + i);
      ok, out := true, slot[Index(U64(tail + i))];
    }

    /** ring_release: frees the n oldest unread slots, or refuses and frees none. */
    method Release(n: nat) returns (ok: bool)
      requires Valid()
      modifies this`tail, this`released
      ensures Valid() && ok == (n <= |accepted| - old(released))
      ensures released == if ok then old(released) + n else old(released)
    {
      U64Minus(released, |accepted| - released);
      if n > Minus(head, tail) { return false; }
      U64Absorbs(released, n);
      tail := U64(tail + n);
      released := released + n;
      ok := true;
    }

    /** ring_pop: the oldest unread slot, freed. */
    method Pop() returns (ok: bool, out: Stored)
      requires Valid()
      modifies this`tail, this`released
      ensures Valid() && ok == (old(released) < |accepted|)
      ensures ok ==> out == Stored(U64(old(released)), accepted[old(released)]) && released == old(released) + 1
      ensures !ok ==> released == old(released)
    {
      ok, out := Peek(0);
      if ok { ok := Release(1); }
    }

    /** ring_depth, when nothing moves between its two loads. */
    method Depth() returns (n: u64)
      requires Valid()
      ensures n == |accepted| - released
    {
      U64Minus(released, |accepted| - released);
      n := Minus(head, tail);
    }
  }

  // ------------------------------------------------------------------ the two ends as interleaved steps

  datatype Producer =
    | Resting
    | Storing(slot: Slot)       // the check passed: the slot is being copied in
    | Stamped(slot: Slot)       // copied and numbered, not yet published

  datatype Consumer =
    | Waiting
    | Copying(at: nat)          // ring_peek passed its check and is copying position at

  /** slots is the shared array; head and tail count without wrapping. tailSeen and headSeen are the
      newest values each end has read of the other's index. abandoned counts pushes whose process died in
      them. got is what every peek has returned. */
  datatype State = State(slots: seq<Stored>, accepted: seq<Slot>, tail: nat, overruns: nat, rejected: nat, attempts: nat,
                         abandoned: nat,
                         tailSeen: nat, headSeen: nat, producer: Producer, consumer: Consumer, got: seq<(nat, Stored)>)

  const INIT := State(seq(CAPACITY, _ => BLANK), [], 0, 0, 0, 0, 0, 0, 0, Resting, Waiting, [])

  datatype Step =
    | Refuse(slot: Slot)                  // ring_push of an unlabelled slot
    | Check(slot: Slot, tailRead: nat)    // ring_push loads both indices and decides
    | Scribble(junk: Stored)              // part of the copy lands
    | Stamp                               // the copy and its number are complete
    | Publish                             // the store of head
    | PeekAt(i: nat, headRead: nat)       // ring_peek loads both indices and decides
    | Copied                              // its copy is complete
    | Free(n: nat, headRead: nat)         // ring_release
    | NewProducer                         // the producer dies, anywhere, and another attaches
    | NewConsumer

  /** A read of the other end's index may be out of date, but not older than the last one, nor than the
      start of the process that reads. */
  predicate Enabled(s: State, step: Step) {
    match step
    case Refuse(slot) => s.producer.Resting? && !SrcOk(slot.src)
    case Check(slot, tailRead) => s.producer.Resting? && SrcOk(slot.src) && s.tailSeen <= tailRead <= s.tail
    case Scribble(_) => s.producer.Storing?
    case Stamp => s.producer.Storing?
    case Publish => s.producer.Stamped?
    case PeekAt(_, headRead) => s.consumer.Waiting? && s.headSeen <= headRead <= |s.accepted|
    case Copied => s.consumer.Copying? && |s.slots| == CAPACITY
    case Free(_, headRead) => s.consumer.Waiting? && s.headSeen <= headRead <= |s.accepted|
    case NewProducer => true
    case NewConsumer => true
  }

  function Write(s: State, v: Stored): seq<Stored> {
    var i := Index(|s.accepted|);
    if i < |s.slots| then s.slots[i := v] else s.slots
  }

  function Apply(s: State, step: Step): State
    requires Enabled(s, step)
  {
    match step
    case Refuse(_) => s.(rejected := s.rejected + 1, attempts := s.attempts + 1)
    case Check(slot, tailRead) =>
      if Minus(U64(|s.accepted|), U64(tailRead)) >= CAPACITY
      then s.(overruns := s.overruns + 1, attempts := s.attempts + 1, tailSeen := tailRead)
      else s.(producer := Storing(slot), attempts := s.attempts + 1, tailSeen := tailRead)
    case Scribble(junk) => s.(slots := Write(s, junk))
    case Stamp => s.(slots := Write(s, Stored(U64(|s.accepted|), s.producer.slot)), producer := Stamped(s.producer.slot))
    case Publish => s.(accepted := s.accepted + [s.producer.slot], producer := Resting)
    case PeekAt(i, headRead) =>
      if Minus(U64(headRead), U64(s.tail)) <= i then s.(headSeen := headRead)
      else s.(consumer := Copying(s.tail + i), headSeen := headRead)
    case Copied => s.(got := s.got + [(s.consumer.at, s.slots[Index(s.consumer.at)])], consumer := Waiting)
    case Free(n, headRead) =>
      if n > Minus(U64(headRead), U64(s.tail)) then s.(headSeen := headRead)
      else s.(tail := s.tail + n, headSeen := headRead)
    case NewProducer =>
      s.(producer := Resting, tailSeen := s.tail, abandoned := s.abandoned + if s.producer.Resting? then 0 else 1)
    case NewConsumer => s.(consumer := Waiting, headSeen := |s.accepted|)
  }

  /** What every peek returned: the slot that was pushed at that position, with its number. */
  ghost predicate GotRight(accepted: seq<Slot>, got: seq<(nat, Stored)>) {
    forall k :: 0 <= k < |got| ==> got[k].0 < |accepted| && got[k].1 == Stored(U64(got[k].0), accepted[got[k].0])
  }

  ghost predicate ProducerOk(s: State) {
    match s.producer
    case Resting => true
    case Storing(slot) => SrcOk(slot.src) && |s.accepted| < s.tailSeen + CAPACITY
    case Stamped(slot) =>
      SrcOk(slot.src) && |s.accepted| < s.tailSeen + CAPACITY && |s.slots| == CAPACITY
      && s.slots[Index(|s.accepted|)] == Stored(U64(|s.accepted|), slot)
  }

  ghost predicate Inv(s: State) {
    && Holds(s.slots, s.accepted, s.tail)
    && s.tailSeen <= s.tail <= s.headSeen <= |s.accepted| <= s.tailSeen + CAPACITY
    && (forall i :: 0 <= i < |s.accepted| ==> SrcOk(s.accepted[i].src))
    && ProducerOk(s) && (s.consumer.Copying? ==> s.tail <= s.consumer.at < |s.accepted|)
    && GotRight(s.accepted, s.got)
    && s.attempts == |s.accepted| + s.overruns + s.rejected + s.abandoned + (if s.producer.Resting? then 0 else 1)
  }

  lemma InitInv()
    ensures Inv(INIT)
  {}

  /** Writing at the head touches no unread slot. */
  lemma WriteKeepsUnread(s: State, v: Stored)
    requires Holds(s.slots, s.accepted, s.tail) && |s.accepted| < s.tail + CAPACITY
    ensures Holds(Write(s, v), s.accepted, s.tail)
    ensures forall i :: s.tail <= i < |s.accepted| ==> Write(s, v)[Index(i)] == s.slots[Index(i)]
  {
    forall i | s.tail <= i < |s.accepted| ensures Write(s, v)[Index(i)] == s.slots[Index(i)] {
      DistinctPlaces(i, |s.accepted|);
    }
  }

  lemma CheckKeeps(s: State, slot: Slot, tailRead: nat)
    requires Inv(s) && Enabled(s, Check(slot, tailRead))
    ensures Inv(Apply(s, Check(slot, tailRead)))
    ensures Apply(s, Check(slot, tailRead)).producer.Storing? <==> |s.accepted| < tailRead + CAPACITY
  {
    U64Minus(tailRead, |s.accepted| - tailRead);
  }

  lemma PublishKeeps(s: State)
    requires Inv(s) && s.producer.Stamped?
    ensures Inv(Apply(s, Publish))
  {
    var more := s.accepted + [s.producer.slot];
    HoldsOneMore(s.slots, s.accepted, s.tail, s.producer.slot, Index(|s.accepted|), more);
    assert s.slots[Index(|s.accepted|) := s.slots[Index(|s.accepted|)]] == s.slots;
  }

  lemma FreeKeeps(s: State, n: nat, headRead: nat)
    requires Inv(s) && Enabled(s, Free(n, headRead))
    ensures Inv(Apply(s, Free(n, headRead)))
    ensures Apply(s, Free(n, headRead)).tail == if n <= headRead - s.tail then s.tail + n else s.tail
  {
    U64Minus(s.tail, headRead - s.tail);
  }

  lemma PeekKeeps(s: State, i: nat, headRead: nat)
    requires Inv(s) && Enabled(s, PeekAt(i, headRead))
    ensures Inv(Apply(s, PeekAt(i, headRead)))
    ensures Apply(s, PeekAt(i, headRead)).consumer.Copying? <==> s.tail + i < headRead
  {
    U64Minus(s.tail, headRead - s.tail);
  }

  lemma StampKeeps(s: State)
    requires Inv(s) && s.producer.Storing?
    ensures Inv(Apply(s, Stamp))
  {
    WriteKeepsUnread(s, Stored(U64(|s.accepted|), s.producer.slot));
  }

  /** Every step of either end keeps the invariant, however out of date its view. */
  lemma StepKeepsInv(s: State, step: Step)
    requires Inv(s) && Enabled(s, step)
    ensures Inv(Apply(s, step))
  {
    match step
    case Refuse(_) =>
    case Check(slot, tailRead) => CheckKeeps(s, slot, tailRead);
    case Scribble(junk) => WriteKeepsUnread(s, junk);
    case Stamp => StampKeeps(s);
    case Publish => PublishKeeps(s);
    case PeekAt(i, headRead) => PeekKeeps(s, i, headRead);
    case Copied =>
    case Free(n, headRead) => FreeKeeps(s, n, headRead);
    case NewProducer =>
    case NewConsumer =>
  }

  ghost predicate CanRun(s: State, steps: seq<Step>)
    decreases |steps|
  {
    steps == [] || (Enabled(s, steps[0]) && CanRun(Apply(s, steps[0]), steps[1..]))
  }

  function After(s: State, steps: seq<Step>): State
    requires CanRun(s, steps)
    decreases |steps|
  {
    if steps == [] then s else After(Apply(s, steps[0]), steps[1..])
  }

  lemma StepGrows(s: State, step: Step)
    requires Inv(s) && Enabled(s, step)
    ensures s.accepted <= Apply(s, step).accepted && s.tail <= Apply(s, step).tail && s.got <= Apply(s, step).got
  {}

  lemma {:induction false} RunKeepsInv(s: State, steps: seq<Step>)
    requires Inv(s) && CanRun(s, steps)
    ensures Inv(After(s, steps))
    decreases |steps|
  {
    if steps != [] {
      StepKeepsInv(s, steps[0]);
      RunKeepsInv(Apply(s, steps[0]), steps[1..]);
    }
  }

  /** Over any interleaving: what was accepted is never changed, what was released stays released,
      what a peek returned stays returned. */
  lemma {:induction false} RunKeeps(s: State, steps: seq<Step>)
    requires Inv(s) && CanRun(s, steps)
    ensures s.accepted <= After(s, steps).accepted && s.tail <= After(s, steps).tail && s.got <= After(s, steps).got
    decreases |steps|
  {
    if steps != [] {
      var next := Apply(s, steps[0]);
      StepKeepsInv(s, steps[0]);
      StepGrows(s, steps[0]);
      RunKeeps(next, steps[1..]);
    }
  }

  /** The ring's promise over every interleaving of its two ends, whose processes may die at any step and be
      replaced: no unread slot is ever overwritten, every peek returned the slot pushed at its position with that position's number, every
      published slot is labelled, and every attempt is accounted for. */
  lemma NothingIsLost(steps: seq<Step>)
    requires CanRun(INIT, steps)
    ensures var s := After(INIT, steps);
            && s.tail <= |s.accepted| <= s.tail + CAPACITY && Holds(s.slots, s.accepted, s.tail)
            && GotRight(s.accepted, s.got) && (forall i :: 0 <= i < |s.accepted| ==> SrcOk(s.accepted[i].src))
            && (s.producer.Resting? ==> s.attempts == |s.accepted| + s.overruns + s.rejected + s.abandoned)
  {
    InitInv();
    RunKeepsInv(INIT, steps);
  }

  /** To storaged, a published slot is a push it allows, and a release moves the tail over accepted
      slots; no other step is visible to it. */
  lemma StepIsRingStep(s: State, step: Step, gen: u64)
    requires Inv(s) && Enabled(s, step)
    ensures var a, b := Ring(gen, s.accepted, s.tail), Ring(gen, Apply(s, step).accepted, Apply(s, step).tail);
            if step.Publish? then
              SrcOk(s.producer.slot.src) && |a.accepted| < a.tail + CAPACITY && b == a.(accepted := a.accepted + [s.producer.slot])
            else if step.Free? then b == a || (a.tail + step.n <= |a.accepted| && b == a.(tail := a.tail + step.n))
            else b == a
  {
    if step.Free? { FreeKeeps(s, step.n, step.headRead); }
  }

  // ------------------------------------------------------------------ a third party's depth

  /** ring_depth: tail loaded in state a, head in a later state b. */
  function DepthOf(a: State, b: State): u64 { Minus(U64(|b.accepted|), U64(a.tail)) }

  /** With any steps between the two loads, the depth never wraps below zero: it is the unread slots
      at the second load plus those released since the first, so at most that above capacity; and it is within
      capacity exactly when no more slots were accepted between the loads than were free at the first. */
  lemma DepthIsBounded(a: State, steps: seq<Step>)
    requires Inv(a) && CanRun(a, steps) && After(a, steps).tail - a.tail < WRAP - CAPACITY
    ensures var b := After(a, steps);
            && DepthOf(a, b) == (|b.accepted| - b.tail) + (b.tail - a.tail)
            && DepthOf(a, b) <= CAPACITY + (b.tail - a.tail)
            && (DepthOf(a, b) <= CAPACITY <==> |b.accepted| - |a.accepted| <= CAPACITY - (|a.accepted| - a.tail))
  {
    RunKeepsInv(a, steps);
    RunKeeps(a, steps);
    var b := After(a, steps);
    U64Minus(a.tail, |b.accepted| - a.tail);
  }

  lemma PushedNext(b: State, slot: Slot, c: State, d: State, e: State)
    requires Inv(b) && b.producer.Resting? && SrcOk(slot.src) && |b.accepted| < b.tail + CAPACITY
    requires Enabled(b, Check(slot, b.tail)) && c == Apply(b, Check(slot, b.tail))
    requires d == (if c.producer.Storing? then Apply(c, Stamp) else c)
    requires e == (if d.producer.Stamped? then Apply(d, Publish) else d)
    ensures Enabled(c, Stamp) && Enabled(d, Publish) && e.accepted == b.accepted + [slot]
  {
    CheckKeeps(b, slot, b.tail);
  }

  lemma FreedOne(a: State, b: State)
    requires Inv(a) && |a.accepted| == a.tail + CAPACITY && a.consumer.Waiting? && b == Apply(a, Free(1, |a.accepted|))
    ensures Inv(b) && b.accepted == a.accepted && b.tail == a.tail + 1 && b.producer == a.producer && b.tailSeen <= b.tail
  {
    FreeKeeps(a, 1, |a.accepted|);
  }

  lemma DepthOver(a: State, e: State, n: nat)
    requires |e.accepted| == a.tail + n && n < WRAP
    ensures DepthOf(a, e) == n
  {
    U64Minus(a.tail, n);
  }

  /** Capacity alone is no bound: from a full ring, one release and one push between the two loads
      make the depth capacity + 1. */
  lemma DepthCanExceedCapacity(a: State, slot: Slot)
    requires Inv(a) && |a.accepted| == a.tail + CAPACITY && a.producer.Resting? && a.consumer.Waiting? && SrcOk(slot.src)
    ensures var steps := [Free(1, |a.accepted|), Check(slot, a.tail + 1), Stamp, Publish];
            CanRun(a, steps) && DepthOf(a, After(a, steps)) == CAPACITY + 1
  {
    var b := Apply(a, Free(1, |a.accepted|));
    FreedOne(a, b);
    var c := Apply(b, Check(slot, a.tail + 1));
    var d := if c.producer.Storing? then Apply(c, Stamp) else c;
    var e := if d.producer.Stamped? then Apply(d, Publish) else d;
    PushedNext(b, slot, c, d, e);
    After4(a, Free(1, |a.accepted|), Check(slot, a.tail + 1), Stamp, Publish, b, c, d, e);
    DepthOver(a, e, CAPACITY + 1);
  }

  lemma After4(a: State, s0: Step, s1: Step, s2: Step, s3: Step, b: State, c: State, d: State, e: State)
    requires Enabled(a, s0) && b == Apply(a, s0) && Enabled(b, s1) && c == Apply(b, s1)
    requires Enabled(c, s2) && d == Apply(c, s2) && Enabled(d, s3) && e == Apply(d, s3)
    ensures CanRun(a, [s0, s1, s2, s3]) && After(a, [s0, s1, s2, s3]) == e
  {
    assert [s0, s1, s2, s3][1..] == [s1, s2, s3] && [s1, s2, s3][1..] == [s2, s3] && [s2, s3][1..] == [s3];
    assert [s3][1..] == [];
    assert CanRun(d, [s3]) && After(d, [s3]) == e;
    assert CanRun(c, [s2, s3]) && After(c, [s2, s3]) == e;
    assert CanRun(b, [s1, s2, s3]) && After(b, [s1, s2, s3]) == e;
  }
}
