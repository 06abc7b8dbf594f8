/** drain in place: one ring's unread slots into the open batch, one after another. */
module Drain {
  import opened Bytes
  import opened Framing
  import opened Log
  import opened Record
  import opened LogFormat
  import opened Wal
  import opened World
  import opened Sources
  import opened Storaged
  import opened Tallies
  import Exactly
  import Ring = SpscRing
  import Write = Writer

  /** The clocks drain reads while it deals with its k-th slot: for the sample, and for a BEGIN. */
  type Clocks = nat -> (Clock, Clock)

  /** One turn of drain's loop on a writer and a source: the turn's outcome, and whether it stops. */
  function TakeOne(fmt: Format, w: Wal, ring: Sources.Ring, src: Source, at: Clock, now: Clock): (Wal, Source, bool)
    requires ring.tail + src.taken < |ring.accepted| < WRAP
  {
    var slotSeq := ring.tail + src.taken;
    var slot := ring.accepted[slotSeq];
    var passed := src.(taken := src.taken + 1, lastSeq := slotSeq);
    if src.skip && slotSeq <= src.skipSeq then (w, passed, false) else
    var (ok, v) := Add(fmt, w, SAMPLE, slot.src, SampleClock(slot, at), SampleBody(slot), now);
    if ok then (v, passed.(added := true), false) else (v, src.(lastSeq := U64(slotSeq + WRAP - 1)), true)
  }

  predicate More(w: Wal, ring: Sources.Ring, src: Source) {
    w.batchSamples < BATCH_SAMPLES && ring.tail + src.taken < |ring.accepted| < WRAP
  }

  /** drain, from its k-th slot on: the writer, the source, and the samples added to so many before. */
  function DrainFrom(fmt: Format, w: Wal, ring: Sources.Ring, src: Source, clocks: Clocks, k: nat,
                     count: nat): (Wal, Source, nat)
    decreases |ring.accepted| - (ring.tail + src.taken)
  {
    if !More(w, ring, src) then (w, src, count) else
    var (v, next, stop) := TakeOne(fmt, w, ring, src, clocks(k).0, clocks(k).1);
    if stop then (v, next, count)
    else DrainFrom(fmt, v, ring, next, clocks, k + 1, if Skips(src, ring.tail + src.taken) then count else count + 1)
  }

  class DrainedRing {
    var taken: nat
    var added: bool
    var lastSeq: u64
    const skip: bool
    const skipSeq: u64

    function Model(): Source
      reads this
    {
      Source(true, taken, added, lastSeq, skip, skipSeq)
    }

    constructor (skips: bool, to: u64)
      ensures Model() == Source(true, 0, false, 0, skips, to)
    {
      taken, added, lastSeq, skip, skipSeq := 0, false, 0, skips, to;
    }

    /** One turn: pass over a slot that is already durable, else add it, or leave it for later. */
    method TakeSlot(w: Write.WalWriter, slot: Ring.Stored, at: Clock, now: Clock,
                    ghost ring: Sources.Ring) returns (stop: bool)
      requires w.Valid() && ring.tail + taken < |ring.accepted| < WRAP
      requires slot == Ring.Stored(ring.tail + taken, ring.accepted[ring.tail + taken])
      modifies this, w, w.buf
      ensures w.Valid() && (w.Model(), Model(), stop) == TakeOne(w.fmt, old(w.Model()), ring, old(Model()), at, now)
    {
      if skip && slot.seqNo <= skipSeq {
        taken, lastSeq := taken + 1, slot.seqNo;
        return false;
      }
      stop := AddSlot(w, slot, at, now);
    }

    /** The slot's sample into the open batch, or the slot left in the ring. */
    method AddSlot(w: Write.WalWriter, slot: Ring.Stored, at: Clock, now: Clock) returns (stop: bool)
      requires w.Valid()
      modifies this, w, w.buf
      ensures w.Valid() && (!stop, w.Model())
              == Add(w.fmt, old(w.Model()), SAMPLE, slot.slot.src, SampleClock(slot.slot, at), SampleBody(slot.slot), now)
      ensures Model() == if stop then old(Model()).(lastSeq := U64(slot.seqNo + WRAP - 1))
                         else old(Model()).(taken := old(taken) + 1, lastSeq := slot.seqNo, added := true)
    {
      taken, lastSeq := taken + 1, slot.seqNo;
      var ok := w.Add(SAMPLE, slot.slot.src, SampleClock(slot.slot, at), SampleBody(slot.slot), now);
      if ok { added := true; } else { taken, lastSeq := taken - 1, U64(slot.seqNo + WRAP - 1); }
      stop := !ok;
    }

    /** drain. */
    method Drain(w: Write.WalWriter, r: Ring.RingBuffer, gen: u64, clocks: Clocks) returns (count: nat)
      requires w.Valid() && r.Valid() && |r.accepted| < WRAP
      modifies this, w, w.buf
      ensures w.Valid() && r.Valid()
      ensures (w.Model(), Model(), count)
              == DrainFrom(w.fmt, old(w.Model()), Sources.Ring(gen, r.accepted, r.released), old(Model()), clocks, 0, 0)
    {
      ghost var ring := Sources.Ring(gen, r.accepted, r.released);
      ghost var start := DrainFrom(w.fmt, w.Model(), ring, Model(), clocks, 0, 0);
      var k, stop := 0, false;
      count := 0;
      while w.batchSamples < BATCH_SAMPLES
        invariant w.Valid() && r.Valid() && ring == Sources.Ring(gen, r.accepted, r.released)
        invariant DrainFrom(w.fmt, w.Model(), ring, Model(), clocks, k, count) == start
        decreases |r.accepted| - (r.released + taken)
      {
        var more, slot := r.Peek(taken);
        if !more { return; }
        Small(r.released + taken);
        var passes := skip && slot.seqNo <= skipSeq;
        stop := TakeSlot(w, slot, clocks(k).0, clocks(k).1, ring);
        if stop { return; }
        k, count := k + 1, if passes then count else count + 1;
      }
    }
  }

  lemma Small(n: nat)
    requires n < WRAP
    ensures U64(n) == n
  {}

  // ------------------------------------------------------------------ drain is a run of the machine

  /** The moves that draining ring ns makes. */
  function Takes(fmt: Format, s: State, ns: nat, clocks: Clocks, k: nat): seq<Move>
    requires ns < 2
    decreases |s.rings.At(ns).accepted| - (s.rings.At(ns).tail + s.srcs.At(ns).taken)
  {
    if !CanTake(s, ns) then [] else
    var m, t := Move.Take(ns, clocks(k).0, clocks(k).1), DoTake(fmt, s, ns, clocks(k).0, clocks(k).1);
    if t.srcs.At(ns).taken == s.srcs.At(ns).taken then [m] else [m] + Takes(fmt, t, ns, clocks, k + 1)
  }

  lemma TakeIsTakeOne(fmt: Format, s: State, ns: nat, at: Clock, now: Clock)
    requires CanTake(s, ns)
    ensures var (v, next, stop) := TakeOne(fmt, s.world.proc.w, s.rings.At(ns), s.srcs.At(ns), at, now);
            var t := DoTake(fmt, s, ns, at, now);
            && t.world == WithWal(s.world, v) && t.srcs == s.srcs.Set(ns, next) && t.rings == s.rings && t.pc == s.pc
            && (stop <==> t.srcs.At(ns).taken == s.srcs.At(ns).taken)
  {
    assert WithWal(s.world, s.world.proc.w) == s.world;
  }

  /** What drain does is what a run of the machine's one-slot steps does. */
  lemma {:induction false} DrainIsARun(fmt: Format, s: State, ns: nat, clocks: Clocks, k: nat, count: nat)
    requires ns < 2 && s.pc.Draining? && Running(s.world) && s.srcs.At(ns).attached
    ensures Exactly.CanRun(fmt, s, Takes(fmt, s, ns, clocks, k))
    ensures var t := Exactly.Run(fmt, s, Takes(fmt, s, ns, clocks, k));
            t.world.proc.Up? && t.rings == s.rings
            && var (w, src, _) := DrainFrom(fmt, s.world.proc.w, s.rings.At(ns), s.srcs.At(ns), clocks, k, count);
               t.world.proc.w == w && t.srcs.At(ns) == src
    decreases |s.rings.At(ns).accepted| - (s.rings.At(ns).tail + s.srcs.At(ns).taken)
  {
    if CanTake(s, ns) {
      var (at, now) := clocks(k);
      var m, t := Move.Take(ns, at, now), DoTake(fmt, s, ns, at, now);
      TakeIsTakeOne(fmt, s, ns, at, now);
      if t.srcs.At(ns).taken == s.srcs.At(ns).taken {
        assert [m][1..] == [];
      } else {
        DrainIsARun(fmt, t, ns, clocks, k + 1, if Skips(s.srcs.At(ns), s.rings.At(ns).tail + s.srcs.At(ns).taken) then count else count + 1);
        assert ([m] + Takes(fmt, t, ns, clocks, k + 1))[1..] == Takes(fmt, t, ns, clocks, k + 1);
      }
    }
  }

  lemma TakeOneCounts(fmt: Format, w: Wal, ring: Sources.Ring, src: Source, at: Clock, now: Clock)
    requires More(w, ring, src) && (w.openBatch || w.batchSamples == 0)
    ensures var (v, next, stop) := TakeOne(fmt, w, ring, src, at, now);
            (v.openBatch || v.batchSamples == 0)
            && v.batchSamples == w.batchSamples + if stop || Skips(src, ring.tail + src.taken) then 0 else 1
  {}

  /** What drain returns is the number of samples the open batch has gained. */
  lemma {:induction false} DrainCounts(fmt: Format, w: Wal, ring: Sources.Ring, src: Source, clocks: Clocks, k: nat,
                                       count: nat)
    requires w.openBatch || w.batchSamples == 0
    ensures var (v, _, total) := DrainFrom(fmt, w, ring, src, clocks, k, count); v.batchSamples == w.batchSamples + (total - count)
    decreases |ring.accepted| - (ring.tail + src.taken)
  {
    if More(w, ring, src) {
      var (v, next, stop) := TakeOne(fmt, w, ring, src, clocks(k).0, clocks(k).1);
      TakeOneCounts(fmt, w, ring, src, clocks(k).0, clocks(k).1);
      if !stop { DrainCounts(fmt, v, ring, next, clocks, k + 1, if Skips(src, ring.tail + src.taken) then count else count + 1); }
    }
  }
}
