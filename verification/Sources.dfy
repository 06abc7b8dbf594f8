/** The rings storaged drains, what it remembers of each, and what a log owes to them. */
module Sources {
  import opened Crc
  import opened Bytes
  import opened Log
  import opened Record
  import opened Tallies
  import opened Wal

  type Word = s: seq<byte> | |s| == 4 witness [0, 0, 0, 0]
  type Data = s: seq<byte> | |s| == 16 witness seq(16, _ => 0)

  /** ring_slot_t without its seq, which is its position among the accepted slots. */
  datatype Slot = Slot(mono: u64, mode: u8, pid: u8, len: u8, src: u8, value: Word, data: Data)

  const RAW_MAX := 5
  const CAPACITY := 4096
  const WRAP := 0x1_0000_0000_0000_0000

  /** A ring as the two ends see it: every slot it ever accepted, and how many are released. */
  datatype Ring = Ring(gen: u64, accepted: seq<Slot>, tail: nat)

  /** Every accepted slot is labelled, and its number has not wrapped. */
  ghost predicate Sound(ring: Ring) {
    |ring.accepted| < WRAP && forall i :: 0 <= i < |ring.accepted| ==> SrcOk(ring.accepted[i].src)
  }

  /** source_t: what storaged remembers about one ring during a run. */
  datatype Source = Source(attached: bool, taken: nat, added: bool, lastSeq: u64, skip: bool, skipSeq: u64)

  function Fresh(attached: bool): Source { Source(attached, 0, false, 0, false, 0) }

  /** storaged passes over a slot that was logged before it started. */
  predicate Skips(src: Source, slotSeq: nat) { src.skip && slotSeq <= src.skipSeq }

  function Cleared(s: Source): Source { s.(taken := 0, added := false) }

  // ------------------------------------------------------------------ slots and samples

  function RawLen(slot: Slot): nat { if slot.len < RAW_MAX then slot.len else RAW_MAX }

  /** rec_sample_t: mode, pid, raw_len, raw[5] zero-filled, value. */
  function SampleBody(slot: Slot): (body: seq<byte>)
    ensures |body| == 12
  {
    [slot.mode, slot.pid, RawLen(slot)] + slot.data[..RawLen(slot)] + seq(RAW_MAX - RawLen(slot), _ => 0) + slot.value
  }

  function ReadingOf(slot: Slot): Reading { Reading(slot.src, slot.mono, SampleBody(slot)) }

  function Readings(slots: seq<Slot>): (rs: seq<Reading>)
    ensures |rs| == |slots|
  {
    seq(|slots|, i requires 0 <= i < |slots| => ReadingOf(slots[i]))
  }

  /** all is start followed by an interleaving of a and b. */
  ghost predicate Merged(start: seq<Reading>, all: seq<Reading>, a: seq<Reading>, b: seq<Reading>)
    decreases |all|
  {
    || (a == [] && b == [] && all == start)
    || (all != [] && a != [] && all[|all| - 1] == a[|a| - 1] && Merged(start, all[..|all| - 1], a[..|a| - 1], b))
    || (all != [] && b != [] && all[|all| - 1] == b[|b| - 1] && Merged(start, all[..|all| - 1], a, b[..|b| - 1]))
  }

  lemma MergedSnoc(start: seq<Reading>, all: seq<Reading>, a: seq<Reading>, b: seq<Reading>, r: Reading)
    requires Merged(start, all, a, b)
    ensures Merged(start, all + [r], a + [r], b) && Merged(start, all + [r], a, b + [r])
  {
    assert (all + [r])[..|all|] == all && (a + [r])[..|a|] == a && (b + [r])[..|b|] == b;
  }

  /** Every merged sequence is as long as its parts. */
  lemma {:induction false} MergedLength(start: seq<Reading>, all: seq<Reading>, a: seq<Reading>, b: seq<Reading>)
    requires Merged(start, all, a, b)
    ensures |all| == |start| + |a| + |b| && start <= all
    decreases |all|
  {
    if all != [] && a != [] && all[|all| - 1] == a[|a| - 1] && Merged(start, all[..|all| - 1], a[..|a| - 1], b) {
      MergedLength(start, all[..|all| - 1], a[..|a| - 1], b);
    } else if all != [] && b != [] && all[|all| - 1] == b[|b| - 1] && Merged(start, all[..|all| - 1], a, b[..|b| - 1]) {
      MergedLength(start, all[..|all| - 1], a, b[..|b| - 1]);
    }
  }

  /** The box's samples are those whose mode byte is 0. */
  predicate IsBox(r: Reading) { |r.body| > 0 && r.body[0] == 0 }

  function Only(box: bool, rs: seq<Reading>): seq<Reading> {
    if rs == [] then [] else
    var init := Only(box, rs[..|rs| - 1]);
    if IsBox(rs[|rs| - 1]) == box then init + [rs[|rs| - 1]] else init
  }

  /** When each producer keeps to its own mode, the merged samples of a namespace are exactly the
      samples of its ring, in order. */
  lemma {:induction false} MergedSeparates(all: seq<Reading>, a: seq<Reading>, b: seq<Reading>)
    requires Merged([], all, a, b)
    requires (forall i :: 0 <= i < |a| ==> !IsBox(a[i])) && (forall i :: 0 <= i < |b| ==> IsBox(b[i]))
    ensures Only(false, all) == a && Only(true, all) == b
    decreases |all|
  {
    if all != [] && a != [] && all[|all| - 1] == a[|a| - 1] && Merged([], all[..|all| - 1], a[..|a| - 1], b) {
      MergedSeparates(all[..|all| - 1], a[..|a| - 1], b);
    } else if all != [] && b != [] && all[|all| - 1] == b[|b| - 1] && Merged([], all[..|all| - 1], a, b[..|b| - 1]) {
      MergedSeparates(all[..|all| - 1], a, b[..|b| - 1]);
    }
  }

  // ------------------------------------------------------------------ exactly once

  /** How many slots of this ring the log holds: one more than the last slot it names since the generation
      last changed to this ring's. */
  function Logged(t: Tally, ring: Ring, ns: nat): nat
    requires ns < 2
  {
    if t.gen.At(ns) == ring.gen then t.place.At(ns) else 0
  }

  /** The first n slots of a ring, as samples. */
  function First(ring: Ring, n: nat): seq<Reading> {
    Readings(if n <= |ring.accepted| then ring.accepted[..n] else ring.accepted)
  }

  ghost predicate RingOwed(t: Tally, ring: Ring, ns: nat)
    requires ns < 2
  {
    ring.tail <= Logged(t, ring, ns) <= |ring.accepted|
  }

  /** Every place the log names is one of this ring. */
  ghost predicate Named(t: Tally, ring: Ring, ns: nat)
    requires ns < 2
  {
    t.noted.At(ns) ==> t.gen.At(ns) == ring.gen && t.place.At(ns) == t.last.At(ns) + 1
  }

  /** The samples a log began with; whether the directory has had one segment only; and whether every place it
      names is one of these rings. */
  datatype Origin = Origin(samples: seq<Reading>, sole: bool, named: bool)

  /** A log with this tally holds each ring's first slots exactly once, in order: none released and
      not logged, none logged twice. */
  ghost predicate ExactlyOnce(org: Origin, t: Tally, rings: Ns<Ring>) {
    && RingOwed(t, rings.car, 0) && RingOwed(t, rings.box, 1)
    && Merged(org.samples, t.samples, First(rings.car, Logged(t, rings.car, 0)), First(rings.box, Logged(t, rings.box, 1)))
    && (org.named ==> Named(t, rings.car, 0) && Named(t, rings.box, 1))
  }

  /** A log with tally t holds as much of each ring as one with tally b. */
  ghost predicate Beyond(b: Tally, t: Tally, rings: Ns<Ring>) {
    Logged(b, rings.car, 0) <= Logged(t, rings.car, 0) && Logged(b, rings.box, 1) <= Logged(t, rings.box, 1)
  }

  // ------------------------------------------------------------------ one source against its ring

  /** How many slots of the ring the log and the open batch hold together. */
  function Held(t: Tally, ring: Ring, src: Source, ns: nat): nat
    requires ns < 2
  {
    if src.added then ring.tail + src.taken else Logged(t, ring, ns)
  }

  /** Between the log and the ring, storaged stands at slot tail + taken: it has skipped only slots
      that are logged, and added exactly those from the first unlogged one on. */
  ghost predicate InStep(t: Tally, ring: Ring, src: Source, ns: nat)
    requires ns < 2
  {
    var l, p := Logged(t, ring, ns), ring.tail + src.taken;
    && ring.tail <= l <= |ring.accepted| < WRAP
    && if !src.attached then src.taken == 0 && !src.added else
       && t.gen.At(ns) == ring.gen && p <= |ring.accepted|
       && (ring.tail < l ==> src.skip && src.skipSeq + 1 == l) && (src.skip ==> src.skipSeq + 1 <= l)
       && (if src.added then l < p && src.lastSeq == p - 1 else p <= l)
  }

  predicate MorePushed(ring: Ring, more: Ring) {
    more.gen == ring.gen && more.tail == ring.tail && ring.accepted <= more.accepted && |more.accepted| < WRAP
  }

  lemma FirstOfMore(ring: Ring, more: Ring, n: nat)
    requires MorePushed(ring, more) && n <= |ring.accepted|
    ensures First(more, n) == First(ring, n)
  {
    assert more.accepted[..n] == ring.accepted[..n];
  }

  /** New slots owe nothing to the log yet. */
  lemma PushKeepsOwed(org: Origin, t: Tally, rings: Ns<Ring>, more: Ns<Ring>)
    requires ExactlyOnce(org, t, rings) && MorePushed(rings.car, more.car) && MorePushed(rings.box, more.box)
    ensures ExactlyOnce(org, t, more)
  {
    FirstOfMore(rings.car, more.car, Logged(t, rings.car, 0));
    FirstOfMore(rings.box, more.box, Logged(t, rings.box, 1));
  }

  lemma PushKeepsStep(t: Tally, ring: Ring, more: Ring, src: Source, ns: nat)
    requires ns < 2 && InStep(t, ring, src, ns) && MorePushed(ring, more)
    ensures InStep(t, more, src, ns) && Held(t, more, src, ns) == Held(t, ring, src, ns)
  {}

  lemma FirstSnoc(ring: Ring, n: nat)
    requires n < |ring.accepted|
    ensures First(ring, n + 1) == First(ring, n) + [ReadingOf(ring.accepted[n])]
  {
    assert ring.accepted[..n + 1] == ring.accepted[..n] + [ring.accepted[n]];
  }
}
