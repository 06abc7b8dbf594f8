/** The recovery scan: one pass over the bytes with the batch-local state wal_scan keeps. */
module Recovery {
  import opened Crc
  import opened Bytes
  import opened Framing
  import opened Log

  /** A batch that has begun and not ended: what follows it decides nothing yet. */
  ghost predicate OpenAt(its: seq<Item>, b: nat, i: nat, txn: u64) {
    b < i <= |its| && its[b].what == Begin(txn) && forall j :: b < j < i ==> Inner(its[j].what)
  }

  lemma OpenRun(its: seq<Item>, b: nat, i: nat, txn: u64, rest: seq<Item>)
    requires OpenAt(its, b, i, txn) && rest == its[b..] && (i == |its| || !Inner(its[i].what))
    ensures InnerRun(rest[1..]) == i - b - 1 && rest[0].what == Begin(txn)
    ensures rest[1..][..i - b - 1] == its[b + 1..i] && (i < |its| ==> rest[i - b] == its[i])
  {
    var inner, after := its[b + 1..i], its[i..];
    assert rest[1..] == inner + after;
    InnerRunIs(inner, after);
  }

  /** Where the scan stops, no whole batch starts. */
  lemma StoppedOpen(its: seq<Item>, b: nat, i: nat, txn: u64)
    requires OpenAt(its, b, i, txn) && Closed(its[..b])
    requires i == |its| || its[i].what.Begin? || (its[i].what.Commit? && its[i].what.txn != txn)
    ensures CommittedCount(its) == b && LostSamples(its[b..]) == SampleCount(its[b + 1..i])
  {
    var rest := its[b..];
    OpenRun(its, b, i, txn, rest);
    OpenCountsNothing(rest, i - b, txn, its[b + 1..i]);
    CountFrom(its, b);
  }

  lemma CountFrom(its: seq<Item>, b: nat)
    requires b <= |its| && Closed(its[..b])
    ensures CommittedCount(its) == b + CommittedCount(its[b..])
  {
    assert its == its[..b] + its[b..];
    CommittedCountAppend(its[..b], its[b..]);
  }

  lemma OpenCountsNothing(rest: seq<Item>, n: nat, txn: u64, inner: seq<Item>)
    requires 0 < n <= |rest| && rest[0].what == Begin(txn) && InnerRun(rest[1..]) == n - 1 && rest[1..][..n - 1] == inner
    requires n == |rest| || rest[n].what.Begin? || (rest[n].what.Commit? && rest[n].what.txn != txn)
    ensures CommittedCount(rest) == 0 && LostSamples(rest) == SampleCount(inner)
  {}

  lemma StoppedBetween(its: seq<Item>, b: nat)
    requires b <= |its| && Closed(its[..b]) && (b == |its| || !its[b].what.Begin?)
    ensures CommittedCount(its) == b && LostSamples(its[b..]) == 0
  {
    assert its == its[..b] + its[b..];
    CommittedCountAppend(its[..b], its[b..]);
  }

  lemma CommitCloses(its: seq<Item>, b: nat, i: nat, txn: u64)
    requires OpenAt(its, b, i, txn) && Closed(its[..b]) && i < |its| && its[i].what == Commit(txn)
    ensures Closed(its[..i + 1])
  {
    var batch := its[..i + 1][b..];
    OpenRun(its[..i + 1], b, i, txn, batch);
    assert WholeBatch(batch);
    WholeBatchIsClosed(batch);
    assert its[..i + 1] == its[..b] + batch;
    ClosedAppend(its[..b], batch);
  }

  lemma FactsNext(its: seq<Item>, i: nat)
    requires i < |its|
    ensures FactsOf(its[..i + 1]) == Absorb(FactsOf(its[..i]), its[i].what)
  {
    assert its[..i + 1][..i] == its[..i];
  }

  lemma SampleCountNext(its: seq<Item>, b: nat, i: nat)
    requires b <= i < |its|
    ensures SampleCount(its[b..i + 1]) == SampleCount(its[b..i]) + if its[i].what.Sample? then 1 else 0
  {
    assert its[b..i + 1][..i - b] == its[b..i];
  }

  lemma {:induction false} SamplesAdd(its: seq<Item>, b: nat, i: nat)
    requires b <= i <= |its|
    ensures FactsOf(its[..i]).samples == FactsOf(its[..b]).samples + SampleCount(its[b..i])
    decreases i - b
  {
    if b < i {
      SamplesAdd(its, b, i - 1);
      FactsNext(its, i - 1);
      SampleCountNext(its, b, i - 1);
    }
  }

  lemma SummaryOfCommit(its: seq<Item>, i: nat, len: nat)
    requires i < |its| && its[i].what.Commit?
    ensures Summary(its[..i + 1], len, 0) ==
            var f := FactsOf(its[..i]);
            Scan(len, true, i > 0 && its[i - 1].what.Shutdown?, its[i].seqNo, its[i].what.txn, its[i].bootId,
                 f.samples % 0x1_0000_0000, 0, f.lastMono, f.ringGen, f.hasRingSeq, f.ringSeq)
  {
    FactsNext(its, i);
  }

  /** The scan has read i records and stands at byte off. */
  ghost predicate At<R>(c: Codec<R>, buf: seq<byte>, off: nat, i: nat) {
    var rs := Parse(c, buf);
    off <= |buf| && i <= |rs| && off == |Flat(c, rs[..i])| && Parse(c, buf[off..]) == rs[i..]
  }

  lemma AtStart<R>(c: Codec<R>, buf: seq<byte>)
    ensures At(c, buf, 0, 0)
  {
    assert buf[0..] == buf;
  }

  lemma NextAt<R(!new)>(c: Codec<R>, buf: seq<byte>, off: nat, i: nat)
    requires Lawful(c) && At(c, buf, off, i)
    ensures c.dec(buf[off..]).None? <==> i == |Parse(c, buf)|
    ensures c.dec(buf[off..]).Some? ==>
              var (r, n) := c.dec(buf[off..]).value;
              n > 0 && i < |Parse(c, buf)| && r == Parse(c, buf)[i] && At(c, buf, off + n, i + 1)
  {
    FlatOfParse(c, buf);
    match c.dec(buf[off..])
    case None =>
    case Some((r, n)) =>
      assert EncodesDecoding(c, buf[off..]) && DecodesEncoding(c, r, []);
      NextParsed(c, buf, off, i, buf[off..], Parse(c, buf), r, n);
  }

  lemma NextParsed<R>(c: Codec<R>, buf: seq<byte>, off: nat, i: nat, rest: seq<byte>, rs: seq<R>, r: R, n: nat)
    requires At(c, buf, off, i) && rest == buf[off..] && rs == Parse(c, buf)
    requires c.dec(rest) == Some((r, n)) && 0 < n <= |rest| && n == |c.enc(r)|
    ensures i < |rs| && r == rs[i] && At(c, buf, off + n, i + 1)
  {
    assert rs[i..] == [r] + Parse(c, rest[n..]);
    assert rs[..i + 1] == rs[..i] + [r];
    FlatSnoc(c, rs[..i], r);
    assert rest[n..] == buf[off + n..];
  }

  /** The batch-local state after i items, b of them committed. */
  ghost predicate Tracks(its: seq<Item>, b: nat, i: nat, out: Scan, inBatch: bool, txn: u64, samples: u32, f: Facts) {
    && b <= i <= |its| && Closed(its[..b]) && out == Summary(its[..b], out.committedLen, 0)
    && (if inBatch then OpenAt(its, b, i, txn) else i == b)
    && (inBatch ==> samples == SampleCount(its[b + 1..i]) % 0x1_0000_0000
                    && FactsOf(its[..i]) == f.(samples := FactsOf(its[..i]).samples))
  }

  lemma TracksBegin(its: seq<Item>, i: nat, out: Scan, txn: u64, samples: u32, f: Facts)
    requires Tracks(its, i, i, out, false, txn, samples, f) && i < |its| && its[i].what.Begin?
    ensures Tracks(its, i, i + 1, out, true, its[i].what.txn, 0,
                   Facts(0, out.lastMono, out.ringGen, out.hasRingSeq, out.ringSeq))
  {
    FactsNext(its, i);
    assert its[i + 1..i + 1] == [];
  }

  lemma TracksInner(its: seq<Item>, b: nat, i: nat, out: Scan, txn: u64, samples: u32, f: Facts)
    requires Tracks(its, b, i, out, true, txn, samples, f) && i < |its| && Inner(its[i].what)
    ensures Tracks(its, b, i + 1, out, true, txn,
                   if its[i].what.Sample? then (samples + 1) % 0x1_0000_0000 else samples, Absorb(f, its[i].what))
  {
    FactsNext(its, i);
    SampleCountNext(its, b + 1, i);
  }

  lemma TracksCommit(its: seq<Item>, b: nat, i: nat, out: Scan, txn: u64, samples: u32, f: Facts, len: nat)
    requires Tracks(its, b, i, out, true, txn, samples, f) && i < |its| && its[i].what == Commit(txn)
    ensures Tracks(its, i + 1, i + 1,
                   Scan(len, true, its[i - 1].what.Shutdown?, its[i].seqNo, txn, its[i].bootId,
                        (out.samplesCommitted + samples) % 0x1_0000_0000, 0, f.lastMono, f.ringGen,
                        f.hasRingSeq, f.ringSeq), false, txn, 0, f)
  {
    CommitCloses(its, b, i, txn);
    SummaryOfCommit(its, i, len);
    SamplesAdd(its, b, i);
    SampleCountOfBegin(its, b, i);
    var t, s := FactsOf(its[..b]).samples, SampleCount(its[b + 1..i]);
    assert out.samplesCommitted == t % 0x1_0000_0000;
    ModularSum(t, s);
  }

  lemma ModularSum(t: nat, s: nat)
    ensures (t % 0x1_0000_0000 + s % 0x1_0000_0000) % 0x1_0000_0000 == (t + s) % 0x1_0000_0000
  {}

  /** The scan's variables: what it has committed, and what the open batch would add. */
  datatype State = State(out: Scan, inBatch: bool, lastShutdown: bool, txn: u64, samples: u32, f: Facts)

  const START := State(NO_SCAN, false, false, 0, 0, NO_FACTS)

  predicate Stops(s: State, w: What) {
    if w.Begin? then s.inBatch else !s.inBatch || (w.Commit? && w.txn != s.txn)
  }

  /** One record, which ends at byte end. */
  function Advance(s: State, item: Item, end: nat): State {
    if item.what.Begin? then
      State(s.out, true, false, item.what.txn, 0,
            Facts(0, s.out.lastMono, s.out.ringGen, s.out.hasRingSeq, s.out.ringSeq))
    else if item.what.Commit? then
      State(Scan(end, true, s.lastShutdown, item.seqNo, s.txn, item.bootId,
                 (s.out.samplesCommitted + s.samples) % 0x1_0000_0000, 0, s.f.lastMono, s.f.ringGen,
                 s.f.hasRingSeq, s.f.ringSeq), false, false, s.txn, 0, s.f)
    else
      State(s.out, true, item.what.Shutdown?, s.txn,
            if item.what.Sample? then (s.samples + 1) % 0x1_0000_0000 else s.samples, Absorb(s.f, item.what))
  }

  function Finish(s: State): Scan {
    if s.inBatch then s.out.(recordsLost := s.samples) else s.out
  }

  /** The rest of the pass, from byte off. */
  function ScanFrom<R>(c: Codec<R>, view: R -> Item, buf: seq<byte>, off: nat, s: State): Scan
    requires off <= |buf|
    decreases |buf| - off
  {
    match c.dec(buf[off..])
    case None => Finish(s)
    case Some((r, n)) =>
      if Stops(s, view(r).what) || n == 0 || n > |buf| - off then Finish(s)
      else ScanFrom(c, view, buf, off + n, Advance(s, view(r), off + n))
  }

  /** Scans buf as one segment. Nothing of an unfinished batch reaches the result but the count of
      the samples it loses. */
  method WalScan<R(!new)>(c: Codec<R>, view: R -> Item, buf: seq<byte>) returns (out: Scan)
    requires Lawful(c)
    ensures out == ScanOf(c, view, buf)
  {
    out := NO_SCAN;
    var inBatch, lastShutdown := false, false;
    var txn: u64, samples: u32 := 0, 0;
    var f := NO_FACTS;            // what the open batch would leave if its COMMIT turns up
    var off := 0;
    ScanFromIsScan(c, view, buf);
    while off < |buf|
      invariant off <= |buf|
      invariant ScanFrom(c, view, buf, off, State(out, inBatch, lastShutdown, txn, samples, f)) == ScanOf(c, view, buf)
      decreases |buf| - off
    {
      var d := c.dec(buf[off..]);
      if d.None? { break; }
      var (r, size) := d.value;
      assert EncodesDecoding(c, buf[off..]) && DecodesEncoding(c, r, []);
      var item := view(r);
      if item.what.Begin? {
        if inBatch { break; }
        inBatch, lastShutdown, txn, samples := true, false, item.what.txn, 0;
        f := Facts(0, out.lastMono, out.ringGen, out.hasRingSeq, out.ringSeq);
      } else if !inBatch {
        break;
      } else if item.what.Commit? {
        if item.what.txn != txn { break; }
        out := Scan(off + size, true, lastShutdown, item.seqNo, txn, item.bootId,
                    (out.samplesCommitted + samples) % 0x1_0000_0000, 0, f.lastMono, f.ringGen,
                    f.hasRingSeq, f.ringSeq);
        inBatch, lastShutdown, samples := false, false, 0;
      } else {
        f := Absorb(f, item.what);
        if item.what.Sample? { samples := (samples + 1) % 0x1_0000_0000; }
        lastShutdown := item.what.Shutdown?;
      }
      off := off + size;
    }
    if off == |buf| { NothingDecodesEmpty(c); assert buf[off..] == []; }
    if inBatch {
      out := out.(recordsLost := samples);
    }
  }

  // ------------------------------------------------------------------ the pass finds what is committed

  /** Where each record of rs ends. */
  function Ends<R>(c: Codec<R>, rs: seq<R>): (ends: seq<nat>)
    ensures |ends| == |rs|
    ensures forall i :: 0 <= i < |rs| ==> ends[i] == |Flat(c, rs[..i + 1])|
  {
    seq(|rs|, i requires 0 <= i < |rs| => |Flat(c, rs[..i + 1])|)
  }

  /** The same pass, over items. */
  function Pass(its: seq<Item>, ends: seq<nat>, i: nat, s: State): Scan
    requires |ends| == |its| && i <= |its|
    decreases |its| - i
  {
    if i == |its| || Stops(s, its[i].what) then Finish(s)
    else Pass(its, ends, i + 1, Advance(s, its[i], ends[i]))
  }

  lemma {:induction false} ScanFromIsPass<R(!new)>(c: Codec<R>, view: R -> Item, buf: seq<byte>, off: nat, i: nat,
                                                   s: State)
    requires Lawful(c) && At(c, buf, off, i)
    ensures var rs := Parse(c, buf);
            ScanFrom(c, view, buf, off, s) == Pass(Items(view, rs), Ends(c, rs), i, s)
    decreases |buf| - off
  {
    NextAt(c, buf, off, i);
    var d := c.dec(buf[off..]);
    if d.Some? && !Stops(s, view(d.value.0).what) {
      var (r, n) := d.value;
      ScanFromIsPass(c, view, buf, off + n, i + 1, Advance(s, view(r), off + n));
    }
  }

  function EndOf(ends: seq<nat>, b: nat): nat
    requires b <= |ends|
  {
    if b == 0 then 0 else ends[b - 1]
  }

  ghost predicate Running(its: seq<Item>, ends: seq<nat>, b: nat, i: nat, s: State)
    requires |ends| == |its|
  {
    && Tracks(its, b, i, s.out, s.inBatch, s.txn, s.samples, s.f) && s.out.committedLen == EndOf(ends, b)
    && (s.inBatch ==> i > 0 && s.lastShutdown == its[i - 1].what.Shutdown?)
  }

  lemma RunningNext(its: seq<Item>, ends: seq<nat>, b: nat, i: nat, s: State) returns (b': nat)
    requires |ends| == |its| && Running(its, ends, b, i, s) && i < |its| && !Stops(s, its[i].what)
    ensures Running(its, ends, b', i + 1, Advance(s, its[i], ends[i]))
  {
    b' := b;
    if its[i].what.Begin? {
      TracksBegin(its, i, s.out, s.txn, s.samples, s.f);
    } else if its[i].what.Commit? {
      TracksCommit(its, b, i, s.out, s.txn, s.samples, s.f, ends[i]);
      b' := i + 1;
    } else {
      TracksInner(its, b, i, s.out, s.txn, s.samples, s.f);
    }
  }

  /** What the items' scan must be. */
  function ItemScan(its: seq<Item>, ends: seq<nat>): Scan
    requires |ends| == |its|
  {
    var n := CommittedCount(its);
    Summary(its[..n], EndOf(ends, n), LostSamples(its[n..]) % 0x1_0000_0000)
  }

  lemma RunningStops(its: seq<Item>, ends: seq<nat>, b: nat, i: nat, s: State)
    requires |ends| == |its| && Running(its, ends, b, i, s) && (i == |its| || Stops(s, its[i].what))
    ensures Finish(s) == ItemScan(its, ends)
  {
    if s.inBatch { StoppedOpen(its, b, i, s.txn); } else { StoppedBetween(its, b); }
    SummaryLost(its[..b], s.out.committedLen, LostSamples(its[b..]) % 0x1_0000_0000);
  }

  lemma {:induction false} PassIsScan(its: seq<Item>, ends: seq<nat>, b: nat, i: nat, s: State)
    requires |ends| == |its| && Running(its, ends, b, i, s)
    ensures Pass(its, ends, i, s) == ItemScan(its, ends)
    decreases |its| - i
  {
    if i == |its| || Stops(s, its[i].what) {
      RunningStops(its, ends, b, i, s);
    } else {
      var b' := RunningNext(its, ends, b, i, s);
      PassIsScan(its, ends, b', i + 1, Advance(s, its[i], ends[i]));
    }
  }

  /** The pass finds exactly the longest prefix of whole batches and what it says. */
  lemma ScanFromIsScan<R(!new)>(c: Codec<R>, view: R -> Item, buf: seq<byte>)
    requires Lawful(c)
    ensures ScanFrom(c, view, buf, 0, START) == ScanOf(c, view, buf)
  {
    var rs := Parse(c, buf);
    var its, ends := Items(view, rs), Ends(c, rs);
    AtStart(c, buf);
    ScanFromIsPass(c, view, buf, 0, 0, START);
    PassIsScan(its, ends, 0, 0, START);
    assert EndOf(ends, CommittedCount(its)) == |Flat(c, rs[..CommittedCount(its)])|;
  }

  lemma SampleCountOfBegin(its: seq<Item>, b: nat, i: nat)
    requires b < i <= |its| && its[b].what.Begin?
    ensures SampleCount(its[b..i]) == SampleCount(its[b + 1..i])
    decreases i
  {
    if i == b + 1 {
      assert its[b..i][..0] == [] && its[b + 1..i] == [];
    } else {
      SampleCountOfBegin(its, b, i - 1);
      SampleCountNext(its, b, i - 1);
      SampleCountNext(its, b + 1, i - 1);
    }
  }
}
