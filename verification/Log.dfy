/** The log as a list of items, and what a recovery scan must find in it: the longest prefix of
    whole batches. */
module Log {
  import opened Crc
  import opened Bytes
  import opened Framing

  /** One value per sample namespace: 0 the car, 1 the box. */
  datatype Ns<T> = Ns(car: T, box: T) {
    function At(ns: nat): T
      requires ns < 2
    {
      if ns == 0 then car else box
    }
    function Set(ns: nat, v: T): Ns<T>
      requires ns < 2
    {
      if ns == 0 then Ns(v, box) else Ns(car, v)
    }
  }

  /** What a sample record says: its label, its capture time and its twelve body bytes. */
  datatype Reading = Reading(src: u8, mono: u64, body: seq<byte>)

  /** What a record means to the scan. */
  datatype What =
    | Begin(txn: u64)
    | Commit(txn: u64)
    | Sample(ns: nat, reading: Reading)
    | RingGen(ns: nat, gen: u64)
    | RingSeq(ns: nat, ring: u64)
    | Shutdown
    | Other

  datatype Item = Item(what: What, seqNo: u64, bootId: u32)

  // ------------------------------------------------------------------ batches

  predicate Inner(w: What) { !w.Begin? && !w.Commit? }

  /** How many items come before the next BEGIN or COMMIT. */
  function InnerRun(its: seq<Item>): (n: nat)
    ensures n <= |its|
  {
    if its != [] && Inner(its[0].what) then 1 + InnerRun(its[1..]) else 0
  }

  /** The length of the whole batch its starts with: BEGIN, inner items, the matching COMMIT.
      0 if it does not start with one. */
  function BatchLen(its: seq<Item>): (n: nat)
    ensures n <= |its|
  {
    if its == [] || !its[0].what.Begin? then 0 else
    var n := 1 + InnerRun(its[1..]);
    if n < |its| && its[n].what == Commit(its[0].what.txn) then n + 1 else 0
  }

  /** The length of the longest prefix made of whole batches. */
  function CommittedCount(its: seq<Item>): (n: nat)
    ensures n <= |its|
    decreases |its|
  {
    var b := BatchLen(its);
    if b == 0 then 0 else b + CommittedCount(its[b..])
  }

  ghost predicate Closed(its: seq<Item>) { CommittedCount(its) == |its| }

  ghost predicate WholeBatch(its: seq<Item>) { its != [] && BatchLen(its) == |its| }

  lemma {:induction false} InnerRunIs(a: seq<Item>, s: seq<Item>)
    requires forall i :: 0 <= i < |a| ==> Inner(a[i].what)
    ensures InnerRun(a + s) == |a| + InnerRun(s)
  {
    if a == [] {
      assert a + s == s;
    } else {
      assert (a + s)[1..] == a[1..] + s;
      InnerRunIs(a[1..], s);
    }
  }

  lemma {:induction false} InnerRunAll(its: seq<Item>)
    ensures forall i :: 0 <= i < InnerRun(its) ==> Inner(its[i].what)
    ensures InnerRun(its) < |its| ==> !Inner(its[InnerRun(its)].what)
  {
    if its != [] && Inner(its[0].what) {
      InnerRunAll(its[1..]);
      forall i | 0 < i < InnerRun(its) ensures Inner(its[i].what) { assert its[i] == its[1..][i - 1]; }
    }
  }

  /** A batch is recognised from its own items, whatever follows them. */
  lemma BatchLenExtends(a: seq<Item>, s: seq<Item>)
    requires BatchLen(a) > 0
    ensures BatchLen(a + s) == BatchLen(a)
  {
    var n := InnerRun(a[1..]);
    InnerRunAll(a[1..]);
    var inner, rest := a[1..][..n], a[1..][n..] + s;
    assert (a + s)[1..] == inner + rest;
    InnerRunIs(inner, rest);
  }

  lemma {:induction false} CommittedCountAppend(a: seq<Item>, s: seq<Item>)
    requires Closed(a)
    ensures CommittedCount(a + s) == |a| + CommittedCount(s)
    decreases |a|
  {
    if a == [] {
      assert a + s == s;
    } else {
      var b := BatchLen(a);
      BatchLenExtends(a, s);
      assert (a + s)[b..] == a[b..] + s;
      CommittedCountAppend(a[b..], s);
    }
  }

  lemma {:induction false} CommittedPrefixIsClosed(its: seq<Item>)
    ensures Closed(its[..CommittedCount(its)])
    decreases |its|
  {
    var b := BatchLen(its);
    if b > 0 {
      var rest := its[b..];
      CommittedPrefixIsClosed(rest);
      BatchIsWhole(its);
      WholeBatchIsClosed(its[..b]);
      ClosedAppend(its[..b], rest[..CommittedCount(rest)]);
      assert its[..b] + rest[..CommittedCount(rest)] == its[..CommittedCount(its)];
    }
  }

  lemma BatchIsWhole(its: seq<Item>)
    requires BatchLen(its) > 0
    ensures WholeBatch(its[..BatchLen(its)])
  {
    var n := InnerRun(its[1..]);
    InnerRunAll(its[1..]);
    var inner := its[1..][..n];
    assert its[..n + 2][1..] == inner + [its[n + 1]];
    InnerRunIs(inner, [its[n + 1]]);
  }

  lemma WholeBatchIsClosed(b: seq<Item>)
    requires WholeBatch(b)
    ensures Closed(b)
  {
    assert b[|b|..] == [];
  }

  lemma ClosedAppend(a: seq<Item>, b: seq<Item>)
    requires Closed(a) && Closed(b)
    ensures Closed(a + b)
  {
    CommittedCountAppend(a, b);
  }

  /** No longer prefix is made of whole batches. */
  lemma ClosedPrefixIsCounted(its: seq<Item>, j: nat)
    requires j <= |its| && Closed(its[..j])
    ensures j <= CommittedCount(its)
  {
    assert its == its[..j] + its[j..];
    CommittedCountAppend(its[..j], its[j..]);
  }

  lemma PrefixCountsNoMore(its: seq<Item>, m: nat, cut: seq<Item>, k: nat)
    requires m <= |its| && cut == its[..m] && k == CommittedCount(cut)
    ensures k <= CommittedCount(its)
  {
    CommittedPrefixIsClosed(cut);
    assert cut[..k] == its[..k];
    ClosedPrefixIsCounted(its, k);
  }

  lemma PrefixCountsEnough(its: seq<Item>, m: nat, cut: seq<Item>, n: nat)
    requires n <= m <= |its| && cut == its[..m] && n == CommittedCount(its)
    ensures n <= CommittedCount(cut)
  {
    CommittedPrefixIsClosed(its);
    assert cut[..n] == its[..n];
    ClosedPrefixIsCounted(cut, n);
  }

  /** A shorter list has no more whole batches, and as many if it is long enough. */
  lemma CommittedCountOfPrefix(its: seq<Item>, m: nat)
    requires m <= |its|
    ensures CommittedCount(its[..m]) <= CommittedCount(its)
    ensures CommittedCount(its) <= m ==> CommittedCount(its[..m]) == CommittedCount(its)
  {
    PrefixCountsNoMore(its, m, its[..m], CommittedCount(its[..m]));
    if CommittedCount(its) <= m { PrefixCountsEnough(its, m, its[..m], CommittedCount(its)); }
  }

  /** What an unfinished batch's items cannot do: end a batch. */
  lemma UnfinishedBatchCountsNothing(b: seq<Item>, k: nat)
    requires WholeBatch(b) && k < |b|
    ensures CommittedCount(b[..k]) == 0
  {
    if k > 0 {
      InnerRunAll(b[1..]);
      var inner := b[1..k];
      forall i | 0 <= i < |inner| ensures Inner(inner[i].what) { assert inner[i] == b[1..][i]; }
      assert b[..k][1..] == inner + [];
      InnerRunIs(inner, []);
    }
  }

  // ------------------------------------------------------------------ what the committed items say

  datatype Facts = Facts(samples: nat, lastMono: Ns<u64>, ringGen: Ns<u64>, hasRingSeq: Ns<bool>, ringSeq: Ns<u64>)

  const NO_FACTS := Facts(0, Ns(0, 0), Ns(0, 0), Ns(false, false), Ns(0, 0))

  function Absorb(f: Facts, w: What): Facts {
    match w
    case Sample(ns, s) => f.(samples := f.samples + 1, lastMono := if ns < 2 then f.lastMono.Set(ns, s.mono) else f.lastMono)
    case RingGen(ns, g) => if ns < 2 then f.(ringGen := f.ringGen.Set(ns, g)) else f
    case RingSeq(ns, q) =>
      if ns < 2 then f.(ringSeq := f.ringSeq.Set(ns, q), hasRingSeq := f.hasRingSeq.Set(ns, true)) else f
    case _ => f
  }

  function FactsOf(its: seq<Item>): Facts {
    if its == [] then NO_FACTS else Absorb(FactsOf(its[..|its| - 1]), its[|its| - 1].what)
  }

  function SampleCount(its: seq<Item>): nat {
    if its == [] then 0 else SampleCount(its[..|its| - 1]) + if its[|its| - 1].what.Sample? then 1 else 0
  }

  /** wal_scan_t: what recovery reads off a segment. */
  datatype Scan = Scan(committedLen: nat, anyCommitted: bool, endedClean: bool, lastSeq: u64, lastTxn: u64,
                       lastBootId: u32, samplesCommitted: u32, recordsLost: u32, lastMono: Ns<u64>,
                       ringGen: Ns<u64>, hasRingSeq: Ns<bool>, ringSeq: Ns<u64>)

  const NO_SCAN := Scan(0, false, false, 0, 0, 0, 0, 0, Ns(0, 0), Ns(0, 0), Ns(false, false), Ns(0, 0))

  /** What len bytes of committed items amount to. */
  function Summary(its: seq<Item>, len: nat, lost: u32): Scan {
    if its == [] then NO_SCAN.(committedLen := len, recordsLost := lost) else
    var f, last := FactsOf(its), its[|its| - 1];
    Scan(len, true, |its| >= 2 && its[|its| - 2].what.Shutdown?, last.seqNo,
         if last.what.Commit? then last.what.txn else 0, last.bootId, f.samples % 0x1_0000_0000, lost,
         f.lastMono, f.ringGen, f.hasRingSeq, f.ringSeq)
  }

  /** The samples of the unfinished batch that its starts with. */
  function LostSamples(its: seq<Item>): nat {
    if its == [] || !its[0].what.Begin? then 0 else SampleCount(its[1..][..InnerRun(its[1..])])
  }

  // ------------------------------------------------------------------ scanning bytes

  /** Items from records. */
  function Items<R>(view: R -> Item, rs: seq<R>): (its: seq<Item>)
    ensures |its| == |rs|
    ensures forall i :: 0 <= i < |rs| ==> its[i] == view(rs[i])
  {
    seq(|rs|, i requires 0 <= i < |rs| => view(rs[i]))
  }

  /** The committed records of a file: the longest prefix of whole batches among its records. */
  function Committed<R>(c: Codec<R>, view: R -> Item, file: seq<byte>): seq<R> {
    var rs := Parse(c, file);
    rs[..CommittedCount(Items(view, rs))]
  }

  /** The scan of a file whose decodable records are rs. */
  function ScanOfRecords<R>(c: Codec<R>, view: R -> Item, rs: seq<R>): Scan {
    var its := Items(view, rs);
    var n := CommittedCount(its);
    Summary(its[..n], |Flat(c, rs[..n])|, LostSamples(its[n..]) % 0x1_0000_0000)
  }

  function ScanOf<R>(c: Codec<R>, view: R -> Item, file: seq<byte>): Scan {
    ScanOfRecords(c, view, Parse(c, file))
  }

  lemma ItemsPrefix<R>(view: R -> Item, rs: seq<R>, m: nat)
    requires m <= |rs|
    ensures Items(view, rs[..m]) == Items(view, rs)[..m]
  {}

  lemma ItemsAppend<R>(view: R -> Item, a: seq<R>, b: seq<R>)
    ensures Items(view, a + b) == Items(view, a) + Items(view, b)
  {}

  /** The committed records are whole batches, their bytes are the file's first committedLen bytes,
      and no longer prefix of the file's records is made of whole batches. */
  lemma CommittedIsLongest<R(!new)>(c: Codec<R>, view: R -> Item, file: seq<byte>)
    requires Lawful(c)
    ensures AllValid(c, Committed(c, view, file)) && Closed(Items(view, Committed(c, view, file)))
    ensures ScanOf(c, view, file).committedLen == |Flat(c, Committed(c, view, file))|
    ensures Flat(c, Committed(c, view, file)) <= file
    ensures forall j :: 0 <= j <= |Parse(c, file)| && Closed(Items(view, Parse(c, file)[..j])) ==>
              j <= |Committed(c, view, file)|
  {
    var rs := Parse(c, file);
    var its := Items(view, rs);
    var n := CommittedCount(its);
    FlatOfParse(c, file);
    FlatGrows(c, rs, n, |rs|);
    assert rs[..|rs|] == rs;
    ItemsPrefix(view, rs, n);
    CommittedPrefixIsClosed(its);
    forall j | 0 <= j <= |rs| && Closed(Items(view, rs[..j])) ensures j <= n {
      ItemsPrefix(view, rs, j);
      ClosedPrefixIsCounted(its, j);
    }
  }

  lemma CommittedOfPrefix<R>(view: R -> Item, rs: seq<R>, m: nat)
    requires CommittedCount(Items(view, rs)) <= m <= |rs|
    ensures CommittedCount(Items(view, rs[..m])) == CommittedCount(Items(view, rs))
  {
    ItemsPrefix(view, rs, m);
    CommittedCountOfPrefix(Items(view, rs), m);
  }

  lemma SummaryLost(its: seq<Item>, len: nat, lost: u32)
    ensures Summary(its, len, lost).(recordsLost := 0) == Summary(its, len, 0)
    ensures Summary(its, len, lost).recordsLost == lost
  {}

  lemma ScanIs<R>(c: Codec<R>, view: R -> Item, rs: seq<R>, its: seq<Item>, n: nat)
    requires its == Items(view, rs) && n == CommittedCount(its)
    ensures ScanOfRecords(c, view, rs) == Summary(its[..n], |Flat(c, rs[..n])|, LostSamples(its[n..]) % 0x1_0000_0000)
  {}

  lemma FrontOfCut<T>(s: seq<T>, m: nat, n: nat)
    requires n <= m <= |s|
    ensures s[..m][..n] == s[..n]
  {}

  lemma ScanOfPrefix<R>(c: Codec<R>, view: R -> Item, rs: seq<R>, m: nat, n: nat)
    requires n == CommittedCount(Items(view, rs)) <= m <= |rs|
    ensures ScanOfRecords(c, view, rs[..m]).(recordsLost := 0) == ScanOfRecords(c, view, rs).(recordsLost := 0)
    ensures m == n ==> ScanOfRecords(c, view, rs[..m]).recordsLost == 0
  {
    var its, cut := Items(view, rs), Items(view, rs[..m]);
    CommittedOfPrefix(view, rs, m);
    ItemsPrefix(view, rs, m);
    FrontOfCut(its, m, n);
    FrontOfCut(rs, m, n);
    ScanIs(c, view, rs, its, n);
    ScanIs(c, view, rs[..m], cut, n);
    SummaryLost(its[..n], |Flat(c, rs[..n])|, LostSamples(its[n..]) % 0x1_0000_0000);
    SummaryLost(its[..n], |Flat(c, rs[..n])|, LostSamples(cut[n..]) % 0x1_0000_0000);
    if m == n { assert cut[n..] == []; }
  }

  lemma CutKeepsEnough<R(!new)>(c: Codec<R>, view: R -> Item, file: seq<byte>, k: nat) returns (m: nat)
    requires Lawful(c) && ScanOf(c, view, file).committedLen <= k <= |file|
    ensures |Committed(c, view, file)| <= m <= |Parse(c, file)| && Parse(c, file[..k]) == Parse(c, file)[..m]
    ensures k == ScanOf(c, view, file).committedLen ==> m == |Committed(c, view, file)|
  {
    var rs := Parse(c, file);
    var n := CommittedCount(Items(view, rs));
    FlatOfParse(c, file);
    m := ParseOfAnyCut(c, file, k);
    if m < n { FlatGrows(c, rs, m + 1, n); }
    if m > n { FlatGrows(c, rs, n, m); }
  }

  /** Cutting any file anywhere at or after its committed end loses nothing committed: a crash
      during recovery, or while the next batch is being written, is harmless. */
  lemma CutKeepsCommitted<R(!new)>(c: Codec<R>, view: R -> Item, file: seq<byte>, k: nat)
    requires Lawful(c) && ScanOf(c, view, file).committedLen <= k <= |file|
    ensures Committed(c, view, file[..k]) == Committed(c, view, file)
    ensures ScanOf(c, view, file[..k]).(recordsLost := 0) == ScanOf(c, view, file).(recordsLost := 0)
    ensures k == ScanOf(c, view, file).committedLen ==> ScanOf(c, view, file[..k]).recordsLost == 0
  {
    var rs := Parse(c, file);
    var n := CommittedCount(Items(view, rs));
    var m := CutKeepsEnough(c, view, file, k);
    CommittedOfPrefix(view, rs, m);
    ScanOfPrefix(c, view, rs, m, n);
    assert rs[..m][..n] == rs[..n];
  }

  /** The first j records are whole batches and take at most k bytes. */
  ghost predicate FitsWhole<R>(c: Codec<R>, view: R -> Item, rs: seq<R>, k: nat, j: nat) {
    j <= |rs| && |Flat(c, rs[..j])| <= k && Closed(Items(view, rs[..j]))
  }

  /** Cutting a file anywhere keeps the longest run of whole batches that fits. */
  lemma CutKeepsWholeBatches<R(!new)>(c: Codec<R>, view: R -> Item, file: seq<byte>, k: nat) returns (n: nat)
    requires Lawful(c) && k <= |file|
    ensures FitsWhole(c, view, Parse(c, file), k, n) && Committed(c, view, file[..k]) == Parse(c, file)[..n]
    ensures forall j: nat :: FitsWhole(c, view, Parse(c, file), k, j) ==> j <= n
  {
    var rs := Parse(c, file);
    FlatOfParse(c, file);
    var m := ParseOfAnyCut(c, file, k);
    var cut := rs[..m];
    n := CommittedCount(Items(view, cut));
    CommittedPrefixIsClosed(Items(view, cut));
    ItemsPrefix(view, cut, n);
    assert cut[..n] == rs[..n];
    FlatGrows(c, rs, n, m);
    forall j: nat | FitsWhole(c, view, rs, k, j) ensures j <= n { FitsWholeIsCounted(c, view, rs, k, m, j); }
  }

  lemma FitsWholeIsCounted<R(!new)>(c: Codec<R>, view: R -> Item, rs: seq<R>, k: nat, m: nat, j: nat)
    requires Lawful(c) && AllValid(c, rs) && m <= |rs| && FitsWhole(c, view, rs, k, j)
    requires m < |rs| ==> k < |Flat(c, rs[..m + 1])|
    ensures j <= CommittedCount(Items(view, rs[..m]))
  {
    if j > m { FlatGrows(c, rs, m + 1, j); }
    assert rs[..m][..j] == rs[..j];
    ItemsPrefix(view, rs[..m], j);
    ClosedPrefixIsCounted(Items(view, rs[..m]), j);
  }

  /** Bytes that do not decode end the log: what is committed is what was committed before them. */
  lemma UndecodableEndsLog<R(!new)>(c: Codec<R>, view: R -> Item, before: seq<R>, rest: seq<byte>)
    requires Lawful(c) && AllValid(c, before) && c.dec(rest).None?
    ensures Committed(c, view, Flat(c, before) + rest) == before[..CommittedCount(Items(view, before))]
  {
    ParseOfFlat(c, before, rest);
    assert before + [] == before;
  }

  lemma CommittedOfShorter<R>(view: R -> Item, rs: seq<R>, m: nat)
    requires m <= |rs|
    ensures CommittedCount(Items(view, rs[..m])) <= CommittedCount(Items(view, rs))
  {
    ItemsPrefix(view, rs, m);
    CommittedCountOfPrefix(Items(view, rs), m);
  }

  lemma PrefixOfPrefix<R>(rs: seq<R>, m: nat, j: nat, n: nat)
    requires j <= m <= |rs| && j <= n <= |rs|
    ensures rs[..m][..j] <= rs[..n]
  {
    assert rs[..m][..j] == rs[..n][..j];
  }

  /** Cutting a file only ever drops whole batches from the end of what is committed. */
  lemma CutCommittedIsPrefix<R(!new)>(c: Codec<R>, view: R -> Item, file: seq<byte>, k: nat)
    requires Lawful(c) && k <= |file|
    ensures Committed(c, view, file[..k]) <= Committed(c, view, file)
  {
    var rs := Parse(c, file);
    var m := ParseOfAnyCut(c, file, k);
    CommittedOfShorter(view, rs, m);
    PrefixOfPrefix(rs, m, CommittedCount(Items(view, rs[..m])), CommittedCount(Items(view, rs)));
  }
}
