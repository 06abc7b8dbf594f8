/** The drive logger's schedule: which PID to ask next, and how long one can wait. */
module Scheduling {
  import opened Framing

  type Pid = int

  // ------------------------------------------------------------------ one turn, as values

  /** What the schedule remembers: where each group's turn stands, and how many requests since a fast
      one. */
  datatype Turn = Turn(fastCursor: nat, slowCursor: nat, sinceFast: nat)

  /** The place a cursor points at. */
  function Place(n: nat, cursor: nat): (i: nat)
    requires n > 0
    ensures i < n
  {
    cursor % n
  }

  /** _take: the first PID of up to tries, from the cursor on, that is not skipped; and the cursor
      after it. */
  function TakeFrom(group: seq<Pid>, cursor: nat, skip: Pid -> bool, tries: nat): (r: (Option<Pid>, nat))
    requires group != [] || tries == 0
    ensures r.0.Some? ==> r.0.value in group && !skip(r.0.value)
    decreases tries
  {
    if tries == 0 then (None, cursor) else
    var pid := group[Place(|group|, cursor)];
    if !skip(pid) then (Some(pid), cursor + 1) else TakeFrom(group, cursor + 1, skip, tries - 1)
  }

  function Take(group: seq<Pid>, cursor: nat, skip: Pid -> bool): (Option<Pid>, nat) {
    TakeFrom(group, cursor, skip, |group|)
  }

  /** next: a fast PID if one is due, else a slow one, else a fast one. */
  function Next(fast: seq<Pid>, slow: seq<Pid>, every: nat, t: Turn, skip: Pid -> bool): (Option<Pid>, Turn) {
    var (due, f) := if fast != [] && t.sinceFast + 1 >= every then Take(fast, t.fastCursor, skip) else (None, t.fastCursor);
    if due.Some? then (due, Turn(f, t.slowCursor, 0)) else
    var (other, s) := Take(slow, t.slowCursor, skip);
    if other.Some? then (other, Turn(f, s, t.sinceFast + 1)) else
    var (last, f') := Take(fast, f, skip);
    (last, Turn(f', s, if last.Some? then 0 else t.sinceFast))
  }

  // ------------------------------------------------------------------ the class

  class Schedule {
    const fast: seq<Pid>
    const slow: seq<Pid>
    const every: nat
    var fastCursor: nat
    var slowCursor: nat
    var sinceFast: nat

    function State(): Turn
      reads this
    {
      Turn(fastCursor, slowCursor, sinceFast)
    }

    /** Splits the PIDs into the fast ones asked for and the rest. */
    constructor (pids: seq<Pid>, wanted: seq<Pid>, n: nat)
      ensures State() == Turn(0, 0, 0) && every == n
      ensures fast == Filter(wanted, p => p in pids) && slow == Filter(pids, p => p !in fast)
    {
      var f := Filter(wanted, p => p in pids);
      fast, slow, every := f, Filter(pids, p => p !in f), n;
      fastCursor, slowCursor, sinceFast := 0, 0, 0;
    }

    /** _take on one group, moving its cursor past every PID it looked at. */
    method TakeFast(skip: Pid -> bool) returns (r: Option<Pid>)
      modifies this`fastCursor
      ensures (r, fastCursor) == Take(fast, old(fastCursor), skip)
    {
      var tries := |fast|;
      while tries > 0
        invariant 0 <= tries <= |fast| && TakeFrom(fast, fastCursor, skip, tries) == Take(fast, old(fastCursor), skip)
      {
        var pid := fast[Place(|fast|, fastCursor)];
        fastCursor := fastCursor + 1;
        if !skip(pid) { return Some(pid); }
        tries := tries - 1;
      }
      r := None;
    }

    method TakeSlow(skip: Pid -> bool) returns (r: Option<Pid>)
      modifies this`slowCursor
      ensures (r, slowCursor) == Take(slow, old(slowCursor), skip)
    {
      var tries := |slow|;
      while tries > 0
        invariant 0 <= tries <= |slow| && TakeFrom(slow, slowCursor, skip, tries) == Take(slow, old(slowCursor), skip)
      {
        var pid := slow[Place(|slow|, slowCursor)];
        slowCursor := slowCursor + 1;
        if !skip(pid) { return Some(pid); }
        tries := tries - 1;
      }
      r := None;
    }

    /** next. */
    method NextPid(skip: Pid -> bool) returns (r: Option<Pid>)
      modifies this`fastCursor, this`slowCursor, this`sinceFast
      ensures (r, State()) == Next(fast, slow, every, old(State()), skip)
    {
      if fast != [] && sinceFast + 1 >= every {
        r := TakeFast(skip);
        if r.Some? {
          sinceFast := 0;
          return;
        }
      }
      r := TakeSlow(skip);
      if r.Some? {
        sinceFast := sinceFast + 1;
        return;
      }
      r := TakeFast(skip);
      if r.Some? { sinceFast := 0; }
    }
  }

  function Filter(s: seq<Pid>, keep: Pid -> bool): (r: seq<Pid>)
    ensures forall p :: p in r <==> p in s && keep(p)
  {
    if s == [] then [] else if keep(s[0]) then [s[0]] + Filter(s[1..], keep) else Filter(s[1..], keep)
  }

  /** How many of the PIDs before place i are kept. */
  function Rank(s: seq<Pid>, keep: Pid -> bool, i: nat): nat
    requires i <= |s|
  {
    if i == 0 then 0 else (if keep(s[0]) then 1 else 0) + Rank(s[1..], keep, i - 1)
  }

  /** Filtering keeps order and repeats: each kept PID stands at its rank among the kept ones, and there are no
      others. */
  lemma {:induction false} FilterRanks(s: seq<Pid>, keep: Pid -> bool)
    ensures |Filter(s, keep)| == Rank(s, keep, |s|)
    ensures forall i :: 0 <= i < |s| && keep(s[i]) ==> Rank(s, keep, i) < |Filter(s, keep)| && Filter(s, keep)[Rank(s, keep, i)] == s[i]
  {
    if s != [] {
      FilterRanks(s[1..], keep);
      forall i | 0 < i < |s| && keep(s[i])
        ensures Rank(s, keep, i) < |Filter(s, keep)| && Filter(s, keep)[Rank(s, keep, i)] == s[i]
      {
        assert s[1..][i - 1] == s[i];
      }
    }
  }

  // ------------------------------------------------------------------ whom a turn takes

  /** How many places the cursor stands before place j. */
  function Distance(n: nat, j: nat, cursor: nat): (d: nat)
    requires j < n
    ensures d < n
  {
    var i := Place(n, cursor);
    if j >= i then j - i else j + n - i
  }

  lemma PlaceNext(n: nat, cursor: nat)
    requires n > 0
    ensures Place(n, cursor + 1) == if Place(n, cursor) + 1 == n then 0 else Place(n, cursor) + 1
  {
    var q, i := cursor / n, cursor % n;
    assert cursor == n * q + i;
    Distributes(n, q);
    if i + 1 == n { DivideIs(cursor + 1, n, q + 1, 0); } else { DivideIs(cursor + 1, n, q, i + 1); }
  }

  lemma Distributes(n: nat, q: nat)
    ensures n * (q + 1) == n * q + n
  {}

  lemma Scaled(a: nat, b: nat, q: nat)
    requires a <= b
    ensures a * q <= b * q
  {}

  lemma DivideIs(a: nat, q: nat, k: nat, r: nat)
    requires q > 0 && a == q * k + r && r < q
    ensures a / q == k && a % q == r
  {
    var k', r' := a / q, a % q;
    assert a == q * k' + r';
    if k' > k { Scaled(k + 1, k', q); } else if k' < k { Scaled(k' + 1, k, q); }
  }

  lemma DistanceNext(n: nat, j: nat, cursor: nat)
    requires j < n && Distance(n, j, cursor) > 0
    ensures Distance(n, j, cursor + 1) == Distance(n, j, cursor) - 1
  {
    PlaceNext(n, cursor);
  }

  /** A turn that does not take the PID at place j moves strictly closer to it, if it is not skipped. */
  lemma {:induction false} TakeApproaches(group: seq<Pid>, j: nat, cursor: nat, skip: Pid -> bool, tries: nat)
    requires j < |group| && !skip(group[j]) && Distance(|group|, j, cursor) < tries
    ensures var (r, c) := TakeFrom(group, cursor, skip, tries);
            r.Some? && (r.value == group[j] || Distance(|group|, j, c) < Distance(|group|, j, cursor))
    decreases tries
  {
    if Distance(|group|, j, cursor) > 0 {
      DistanceNext(|group|, j, cursor);
      if skip(group[Place(|group|, cursor)]) { TakeApproaches(group, j, cursor + 1, skip, tries - 1); }
    } else {
      assert Place(|group|, cursor) == j;
    }
  }

  lemma TakeMoves(group: seq<Pid>, j: nat, cursor: nat, skip: Pid -> bool)
    requires j < |group| && !skip(group[j])
    ensures var (r, c) := Take(group, cursor, skip);
            r.Some? && (r.value == group[j] || Distance(|group|, j, c) < Distance(|group|, j, cursor))
  {
    TakeApproaches(group, j, cursor, skip, |group|);
  }

  /** A turn takes nothing only if the whole group is skipped. */
  lemma TakesNothing(group: seq<Pid>, cursor: nat, skip: Pid -> bool)
    ensures Take(group, cursor, skip).0.None? <==> forall p :: p in group ==> skip(p)
  {
    if !(forall p :: p in group ==> skip(p)) {
      var p :| p in group && !skip(p);
      var j :| 0 <= j < |group| && group[j] == p;
      TakeMoves(group, j, cursor, skip);
    }
  }

  /** next never returns a skipped PID, and returns nothing exactly when every PID is skipped. */
  lemma NextSkips(fast: seq<Pid>, slow: seq<Pid>, every: nat, t: Turn, skip: Pid -> bool)
    ensures var r := Next(fast, slow, every, t, skip).0;
            && (r.Some? ==> !skip(r.value) && (r.value in fast || r.value in slow))
            && (r.None? <==> forall p :: p in fast || p in slow ==> skip(p))
  {
    TakesNothing(slow, t.slowCursor, skip);
    TakesNothing(fast, t.fastCursor, skip);
    TakesNothing(fast, Take(fast, t.fastCursor, skip).1, skip);
  }

  // ------------------------------------------------------------------ how long a PID waits

  /** The PIDs a run of next calls returns, each call with its own skip predicate. */
  function Asked(fast: seq<Pid>, slow: seq<Pid>, every: nat, t: Turn, skips: seq<Pid -> bool>): seq<Pid>
    decreases |skips|
  {
    if skips == [] then [] else
    var (r, t') := Next(fast, slow, every, t, skips[0]);
    (match r case Some(p) => [p] case None => []) + Asked(fast, slow, every, t', skips[1..])
  }

  ghost predicate NeverSkipped(p: Pid, skips: seq<Pid -> bool>) {
    forall i :: 0 <= i < |skips| ==> !skips[i](p)
  }

  function Least(a: nat, b: nat): nat { if a <= b then a else b }

  /** At most this many more requests until the slow PID at place j: its turns, and the fast requests
      that fall between them. */
  function SlowWait(slow: seq<Pid>, every: nat, t: Turn, j: nat): nat
    requires j < |slow| && every >= 2
  {
    var d := Distance(|slow|, j, t.slowCursor);
    d + 1 + (Least(t.sinceFast, every - 1) + d) / (every - 1)
  }

  function FastWait(fast: seq<Pid>, every: nat, t: Turn, j: nat): nat
    requires j < |fast| && every >= 2
  {
    every - Least(t.sinceFast, every - 1) + Distance(|fast|, j, t.fastCursor) * every
  }

  lemma DivideMore(a: nat, b: nat, q: nat)
    requires q > 0 && a <= b
    ensures a / q <= b / q && (a + q) / q == a / q + 1
  {
    DivideIs(a + q, q, a / q + 1, a % q);
    if a / q > b / q { Scaled(b / q + 1, a / q, q); }
  }

  /** Every request that is not for the slow PID brings it nearer. */
  lemma SlowApproaches(fast: seq<Pid>, slow: seq<Pid>, every: nat, t: Turn, j: nat, skip: Pid -> bool)
    requires j < |slow| && every >= 2 && !skip(slow[j])
    ensures var (r, t') := Next(fast, slow, every, t, skip);
            r == Some(slow[j]) || SlowWait(slow, every, t', j) < SlowWait(slow, every, t, j)
  {
    var q := every - 1;
    var (r, t') := Next(fast, slow, every, t, skip);
    var d, d' := Distance(|slow|, j, t.slowCursor), Distance(|slow|, j, t'.slowCursor);
    TakeMoves(slow, j, t.slowCursor, skip);
    if t'.slowCursor == t.slowCursor && t'.sinceFast == 0 {
      DivideMore(d, d, q);
    } else if r != Some(slow[j]) {
      assert d' < d && t'.sinceFast == t.sinceFast + 1;
      DivideMore(Least(t'.sinceFast, q) + d', Least(t.sinceFast, q) + d, q);
    }
  }

  /** A slow PID that is never skipped is asked within its bound, whatever else is skipped and when. */
  lemma {:induction false} SlowIsAsked(fast: seq<Pid>, slow: seq<Pid>, every: nat, t: Turn, j: nat,
                                       skips: seq<Pid -> bool>)
    requires j < |slow| && every >= 2 && NeverSkipped(slow[j], skips) && |skips| >= SlowWait(slow, every, t, j)
    ensures slow[j] in Asked(fast, slow, every, t, skips)
    decreases |skips|
  {
    var (r, t') := Next(fast, slow, every, t, skips[0]);
    SlowApproaches(fast, slow, every, t, j, skips[0]);
    if r != Some(slow[j]) {
      assert NeverSkipped(slow[j], skips[1..]);
      SlowIsAsked(fast, slow, every, t', j, skips[1..]);
    }
  }

  /** ceil(a / b) */
  function CeilDiv(a: nat, b: nat): nat
    requires b > 0
  {
    (a + b - 1) / b
  }

  /** Of m slow PIDs, one that is never skipped waits at most m + ceil(m / (every - 1)) requests, from
      any state of the schedule and under any changing skips. */
  lemma SlowServiceBound(fast: seq<Pid>, slow: seq<Pid>, every: nat, t: Turn, p: Pid, skips: seq<Pid -> bool>)
    requires p in slow && every >= 2 && NeverSkipped(p, skips)
    requires |skips| >= |slow| + CeilDiv(|slow|, every - 1)
    ensures p in Asked(fast, slow, every, t, skips)
  {
    var j :| 0 <= j < |slow| && slow[j] == p;
    var d := Distance(|slow|, j, t.slowCursor);
    DivideMore(Least(t.sinceFast, every - 1) + d, |slow| + (every - 1) - 1, every - 1);
    SlowIsAsked(fast, slow, every, t, j, skips);
  }

  /** What one turn does to the wait for the fast PID at place j. */
  lemma FastTurn(fast: seq<Pid>, slow: seq<Pid>, every: nat, t: Turn, j: nat, skip: Pid -> bool)
    requires j < |fast| && every >= 2 && !skip(fast[j])
    ensures var (r, t') := Next(fast, slow, every, t, skip);
            || r == Some(fast[j])
            || (t'.fastCursor == t.fastCursor && t'.sinceFast == t.sinceFast + 1 < every)
            || (t'.sinceFast == 0 && Distance(|fast|, j, t'.fastCursor) < Distance(|fast|, j, t.fastCursor))
  {
    TakeMoves(fast, j, t.fastCursor, skip);
  }

  lemma FastApproaches(fast: seq<Pid>, slow: seq<Pid>, every: nat, t: Turn, j: nat, skip: Pid -> bool)
    requires j < |fast| && every >= 2 && !skip(fast[j])
    ensures var (r, t') := Next(fast, slow, every, t, skip);
            r == Some(fast[j]) || FastWait(fast, every, t', j) < FastWait(fast, every, t, j)
  {
    var (r, t') := Next(fast, slow, every, t, skip);
    FastTurn(fast, slow, every, t, j, skip);
    if r != Some(fast[j]) { WaitDrops(fast, every, t, t', j); }
  }

  lemma WaitDrops(fast: seq<Pid>, every: nat, t: Turn, t': Turn, j: nat)
    requires j < |fast| && every >= 2
    requires (t'.fastCursor == t.fastCursor && t'.sinceFast == t.sinceFast + 1 < every)
             || (t'.sinceFast == 0 && Distance(|fast|, j, t'.fastCursor) < Distance(|fast|, j, t.fastCursor))
    ensures FastWait(fast, every, t', j) < FastWait(fast, every, t, j)
  {
    var d, d' := Distance(|fast|, j, t.fastCursor), Distance(|fast|, j, t'.fastCursor);
    if d' < d {
      Scaled(d' + 1, d, every);
      Distributes(every, d');
    }
  }

  lemma {:induction false} FastIsAsked(fast: seq<Pid>, slow: seq<Pid>, every: nat, t: Turn, j: nat,
                                       skips: seq<Pid -> bool>)
    requires j < |fast| && every >= 2 && NeverSkipped(fast[j], skips) && |skips| >= FastWait(fast, every, t, j)
    ensures fast[j] in Asked(fast, slow, every, t, skips)
    decreases |skips|
  {
    FastWaits(fast, every, t, j);
    var (r, t') := Next(fast, slow, every, t, skips[0]);
    FastApproaches(fast, slow, every, t, j, skips[0]);
    if r != Some(fast[j]) {
      assert NeverSkipped(fast[j], skips[1..]);
      FastIsAsked(fast, slow, every, t', j, skips[1..]);
    }
  }

  lemma FastWaits(fast: seq<Pid>, every: nat, t: Turn, j: nat)
    requires j < |fast| && every >= 2
    ensures 0 < FastWait(fast, every, t, j) <= |fast| * every
  {
    var d := Distance(|fast|, j, t.fastCursor);
    Scaled(d + 1, |fast|, every);
    Distributes(every, d);
  }

  /** Of k fast PIDs, one that is never skipped waits at most k * every requests. */
  lemma FastServiceBound(fast: seq<Pid>, slow: seq<Pid>, every: nat, t: Turn, p: Pid, skips: seq<Pid -> bool>)
    requires p in fast && every >= 2 && NeverSkipped(p, skips) && |skips| >= |fast| * every
    ensures p in Asked(fast, slow, every, t, skips)
  {
    var j :| 0 <= j < |fast| && fast[j] == p;
    FastWaits(fast, every, t, j);
    FastIsAsked(fast, slow, every, t, j, skips);
  }
}
