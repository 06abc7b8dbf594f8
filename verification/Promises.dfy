/** The theorems about the log in its own format, CWR1. */
module Promises {
  import opened Crc
  import opened Framing
  import opened Log
  import opened LogFormat
  import opened Sources
  import opened Storaged
  import opened Tallies
  import opened World
  import Durability
  import Exactly
  import Restart
  import Wal

  /** Whatever crashes, power cuts and reopenings follow, what is durable stays, in place. */
  lemma DurableStays(s: World, steps: seq<Step>)
    requires Inv(CWR1, s) && Durability.CanRun(CWR1, s, steps)
    ensures Durability.DurableLog(CWR1, s) <= Durability.DurableLog(CWR1, Durability.After(CWR1, s, steps))
  {
    Cwr1IsGood();
    Durability.DurableIsForever(CWR1, s, steps);
  }

  /** From an empty directory, after any run, the committed records are numbered 0, 1, 2, ... */
  lemma NoNumberMissing(steps: seq<Step>)
    requires Durability.CanRun(CWR1, EMPTY, steps)
    ensures Wal.SeqsFrom(0, Durability.AllLog(CWR1, Durability.After(CWR1, EMPTY, steps)))
  {
    Cwr1IsGood();
    Durability.CommittedSeqsHaveNoGap(CWR1, steps);
  }

  /** Runs that begin no new segment hold every ring's slots exactly once in it. */
  lemma SegmentExactlyOnce(start: seq<Reading>, s: State, moves: seq<Move>, left: seq<byte>)
    requires Exactly.FreshSegment(CWR1, start, s) && Exactly.CanRun(CWR1, s, moves) && Exactly.OneSegment(moves)
    requires Leaves(Exactly.Run(CWR1, s, moves).world, left)
    ensures ExactlyOnce(Origin(start, true, true), TallyOf(CWR1, Committed(CWR1.codec, CWR1.view, left)),
                        Exactly.Run(CWR1, s, moves).rings)
  {
    Cwr1IsGood();
    Exactly.LoggedExactlyOnce(CWR1, start, s, moves, left);
  }

  /** Runs whose restarts resume hold every ring's slots exactly once in the directory. */
  lemma DirectoryExactlyOnce(org: Origin, s: State, moves: seq<Move>, left: seq<byte>)
    requires Exactly.Beginning(CWR1, org, s) && Exactly.CanRun(CWR1, s, moves) && Exactly.AllResume(CWR1, org, s, moves)
    requires Leaves(Exactly.Run(CWR1, s, moves).world, left)
    ensures var t := Exactly.Run(CWR1, s, moves);
            ExactlyOnce(Exactly.OriginAfter(org, moves), Left(CWR1, t.world, left), t.rings)
  {
    Cwr1IsGood();
    Exactly.DirectoryExactlyOnce(CWR1, org, s, moves, left);
  }

  /** So do runs in which, once there is a second segment, each kill comes when every logged slot has been
      released. */
  lemma SettledExactlyOnce(org: Origin, s: State, moves: seq<Move>, left: seq<byte>)
    requires Exactly.Beginning(CWR1, org, s) && org.named && Exactly.CanRun(CWR1, s, moves)
    requires Exactly.KillsSettled(CWR1, org, s, moves) && Leaves(Exactly.Run(CWR1, s, moves).world, left)
    ensures var t := Exactly.Run(CWR1, s, moves);
            ExactlyOnce(Exactly.OriginAfter(org, moves), Left(CWR1, t.world, left), t.rings)
  {
    Cwr1IsGood();
    Exactly.SettledExactlyOnce(CWR1, org, s, moves, left);
  }

  /** From an empty directory and new rings: the samples of each namespace are its ring's first slots, in
      order, as many as recovery's scan says. */
  lemma RingsInOrder(s: State, moves: seq<Move>, file: seq<byte>, t: State)
    requires s.world == EMPTY && s.pc.Off? && s.rings.car.tail == 0 && s.rings.box.tail == 0
    requires Sound(s.rings.car) && Sound(s.rings.box) && Exactly.CanRun(CWR1, s, moves) && Exactly.OneSegment(moves)
    requires t == Exactly.Run(CWR1, s, moves) && Restart.ModesKept(t.rings) && Leaves(t.world, file)
    ensures var samples := TallyOf(CWR1, Committed(CWR1.codec, CWR1.view, file)).samples;
            var scan := ScanOf(CWR1.codec, CWR1.view, file);
            var car, box := SkipPoint(scan, t.rings.car.gen, 0), SkipPoint(scan, t.rings.box.gen, 1);
            && t.rings.car.tail <= car <= |t.rings.car.accepted| && Only(false, samples) == Readings(t.rings.car.accepted[..car])
            && t.rings.box.tail <= box <= |t.rings.box.accepted| && Only(true, samples) == Readings(t.rings.box.accepted[..box])
  {
    Cwr1IsGood();
    Restart.EachRingOnceInOrder(CWR1, s, moves, file, t);
  }
}
