/** statusd's connection loop: four slots, each reading one request and writing one response under a
    deadline. */
module Server {
  import opened Framing
  import opened Memory
  import Http

  const MAX_CONNS := 4
  const HEAD_MAX := 256
  const BODY_MAX := 49152
  const DEADLINE_MS := 5000
  const ACCEPT_PAUSE_MS := 100

  datatype Phase = Free | Reading | Writing

  /** One slot. since is when its connection was accepted; got is what has been taken from its client, and sent
      what its client has been sent. */
  datatype Conn = Conn(phase: Phase, since: nat, deadline: nat, req: string, got: string, response: string, pos: nat,
                       sent: string)

  const EMPTY_SLOT := Conn(Free, 0, 0, "", "", "", 0, "")

  /** How a call to recv or send ends. */
  datatype Recv = Got(bytes: string) | NothingYet | Gone
  datatype Send = Took(n: nat) | Interrupted | Full | Broken

  /** What becomes of a connection. */
  datatype End = Stays | Served | Lost

  /** How a request is judged, and what is answered to each verdict: head and body. */
  datatype Service = Service(parse: string -> Http.Verdict, answer: Http.Verdict -> string)

  datatype Counts = Counts(accepted: nat, served: nat, timeouts: nat, lost: nat, drops: nat)

  datatype State = State(conns: seq<Conn>, counts: Counts, resume: nat)

  const START := State([EMPTY_SLOT, EMPTY_SLOT, EMPTY_SLOT, EMPTY_SLOT], Counts(0, 0, 0, 0, 0), 0)

  /** What one poll round finds to do. */
  datatype Event =
    | Connect(recv: Recv, sends: seq<Send>)        // a connection is accepted and read at once
    | AcceptFails
    | Ready(slot: nat, recv: Recv, sends: seq<Send>)

  // ------------------------------------------------------------------ one connection

  function Closed(c: Conn): Conn { c.(phase := Free, req := "") }

  function Least(a: nat, b: nat): nat { if a <= b then a else b }

  /** conn_write: sends until all is out, the socket is full, or it breaks. */
  function ConnWrite(c: Conn, sends: seq<Send>): (Conn, End)
    decreases |sends|
  {
    if c.pos >= |c.response| then (Closed(c), Served) else
    if sends == [] then (c, Stays) else
    match sends[0]
    case Took(n) =>
      if n == 0 then (Closed(c), Lost) else
      var next := c.pos + Least(n, |c.response| - c.pos);
      ConnWrite(c.(pos := next, sent := c.sent + c.response[c.pos..next]), sends[1..])
    case Interrupted => ConnWrite(c, sends[1..])
    case Full => (c, Stays)
    case Broken => (Closed(c), Lost)
  }

  /** begin_write. */
  function BeginWrite(c: Conn, response: string, now: nat, sends: seq<Send>): (Conn, End) {
    ConnWrite(c.(phase := Writing, deadline := now + DEADLINE_MS, response := response, pos := 0, sent := ""), sends)
  }

  /** What recv gave, as much of it as the request buffer had room for. */
  function WithBytes(c: Conn, bytes: string): Conn
    requires |c.req| <= Http.MAX_REQUEST
  {
    var taken := bytes[..Least(|bytes|, Http.MAX_REQUEST - |c.req|)];
    c.(req := c.req + taken, got := c.got + taken)
  }

  /** conn_read. */
  function ConnRead(svc: Service, c: Conn, now: nat, recv: Recv, sends: seq<Send>): (Conn, End) {
    if |c.req| >= Http.MAX_REQUEST then BeginWrite(c, svc.answer(Http.TooLarge), now, sends) else
    match recv
    case NothingYet => (c, Stays)
    case Gone => (Closed(c), Lost)
    case Got(bytes) =>
      if bytes == "" then (Closed(c), Lost) else
      var next := WithBytes(c, bytes);
      var v := svc.parse(next.req);
      if v.Incomplete? then (next, Stays) else BeginWrite(next, svc.answer(v), now, sends)
  }

  // ------------------------------------------------------------------ the slots

  function Count(counts: Counts, end: End): Counts {
    match end
    case Stays => counts
    case Served => counts.(served := counts.served + 1)
    case Lost => counts.(lost := counts.lost + 1)
  }

  function Settle(s: State, i: nat, r: (Conn, End)): State
    requires i < |s.conns|
  {
    s.(conns := s.conns[i := r.0], counts := Count(s.counts, r.1))
  }

  function FreeSlot(conns: seq<Conn>): (i: nat)
    ensures i <= |conns| && (i < |conns| ==> conns[i].phase.Free?) && forall j :: 0 <= j < i ==> !conns[j].phase.Free?
  {
    if conns == [] || conns[0].phase.Free? then 0 else
    var n := FreeSlot(conns[1..]);
    assert forall j :: 0 < j < n + 1 ==> conns[j] == conns[1..][j - 1];
    n + 1
  }

  function Fresh(now: nat): Conn { Conn(Reading, now, now + DEADLINE_MS, "", "", "", 0, "") }

  /** One turn of accept_new. */
  function Accept(svc: Service, s: State, now: nat, recv: Recv, sends: seq<Send>): State {
    var i := FreeSlot(s.conns);
    if i == |s.conns| then s.(counts := s.counts.(drops := s.counts.drops + 1)) else
    Settle(s.(counts := s.counts.(accepted := s.counts.accepted + 1)), i, ConnRead(svc, Fresh(now), now, recv, sends))
  }

  function Handle(svc: Service, s: State, now: nat, e: Event): State {
    match e
    case AcceptFails => s.(resume := now + ACCEPT_PAUSE_MS)
    case Connect(recv, sends) => Accept(svc, s, now, recv, sends)
    case Ready(i, recv, sends) =>
      if i >= |s.conns| || s.conns[i].phase.Free? then s
      else if s.conns[i].phase.Reading? then Settle(s, i, ConnRead(svc, s.conns[i], now, recv, sends))
      else Settle(s, i, ConnWrite(s.conns[i], sends))
  }

  predicate Expired(c: Conn, now: nat) { !c.phase.Free? && now >= c.deadline }

  /** reap, from slot i on. */
  function ReapFrom(s: State, now: nat, i: nat): State
    requires i <= |s.conns|
    decreases |s.conns| - i
  {
    if i == |s.conns| then s
    else if Expired(s.conns[i], now) then
      ReapFrom(s.(conns := s.conns[i := Closed(s.conns[i])], counts := s.counts.(timeouts := s.counts.timeouts + 1)), now, i + 1)
    else ReapFrom(s, now, i + 1)
  }

  function HandleAll(svc: Service, s: State, now: nat, events: seq<Event>): State
    decreases |events|
  {
    if events == [] then s else HandleAll(svc, Handle(svc, s, now, events[0]), now, events[1..])
  }

  /** server_step after its poll: reap, then every event found. */
  function Step(svc: Service, s: State, now: nat, events: seq<Event>): State {
    HandleAll(svc, ReapFrom(s, now, 0), now, events)
  }

  // ------------------------------------------------------------------ what holds of every connection

  /** How far the response has got is what has been sent. */
  ghost predicate SentOk(c: Conn) { c.pos <= |c.response| && c.sent == c.response[..c.pos] }

  /** The response is the answer to what the client sent, once that is a request or cannot become one. */
  ghost predicate Answers(svc: Service, c: Conn) {
    !svc.parse(c.got).Incomplete? && c.response == svc.answer(svc.parse(c.got))
  }

  /** What the client has been sent, if anything, is the front of the answer to what it sent. */
  ghost predicate AnswerOk(svc: Service, c: Conn) {
    if c.response == "" then c.sent == "" else Answers(svc, c) && c.sent <= c.response
  }

  ghost predicate ConnOk(svc: Service, c: Conn) {
    match c.phase
    case Free => AnswerOk(svc, c)
    case Reading => c.deadline == c.since + DEADLINE_MS && |c.req| < Http.MAX_REQUEST && svc.parse(c.req).Incomplete?
                    && c.got == c.req && c.response == "" && c.sent == ""
    case Writing => c.deadline <= c.since + 2 * DEADLINE_MS && SentOk(c) && Answers(svc, c)
  }

  /** Live at a moment: accepted no later, and before its deadline. */
  ghost predicate LiveAt(c: Conn, now: nat) { !c.phase.Free? ==> c.since <= now < c.deadline }

  /** A phase only moves forward, and a response, once begun, is the one that is sent. */
  ghost predicate Forward(c: Conn, d: Conn) {
    && d.since == c.since && c.got <= d.got && (d.phase.Reading? ==> c.phase.Reading?)
    && (c.phase.Writing? ==> d.got == c.got && d.response == c.response && c.sent <= d.sent && d.deadline == c.deadline)
  }

  lemma {:induction false} WriteIs(c: Conn, sends: seq<Send>)
    requires c.phase.Writing? && SentOk(c)
    ensures var (d, end) := ConnWrite(c, sends);
            && Forward(c, d) && d.got == c.got && SentOk(d) && (end.Stays? <==> !d.phase.Free?) && (d.phase.Writing? || d.phase.Free?)
            && (end.Served? ==> d.sent == d.response)
    decreases |sends|
  {
    if c.pos < |c.response| && sends != [] {
      match sends[0]
      case Took(n) =>
        if n > 0 {
          var next := c.pos + Least(n, |c.response| - c.pos);
          assert c.response[..next] == c.response[..c.pos] + c.response[c.pos..next];
          WriteIs(c.(pos := next, sent := c.sent + c.response[c.pos..next]), sends[1..]);
        }
      case Interrupted => WriteIs(c, sends[1..]);
      case Full =>
      case Broken =>
    }
  }

  lemma BeginWriteIs(c: Conn, response: string, now: nat, sends: seq<Send>)
    ensures var (d, end) := BeginWrite(c, response, now, sends);
            && d.since == c.since && d.got == c.got && SentOk(d) && d.response == response && d.deadline == now + DEADLINE_MS
            && (end.Stays? <==> !d.phase.Free?) && !d.phase.Reading? && (end.Served? ==> d.sent == response)
  {
    WriteIs(c.(phase := Writing, deadline := now + DEADLINE_MS, response := response, pos := 0, sent := ""), sends);
  }

  /** A service whose parser always decides on a full buffer, as http_parse_request does. */
  ghost predicate DecidesFull(svc: Service, req: string) { |req| >= Http.MAX_REQUEST ==> !svc.parse(req).Incomplete? }

  ghost predicate Decides(svc: Service) { svc.parse("").Incomplete? && forall req :: DecidesFull(svc, req) }

  lemma ReadIs(svc: Service, c: Conn, now: nat, recv: Recv, sends: seq<Send>)
    requires Decides(svc) && c.phase.Reading? && ConnOk(svc, c) && LiveAt(c, now)
    ensures var (d, end) := ConnRead(svc, c, now, recv, sends);
            && ConnOk(svc, d) && LiveAt(d, now) && Forward(c, d) && (end.Stays? <==> !d.phase.Free?)
            && (end.Served? ==> d.sent == d.response)
  {
    if recv.Got? && recv.bytes != "" {
      var next := WithBytes(c, recv.bytes);
      var v := svc.parse(next.req);
      assert DecidesFull(svc, next.req) && next.got == next.req;
      if !v.Incomplete? {
        BeginWriteIs(next, svc.answer(v), now, sends);
        WrittenOk(svc, next, BeginWrite(next, svc.answer(v), now, sends).0);
      }
    }
  }

  lemma WrittenOk(svc: Service, c: Conn, d: Conn)
    requires SentOk(d) && d.got == c.got && !svc.parse(c.got).Incomplete? && d.response == svc.answer(svc.parse(c.got))
    ensures AnswerOk(svc, d) && Answers(svc, d)
  {
    if d.response == "" { assert d.sent == ""; }
  }

  // ------------------------------------------------------------------ what holds of every state

  function OpenCount(conns: seq<Conn>): nat {
    if conns == [] then 0 else OpenCount(conns[1..]) + if conns[0].phase.Free? then 0 else 1
  }

  lemma {:induction false} OpenUpdate(conns: seq<Conn>, i: nat, c: Conn)
    requires i < |conns|
    ensures OpenCount(conns[i := c]) + (if conns[i].phase.Free? then 0 else 1)
            == OpenCount(conns) + if c.phase.Free? then 0 else 1
  {
    if i > 0 {
      assert conns[i := c][1..] == conns[1..][i - 1 := c];
      OpenUpdate(conns[1..], i - 1, c);
    } else {
      assert conns[i := c][1..] == conns[1..];
    }
  }

  ghost predicate Accounted(s: State) {
    s.counts.accepted == s.counts.served + s.counts.timeouts + s.counts.lost + OpenCount(s.conns)
  }

  ghost predicate AllOk(svc: Service, conns: seq<Conn>) {
    |conns| == MAX_CONNS && forall i :: 0 <= i < |conns| ==> ConnOk(svc, conns[i])
  }

  ghost predicate AllLive(conns: seq<Conn>, now: nat) { forall i :: 0 <= i < |conns| ==> LiveAt(conns[i], now) }

  ghost predicate Inv(svc: Service, s: State, now: nat) {
    AllOk(svc, s.conns) && Accounted(s) && forall i :: 0 <= i < |s.conns| && !s.conns[i].phase.Free? ==> s.conns[i].since <= now
  }

  lemma SettleKeeps(svc: Service, s: State, now: nat, i: nat, r: (Conn, End))
    requires Inv(svc, s, now) && AllLive(s.conns, now) && i < |s.conns| && !s.conns[i].phase.Free?
    requires ConnOk(svc, r.0) && LiveAt(r.0, now) && (r.1.Stays? <==> !r.0.phase.Free?)
    ensures Inv(svc, Settle(s, i, r), now) && AllLive(Settle(s, i, r).conns, now)
  {
    OpenUpdate(s.conns, i, r.0);
  }

  lemma HandleKeeps(svc: Service, s: State, now: nat, e: Event)
    requires Decides(svc) && Inv(svc, s, now) && AllLive(s.conns, now)
    ensures Inv(svc, Handle(svc, s, now, e), now) && AllLive(Handle(svc, s, now, e).conns, now)
  {
    match e
    case AcceptFails =>
    case Connect(recv, sends) =>
      var i := FreeSlot(s.conns);
      if i < |s.conns| {
        var taken := s.(conns := s.conns[i := Fresh(now)], counts := s.counts.(accepted := s.counts.accepted + 1));
        OpenUpdate(s.conns, i, Fresh(now));
        ReadIs(svc, Fresh(now), now, recv, sends);
        SettleKeeps(svc, taken, now, i, ConnRead(svc, Fresh(now), now, recv, sends));
        assert taken.conns[i := ConnRead(svc, Fresh(now), now, recv, sends).0] == s.conns[i := ConnRead(svc, Fresh(now), now, recv, sends).0];
      }
    case Ready(i, recv, sends) =>
      if i < |s.conns| && s.conns[i].phase.Reading? {
        ReadIs(svc, s.conns[i], now, recv, sends);
        SettleKeeps(svc, s, now, i, ConnRead(svc, s.conns[i], now, recv, sends));
      } else if i < |s.conns| && s.conns[i].phase.Writing? {
        WriteIs(s.conns[i], sends);
        SettleKeeps(svc, s, now, i, ConnWrite(s.conns[i], sends));
      }
  }

  /** One event moves one slot, and only forward: free to reading, reading to writing, writing to free,
      a later phase to no earlier one. A response counts as served only once all of it was sent. */
  lemma SlotsMoveForward(svc: Service, s: State, now: nat, e: Event, i: nat)
    requires Decides(svc) && Inv(svc, s, now) && AllLive(s.conns, now) && i < |s.conns|
    ensures var t := Handle(svc, s, now, e); var c, d := s.conns[i], t.conns[i];
            && (if c.phase.Free? then d == c || d.since == now else Forward(c, d))
            && (forall j :: 0 <= j < |s.conns| && j != i && d != c ==> t.conns[j] == s.conns[j])
            && (t.counts.served > s.counts.served && d != c ==> d.phase.Free? && d.sent == d.response)
  {
    match e
    case AcceptFails =>
    case Connect(recv, sends) => ReadIs(svc, Fresh(now), now, recv, sends);
    case Ready(j, recv, sends) =>
      if j < |s.conns| && s.conns[j].phase.Reading? { ReadIs(svc, s.conns[j], now, recv, sends); }
      if j < |s.conns| && s.conns[j].phase.Writing? { WriteIs(s.conns[j], sends); }
  }

  lemma {:induction false} HandleAllKeeps(svc: Service, s: State, now: nat, events: seq<Event>)
    requires Decides(svc) && Inv(svc, s, now) && AllLive(s.conns, now)
    ensures Inv(svc, HandleAll(svc, s, now, events), now) && AllLive(HandleAll(svc, s, now, events).conns, now)
    decreases |events|
  {
    if events != [] {
      HandleKeeps(svc, s, now, events[0]);
      HandleAllKeeps(svc, Handle(svc, s, now, events[0]), now, events[1..]);
    }
  }

  lemma {:induction false} ReapKeeps(svc: Service, s: State, now: nat, i: nat)
    requires Inv(svc, s, now) && i <= |s.conns| && forall j :: 0 <= j < i ==> LiveAt(s.conns[j], now)
    ensures Inv(svc, ReapFrom(s, now, i), now) && AllLive(ReapFrom(s, now, i).conns, now)
    decreases |s.conns| - i
  {
    if i < |s.conns| {
      if Expired(s.conns[i], now) {
        OpenUpdate(s.conns, i, Closed(s.conns[i]));
        ReapKeeps(svc, s.(conns := s.conns[i := Closed(s.conns[i])], counts := s.counts.(timeouts := s.counts.timeouts + 1)), now, i + 1);
      } else {
        ReapKeeps(svc, s, now, i + 1);
      }
    }
  }

  /** One round keeps everything, and at its end every connection is younger than both deadlines
      together, however its client trickles. */
  lemma StepKeeps(svc: Service, s: State, before: nat, now: nat, events: seq<Event>)
    requires Decides(svc) && Inv(svc, s, before) && before <= now
    ensures Inv(svc, Step(svc, s, now, events), now)
    ensures forall i :: 0 <= i < |Step(svc, s, now, events).conns| && !Step(svc, s, now, events).conns[i].phase.Free? ==>
              now < Step(svc, s, now, events).conns[i].since + 2 * DEADLINE_MS
  {
    ReapKeeps(svc, s, now, 0);
    HandleAllKeeps(svc, ReapFrom(s, now, 0), now, events);
  }

  /** One call of server_step, at the time its poll returns; interrupted: a signal ended the poll. */
  datatype Round = Round(now: nat, events: seq<Event>, interrupted: bool)

  /** server_step: an interrupted poll ends it before anything is reaped or handled. */
  function ServerStep(svc: Service, s: State, r: Round): State {
    if r.interrupted then s else Step(svc, s, r.now, r.events)
  }

  /** The clock does not run backwards. */
  ghost predicate Monotone(rounds: seq<Round>, from: nat) {
    && (forall i :: 0 <= i < |rounds| ==> from <= rounds[i].now)
    && forall i, j :: 0 <= i < j < |rounds| ==> rounds[i].now <= rounds[j].now
  }

  function Run(svc: Service, s: State, rounds: seq<Round>): State
    decreases |rounds|
  {
    if rounds == [] then s else Run(svc, ServerStep(svc, s, rounds[0]), rounds[1..])
  }

  lemma RoundKeeps(svc: Service, s: State, from: nat, r: Round)
    requires Decides(svc) && Inv(svc, s, from) && from <= r.now
    ensures Inv(svc, ServerStep(svc, s, r), r.now)
    ensures !r.interrupted ==> forall i :: 0 <= i < |ServerStep(svc, s, r).conns| && !ServerStep(svc, s, r).conns[i].phase.Free? ==>
              r.now < ServerStep(svc, s, r).conns[i].since + 2 * DEADLINE_MS
  {
    if !r.interrupted { StepKeeps(svc, s, from, r.now, r.events); }
  }

  lemma {:induction false} RunKeeps(svc: Service, s: State, from: nat, rounds: seq<Round>)
    requires Decides(svc) && Inv(svc, s, from) && Monotone(rounds, from)
    ensures var last := if rounds == [] then from else rounds[|rounds| - 1].now; Inv(svc, Run(svc, s, rounds), last)
    ensures rounds != [] && !rounds[|rounds| - 1].interrupted ==>
              forall i :: 0 <= i < |Run(svc, s, rounds).conns| && !Run(svc, s, rounds).conns[i].phase.Free? ==>
                rounds[|rounds| - 1].now < Run(svc, s, rounds).conns[i].since + 2 * DEADLINE_MS
    decreases |rounds|
  {
    if rounds != [] {
      RoundKeeps(svc, s, from, rounds[0]);
      RunKeeps(svc, ServerStep(svc, s, rounds[0]), rounds[0].now, rounds[1..]);
    }
  }

  /** The request parser is such a judge: a full buffer is always decided. */
  lemma HttpDecides(svc: Service)
    requires forall req :: svc.parse(req) == Http.Parse(req)
    ensures Decides(svc)
  {
    Http.NothingYet("");
    assert ""[..0] == "";
    forall req ensures DecidesFull(svc, req) { if |req| >= Http.MAX_REQUEST { Http.FullBufferIsDecided(req); } }
  }

  /** Over every run of the server with its own parser and a clock that does not run backwards: each
      connection is gone after the first round at or past 10000 ms from its acceptance whose poll no signal
      interrupts; what a client has been sent, its connection finished or not, is the front of the answer to
      exactly the bytes taken from it, and nothing was sent before those made a request or could not become
      one; and the connections accepted are those served, timed out, otherwise closed, and still open. */
  lemma EveryRunIsBounded(svc: Service, rounds: seq<Round>, i: nat)
    requires (forall req :: svc.parse(req) == Http.Parse(req)) && Monotone(rounds, 0) && rounds != [] && i < MAX_CONNS
    ensures var s := Run(svc, START, rounds);
            && |s.conns| == MAX_CONNS && Accounted(s)
            && (!s.conns[i].phase.Free? && !rounds[|rounds| - 1].interrupted ==> rounds[|rounds| - 1].now < s.conns[i].since + 10000)
            && AnswerOk(svc, s.conns[i]) && (s.conns[i].phase.Writing? ==> Answers(svc, s.conns[i]))
  {
    HttpDecides(svc);
    StartInv(svc);
    RunKeeps(svc, START, 0, rounds);
  }

  lemma {:induction false} NoneOpen(conns: seq<Conn>)
    requires forall i :: 0 <= i < |conns| ==> conns[i].phase.Free?
    ensures OpenCount(conns) == 0
  {
    if conns != [] { NoneOpen(conns[1..]); }
  }

  lemma StartInv(svc: Service)
    ensures Inv(svc, START, 0)
  {
    NoneOpen(START.conns);
  }

  // ------------------------------------------------------------------ the loop in place

  class Loop {
    const svc: Service
    var conns: seq<Conn>
    var counts: Counts
    var resume: nat

    function Model(): State
      reads this
    {
      State(conns, counts, resume)
    }

    constructor (service: Service)
      ensures Model() == START && svc == service
    {
      svc := service;
      conns, counts, resume := [EMPTY_SLOT, EMPTY_SLOT, EMPTY_SLOT, EMPTY_SLOT], Counts(0, 0, 0, 0, 0), 0;
    }

    /** conn_write's loop on slot i. */
    method WriteOn(i: nat, sends: seq<Send>)
      requires i < |conns|
      modifies this`conns, this`counts
      ensures Model() == Settle(old(Model()), i, ConnWrite(old(conns[i]), sends))
    {
      var c, k, end := conns[i], 0, Stays;
      assert sends[0..] == sends;
      while c.pos < |c.response| && k < |sends| && sends[k] != Full
        invariant k <= |sends| && ConnWrite(c, sends[k..]) == ConnWrite(old(conns[i]), sends)
        decreases |sends| - k
      {
        assert sends[k..][1..] == sends[k + 1..];
        if sends[k] == Broken || sends[k] == Took(0) {
          conns, counts := conns[i := Closed(c)], Count(counts, Lost);
          return;
        }
        if sends[k].Took? {
          var next := c.pos + Least(sends[k].n, |c.response| - c.pos);
          c := c.(pos := next, sent := c.sent + c.response[c.pos..next]);
        }
        k := k + 1;
      }
      if c.pos >= |c.response| { c, end := Closed(c), Served; }
      conns, counts := conns[i := c], Count(counts, end);
    }

    /** begin_write on slot i. */
    method StartWriting(i: nat, response: string, now: nat, sends: seq<Send>)
      requires i < |conns|
      modifies this`conns, this`counts
      ensures Model() == Settle(old(Model()), i, BeginWrite(old(conns[i]), response, now, sends))
    {
      var c := conns[i];
      conns := conns[i := c.(phase := Writing, deadline := now + DEADLINE_MS, response := response, pos := 0, sent := "")];
      WriteOn(i, sends);
      assert conns == old(conns)[i := conns[i]];
    }

    /** conn_read on slot i. */
    method ReadOn(i: nat, now: nat, recv: Recv, sends: seq<Send>)
      requires i < |conns|
      modifies this`conns, this`counts
      ensures Model() == Settle(old(Model()), i, ConnRead(svc, old(conns[i]), now, recv, sends))
    {
      var c := conns[i];
      if |c.req| >= Http.MAX_REQUEST {
        StartWriting(i, svc.answer(Http.TooLarge), now, sends);
        return;
      }
      if recv.NothingYet? {
        assert conns[i := c] == conns;
        return;
      }
      if recv.Gone? || recv.bytes == "" {
        conns, counts := conns[i := Closed(c)], Count(counts, Lost);
        return;
      }
      var next := WithBytes(c, recv.bytes);
      conns := conns[i := next];
      var v := svc.parse(next.req);
      if !v.Incomplete? {
        StartWriting(i, svc.answer(v), now, sends);
        assert conns == old(conns)[i := conns[i]];
      }
    }

    /** reap. */
    method Reap(now: nat)
      modifies this`conns, this`counts
      ensures Model() == ReapFrom(old(Model()), now, 0)
    {
      var i := 0;
      while i < |conns|
        invariant i <= |conns| && |conns| == |old(conns)| && resume == old(resume)
        invariant ReapFrom(Model(), now, i) == ReapFrom(old(Model()), now, 0)
        decreases |conns| - i
      {
        if Expired(conns[i], now) {
          conns, counts := conns[i := Closed(conns[i])], counts.(timeouts := counts.timeouts + 1);
        }
        i := i + 1;
      }
    }

    /** One event: a new connection, a failed accept, or a ready slot. */
    method HandleOne(now: nat, e: Event)
      modifies this`conns, this`counts, this`resume
      ensures Model() == Handle(svc, old(Model()), now, e)
    {
      if e.AcceptFails? {
        resume := now + ACCEPT_PAUSE_MS;
      } else if e.Connect? {
        var i := FreeSlot(conns);
        if i == |conns| {
          counts := counts.(drops := counts.drops + 1);
          return;
        }
        conns, counts := conns[i := Fresh(now)], counts.(accepted := counts.accepted + 1);
        ReadOn(i, now, e.recv, e.sends);
        assert conns == old(conns)[i := conns[i]];
      } else if e.slot < |conns| && !conns[e.slot].phase.Free? {
        if conns[e.slot].phase.Reading? { ReadOn(e.slot, now, e.recv, e.sends); } else { WriteOn(e.slot, e.sends); }
      }
    }

    /** server_step, from the end of its poll. */
    method StepOnce(now: nat, events: seq<Event>, interrupted: bool)
      modifies this`conns, this`counts, this`resume
      ensures Model() == ServerStep(svc, old(Model()), Round(now, events, interrupted))
    {
      if interrupted { return; }
      Reap(now);
      ghost var reaped := Model();
      var k := 0;
      assert events[0..] == events;
      while k < |events|
        invariant k <= |events| && HandleAll(svc, Model(), now, events[k..]) == HandleAll(svc, reaped, now, events)
        decreases |events| - k
      {
        assert events[k..][1..] == events[k + 1..];
        HandleOne(now, events[k]);
        k := k + 1;
      }
    }
  }

  // ------------------------------------------------------------------ laying a response out

  /** finish: the head goes right-aligned just before the body, so that both are one run of bytes. */
  method Finish(buf: array<char>, head: string, bodyLen: nat) returns (outPos: nat, outEnd: nat)
    requires buf.Length == HEAD_MAX + BODY_MAX && |head| < HEAD_MAX && bodyLen <= BODY_MAX
    modifies buf
    ensures outPos <= outEnd <= buf.Length && buf[outPos..outEnd] == head + old(buf[HEAD_MAX..HEAD_MAX + bodyLen])
    ensures buf[HEAD_MAX..] == old(buf[HEAD_MAX..])
  {
    outPos, outEnd := HEAD_MAX - |head|, HEAD_MAX + bodyLen;
    ghost var was := buf[..];
    Copy(buf, outPos, head);
    LaidOut(was, buf[..], head, outPos, outEnd);
  }

  lemma LaidOut(was: seq<char>, now: seq<char>, head: seq<char>, from: nat, to: nat)
    requires from + |head| == HEAD_MAX <= to <= |was| && now == was[..from] + head + was[HEAD_MAX..]
    ensures now[from..to] == head + was[HEAD_MAX..to] && now[HEAD_MAX..] == was[HEAD_MAX..]
  {}
}
