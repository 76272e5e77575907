/**
 The client loop shared by the three fbthrift experiments: a window of `depth` requests, refilled
 after every turn of the event loop and capped by the work that remains. Responses come in any
 order, any number per turn; the clock may advance between any two steps.
 */
module CappedClient {
  import opened Common

  /** What a response carries back; exp3 has no separate leaf figure and repeats the DB's. */
  datatype Response = Response(id: nat, db: int, leaf: int, io: int, cpu: int)

  /** The accumulated `ThreadBenchmark`; `client` is the latency this client measures itself. */
  datatype Totals = Totals(client: int, db: int, leaf: int, io: int, cpu: int)

  /** `Sending(left)` is the send loop, `InLoop(handled)` one call of `loopOnce`, `Done` the loop's exit. */
  datatype Phase = Sending(left: nat) | InLoop(handled: nat) | Done

  /**
   `turns` counts the finished turns that handled at least one response, `channel` holds the ids the
   transport has not answered yet, and `aborted` is the failed assert on the lookup in `req_time`.
   */
  datatype State = State(
    aborted: bool,
    depth: nat,
    nrequests: nat,
    phase: Phase,
    complete: nat,
    out: nat,
    sched: nat,
    reqId: nat,
    reqTime: map<nat, nat>,
    totals: Totals,
    turns: nat,
    channel: set<nat>
  )

  /** The counters stay two windows away from the end of `uint64_t`. */
  predicate Configured(depth: nat, nrequests: nat) {
    depth < TWO_32 && nrequests + 2 * depth < TWO_64
  }

  function Start(depth: nat, nrequests: nat): State {
    State(false, depth, nrequests, if 0 < nrequests then Sending(depth) else Done, 0, 0, 0, 1, map[], Totals(0, 0, 0, 0, 0), 0, {})
  }

  // ----- The code of one step -----

  predicate MaySend(s: State) {
    s.phase.Sending? && s.phase.left > 0
  }

  function Send(s: State, now: nat): State
    requires MaySend(s)
  {
    s.(phase := Sending(s.phase.left - 1), reqTime := s.reqTime[s.reqId := now], sched := s.sched + 1,
       out := s.out + 1, reqId := s.reqId + 1, channel := s.channel + {s.reqId})
  }

  function EnterLoop(s: State): State
    requires s.phase == Sending(0)
  {
    s.(phase := InLoop(0))
  }

  /** The continuation of one request. */
  function Respond(s: State, r: Response, now: nat): State
    requires s.phase.InLoop?
  {
    if r.id !in s.reqTime then s.(aborted := true) else
    var t := s.totals;
    s.(phase := InLoop(s.phase.handled + 1),
       totals := Totals(t.client + (now - s.reqTime[r.id]), t.db + r.db, t.leaf + r.leaf, t.io + r.io, t.cpu + r.cpu),
       reqTime := s.reqTime - {r.id}, complete := s.complete + 1, out := Dec64(s.out), channel := s.channel - {r.id})
  }

  /** The new `req_tosend`, with the wrap-around of its `uint64_t` operators. */
  function ToSend(depth: nat, nrequests: nat, complete: nat, out: nat): nat {
    var room := Sub64(depth, out);
    if Add64(room, complete) > nrequests then
      if complete < nrequests then Sub64(nrequests, complete) else 0
    else room
  }

  function EndTurn(s: State): State
    requires s.phase.InLoop?
  {
    s.(turns := if s.phase.handled > 0 then s.turns + 1 else s.turns,
       phase := if s.complete < s.nrequests then Sending(ToSend(s.depth, s.nrequests, s.complete, s.out)) else Done)
  }

  // ----- Invariant -----

  ghost predicate Window(s: State) {
    && s.sched == s.complete + s.out == s.reqId - 1
    && s.out <= s.depth
    && s.turns + (if s.phase.InLoop? && s.phase.handled > 0 then 1 else 0) <= s.complete
    && match s.phase
       case Sending(left) =>
         && s.complete < s.nrequests
         && s.out + left <= s.depth
         && (s.depth > 0 ==> s.out + left > 0)
       case InLoop(handled) =>
         && s.sched <= s.nrequests - 1 + s.depth
         && (s.depth > 0 ==> s.out + handled > 0)
       case Done =>
         && s.nrequests <= s.complete
         && (s.nrequests > 0 ==> s.depth > 0 && s.sched <= s.nrequests - 1 + s.depth)
  }

  /** `req_time` holds exactly the issued and unanswered ids. */
  ghost predicate Correlated(s: State) {
    && s.reqTime.Keys == s.channel && |s.channel| == s.out
    && (forall id :: id in s.reqTime ==> 1 <= id < s.reqId)
  }

  ghost predicate Inv(s: State) {
    !s.aborted && Configured(s.depth, s.nrequests) && Window(s) && Correlated(s)
  }

  /** The recomputed window is the smaller of the room left and the work left; no operator wraps. */
  lemma ToSendIsCap(depth: nat, nrequests: nat, complete: nat, out: nat)
    requires out <= depth && nrequests < TWO_64 && complete + depth - out < TWO_64
    ensures ToSend(depth, nrequests, complete, out) == Min(depth - out, Max(nrequests - complete, 0))
  {
  }

  lemma SendKeeps(s: State, now: nat)
    requires Inv(s) && MaySend(s)
    ensures Inv(Send(s, now))
  {
    assert s.reqId !in s.reqTime;
  }

  /** Any unanswered request may be answered next: its entry is found, and only it is erased. */
  lemma RespondKeeps(s: State, r: Response, now: nat)
    requires Inv(s) && s.phase.InLoop? && r.id in s.channel
    ensures Inv(Respond(s, r, now))
    ensures Respond(s, r, now).out == s.out - 1 && Respond(s, r, now).reqTime == s.reqTime - {r.id}
  {
    var t := Respond(s, r, now);
    assert s.channel == t.channel + {r.id};
    assert |s.channel| == |t.channel| + 1;
  }

  lemma EndTurnKeeps(s: State)
    requires Inv(s) && s.phase.InLoop?
    ensures Inv(EndTurn(s))
  {
    ToSendIsCap(s.depth, s.nrequests, s.complete, s.out);
  }

  // ----- Runs -----

  datatype Action = DoSend(now: nat) | DoEnterLoop | DoRespond(r: Response, now: nat) | DoEndTurn

  /** The transport answers only what it was given, each request once; otherwise responses are unconstrained. */
  predicate Enabled(s: State, a: Action) {
    !s.aborted &&
    match a
    case DoSend(_) => MaySend(s)
    case DoEnterLoop => s.phase == Sending(0)
    case DoRespond(r, _) => s.phase.InLoop? && r.id in s.channel
    case DoEndTurn => s.phase.InLoop?
  }

  function Apply(s: State, a: Action): State
    requires Enabled(s, a)
  {
    match a
    case DoSend(now) => Send(s, now)
    case DoEnterLoop => EnterLoop(s)
    case DoRespond(r, now) => Respond(s, r, now)
    case DoEndTurn => EndTurn(s)
  }

  predicate ValidRun(s: State, run: seq<Action>)
    decreases |run|
  {
    run == [] || (Enabled(s, run[0]) && ValidRun(Apply(s, run[0]), run[1..]))
  }

  function Final(s: State, run: seq<Action>): State
    requires ValidRun(s, run)
    decreases |run|
  {
    if run == [] then s else Final(Apply(s, run[0]), run[1..])
  }

  lemma StepKeeps(s: State, a: Action)
    requires Inv(s) && Enabled(s, a)
    ensures Inv(Apply(s, a))
  {
    match a
    case DoSend(now) => SendKeeps(s, now);
    case DoEnterLoop =>
    case DoRespond(r, now) => RespondKeeps(s, r, now);
    case DoEndTurn => EndTurnKeeps(s);
  }

  lemma {:induction false} RunKeeps(s: State, run: seq<Action>)
    requires Inv(s) && ValidRun(s, run)
    ensures Inv(Final(s, run))
    ensures Final(s, run).depth == s.depth && Final(s, run).nrequests == s.nrequests
    decreases |run|
  {
    if run != [] {
      StepKeeps(s, run[0]);
      RunKeeps(Apply(s, run[0]), run[1..]);
    }
  }

  /**
   Every state of every run, for any depth and request count: no lookup has failed, what was sent is
   outstanding or complete, the window never exceeds the depth, `req_time` holds exactly the ids that
   are not answered yet, no turn of the event loop starts with nothing outstanding, and the next
   window is the smaller of the room and the work that are left.
   */
  lemma CappedWindow(depth: nat, nrequests: nat, run: seq<Action>)
    requires Configured(depth, nrequests) && ValidRun(Start(depth, nrequests), run)
    ensures var s := Final(Start(depth, nrequests), run);
            && !s.aborted
            && s.sched == s.complete + s.out
            && s.reqTime.Keys == s.channel && |s.reqTime| == s.out <= depth
            && (s.phase.InLoop? && s.phase.handled == 0 && depth > 0 ==> s.out > 0)
            && (s.phase.InLoop? && s.complete < nrequests ==>
                  EndTurn(s).phase == Sending(Min(depth - s.out, nrequests - s.complete)))
            && (nrequests > 0 && depth > 0 ==> s.sched <= nrequests + depth - 1)
            && (s.phase.Done? ==> nrequests <= s.complete)
  {
    RunKeeps(Start(depth, nrequests), run);
    var s := Final(Start(depth, nrequests), run);
    if s.phase.InLoop? && s.complete < nrequests {
      NextWindow(s);
    }
  }

  lemma NextWindow(s: State)
    requires Inv(s) && s.phase.InLoop? && s.complete < s.nrequests
    ensures EndTurn(s).phase == Sending(Min(s.depth - s.out, s.nrequests - s.complete))
  {
    ToSendIsCap(s.depth, s.nrequests, s.complete, s.out);
  }

  /** What the responses of a run report, summed over one of their fields. */
  function Reported(run: seq<Action>, field: Response -> int): int {
    if run == [] then 0 else (if run[0].DoRespond? then field(run[0].r) else 0) + Reported(run[1..], field)
  }

  /** Each total is the sum of its own field over the responses, in whatever order they came. */
  lemma {:induction false} TotalsAreSums(s: State, run: seq<Action>)
    requires Inv(s) && ValidRun(s, run)
    ensures var t := Final(s, run).totals;
            && t.db == s.totals.db + Reported(run, (r: Response) => r.db)
            && t.leaf == s.totals.leaf + Reported(run, (r: Response) => r.leaf)
            && t.io == s.totals.io + Reported(run, (r: Response) => r.io)
            && t.cpu == s.totals.cpu + Reported(run, (r: Response) => r.cpu)
    decreases |run|
  {
    if run != [] {
      StepKeeps(s, run[0]);
      TotalsAreSums(Apply(s, run[0]), run[1..]);
    }
  }

  /** The send times still held in `m` for the ids 1 to n. */
  function OpenClocks(m: map<nat, nat>, n: nat): nat {
    if n == 0 then 0 else (if n in m then m[n] else 0) + OpenClocks(m, n - 1)
  }

  // Ages of the open requests among the ids 1 to n.

  function Ages(m: map<nat, nat>, n: nat, now: nat): int {
    if n == 0 then 0 else (if n in m then now - m[n] else 0) + Ages(m, n - 1, now)
  }

  lemma {:induction false} AgesErase(m: map<nat, nat>, id: nat, n: nat, now: nat)
    requires id in m && 1 <= id
    ensures Ages(m - {id}, n, now) == Ages(m, n, now) - if id <= n then now - m[id] else 0
  {
    if n > 0 {
      AgesErase(m, id, n - 1, now);
    }
  }

  lemma {:induction false} AgesInsert(m: map<nat, nat>, id: nat, sent: nat, n: nat, now: nat)
    requires n < id
    ensures Ages(m[id := sent], n, now) == Ages(m, n, now)
  {
    if n > 0 {
      AgesInsert(m, id, sent, n - 1, now);
    }
  }

  /** A request sent now has age zero. */
  lemma AgesSend(m: map<nat, nat>, id: nat, now: nat)
    requires id >= 1 && id !in m && id + 1 !in m
    ensures Ages(m[id := now], id + 1, now) == Ages(m, id, now)
  {
    AgesInsert(m, id, now, id - 1, now);
    assert Ages(m[id := now], id, now) == Ages(m[id := now], id - 1, now);
    assert Ages(m, id, now) == Ages(m, id - 1, now);
  }

  lemma {:induction false} AgesNonNegative(m: map<nat, nat>, n: nat, now: nat)
    requires forall id :: id in m ==> m[id] <= now
    ensures Ages(m, n, now) >= 0
  {
    if n > 0 {
      AgesNonNegative(m, n - 1, now);
    }
  }

  function Count(ids: set<nat>, n: nat): nat {
    if n == 0 then 0 else (if n in ids then 1 else 0) + Count(ids, n - 1)
  }

  /** As time passes each open request ages by as much. */
  lemma {:induction false} AgesTick(m: map<nat, nat>, n: nat, now: nat, dt: nat)
    ensures Ages(m, n, now + dt) == Ages(m, n, now) + Count(m.Keys, n) * dt
  {
    if n > 0 {
      AgesTick(m, n - 1, now, dt);
      Distribute(dt, Count(m.Keys, n - 1), 1);
    }
  }

  lemma {:induction false} CountErase(ids: set<nat>, id: nat, n: nat)
    requires n < id
    ensures Count(ids - {id}, n) == Count(ids, n)
  {
    if n > 0 {
      CountErase(ids, id, n - 1);
    }
  }

  lemma {:induction false} CountAll(ids: set<nat>, n: nat)
    requires forall id :: id in ids ==> 1 <= id <= n
    ensures Count(ids, n) == |ids|
  {
    if n == 0 {
      assert ids == {};
    } else {
      CountErase(ids, n, n - 1);
      CountAll(ids - {n}, n - 1);
    }
  }

  lemma SendAges(s: State, now: nat)
    requires Inv(s) && MaySend(s)
    ensures Ages(Send(s, now).reqTime, Send(s, now).reqId, now) == Ages(s.reqTime, s.reqId, now)
  {
    AgesSend(s.reqTime, s.reqId, now);
  }

  /** The measured latency, with the open requests' send times set aside. */
  function Balance(s: State): int {
    s.totals.client - OpenClocks(s.reqTime, s.reqId)
  }

  /** The clock at every response less the clock at every send. */
  function ClockOf(a: Action): int {
    if a.DoRespond? then a.now else if a.DoSend? then 0 - a.now else 0
  }

  function Clocks(run: seq<Action>): int {
    if run == [] then 0 else ClockOf(run[0]) + Clocks(run[1..])
  }

  lemma {:induction false} OpenClocksErase(m: map<nat, nat>, id: nat, n: nat)
    requires id in m && 1 <= id
    ensures OpenClocks(m - {id}, n) == OpenClocks(m, n) - if id <= n then m[id] else 0
  {
    if n > 0 {
      OpenClocksErase(m, id, n - 1);
    }
  }

  lemma {:induction false} OpenClocksInsert(m: map<nat, nat>, id: nat, now: nat, n: nat)
    requires n < id
    ensures OpenClocks(m[id := now], n) == OpenClocks(m, n)
  {
    if n > 0 {
      OpenClocksInsert(m, id, now, n - 1);
    }
  }

  lemma OpenClocksStep(m: map<nat, nat>, n: nat)
    ensures OpenClocks(m, n + 1) == (if n + 1 in m then m[n + 1] else 0) + OpenClocks(m, n)
  {
  }

  /** A request sent now adds its own send time. */
  lemma OpenClocksSend(m: map<nat, nat>, id: nat, now: nat)
    requires id >= 1 && id !in m && id + 1 !in m
    ensures OpenClocks(m[id := now], id + 1) == OpenClocks(m, id) + now
  {
    OpenClocksStep(m[id := now], id);
    OpenClocksStep(m[id := now], id - 1);
    OpenClocksStep(m, id - 1);
    OpenClocksInsert(m, id, now, id - 1);
  }

  lemma SendBalances(s: State, now: nat)
    requires Inv(s) && MaySend(s)
    ensures Balance(Send(s, now)) == Balance(s) - now
  {
    OpenClocksSend(s.reqTime, s.reqId, now);
  }

  lemma RespondBalances(s: State, r: Response, now: nat)
    requires Inv(s) && s.phase.InLoop? && r.id in s.channel
    ensures Balance(Respond(s, r, now)) == Balance(s) + now
  {
    OpenClocksErase(s.reqTime, r.id, s.reqId);
  }

  lemma StepBalances(s: State, a: Action)
    requires Inv(s) && Enabled(s, a)
    ensures Balance(Apply(s, a)) == Balance(s) + ClockOf(a)
  {
    match a
    case DoRespond(r, now) => RespondBalances(s, r, now);
    case DoSend(now) => SendBalances(s, now);
    case _ =>
  }

  /**
   Whatever the order of the responses, the measured latency is the sum of the clock at every response
   less the sum of the clock at every send, once the requests still open are set aside.
   */
  lemma {:induction false} LatencyConserved(s: State, run: seq<Action>)
    requires Inv(s) && ValidRun(s, run)
    ensures Balance(Final(s, run)) == Balance(s) + Clocks(run)
    decreases |run|
  {
    if run != [] {
      StepBalances(s, run[0]);
      StepKeeps(s, run[0]);
      LatencyConserved(Apply(s, run[0]), run[1..]);
    }
  }

  /** With one response or more in every turn, `nrequests` turns are enough to leave the loop. */
  lemma EnoughTurns(depth: nat, nrequests: nat, run: seq<Action>)
    requires Configured(depth, nrequests) && ValidRun(Start(depth, nrequests), run)
    ensures var s := Final(Start(depth, nrequests), run);
            s.turns >= nrequests && !s.phase.InLoop? ==> s.phase.Done?
  {
    RunKeeps(Start(depth, nrequests), run);
  }

  /** The loop can be left if and only if there is nothing to do or the depth is positive. */
  lemma {:induction false} ZeroDepthNeverEnds(s: State, run: seq<Action>)
    requires Inv(s) && s.depth == 0 && !s.phase.Done? && ValidRun(s, run)
    ensures !Final(s, run).phase.Done?
    decreases |run|
  {
    if run != [] {
      StepKeeps(s, run[0]);
      ToSendIsCap(s.depth, s.nrequests, s.complete, s.out);
      ZeroDepthNeverEnds(Apply(s, run[0]), run[1..]);
    }
  }

  // ----- Whole turns, as the loop takes them -----

  datatype Arrival = Arrival(r: Response, now: nat)

  /** One turn as the environment sees it: the clock at the i-th send, then what arrives, in order. */
  datatype Turn = Turn(sendClock: nat -> nat, arrivals: seq<Arrival>)

  /** The send loop from its i-th iteration on. */
  function SendLoop(s: State, clock: nat -> nat, i: nat): (r: State)
    requires s.phase.Sending?
    ensures r.phase == Sending(0)
    decreases s.phase.left
  {
    if s.phase.left == 0 then s else SendLoop(Send(s, clock(i)), clock, i + 1)
  }

  /** The arrivals that answer an outstanding request; the transport has no others. */
  function HandleAll(s: State, arrivals: seq<Arrival>): (r: State)
    requires s.phase.InLoop?
    ensures r.phase.InLoop?
    decreases |arrivals|
  {
    if arrivals == [] then s else
    var a := arrivals[0];
    HandleAll(if a.r.id in s.channel then Respond(s, a.r, a.now) else s, arrivals[1..])
  }

  function OneTurn(s: State, turn: Turn): State
    requires s.phase.Sending?
  {
    EndTurn(HandleAll(EnterLoop(SendLoop(s, turn.sendClock, 0)), turn.arrivals))
  }

  function Turns(s: State, turns: seq<Turn>): State
    decreases |turns|
  {
    if turns == [] || !s.phase.Sending? then s else Turns(OneTurn(s, turns[0]), turns[1..])
  }

  lemma {:induction false} SendLoopKeeps(s: State, clock: nat -> nat, i: nat)
    requires Inv(s) && s.phase.Sending?
    ensures Inv(SendLoop(s, clock, i)) && SendLoop(s, clock, i).turns == s.turns
    ensures SendLoop(s, clock, i).nrequests == s.nrequests && SendLoop(s, clock, i).depth == s.depth
    decreases s.phase.left
  {
    if s.phase.left > 0 {
      SendKeeps(s, clock(i));
      SendLoopKeeps(Send(s, clock(i)), clock, i + 1);
    }
  }

  lemma {:induction false} HandleAllKeeps(s: State, arrivals: seq<Arrival>)
    requires Inv(s) && s.phase.InLoop?
    ensures Inv(HandleAll(s, arrivals)) && HandleAll(s, arrivals).turns == s.turns
    ensures HandleAll(s, arrivals).nrequests == s.nrequests && HandleAll(s, arrivals).depth == s.depth
    decreases |arrivals|
  {
    if arrivals != [] {
      var a := arrivals[0];
      if a.r.id in s.channel {
        RespondKeeps(s, a.r, a.now);
        HandleAllKeeps(Respond(s, a.r, a.now), arrivals[1..]);
      } else {
        HandleAllKeeps(s, arrivals[1..]);
      }
    }
  }

  lemma OneTurnKeeps(s: State, turn: Turn)
    requires Inv(s) && s.phase.Sending?
    ensures Inv(OneTurn(s, turn)) && OneTurn(s, turn).nrequests == s.nrequests && OneTurn(s, turn).depth == s.depth
    ensures OneTurn(s, turn).turns == s.turns + if Answers(s, turn) > 0 then 1 else 0
  {
    var sent := SendLoop(s, turn.sendClock, 0);
    SendLoopKeeps(s, turn.sendClock, 0);
    HandleAllKeeps(EnterLoop(sent), turn.arrivals);
    EndTurnKeeps(HandleAll(EnterLoop(sent), turn.arrivals));
  }

  /** How many responses one turn handles. */
  function Answers(s: State, turn: Turn): nat
    requires s.phase.Sending?
  {
    HandleAll(EnterLoop(SendLoop(s, turn.sendClock, 0)), turn.arrivals).phase.handled
  }

  predicate EveryTurnAnswers(s: State, turns: seq<Turn>)
    decreases |turns|
  {
    turns != [] && s.phase.Sending? ==> Answers(s, turns[0]) > 0 && EveryTurnAnswers(OneTurn(s, turns[0]), turns[1..])
  }

  /** A schedule of `nrequests` turns with an answer in each drives the loop to its exit, within the window's bounds. */
  lemma ScheduleFinishes(depth: nat, nrequests: nat, schedule: seq<Turn>)
    requires Configured(depth, nrequests)
    requires EveryTurnAnswers(Start(depth, nrequests), schedule) && |schedule| >= nrequests
    ensures var s := Turns(Start(depth, nrequests), schedule);
            && s.phase.Done?
            && nrequests <= s.complete <= s.sched
            && (nrequests > 0 ==> s.sched <= nrequests + depth - 1)
            && |s.reqTime| == s.out == s.sched - s.complete
  {
    TurnsFinish(Start(depth, nrequests), schedule);
  }

  lemma {:induction false} TurnsFinish(s: State, schedule: seq<Turn>)
    requires Inv(s) && !s.phase.InLoop? && EveryTurnAnswers(s, schedule) && s.turns + |schedule| >= s.nrequests
    ensures Inv(Turns(s, schedule)) && Turns(s, schedule).phase.Done?
    ensures Turns(s, schedule).nrequests == s.nrequests && Turns(s, schedule).depth == s.depth
    decreases |schedule|
  {
    if schedule != [] && s.phase.Sending? {
      OneTurnKeeps(s, schedule[0]);
      TurnsFinish(OneTurn(s, schedule[0]), schedule[1..]);
    }
  }

  // ----- What a schedule adds up to, response by response -----

  /** The arrivals that answer a request in `channel`, each request once. */
  function Answering(channel: set<nat>, arrivals: seq<Arrival>): seq<Arrival> {
    if arrivals == [] then []
    else if arrivals[0].r.id in channel then [arrivals[0]] + Answering(channel - {arrivals[0].r.id}, arrivals[1..])
    else Answering(channel, arrivals[1..])
  }

  function Total(answers: seq<Arrival>, field: Response -> int): int {
    if answers == [] then 0 else field(answers[0].r) + Total(answers[1..], field)
  }

  /** From the send of the request, the `id`-th of `sent`, to the arrival. */
  function LatencyOf(a: Arrival, sent: seq<nat>): int {
    if 1 <= a.r.id <= |sent| then a.now - sent[a.r.id - 1] else 0
  }

  function Latency(answers: seq<Arrival>, sent: seq<nat>): int {
    if answers == [] then 0 else LatencyOf(answers[0], sent) + Latency(answers[1..], sent)
  }

  /** The clock at every send so far, and each open request's entry among them. */
  ghost predicate History(s: State, sent: seq<nat>) {
    && |sent| == s.reqId - 1
    && forall id :: id in s.reqTime ==> 1 <= id <= |sent| && s.reqTime[id] == sent[id - 1]
  }

  /** `t` has what `s` had and, in every total, what `answers` brought for that total. */
  ghost predicate Accounted(s: State, t: State, answers: seq<Arrival>, sent: seq<nat>) {
    && t.totals.client == s.totals.client + Latency(answers, sent)
    && t.totals.db == s.totals.db + Total(answers, (r: Response) => r.db)
    && t.totals.leaf == s.totals.leaf + Total(answers, (r: Response) => r.leaf)
    && t.totals.io == s.totals.io + Total(answers, (r: Response) => r.io)
    && t.totals.cpu == s.totals.cpu + Total(answers, (r: Response) => r.cpu)
    && t.complete == s.complete + |answers|
  }

  lemma {:induction false} TotalConcat(a: seq<Arrival>, b: seq<Arrival>, field: Response -> int)
    ensures Total(a + b, field) == Total(a, field) + Total(b, field)
  {
    if a == [] {
      assert a + b == b;
    } else {
      assert (a + b)[1..] == a[1..] + b;
      TotalConcat(a[1..], b, field);
    }
  }

  lemma {:induction false} LatencyConcat(a: seq<Arrival>, b: seq<Arrival>, sent: seq<nat>)
    ensures Latency(a + b, sent) == Latency(a, sent) + Latency(b, sent)
  {
    if a == [] {
      assert a + b == b;
    } else {
      assert (a + b)[1..] == a[1..] + b;
      LatencyConcat(a[1..], b, sent);
    }
  }

  lemma AccountedThen(s: State, t: State, u: State, a: seq<Arrival>, b: seq<Arrival>, sent: seq<nat>)
    requires Accounted(s, t, a, sent) && Accounted(t, u, b, sent)
    ensures Accounted(s, u, a + b, sent)
  {
    LatencyConcat(a, b, sent);
    TotalConcat(a, b, (r: Response) => r.db);
    TotalConcat(a, b, (r: Response) => r.leaf);
    TotalConcat(a, b, (r: Response) => r.io);
    TotalConcat(a, b, (r: Response) => r.cpu);
  }

  lemma RespondAccounts(s: State, a: Arrival, sent: seq<nat>)
    requires Inv(s) && s.phase.InLoop? && a.r.id in s.channel && History(s, sent)
    ensures Accounted(s, Respond(s, a.r, a.now), [a], sent) && History(Respond(s, a.r, a.now), sent)
  {
    assert [a][1..] == [];
  }

  /** One call of `loopOnce` handles exactly the arrivals that answer an open request, and accounts for each. */
  lemma {:induction false} HandleAllAccounts(s: State, arrivals: seq<Arrival>, sent: seq<nat>)
    requires Inv(s) && s.phase.InLoop? && History(s, sent)
    ensures Accounted(s, HandleAll(s, arrivals), Answering(s.channel, arrivals), sent)
    ensures History(HandleAll(s, arrivals), sent)
    decreases |arrivals|
  {
    if arrivals != [] {
      var a := arrivals[0];
      if a.r.id in s.channel {
        var t := Respond(s, a.r, a.now);
        RespondKeeps(s, a.r, a.now);
        RespondAccounts(s, a, sent);
        HandleAllAccounts(t, arrivals[1..], sent);
        AccountedThen(s, t, HandleAll(t, arrivals[1..]), [a], Answering(t.channel, arrivals[1..]), sent);
      } else {
        HandleAllAccounts(s, arrivals[1..], sent);
      }
    }
  }

  function Readings(clock: nat -> nat, i: nat, n: nat): seq<nat> {
    seq(n, k requires 0 <= k < n => clock(i + k))
  }

  /** The send loop enters the clock of its k-th iteration for the k-th new id, keeps every entry, and touches no total. */
  ghost predicate Records(s: State, t: State, clock: nat -> nat, i: nat, n: nat) {
    && t.reqId == s.reqId + n && t.sched == s.sched + n && t.out == s.out + n
    && t.totals == s.totals && t.complete == s.complete
    && (forall id :: id in t.reqTime <==> id in s.reqTime || s.reqId <= id < s.reqId + n)
    && (forall id :: id in t.channel <==> id in s.channel || s.reqId <= id < s.reqId + n)
    && (forall id :: id in s.reqTime && id < s.reqId ==> t.reqTime[id] == s.reqTime[id])
    && (forall id :: s.reqId <= id < s.reqId + n ==> t.reqTime[id] == clock(i + (id - s.reqId)))
  }

  lemma {:induction false} SendLoopRecords(s: State, clock: nat -> nat, i: nat)
    requires s.phase.Sending?
    ensures Records(s, SendLoop(s, clock, i), clock, i, s.phase.left)
    decreases s.phase.left
  {
    if s.phase.left > 0 {
      SendLoopRecords(Send(s, clock(i)), clock, i + 1);
      RecordsOneMore(s, SendLoop(s, clock, i), clock, i);
    }
  }

  lemma RecordsOneMore(s: State, t: State, clock: nat -> nat, i: nat)
    requires MaySend(s) && Records(Send(s, clock(i)), t, clock, i + 1, s.phase.left - 1)
    ensures Records(s, t, clock, i, s.phase.left)
  {
    var u := Send(s, clock(i));
    assert forall id :: id in u.reqTime <==> id in s.reqTime || id == s.reqId;
    assert t.reqTime[s.reqId] == u.reqTime[s.reqId] == clock(i);
    forall id | s.reqId < id < s.reqId + s.phase.left
      ensures t.reqTime[id] == clock(i + (id - s.reqId))
    {
      assert t.reqTime[id] == clock(i + 1 + (id - u.reqId));
    }
  }

  /** The first window is the whole depth, however little there is to do. */
  lemma FirstWindowIsFull(depth: nat, nrequests: nat, clock: nat -> nat)
    requires nrequests > 0
    ensures SendLoop(Start(depth, nrequests), clock, 0).out == depth
    ensures forall id :: id in SendLoop(Start(depth, nrequests), clock, 0).channel <==> 1 <= id <= depth
  {
    SendLoopRecords(Start(depth, nrequests), clock, 0);
  }

  lemma RecordsHistory(s: State, t: State, clock: nat -> nat, i: nat, n: nat, sent: seq<nat>)
    requires History(s, sent) && Records(s, t, clock, i, n)
    ensures History(t, sent + Readings(clock, i, n))
  {
    var all := sent + Readings(clock, i, n);
    forall id | id in t.reqTime
      ensures 1 <= id <= |all| && t.reqTime[id] == all[id - 1]
    {
      if id >= s.reqId {
        assert all[id - 1] == clock(i + (id - s.reqId));
      }
    }
  }

  /** The clock at every send of a schedule, in the order of the ids. */
  function SentBy(s: State, schedule: seq<Turn>): seq<nat>
    decreases |schedule|
  {
    if schedule == [] || !s.phase.Sending? then [] else
    Readings(schedule[0].sendClock, 0, s.phase.left) + SentBy(OneTurn(s, schedule[0]), schedule[1..])
  }

  function AnsweredIn(s: State, turn: Turn): seq<Arrival>
    requires s.phase.Sending?
  {
    Answering(SendLoop(s, turn.sendClock, 0).channel, turn.arrivals)
  }

  function AnsweredBy(s: State, schedule: seq<Turn>): seq<Arrival>
    decreases |schedule|
  {
    if schedule == [] || !s.phase.Sending? then [] else
    AnsweredIn(s, schedule[0]) + AnsweredBy(OneTurn(s, schedule[0]), schedule[1..])
  }

  /** Later sends do not change the latency of requests sent before. */
  lemma {:induction false} LatencyExtends(a: seq<Arrival>, sent: seq<nat>, more: seq<nat>)
    requires forall x :: x in a ==> x.r.id <= |sent|
    ensures Latency(a, sent + more) == Latency(a, sent)
  {
    if a != [] {
      assert a[0] in a && forall x :: x in a[1..] ==> x in a;
      LatencyExtends(a[1..], sent, more);
    }
  }

  lemma {:induction false} AnsweringIsOpen(channel: set<nat>, arrivals: seq<Arrival>)
    ensures forall x :: x in Answering(channel, arrivals) ==> x in arrivals && x.r.id in channel
  {
    if arrivals != [] {
      AnsweringIsOpen(channel, arrivals[1..]);
      AnsweringIsOpen(channel - {arrivals[0].r.id}, arrivals[1..]);
    }
  }

  lemma OneTurnAccounts(s: State, turn: Turn, sent: seq<nat>)
    requires Inv(s) && s.phase.Sending? && History(s, sent)
    ensures var all := sent + Readings(turn.sendClock, 0, s.phase.left);
            && History(OneTurn(s, turn), all)
            && Accounted(s, OneTurn(s, turn), AnsweredIn(s, turn), all)
            && forall x :: x in AnsweredIn(s, turn) ==> x.r.id <= |all|
  {
    var all := sent + Readings(turn.sendClock, 0, s.phase.left);
    var t := SendLoop(s, turn.sendClock, 0);
    SendLoopKeeps(s, turn.sendClock, 0);
    SendLoopRecords(s, turn.sendClock, 0);
    RecordsHistory(s, t, turn.sendClock, 0, s.phase.left, sent);
    HandleAllAccounts(EnterLoop(t), turn.arrivals, all);
    AnsweringIsOpen(t.channel, turn.arrivals);
    assert forall id :: id in t.channel ==> id in t.reqTime;
  }

  /**
   Over a whole schedule: each total grew by the sum of its own field over the responses that answered a
   request, and the client's latency by arrival time less send time of each.
   */
  lemma {:induction false} ScheduleAccounts(s: State, schedule: seq<Turn>, sent: seq<nat>)
    requires Inv(s) && !s.phase.InLoop? && History(s, sent)
    ensures History(Turns(s, schedule), sent + SentBy(s, schedule))
    ensures Accounted(s, Turns(s, schedule), AnsweredBy(s, schedule), sent + SentBy(s, schedule))
    decreases |schedule|
  {
    if schedule == [] || !s.phase.Sending? {
      assert sent + [] == sent;
    } else {
      var t, rest := OneTurn(s, schedule[0]), schedule[1..];
      var first := sent + Readings(schedule[0].sendClock, 0, s.phase.left);
      OneTurnKeeps(s, schedule[0]);
      OneTurnAccounts(s, schedule[0], sent);
      ScheduleAccounts(t, rest, first);
      LatencyExtends(AnsweredIn(s, schedule[0]), first, SentBy(t, rest));
      AccountedThen(s, t, Turns(t, rest), AnsweredIn(s, schedule[0]), AnsweredBy(t, rest), first + SentBy(t, rest));
      ConcatAssociates(sent, Readings(schedule[0].sendClock, 0, s.phase.left), SentBy(t, rest));
    }
  }

  // ----- The loop is a run of the machine, so all of the above holds of it -----

  ghost predicate Leads(s: State, t: State) {
    exists run :: ValidRun(s, run) && Final(s, run) == t
  }

  lemma LeadsVia(s: State, a: Action, t: State)
    requires Enabled(s, a) && Leads(Apply(s, a), t)
    ensures Leads(s, t)
  {
    var run :| ValidRun(Apply(s, a), run) && Final(Apply(s, a), run) == t;
    assert ([a] + run)[1..] == run;
    assert ValidRun(s, [a] + run) && Final(s, [a] + run) == t;
  }

  lemma {:induction false} SendLoopLeads(s: State, clock: nat -> nat, i: nat, t: State)
    requires !s.aborted && s.phase.Sending? && Leads(SendLoop(s, clock, i), t)
    ensures Leads(s, t)
    decreases s.phase.left
  {
    if s.phase.left > 0 {
      SendLoopLeads(Send(s, clock(i)), clock, i + 1, t);
      LeadsVia(s, DoSend(clock(i)), t);
    }
  }

  lemma {:induction false} HandleAllLeads(s: State, arrivals: seq<Arrival>, t: State)
    requires Inv(s) && s.phase.InLoop? && Leads(HandleAll(s, arrivals), t)
    ensures Leads(s, t)
    decreases |arrivals|
  {
    if arrivals != [] {
      var a := arrivals[0];
      if a.r.id in s.channel {
        RespondKeeps(s, a.r, a.now);
        HandleAllLeads(Respond(s, a.r, a.now), arrivals[1..], t);
        LeadsVia(s, DoRespond(a.r, a.now), t);
      } else {
        HandleAllLeads(s, arrivals[1..], t);
      }
    }
  }

  lemma OneTurnLeads(s: State, turn: Turn, t: State)
    requires Inv(s) && s.phase.Sending? && Leads(OneTurn(s, turn), t)
    ensures Leads(s, t)
  {
    var sent := SendLoop(s, turn.sendClock, 0);
    var handled := HandleAll(EnterLoop(sent), turn.arrivals);
    SendLoopKeeps(s, turn.sendClock, 0);
    HandleAllKeeps(EnterLoop(sent), turn.arrivals);
    LeadsVia(handled, DoEndTurn, t);
    HandleAllLeads(EnterLoop(sent), turn.arrivals, t);
    LeadsVia(sent, DoEnterLoop, t);
    SendLoopLeads(s, turn.sendClock, 0, t);
  }

  /** Every schedule of the loop is a run of the machine. */
  lemma {:induction false} ScheduleIsRun(s: State, schedule: seq<Turn>)
    requires Inv(s) && !s.phase.InLoop?
    ensures Leads(s, Turns(s, schedule))
    decreases |schedule|
  {
    if schedule == [] || !s.phase.Sending? {
      assert ValidRun(s, []) && Final(s, []) == s;
    } else {
      OneTurnKeeps(s, schedule[0]);
      ScheduleIsRun(OneTurn(s, schedule[0]), schedule[1..]);
      OneTurnLeads(s, schedule[0], Turns(s, schedule));
    }
  }

  // ----- The code of the loop -----

  class Client {
    const depth: nat
    const nrequests: nat
    var reqComplete: nat
    var reqTosend: nat
    var reqOut: nat
    var reqSched: nat
    var reqId: nat
    var reqTime: map<nat, nat>
    var result: Totals
    var channel: set<nat>
    ghost var turns: nat

    ghost function View(phase: Phase): State
      reads this
    {
      State(false, depth, nrequests, phase, reqComplete, reqOut, reqSched, reqId, reqTime, result, turns, channel)
    }

    ghost function AtTop(): State
      reads this
    {
      View(if reqComplete < nrequests then Sending(reqTosend) else Done)
    }

    constructor (depth: nat, nrequests: nat)
      requires Configured(depth, nrequests)
      ensures AtTop() == Start(depth, nrequests)
    {
      this.depth, this.nrequests := depth, nrequests;
      reqComplete, reqTosend, reqOut, reqSched, reqId := 0, depth, 0, 0, 1;
      reqTime, result, channel, turns := map[], Totals(0, 0, 0, 0, 0), {}, 0;
    }

    /** One iteration of the send loop; `left` counts those still to come, this one included. */
    method SendRequest(now: nat, ghost left: nat)
      requires left > 0
      modifies this
      ensures View(Sending(left - 1)) == Send(old(View(Sending(left))), now) && reqTosend == old(reqTosend)
    {
      reqTime := reqTime[reqId := now];
      reqSched := reqSched + 1;
      channel := channel + {reqId};
      reqOut := reqOut + 1;
      reqId := reqId + 1;
    }

    method SendRequests(clock: nat -> nat)
      modifies this
      ensures View(Sending(0)) == SendLoop(old(View(Sending(reqTosend))), clock, 0)
      ensures reqTosend == old(reqTosend)
      ensures Records(old(View(Sending(reqTosend))), View(Sending(0)), clock, 0, reqTosend)
    {
      SendLoopRecords(View(Sending(reqTosend)), clock, 0);
      ghost var left, end := reqTosend, SendLoop(View(Sending(reqTosend)), clock, 0);
      var i := 0;
      while i < reqTosend
        invariant i + left == reqTosend == old(reqTosend)
        invariant SendLoop(View(Sending(left)), clock, i) == end
      {
        SendRequest(clock(i), left);
        i, left := i + 1, left - 1;
      }
    }

    /** The continuation attached to each request's future; its lookup is proved to succeed. */
    method Handle(r: Response, now: nat, ghost handled: nat)
      requires Inv(View(InLoop(handled))) && r.id in channel
      modifies this
      ensures View(InLoop(handled + 1)) == Respond(old(View(InLoop(handled))), r, now)
      ensures Inv(View(InLoop(handled + 1)))
    {
      RespondKeeps(View(InLoop(handled)), r, now);
      assert r.id in reqTime;
      channel := channel - {r.id};
      var cl := now - reqTime[r.id];
      reqTime := reqTime - {r.id};
      result := Totals(result.client + cl, result.db + r.db, result.leaf + r.leaf, result.io + r.io, result.cpu + r.cpu);
      reqComplete := reqComplete + 1;
      reqOut := Dec64(reqOut);
    }

    /** One call of `loopOnce`: the channel answers some of what it holds. */
    method LoopOnce(arrivals: seq<Arrival>) returns (ghost handled: nat)
      requires Inv(View(InLoop(0)))
      modifies this
      ensures View(InLoop(handled)) == HandleAll(old(View(InLoop(0))), arrivals)
      ensures Inv(View(InLoop(handled)))
      ensures forall sent :: History(old(View(InLoop(0))), sent) ==>
                Accounted(old(View(InLoop(0))), View(InLoop(handled)), Answering(old(channel), arrivals), sent)
    {
      forall sent | History(View(InLoop(0)), sent)
        ensures Accounted(View(InLoop(0)), HandleAll(View(InLoop(0)), arrivals), Answering(channel, arrivals), sent)
      {
        HandleAllAccounts(View(InLoop(0)), arrivals, sent);
      }
      handled := 0;
      var i := 0;
      assert arrivals[0..] == arrivals;
      while i < |arrivals|
        invariant i <= |arrivals| && Inv(View(InLoop(handled)))
        invariant HandleAll(View(InLoop(handled)), arrivals[i..]) == HandleAll(old(View(InLoop(0))), arrivals)
      {
        assert arrivals[i..][1..] == arrivals[i + 1..];
        if arrivals[i].r.id in channel {
          Handle(arrivals[i].r, arrivals[i].now, handled);
          handled := handled + 1;
        }
        i := i + 1;
      }
    }

    /** Lines 120-127: the new window is the smaller of the room and the work that are left. */
    method Recompute()
      modifies this`reqTosend
      ensures reqTosend == ToSend(depth, nrequests, reqComplete, reqOut)
      ensures reqOut <= depth && nrequests < TWO_64 && reqComplete + depth - reqOut < TWO_64 ==>
                reqTosend == Min(depth - reqOut, Max(nrequests - reqComplete, 0))
    {
      if reqOut <= depth && nrequests < TWO_64 && reqComplete + depth - reqOut < TWO_64 {
        ToSendIsCap(depth, nrequests, reqComplete, reqOut);
      }
      reqTosend := Sub64(depth, reqOut);
      if Add64(reqTosend, reqComplete) > nrequests {
        if reqComplete < nrequests {
          reqTosend := Sub64(nrequests, reqComplete);
        } else {
          reqTosend := 0;
        }
      }
    }

    /** The body of the loop. */
    method TakeTurn(turn: Turn)
      requires Inv(AtTop()) && reqComplete < nrequests
      modifies this
      ensures AtTop() == OneTurn(old(AtTop()), turn)
      ensures Inv(AtTop())
    {
      OneTurnKeeps(AtTop(), turn);
      SendLoopKeeps(AtTop(), turn.sendClock, 0);
      SendRequests(turn.sendClock);
      ghost var handled := LoopOnce(turn.arrivals);
      FinishTurn(handled);
    }

    method FinishTurn(ghost handled: nat)
      modifies this`reqTosend, this`turns
      ensures AtTop() == EndTurn(old(View(InLoop(handled))))
    {
      Recompute();
      turns := if handled > 0 then turns + 1 else turns;
    }

    /** The whole loop, for as many turns as the environment provides. */
    method StartBenchmark(schedule: seq<Turn>)
      requires Configured(depth, nrequests) && AtTop() == Start(depth, nrequests)
      modifies this
      ensures AtTop() == Turns(Start(depth, nrequests), schedule)
      ensures Leads(Start(depth, nrequests), AtTop())
      ensures var answers := AnsweredBy(Start(depth, nrequests), schedule);
              && result.client == Latency(answers, SentBy(Start(depth, nrequests), schedule))
              && result.db == Total(answers, (r: Response) => r.db)
              && result.leaf == Total(answers, (r: Response) => r.leaf)
              && result.io == Total(answers, (r: Response) => r.io)
              && result.cpu == Total(answers, (r: Response) => r.cpu)
              && reqComplete == |answers|
    {
      ScheduleIsRun(AtTop(), schedule);
      ScheduleAccounts(AtTop(), schedule, []);
      assert [] + SentBy(AtTop(), schedule) == SentBy(AtTop(), schedule);
      var k := 0;
      assert schedule[0..] == schedule;
      while reqComplete < nrequests && k < |schedule|
        invariant k <= |schedule| && Inv(AtTop())
        invariant Turns(AtTop(), schedule[k..]) == Turns(Start(depth, nrequests), schedule)
        decreases |schedule| - k
      {
        assert schedule[k..][1..] == schedule[k + 1..];
        TakeTurn(schedule[k]);
        k := k + 1;
      }
    }
  }
}
