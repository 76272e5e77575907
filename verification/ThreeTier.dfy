/**
 The measured request path of experiments 2 and 3: the client of `CappedClient`, the DB server, the
 leaf, and many requests on the way at once. Every latency is a difference of two readings of one
 monotone clock, taken where the code takes it; between any two steps time may pass.
 */
module ThreeTier {
  import opened Common
  import CappedClient

  type ClientState = CappedClient.State
  type Totals = CappedClient.Totals

  /** Experiment 2 times the leaf but does no I/O; experiment 3 times the I/O and not the leaf. */
  datatype Variant = Exp2 | Exp3

  /** Where a request is, with the clock readings and latencies its handlers hold. */
  datatype Stage =
    | ToDb
    | AtDb(s: nat)
    | AtLeaf(s: nat, ls: nat)
    | IoDone(s: nat, ls: nat, iol: int)
    | Burning(s: nat, ls: nat, iol: int, cs: nat)
    | Burnt(s: nat, ls: nat, iol: int, cl: int)
    | Answered(s: nat, leaf: int, iol: int, cl: int)
    | Replied(db: int, leaf: int, iol: int, cl: int)

  /** The request id as the client sent it, as DB and leaf remember it, and as it comes back. */
  datatype Ids = Ids(sent: nat, db: nat, leaf: nat, reply: nat)

  /** `times` records when each handler ran so far; no handler reads it. */
  datatype Call = Call(ids: Ids, stage: Stage, times: seq<int>)

  /** `aborted` is the failed assert on the leaf's request id in experiment 2's DB. */
  datatype State = State(aborted: bool, variant: Variant, now: nat, client: ClientState, calls: map<nat, Call>)

  datatype Action =
    | Tick(dt: nat)
    | ClientSend
    | ClientEnterLoop
    | ClientEndTurn
    | DbReceive(id: nat)
    | LeafReceive(id: nat)
    | FinishIo(id: nat)
    | StartCpu(id: nat)
    | EndCpu(id: nat)
    | LeafReply(id: nat)
    | DbReply(id: nat)
    | Deliver(id: nat)

  function Init(variant: Variant, depth: nat, nrequests: nat): State {
    State(false, variant, 0, CappedClient.Start(depth, nrequests), map[])
  }

  predicate Enabled(s: State, a: Action) {
    !s.aborted && !s.client.aborted &&
    match a
    case Tick(_) => true
    case ClientSend => CappedClient.MaySend(s.client)
    case ClientEnterLoop => s.client.phase == CappedClient.Sending(0)
    case ClientEndTurn => s.client.phase.InLoop?
    case DbReceive(id) => id in s.calls && s.calls[id].stage.ToDb?
    case LeafReceive(id) => id in s.calls && s.calls[id].stage.AtDb?
    case FinishIo(id) => id in s.calls && s.calls[id].stage.AtLeaf?
    case StartCpu(id) => id in s.calls && s.calls[id].stage.IoDone?
    case EndCpu(id) => id in s.calls && s.calls[id].stage.Burning?
    case LeafReply(id) => id in s.calls && s.calls[id].stage.Burnt?
    case DbReply(id) => id in s.calls && s.calls[id].stage.Answered?
    case Deliver(id) => id in s.calls && s.calls[id].stage.Replied? && s.client.phase.InLoop?
  }

  /** What each handler reads off the clock and passes on. */
  function Advance(v: Variant, st: Stage, now: nat): Stage {
    match st
    case ToDb => AtDb(now)
    case AtDb(s) => AtLeaf(s, now)
    case AtLeaf(s, ls) => IoDone(s, ls, if v.Exp3? then now - ls else 0)
    case IoDone(s, ls, iol) => Burning(s, ls, iol, now)
    case Burning(s, ls, iol, cs) => Burnt(s, ls, iol, now - cs)
    case Burnt(s, ls, iol, cl) => Answered(s, if v.Exp2? then now - ls else 0, iol, cl)
    case Answered(s, leaf, iol, cl) => Replied(now - s, if v.Exp2? then leaf else now - s, iol, cl)
    case Replied(_, _, _, _) => st
  }

  /** The request id a handler copies: experiment 3 has none in the leaf's messages. */
  function Relay(v: Variant, c: Call): Ids {
    match c.stage
    case ToDb => c.ids.(db := c.ids.sent)
    case AtDb(_) => if v.Exp2? then c.ids.(leaf := c.ids.db) else c.ids
    case Answered(_, _, _, _) => c.ids.(reply := if v.Exp2? then c.ids.leaf else c.ids.db)
    case _ => c.ids
  }

  function Handled(v: Variant, c: Call, now: nat): Call {
    Call(Relay(v, c), Advance(v, c.stage, now), c.times + [now])
  }

  function ResponseOf(c: Call): CappedClient.Response
    requires c.stage.Replied?
  {
    CappedClient.Response(c.ids.reply, c.stage.db, c.stage.leaf, c.stage.iol, c.stage.cl)
  }

  function Apply(s: State, a: Action): State
    requires Enabled(s, a)
  {
    match a
    case Tick(dt) => s.(now := s.now + dt)
    case ClientSend =>
      var id := s.client.reqId;
      s.(client := CappedClient.Send(s.client, s.now), calls := s.calls[id := Call(Ids(id, 0, 0, 0), ToDb, [])])
    case ClientEnterLoop => s.(client := CappedClient.EnterLoop(s.client))
    case ClientEndTurn => s.(client := CappedClient.EndTurn(s.client))
    case DbReply(id) =>
      if s.variant.Exp2? && s.calls[id].ids.leaf != s.calls[id].ids.db then s.(aborted := true) else
      s.(calls := s.calls[id := Handled(s.variant, s.calls[id], s.now)])
    case Deliver(id) =>
      s.(client := CappedClient.Respond(s.client, ResponseOf(s.calls[id]), s.now), calls := s.calls - {id})
    case _ => s.(calls := s.calls[a.id := Handled(s.variant, s.calls[a.id], s.now)])
  }

  predicate ValidRun(s: State, run: seq<Action>)
    decreases |run|
  {
    run == [] || (Enabled(s, run[0]) && ValidRun(Apply(s, run[0]), run[1..]))
  }

  function Final(s: State, run: seq<Action>): State
    requires ValidRun(s, run)
    decreases |run|
  {
    if run == [] then s else Final(Apply(s, run[0]), run[1..])
  }

  // ----- Nesting -----

  // The figures of a request against the times its handlers ran: at the DB (0), at the leaf (1), after
  // the I/O (2), before and after burning CPU (3, 4), at the leaf's reply (5), back at the DB (6).

  function IoSpan(v: Variant, t: seq<int>): int
    requires |t| >= 3
  {
    if v.Exp3? then t[2] - t[1] else 0
  }

  function CpuSpan(t: seq<int>): int
    requires |t| >= 5
  {
    t[4] - t[3]
  }

  /** Experiment 3's DB reports the leaf as seen from the DB. */
  function LeafSpan(v: Variant, t: seq<int>): int
    requires |t| >= 7
  {
    if v.Exp2? then t[5] - t[1] else t[6] - t[0]
  }

  /** What the handlers hold is exactly what they should have read off the clock. */
  predicate Exact(v: Variant, st: Stage, t: seq<int>) {
    match st
    case ToDb => t == []
    case AtDb(s) => t == [s]
    case AtLeaf(s, ls) => t == [s, ls]
    case IoDone(s, ls, iol) => |t| == 3 && s == t[0] && ls == t[1] && iol == IoSpan(v, t)
    case Burning(s, ls, iol, cs) => |t| == 4 && s == t[0] && ls == t[1] && iol == IoSpan(v, t) && cs == t[3]
    case Burnt(s, ls, iol, cl) => |t| == 5 && s == t[0] && ls == t[1] && iol == IoSpan(v, t) && cl == CpuSpan(t)
    case Answered(s, leaf, iol, cl) =>
      && |t| == 6 && s == t[0] && iol == IoSpan(v, t) && cl == CpuSpan(t)
      && leaf == if v.Exp2? then t[5] - t[1] else 0
    case Replied(db, leaf, iol, cl) =>
      |t| == 7 && db == t[6] - t[0] && leaf == LeafSpan(v, t) && iol == IoSpan(v, t) && cl == CpuSpan(t)
  }

  predicate Ascending(t: seq<int>, from: nat, to: nat) {
    from <= to
    && (forall i :: 0 <= i < |t| ==> from <= t[i] <= to)
    && (forall i, j :: 0 <= i < j < |t| ==> t[i] <= t[j])
  }

  predicate NestedTotals(t: Totals) {
    t.client >= t.db >= t.leaf >= t.io + t.cpu && t.io >= 0 && t.cpu >= 0
  }

  /** Every copy of a request id that a handler holds is the id the client sent. */
  predicate Echoed(v: Variant, c: Call, id: nat) {
    && c.ids.sent == id
    && (!c.stage.ToDb? ==> c.ids.db == id)
    && (v.Exp2? && !c.stage.ToDb? && !c.stage.AtDb? ==> c.ids.leaf == id)
    && (c.stage.Replied? ==> c.ids.reply == id)
  }

  ghost predicate Inv(s: State) {
    && !s.aborted
    && CappedClient.Inv(s.client)
    && s.calls.Keys == s.client.channel
    && (forall id :: id in s.calls ==>
          && Echoed(s.variant, s.calls[id], id)
          && Exact(s.variant, s.calls[id].stage, s.calls[id].times)
          && Ascending(s.calls[id].times, s.client.reqTime[id], s.now))
    && NestedTotals(s.client.totals)
  }

  lemma HandlerReads(v: Variant, c: Call, id: nat, t0: nat, now: nat)
    requires Exact(v, c.stage, c.times) && Ascending(c.times, t0, now) && Echoed(v, c, id) && !c.stage.Replied?
    ensures var d := Handled(v, c, now);
            Exact(v, d.stage, d.times) && Ascending(d.times, t0, now) && Echoed(v, d, id)
  {
  }

  /** Each measured span lies within the one around it, and CPU comes after I/O. */
  lemma ExactSpansNest(v: Variant, st: Stage, t: seq<int>, t0: nat, now: nat)
    requires st.Replied? && Exact(v, st, t) && Ascending(t, t0, now)
    ensures now - t0 >= st.db >= st.leaf >= st.iol + st.cl && st.iol >= 0 && st.cl >= 0
  {
    assert t0 <= t[0] <= t[1] <= t[2] <= t[3];
    assert t[3] <= t[4] <= t[5] <= t[6] <= now;
  }

  lemma StepKeeps(s: State, a: Action)
    requires Inv(s) && Enabled(s, a)
    ensures Inv(Apply(s, a))
  {
    match a
    case Tick(dt) => TickKeeps(s, dt);
    case ClientSend => ClientSendKeeps(s);
    case ClientEnterLoop => LoopKeeps(s, a);
    case ClientEndTurn => LoopKeeps(s, a);
    case Deliver(id) => DeliverKeeps(s, id);
    case _ => HandlerKeeps(s, a.id);
  }

  lemma TickKeeps(s: State, dt: nat)
    requires Inv(s)
    ensures Inv(s.(now := s.now + dt))
  {
  }

  lemma ClientSendKeeps(s: State)
    requires Inv(s) && Enabled(s, ClientSend)
    ensures Inv(Apply(s, ClientSend))
  {
    CappedClient.SendKeeps(s.client, s.now);
  }

  lemma LoopKeeps(s: State, a: Action)
    requires Inv(s) && Enabled(s, a) && (a.ClientEnterLoop? || a.ClientEndTurn?)
    ensures Inv(Apply(s, a))
  {
    if a.ClientEndTurn? {
      CappedClient.EndTurnKeeps(s.client);
    }
  }

  lemma HandlerKeeps(s: State, id: nat)
    requires Inv(s) && id in s.calls && !s.calls[id].stage.Replied?
    ensures Inv(s.(calls := s.calls[id := Handled(s.variant, s.calls[id], s.now)]))
  {
    HandlerReads(s.variant, s.calls[id], id, s.client.reqTime[id], s.now);
  }

  lemma DeliverKeeps(s: State, id: nat)
    requires Inv(s) && Enabled(s, Deliver(id))
    ensures Inv(Apply(s, Deliver(id)))
  {
    ExactSpansNest(s.variant, s.calls[id].stage, s.calls[id].times, s.client.reqTime[id], s.now);
    CappedClient.RespondKeeps(s.client, ResponseOf(s.calls[id]), s.now);
  }

  lemma {:induction false} RunKeeps(s: State, run: seq<Action>)
    requires Inv(s) && ValidRun(s, run)
    ensures Inv(Final(s, run))
    ensures Final(s, run).client.depth == s.client.depth && Final(s, run).variant == s.variant
    decreases |run|
  {
    if run != [] {
      StepKeeps(s, run[0]);
      RunKeeps(Apply(s, run[0]), run[1..]);
    }
  }

  /**
   In every state of every run: no assert on a request id has failed, every response that is on its
   way carries the id of its own request, whose entry is in `req_time`; its latencies are exactly the
   spans between the times its handlers ran, and nested; so the thread's totals are nested too.
   */
  lemma NestedMeasurement(variant: Variant, depth: nat, nrequests: nat, run: seq<Action>)
    requires CappedClient.Configured(depth, nrequests) && ValidRun(Init(variant, depth, nrequests), run)
    ensures var s := Final(Init(variant, depth, nrequests), run);
            && !s.aborted && !s.client.aborted
            && NestedTotals(s.client.totals)
            && s.calls.Keys == s.client.reqTime.Keys && |s.calls| == s.client.out <= depth
            && forall id :: id in s.calls && s.calls[id].stage.Replied? ==>
                 var r, t := ResponseOf(s.calls[id]), s.calls[id].times;
                 && r.id == id
                 && |t| == 7 && r.db == t[6] - t[0] && r.leaf == LeafSpan(variant, t)
                 && r.io == IoSpan(variant, t) && r.cpu == CpuSpan(t)
                 && s.now - s.client.reqTime[id] >= r.db >= r.leaf >= r.io + r.cpu
  {
    RunKeeps(Init(variant, depth, nrequests), run);
    var s := Final(Init(variant, depth, nrequests), run);
    assert |s.calls.Keys| == |s.client.reqTime.Keys|;
    forall id | id in s.calls && s.calls[id].stage.Replied?
      ensures var st := s.calls[id].stage; s.now - s.client.reqTime[id] >= st.db >= st.leaf >= st.iol + st.cl
    {
      ExactSpansNest(variant, s.calls[id].stage, s.calls[id].times, s.client.reqTime[id], s.now);
    }
  }

  /** The next step of a call. */
  function NextStep(st: Stage, id: nat): Action {
    match st
    case ToDb => DbReceive(id)
    case AtDb(_) => LeafReceive(id)
    case AtLeaf(_, _) => FinishIo(id)
    case IoDone(_, _, _) => StartCpu(id)
    case Burning(_, _, _, _) => EndCpu(id)
    case Burnt(_, _, _, _) => LeafReply(id)
    case Answered(_, _, _, _) => DbReply(id)
    case Replied(_, _, _, _) => Deliver(id)
  }

  /** No call is ever stuck: its next step is possible as soon as the client is in its event loop. */
  lemma CallsMove(s: State, id: nat)
    requires Inv(s) && id in s.calls && (s.client.phase.InLoop? || !s.calls[id].stage.Replied?)
    ensures Enabled(s, NextStep(s.calls[id].stage, id))
  {
  }

  // ----- The totals are the spans of the responses delivered -----

  function Plus(a: Totals, b: Totals): Totals {
    CappedClient.Totals(a.client + b.client, a.db + b.db, a.leaf + b.leaf, a.io + b.io, a.cpu + b.cpu)
  }

  /** From the send and the times the handlers ran to the delivery. */
  function SpansOf(v: Variant, sent: int, t: seq<int>, now: int): Totals
    requires |t| == 7
  {
    CappedClient.Totals(now - sent, t[6] - t[0], LeafSpan(v, t), IoSpan(v, t), CpuSpan(t))
  }

  /** The spans that one step adds: a delivery's, and nothing otherwise. */
  function Adds(s: State, a: Action): Totals {
    if a.Deliver? && a.id in s.calls && a.id in s.client.reqTime && |s.calls[a.id].times| == 7 then
      SpansOf(s.variant, s.client.reqTime[a.id], s.calls[a.id].times, s.now)
    else CappedClient.Totals(0, 0, 0, 0, 0)
  }

  function Spans(s: State, run: seq<Action>): Totals
    requires ValidRun(s, run)
    decreases |run|
  {
    if run == [] then CappedClient.Totals(0, 0, 0, 0, 0) else Plus(Adds(s, run[0]), Spans(Apply(s, run[0]), run[1..]))
  }

  lemma DeliverAdds(s: State, id: nat)
    requires Inv(s) && Enabled(s, Deliver(id))
    ensures |s.calls[id].times| == 7 && id in s.client.reqTime
    ensures Apply(s, Deliver(id)).client.totals
            == Plus(s.client.totals, SpansOf(s.variant, s.client.reqTime[id], s.calls[id].times, s.now))
  {
  }

  lemma OtherStepAdds(s: State, a: Action)
    requires Enabled(s, a) && !a.Deliver?
    ensures Apply(s, a).client.totals == s.client.totals
  {
  }

  /** On every run each total is the sum of its span over the responses delivered, however they overlapped. */
  lemma {:induction false} TotalsAreSpans(s: State, run: seq<Action>)
    requires Inv(s) && ValidRun(s, run)
    ensures Final(s, run).client.totals == Plus(s.client.totals, Spans(s, run))
    decreases |run|
  {
    if run != [] {
      StepKeeps(s, run[0]);
      StepAdds(s, run[0]);
      TotalsAreSpans(Apply(s, run[0]), run[1..]);
      PlusAssociates(s.client.totals, Adds(s, run[0]), Spans(Apply(s, run[0]), run[1..]));
    }
  }

  lemma PlusAssociates(a: Totals, b: Totals, c: Totals)
    ensures Plus(Plus(a, b), c) == Plus(a, Plus(b, c))
  {
  }

  lemma StepAdds(s: State, a: Action)
    requires Inv(s) && Enabled(s, a)
    ensures Apply(s, a).client.totals == Plus(s.client.totals, Adds(s, a))
  {
    if a.Deliver? {
      DeliverAdds(s, a.id);
    } else {
      OtherStepAdds(s, a);
    }
  }

  // ----- Little's law -----

  function AgesOf(s: State): int {
    CappedClient.Ages(s.client.reqTime, s.client.reqId, s.now)
  }

  /** The measured latency and the present ages of the open requests, together. */
  function Weight(s: State): int {
    s.client.totals.client + AgesOf(s)
  }

  /** What one step adds to the area under the outstanding count. */
  function Slice(s: State, a: Action): nat {
    if a.Tick? then s.client.out * a.dt else 0
  }

  function Area(s: State, run: seq<Action>): nat
    requires ValidRun(s, run)
    decreases |run|
  {
    if run == [] then 0 else Slice(s, run[0]) + Area(Apply(s, run[0]), run[1..])
  }

  lemma TickWeighs(s: State, dt: nat)
    requires Inv(s)
    ensures Weight(s.(now := s.now + dt)) == Weight(s) + s.client.out * dt
  {
    CappedClient.CountAll(s.client.channel, s.client.reqId);
    CappedClient.AgesTick(s.client.reqTime, s.client.reqId, s.now, dt);
  }

  lemma SendWeighs(s: State)
    requires Inv(s) && Enabled(s, ClientSend)
    ensures Weight(Apply(s, ClientSend)) == Weight(s)
  {
    CappedClient.SendAges(s.client, s.now);
  }

  lemma DeliverWeighs(s: State, id: nat)
    requires Inv(s) && Enabled(s, Deliver(id))
    ensures Weight(Apply(s, Deliver(id))) == Weight(s)
  {
    CappedClient.AgesErase(s.client.reqTime, id, s.client.reqId, s.now);
  }

  /** Only the passing of time adds weight: a request is sent with age zero, and takes its age along when it is answered. */
  lemma StepWeighs(s: State, a: Action)
    requires Inv(s) && Enabled(s, a)
    ensures Weight(Apply(s, a)) == Weight(s) + Slice(s, a)
  {
    match a
    case Tick(dt) => TickWeighs(s, dt);
    case ClientSend => SendWeighs(s);
    case Deliver(id) => DeliverWeighs(s, id);
    case _ => OtherStepWeighs(s, a);
  }

  lemma OtherStepWeighs(s: State, a: Action)
    requires Enabled(s, a) && !a.Tick? && !a.ClientSend? && !a.Deliver?
    ensures Weight(Apply(s, a)) == Weight(s)
  {
    assert Apply(s, a).now == s.now && Apply(s, a).client.totals == s.client.totals;
    assert Apply(s, a).client.reqTime == s.client.reqTime && Apply(s, a).client.reqId == s.client.reqId;
  }

  lemma {:induction false} RunWeighs(s: State, run: seq<Action>)
    requires Inv(s) && ValidRun(s, run)
    ensures Weight(Final(s, run)) == Weight(s) + Area(s, run)
    decreases |run|
  {
    if run != [] {
      StepWeighs(s, run[0]);
      StepKeeps(s, run[0]);
      RunWeighs(Apply(s, run[0]), run[1..]);
    }
  }

  function Lasts(a: Action): nat {
    if a.Tick? then a.dt else 0
  }

  function Elapsed(run: seq<Action>): nat {
    if run == [] then 0 else Lasts(run[0]) + Elapsed(run[1..])
  }

  lemma {:induction false} AreaIsBounded(s: State, run: seq<Action>)
    requires Inv(s) && ValidRun(s, run)
    ensures Area(s, run) <= s.client.depth * Elapsed(run)
    ensures Final(s, run).now == s.now + Elapsed(run)
    decreases |run|
  {
    if run != [] {
      StepKeeps(s, run[0]);
      AreaIsBounded(Apply(s, run[0]), run[1..]);
      SliceIsBounded(s, run[0]);
      Distribute(s.client.depth, Lasts(run[0]), Elapsed(run[1..]));
    }
  }

  lemma SliceIsBounded(s: State, a: Action)
    requires Inv(s) && Enabled(s, a)
    ensures Slice(s, a) <= s.client.depth * Lasts(a)
    ensures Apply(s, a).now == s.now + Lasts(a) && Apply(s, a).client.depth == s.client.depth
  {
    MulMonotone(s.client.out, s.client.depth, Lasts(a));
  }

  /**
   On every run the latency a thread measures, plus the ages of its open requests, is the area under its
   outstanding count, and so at most its depth times the elapsed time. So is the latency itself.
   */
  lemma LittlesLaw(variant: Variant, depth: nat, nrequests: nat, run: seq<Action>)
    requires CappedClient.Configured(depth, nrequests) && ValidRun(Init(variant, depth, nrequests), run)
    ensures var s := Final(Init(variant, depth, nrequests), run);
            && AgesOf(s) >= 0
            && s.client.totals.client + AgesOf(s) == Area(Init(variant, depth, nrequests), run) <= depth * s.now
            && s.client.totals.client <= depth * s.now
  {
    var start := Init(variant, depth, nrequests);
    RunKeeps(start, run);
    RunWeighs(start, run);
    AreaIsBounded(start, run);
    EmptyAges(start.client.reqId);
    AgesNonNegative(Final(start, run));
  }

  lemma AgesNonNegative(s: State)
    requires Inv(s)
    ensures AgesOf(s) >= 0
  {
    assert forall id :: id in s.client.reqTime ==> id in s.calls;
    CappedClient.AgesNonNegative(s.client.reqTime, s.client.reqId, s.now);
  }

  lemma {:induction false} EmptyAges(n: nat)
    ensures CappedClient.Ages(map[], n, 0) == 0
  {
    if n > 0 {
      EmptyAges(n - 1);
    }
  }

  // ----- Aggregation over the threads -----

  function Sum(bench: seq<Totals>): Totals {
    if bench == [] then CappedClient.Totals(0, 0, 0, 0, 0) else Plus(bench[0], Sum(bench[1..]))
  }

  lemma {:induction false} SumNests(bench: seq<Totals>)
    requires forall t :: t in bench ==> NestedTotals(t)
    ensures NestedTotals(Sum(bench))
  {
    if bench != [] {
      assert NestedTotals(bench[0]);
      SumNests(bench[1..]);
    }
  }

  lemma {:induction false} SumAppend(bench: seq<Totals>, t: Totals)
    ensures Sum(bench + [t]) == Plus(Sum(bench), t)
  {
    if bench == [] {
      assert bench + [t] == [t];
    } else {
      assert (bench + [t])[1..] == bench[1..] + [t];
      SumAppend(bench[1..], t);
    }
  }

  function FieldSum(bench: seq<Totals>, field: Totals -> int): int {
    if bench == [] then 0 else field(bench[0]) + FieldSum(bench[1..], field)
  }

  /** Each field of the sum is the sum over the threads of that field. */
  ghost predicate SumsFields(sum: Totals, bench: seq<Totals>) {
    && sum.client == FieldSum(bench, (t: Totals) => t.client)
    && sum.db == FieldSum(bench, (t: Totals) => t.db)
    && sum.leaf == FieldSum(bench, (t: Totals) => t.leaf)
    && sum.io == FieldSum(bench, (t: Totals) => t.io)
    && sum.cpu == FieldSum(bench, (t: Totals) => t.cpu)
  }

  lemma {:induction false} SumIsFieldwise(bench: seq<Totals>)
    ensures SumsFields(Sum(bench), bench)
  {
    if bench != [] {
      SumIsFieldwise(bench[1..]);
    }
  }

  /** The printed line: the averages, and three of their differences, as `uint64_t`. */
  datatype Report = Report(
    client: nat, db: nat, leaf: nat, io: nat, cpu: nat,
    clientMinusDb: nat, dbMinusLeaf: nat, leafMinusIoCpu: nat)

  /** Integer division of a sum by the number of requests. */
  function Average(x: nat, nr: nat): (q: nat)
    requires nr > 0
    ensures nr * q <= x < nr * q + nr
  {
    DivBounds(x, nr);
    x / nr
  }

  function Printed(sum: Totals, nr: nat): Report
    requires nr > 0 && NestedTotals(sum)
  {
    var client, db, leaf := Average(sum.client, nr), Average(sum.db, nr), Average(sum.leaf, nr);
    var io, cpu := Average(sum.io, nr), Average(sum.cpu, nr);
    Report(client, db, leaf, io, cpu, Sub64(client, db), Sub64(db, leaf), Sub64(Sub64(leaf, io), cpu))
  }

  /** The averages are the sums divided by `nr`, rounded down, and no difference of two wraps. */
  predicate PrintsAverages(p: Report, t: Totals, nr: nat)
    requires nr > 0
  {
    && p.client == t.client / nr && p.db == t.db / nr && p.leaf == t.leaf / nr && p.io == t.io / nr && p.cpu == t.cpu / nr
    && p.clientMinusDb == t.client / nr - t.db / nr
    && p.dbMinusLeaf == t.db / nr - t.leaf / nr
    && p.leafMinusIoCpu == t.leaf / nr - t.io / nr - t.cpu / nr
  }

  /**
   No printed difference wraps: each is the true, non-negative difference of the two averages, and
   it exceeds the average of the differences by less than the number of divisions.
   */
  lemma PrintedDifferences(bench: seq<Totals>, nr: nat)
    requires nr > 0 && (forall t :: t in bench ==> NestedTotals(t)) && Sum(bench).client < TWO_64
    ensures NestedTotals(Sum(bench))
    ensures var t := Sum(bench);
            var p := Printed(t, nr);
            && PrintsAverages(p, t, nr)
            && 0 <= p.clientMinusDb - (t.client - t.db) / nr <= 1
            && 0 <= p.dbMinusLeaf - (t.db - t.leaf) / nr <= 1
            && 0 <= p.leafMinusIoCpu - (t.leaf - t.io - t.cpu) / nr <= 2
  {
    SumNests(bench);
    var t := Sum(bench);
    AverageOfDifference(t.client, t.db, nr);
    AverageOfDifference(t.db, t.leaf, nr);
    AverageOfDifference(t.leaf, t.io, nr);
    AverageOfDifference(t.leaf - t.io, t.cpu, nr);
    NoBorrow(Average(t.client, nr), Average(t.db, nr));
    NoBorrow(Average(t.db, nr), Average(t.leaf, nr));
    NoBorrow(Average(t.leaf, nr), Average(t.io, nr));
    NoBorrow(Average(t.leaf, nr) - Average(t.io, nr), Average(t.cpu, nr));
  }

  /** One benchmark thread: its parameters and what happened to its requests. */
  datatype Thread = Thread(depth: nat, nrequests: nat, run: seq<Action>)

  predicate Happens(variant: Variant, t: Thread) {
    CappedClient.Configured(t.depth, t.nrequests) && ValidRun(Init(variant, t.depth, t.nrequests), t.run)
  }

  /** What a thread measures: the spans of the responses delivered to it. */
  function Measured(variant: Variant, t: Thread): (m: Totals)
    requires Happens(variant, t)
    ensures m == Spans(Init(variant, t.depth, t.nrequests), t.run)
  {
    TotalsAreSpans(Init(variant, t.depth, t.nrequests), t.run);
    Final(Init(variant, t.depth, t.nrequests), t.run).client.totals
  }

  function Bench(variant: Variant, threads: seq<Thread>): seq<Totals>
    requires forall t :: t in threads ==> Happens(variant, t)
  {
    seq(|threads|, i requires 0 <= i < |threads| => assert threads[i] in threads; Measured(variant, threads[i]))
  }

  lemma BenchNests(variant: Variant, threads: seq<Thread>)
    requires forall t :: t in threads ==> Happens(variant, t)
    ensures forall b :: b in Bench(variant, threads) ==> NestedTotals(b)
  {
    var bench := Bench(variant, threads);
    forall b | b in bench
      ensures NestedTotals(b)
    {
      var i :| 0 <= i < |bench| && bench[i] == b;
      var t := threads[i];
      assert t in threads;
      NestedMeasurement(variant, t.depth, t.nrequests, t.run);
    }
  }

  /** From the clock to the printed line: whatever happens in any number of threads, no difference wraps. */
  lemma PrintedEndToEnd(variant: Variant, threads: seq<Thread>, nr: nat)
    requires nr > 0 && forall t :: t in threads ==> Happens(variant, t)
    requires Sum(Bench(variant, threads)).client < TWO_64
    ensures NestedTotals(Sum(Bench(variant, threads))) && SumsFields(Sum(Bench(variant, threads)), Bench(variant, threads))
    ensures PrintsAverages(Printed(Sum(Bench(variant, threads)), nr), Sum(Bench(variant, threads)), nr)
  {
    BenchNests(variant, threads);
    SumIsFieldwise(Bench(variant, threads));
    PrintedDifferences(Bench(variant, threads), nr);
  }

  lemma AverageOfDifference(a: nat, b: nat, nr: nat)
    requires nr > 0 && b <= a < TWO_64
    ensures Average(b, nr) <= Average(a, nr) < TWO_64
    ensures 0 <= Average(a, nr) - Average(b, nr) - Average(a - b, nr) <= 1
  {
    DivSplit(b, a - b, nr);
    DivMonotone(b, a, nr);
    DivBelow(a, nr);
  }

  lemma NoBorrow(a: nat, b: nat)
    requires b <= a < TWO_64
    ensures Sub64(a, b) == a - b
  {
  }

  /** The summing of `main`, in `uint64_t`. */
  method SumUp(bench: seq<Totals>) returns (sum: Totals)
    requires (forall t :: t in bench ==> NestedTotals(t)) && Sum(bench).client < TWO_64
    ensures sum == Sum(bench) && SumsFields(sum, bench)
  {
    SumIsFieldwise(bench);
    sum := CappedClient.Totals(0, 0, 0, 0, 0);
    var i := 0;
    PrefixSum(bench, 0);
    while i < |bench|
      invariant i <= |bench|
      invariant Sum(bench[..i]) == sum && NestedTotals(sum)
    {
      SumAppend(bench[..i], bench[i]);
      assert bench[..i + 1] == bench[..i] + [bench[i]];
      PrefixSum(bench, i + 1);
      NoWrap(sum, bench[i]);
      sum := CappedClient.Totals(Add64(sum.client, bench[i].client), Add64(sum.db, bench[i].db),
                                 Add64(sum.leaf, bench[i].leaf), Add64(sum.io, bench[i].io), Add64(sum.cpu, bench[i].cpu));
      i := i + 1;
    }
    assert bench[..|bench|] == bench;
  }

  lemma NoWrap(a: Totals, b: Totals)
    requires NestedTotals(a) && NestedTotals(b) && a.client + b.client < TWO_64
    ensures Plus(a, b) == CappedClient.Totals(Add64(a.client, b.client), Add64(a.db, b.db), Add64(a.leaf, b.leaf),
                                              Add64(a.io, b.io), Add64(a.cpu, b.cpu))
  {
    NoCarry(a.client, b.client);
    NoCarry(a.db, b.db);
    NoCarry(a.leaf, b.leaf);
    NoCarry(a.io, b.io);
    NoCarry(a.cpu, b.cpu);
  }

  lemma NoCarry(a: nat, b: nat)
    requires a + b < TWO_64
    ensures Add64(a, b) == a + b
  {
  }

  /** The in-place divisions and the printed differences. */
  method Aggregate(bench: seq<Totals>, nr: nat) returns (p: Report)
    requires nr > 0 && (forall t :: t in bench ==> NestedTotals(t)) && Sum(bench).client < TWO_64
    ensures NestedTotals(Sum(bench)) && p == Printed(Sum(bench), nr)
    ensures PrintsAverages(p, Sum(bench), nr) && SumsFields(Sum(bench), bench)
  {
    SumNests(bench);
    SumIsFieldwise(bench);
    PrintedDifferences(bench, nr);
    var sum := SumUp(bench);
    var client, db, leaf, io, cpu := sum.client, sum.db, sum.leaf, sum.io, sum.cpu;
    client := Average(client, nr);
    db := Average(db, nr);
    leaf := Average(leaf, nr);
    io := Average(io, nr);
    cpu := Average(cpu, nr);
    p := Report(client, db, leaf, io, cpu, Sub64(client, db), Sub64(db, leaf), Sub64(Sub64(leaf, io), cpu));
  }

  lemma {:induction false} PrefixSum(bench: seq<Totals>, i: nat)
    requires i <= |bench| && forall t :: t in bench ==> NestedTotals(t)
    ensures NestedTotals(Sum(bench[..i])) && Sum(bench[..i]).client <= Sum(bench).client
  {
    if i == 0 {
      SumNests(bench);
    } else {
      assert bench[..i][1..] == bench[1..][..i - 1] && bench[..i][0] == bench[0] && bench[0] in bench;
      PrefixSum(bench[1..], i - 1);
    }
  }
}
