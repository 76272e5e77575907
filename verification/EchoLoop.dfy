/**
 Client, server and the two byte streams between them as one machine. Reads of any size happen on
 either side at any time, time passes between any two steps, and the client is single-threaded:
 it reads only when its send loop has finished.
 */
module EchoLoop {
  import opened Common
  import opened Reassembly
  import opened EchoClient

  /**
   `server` and `reasm` are the bytes in the partial buffers of the two `ReadCallback`s; `echoed`
   counts the frames the server has written back; `area` accumulates outstanding requests times
   elapsed time.
   */
  datatype State = State(
    aborted: bool,
    started: bool,
    startTime: nat,
    now: nat,
    client: Client,
    toServer: seq<Byte>,
    server: seq<Byte>,
    echoed: nat,
    toClient: seq<Byte>,
    reasm: seq<Byte>,
    area: nat
  )

  datatype Action =
    | Tick(dt: nat)
    | Start
    | Send
    | ServerRead(wanted: nat)
    | ClientRead(wanted: nat)

  function Init(qdepth: nat, maxRequests: nat): State {
    State(false, false, 0, 0, NewClient(qdepth, maxRequests), [], [], 0, [], [], 0)
  }

  predicate Enabled(s: State, a: Action) {
    !s.aborted &&
    match a
    case Tick(_) => true
    case Start => !s.started
    case Send => s.client.toSend > 0
    case ServerRead(_) => |s.server| < REQUEST_SIZE
    case ClientRead(_) => s.client.toSend == 0 && |s.reasm| < REQUEST_SIZE
  }

  function Apply(s: State, a: Action): State
    requires Enabled(s, a)
  {
    match a
    case Tick(dt) => s.(now := s.now + dt, area := s.area + s.client.outstanding * dt)
    case Start => s.(started := true, startTime := s.now, client := s.client.(toSend := s.client.qdepth))
    case Send =>
      s.(client := SendOne(s.client, s.now), toServer := s.toServer + Request(s.client.requestId + 1))
    case ServerRead(wanted) =>
      var k := Taken(s.server, s.toServer, wanted, REQUEST_SIZE);
      var p := Feed(Progress(s.server, []), s.toServer[..k], REQUEST_SIZE);
      s.(toServer := s.toServer[k..], server := p.pending, echoed := s.echoed + |p.delivered|,
         toClient := s.toClient + Concat(p.delivered))
    case ClientRead(wanted) =>
      var k := Taken(s.reasm, s.toClient, wanted, REQUEST_SIZE);
      var p := Feed(Progress(s.reasm, []), s.toClient[..k], REQUEST_SIZE);
      var t := s.(toClient := s.toClient[k..], reasm := p.pending);
      if p.delivered == [] then t else Deliver(t, p.delivered[0])
  }

  /** `requestRead`: the callback of the client's `ReadCallback`. */
  function Deliver(s: State, frame: seq<Byte>): State {
    if |frame| != REQUEST_SIZE || s.client.outstanding == 0 then s.(aborted := true) else
    match Received(s.client, frame, s.now)
    case None => s.(aborted := true)
    case Some(c) => s.(client := c)
  }

  predicate ValidRun(s: State, run: seq<Action>)
    decreases |run|
  {
    run == [] || (Enabled(s, run[0]) && ValidRun(Apply(s, run[0]), run[1..]))
  }

  function Final(s: State, run: seq<Action>): State
    requires ValidRun(s, run)
    decreases |run|
  {
    if run == [] then s else Final(Apply(s, run[0]), run[1..])
  }

  ghost predicate Reachable(s: State) {
    exists qdepth, maxRequests, run ::
      Configured(NewClient(qdepth, maxRequests))
      && ValidRun(Init(qdepth, maxRequests), run) && s == Final(Init(qdepth, maxRequests), run)
  }

  // ----- Invariant -----

  /** How long the requests `first`, ..., `first + count - 1` have been waiting. */
  function Ages(c: Client, first: nat, count: nat, now: nat): int
    requires forall id :: first <= id < first + count ==> id in c.reqTime
    decreases count
  {
    if count == 0 then 0 else (now - c.reqTime[first]) + Ages(c, first + 1, count - 1, now)
  }

  ghost predicate Counts(s: State) {
    var c := s.client;
    && c.sent == c.requestId == c.completed + c.outstanding
    && c.sent + c.toSend == (if s.started then c.qdepth + Min(c.completed, c.maxRequests - 1) else 0)
    && (c.completed >= c.maxRequests ==> c.toSend == 0)
    && c.stops == (if c.completed >= c.maxRequests && c.outstanding == 0 then 1 else 0)
    && c.completed <= s.echoed <= c.sent
  }

  ghost predicate Wires(s: State) {
    var c := s.client;
    && |s.server| < REQUEST_SIZE && |s.reasm| < REQUEST_SIZE
    && c.completed <= s.echoed <= c.sent
    && s.server + s.toServer == RequestBytes(s.echoed + 1, c.sent - s.echoed)
    && s.reasm + s.toClient == RequestBytes(c.completed + 1, s.echoed - c.completed)
  }

  ghost predicate Correlated(s: State) {
    var c := s.client;
    && |c.answered| == c.completed && c.totLatency >= 0
    && (forall k :: 0 <= k < c.completed ==> c.answered[k] == k + 1)
    && (forall id :: id in c.reqTime <==> 1 <= id <= c.sent)
    && (forall id :: id in c.reqTime ==> s.startTime <= c.reqTime[id] <= s.now)
  }

  ghost predicate Timed(s: State) {
    var c := s.client;
    && (forall id :: id in c.reqTime <==> 1 <= id <= c.sent)
    && c.sent == c.completed + c.outstanding
    && s.startTime <= s.now
    && c.totLatency + Ages(c, c.completed + 1, c.outstanding, s.now) == s.area
    && s.area <= c.qdepth * (s.now - s.startTime)
    && (!s.started ==> s.area == 0 && c.sent == 0)
  }

  ghost predicate Inv(s: State) {
    !s.aborted && Configured(s.client) && Counts(s) && Wires(s) && Correlated(s) && Timed(s)
  }

  // ----- The streams -----

  lemma {:induction false} FramesAppend(f: nat -> seq<Byte>, first: nat, count: nat)
    ensures Frames(f, first, count + 1) == Frames(f, first, count) + f(first + count)
    decreases count
  {
    if count > 0 {
      FramesAppend(f, first + 1, count - 1);
      ConcatAssociates(f(first), Frames(f, first + 1, count - 1), f(first + count));
    }
  }

  lemma {:induction false} FramesLength(f: nat -> seq<Byte>, first: nat, count: nat, n: nat)
    requires forall id :: |f(id)| == n
    ensures |Frames(f, first, count)| == count * n
    decreases count
  {
    if count > 0 {
      FramesLength(f, first + 1, count - 1, n);
      assert count * n == n + (count - 1) * n;
    }
  }

  /** The first whole frame at the front of a stream of frames is its first frame. */
  lemma FrontOfFrames(f: nat -> seq<Byte>, frame: seq<Byte>, rest: seq<Byte>, first: nat, count: nat, n: nat)
    requires n > 0 && (forall id :: |f(id)| == n)
    requires |frame| == n && frame + rest == Frames(f, first, count)
    ensures count > 0 && frame == f(first) && rest == Frames(f, first + 1, count - 1)
  {
    var all := Frames(f, first, count);
    assert |all| >= n;
    assert count > 0;
    assert all[..n] == (frame + rest)[..n] == frame;
    assert all[n..] == (frame + rest)[n..] == rest;
    assert all == f(first) + Frames(f, first + 1, count - 1);
    assert all[..n] == f(first);
  }

  lemma RequestBytesAppend(first: nat, count: nat)
    ensures RequestBytes(first, count + 1) == RequestBytes(first, count) + Request(first + count)
  {
    FramesAppend(Request, first, count);
  }

  lemma RequestBytesLength(first: nat, count: nat)
    ensures |RequestBytes(first, count)| == count * REQUEST_SIZE
  {
    FramesLength(Request, first, count, REQUEST_SIZE);
  }

  lemma FrontFrame(frame: seq<Byte>, rest: seq<Byte>, first: nat, count: nat)
    requires |frame| == REQUEST_SIZE && frame + rest == RequestBytes(first, count)
    ensures count > 0 && frame == Request(first) && rest == RequestBytes(first + 1, count - 1)
  {
    FrontOfFrames(Request, frame, rest, first, count, REQUEST_SIZE);
  }

  // ----- Ages -----

  lemma {:induction false} AgesTick(c: Client, first: nat, count: nat, now: nat, dt: nat)
    requires forall id :: first <= id < first + count ==> id in c.reqTime
    ensures Ages(c, first, count, now + dt) == Ages(c, first, count, now) + count * dt
    decreases count
  {
    if count > 0 {
      AgesTick(c, first + 1, count - 1, now, dt);
      assert count * dt == (count - 1) * dt + dt;
    }
  }

  /** A request sent now has age zero and does not change the others. */
  lemma {:induction false} AgesSend(c: Client, d: Client, first: nat, count: nat, now: nat)
    requires forall id :: first <= id < first + count ==> id in c.reqTime
    requires d.reqTime == c.reqTime[first + count := now]
    ensures Ages(d, first, count + 1, now) == Ages(c, first, count, now)
    decreases count
  {
    if count > 0 {
      AgesSend(c, d, first + 1, count - 1, now);
    }
  }

  lemma {:induction false} AgesSame(c: Client, d: Client, first: nat, count: nat, now: nat)
    requires forall id :: first <= id < first + count ==> id in c.reqTime
    requires d.reqTime == c.reqTime
    ensures Ages(d, first, count, now) == Ages(c, first, count, now)
    decreases count
  {
    if count > 0 {
      AgesSame(c, d, first + 1, count - 1, now);
    }
  }

  lemma {:induction false} AgesNonNegative(c: Client, first: nat, count: nat, now: nat)
    requires forall id :: first <= id < first + count ==> id in c.reqTime && c.reqTime[id] <= now
    ensures Ages(c, first, count, now) >= 0
    decreases count
  {
    if count > 0 {
      AgesNonNegative(c, first + 1, count - 1, now);
    }
  }

  // ----- Every step keeps the invariant -----

  lemma WindowHolds(s: State)
    requires Counts(s) && Configured(s.client)
    ensures s.client.outstanding + s.client.toSend <= s.client.qdepth
    ensures s.client.sent < TWO_32
  {
  }

  lemma TickKeeps(s: State, dt: nat)
    requires Inv(s)
    ensures Inv(Apply(s, Tick(dt)))
  {
    var c := s.client;
    WindowHolds(s);
    AgesTick(c, c.completed + 1, c.outstanding, s.now, dt);
    assert c.outstanding * dt <= c.qdepth * dt by { MulMonotone(c.outstanding, c.qdepth, dt); }
    assert c.qdepth * (s.now + dt - s.startTime) == c.qdepth * (s.now - s.startTime) + c.qdepth * dt;
  }

  lemma StartKeeps(s: State)
    requires Inv(s) && Enabled(s, Start)
    ensures Inv(Apply(s, Start))
  {
    var c := s.client;
    AgesSame(c, Apply(s, Start).client, c.completed + 1, c.outstanding, s.now);
  }

  lemma SentWires(s: State, t: State)
    requires Wires(s)
    requires t == s.(client := t.client, toServer := s.toServer + Request(s.client.sent + 1))
    requires t.client.sent == s.client.sent + 1 && t.client.completed == s.client.completed
    ensures Wires(t)
  {
    RequestBytesAppend(s.echoed + 1, s.client.sent - s.echoed);
    ConcatAssociates(s.server, s.toServer, Request(s.client.sent + 1));
  }

  lemma SendTimed(s: State)
    requires Timed(s) && Correlated(s) && s.client.sent == s.client.requestId && s.started && Enabled(s, Send)
    ensures Timed(Apply(s, Send)) && Correlated(Apply(s, Send))
  {
    var c := s.client;
    AgesSend(c, Apply(s, Send).client, c.completed + 1, c.outstanding, s.now);
  }

  lemma SendKeeps(s: State)
    requires Inv(s) && Enabled(s, Send)
    ensures Inv(Apply(s, Send))
  {
    SentWires(s, Apply(s, Send));
    SendTimed(s);
  }

  /** A read moves bytes from the wire into the partial buffer, and out of it as one whole frame. */
  lemma ReadMoves(pending: seq<Byte>, wire: seq<Byte>, wanted: nat)
    requires |pending| < REQUEST_SIZE
    ensures var k := Taken(pending, wire, wanted, REQUEST_SIZE);
            var p := Feed(Progress(pending, []), wire[..k], REQUEST_SIZE);
            && |p.pending| < REQUEST_SIZE
            && (p.delivered == [] ==> p.pending + wire[k..] == pending + wire)
            && (p.delivered != [] ==> |p.delivered| == 1 && |p.delivered[0]| == REQUEST_SIZE
                                      && p.delivered[0] + wire[k..] == pending + wire && p.pending == []
                                      && Concat(p.delivered) == p.delivered[0])
  {
    var k := Taken(pending, wire, wanted, REQUEST_SIZE);
    assert wire == wire[..k] + wire[k..];
    assert (pending + wire[..k]) + wire[k..] == pending + wire;
    var p := Feed(Progress(pending, []), wire[..k], REQUEST_SIZE);
    if p.delivered != [] {
      assert p.delivered[1..] == [];
      assert p.delivered[0] + [] == p.delivered[0];
    }
  }

  lemma ServerReadWires(s: State, wanted: nat)
    requires Wires(s) && Enabled(s, ServerRead(wanted))
    ensures Wires(Apply(s, ServerRead(wanted)))
  {
    var t := Apply(s, ServerRead(wanted));
    ReadMoves(s.server, s.toServer, wanted);
    if t.echoed == s.echoed {
      assert t.toClient == s.toClient;
    } else {
      var frame := s.server + s.toServer[..Taken(s.server, s.toServer, wanted, REQUEST_SIZE)];
      EchoedWires(s, t, frame);
    }
  }

  lemma EchoedWires(s: State, t: State, frame: seq<Byte>)
    requires Wires(s) && |frame| == REQUEST_SIZE && frame + t.toServer == s.server + s.toServer
    requires t == s.(toServer := t.toServer, server := [], echoed := s.echoed + 1, toClient := s.toClient + frame)
    ensures Wires(t)
  {
    var c := s.client;
    FrontFrame(frame, t.toServer, s.echoed + 1, c.sent - s.echoed);
    RequestBytesAppend(c.completed + 1, s.echoed - c.completed);
    ConcatAssociates(s.reasm, s.toClient, frame);
  }

  lemma ServerReadKeeps(s: State, wanted: nat)
    requires Inv(s) && Enabled(s, ServerRead(wanted))
    ensures Inv(Apply(s, ServerRead(wanted)))
  {
    ServerReadWires(s, wanted);
    SameClientKeeps(s, Apply(s, ServerRead(wanted)));
  }

  lemma SameClientKeeps(s: State, t: State)
    requires Correlated(s) && Timed(s)
    requires t.client == s.client && t.now == s.now && t.startTime == s.startTime && t.started == s.started && t.area == s.area
    ensures Correlated(t) && Timed(t)
  {
  }

  /** The next whole frame at the client is the echo of its oldest unanswered request. */
  lemma NextResponse(s: State, rest: seq<Byte>, frame: seq<Byte>)
    requires Inv(s) && |frame| == REQUEST_SIZE && frame + rest == s.reasm + s.toClient
    ensures s.client.completed < s.echoed && s.client.outstanding > 0
    ensures RequestIdOf(frame) == s.client.completed + 1 && s.client.completed + 1 in s.client.reqTime
    ensures rest == RequestBytes(s.client.completed + 2, s.echoed - s.client.completed - 1)
  {
    FrontFrame(frame, rest, s.client.completed + 1, s.echoed - s.client.completed);
    WindowHolds(s);
    RequestRoundTrip(s.client.completed + 1);
  }

  lemma DeliverTimed(s: State, d: Client, frame: seq<Byte>)
    requires Timed(s) && Correlated(s) && |frame| == REQUEST_SIZE && s.client.outstanding > 0
    requires RequestIdOf(frame) == s.client.completed + 1 && Received(s.client, frame, s.now) == Some(d)
    ensures Timed(s.(client := d)) && Correlated(s.(client := d))
  {
    var c := s.client;
    AgesSame(c, d, c.completed + 2, c.outstanding - 1, s.now);
  }

  lemma DeliverKeeps(s: State, t: State, frame: seq<Byte>)
    requires Inv(s) && s.client.toSend == 0
    requires t == s.(reasm := [], toClient := t.toClient)
    requires |frame| == REQUEST_SIZE && frame + t.toClient == s.reasm + s.toClient
    ensures Inv(Deliver(t, frame))
  {
    NextResponse(s, t.toClient, frame);
    var d := Received(s.client, frame, s.now).value;
    assert Deliver(t, frame) == t.(client := d);
    DeliverTimed(s, d, frame);
  }

  lemma ClientReadKeeps(s: State, wanted: nat)
    requires Inv(s) && Enabled(s, ClientRead(wanted))
    ensures Inv(Apply(s, ClientRead(wanted)))
  {
    ReadMoves(s.reasm, s.toClient, wanted);
    var k := Taken(s.reasm, s.toClient, wanted, REQUEST_SIZE);
    var p := Feed(Progress(s.reasm, []), s.toClient[..k], REQUEST_SIZE);
    var t := s.(toClient := s.toClient[k..], reasm := p.pending);
    if p.delivered != [] {
      DeliverKeeps(s, t, p.delivered[0]);
    }
  }

  lemma StepKeeps(s: State, a: Action)
    requires Inv(s) && Enabled(s, a)
    ensures Inv(Apply(s, a))
  {
    match a
    case Tick(dt) => TickKeeps(s, dt);
    case Start => StartKeeps(s);
    case Send => SendKeeps(s);
    case ServerRead(wanted) => ServerReadKeeps(s, wanted);
    case ClientRead(wanted) => ClientReadKeeps(s, wanted);
  }

  lemma {:induction false} RunKeeps(s: State, run: seq<Action>)
    requires Inv(s) && ValidRun(s, run)
    ensures Inv(Final(s, run))
    decreases |run|
  {
    if run != [] {
      StepKeeps(s, run[0]);
      RunKeeps(Apply(s, run[0]), run[1..]);
    }
  }

  lemma ReachableInv(s: State)
    requires Reachable(s)
    ensures Inv(s)
  {
    var qdepth, maxRequests, run :|
      Configured(NewClient(qdepth, maxRequests))
      && ValidRun(Init(qdepth, maxRequests), run) && s == Final(Init(qdepth, maxRequests), run);
    RunKeeps(Init(qdepth, maxRequests), run);
  }

  // ----- The clock -----

  function Lasts(a: Action): nat {
    if a.Tick? then a.dt else 0
  }

  function Elapsed(run: seq<Action>): nat {
    if run == [] then 0 else Lasts(run[0]) + Elapsed(run[1..])
  }

  /** Outstanding requests times elapsed time, added up over a run. */
  function Area(s: State, run: seq<Action>): nat
    requires ValidRun(s, run)
    decreases |run|
  {
    if run == [] then 0 else s.client.outstanding * Lasts(run[0]) + Area(Apply(s, run[0]), run[1..])
  }

  /** When the run connected: the time that had passed before `Start`. */
  function ConnectTime(run: seq<Action>): nat {
    if run == [] || run[0].Start? then 0 else Lasts(run[0]) + ConnectTime(run[1..])
  }

  lemma StepClock(s: State, a: Action)
    requires Enabled(s, a)
    ensures Apply(s, a).now == s.now + Lasts(a)
    ensures Apply(s, a).area == s.area + s.client.outstanding * Lasts(a)
    ensures if a.Start? then Apply(s, a).started && Apply(s, a).startTime == s.now
            else Apply(s, a).started == s.started && Apply(s, a).startTime == s.startTime
  {
  }

  /** The clock and the area are those of the run, and the start time is when it connected. */
  lemma {:induction false} RunClock(s: State, run: seq<Action>)
    requires ValidRun(s, run)
    ensures Final(s, run).now == s.now + Elapsed(run)
    ensures Final(s, run).area == s.area + Area(s, run)
    ensures s.started ==> Final(s, run).started && Final(s, run).startTime == s.startTime
    ensures !s.started && Final(s, run).started ==> Final(s, run).startTime == s.now + ConnectTime(run)
    decreases |run|
  {
    if run != [] {
      StepClock(s, run[0]);
      RunClock(Apply(s, run[0]), run[1..]);
    }
  }

  // ----- What every run guarantees -----

  /**
   The id lookup never fails; the k-th response carries request id k; requests sent are those
   outstanding plus those completed, never more than `qdepth` at once; and the number sent is
   determined by the number completed.
   */
  lemma ClosedLoop(s: State)
    requires Reachable(s)
    ensures !s.aborted
    ensures |s.client.answered| == s.client.completed
    ensures forall k :: 0 <= k < s.client.completed ==> s.client.answered[k] == k + 1
    ensures s.client.sent == s.client.outstanding + s.client.completed
    ensures s.client.outstanding + s.client.toSend <= s.client.qdepth
    ensures s.started ==> s.client.sent + s.client.toSend == s.client.qdepth + Min(s.client.completed, s.client.maxRequests - 1)
  {
    ReachableInv(s);
  }

  /** The loop is stopped at most once, and exactly when `maxRequests + qdepth - 1` were sent and all completed. */
  lemma StoppedOnce(s: State)
    requires Reachable(s)
    ensures s.client.stops <= 1
    ensures s.client.stops == 1 <==>
              s.started && s.client.qdepth >= 1
              && s.client.sent == s.client.completed == s.client.maxRequests + s.client.qdepth - 1
    ensures s.client.stops == 1 ==> s.client.outstanding == 0 && s.toServer == s.server == s.toClient == s.reasm == []
  {
    ReachableInv(s);
    if s.client.stops == 1 {
      assert s.server + s.toServer == [] && s.reasm + s.toClient == [];
      assert |s.server + s.toServer| == 0 && |s.reasm + s.toClient| == 0;
    }
  }

  /**
   Little's law for the reported latency: the total reported so far plus the current ages of the
   outstanding requests is the area under the outstanding count, hence at most `qdepth` times the
   elapsed time.
   */
  lemma LittlesLaw(s: State)
    requires Reachable(s)
    ensures s.client.completed <= s.client.sent
    ensures forall id :: s.client.completed < id <= s.client.sent ==> id in s.client.reqTime
    ensures var c := s.client;
            c.totLatency + Ages(c, c.completed + 1, c.sent - c.completed, s.now) == s.area
    ensures s.startTime <= s.now && 0 <= s.area <= s.client.qdepth * (s.now - s.startTime)
    ensures s.client.totLatency <= s.client.qdepth * (s.now - s.startTime)
  {
    ReachableInv(s);
    AgesNonNegative(s.client, s.client.completed + 1, s.client.outstanding, s.now);
  }

  /** The same, told of the run: its area, and the time that passed since it connected. */
  lemma LittlesLawOfRun(qdepth: nat, maxRequests: nat, run: seq<Action>)
    requires Configured(NewClient(qdepth, maxRequests)) && ValidRun(Init(qdepth, maxRequests), run)
    ensures var s := Final(Init(qdepth, maxRequests), run);
            var c := s.client;
            && c.completed <= c.sent && c.qdepth == qdepth
            && (forall id :: c.completed < id <= c.sent ==> id in c.reqTime)
            && c.totLatency + Ages(c, c.completed + 1, c.sent - c.completed, Elapsed(run)) == Area(Init(qdepth, maxRequests), run)
            && (s.started ==> Area(Init(qdepth, maxRequests), run) <= qdepth * (Elapsed(run) - ConnectTime(run)))
  {
    var start := Init(qdepth, maxRequests);
    RunClock(start, run);
    RunConfig(start, run);
    LittlesLaw(Final(start, run));
  }

  lemma {:induction false} RunConfig(s: State, run: seq<Action>)
    requires ValidRun(s, run)
    ensures Final(s, run).client.qdepth == s.client.qdepth && Final(s, run).client.maxRequests == s.client.maxRequests
    decreases |run|
  {
    if run != [] {
      RunConfig(Apply(s, run[0]), run[1..]);
    }
  }

  /** The printed average latency is at most `qdepth` times the run time divided by the request count. */
  lemma PrintedAverage(s: State)
    requires Reachable(s)
    ensures s.client.maxRequests > 0 && s.startTime <= s.now
    ensures s.client.totLatency / s.client.maxRequests
            <= s.client.qdepth * (s.now - s.startTime) / s.client.maxRequests
  {
    ReachableInv(s);
    LittlesLaw(s);
    DivMonotone(s.client.totLatency, s.client.qdepth * (s.now - s.startTime), s.client.maxRequests);
  }

  // ----- The loop always reaches its stop -----

  /** Bytes and sends still to be moved, weighted by how far they have to go. */
  function Work(s: State): int {
    4 * REQUEST_SIZE * (s.client.qdepth + s.client.maxRequests - 1 - s.client.sent)
    + 3 * |s.toServer| + 2 * |s.server| + |s.toClient|
  }

  predicate Progresses(s: State, a: Action) {
    match a
    case Send => true
    case ServerRead(wanted) => wanted > 0 && s.toServer != []
    case ClientRead(wanted) => wanted > 0 && s.toClient != []
    case _ => false
  }

  lemma WorkDecreases(s: State, a: Action)
    requires Inv(s) && Enabled(s, a)
    ensures Work(Apply(s, a)) <= Work(s)
    ensures Progresses(s, a) ==> Work(Apply(s, a)) < Work(s)
  {
    match a
    case ServerRead(wanted) => ServerReadWorks(s, wanted);
    case ClientRead(wanted) => ClientReadWorks(s, wanted);
    case Send => SendWorks(s);
    case _ =>
  }

  lemma SendWorks(s: State)
    requires Inv(s) && Enabled(s, Send)
    ensures Work(Apply(s, Send)) < Work(s)
  {
    assert |Apply(s, Send).toServer| == |s.toServer| + REQUEST_SIZE;
  }

  lemma ServerReadWorks(s: State, wanted: nat)
    requires Inv(s) && Enabled(s, ServerRead(wanted))
    ensures Work(Apply(s, ServerRead(wanted))) + Min(wanted, Min(1, |s.toServer|)) <= Work(s)
  {
    ReadWeighs(s.server, s.toServer, wanted);
  }

  /** A byte costs 3 on the wire, 2 in the partial buffer, 1 once its frame is whole. */
  lemma ReadWeighs(pending: seq<Byte>, wire: seq<Byte>, wanted: nat)
    requires |pending| < REQUEST_SIZE
    ensures var k := Taken(pending, wire, wanted, REQUEST_SIZE);
            var p := Feed(Progress(pending, []), wire[..k], REQUEST_SIZE);
            && k >= Min(wanted, Min(1, |wire|))
            && |Concat(p.delivered)| + 2 * |p.pending| <= 2 * |pending| + 2 * k
  {
    var k := Taken(pending, wire, wanted, REQUEST_SIZE);
    ReadMoves(pending, wire, wanted);
    assert |pending + wire[..k]| == |pending| + k;
  }

  lemma ClientReadWorks(s: State, wanted: nat)
    requires Inv(s) && Enabled(s, ClientRead(wanted))
    ensures Work(Apply(s, ClientRead(wanted))) + Min(wanted, Min(1, |s.toClient|)) <= Work(s)
  {
    var k := Taken(s.reasm, s.toClient, wanted, REQUEST_SIZE);
    var p := Feed(Progress(s.reasm, []), s.toClient[..k], REQUEST_SIZE);
    var t := s.(toClient := s.toClient[k..], reasm := p.pending);
    if p.delivered != [] {
      DeliverWorks(t, p.delivered[0]);
    }
  }

  /** Handling a response moves no bytes and sends nothing yet. */
  lemma DeliverWorks(t: State, frame: seq<Byte>)
    ensures Work(Deliver(t, frame)) == Work(t)
  {
  }

  lemma WorkNonNegative(s: State)
    requires Counts(s) && Configured(s.client)
    ensures Work(s) >= 0
  {
    WindowHolds(s);
  }

  function ProgressSteps(s: State, run: seq<Action>): nat
    requires ValidRun(s, run)
    decreases |run|
  {
    if run == [] then 0 else (if Progresses(s, run[0]) then 1 else 0) + ProgressSteps(Apply(s, run[0]), run[1..])
  }

  /** Every run makes at most `Work` steps of progress, whatever the sizes of the reads. */
  lemma {:induction false} ProgressIsBounded(s: State, run: seq<Action>)
    requires Inv(s) && ValidRun(s, run)
    ensures ProgressSteps(s, run) <= Work(s) - Work(Final(s, run)) <= Work(s)
    decreases |run|
  {
    if run == [] {
      WorkNonNegative(s);
    } else {
      WorkDecreases(s, run[0]);
      StepKeeps(s, run[0]);
      ProgressIsBounded(Apply(s, run[0]), run[1..]);
    }
  }

  /** After the connection, with a positive depth, either some step makes progress or the loop has been stopped. */
  lemma NeverStuck(s: State)
    requires Reachable(s) && s.started && s.client.qdepth >= 1
    ensures s.client.stops == 1 <==> forall a :: Enabled(s, a) ==> !Progresses(s, a)
  {
    ReachableInv(s);
    if s.client.stops == 1 {
      StoppedOnce(s);
    }
    if forall a :: Enabled(s, a) ==> !Progresses(s, a) {
      assert Progresses(s, Send) && !Enabled(s, Send);
      assert Enabled(s, ServerRead(1)) && !Progresses(s, ServerRead(1));
      assert Enabled(s, ClientRead(1)) && !Progresses(s, ClientRead(1));
      RequestBytesLength(s.echoed + 1, s.client.sent - s.echoed);
      RequestBytesLength(s.client.completed + 1, s.echoed - s.client.completed);
      assert s.server + s.toServer == s.server && s.reasm + s.toClient == s.reasm;
    }
  }

  // ----- The server's code -----

  /** What the server writes back is what it consumed, cut to whole frames; the rest waits in its partial buffer. */
  lemma EchoIsTruncation(p: Progress, stream: seq<Byte>, wants: seq<nat>)
    requires |p.pending| < REQUEST_SIZE
    ensures var (q, used) := Drive(p, stream, wants, REQUEST_SIZE);
            && used <= |stream| && p.delivered <= q.delivered && |q.pending| < REQUEST_SIZE
            && Concat(q.delivered[|p.delivered|..]) + q.pending == p.pending + stream[..used]
            && forall f :: f in q.delivered[|p.delivered|..] ==> |f| == REQUEST_SIZE
  {
    ChunkingIndependence(p, stream, wants, REQUEST_SIZE);
    var (q, used) := Drive(p, stream, wants, REQUEST_SIZE);
    CutAndRest(p.pending + stream[..used], REQUEST_SIZE);
    CutCounts(p.pending + stream[..used], REQUEST_SIZE);
    CutLengths(p.pending + stream[..used], REQUEST_SIZE);
    assert q.delivered[|p.delivered|..] == Cut(p.pending + stream[..used], REQUEST_SIZE);
  }

  /** The echo server's connection: a `ReadCallback` whose callback writes each frame back verbatim. */
  class EchoServer {
    const rcb: ReadCallback
    var socket: seq<Byte>

    constructor ()
      ensures rcb.Valid() && rcb.View() == Progress([], []) && rcb.reqSize == REQUEST_SIZE && socket == []
      ensures fresh(rcb) && rcb.rawBuf == null
    {
      rcb := new ReadCallback(REQUEST_SIZE);
      socket := [];
    }

    /** Lines 59-68 of the server. */
    method ReadDataAvailable(buffer: array<Byte>)
      modifies this
      ensures socket == old(socket) + buffer[..]
    {
      socket := socket + buffer[..];
    }

    /** One read; a frame that it completes is written back at once. */
    method ServeOne(arrived: seq<Byte>, wanted: nat) returns (k: nat)
      requires rcb.Valid() && rcb.reqSize == REQUEST_SIZE
      modifies this, rcb, rcb.rawBuf
      ensures rcb.Valid() && k == Taken(old(rcb.View()).pending, arrived, wanted, REQUEST_SIZE)
      ensures rcb.View() == Feed(old(rcb.View()), arrived[..k], REQUEST_SIZE)
      ensures rcb.rawBuf == null || rcb.rawBuf == old(rcb.rawBuf) || fresh(rcb.rawBuf)
      ensures WroteBack(old(rcb.contents), rcb.contents, old(socket), socket)
    {
      ghost var before := rcb.contents;
      var first := |rcb.delivered|;
      k := rcb.Receive(arrived, wanted);
      if first < |rcb.delivered| {
        assert rcb.contents[|before|..] == [rcb.contents[first]];
        assert Concat([rcb.contents[first]]) == rcb.contents[first] + [];
        ReadDataAvailable(rcb.delivered[first]);
      } else {
        assert rcb.contents[|before|..] == [];
      }
    }

    /** Reads of any size: what is written back is exactly the frames they complete, in order. */
    method Serve(arrived: seq<Byte>, wants: seq<nat>) returns (used: nat)
      requires rcb.Valid() && rcb.reqSize == REQUEST_SIZE
      modifies this, rcb, rcb.rawBuf
      ensures rcb.Valid() && (rcb.View(), used) == Drive(old(rcb.View()), arrived, wants, REQUEST_SIZE)
      ensures WroteBack(old(rcb.contents), rcb.contents, old(socket), socket)
      decreases |wants|
    {
      if wants == [] {
        used := 0;
        NothingWritten(rcb.contents, socket);
      } else {
        ghost var p := rcb.View();
        var k := ServeOne(arrived, wants[0]);
        ghost var mid, wrote := rcb.contents, socket;
        var more := Serve(arrived[k..], wants[1..]);
        used := k + more;
        DriveStep(p, arrived, wants, REQUEST_SIZE, k, rcb.View(), more);
        WroteBackTwice(old(rcb.contents), mid, rcb.contents, old(socket), wrote, socket);
      }
    }
  }

  /** What was written since `was` is the frames delivered since `before`, back to back. */
  ghost predicate WroteBack(before: seq<seq<Byte>>, after: seq<seq<Byte>>, was: seq<Byte>, now: seq<Byte>) {
    before <= after && now == was + Concat(after[|before|..])
  }

  lemma NothingWritten(contents: seq<seq<Byte>>, socket: seq<Byte>)
    ensures WroteBack(contents, contents, socket, socket)
  {
    assert contents[|contents|..] == [];
  }

  lemma WroteBackTwice(before: seq<seq<Byte>>, mid: seq<seq<Byte>>, after: seq<seq<Byte>>, was: seq<Byte>, wrote: seq<Byte>, now: seq<Byte>)
    requires WroteBack(before, mid, was, wrote) && WroteBack(mid, after, wrote, now)
    ensures WroteBack(before, after, was, now)
  {
    assert after[|before|..] == mid[|before|..] + after[|mid|..];
    ConcatSplit(mid[|before|..], after[|mid|..]);
    ConcatAssociates(was, Concat(mid[|before|..]), Concat(after[|mid|..]));
  }

  lemma {:induction false} ConcatSplit(a: seq<seq<Byte>>, b: seq<seq<Byte>>)
    ensures Concat(a + b) == Concat(a) + Concat(b)
  {
    if a == [] {
      assert a + b == b;
    } else {
      assert (a + b)[1..] == a[1..] + b;
      ConcatSplit(a[1..], b);
      ConcatAssociates(a[0], Concat(a[1..]), Concat(b));
    }
  }
}
