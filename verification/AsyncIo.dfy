/**
 The Linux-AIO completion engine as a machine of atomic steps: any number of submitter
 threads, the kernel, and the one reaper thread that runs `iosCompleted`. Every `assert` of
 the original is a test that sets `aborted`, so "no assert ever fires" is a theorem about
 reachable states and not an assumption. Identities stand for `IO` objects; an object whose
 owner has destroyed it is `freed`, and touching it afterwards also sets `aborted`.
 */
module AsyncIo {
  import opened Common

  type IoId = nat

  type Word = n: nat | n < 0x1_0000_0000_0000_0000

  /** A kernel completion record (`struct io_event`); `data` is the `IO*` stored at submission. */
  datatype Event = Event(data: IoId, res: Word, res2: Word)

  /** One `IO`: its result field, its promise (the `unique_ptr<IO>` it was fulfilled with), its future. */
  datatype Io = Io(result: Option<int>, promise: Option<IoId>, futureTaken: bool, consumed: bool, freed: bool)

  /** The reaper's position inside `iosCompleted`; `Idle` is outside the call. */
  datatype Reaper =
    | Idle
    | Reading
    | Claimed(nevents: nat)
    | Batch(events: seq<Event>)
    | Holding(ev: Event, ioup: IoId, rest: seq<Event>)
    | ResultSet(ev: Event, ioup: IoId, rest: seq<Event>)

  /** The promise of `owner` was set, to the object `value`, whose result field then held `result`. */
  datatype Fulfilment = Fulfilment(owner: IoId, value: IoId, result: int)

  datatype State = State(
    aborted: bool,
    ios: map<IoId, Io>,
    inflight: seq<IoId>,
    pushed: set<IoId>,
    rejected: set<IoId>,
    kernel: set<IoId>,
    ring: seq<Event>,
    unsignalled: set<IoId>,
    counter: nat,
    reaper: Reaper,
    completed: seq<Event>,
    log: seq<Fulfilment>
  )

  datatype Action =
    | Push(id: IoId)
    | Submit(id: IoId)
    | Reject(id: IoId)
    | GetFuture(id: IoId)
    | Consume(id: IoId)
    | Complete(id: IoId, res: Word, res2: Word)
    | Signal(id: IoId)
    | Wake
    | Read
    | GetEvents
    | Remove
    | SetResult
    | Fulfil

  const NEW_IO := Io(None, None, false, false, false)
  const INIT := State(false, map[], [], {}, {}, {}, [], {}, 0, Idle, [], [])

  // ----- The code of one event -----

  /** Bitwise or. */
  function Or(a: nat, b: nat): nat {
    if a == 0 && b == 0 then 0 else Max(a % 2, b % 2) + 2 * Or(a / 2, b / 2)
  }

  /** A 64-bit word read as a signed number; only the low 64 bits of `w` count. */
  function Signed64(w: nat): int {
    var b := w % TWO_64;
    if b >= TWO_63 then b - TWO_64 else b
  }

  function IoResult(e: Event): int {
    Signed64(Or(e.res2 * TWO_32 % TWO_64, e.res))
  }

  /** `find_if`: the first position holding `id`, or the length when there is none. */
  function FirstIndex(s: seq<IoId>, id: IoId): (i: nat)
    ensures i <= |s|
    ensures i < |s| ==> s[i] == id
    ensures i == |s| <==> id !in s
    ensures id !in s[..i]
  {
    if s == [] then 0 else if s[0] == id then 0 else
    var k := FirstIndex(s[1..], id);
    assert s[..k + 1] == [s[0]] + s[1..][..k];
    1 + k
  }

  /** Swap position `i` with the back when there are two or more, then pop the back. */
  function SwapPop(s: seq<IoId>, i: nat): seq<IoId>
    requires i < |s|
  {
    var t := if |s| >= 2 then s[i := s[|s| - 1]][|s| - 1 := s[i]] else s;
    t[..|s| - 1]
  }

  function Popped(s: seq<IoId>, i: nat): IoId
    requires i < |s|
  {
    var t := if |s| >= 2 then s[i := s[|s| - 1]][|s| - 1 := s[i]] else s;
    t[|s| - 1]
  }

  // ----- Steps -----

  predicate Enabled(s: State, a: Action) {
    !s.aborted &&
    match a
    case Push(id) => id !in s.ios
    case Submit(id) => id in s.pushed
    case Reject(id) => id in s.pushed
    case GetFuture(id) => id in s.ios && id !in s.pushed && !s.ios[id].futureTaken
    case Consume(id) => id in s.ios && s.ios[id].futureTaken && s.ios[id].promise.Some? && !s.ios[id].consumed
    case Complete(id, _, _) => id in s.kernel
    case Signal(id) => id in s.unsignalled
    case Wake => s.reaper.Idle? && s.counter > 0
    case Read => s.reaper.Reading?
    case GetEvents => s.reaper.Claimed? && s.reaper.nevents <= |s.ring|
    case Remove => s.reaper.Batch? && s.reaper.events != []
    case SetResult => s.reaper.Holding?
    case Fulfil => s.reaper.ResultSet?
  }

  predicate Alive(s: State, id: IoId) {
    id in s.ios && !s.ios[id].freed
  }

  function AfterEvent(rest: seq<Event>): Reaper {
    if rest == [] then Reading else Batch(rest)
  }

  function Apply(s: State, a: Action): State
    requires Enabled(s, a)
  {
    match a
    case Push(id) =>
      s.(ios := s.ios[id := NEW_IO], inflight := s.inflight + [id], pushed := s.pushed + {id})
    case Submit(id) =>
      s.(pushed := s.pushed - {id}, kernel := s.kernel + {id}, aborted := !Alive(s, id))
    case Reject(id) =>
      s.(pushed := s.pushed - {id}, rejected := s.rejected + {id}, aborted := !Alive(s, id))
    case GetFuture(id) =>
      s.(ios := s.ios[id := s.ios[id].(futureTaken := true)], aborted := !Alive(s, id))
    case Consume(id) => ApplyConsume(s, id)
    case Complete(id, res, res2) =>
      var ev := Event(id, res, res2);
      s.(kernel := s.kernel - {id}, ring := s.ring + [ev], completed := s.completed + [ev],
         unsignalled := s.unsignalled + {id}, aborted := !Alive(s, id))
    case Signal(id) =>
      s.(unsignalled := s.unsignalled - {id}, counter := s.counter + 1)
    case Wake => s.(reaper := Reading)
    case Read =>
      if s.counter == 0 then s.(reaper := Idle) else s.(reaper := Claimed(s.counter), counter := 0)
    case GetEvents =>
      s.(reaper := Batch(s.ring[..s.reaper.nevents]), ring := s.ring[s.reaper.nevents..])
    case Remove => ApplyRemove(s)
    case SetResult => ApplySetResult(s)
    case Fulfil => ApplyFulfil(s)
  }

  /** The continuation receives the `unique_ptr` the promise was set to and drops it at its end. */
  function ApplyConsume(s: State, id: IoId): State
    requires Enabled(s, Consume(id))
  {
    var v := s.ios[id].promise.value;
    if !Alive(s, v) then s.(aborted := true) else
    var ios := s.ios[id := s.ios[id].(consumed := true)];
    s.(ios := ios[v := ios[v].(freed := true)])
  }

  function ApplyRemove(s: State): State
    requires Enabled(s, Remove)
  {
    var ev := s.reaper.events[0];
    var i := FirstIndex(s.inflight, ev.data);
    if i == |s.inflight| then s.(aborted := true) else
    var ioup := Popped(s.inflight, i);
    s.(inflight := SwapPop(s.inflight, i), reaper := Holding(ev, ioup, s.reaper.events[1..]),
       aborted := ioup != ev.data)
  }

  function ApplySetResult(s: State): State
    requires Enabled(s, SetResult)
  {
    var Holding(ev, ioup, rest) := s.reaper;
    var iop := ev.data;
    if !Alive(s, iop) || s.ios[iop].promise.Some? then s.(aborted := true) else
    s.(ios := s.ios[iop := s.ios[iop].(result := Some(IoResult(ev)))], reaper := ResultSet(ev, ioup, rest))
  }

  function ApplyFulfil(s: State): State
    requires Enabled(s, Fulfil)
  {
    var ResultSet(ev, ioup, rest) := s.reaper;
    var iop := ev.data;
    if !Alive(s, iop) || s.ios[iop].promise.Some? || iop != ioup || s.ios[iop].result.None? then s.(aborted := true) else
    s.(ios := s.ios[iop := s.ios[iop].(promise := Some(ioup))], reaper := AfterEvent(rest),
       log := s.log + [Fulfilment(iop, ioup, s.ios[iop].result.value)])
  }

  // ----- Runs -----

  predicate ValidRun(s: State, run: seq<Action>)
    decreases |run|
  {
    run == [] || (Enabled(s, run[0]) && ValidRun(Apply(s, run[0]), run[1..]))
  }

  function Final(s: State, run: seq<Action>): State
    requires ValidRun(s, run)
    decreases |run|
  {
    if run == [] then s else Final(Apply(s, run[0]), run[1..])
  }

  ghost predicate Reachable(s: State) {
    exists run :: ValidRun(INIT, run) && s == Final(INIT, run)
  }

  // ----- The invariant -----

  function Ids(es: seq<Event>): (r: seq<IoId>)
  {
    seq(|es|, i requires 0 <= i < |es| => es[i].data)
  }

  function Outcomes(es: seq<Event>): seq<Fulfilment> {
    seq(|es|, i requires 0 <= i < |es| => Fulfilment(es[i].data, es[i].data, IoResult(es[i])))
  }

  /** Reaped events whose IO is still in `inflight`. */
  function Unprocessed(r: Reaper): seq<Event> {
    match r
    case Batch(events) => events
    case Holding(_, _, rest) => rest
    case ResultSet(_, _, rest) => rest
    case _ => []
  }

  /** The event whose IO has left `inflight` and is about to be fulfilled. */
  function Held(r: Reaper): seq<Event> {
    if r.Holding? || r.ResultSet? then [r.ev] else []
  }

  function Claim(r: Reaper): nat {
    if r.Claimed? then r.nevents else 0
  }

  /** The five places an in-flight IO can be: it is in `inflight` for exactly one of these reasons. */
  function Accounted(s: State): multiset<IoId> {
    multiset(s.pushed) + multiset(s.rejected) + multiset(s.kernel)
    + multiset(Ids(s.ring)) + multiset(Ids(Unprocessed(s.reaper)))
  }

  ghost predicate Conserved(s: State) {
    && multiset(s.inflight) == Accounted(s)
    && |s.log| <= |s.completed|
    && multiset(s.ios.Keys)
       == Accounted(s) + multiset(Ids(Held(s.reaper))) + multiset(Ids(s.completed[..|s.log|]))
  }

  /** Events flow through ring, batch and hands in completion order, and every one is fulfilled as it was posted. */
  ghost predicate Ordered(s: State) {
    && |s.log| <= |s.completed|
    && s.log == Outcomes(s.completed[..|s.log|])
    && s.completed[|s.log|..] == Held(s.reaper) + Unprocessed(s.reaper) + s.ring
  }

  ghost predicate Counted(s: State) {
    && |s.ring| == s.counter + Claim(s.reaper) + |s.unsignalled|
    && (forall id :: id in s.unsignalled ==> id in Ids(s.completed))
    && (s.reaper.Claimed? ==> s.reaper.nevents > 0)
    && (s.reaper.Batch? ==> s.reaper.events != [])
  }

  ghost predicate Owned(s: State) {
    && (forall id :: id in s.inflight ==> Alive(s, id) && s.ios[id].promise.None? && !s.ios[id].consumed)
    && (forall id :: id in s.pushed ==> id in s.ios && !s.ios[id].futureTaken)
    && (s.reaper.Holding? || s.reaper.ResultSet? ==>
          && s.reaper.ioup == s.reaper.ev.data
          && Alive(s, s.reaper.ioup) && s.ios[s.reaper.ioup].promise.None? && !s.ios[s.reaper.ioup].consumed)
    && (s.reaper.ResultSet? ==> s.ios[s.reaper.ev.data].result == Some(IoResult(s.reaper.ev)))
    && (forall f :: f in s.log ==>
          f.owner in s.ios && s.ios[f.owner].promise == Some(f.owner) && s.ios[f.owner].result == Some(f.result))
    && (forall id :: id in s.ios ==> (s.ios[id].freed <==> s.ios[id].consumed))
    && (forall id :: id in s.ios && s.ios[id].consumed ==> s.ios[id].futureTaken && s.ios[id].promise.Some?)
  }

  ghost predicate Inv(s: State) {
    !s.aborted && Conserved(s) && Ordered(s) && Counted(s) && Owned(s)
  }

  // ----- Facts about the pieces -----

  lemma IdsConcat(a: seq<Event>, b: seq<Event>)
    ensures Ids(a + b) == Ids(a) + Ids(b)
    ensures multiset(Ids(a + b)) == multiset(Ids(a)) + multiset(Ids(b))
  {
    assert Ids(a + b) == Ids(a) + Ids(b);
  }

  lemma OutcomesAppend(es: seq<Event>, e: Event)
    ensures Outcomes(es + [e]) == Outcomes(es) + [Fulfilment(e.data, e.data, IoResult(e))]
  {
  }

  /** The swap-and-pop hands out the found element; the last takes its place and every other keeps its own. */
  lemma SwapPopTakes(s: seq<IoId>, i: nat)
    requires i < |s|
    ensures Popped(s, i) == s[i]
    ensures multiset(SwapPop(s, i)) + multiset{s[i]} == multiset(s)
    ensures |SwapPop(s, i)| == |s| - 1
    ensures forall j :: 0 <= j < |s| - 1 ==> SwapPop(s, i)[j] == if j == i then s[|s| - 1] else s[j]
  {
    var t := if |s| >= 2 then s[i := s[|s| - 1]][|s| - 1 := s[i]] else s;
    assert t == t[..|s| - 1] + [t[|s| - 1]];
    assert multiset(t) == multiset(s);
  }

  // ----- Every step keeps the invariant -----

  /** No IO is in two places, and each place holds it once. */
  lemma PlacedOnce(s: State, id: IoId)
    requires Conserved(s)
    ensures Accounted(s)[id] + multiset(Ids(Held(s.reaper)))[id] + multiset(Ids(s.completed[..|s.log|]))[id] <= 1
  {
    assert multiset(s.ios.Keys)[id] <= 1;
  }

  lemma PushConserves(s: State, id: IoId)
    requires Conserved(s) && Enabled(s, Push(id))
    ensures Conserved(Apply(s, Push(id)))
  {
    var t := Apply(s, Push(id));
    assert id !in s.pushed by {
      assert id !in multiset(s.ios.Keys);
      assert id !in Accounted(s);
    }
    assert multiset(t.ios.Keys) == multiset(s.ios.Keys) + multiset{id};
    assert Accounted(t) == Accounted(s) + multiset{id};
  }

  lemma SubmitConserves(s: State, id: IoId, accepted: bool)
    requires Conserved(s) && Enabled(s, Submit(id))
    ensures Conserved(Apply(s, if accepted then Submit(id) else Reject(id)))
  {
    var t := Apply(s, if accepted then Submit(id) else Reject(id));
    PlacedOnce(s, id);
    assert multiset(s.pushed)[id] == 1;
    assert id !in s.kernel && id !in s.rejected;
    assert Accounted(t) == Accounted(s);
  }

  lemma CompleteConserves(s: State, id: IoId, res: Word, res2: Word)
    requires Conserved(s) && Enabled(s, Complete(id, res, res2))
    ensures Conserved(Apply(s, Complete(id, res, res2)))
  {
    var t := Apply(s, Complete(id, res, res2));
    var ev := Event(id, res, res2);
    IdsConcat(s.ring, [ev]);
    assert Ids([ev]) == [id];
    assert multiset(s.kernel) == multiset(t.kernel) + multiset{id};
    assert Accounted(t) == Accounted(s);
    assert t.completed[..|t.log|] == s.completed[..|s.log|];
  }

  lemma GetEventsConserves(s: State)
    requires Conserved(s) && Enabled(s, GetEvents)
    ensures Conserved(Apply(s, GetEvents))
  {
    var t := Apply(s, GetEvents);
    assert s.ring == t.reaper.events + t.ring;
    IdsConcat(t.reaper.events, t.ring);
    assert Accounted(t) == Accounted(s);
  }

  /** The lookup at the head of the batch succeeds, and what is popped is the IO that was looked up. */
  lemma RemoveFinds(s: State)
    requires Conserved(s) && Enabled(s, Remove)
    ensures s.reaper.events[0].data in s.inflight
    ensures var t := Apply(s, Remove); !t.aborted && t.reaper.ioup == t.reaper.ev.data
  {
    var ev := s.reaper.events[0];
    assert Ids(s.reaper.events)[0] == ev.data;
    assert ev.data in multiset(Ids(s.reaper.events));
    assert ev.data in Accounted(s);
    assert ev.data in multiset(s.inflight);
    SwapPopTakes(s.inflight, FirstIndex(s.inflight, ev.data));
  }

  /** `t` is `s` after the head of the batch moved into the reaper's hands, leaving `rest` in flight. */
  ghost predicate TookHead(s: State, t: State) {
    && s.reaper.Batch? && s.reaper.events != []
    && t == s.(inflight := t.inflight, reaper := Holding(s.reaper.events[0], s.reaper.events[0].data, s.reaper.events[1..]))
    && multiset(t.inflight) + multiset{s.reaper.events[0].data} == multiset(s.inflight)
  }

  lemma RemoveTakesHead(s: State)
    requires Conserved(s) && Enabled(s, Remove)
    ensures TookHead(s, Apply(s, Remove))
  {
    RemoveFinds(s);
    SwapPopTakes(s.inflight, FirstIndex(s.inflight, s.reaper.events[0].data));
  }

  lemma RemoveConserves(s: State, t: State)
    requires Conserved(s) && TookHead(s, t)
    ensures Conserved(t)
  {
    var ev, rest := s.reaper.events[0], s.reaper.events[1..];
    assert s.reaper.events == [ev] + rest;
    IdsConcat([ev], rest);
    assert Ids([ev]) == [ev.data];
    assert Accounted(s) == Accounted(t) + multiset{ev.data};
    CancelMultiset(multiset(t.inflight), Accounted(t), multiset{ev.data});
  }

  lemma FulfilConserves(s: State)
    requires Conserved(s) && Ordered(s) && Enabled(s, Fulfil) && !Apply(s, Fulfil).aborted
    ensures Conserved(Apply(s, Fulfil))
  {
    var t := Apply(s, Fulfil);
    var ev := s.reaper.ev;
    assert s.completed[|s.log|..][0] == ev;
    assert s.completed[..|t.log|] == s.completed[..|s.log|] + [ev];
    IdsConcat(s.completed[..|s.log|], [ev]);
    assert t.ios.Keys == s.ios.Keys;
    assert Accounted(t) == Accounted(s);
  }

  /** The IO in the reaper's hands is in no other place. */
  lemma HeldIsAlone(s: State)
    requires Conserved(s) && Held(s.reaper) != []
    ensures s.reaper.ev.data !in s.inflight && s.reaper.ev.data !in Ids(s.completed[..|s.log|])
  {
    var id := s.reaper.ev.data;
    assert Ids(Held(s.reaper)) == [id];
    PlacedOnce(s, id);
    assert id !in multiset(s.inflight);
    assert id !in multiset(Ids(s.completed[..|s.log|]));
  }

  lemma StepConserves(s: State, a: Action)
    requires Inv(s) && Enabled(s, a) && !Apply(s, a).aborted
    ensures Conserved(Apply(s, a))
  {
    match a
    case Push(id) => PushConserves(s, id);
    case Submit(id) => SubmitConserves(s, id, true);
    case Reject(id) => SubmitConserves(s, id, false);
    case Complete(id, res, res2) => CompleteConserves(s, id, res, res2);
    case GetEvents => GetEventsConserves(s);
    case Remove => RemoveTakesHead(s); RemoveConserves(s, Apply(s, Remove));
    case Fulfil => FulfilConserves(s);
    case _ => assert Quiet(s, Apply(s, a)); QuietConserves(s, Apply(s, a));
  }

  /** A step that moves no IO. */
  ghost predicate Quiet(s: State, t: State) {
    && t.ios.Keys == s.ios.Keys && t.inflight == s.inflight
    && t.pushed == s.pushed && t.rejected == s.rejected && t.kernel == s.kernel && t.ring == s.ring
    && t.completed == s.completed && t.log == s.log
    && Held(t.reaper) == Held(s.reaper) && Unprocessed(t.reaper) == Unprocessed(s.reaper)
  }

  lemma QuietConserves(s: State, t: State)
    requires Conserved(s) && Quiet(s, t)
    ensures Conserved(t)
  {
    assert Accounted(t) == Accounted(s);
  }

  lemma StepOrders(s: State, a: Action)
    requires Inv(s) && Enabled(s, a) && !Apply(s, a).aborted
    ensures Ordered(Apply(s, a))
  {
    match a
    case Complete(id, res, res2) => CompleteOrders(s, id, res, res2);
    case GetEvents => assert s.ring == Apply(s, a).reaper.events + Apply(s, a).ring;
    case Remove => RemoveTakesHead(s); RemoveOrders(s, Apply(s, a));
    case Fulfil => FulfilOrders(s);
    case _ =>
  }

  lemma CompleteOrders(s: State, id: IoId, res: Word, res2: Word)
    requires Ordered(s) && Enabled(s, Complete(id, res, res2))
    ensures Ordered(Apply(s, Complete(id, res, res2)))
  {
    var t := Apply(s, Complete(id, res, res2));
    assert t.completed[..|t.log|] == s.completed[..|s.log|];
    assert t.completed[|t.log|..] == s.completed[|s.log|..] + [Event(id, res, res2)];
  }

  lemma RemoveOrders(s: State, t: State)
    requires Ordered(s) && TookHead(s, t)
    ensures Ordered(t)
  {
    assert s.reaper.events == [s.reaper.events[0]] + s.reaper.events[1..];
  }

  lemma FulfilOrders(s: State)
    requires Inv(s) && Enabled(s, Fulfil) && !Apply(s, Fulfil).aborted
    ensures Ordered(Apply(s, Fulfil))
  {
    var t := Apply(s, Fulfil);
    var ev := s.reaper.ev;
    assert s.completed[|s.log|..][0] == ev;
    assert s.completed[..|t.log|] == s.completed[..|s.log|] + [ev];
    OutcomesAppend(s.completed[..|s.log|], ev);
    assert t.completed[|t.log|..] == s.completed[|s.log|..][1..];
  }

  lemma CompletedSplit(s: State)
    requires Ordered(s)
    ensures multiset(Ids(s.completed)) == multiset(Ids(s.completed[..|s.log|])) + multiset(Ids(Held(s.reaper)))
            + multiset(Ids(Unprocessed(s.reaper))) + multiset(Ids(s.ring))
  {
    assert s.completed == s.completed[..|s.log|] + s.completed[|s.log|..];
    IdsConcat(s.completed[..|s.log|], s.completed[|s.log|..]);
    IdsConcat(Held(s.reaper) + Unprocessed(s.reaper), s.ring);
    IdsConcat(Held(s.reaper), Unprocessed(s.reaper));
  }

  /** An IO still with the kernel has no completion record. */
  lemma KernelNotCompleted(s: State, id: IoId)
    requires Inv(s) && id in s.kernel
    ensures id !in s.unsignalled
  {
    CompletedSplit(s);
    PlacedOnce(s, id);
    assert multiset(s.kernel)[id] == 1;
    assert id !in multiset(Ids(s.completed));
  }

  lemma StepCounts(s: State, a: Action)
    requires Inv(s) && Enabled(s, a) && !Apply(s, a).aborted
    ensures Counted(Apply(s, a))
  {
    match a
    case Complete(id, res, res2) => CompleteCounts(s, id, res, res2);
    case _ =>
  }

  lemma CompleteCounts(s: State, id: IoId, res: Word, res2: Word)
    requires Inv(s) && Enabled(s, Complete(id, res, res2))
    ensures Counted(Apply(s, Complete(id, res, res2)))
  {
    var t := Apply(s, Complete(id, res, res2));
    KernelNotCompleted(s, id);
    IdsConcat(s.completed, [Event(id, res, res2)]);
    assert Ids(t.completed)[|s.completed|] == id;
  }

  /** A promise is only ever set by the log entry of its own IO. */
  lemma FulfilledIsLogged(s: State, id: IoId)
    requires Inv(s) && id in s.ios && s.ios[id].promise.Some?
    ensures s.ios[id].promise == Some(id) && s.ios[id].result.Some?
    ensures Fulfilment(id, id, s.ios[id].result.value) in s.log
  {
    assert id in multiset(s.ios.Keys);
    assert id !in multiset(s.inflight);
    assert id !in multiset(Ids(Held(s.reaper)));
    assert id in multiset(Ids(s.completed[..|s.log|]));
    var k :| 0 <= k < |s.log| && s.completed[..|s.log|][k].data == id;
    assert s.log[k].owner == id && s.log[k] in s.log;
  }

  /** The heart of the safety argument: no assert fires and no destroyed IO is touched. */
  lemma StepSafe(s: State, a: Action)
    requires Inv(s) && Enabled(s, a)
    ensures !Apply(s, a).aborted
  {
    match a
    case Submit(id) => PendingAlive(s, id);
    case Reject(id) => PendingAlive(s, id);
    case Complete(id, _, _) => PendingAlive(s, id);
    case Consume(id) => FulfilledIsLogged(s, id);
    case Remove => RemoveFinds(s);
    case _ =>
  }

  lemma PendingAlive(s: State, id: IoId)
    requires Inv(s) && (id in s.pushed || id in s.kernel)
    ensures id in s.inflight && Alive(s, id)
  {
    assert id in Accounted(s);
    assert id in multiset(s.inflight);
  }

  lemma StepOwns(s: State, a: Action)
    requires Inv(s) && Enabled(s, a) && !Apply(s, a).aborted
    ensures Owned(Apply(s, a))
  {
    match a
    case Push(id) => PushOwns(s, id);
    case GetFuture(id) => GetFutureOwns(s, id);
    case Consume(id) => ConsumeOwns(s, id);
    case Remove => RemoveTakesHead(s); RemoveOwns(s, Apply(s, a));
    case SetResult => SetResultOwns(s);
    case Fulfil => FulfilOwns(s);
    case _ => HandsOffOwns(s, Apply(s, a));
  }

  lemma PushOwns(s: State, id: IoId)
    requires Owned(s) && Enabled(s, Push(id))
    ensures Owned(Apply(s, Push(id)))
  {
  }

  lemma HandsOffOwns(s: State, t: State)
    requires Owned(s) && t.ios == s.ios && t.inflight == s.inflight && t.pushed <= s.pushed && t.log == s.log
    requires t.reaper == s.reaper || (!t.reaper.Holding? && !t.reaper.ResultSet?)
    ensures Owned(t)
  {
  }

  lemma SetResultOwns(s: State)
    requires Inv(s) && Enabled(s, SetResult) && !Apply(s, SetResult).aborted
    ensures Owned(Apply(s, SetResult))
  {
    HeldIsAlone(s);
    LogAvoidsHeld(s);
  }

  lemma GetFutureOwns(s: State, id: IoId)
    requires Owned(s) && Enabled(s, GetFuture(id))
    ensures Owned(Apply(s, GetFuture(id)))
  {
  }

  lemma ConsumeOwns(s: State, id: IoId)
    requires Inv(s) && Enabled(s, Consume(id))
    ensures Owned(Apply(s, Consume(id)))
  {
    FulfilledIsLogged(s, id);
  }

  lemma FulfilOwns(s: State)
    requires Inv(s) && Enabled(s, Fulfil) && !Apply(s, Fulfil).aborted
    ensures Owned(Apply(s, Fulfil))
  {
    HeldIsAlone(s);
    LogAvoidsHeld(s);
  }

  lemma RemoveOwns(s: State, t: State)
    requires Inv(s) && TookHead(s, t)
    ensures Owned(t)
  {
    var id := s.reaper.events[0].data;
    assert id in multiset(s.inflight) && id in s.inflight;
    forall x | x in t.inflight
      ensures x in s.inflight
    {
      assert x in multiset(t.inflight);
      assert x in multiset(s.inflight);
    }
  }

  lemma LogAvoidsHeld(s: State)
    requires Inv(s) && Held(s.reaper) != []
    ensures forall f :: f in s.log ==> f.owner != s.reaper.ev.data
  {
    HeldIsAlone(s);
    forall f | f in s.log
      ensures f.owner in Ids(s.completed[..|s.log|])
    {
      var k :| 0 <= k < |s.log| && s.log[k] == f;
      assert Ids(s.completed[..|s.log|])[k] == f.owner;
    }
  }

  lemma StepKeeps(s: State, a: Action)
    requires Inv(s) && Enabled(s, a)
    ensures Inv(Apply(s, a))
  {
    StepSafe(s, a);
    StepConserves(s, a);
    StepOrders(s, a);
    StepCounts(s, a);
    StepOwns(s, a);
  }
}
