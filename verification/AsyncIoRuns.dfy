/** What the completion engine guarantees over whole runs, in every interleaving. */
module AsyncIoRuns {
  import opened Common
  import opened AsyncIo

  // ----- Safety -----

  lemma {:induction false} RunKeeps(s: State, run: seq<Action>)
    requires Inv(s) && ValidRun(s, run)
    ensures Inv(Final(s, run))
    decreases |run|
  {
    if run != [] {
      StepKeeps(s, run[0]);
      RunKeeps(Apply(s, run[0]), run[1..]);
    }
  }

  lemma ReachableInv(s: State)
    requires Reachable(s)
    ensures Inv(s)
  {
    var run :| ValidRun(INIT, run) && s == Final(INIT, run);
    assert multiset(INIT.ios.Keys) == multiset{};
    assert Accounted(INIT) == multiset{};
    assert Ids([]) == [];
    RunKeeps(INIT, run);
  }

  /**
   In every interleaving: no assert of the engine fires and no destroyed IO is touched; an IO is
   in `inflight_` for exactly one of five reasons; and each promise that is set was set exactly
   once, to the IO that owns it, with the result the kernel posted for that IO; and an IO is destroyed
   exactly when the continuation that received it has run.
   */
  lemma Safety(s: State)
    requires Reachable(s)
    ensures !s.aborted
    ensures multiset(s.inflight) == Accounted(s)
    ensures forall i, j :: 0 <= i < j < |s.inflight| ==> s.inflight[i] != s.inflight[j]
    ensures forall i, j :: 0 <= i < j < |s.log| ==> s.log[i].owner != s.log[j].owner
    ensures |s.log| <= |s.completed|
    ensures forall k :: 0 <= k < |s.log| ==>
              s.log[k] == Fulfilment(s.completed[k].data, s.completed[k].data, IoResult(s.completed[k]))
    ensures forall id :: id in s.ios && s.ios[id].promise.Some? ==>
              s.ios[id].promise.value == id && exists k :: 0 <= k < |s.log| && s.log[k].owner == id
    ensures forall id :: id in s.ios ==> (s.ios[id].freed <==> s.ios[id].consumed)
  {
    ReachableInv(s);
    forall i, j | 0 <= i < j < |s.inflight|
      ensures s.inflight[i] != s.inflight[j]
    {
      assert s.inflight[i] in s.inflight;
      PlacedOnce(s, s.inflight[i]);
      NoDuplicates(s.inflight, i, j);
    }
    forall i, j | 0 <= i < j < |s.log|
      ensures s.log[i].owner != s.log[j].owner
    {
      var ids := Ids(s.completed[..|s.log|]);
      PlacedOnce(s, ids[i]);
      NoDuplicates(ids, i, j);
    }
    forall id | id in s.ios && s.ios[id].promise.Some?
      ensures s.ios[id].promise.value == id && exists k :: 0 <= k < |s.log| && s.log[k].owner == id
    {
      FulfilledIsLogged(s, id);
    }
  }

  lemma NoDuplicates(q: seq<IoId>, i: nat, j: nat)
    requires i < j < |q| && multiset(q)[q[i]] <= 1
    ensures q[i] != q[j]
  {
    assert q == q[..j] + q[j..];
    assert q[..j][i] in multiset(q[..j]);
    assert q[j..][0] in multiset(q[j..]);
  }

  /** Once set, a promise keeps its value in every continuation. */
  lemma {:induction false} PromiseIsFinal(s: State, run: seq<Action>, id: IoId)
    requires Reachable(s) && ValidRun(s, run) && id in s.ios && s.ios[id].promise.Some?
    ensures id in Final(s, run).ios
    ensures Final(s, run).ios[id].promise == s.ios[id].promise && Final(s, run).ios[id].result == s.ios[id].result
  {
    ReachableInv(s);
    PromiseKept(s, run, id);
  }

  lemma {:induction false} PromiseKept(s: State, run: seq<Action>, id: IoId)
    requires Inv(s) && ValidRun(s, run) && id in s.ios && s.ios[id].promise.Some?
    ensures id in Final(s, run).ios
    ensures Final(s, run).ios[id].promise == s.ios[id].promise && Final(s, run).ios[id].result == s.ios[id].result
    decreases |run|
  {
    if run != [] {
      StepKeeps(s, run[0]);
      PromiseStep(s, run[0], id);
      PromiseKept(Apply(s, run[0]), run[1..], id);
    }
  }

  lemma PromiseStep(s: State, a: Action, id: IoId)
    requires Inv(s) && Enabled(s, a) && id in s.ios && s.ios[id].promise.Some?
    ensures id in Apply(s, a).ios
    ensures Apply(s, a).ios[id].promise == s.ios[id].promise && Apply(s, a).ios[id].result == s.ios[id].result
  {
  }

  /**
   What the code asserts, and relies on when it follows a pointer, said of the state itself: before each
   event the pointer is in `inflight_`; in the reaper's hands it is the event's own IO, alive and with its
   promise not set; and whatever a submitter or the kernel still uses is alive.
   */
  lemma AssertsHold(s: State)
    requires Reachable(s)
    ensures s.reaper.Batch? ==> s.reaper.events != [] && s.reaper.events[0].data in s.inflight
    ensures s.reaper.Holding? || s.reaper.ResultSet? ==>
              var id := s.reaper.ev.data;
              s.reaper.ioup == id && id !in s.inflight && Alive(s, id) && s.ios[id].promise.None?
    ensures s.reaper.ResultSet? ==> s.ios[s.reaper.ev.data].result == Some(IoResult(s.reaper.ev))
    ensures forall id :: id in s.pushed || id in s.kernel ==> Alive(s, id) && id in s.inflight
    ensures forall id :: id in s.ios && !s.ios[id].futureTaken ==> Alive(s, id)
  {
    ReachableInv(s);
    if s.reaper.Batch? {
      RemoveFinds(s);
    }
    if s.reaper.Holding? || s.reaper.ResultSet? {
      HeldIsAlone(s);
    }
    forall id | id in s.pushed || id in s.kernel
      ensures id in s.inflight
    {
      assert id in Accounted(s);
      assert id in multiset(s.inflight);
    }
  }

  /** When the continuation of an IO has run, that IO is destroyed, and nothing else has changed. */
  lemma ContinuationDestroys(s: State, id: IoId)
    requires Reachable(s) && Enabled(s, Consume(id))
    ensures !s.ios[id].freed && !s.ios[id].consumed
    ensures Apply(s, Consume(id)) == s.(ios := s.ios[id := s.ios[id].(consumed := true, freed := true)])
  {
    ReachableInv(s);
    FulfilledIsLogged(s, id);
  }

  // ----- The completion ring covers every claim -----

  /**
   Whatever lands between `eventfd_read` and `io_getevents`, the ring holds at least the events
   already claimed plus those still counted, so asking for exactly `nevents` returns at once
   with exactly `nevents`.
   */
  lemma GetEventsNeverWaits(s: State)
    requires Reachable(s)
    ensures |s.ring| >= s.counter + Claim(s.reaper)
    ensures s.reaper.Claimed? ==>
              Enabled(s, GetEvents) && |Apply(s, GetEvents).reaper.events| == s.reaper.nevents > 0
    ensures s.reaper.Reading? && s.counter > 0 ==>
              Enabled(s, Read) && Apply(s, Read) == s.(counter := 0, reaper := Claimed(s.counter))
  {
    ReachableInv(s);
  }

  /** IOs whose completion the kernel has both posted and signalled. */
  function Signalled(s: State): set<IoId> {
    Elements(Ids(s.completed)) - s.unsignalled
  }

  function Fulfilled(s: State): set<IoId> {
    set f | f in s.log :: f.owner
  }

  /** Signals were raised in the order the completions were posted. */
  ghost predicate SignalsInOrder(s: State) {
    ClosedTowardsEnd(Ids(s.completed), s.unsignalled)
  }

  // Facts about a sequence without duplicates, and the set of its elements.

  ghost predicate Distinct(q: seq<IoId>) {
    forall i, j :: 0 <= i < j < |q| ==> q[i] != q[j]
  }

  ghost predicate ClosedTowardsEnd(q: seq<IoId>, left: set<IoId>) {
    forall i, j :: 0 <= i < j < |q| && q[i] in left ==> q[j] in left
  }

  function Elements(q: seq<IoId>): set<IoId> {
    set id | id in q
  }

  lemma {:induction false} SizeOfElements(q: seq<IoId>)
    requires Distinct(q)
    ensures |Elements(q)| == |q|
  {
    if q == [] {
      assert Elements(q) == {};
    } else {
      var init, last := q[..|q| - 1], q[|q| - 1];
      SizeOfElements(init);
      assert q == init + [last];
      assert Elements(q) == Elements(init) + {last};
    }
  }

  /** A set of `n` elements lies within the first `n` exactly when what is left out is closed towards the end. */
  lemma PrefixIffOrdered(q: seq<IoId>, left: set<IoId>)
    requires Distinct(q) && left <= Elements(q) && |left| <= |q|
    ensures Elements(q) - left <= Elements(q[..|q| - |left|])
            <==> ClosedTowardsEnd(q, left)
  {
    var n := |q| - |left|;
    SizeOfElements(q);
    SizeOfElements(q[..n]);
    assert |Elements(q) - left| == n;
    if Elements(q) - left <= Elements(q[..n]) {
      SubsetOfSameSize(Elements(q) - left, Elements(q[..n]));
      forall i, j | 0 <= i < j < |q| && q[i] in left
        ensures q[j] in left
      {
        assert q[i] !in Elements(q[..n]);
        assert q[j] !in Elements(q[..n]);
        assert q[j] in Elements(q);
      }
    }
    if ClosedTowardsEnd(q, left) {
      forall id | id in Elements(q) - left
        ensures id in Elements(q[..n])
      {
        var k :| 0 <= k < |q| && q[k] == id;
        EarlyEnough(q, left, k);
        assert q[..n][k] == id;
      }
    }
  }

  lemma EarlyEnough(q: seq<IoId>, left: set<IoId>, k: nat)
    requires Distinct(q) && k < |q| && q[k] !in left
    requires ClosedTowardsEnd(q, left)
    requires left <= Elements(q)
    ensures k < |q| - |left|
  {
    var rest := q[k + 1..];
    SizeOfElements(rest);
    forall id | id in left
      ensures id in Elements(rest)
    {
      var i :| 0 <= i < |q| && q[i] == id;
      assert i > k;
      assert rest[i - k - 1] == id;
    }
    SubsetSize(left, Elements(rest));
  }

  lemma DistinctCompletions(s: State)
    requires Inv(s)
    ensures Distinct(Ids(s.completed))
  {
    var ids := Ids(s.completed);
    CompletedSplit(s);
    forall i, j | 0 <= i < j < |ids|
      ensures ids[i] != ids[j]
    {
      PlacedOnce(s, ids[i]);
      NoDuplicates(ids, i, j);
    }
  }

  lemma FulfilledArePrefix(s: State)
    requires Inv(s)
    ensures Fulfilled(s) == Elements(Ids(s.completed[..|s.log|]))
  {
    var ids := Ids(s.completed[..|s.log|]);
    forall id | id in ids
      ensures id in Fulfilled(s)
    {
      var k :| 0 <= k < |s.log| && ids[k] == id;
      assert s.log[k] in s.log;
    }
    forall f | f in s.log
      ensures f.owner in ids
    {
      var k :| 0 <= k < |s.log| && s.log[k] == f;
      assert ids[k] == f.owner;
    }
  }

  /**
   When the drain loop reads EAGAIN it has fulfilled exactly as many IOs as were signalled, namely
   the oldest ones in the ring's order. They are the signalled IOs themselves exactly when the
   signals came in posting order.
   */
  lemma DrainExit(s: State)
    requires Reachable(s) && s.reaper.Reading? && s.counter == 0
    ensures |s.log| == |Signalled(s)| <= |s.completed|
    ensures Fulfilled(s) == Elements(Ids(s.completed[..|s.log|]))
    ensures Signalled(s) <= Fulfilled(s) <==> SignalsInOrder(s)
  {
    ReachableInv(s);
    FulfilledArePrefix(s);
    DrainCount(s);
    DistinctCompletions(s);
    var ids := Ids(s.completed);
    assert Ids(s.completed[..|s.log|]) == ids[..|s.log|];
    PrefixIffOrdered(ids, s.unsignalled);
  }

  lemma DrainCount(s: State)
    requires Inv(s) && s.reaper.Reading? && s.counter == 0
    ensures s.unsignalled <= Elements(Ids(s.completed))
    ensures |s.log| == |Signalled(s)| == |s.completed| - |s.unsignalled|
  {
    var all := Elements(Ids(s.completed));
    DistinctCompletions(s);
    SizeOfElements(Ids(s.completed));
    assert |all - s.unsignalled| == |all| - |s.unsignalled|;
    assert s.completed[|s.log|..] == s.ring;
  }

  lemma ReachableStep(s: State, a: Action)
    requires Reachable(s) && Enabled(s, a)
    ensures Reachable(Apply(s, a))
  {
    var run :| ValidRun(INIT, run) && s == Final(INIT, run);
    Extend(INIT, run, a);
  }

  lemma {:induction false} Extend(s: State, run: seq<Action>, a: Action)
    requires ValidRun(s, run) && Enabled(Final(s, run), a)
    ensures ValidRun(s, run + [a]) && Final(s, run + [a]) == Apply(Final(s, run), a)
    decreases |run|
  {
    if run == [] {
      assert [a][1..] == [];
      assert run + [a] == [a];
    } else {
      assert (run + [a])[1..] == run[1..] + [a];
      Extend(Apply(s, run[0]), run[1..], a);
    }
  }

  lemma ReachableInit()
    ensures Reachable(INIT)
  {
    assert ValidRun(INIT, []) && INIT == Final(INIT, []);
  }

  lemma Then(s: State, a: Action) returns (t: State)
    requires Reachable(s) && Enabled(s, a)
    ensures Reachable(t) && t == Apply(s, a)
  {
    ReachableStep(s, a);
    t := Apply(s, a);
  }

  const E1 := Event(1, 0, 0)
  const E2 := Event(2, 0, 0)
  const TWO_NEW: map<IoId, Io> := map[1 := NEW_IO, 2 := NEW_IO]

  /** Two IOs posted in the order 1, 2, with only the second signal raised so far. */
  const SECOND_FIRST := State(false, TWO_NEW, [1, 2], {}, {}, {}, [E1, E2], {1}, 1, Idle, [E1, E2], [])

  lemma TwoPosted() returns (s: State)
    ensures Reachable(s)
    ensures s == State(false, TWO_NEW, [1, 2], {}, {}, {1, 2}, [], {}, 0, Idle, [], [])
  {
    ReachableInit();
    s := Then(INIT, Push(1));
    s := Then(s, Push(2));
    assert s.ios == TWO_NEW && s.inflight == [1, 2] && s.pushed == {1, 2};
    s := Then(s, Submit(1));
    s := Then(s, Submit(2));
    assert s.pushed == {} && s.kernel == {1, 2};
  }

  lemma SecondSignalFirst()
    ensures Reachable(SECOND_FIRST)
  {
    var s := TwoPosted();
    s := Then(s, Complete(1, 0, 0));
    s := Then(s, Complete(2, 0, 0));
    assert s.kernel == {} && s.ring == [E1, E2] && s.completed == [E1, E2] && s.unsignalled == {1, 2};
    s := Then(s, Signal(2));
    assert s.unsignalled == {1};
  }

  lemma SecondSignalRead() returns (s: State)
    ensures Reachable(s)
    ensures s == SECOND_FIRST.(counter := 0, reaper := Claimed(1))
  {
    SecondSignalFirst();
    s := Then(SECOND_FIRST, Wake);
    s := Then(s, Read);
  }

  lemma SecondSignalClaimed() returns (s: State)
    ensures Reachable(s)
    ensures s == SECOND_FIRST.(ring := [E2], counter := 0, reaper := Batch([E1]))
  {
    s := SecondSignalRead();
    s := Then(s, GetEvents);
    assert s.reaper == Batch([E1]) && s.ring == [E2];
  }

  lemma SecondSignalReaped() returns (s: State)
    ensures Reachable(s)
    ensures s == SECOND_FIRST.(inflight := [2], ring := [E2], counter := 0, reaper := Holding(E1, 1, []))
  {
    s := SecondSignalClaimed();
    s := Then(s, Remove);
    assert s.reaper == Holding(E1, 1, []);
  }

  /** The drain that follows ends with the signalled IO unfulfilled: the condition of `DrainExit` is needed. */
  lemma OutOfOrderSignalMissed() returns (s: State)
    ensures Reachable(s) && s.reaper.Reading? && s.counter == 0
    ensures !(Signalled(s) <= Fulfilled(s))
  {
    s := SecondSignalReaped();
    s := Then(s, SetResult);
    s := Then(s, Fulfil);
    assert s.log[0].owner == 1 && |s.log| == 1;
    assert Ids(s.completed)[1] == 2;
    assert 2 in Signalled(s) && 2 !in Fulfilled(s);
  }

  // ----- Every accepted IO is fulfilled -----

  /** The steps of `io_submit`, the kernel and the reaper; the others belong to callers. */
  predicate Engine(a: Action) {
    !a.Push? && !a.GetFuture? && !a.Consume?
  }

  function Phase(s: State): nat {
    match s.reaper
    case Idle => if s.counter > 0 then 2 else 0
    case Reading => 1
    case Holding(_, _, _) => 4
    case ResultSet(_, _, _) => 2
    case _ => 0
  }

  /** What the engine still has to do. */
  function Work(s: State): nat {
    20 * |s.pushed| + 18 * |s.kernel| + 10 * |s.ring| + 3 * |s.unsignalled| + 6 * |Unprocessed(s.reaper)| + Phase(s)
  }

  lemma EngineStepWorks(s: State, a: Action)
    requires Inv(s) && Enabled(s, a) && Engine(a)
    ensures Work(Apply(s, a)) < Work(s)
  {
    match a
    case Submit(id) => AcceptWorks(s, id);
    case Reject(id) => RejectWorks(s, id);
    case Complete(id, _, _) => CompleteWorks(s, a);
    case Signal(id) => SignalWorks(s, id);
    case Remove => RemoveTakesHead(s);
    case _ => ReaperWorks(s, a);
  }

  lemma RejectWorks(s: State, id: IoId)
    requires Inv(s) && Enabled(s, Reject(id))
    ensures Work(Apply(s, Reject(id))) < Work(s)
  {
    assert s.pushed == Apply(s, Reject(id)).pushed + {id};
  }

  lemma SignalWorks(s: State, id: IoId)
    requires Inv(s) && Enabled(s, Signal(id))
    ensures Work(Apply(s, Signal(id))) < Work(s)
  {
    assert s.unsignalled == Apply(s, Signal(id)).unsignalled + {id};
  }

  lemma ReaperWorks(s: State, a: Action)
    requires Inv(s) && Enabled(s, a) && (a.Wake? || a.Read? || a.GetEvents? || a.SetResult? || a.Fulfil?)
    ensures Work(Apply(s, a)) < Work(s)
  {
    StepSafe(s, a);
  }

  lemma ClientStepWorks(s: State, a: Action)
    requires Inv(s) && Enabled(s, a) && (a.GetFuture? || a.Consume?)
    ensures Work(Apply(s, a)) == Work(s)
  {
    StepSafe(s, a);
  }

  lemma AcceptWorks(s: State, id: IoId)
    requires Inv(s) && id in s.pushed && !s.aborted
    ensures Work(Apply(s, Submit(id))) < Work(s)
  {
    var t := Apply(s, Submit(id));
    assert s.pushed == t.pushed + {id};
    assert |t.kernel| <= |s.kernel| + 1;
  }

  lemma CompleteWorks(s: State, a: Action)
    requires Inv(s) && Enabled(s, a) && a.Complete?
    ensures Work(Apply(s, a)) < Work(s)
  {
    var t := Apply(s, a);
    assert s.kernel == t.kernel + {a.id};
    assert |t.unsignalled| <= |s.unsignalled| + 1;
  }

  function EngineSteps(run: seq<Action>): nat {
    if run == [] then 0 else (if Engine(run[0]) then 1 else 0) + EngineSteps(run[1..])
  }

  /** Without new submissions the engine takes at most `Work` steps, however they interleave. */
  lemma {:induction false} EngineTerminates(s: State, run: seq<Action>)
    requires Inv(s) && ValidRun(s, run) && forall a :: a in run ==> !a.Push?
    ensures EngineSteps(run) + Work(Final(s, run)) <= Work(s)
    decreases |run|
  {
    if run != [] {
      assert run[0] in run;
      if Engine(run[0]) { EngineStepWorks(s, run[0]); } else { ClientStepWorks(s, run[0]); }
      StepKeeps(s, run[0]);
      EngineTerminates(Apply(s, run[0]), run[1..]);
    }
  }

  ghost predicate Settled(s: State) {
    forall a :: Engine(a) ==> !Enabled(s, a)
  }

  lemma SettledIsEmpty(s: State)
    requires Inv(s) && Settled(s)
    ensures s.pushed == {} && s.kernel == {} && s.unsignalled == {} && s.ring == []
    ensures s.reaper == Idle
  {
    assert forall id :: id in s.pushed ==> Enabled(s, Submit(id));
    assert forall id :: id in s.kernel ==> Enabled(s, Complete(id, 0, 0));
    assert forall id :: id in s.unsignalled ==> Enabled(s, Signal(id));
    assert !Enabled(s, Wake) && !Enabled(s, Read) && !Enabled(s, GetEvents);
    assert !Enabled(s, Remove) && !Enabled(s, SetResult) && !Enabled(s, Fulfil);
  }

  /**
   When nothing is left to do, an IO's promise is set if and only if the kernel accepted its
   submission; the rejected ones, and only they, are stuck in `inflight_` for ever, because the
   return value of `io_submit` is ignored.
   */
  lemma SettledFulfilled(s: State)
    requires Reachable(s) && Settled(s)
    ensures forall id :: id in s.ios ==> (s.ios[id].promise == Some(id) <==> id !in s.rejected)
    ensures forall id :: id in s.ios ==> (s.ios[id].promise.None? <==> id in s.rejected)
    ensures multiset(s.inflight) == multiset(s.rejected)
    ensures |s.log| == |s.completed|
  {
    ReachableInv(s);
    SettledIsEmpty(s);
    assert Accounted(s) == multiset(s.rejected);
    assert s.completed[..|s.log|] == s.completed;
    forall id | id in s.ios
      ensures s.ios[id].promise == Some(id) <==> id !in s.rejected
      ensures s.ios[id].promise.None? <==> id in s.rejected
    {
      if id in s.rejected {
        assert id in multiset(s.inflight);
      } else {
        assert id in multiset(s.ios.Keys);
        assert id in multiset(Ids(s.completed));
        var k :| 0 <= k < |s.completed| && Ids(s.completed)[k] == id;
        assert s.log[k] in s.log;
      }
    }
  }

  /** And then the continuation of every accepted IO whose future was taken has run, or can run. */
  lemma SettledContinues(s: State, id: IoId)
    requires Reachable(s) && Settled(s) && id in s.ios && id !in s.rejected && s.ios[id].futureTaken
    ensures s.ios[id].consumed || Enabled(s, Consume(id))
  {
    ReachableInv(s);
    SettledFulfilled(s);
  }

  /** Such an IO exists: refused by the kernel, with nothing left to do and its promise never set. */
  lemma RefusedIsStuck() returns (s: State)
    ensures Reachable(s) && Settled(s)
    ensures 1 in s.ios && 1 in s.inflight && s.ios[1].promise.None?
  {
    ReachableInit();
    s := Then(INIT, Push(1));
    s := Then(s, Reject(1));
    assert s.pushed == {} && s.kernel == {} && s.unsignalled == {} && s.ring == [];
  }

  // ----- The result word -----

  /** A byte count or a negated errno, posted as one 64-bit word with zero in `res2`, reaches the caller unchanged. */
  lemma ResultRoundTrip(id: IoId, n: int)
    requires -0x8000_0000_0000_0000 <= n < 0x8000_0000_0000_0000
    ensures IoResult(Event(id, n % TWO_64, 0)) == n
  {
    OrZero(n % TWO_64);
  }

  lemma {:induction false} OrZero(low: nat)
    ensures Or(0, low) == low
  {
    if low != 0 {
      OrZero(low / 2);
    }
  }

  function Bit(w: nat, i: nat): nat {
    if i == 0 then w % 2 else Bit(w / 2, i - 1)
  }

  /** Each bit of the result is set if and only if it is set in one of the words. */
  lemma {:induction false} OrBits(a: nat, b: nat, i: nat)
    ensures Bit(Or(a, b), i) == Max(Bit(a, i), Bit(b, i))
    ensures Bit(Or(a, b), i) == 1 <==> Bit(a, i) == 1 || Bit(b, i) == 1
  {
    if a == 0 && b == 0 {
      BitOfZero(i);
    } else {
      assert Or(a, b) % 2 == Max(a % 2, b % 2) && Or(a, b) / 2 == Or(a / 2, b / 2);
      if i > 0 {
        OrBits(a / 2, b / 2, i - 1);
      }
    }
  }

  lemma {:induction false} BitOfZero(i: nat)
    ensures Bit(0, i) == 0
  {
    if i > 0 {
      BitOfZero(i - 1);
    }
  }

  /**
   Whatever the two words are, the result's low half is that of `res`, and its high half is the low half
   of `res2` or-ed with the high half of `res`.
   */
  lemma ResultHalves(e: Event)
    ensures IoResult(e) == Signed64(Or(e.res2 % TWO_32, e.res / TWO_32) * TWO_32 + e.res % TWO_32)
  {
    var high, upper, low := e.res2 % TWO_32, e.res / TWO_32, e.res % TWO_32;
    ShiftKeepsLowHalf(e.res2);
    Pow2Of32();
    OrOfProducts(high, upper, low, 32, TWO_32);
  }

  lemma ShiftKeepsLowHalf(w: nat)
    ensures w * TWO_32 % TWO_64 == w % TWO_32 * TWO_32
  {
  }

  lemma Pow2Of32()
    ensures Pow2(32) == TWO_32
  {
    Pow2Sum(16, 16);
    Pow2Sum(8, 8);
    Pow2Sum(4, 4);
    Pow2Sum(2, 2);
  }

  function Pow2(k: nat): nat {
    if k == 0 then 1 else 2 * Pow2(k - 1)
  }

  lemma {:induction false} Pow2Sum(a: nat, b: nat)
    ensures Pow2(a + b) == Pow2(a) * Pow2(b)
  {
    if a != 0 {
      Pow2Sum(a - 1, b);
      assert Pow2(a + b) == 2 * Pow2(a - 1 + b);
    }
  }

  function Shift(x: nat, k: nat): nat {
    if k == 0 then x else 2 * Shift(x, k - 1)
  }

  lemma {:induction false} ShiftMultiplies(x: nat, k: nat)
    ensures Shift(x, k) == x * Pow2(k)
  {
    if k > 0 {
      ShiftMultiplies(x, k - 1);
      TwiceProduct(x, Pow2(k - 1));
    }
  }

  lemma TwiceProduct(x: nat, y: nat)
    ensures x * (2 * y) == 2 * (x * y)
  {
  }

  /** Below bit k only the second operand has bits. */
  lemma {:induction false} OrSplits(high: nat, upper: nat, low: nat, k: nat)
    requires low < Pow2(k)
    ensures Or(Shift(high, k), Shift(upper, k) + low) == Shift(Or(high, upper), k) + low
  {
    if k > 0 {
      OrSplits(high, upper, low / 2, k - 1);
      OrDouble(Shift(high, k - 1), Shift(upper, k - 1), low);
    }
  }

  lemma OrOfProducts(high: nat, upper: nat, low: nat, k: nat, p: nat)
    requires p == Pow2(k) && low < p
    ensures Or(high * p, upper * p + low) == Or(high, upper) * p + low
  {
    OrSplits(high, upper, low, k);
    ShiftMultiplies(high, k);
    ShiftMultiplies(upper, k);
    ShiftMultiplies(Or(high, upper), k);
  }

  lemma OrDouble(a: nat, b: nat, low: nat)
    ensures Or(2 * a, 2 * b + low) == 2 * Or(a, b + low / 2) + low % 2
  {
    assert 2 * a / 2 == a && 2 * a % 2 == 0;
    assert (2 * b + low) / 2 == b + low / 2 && (2 * b + low) % 2 == low % 2;
  }
}
