/**
 The engine's code: the `inflight_` vector, `ioSubmit` and the drain loop `iosCompleted`, each
 atomic step proved to be the step of the same name in `AsyncIo`. Other threads act between the
 steps: a script says what they do, and any finite interleaving is some script.
 */
module AsyncIoEngine {
  import opened Common
  import opened AsyncIo
  import opened AsyncIoRuns

  /** `std::vector<std::unique_ptr<IO>>`, as far as the engine uses it. */
  class InflightVector {
    var slots: array<IoId>
    var size: nat

    ghost predicate Valid()
      reads this
    {
      size <= slots.Length
    }

    ghost function Contents(): seq<IoId>
      requires Valid()
      reads this, slots
    {
      slots[..size]
    }

    constructor ()
      ensures Valid() && Contents() == [] && fresh(slots)
    {
      slots := new IoId[1];
      size := 0;
    }

    method PushBack(id: IoId)
      requires Valid()
      modifies this, slots
      ensures Valid() && Contents() == old(Contents()) + [id]
      ensures slots == old(slots) || fresh(slots)
    {
      if size == slots.Length {
        var grown := new IoId[2 * slots.Length + 1];
        var i := 0;
        while i < size
          invariant i <= size == slots.Length < grown.Length
          invariant slots == old(slots) && slots[..] == old(slots[..]) && size == old(size)
          invariant grown[..i] == slots[..i]
        {
          grown[i] := slots[i];
          i := i + 1;
        }
        slots := grown;
      }
      slots[size] := id;
      size := size + 1;
    }

    method Copy() returns (s: seq<IoId>)
      requires Valid()
      ensures s == Contents()
    {
      s := slots[..size];
    }

    /** `find_if` over the pointers. */
    method Find(iop: IoId) returns (i: nat)
      requires Valid()
      ensures i == FirstIndex(Contents(), iop)
    {
      i := 0;
      while i < size && slots[i] != iop
        invariant i <= size
        invariant FirstIndex(Contents(), iop) == i + FirstIndex(Contents()[i..], iop)
      {
        i := i + 1;
      }
    }

    /** Lines 156-168: find, swap with the back, pop the back. */
    method Take(iop: IoId) returns (ioup: Option<IoId>)
      requires Valid()
      modifies this, slots
      ensures Valid() && slots == old(slots)
      ensures iop !in old(Contents()) ==> ioup == None && Contents() == old(Contents())
      ensures iop in old(Contents()) ==>
                var i := FirstIndex(old(Contents()), iop);
                Contents() == SwapPop(old(Contents()), i) && ioup == Some(Popped(old(Contents()), i))
    {
      var it := Find(iop);
      ioup := None;
      if it != size {
        if size >= 2 {
          slots[it], slots[size - 1] := slots[size - 1], slots[it];
        }
        ioup := Some(slots[size - 1]);
        size := size - 1;
      }
    }
  }

  /** One request; `id` stands for its address, and the last three fields say what its owners did. */
  class IO {
    const id: IoId
    var result: Option<int>
    var promise: Option<IoId>
    var futureTaken: bool
    var consumed: bool
    var freed: bool

    function View(): Io
      reads this
    {
      Io(result, promise, futureTaken, consumed, freed)
    }

    constructor (id: IoId)
      ensures this.id == id && View() == NEW_IO
    {
      this.id := id;
      result, promise, futureTaken, consumed, freed := None, None, false, false, false;
    }

    /** Lines 49-52; the source asserts that the promise is not set. */
    method SetResult(value: int)
      requires promise.None?
      modifies this`result
      ensures View() == old(View()).(result := Some(value))
    {
      result := Some(value);
    }

    /** Lines 58-61; the source asserts as well that the object is its own. */
    method CompletePromise(iop: IoId)
      requires promise.None? && iop == id
      modifies this`promise
      ensures View() == old(View()).(promise := Some(iop))
    {
      promise := Some(iop);
    }

    method GetFuture()
      requires !futureTaken
      modifies this`futureTaken
      ensures View() == old(View()).(futureTaken := true)
    {
      futureTaken := true;
    }

    method Consume()
      modifies this`consumed
      ensures View() == old(View()).(consumed := true)
    {
      consumed := true;
    }

    method Destroy()
      modifies this`freed
      ensures View() == old(View()).(freed := true)
    {
      freed := true;
    }
  }

  predicate ReaperAction(a: Action) {
    a.Wake? || a.Read? || a.GetEvents? || a.Remove? || a.SetResult? || a.Fulfil?
  }

  /** The actions that only the caller of `ioSubmit` for `id` performs. */
  predicate SubmitterAction(a: Action, id: IoId) {
    a == Push(id) || a == Submit(id) || a == Reject(id) || a == GetFuture(id)
  }

  /** What a thread may rely on when it takes its next step. */
  lemma SafeStep(s: State, a: Action)
    requires Reachable(s) && Enabled(s, a)
    ensures Reachable(Apply(s, a)) && !Apply(s, a).aborted
  {
    ReachableStep(s, a);
    ReachableInv(Apply(s, a));
  }

  /** Some run of the machine goes from `s` to `t`. */
  ghost predicate Leads(s: State, t: State) {
    exists run :: ValidRun(s, run) && Final(s, run) == t
  }

  lemma LeadsNowhere(s: State)
    ensures Leads(s, s)
  {
    assert ValidRun(s, []) && Final(s, []) == s;
  }

  lemma OneStepLeads(s: State, a: Action)
    requires Enabled(s, a)
    ensures Leads(s, Apply(s, a))
  {
    LeadsNowhere(s);
    LeadsOn(s, s, a);
  }

  lemma LeadsOn(s: State, t: State, a: Action)
    requires Leads(s, t) && Enabled(t, a)
    ensures Leads(s, Apply(t, a))
  {
    var run :| ValidRun(s, run) && Final(s, run) == t;
    Extend(s, run, a);
  }

  lemma LeadsThrough(s: State, t: State, u: State)
    requires Leads(s, t) && Leads(t, u)
    ensures Leads(s, u)
  {
    var r1 :| ValidRun(s, r1) && Final(s, r1) == t;
    var r2 :| ValidRun(t, r2) && Final(t, r2) == u;
    Append(s, r1, r2);
  }

  lemma {:induction false} Append(s: State, run: seq<Action>, more: seq<Action>)
    requires ValidRun(s, run) && ValidRun(Final(s, run), more)
    ensures ValidRun(s, run + more) && Final(s, run + more) == Final(Final(s, run), more)
    decreases |run|
  {
    if run == [] {
      assert run + more == more;
    } else {
      assert (run + more)[1..] == run[1..] + more;
      Append(Apply(s, run[0]), run[1..], more);
    }
  }

  class AsyncIO {
    const inflight: InflightVector
    var ios: map<IoId, IO>
    ghost var mirror: map<IoId, Io>
    ghost var repr: set<IO>
    var pushed: set<IoId>
    var rejected: set<IoId>
    var kernel: set<IoId>
    var ring: seq<Event>
    var unsignalled: set<IoId>
    var eventfd: nat
    var reaper: Reaper
    var completed: seq<Event>
    var log: seq<Fulfilment>

    ghost predicate Valid()
      reads this, inflight, inflight.slots, repr
    {
      inflight.Valid() && Mirrored() && Reachable(View())
    }

    /** Every object is found under its own address, and `mirror` says what is in it. */
    ghost predicate Mirrored()
      reads this, repr
    {
      && ios.Keys == mirror.Keys
      && (forall id :: id in ios ==> ios[id] in repr && ios[id].id == id && ios[id].View() == mirror[id])
    }

    ghost function View(): State
      requires inflight.Valid()
      reads this, inflight, inflight.slots
    {
      State(false, mirror, inflight.Contents(), pushed, rejected, kernel, ring, unsignalled, eventfd, reaper, completed, log)
    }

    /** What a call leaves behind is what was there before and what it allocated. */
    twostate predicate Footprint()
      reads this, inflight
    {
      (inflight.slots == old(inflight.slots) || fresh(inflight.slots)) && fresh(repr - old(repr))
    }

    constructor ()
      ensures Valid() && View() == INIT && fresh(inflight) && fresh(inflight.slots)
    {
      inflight := new InflightVector();
      ios, mirror, repr, pushed, rejected, kernel, unsignalled := map[], map[], {}, {}, {}, {}, {};
      ring, eventfd, reaper, completed, log := [], 0, Idle, [], [];
      new;
      ReachableInit();
    }

    // ----- What a step does to the objects -----

    method NewIo(id: IoId)
      requires Mirrored() && id !in ios
      modifies this`ios, this`mirror, this`repr
      ensures Mirrored() && mirror == old(mirror)[id := NEW_IO] && fresh(repr - old(repr))
    {
      var io := new IO(id);
      ios := ios[id := io];
      mirror, repr := mirror[id := NEW_IO], repr + {io};
    }

    method TakeFutureOf(id: IoId)
      requires Mirrored() && id in ios && !ios[id].futureTaken
      modifies this`mirror, repr
      ensures Mirrored() && mirror == old(mirror)[id := old(mirror)[id].(futureTaken := true)]
    {
      ios[id].GetFuture();
      mirror := mirror[id := mirror[id].(futureTaken := true)];
    }

    method ConsumeOf(id: IoId)
      requires Mirrored() && id in ios
      modifies this`mirror, repr
      ensures Mirrored() && mirror == old(mirror)[id := old(mirror)[id].(consumed := true)]
    {
      ios[id].Consume();
      mirror := mirror[id := mirror[id].(consumed := true)];
    }

    method DestroyOf(id: IoId)
      requires Mirrored() && id in ios
      modifies this`mirror, repr
      ensures Mirrored() && mirror == old(mirror)[id := old(mirror)[id].(freed := true)]
    {
      ios[id].Destroy();
      mirror := mirror[id := mirror[id].(freed := true)];
    }

    method SetResultOf(id: IoId, value: int)
      requires Mirrored() && id in ios && ios[id].promise.None?
      modifies this`mirror, repr
      ensures Mirrored() && mirror == old(mirror)[id := old(mirror)[id].(result := Some(value))]
    {
      ios[id].SetResult(value);
      mirror := mirror[id := mirror[id].(result := Some(value))];
    }

    method CompletePromiseOf(id: IoId, iop: IoId)
      requires Mirrored() && id in ios && ios[id].promise.None? && iop == id
      modifies this`mirror, repr
      ensures Mirrored() && mirror == old(mirror)[id := old(mirror)[id].(promise := Some(iop))]
    {
      ios[id].CompletePromise(iop);
      mirror := mirror[id := mirror[id].(promise := Some(iop))];
    }

    // ----- Atomic steps -----

    /** Lines 91-93. */
    method PushInflight(id: IoId)
      requires Valid() && Enabled(View(), Push(id))
      modifies this, inflight, inflight.slots, repr
      ensures Valid() && View() == Apply(old(View()), Push(id))
      ensures Footprint()
    {
      ghost var t := Apply(View(), Push(id));
      SafeStep(View(), Push(id));
      pushed := pushed + {id};
      NewIo(id);
      inflight.PushBack(id);
      assert View() == t;
    }

    /** Line 100: the kernel takes the request or refuses it. */
    method KernelSubmit(id: IoId, accepted: bool)
      requires Valid() && Enabled(View(), Submit(id))
      modifies this
      ensures Valid() && repr == old(repr) && View() == Apply(old(View()), if accepted then Submit(id) else Reject(id))
    {
      ghost var t := Apply(View(), if accepted then Submit(id) else Reject(id));
      SafeStep(View(), if accepted then Submit(id) else Reject(id));
      pushed := pushed - {id};
      if accepted {
        kernel := kernel + {id};
      } else {
        rejected := rejected + {id};
      }
      assert View() == t;
    }

    /** Line 101. */
    method TakeFuture(id: IoId)
      requires Valid() && Enabled(View(), GetFuture(id))
      modifies this`mirror, repr
      ensures Valid() && View() == Apply(old(View()), GetFuture(id))
      ensures !ios[id].freed
    {
      SafeStep(View(), GetFuture(id));
      TakeFutureOf(id);
    }

    /** The continuation attached to the future of `id` runs, and drops the `unique_ptr` it was given. */
    method RunContinuation(id: IoId)
      requires Valid() && Enabled(View(), Consume(id))
      modifies this`mirror, repr
      ensures Valid() && View() == Apply(old(View()), Consume(id))
    {
      ghost var t := Apply(View(), Consume(id));
      SafeStep(View(), Consume(id));
      var io := ios[id].promise.value;
      ConsumeOf(id);
      DestroyOf(io);
      assert View() == t;
    }

    method KernelComplete(id: IoId, res: Word, res2: Word)
      requires Valid() && Enabled(View(), Complete(id, res, res2))
      modifies this
      ensures Valid() && repr == old(repr) && View() == Apply(old(View()), Complete(id, res, res2))
    {
      ghost var t := Apply(View(), Complete(id, res, res2));
      SafeStep(View(), Complete(id, res, res2));
      var ev := Event(id, res, res2);
      kernel, ring, completed, unsignalled := kernel - {id}, ring + [ev], completed + [ev], unsignalled + {id};
      assert View() == t;
    }

    method KernelSignal(id: IoId)
      requires Valid() && Enabled(View(), Signal(id))
      modifies this
      ensures Valid() && repr == old(repr) && View() == Apply(old(View()), Signal(id))
    {
      ghost var t := Apply(View(), Signal(id));
      SafeStep(View(), Signal(id));
      unsignalled := unsignalled - {id};
      eventfd := eventfd + 1;
      assert View() == t;
    }

    method HandlerReady()
      requires Valid() && Enabled(View(), Wake)
      modifies this
      ensures Valid() && repr == old(repr) && View() == Apply(old(View()), Wake)
    {
      SafeStep(View(), Wake);
      reaper := Reading;
    }

    /** Line 134: read and clear the counter; zero stands for EAGAIN. */
    method EventfdRead() returns (nevents: nat)
      requires Valid() && reaper.Reading?
      modifies this
      ensures Valid() && repr == old(repr) && View() == Apply(old(View()), Read)
      ensures nevents == old(eventfd)
    {
      SafeStep(View(), Read);
      nevents := eventfd;
      if nevents == 0 {
        reaper := Idle;
      } else {
        eventfd, reaper := 0, Claimed(nevents);
      }
    }

    /** Line 145: exactly `nevents` records, oldest first. */
    method IoGetevents(nevents: nat) returns (events: seq<Event>)
      requires Valid() && reaper == Claimed(nevents) && nevents <= |ring|
      modifies this
      ensures Valid() && repr == old(repr) && View() == Apply(old(View()), GetEvents)
      ensures |events| == nevents && reaper == Batch(events)
    {
      SafeStep(View(), GetEvents);
      events := ring[..nevents];
      ring, reaper := ring[nevents..], Batch(events);
    }

    /** Lines 155-169, under the lock; the lookup is proved to succeed. */
    method TakeInflight(iop: IoId) returns (ioup: IoId)
      requires Valid() && Enabled(View(), Remove) && iop == reaper.events[0].data
      modifies this, inflight, inflight.slots, repr
      ensures Valid() && repr == old(repr) && View() == Apply(old(View()), Remove) && inflight.slots == old(inflight.slots)
      ensures reaper == Holding(old(reaper.events)[0], iop, old(reaper.events)[1..])
      ensures ioup == iop
    {
      SafeStep(View(), Remove);
      var taken := inflight.Take(iop);
      assert taken.Some?;
      ioup := taken.value;
      reaper := Holding(reaper.events[0], ioup, reaper.events[1..]);
    }

    method StoreResult(iop: IoId, result: int)
      requires Valid() && reaper.Holding? && iop == reaper.ev.data && result == IoResult(reaper.ev)
      modifies this, repr
      ensures Valid() && repr == old(repr) && View() == Apply(old(View()), SetResult)
      ensures reaper == ResultSet(old(reaper.ev), old(reaper.ioup), old(reaper.rest))
    {
      ghost var t := Apply(View(), SetResult);
      SafeStep(View(), SetResult);
      SetResultOf(iop, result);
      reaper := ResultSet(reaper.ev, reaper.ioup, reaper.rest);
      assert View() == t;
    }

    method CompletePromise(iop: IoId, ioup: IoId)
      requires Valid() && reaper.ResultSet? && iop == reaper.ev.data && ioup == reaper.ioup
      modifies this, repr
      ensures Valid() && repr == old(repr) && View() == Apply(old(View()), Fulfil)
      ensures reaper == AfterEvent(old(reaper.rest))
    {
      ghost var t := Apply(View(), Fulfil);
      SafeStep(View(), Fulfil);
      var entry := Fulfilment(iop, ioup, ios[iop].result.value);
      CompletePromiseOf(iop, ioup);
      log, reaper := log + [entry], AfterEvent(reaper.rest);
      assert View() == t;
    }

    /** Any one step, by whichever thread owns it. */
    method Do(a: Action)
      requires Valid() && Enabled(View(), a)
      modifies this, inflight, inflight.slots, repr
      ensures Valid() && View() == Apply(old(View()), a)
      ensures Footprint()
    {
      match a
      case Push(id) => PushInflight(id);
      case Submit(id) => KernelSubmit(id, true);
      case Reject(id) => KernelSubmit(id, false);
      case GetFuture(id) => TakeFuture(id);
      case Consume(id) => RunContinuation(id);
      case Complete(id, res, res2) => KernelComplete(id, res, res2);
      case Signal(id) => KernelSignal(id);
      case Wake => HandlerReady();
      case Read => var _ := EventfdRead();
      case GetEvents => var _ := IoGetevents(reaper.nevents);
      case Remove => var _ := TakeInflight(reaper.events[0].data);
      case SetResult => StoreResult(reaper.ev.data, IoResult(reaper.ev));
      case Fulfil => CompletePromise(reaper.ev.data, reaper.ioup);
    }

    /** What the other threads may look at. */
    method Snapshot() returns (s: State)
      requires Valid()
      ensures s == View()
    {
      var now := inflight.Copy();
      var objects := map id | id in ios :: ios[id].View();
      assert objects == mirror;
      s := State(false, objects, now, pushed, rejected, kernel, ring, unsignalled, eventfd, reaper, completed, log);
    }

    /** One step of another thread, unless it is not enabled now or not theirs to take. */
    method TryStep(a: Action, reaperWaits: bool, mine: Option<IoId>)
      requires Valid()
      modifies this, inflight, inflight.slots, repr
      ensures Valid() && Footprint()
      ensures Leads(old(View()), View())
      ensures Undisturbed(old(View()), View(), reaperWaits, mine)
    {
      var now := Snapshot();
      if Belongs(a, reaperWaits, mine) || !Enabled(now, a) {
        LeadsNowhere(now);
      } else {
        OtherStep(a, reaperWaits, mine);
      }
    }

    method OtherStep(a: Action, reaperWaits: bool, mine: Option<IoId>)
      requires Valid() && Enabled(View(), a) && !Belongs(a, reaperWaits, mine)
      modifies this, inflight, inflight.slots, repr
      ensures Valid() && Footprint()
      ensures Leads(old(View()), View())
      ensures Undisturbed(old(View()), View(), reaperWaits, mine)
    {
      OneStepLeads(View(), a);
      StepUndisturbed(View(), a, reaperWaits, mine);
      Do(a);
    }

    /**
     The other threads run `script`; steps that are not enabled when their turn comes, that belong
     to the reaper (while it is the one waiting) or to the caller of `ioSubmit` for `mine`, are skipped.
     */
    method Interfere(script: seq<Action>, reaperWaits: bool, mine: Option<IoId>)
      requires Valid()
      modifies this, inflight, inflight.slots, repr
      ensures Valid() && Footprint()
      ensures Leads(old(View()), View())
      ensures Undisturbed(old(View()), View(), reaperWaits, mine)
      ensures script == [] ==> View() == old(View())
    {
      LeadsNowhere(View());
      var i := 0;
      while i < |script|
        invariant Valid() && Footprint() && i <= |script|
        invariant i == 0 ==> View() == old(View())
        invariant Leads(old(View()), View())
        invariant Undisturbed(old(View()), View(), reaperWaits, mine)
      {
        ghost var s := View();
        TryStep(script[i], reaperWaits, mine);
        LeadsThrough(old(View()), s, View());
        i := i + 1;
      }
    }

    /** Lines 88-102, on a thread of its own; `accepted` is whether the kernel takes the request. */
    method IoSubmit(io: IoId, accepted: bool, before: seq<Action>, after: seq<Action>)
      requires Valid() && io !in ios
      modifies this, inflight, inflight.slots, repr
      ensures Valid() && Footprint()
      ensures Leads(old(View()), View())
      ensures io in ios && ios[io].futureTaken && !ios[io].freed
      ensures io !in pushed && (io in rejected <==> !accepted)
    {
      ghost var s0 := View();
      EnterInflight(io, before);
      ghost var s1 := View();
      EnterKernel(io, accepted, after);
      ghost var s2 := View();
      LeadsThrough(s0, s1, s2);
      assert inflight.slots == old(inflight.slots) || fresh(inflight.slots);
      assert fresh(repr - old(repr));
      FetchFuture(io, s0);
    }

    /** Line 101. */
    method FetchFuture(io: IoId, ghost s0: State)
      requires Valid() && Leads(s0, View()) && io in ios && !ios[io].futureTaken && io !in pushed
      modifies this`mirror, repr
      ensures Valid() && Leads(s0, View()) && ios[io].futureTaken && !ios[io].freed
    {
      ghost var s := View();
      LeadsOn(s0, s, GetFuture(io));
      TakeFuture(io);
      assert mirror[io].futureTaken;
    }

    /** Lines 91-93, then the other threads' turn. */
    method EnterInflight(io: IoId, script: seq<Action>)
      requires Valid() && io !in ios
      modifies this, inflight, inflight.slots, repr
      ensures Valid() && Footprint()
      ensures Leads(old(View()), View())
      ensures io in ios && !ios[io].futureTaken && io in pushed && io !in rejected
    {
      ghost var s := View();
      NewcomerNotRejected(s, io);
      PushInflight(io);
      ghost var t := View();
      OneStepLeads(s, Push(io));
      assert io in t.pushed && io !in t.rejected && io in t.ios && !t.ios[io].futureTaken;
      Interfere(script, false, Some(io));
      LeadsThrough(s, t, View());
    }

    /** Line 100, then the other threads' turn. */
    method EnterKernel(io: IoId, accepted: bool, script: seq<Action>)
      requires Valid() && io in ios && !ios[io].futureTaken && io in pushed && io !in rejected
      modifies this, inflight, inflight.slots, repr
      ensures Valid() && Footprint()
      ensures Leads(old(View()), View())
      ensures io in ios && !ios[io].futureTaken && io !in pushed && (io in rejected <==> !accepted)
    {
      ghost var s := View();
      LeaveUserSpace(io, accepted);
      ghost var t := View();
      Interfere(script, false, Some(io));
      assert inflight.slots == old(inflight.slots) || fresh(inflight.slots);
      assert fresh(repr - old(repr));
      LeadsThrough(s, t, View());
    }

    method LeaveUserSpace(io: IoId, accepted: bool)
      requires Valid() && io in ios && !ios[io].futureTaken && io in pushed && io !in rejected
      modifies this
      ensures Valid() && repr == old(repr)
      ensures Leads(old(View()), View())
      ensures io in mirror && !mirror[io].futureTaken && io !in pushed && (io in rejected <==> !accepted)
    {
      if accepted {
        OneStepLeads(View(), Submit(io));
        KernelSubmit(io, true);
      } else {
        OneStepLeads(View(), Reject(io));
        KernelSubmit(io, false);
      }
    }

    /**
     Lines 129-176, entered when the event loop finds the eventfd readable. `script[k]` is what the
     other threads do before the reaper's k-th step; after the script they are quiet. The call is a
     run of the machine, it ends, and by then every event counted at the eventfd has been fulfilled.
     */
    method IosCompleted(script: seq<seq<Action>>)
      requires Valid() && reaper == Reading
      modifies this, inflight, inflight.slots, repr
      ensures Valid() && Footprint()
      ensures Leads(old(View()), View())
      ensures reaper == Idle && eventfd == 0
      ensures |log| == |completed| - |unsignalled|
    {
      ghost var s0 := View();
      LeadsNowhere(s0);
      var turn, more := 0, true;
      while more
        invariant Valid() && Footprint()
        invariant Leads(s0, View())
        invariant if more then reaper == Reading else reaper == Idle && eventfd == 0 && |log| == |completed| - |unsignalled|
        decreases more, if turn < |script| then |script| - turn else 0, eventfd
      {
        turn, more := DrainOnce(script, turn, s0);
      }
    }

    /** One iteration: read the counter and leave, or reap and process as many events. */
    method DrainOnce(script: seq<seq<Action>>, turn: nat, ghost s0: State) returns (turn': nat, more: bool)
      requires Valid() && Leads(s0, View()) && reaper == Reading
      modifies this, inflight, inflight.slots, repr
      ensures Valid() && Footprint()
      ensures Leads(s0, View())
      ensures turn' > turn
      ensures if more then reaper == Reading else reaper == Idle && eventfd == 0 && |log| == |completed| - |unsignalled|
      ensures turn >= |script| && more ==> eventfd < old(eventfd)
    {
      var nevents;
      turn', nevents := ReadCounter(script, turn, s0);
      more := nevents != 0;
      if more {
        turn' := DrainClaimed(nevents, script, turn', s0);
      }
    }

    /** Lines 144-174. */
    method DrainClaimed(nevents: nat, script: seq<seq<Action>>, turn: nat, ghost s0: State) returns (turn': nat)
      requires Valid() && Leads(s0, View()) && reaper == Claimed(nevents) && nevents > 0
      modifies this, inflight, inflight.slots, repr
      ensures Valid() && Footprint()
      ensures Leads(s0, View())
      ensures turn' > turn && reaper == Reading
      ensures turn >= |script| ==> eventfd == old(eventfd)
    {
      var events;
      turn', events := ClaimEvents(nevents, script, turn, s0);
      turn' := DrainBatch(events, script, turn', s0);
    }

    /** Line 134 after the other threads' turn. */
    method ReadCounter(script: seq<seq<Action>>, turn: nat, ghost s0: State) returns (turn': nat, nevents: nat)
      requires Valid() && Leads(s0, View()) && reaper == Reading
      modifies this, inflight, inflight.slots, repr
      ensures Valid() && Footprint()
      ensures Leads(s0, View())
      ensures turn' > turn && eventfd == 0
      ensures turn >= |script| ==> nevents == old(eventfd)
      ensures nevents > 0 ==> reaper == Claimed(nevents)
      ensures nevents == 0 ==> reaper == Idle && |log| == |completed| - |unsignalled|
    {
      turn' := Pause(script, turn, s0);
      LeadsOn(s0, View(), Read);
      DrainedCount(View());
      nevents := EventfdRead();
    }

    /** Lines 148-174: every claimed event is processed, in order. */
    method DrainBatch(events: seq<Event>, script: seq<seq<Action>>, turn: nat, ghost s0: State) returns (turn': nat)
      requires Valid() && Leads(s0, View()) && reaper == Batch(events) && events != []
      modifies this, inflight, inflight.slots, repr
      ensures Valid() && Footprint()
      ensures Leads(s0, View())
      ensures turn' > turn && reaper == Reading
      ensures turn >= |script| ==> eventfd == old(eventfd)
    {
      turn' := turn;
      var ep := 0;
      while ep < |events|
        invariant ep <= |events|
        invariant Valid() && Footprint()
        invariant Leads(s0, View())
        invariant reaper == if ep == |events| then Reading else Batch(events[ep..])
        invariant turn' >= turn + ep
        invariant turn >= |script| ==> eventfd == old(eventfd)
      {
        turn' := DrainEvent(events[ep], script, turn', s0);
        ep := ep + 1;
      }
    }

    /** The body of that loop. */
    method DrainEvent(ev: Event, script: seq<seq<Action>>, turn: nat, ghost s0: State) returns (turn': nat)
      requires Valid() && Leads(s0, View())
      requires reaper.Batch? && reaper.events != [] && ev == reaper.events[0]
      modifies this, inflight, inflight.slots, repr
      ensures Valid() && Footprint()
      ensures Leads(s0, View())
      ensures turn' > turn && reaper == AfterEvent(old(reaper.events)[1..])
      ensures turn >= |script| ==> eventfd == old(eventfd)
    {
      var iop, result := ev.data, IoResult(ev);
      var ioup;
      turn', ioup := TakeEvent(iop, script, turn, s0);
      turn' := DeliverEvent(iop, ioup, result, script, turn', s0);
    }

    /** Lines 155-171 for the head of the batch, after the other threads' turn. */
    method TakeEvent(iop: IoId, script: seq<seq<Action>>, turn: nat, ghost s0: State) returns (turn': nat, ioup: IoId)
      requires Valid() && Leads(s0, View())
      requires reaper.Batch? && reaper.events != [] && iop == reaper.events[0].data
      modifies this, inflight, inflight.slots, repr
      ensures Valid() && Footprint()
      ensures Leads(s0, View())
      ensures turn' > turn && reaper == Holding(old(reaper.events)[0], ioup, old(reaper.events)[1..])
      ensures ioup == iop
      ensures turn >= |script| ==> eventfd == old(eventfd)
    {
      turn' := Pause(script, turn, s0);
      LeadsOn(s0, View(), Remove);
      ioup := TakeInflight(iop);
    }

    /** Lines 172-173, with the other threads' turns before each. */
    method DeliverEvent(iop: IoId, ioup: IoId, result: int, script: seq<seq<Action>>, turn: nat, ghost s0: State)
        returns (turn': nat)
      requires Valid() && Leads(s0, View())
      requires reaper.Holding? && iop == reaper.ev.data && ioup == reaper.ioup && result == IoResult(reaper.ev)
      modifies this, inflight, inflight.slots, repr
      ensures Valid() && Footprint()
      ensures Leads(s0, View())
      ensures turn' > turn && reaper == AfterEvent(old(reaper.rest))
      ensures turn >= |script| ==> eventfd == old(eventfd)
    {
      turn' := DeliverResult(iop, result, script, turn, s0);
      turn' := DeliverPromise(iop, ioup, script, turn', s0);
    }

    method DeliverResult(iop: IoId, result: int, script: seq<seq<Action>>, turn: nat, ghost s0: State) returns (turn': nat)
      requires Valid() && Leads(s0, View())
      requires reaper.Holding? && iop == reaper.ev.data && result == IoResult(reaper.ev)
      modifies this, inflight, inflight.slots, repr
      ensures Valid() && Footprint()
      ensures Leads(s0, View())
      ensures turn' > turn && reaper == ResultSet(old(reaper.ev), old(reaper.ioup), old(reaper.rest))
      ensures turn >= |script| ==> eventfd == old(eventfd)
    {
      turn' := Pause(script, turn, s0);
      LeadsOn(s0, View(), SetResult);
      StoreResult(iop, result);
    }

    method DeliverPromise(iop: IoId, ioup: IoId, script: seq<seq<Action>>, turn: nat, ghost s0: State) returns (turn': nat)
      requires Valid() && Leads(s0, View())
      requires reaper.ResultSet? && iop == reaper.ev.data && ioup == reaper.ioup
      modifies this, inflight, inflight.slots, repr
      ensures Valid() && Footprint()
      ensures Leads(s0, View())
      ensures turn' > turn && reaper == AfterEvent(old(reaper.rest))
      ensures turn >= |script| ==> eventfd == old(eventfd)
    {
      turn' := Pause(script, turn, s0);
      LeadsOn(s0, View(), Fulfil);
      CompletePromise(iop, ioup);
    }

    /** Line 145 after the other threads' turn. */
    method ClaimEvents(nevents: nat, script: seq<seq<Action>>, turn: nat, ghost s0: State)
        returns (turn': nat, events: seq<Event>)
      requires Valid() && Leads(s0, View()) && reaper == Claimed(nevents)
      modifies this, inflight, inflight.slots, repr
      ensures Valid() && Footprint()
      ensures Leads(s0, View())
      ensures turn' > turn && reaper == Batch(events) && |events| == nevents
      ensures turn >= |script| ==> eventfd == old(eventfd)
    {
      turn' := Pause(script, turn, s0);
      GetEventsNeverWaits(View());
      LeadsOn(s0, View(), GetEvents);
      events := IoGetevents(nevents);
    }

    /** The other threads' turn between two steps of the reaper. */
    method Pause(script: seq<seq<Action>>, turn: nat, ghost s0: State) returns (turn': nat)
      requires Valid() && Leads(s0, View())
      modifies this, inflight, inflight.slots, repr
      ensures Valid() && Footprint()
      ensures Leads(s0, View())
      ensures turn' == turn + 1 && reaper == old(reaper)
      ensures turn >= |script| ==> eventfd == old(eventfd)
    {
      ghost var s := View();
      Interfere(if turn < |script| then script[turn] else [], true, None);
      LeadsThrough(s0, s, View());
      turn' := turn + 1;
    }
  }

  /** What a waiting thread can rely on while the others run. */
  predicate Undisturbed(s: State, t: State, reaperWaits: bool, mine: Option<IoId>) {
    && (reaperWaits ==> t.reaper == s.reaper)
    && (mine.Some? ==>
          && (mine.value in t.pushed <==> mine.value in s.pushed)
          && (mine.value in t.rejected <==> mine.value in s.rejected)
          && (mine.value in s.ios ==>
                mine.value in t.ios && t.ios[mine.value].futureTaken == s.ios[mine.value].futureTaken))
  }

  /** Steps that only the waiting thread takes. */
  predicate Belongs(a: Action, reaperWaits: bool, mine: Option<IoId>) {
    (reaperWaits && ReaperAction(a)) || (mine.Some? && SubmitterAction(a, mine.value))
  }

  lemma StepUndisturbed(s: State, a: Action, reaperWaits: bool, mine: Option<IoId>)
    requires Reachable(s) && Enabled(s, a) && !Belongs(a, reaperWaits, mine)
    ensures Undisturbed(s, Apply(s, a), reaperWaits, mine)
  {
    SafeStep(s, a);
  }

  lemma NewcomerNotRejected(s: State, id: IoId)
    requires Reachable(s) && id !in s.ios
    ensures id !in s.rejected
  {
    ReachableInv(s);
    assert id !in multiset(s.ios.Keys);
    assert id !in Accounted(s);
  }

  lemma DrainedCount(s: State)
    requires Reachable(s) && s.reaper.Reading?
    ensures s.counter == 0 ==> |s.log| == |s.completed| - |s.unsignalled|
  {
    ReachableInv(s);
    assert s.completed[|s.log|..] == Held(s.reaper) + Unprocessed(s.reaper) + s.ring;
  }
}
