/**
 The wangle client's dispatcher: promises keyed by request id, fulfilled by responses that the
 multiplexing server sends back in any order, and erased when someone interrupts the future.
 */
module Dispatcher {
  import opened Common

  type Promise = nat

  /**
   `called` maps each request to the promise whose future its caller holds; `wire` holds the ids on
   their way to the server and back; `resolved` maps each fulfilled promise to the id in the message
   it was given, `broken` holds the promises that were destroyed unset; `crashed` is the failed CHECK in
   `read`.
   */
  datatype State = State(
    crashed: bool,
    called: map<nat, Promise>,
    requests: map<nat, Promise>,
    wire: set<nat>,
    interrupted: set<nat>,
    resolved: map<Promise, nat>,
    broken: set<Promise>,
    nextPromise: Promise
  )

  datatype Action = Call(id: nat) | Respond(id: nat) | Interrupt(id: nat)

  const INIT := State(false, map[], map[], {}, {}, map[], {}, 0)

  /** The caller numbers its requests, so an id is never called twice; the server answers each once. */
  predicate Enabled(s: State, a: Action) {
    !s.crashed &&
    match a
    case Call(id) => id !in s.called
    case Respond(id) => id in s.wire
    case Interrupt(id) => id in s.requests
  }

  function Apply(s: State, a: Action): State
    requires Enabled(s, a)
  {
    match a
    case Call(id) =>
      s.(called := s.called[id := s.nextPromise], requests := s.requests[id := s.nextPromise],
         wire := s.wire + {id}, nextPromise := s.nextPromise + 1)
    case Respond(id) =>
      if id !in s.requests then s.(crashed := true, wire := s.wire - {id}) else
      s.(requests := s.requests - {id}, wire := s.wire - {id}, resolved := s.resolved[s.requests[id] := id])
    case Interrupt(id) =>
      s.(requests := s.requests - {id}, interrupted := s.interrupted + {id}, broken := s.broken + {s.requests[id]})
  }

  predicate ValidRun(s: State, run: seq<Action>)
    decreases |run|
  {
    run == [] || (Enabled(s, run[0]) && ValidRun(Apply(s, run[0]), run[1..]))
  }

  function Final(s: State, run: seq<Action>): State
    requires ValidRun(s, run)
    decreases |run|
  {
    if run == [] then s else Final(Apply(s, run[0]), run[1..])
  }

  /** The request was called and its promise is not set. */
  predicate Unanswered(s: State, id: nat) {
    id in s.called && s.called[id] !in s.resolved
  }

  ghost predicate Inv(s: State) {
    && (forall id :: id in s.called ==> s.called[id] < s.nextPromise)
    && (forall a, b :: a in s.called && b in s.called && s.called[a] == s.called[b] ==> a == b)
    && (forall id :: id in s.requests <==> Unanswered(s, id) && id !in s.interrupted)
    && (forall id :: id in s.requests ==> s.requests[id] == s.called[id])
    && (forall id :: id in s.wire <==> Unanswered(s, id))
    && (forall id :: id in s.interrupted ==> Unanswered(s, id) && s.called[id] in s.broken)
    && (forall p :: p in s.broken ==> p < s.nextPromise)
    && (forall id :: id in s.called && s.called[id] in s.broken ==> id in s.interrupted)
    && (forall p :: p in s.resolved ==> s.resolved[p] in s.called && s.called[s.resolved[p]] == p)
  }

  lemma CallKeeps(s: State, id: nat)
    requires Inv(s) && Enabled(s, Call(id))
    ensures Inv(Apply(s, Call(id)))
  {
    var t := Apply(s, Call(id));
    assert s.nextPromise !in s.resolved;
    assert forall x :: x != id ==> (Unanswered(t, x) <==> Unanswered(s, x));
  }

  lemma RespondKeeps(s: State, id: nat)
    requires Inv(s) && Enabled(s, Respond(id)) && id in s.requests
    ensures Inv(Apply(s, Respond(id)))
  {
    var t := Apply(s, Respond(id));
    assert forall x :: x != id ==> (Unanswered(t, x) <==> Unanswered(s, x));
  }

  lemma InterruptKeeps(s: State, id: nat)
    requires Inv(s) && Enabled(s, Interrupt(id))
    ensures Inv(Apply(s, Interrupt(id)))
  {
    var t := Apply(s, Interrupt(id));
    assert forall x :: Unanswered(t, x) <==> Unanswered(s, x);
  }

  lemma StepKeeps(s: State, a: Action)
    requires Inv(s) && Enabled(s, a)
    ensures Apply(s, a).crashed <==> a.Respond? && a.id in s.interrupted
    ensures !Apply(s, a).crashed ==> Inv(Apply(s, a))
  {
    match a
    case Call(id) => CallKeeps(s, id);
    case Respond(id) => if id in s.requests { RespondKeeps(s, id); }
    case Interrupt(id) => InterruptKeeps(s, id);
  }

  lemma {:induction false} RunKeeps(s: State, run: seq<Action>)
    requires Inv(s) && !s.crashed && ValidRun(s, run)
    ensures Final(s, run).crashed || Inv(Final(s, run))
    decreases |run|
  {
    if run != [] {
      var t := Apply(s, run[0]);
      StepKeeps(s, run[0]);
      if t.crashed {
        assert run[1..] == [] by {
          assert ValidRun(t, run[1..]);
        }
      } else {
        RunKeeps(t, run[1..]);
      }
    }
  }

  /**
   In every run, `requests_` holds exactly the ids called, not answered and not interrupted; a future that
   is ready holds the message with its own caller's request id; every other call is still in `requests_`
   or, exactly if it was interrupted, its future is broken; and the CHECK in `read` fails exactly for a
   response to a request that was interrupted.
   */
  lemma Correlation(run: seq<Action>)
    requires ValidRun(INIT, run) && !Final(INIT, run).crashed
    ensures var s := Final(INIT, run);
            && (forall id :: id in s.requests <==> Unanswered(s, id) && id !in s.interrupted)
            && (forall id :: id in s.called && s.called[id] in s.resolved ==> s.resolved[s.called[id]] == id)
            && (forall id :: id in s.called ==>
                  && (s.called[id] in s.broken <==> id in s.interrupted)
                  && (s.called[id] in s.broken ==> id !in s.requests && s.called[id] !in s.resolved)
                  && (id in s.requests || s.called[id] in s.resolved || s.called[id] in s.broken))
            && (forall id :: id in s.wire ==> (Apply(s, Respond(id)).crashed <==> id in s.interrupted))
  {
    RunKeeps(INIT, run);
  }

  /** Such a run exists: the request is interrupted while its response is on the way. */
  lemma LateResponseCrashes() returns (run: seq<Action>)
    ensures ValidRun(INIT, run) && Final(INIT, run).crashed
  {
    run := [Call(1), Interrupt(1), Respond(1)];
    var called := Apply(INIT, Call(1));
    var interrupted := Apply(called, Interrupt(1));
    assert run[1..] == [Interrupt(1), Respond(1)] && run[1..][1..] == [Respond(1)] && run[1..][1..][1..] == [];
    assert Final(INIT, run) == Apply(interrupted, Respond(1));
  }

  /** Without interrupts the CHECK never fails, and every request off the wire has been answered. */
  lemma {:induction false} NoInterruptNoCrash(s: State, run: seq<Action>)
    requires Inv(s) && !s.crashed && s.interrupted == {} && ValidRun(s, run)
    requires forall a :: a in run ==> !a.Interrupt?
    ensures var t := Final(s, run);
            !t.crashed && forall id :: id in t.called ==> (t.called[id] in t.resolved <==> id !in t.wire)
    decreases |run|
  {
    if run != [] {
      assert run[0] in run && forall a :: a in run[1..] ==> a in run;
      StepKeeps(s, run[0]);
      NoInterruptNoCrash(Apply(s, run[0]), run[1..]);
    }
  }

  // ----- The code -----

  /** `requests` is the dispatcher's own field; the others belong to the promises, callers and transport. */
  class MsgClientDispatcher {
    var requests: map<nat, Promise>
    var nextPromise: Promise
    var resolved: map<Promise, nat>
    var broken: set<Promise>
    ghost var crashed: bool
    ghost var called: map<nat, Promise>
    ghost var wire: set<nat>
    ghost var interrupted: set<nat>

    ghost function View(): State
      reads this
    {
      State(crashed, called, requests, wire, interrupted, resolved, broken, nextPromise)
    }

    constructor ()
      ensures View() == INIT
    {
      requests, nextPromise, resolved, broken := map[], 0, map[], {};
      crashed, called, wire, interrupted := false, map[], {}, {};
    }

    /** `operator()`: create the promise under the request's id, write the message, hand out the future. */
    method Send(reqId: nat) returns (future: Promise)
      requires Enabled(View(), Call(reqId))
      modifies this
      ensures View() == Apply(old(View()), Call(reqId)) && future == called[reqId]
    {
      future := nextPromise;
      nextPromise := nextPromise + 1;
      requests := requests[reqId := future];
      called, wire := called[reqId := future], wire + {reqId};
    }

    /** `read`: find, erase, then fulfil; `false` is the failed CHECK. */
    method Read(reqId: nat) returns (ok: bool)
      requires Enabled(View(), Respond(reqId))
      modifies this
      ensures View() == Apply(old(View()), Respond(reqId)) && ok == !crashed
      ensures Inv(old(View())) ==> (ok <==> reqId !in old(interrupted))
    {
      if Inv(View()) {
        StepKeeps(View(), Respond(reqId));
      }
      wire := wire - {reqId};
      ok := reqId in requests;
      if ok {
        var promise := requests[reqId];
        requests := requests - {reqId};
        resolved := resolved[promise := reqId];
      } else {
        crashed := true;
      }
    }

    /** The interrupt handler: the erased entry's promise is destroyed, which breaks the caller's future. */
    method OnInterrupt(reqId: nat)
      requires Enabled(View(), Interrupt(reqId))
      modifies this
      ensures View() == Apply(old(View()), Interrupt(reqId))
    {
      broken := broken + {requests[reqId]};
      requests := requests - {reqId};
      interrupted := interrupted + {reqId};
    }
  }
}
