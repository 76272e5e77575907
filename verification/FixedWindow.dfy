/**
 `BenchmarkSend` and `BenchmarkSendNoData`: a fixed window that is refilled after every turn of the
 event loop until more than `requests` have been sent. Only counters matter; a turn completes any
 number of the outstanding requests.
 */
module FixedWindow {
  import opened Common

  datatype State = State(toSend: nat, reqId: nat, sent: nat, complete: nat, out: nat)

  function Start(depth: nat): State {
    State(depth, 0, 0, 0, 0)
  }

  /** One round of the loop in which the event loop completes `k` requests. */
  function Round(s: State, depth: nat, requests: nat, k: nat): State
    requires k <= s.out + s.toSend
  {
    var sent, out := s.sent + s.toSend, s.out + s.toSend - k;
    State(if sent > requests then 0 else Sub64(depth, out), s.reqId + s.toSend, sent, s.complete + k, out)
  }

  /** Rounds until the guard fails or the schedule ends; a completion count is capped by what is outstanding. */
  function Rounds(s: State, depth: nat, requests: nat, schedule: seq<nat>): State
    decreases |schedule|
  {
    if schedule == [] || s.complete >= requests then s else
    Rounds(Round(s, depth, requests, Min(schedule[0], s.out + s.toSend)), depth, requests, schedule[1..])
  }

  predicate Inv(s: State, depth: nat, requests: nat) {
    && s.sent == s.reqId == s.complete + s.out
    && s.out <= depth < TWO_32 && s.toSend == (if s.sent > requests then 0 else depth - s.out)
    && (s.complete < requests ==> s.sent + s.toSend <= requests - 1 + depth)
    && (requests > 0 ==> s.sent <= requests - 1 + depth)
  }

  /** No unsigned subtraction wraps, and the counters stay consistent. */
  lemma RoundKeeps(s: State, depth: nat, requests: nat, k: nat)
    requires Inv(s, depth, requests) && s.complete < requests && k <= s.out + s.toSend
    ensures Inv(Round(s, depth, requests, k), depth, requests)
    ensures var t := Round(s, depth, requests, k);
            && t.out <= depth && t.toSend == (if t.sent > requests then 0 else depth - t.out)
            && t.sent == s.sent + s.toSend && t.complete == s.complete + k && t.out == s.out + s.toSend - k
  {
  }

  lemma {:induction false} RoundsKeep(s: State, depth: nat, requests: nat, schedule: seq<nat>)
    requires Inv(s, depth, requests)
    ensures Inv(Rounds(s, depth, requests, schedule), depth, requests)
    decreases |schedule|
  {
    if schedule != [] && s.complete < requests {
      var k := Min(schedule[0], s.out + s.toSend);
      RoundKeeps(s, depth, requests, k);
      RoundsKeep(Round(s, depth, requests, k), depth, requests, schedule[1..]);
    }
  }

  /** A run takes its rounds one by one until the goal is met, and counts what each completes. */
  lemma {:induction false} RoundsInTurn(s: State, depth: nat, requests: nat, schedule: seq<nat>, k: nat)
    ensures Rounds(s, depth, requests, []) == s
    ensures var t := Rounds(s, depth, requests, schedule);
            Rounds(s, depth, requests, schedule + [k])
            == if t.complete >= requests then t else Round(t, depth, requests, Min(k, t.out + t.toSend))
    decreases |schedule|
  {
    if schedule == [] {
      assert [] + [k] == [k] && [k][1..] == [];
    } else if s.complete < requests {
      assert (schedule + [k])[1..] == schedule[1..] + [k];
      RoundsInTurn(Round(s, depth, requests, Min(schedule[0], s.out + s.toSend)), depth, requests, schedule[1..], k);
    }
  }

  /**
   Between rounds of any run: sent = completed + outstanding, the window holds, the next round refills
   it or, past the cutoff, sends nothing (so `kQueueDepth - req_out` never wraps), at most
   `requests + depth - 1` are ever sent, and with a positive depth the next turn of the event loop
   never starts with nothing outstanding before the loop's goal is met.
   */
  lemma FixedWindowHolds(depth: nat, requests: nat, schedule: seq<nat>)
    requires depth < TWO_32
    ensures var s := Rounds(Start(depth), depth, requests, schedule);
            && s.sent == s.reqId == s.complete + s.out
            && s.out <= depth
            && s.toSend == (if s.sent > requests then 0 else depth - s.out)
            && (requests > 0 && depth > 0 ==> s.sent <= requests + depth - 1)
            && (depth > 0 && s.complete < requests ==> s.out + s.toSend > 0)
  {
    RoundsKeep(Start(depth), depth, requests, schedule);
  }

  /** With a completion in every round, `requests` rounds meet the goal. */
  lemma {:induction false} FixedWindowFinishes(s: State, depth: nat, requests: nat, schedule: seq<nat>)
    requires Inv(s, depth, requests) && depth > 0
    requires s.complete + |schedule| >= requests && forall k :: k in schedule ==> k > 0
    ensures Rounds(s, depth, requests, schedule).complete >= requests
    decreases |schedule|
  {
    if schedule != [] && s.complete < requests {
      var k := Min(schedule[0], s.out + s.toSend);
      assert schedule[0] in schedule && forall j :: j in schedule[1..] ==> j in schedule;
      RoundKeeps(s, depth, requests, k);
      FixedWindowFinishes(Round(s, depth, requests, k), depth, requests, schedule[1..]);
    }
  }

  /** With depth zero nothing is ever sent, so a positive goal is never met. */
  lemma {:induction false} ZeroDepthSendsNothing(s: State, requests: nat, schedule: seq<nat>)
    requires s == Start(0)
    ensures Rounds(s, 0, requests, schedule) == s
    decreases |schedule|
  {
    if schedule != [] && s.complete < requests {
      ZeroDepthSendsNothing(Round(s, 0, requests, 0), requests, schedule[1..]);
    }
  }

  // ----- The code -----

  class Sender {
    const depth: nat
    const requests: nat
    var toSend: nat
    var reqId: nat
    var reqSent: nat
    var reqComplete: nat
    var reqOut: nat

    ghost function View(): State
      reads this
    {
      State(toSend, reqId, reqSent, reqComplete, reqOut)
    }

    constructor (depth: nat, requests: nat)
      ensures View() == Start(depth) && this.depth == depth && this.requests == requests
    {
      this.depth, this.requests := depth, requests;
      toSend, reqId, reqSent, reqComplete, reqOut := depth, 0, 0, 0, 0;
    }

    /** The send loop: one call, then the two counters. */
    method SendWindow()
      modifies this
      ensures View() == old(State(toSend, reqId + toSend, reqSent + toSend, reqComplete, reqOut + toSend))
    {
      var i := 0;
      while i < toSend
        invariant i <= toSend
        invariant View() == old(State(toSend, reqId + i, reqSent + i, reqComplete, reqOut + i))
      {
        reqId := reqId + 1;
        reqOut := reqOut + 1;
        reqSent := reqSent + 1;
        i := i + 1;
      }
    }

    /** The continuations that run inside one call of `loopOnce`. */
    method LoopOnce(k: nat)
      requires k <= reqOut
      modifies this
      ensures View() == old(State(toSend, reqId, reqSent, reqComplete + k, reqOut - k))
    {
      var i := 0;
      while i < k
        invariant i <= k && reqOut == old(reqOut) - i && reqComplete == old(reqComplete) + i
        invariant toSend == old(toSend) && reqId == old(reqId) && reqSent == old(reqSent)
      {
        reqComplete := reqComplete + 1;
        reqOut := reqOut - 1;
        i := i + 1;
      }
    }

    method BenchmarkSend(schedule: seq<nat>)
      modifies this
      ensures View() == Rounds(old(View()), depth, requests, schedule)
    {
      var r := 0;
      assert schedule[0..] == schedule;
      while reqComplete < requests && r < |schedule|
        invariant r <= |schedule|
        invariant Rounds(View(), depth, requests, schedule[r..]) == Rounds(old(View()), depth, requests, schedule)
        decreases |schedule| - r
      {
        assert schedule[r..][1..] == schedule[r + 1..];
        SendWindow();
        LoopOnce(Min(schedule[r], reqOut));
        toSend := Sub64(depth, reqOut);
        if reqSent > requests {
          toSend := 0;
        }
        r := r + 1;
      }
    }
  }
}
