/** The DB server: leaf connections, round-robin reads, and the write fan-out with its completion barrier. */
module DbServer {
  import opened Common

  // ----- Round robin -----

  /** `getLeaf`: the index after the current one. */
  function NextLeaf(cur: nat, n: nat): (next: nat)
    requires n > 0
    ensures next < n
  {
    (cur + 1) % n
  }

  /** The index chosen by the k-th call (the starting index for k = 0). */
  function Chosen(start: nat, n: nat, k: nat): nat
    requires n > 0
  {
    if k == 0 then start else NextLeaf(Chosen(start, n, k - 1), n)
  }

  /** How many of the first k calls chose leaf j. */
  function TimesChosen(start: nat, n: nat, k: nat, j: nat): nat
    requires n > 0
  {
    if k == 0 then 0 else TimesChosen(start, n, k - 1, j) + if Chosen(start, n, k) == j then 1 else 0
  }

  /** In which call of a round leaf j comes up: 1 for the one after `start`, n for `start` itself. */
  function Offset(start: nat, n: nat, j: nat): nat
    requires start < n && j < n
  {
    if j > start then j - start else j - start + n
  }

  lemma NextRound(k: nat, n: nat)
    requires n > 0
    ensures if k % n + 1 == n then (k + 1) / n == k / n + 1 && (k + 1) % n == 0
            else (k + 1) / n == k / n && (k + 1) % n == k % n + 1
  {
    DivBounds(k, n);
    DivBounds(k + 1, n);
    Distribute(n, k / n, 1);
    Distribute(n, (k + 1) / n, 1);
    QuotientOrder(k / n, (k + 1) / n, n, k, k + 1);
    if (k + 1) / n > k / n {
      CancelFactor((k + 1) / n, k / n + 2, n) by {
        Distribute(n, k / n, 2);
      }
    }
  }

  lemma WrapsAround(cur: nat, n: nat)
    requires cur < n
    ensures NextLeaf(cur, n) == if cur + 1 == n then 0 else cur + 1
  {
  }

  /** The index `r` places after `start`, for r below n. */
  function Position(start: nat, n: nat, r: nat): nat
    requires start < n && r < n
  {
    if start + r < n then start + r else start + r - n
  }

  // The k-th call as (full rounds completed, place in the current round), without division.

  function Place(k: nat, n: nat): (r: nat)
    requires n > 0
    ensures r < n
  {
    if k == 0 then 0 else if Place(k - 1, n) + 1 == n then 0 else Place(k - 1, n) + 1
  }

  function FullRounds(k: nat, n: nat): nat
    requires n > 0
  {
    if k == 0 then 0 else FullRounds(k - 1, n) + if Place(k, n) == 0 then 1 else 0
  }

  lemma {:induction false} RoundsOfCalls(k: nat, n: nat)
    requires n > 0
    ensures Place(k, n) == k % n && FullRounds(k, n) == k / n
  {
    if k > 0 {
      RoundsOfCalls(k - 1, n);
      NextRound(k - 1, n);
    }
  }

  lemma {:induction false} ChosenPosition(start: nat, n: nat, k: nat)
    requires start < n
    ensures Chosen(start, n, k) == Position(start, n, Place(k, n))
  {
    if k > 0 {
      ChosenPosition(start, n, k - 1);
      WrapsAround(Chosen(start, n, k - 1), n);
    }
  }

  lemma {:induction false} CountByPlace(start: nat, n: nat, k: nat, j: nat)
    requires start < n && j < n
    ensures TimesChosen(start, n, k, j) == FullRounds(k, n) + if Offset(start, n, j) <= Place(k, n) then 1 else 0
  {
    if k > 0 {
      CountByPlace(start, n, k - 1, j);
      ChosenPosition(start, n, k);
    }
  }

  /**
   Exactly how often each leaf is chosen by k calls: once per full round, and once more if its turn
   has come in the current one.
   */
  lemma RoundRobin(start: nat, n: nat, k: nat, j: nat)
    requires start < n && j < n
    ensures TimesChosen(start, n, k, j) == k / n + if Offset(start, n, j) <= k % n then 1 else 0
  {
    CountByPlace(start, n, k, j);
    RoundsOfCalls(k, n);
  }

  /** So over any number of calls no two leaves differ by more than one. */
  lemma RoundRobinFair(start: nat, n: nat, k: nat, i: nat, j: nat)
    requires start < n && i < n && j < n
    ensures -1 <= TimesChosen(start, n, k, i) - TimesChosen(start, n, k, j) <= 1
  {
    RoundRobin(start, n, k, i);
    RoundRobin(start, n, k, j);
  }

  // ----- The completion barrier of a write -----

  /** Where one leaf is with its share of a write: asked, file opened and IO submitted, IO completed. */
  datatype Stage = Asked | Submitted | Written

  /** The DB's future for it, which ends in an exception when the channel closes before the reply. */
  datatype Future = Pending | Done | Failed

  datatype Call = Call(stage: Stage, future: Future)

  /**
   One write: leaves 0, 1, ... are called in turn; `collectAll` then counts futures that are complete,
   whether or not in an exception, and fires when it has counted them all, at once if they were
   complete before it was called.
   */
  datatype Write = Write(calls: seq<Call>, collecting: bool, counted: nat, acks: nat)

  datatype State = State(leaves: nat, writes: map<nat, Write>)

  datatype Action =
    | Arrive(id: nat)
    | Issue(id: nat)
    | Collect(id: nat)
    | LeafSubmit(id: nat, i: nat)
    | LeafIo(id: nat, i: nat)
    | LeafReply(id: nat, i: nat)
    | LeafFail(id: nat, i: nat)

  predicate IsCall(s: State, id: nat, i: nat) {
    id in s.writes && i < |s.writes[id].calls|
  }

  /** A leaf goes on with a write whether or not its channel is still open. */
  predicate Enabled(s: State, a: Action) {
    match a
    case Arrive(id) => id !in s.writes
    case Issue(id) => id in s.writes && |s.writes[id].calls| < s.leaves
    case Collect(id) => id in s.writes && |s.writes[id].calls| == s.leaves && !s.writes[id].collecting
    case LeafSubmit(id, i) => IsCall(s, id, i) && s.writes[id].calls[i].stage.Asked?
    case LeafIo(id, i) => IsCall(s, id, i) && s.writes[id].calls[i].stage.Submitted?
    case LeafReply(id, i) => IsCall(s, id, i) && s.writes[id].calls[i] == Call(Written, Pending)
    case LeafFail(id, i) => IsCall(s, id, i) && s.writes[id].calls[i].future.Pending?
  }

  /** How many of the futures are complete. */
  function Resolved(calls: seq<Call>): nat {
    if calls == [] then 0 else ResolvedOne(calls[0]) + Resolved(calls[1..])
  }

  function ResolvedOne(c: Call): nat {
    if c.future.Pending? then 0 else 1
  }

  /** `collectAll`'s context after it has counted `counted` completions. */
  function Counted(w: Write, leaves: nat, counted: nat): Write {
    w.(counted := counted, acks := if counted == leaves then w.acks + 1 else w.acks)
  }

  function Moved(w: Write, i: nat, c: Call): Write
    requires i < |w.calls|
  {
    w.(calls := w.calls[i := c])
  }

  /** The future of call `i` completes, and `collectAll` counts it if it is already waiting. */
  function Completed(w: Write, leaves: nat, i: nat, future: Future): Write
    requires i < |w.calls|
  {
    var v := Moved(w, i, w.calls[i].(future := future));
    if v.collecting then Counted(v, leaves, v.counted + 1) else v
  }

  function Stepped(s: State, a: Action): Write
    requires Enabled(s, a)
  {
    if a.Arrive? then Write([], false, 0, 0) else
    var w := s.writes[a.id];
    match a
    case Issue(_) => w.(calls := w.calls + [Call(Asked, Pending)])
    case Collect(_) => Counted(w.(collecting := true), s.leaves, Resolved(w.calls))
    case LeafSubmit(_, i) => Moved(w, i, w.calls[i].(stage := Submitted))
    case LeafIo(_, i) => Moved(w, i, w.calls[i].(stage := Written))
    case LeafReply(_, i) => Completed(w, s.leaves, i, Done)
    case LeafFail(_, i) => Completed(w, s.leaves, i, Failed)
  }

  function Apply(s: State, a: Action): State
    requires Enabled(s, a)
  {
    s.(writes := s.writes[a.id := Stepped(s, a)])
  }

  predicate ValidRun(s: State, run: seq<Action>)
    decreases |run|
  {
    run == [] || (Enabled(s, run[0]) && ValidRun(Apply(s, run[0]), run[1..]))
  }

  function Final(s: State, run: seq<Action>): State
    requires ValidRun(s, run)
    decreases |run|
  {
    if run == [] then s else Final(Apply(s, run[0]), run[1..])
  }

  ghost predicate WriteInv(w: Write, leaves: nat) {
    && |w.calls| <= leaves
    && (w.collecting ==> |w.calls| == leaves && w.counted == Resolved(w.calls))
    && w.acks == (if w.collecting && Resolved(w.calls) == leaves then 1 else 0)
    && (forall i :: 0 <= i < |w.calls| && w.calls[i].future.Done? ==> w.calls[i].stage.Written?)
  }

  ghost predicate Inv(s: State) {
    forall id :: id in s.writes ==> WriteInv(s.writes[id], s.leaves)
  }

  /** The futures are all complete exactly when they have all been counted. */
  lemma {:induction false} ResolvedAll(calls: seq<Call>)
    ensures Resolved(calls) <= |calls|
    ensures Resolved(calls) == |calls| <==> forall i :: 0 <= i < |calls| ==> !calls[i].future.Pending?
  {
    if calls != [] {
      ResolvedAll(calls[1..]);
      var rest := calls[1..];
      assert forall i :: 0 <= i < |rest| ==> calls[i + 1] == rest[i];
      assert forall i :: 0 < i < |calls| ==> calls[i] == rest[i - 1];
    }
  }

  lemma {:induction false} ResolvedMove(calls: seq<Call>, i: nat, c: Call)
    requires i < |calls|
    ensures Resolved(calls[i := c]) == Resolved(calls) - ResolvedOne(calls[i]) + ResolvedOne(c)
  {
    if i == 0 {
      assert calls[0 := c][1..] == calls[1..];
    } else {
      assert calls[i := c][1..] == calls[1..][i - 1 := c];
      ResolvedMove(calls[1..], i - 1, c);
    }
  }

  lemma {:induction false} ResolvedIssue(calls: seq<Call>)
    ensures Resolved(calls + [Call(Asked, Pending)]) == Resolved(calls)
  {
    if calls == [] {
      assert calls + [Call(Asked, Pending)] == [Call(Asked, Pending)];
    } else {
      assert (calls + [Call(Asked, Pending)])[1..] == calls[1..] + [Call(Asked, Pending)];
      ResolvedIssue(calls[1..]);
    }
  }

  lemma CompletedKeeps(w: Write, leaves: nat, i: nat, future: Future)
    requires WriteInv(w, leaves) && i < |w.calls| && w.calls[i].future.Pending?
    requires future.Failed? || (future.Done? && w.calls[i].stage.Written?)
    ensures WriteInv(Completed(w, leaves, i, future), leaves)
  {
    ResolvedAll(w.calls);
    ResolvedMove(w.calls, i, w.calls[i].(future := future));
    ResolvedAll(Completed(w, leaves, i, future).calls);
  }

  lemma MovedKeeps(w: Write, leaves: nat, i: nat, stage: Stage)
    requires WriteInv(w, leaves) && i < |w.calls| && !w.calls[i].stage.Written?
    ensures WriteInv(Moved(w, i, w.calls[i].(stage := stage)), leaves)
  {
    ResolvedMove(w.calls, i, w.calls[i].(stage := stage));
  }

  lemma StepKeeps(s: State, a: Action)
    requires Inv(s) && Enabled(s, a)
    ensures Inv(Apply(s, a)) && Apply(s, a).leaves == s.leaves
  {
    if !a.Arrive? {
      var w := s.writes[a.id];
      match a
      case Issue(_) => ResolvedAll(w.calls); ResolvedIssue(w.calls);
      case Collect(_) =>
      case LeafSubmit(_, i) => MovedKeeps(w, s.leaves, i, Submitted);
      case LeafIo(_, i) => MovedKeeps(w, s.leaves, i, Written);
      case LeafReply(_, i) => CompletedKeeps(w, s.leaves, i, Done);
      case LeafFail(_, i) => CompletedKeeps(w, s.leaves, i, Failed);
    }
    assert WriteInv(Stepped(s, a), s.leaves);
  }

  lemma {:induction false} RunKeeps(s: State, run: seq<Action>)
    requires Inv(s) && ValidRun(s, run)
    ensures Inv(Final(s, run)) && Final(s, run).leaves == s.leaves
    decreases |run|
  {
    if run != [] {
      StepKeeps(s, run[0]);
      RunKeeps(Apply(s, run[0]), run[1..]);
    }
  }

  predicate EveryCallIs(w: Write, leaves: nat, p: Call -> bool) {
    |w.calls| == leaves && forall i :: 0 <= i < leaves ==> p(w.calls[i])
  }

  /** Every leaf was called and every call has come to its end, in a reply or an exception. */
  predicate ResolvedEverywhere(w: Write, leaves: nat) {
    EveryCallIs(w, leaves, (c: Call) => !c.future.Pending?)
  }

  /** Every leaf's IO for this write has completed. */
  predicate WrittenEverywhere(w: Write, leaves: nat) {
    EveryCallIs(w, leaves, (c: Call) => c.stage.Written?)
  }

  predicate NoneFailed(w: Write) {
    forall i :: 0 <= i < |w.calls| ==> !w.calls[i].future.Failed?
  }

  /**
   Over any run, with any number of writes in progress and leaves answering or failing in any order: a
   write is acknowledged at most once, and exactly when its loop is over and every call has come to its
   end. If no call failed it is then written everywhere; in general it is exactly if every leaf whose
   call failed has written it all the same.
   */
  lemma WriteBarrier(leaves: nat, run: seq<Action>, id: nat)
    requires ValidRun(State(leaves, map[]), run) && id in Final(State(leaves, map[]), run).writes
    ensures var w := Final(State(leaves, map[]), run).writes[id];
            && w.acks <= 1
            && (w.acks == 1 <==> w.collecting && ResolvedEverywhere(w, leaves))
            && (w.acks == 1 && NoneFailed(w) ==> WrittenEverywhere(w, leaves))
            && (w.acks == 1 ==>
                  (WrittenEverywhere(w, leaves) <==>
                   forall i :: 0 <= i < leaves && w.calls[i].future.Failed? ==> w.calls[i].stage.Written?))
  {
    RunKeeps(State(leaves, map[]), run);
    ResolvedAll(Final(State(leaves, map[]), run).writes[id].calls);
  }

  // ----- What the DB can conclude from the outcomes of its calls -----

  /** At the end of the run, write `id` is acknowledged and its calls have ended as `o` says. */
  ghost predicate Saw(o: seq<Future>, run: seq<Action>, id: nat) {
    && ValidRun(State(|o|, map[]), run)
    && var s := Final(State(|o|, map[]), run);
    && id in s.writes && s.writes[id].acks == 1 && |s.writes[id].calls| == |o|
    && forall i :: 0 <= i < |o| ==> s.writes[id].calls[i].future == o[i]
  }

  predicate WrittenAtEnd(o: seq<Future>, run: seq<Action>, id: nat)
    requires ValidRun(State(|o|, map[]), run) && id in Final(State(|o|, map[]), run).writes
  {
    WrittenEverywhere(Final(State(|o|, map[]), run).writes[id], |o|)
  }

  ghost predicate Leads(s: State, t: State) {
    exists run :: ValidRun(s, run) && Final(s, run) == t
  }

  lemma LeadsVia(s: State, a: Action, t: State)
    requires Enabled(s, a) && Leads(Apply(s, a), t)
    ensures Leads(s, t)
  {
    var run :| ValidRun(Apply(s, a), run) && Final(Apply(s, a), run) == t;
    assert ([a] + run)[1..] == run;
    assert ValidRun(s, [a] + run) && Final(s, [a] + run) == t;
  }

  lemma LeadsToItself(s: State)
    ensures Leads(s, s)
  {
    assert ValidRun(s, []) && Final(s, []) == s;
  }

  /** The state with one write, numbered 1, whose calls are as given. */
  function Only(leaves: nat, w: Write): State {
    State(leaves, map[1 := w])
  }

  function Open(calls: seq<Call>): Write {
    Write(calls, false, 0, 0)
  }

  /** A call that ends with the least the leaf must then have done. */
  function Ended(f: Future): Call {
    Call(if f.Done? then Written else Asked, f)
  }

  function Play(o: seq<Future>, k: nat): seq<Call>
    requires k <= |o|
  {
    seq(k, i requires 0 <= i < k => Ended(o[i]))
  }

  lemma MoveLast(leaves: nat, calls: seq<Call>, c: Call, a: Action, d: Call, t: State)
    requires a.id == 1 && !a.Arrive? && !a.Issue? && !a.Collect? && a.i == |calls|
    requires Enabled(Only(leaves, Open(calls + [c])), a)
    requires Stepped(Only(leaves, Open(calls + [c])), a) == Open((calls + [c])[|calls| := d])
    requires Leads(Only(leaves, Open(calls + [d])), t)
    ensures Leads(Only(leaves, Open(calls + [c])), t)
  {
    var s := Only(leaves, Open(calls + [c]));
    assert (calls + [c])[|calls| := d] == calls + [d];
    assert Apply(s, a) == Only(leaves, Open(calls + [d]));
    LeadsVia(s, a, t);
  }

  /** A call that was just issued may end either way: at once in an exception, or after the leaf has written. */
  lemma CallEnds(leaves: nat, calls: seq<Call>, f: Future, t: State)
    requires !f.Pending? && Leads(Only(leaves, Open(calls + [Ended(f)])), t)
    ensures Leads(Only(leaves, Open(calls + [Call(Asked, Pending)])), t)
  {
    var i := |calls|;
    if f.Failed? {
      MoveLast(leaves, calls, Call(Asked, Pending), LeafFail(1, i), Ended(f), t);
    } else {
      MoveLast(leaves, calls, Call(Written, Pending), LeafReply(1, i), Ended(f), t);
      MoveLast(leaves, calls, Call(Submitted, Pending), LeafIo(1, i), Call(Written, Pending), t);
      MoveLast(leaves, calls, Call(Asked, Pending), LeafSubmit(1, i), Call(Submitted, Pending), t);
    }
  }

  lemma {:induction false} PlayLeads(o: seq<Future>, k: nat, t: State)
    requires k <= |o| && forall i :: 0 <= i < |o| ==> !o[i].Pending?
    requires Leads(Only(|o|, Open(Play(o, |o|))), t)
    ensures Leads(Only(|o|, Open(Play(o, k))), t)
    decreases |o| - k
  {
    if k < |o| {
      PlayLeads(o, k + 1, t);
      assert Play(o, k + 1) == Play(o, k) + [Ended(o[k])];
      CallEnds(|o|, Play(o, k), o[k], t);
      var s := Only(|o|, Open(Play(o, k)));
      assert Apply(s, Issue(1)) == Only(|o|, Open(Play(o, k) + [Call(Asked, Pending)]));
      LeadsVia(s, Issue(1), t);
    }
  }

  /** Every combination of replies and exceptions can be seen with no failed leaf having written anything. */
  lemma OutcomeHappens(o: seq<Future>) returns (run: seq<Action>)
    requires forall i :: 0 <= i < |o| ==> !o[i].Pending?
    ensures Saw(o, run, 1)
    ensures Final(State(|o|, map[]), run).writes[1].calls == Play(o, |o|)
  {
    var calls, start := Play(o, |o|), State(|o|, map[]);
    ResolvedAll(calls);
    var end := Apply(Only(|o|, Open(calls)), Collect(1));
    LeadsToItself(end);
    LeadsVia(Only(|o|, Open(calls)), Collect(1), end);
    PlayLeads(o, 0, end);
    assert Play(o, 0) == [];
    assert Apply(start, Arrive(1)) == Only(|o|, Open([]));
    LeadsVia(start, Arrive(1), end);
    run :| ValidRun(start, run) && Final(start, run) == end;
  }

  /** So whenever some call fails, the write may be acknowledged without being written everywhere. */
  lemma FailedWriteAcknowledged(o: seq<Future>) returns (run: seq<Action>)
    requires (forall i :: 0 <= i < |o| ==> !o[i].Pending?) && exists i :: 0 <= i < |o| && o[i].Failed?
    ensures Saw(o, run, 1) && !WrittenAtEnd(o, run, 1)
  {
    run := OutcomeHappens(o);
    var i :| 0 <= i < |o| && o[i].Failed?;
    assert Final(State(|o|, map[]), run).writes[1].calls[i] == Ended(o[i]);
  }

  /**
   What an acknowledgement tells the DB: from the outcomes of its calls it can conclude that the write is
   written everywhere if and only if no call failed.
   */
  lemma AcknowledgedMeansWritten(o: seq<Future>)
    requires forall i :: 0 <= i < |o| ==> !o[i].Pending?
    ensures (forall run, id :: Saw(o, run, id) ==> WrittenAtEnd(o, run, id))
            <==> forall i :: 0 <= i < |o| ==> !o[i].Failed?
  {
    if forall i :: 0 <= i < |o| ==> !o[i].Failed? {
      forall run, id | Saw(o, run, id)
        ensures WrittenAtEnd(o, run, id)
      {
        WriteBarrier(|o|, run, id);
      }
    } else {
      var run := FailedWriteAcknowledged(o);
    }
  }

  // ----- One write, as the DB's loop and the other threads make it -----

  /** The steps that only the loop of write `id` takes. */
  predicate Own(a: Action, id: nat) {
    a.id == id && (a.Arrive? || a.Issue? || a.Collect?)
  }

  /** The others' steps, as far as they are enabled when their turn comes. */
  function Others(s: State, script: seq<Action>, id: nat): State
    decreases |script|
  {
    if script == [] then s else
    Others(if Enabled(s, script[0]) && !Own(script[0], id) then Apply(s, script[0]) else s, script[1..], id)
  }

  predicate Looping(s: State, leaves: nat, id: nat, asked: nat) {
    s.leaves == leaves && id in s.writes && |s.writes[id].calls| == asked && !s.writes[id].collecting
  }

  lemma {:induction false} OthersKeep(s: State, script: seq<Action>, leaves: nat, id: nat, asked: nat)
    requires Looping(s, leaves, id, asked)
    ensures Looping(Others(s, script, id), leaves, id, asked)
    decreases |script|
  {
    if script != [] {
      OthersKeep(if Enabled(s, script[0]) && !Own(script[0], id) then Apply(s, script[0]) else s, script[1..], leaves, id, asked);
    }
  }

  lemma {:induction false} OthersLead(s: State, script: seq<Action>, id: nat, t: State)
    requires Leads(Others(s, script, id), t)
    ensures Leads(s, t)
    decreases |script|
  {
    if script != [] {
      if Enabled(s, script[0]) && !Own(script[0], id) {
        OthersLead(Apply(s, script[0]), script[1..], id, t);
        LeadsVia(s, script[0], t);
      } else {
        OthersLead(s, script[1..], id, t);
      }
    }
  }

  /** The loop from its k-th iteration on, with the others' turn after each. */
  function IssueAll(s: State, id: nat, others: nat -> seq<Action>, k: nat): (r: State)
    requires Looping(s, s.leaves, id, k) && k <= s.leaves
    ensures Looping(r, s.leaves, id, s.leaves)
    decreases s.leaves - k
  {
    if k == s.leaves then s else
    OthersKeep(Apply(s, Issue(id)), others(k), s.leaves, id, k + 1);
    IssueAll(Others(Apply(s, Issue(id)), others(k), id), id, others, k + 1)
  }

  lemma {:induction false} IssueAllLeads(s: State, id: nat, others: nat -> seq<Action>, k: nat, t: State)
    requires Looping(s, s.leaves, id, k) && k <= s.leaves && Leads(IssueAll(s, id, others, k), t)
    ensures Leads(s, t)
    decreases s.leaves - k
  {
    if k < s.leaves {
      var issued := Apply(s, Issue(id));
      OthersKeep(issued, others(k), s.leaves, id, k + 1);
      IssueAllLeads(Others(issued, others(k), id), id, others, k + 1, t);
      OthersLead(issued, others(k), id, t);
      LeadsVia(s, Issue(id), t);
    }
  }

  function WholeWrite(s: State, id: nat, others: nat -> seq<Action>): (r: State)
    requires id !in s.writes
    ensures r.leaves == s.leaves && id in r.writes && r.writes[id].collecting && |r.writes[id].calls| == s.leaves
  {
    Apply(IssueAll(Apply(s, Arrive(id)), id, others, 0), Collect(id))
  }

  /** The loop calls every leaf and then waits, and with the others' steps in between it is a run of the machine. */
  lemma WholeWriteIsRun(s: State, id: nat, others: nat -> seq<Action>)
    requires id !in s.writes
    ensures Leads(s, WholeWrite(s, id, others))
  {
    var arrived, end := Apply(s, Arrive(id)), WholeWrite(s, id, others);
    var asked := IssueAll(arrived, id, others, 0);
    LeadsToItself(end);
    LeadsVia(asked, Collect(id), end);
    IssueAllLeads(arrived, id, others, 0, end);
    LeadsVia(s, Arrive(id), end);
  }

  /** The steps that move a write on: not a new write, nor a failure, nor what a leaf does after one. */
  predicate Drives(s: State, a: Action) {
    match a
    case Arrive(_) => false
    case LeafFail(_, _) => false
    case LeafSubmit(id, i) => IsCall(s, id, i) && s.writes[id].calls[i].future.Pending?
    case LeafIo(id, i) => IsCall(s, id, i) && s.writes[id].calls[i].future.Pending?
    case _ => true
  }

  /** When nothing of that kind is left to do, every write has been acknowledged. */
  lemma QuietMeansAcknowledged(leaves: nat, run: seq<Action>, id: nat)
    requires ValidRun(State(leaves, map[]), run) && id in Final(State(leaves, map[]), run).writes
    requires var s := Final(State(leaves, map[]), run); forall a :: Drives(s, a) ==> !Enabled(s, a)
    ensures Final(State(leaves, map[]), run).writes[id].acks == 1
  {
    var s := Final(State(leaves, map[]), run);
    var w := s.writes[id];
    RunKeeps(State(leaves, map[]), run);
    assert Drives(s, Issue(id)) && Drives(s, Collect(id));
    forall i | 0 <= i < |w.calls|
      ensures !w.calls[i].future.Pending?
    {
      if w.calls[i].future.Pending? {
        assert Drives(s, LeafSubmit(id, i)) && Drives(s, LeafIo(id, i)) && Drives(s, LeafReply(id, i));
      }
    }
    ResolvedAll(w.calls);
  }

  // ----- The code -----

  /** A leaf's connection; `client` is the handle, `writesAsked` and `readsAsked` what was requested over it. */
  class Leaf {
    var connected: bool
    var client: Option<nat>
    ghost var writesAsked: seq<(string, string)>
    ghost var readsAsked: seq<(string, int)>

    predicate Valid()
      reads this
    {
      connected <==> client.Some?
    }

    constructor ()
      ensures Valid() && !connected && writesAsked == [] && readsAsked == []
    {
      connected, client, writesAsked, readsAsked := false, None, [], [];
    }

    /** The source asserts that there is no connection yet. */
    method Connect(handle: nat)
      requires Valid() && client.None? && !connected
      modifies this`connected, this`client
      ensures Valid() && connected && client == Some(handle)
    {
      client := Some(handle);
      connected := true;
    }

    /** `channelClosed`, at any time the event base reports it. */
    method SetDisconnected()
      modifies this`connected, this`client
      ensures Valid() && !connected
    {
      client := None;
      connected := false;
    }

    method FutureWrite(filename: string, data: string)
      requires client.Some?
      modifies this`writesAsked
      ensures writesAsked == old(writesAsked) + [(filename, data)]
    {
      writesAsked := writesAsked + [(filename, data)];
    }

    method FutureRead(filename: string, size: int)
      requires client.Some?
      modifies this`readsAsked
      ensures readsAsked == old(readsAsked) + [(filename, size)]
    {
      readsAsked := readsAsked + [(filename, size)];
    }
  }

  class DbHandler {
    const leafs: seq<Leaf>
    var curLeaf: nat
    ghost var nreads: nat
    ghost var state: State

    /**
     The index and the reads that went to each leaf are those of `nreads` rounds of `NextLeaf`; `state` is
     where the writes are.
     */
    ghost predicate Valid()
      reads this, leafs
    {
      && leafs != [] && state.leaves == |leafs| && curLeaf == Chosen(0, |leafs|, nreads) < |leafs|
      && (forall i, j :: 0 <= i < j < |leafs| ==> leafs[i] != leafs[j])
      && (forall i :: 0 <= i < |leafs| ==> leafs[i].Valid())
      && (forall i :: 0 <= i < |leafs| ==> |leafs[i].readsAsked| == TimesChosen(0, |leafs|, nreads, i))
    }

    constructor (leafs: seq<Leaf>)
      requires leafs != []
      requires forall i, j :: 0 <= i < j < |leafs| ==> leafs[i] != leafs[j]
      requires forall i :: 0 <= i < |leafs| ==> leafs[i].Valid() && leafs[i].readsAsked == []
      ensures Valid() && this.leafs == leafs && nreads == 0 && state == State(|leafs|, map[])
    {
      this.leafs, curLeaf, nreads, state := leafs, 0, 0, State(|leafs|, map[]);
    }

    method GetLeaf() returns (leaf: Leaf)
      requires leafs != []
      modifies this`curLeaf
      ensures curLeaf == NextLeaf(old(curLeaf), |leafs|) && leaf == leafs[curLeaf]
    {
      curLeaf := (curLeaf + 1) % |leafs|;
      leaf := leafs[curLeaf];
    }

    /** Lines 124-136: the read goes to the next leaf, connected first if need be, and to no other. */
    method AsyncTmRead(filename: string, size: int, handle: nat)
      requires Valid()
      modifies this, leafs
      ensures Valid() && nreads == old(nreads) + 1 && state == old(state)
      ensures forall i :: 0 <= i < |leafs| ==>
                && leafs[i].writesAsked == old(leafs[i].writesAsked)
                && leafs[i].readsAsked == old(leafs[i].readsAsked) + if i == curLeaf then [(filename, size)] else []
      ensures leafs[curLeaf].connected
    {
      var leaf := GetLeaf();
      if !leaf.connected {
        leaf.Connect(handle);
      }
      leaf.FutureRead(filename, size);
      nreads := nreads + 1;
    }

    /** Any two leaves have been asked for almost the same number of reads. */
    lemma ReadsAreBalanced(i: nat, j: nat)
      requires Valid() && i < |leafs| && j < |leafs|
      ensures -1 <= |leafs[i].readsAsked| - |leafs[j].readsAsked| <= 1
    {
      RoundRobinFair(0, |leafs|, nreads, i, j);
    }

    /**
     Lines 101-116: every leaf is connected when it is asked, and asked exactly once; each request is the
     `Issue` step of write `id`, and `others(k)` is what leaves and other writes do after the k-th.
     */
    method AsyncTmWrite(filename: string, data: string, handles: seq<nat>, ghost id: nat, ghost others: nat -> seq<Action>)
      requires Valid() && |handles| == |leafs| && id !in state.writes
      modifies this`state, leafs
      ensures Valid()
      ensures state == WholeWrite(old(state), id, others) && Leads(old(state), state)
      ensures forall i :: 0 <= i < |leafs| ==>
                && leafs[i].connected && leafs[i].readsAsked == old(leafs[i].readsAsked)
                && leafs[i].writesAsked == old(leafs[i].writesAsked) + [(filename, data)]
    {
      WholeWriteIsRun(state, id, others);
      state := Apply(state, Arrive(id));
      AskLeafs(filename, data, handles, id, others);
      state := Apply(state, Collect(id));
    }

    /** The loop of lines 103-111. */
    method AskLeafs(filename: string, data: string, handles: seq<nat>, ghost id: nat, ghost others: nat -> seq<Action>)
      requires Valid() && |handles| == |leafs| && Looping(state, |leafs|, id, 0)
      modifies this`state, leafs
      ensures Valid()
      ensures state == IssueAll(old(state), id, others, 0)
      ensures forall i :: 0 <= i < |leafs| ==>
                && leafs[i].connected && leafs[i].readsAsked == old(leafs[i].readsAsked)
                && leafs[i].writesAsked == old(leafs[i].writesAsked) + [(filename, data)]
    {
      ghost var end := IssueAll(state, id, others, 0);
      var i := 0;
      while i < |leafs|
        invariant i <= |leafs| && Valid()
        invariant Looping(state, |leafs|, id, i) && IssueAll(state, id, others, i) == end
        invariant forall j :: 0 <= j < i ==>
                    leafs[j].connected && leafs[j].writesAsked == old(leafs[j].writesAsked) + [(filename, data)]
        invariant forall j :: i <= j < |leafs| ==> leafs[j].writesAsked == old(leafs[j].writesAsked)
        invariant forall j :: 0 <= j < |leafs| ==> leafs[j].readsAsked == old(leafs[j].readsAsked)
      {
        AskLeaf(i, filename, data, handles[i], id, others);
        i := i + 1;
      }
    }

    /** The body of that loop. */
    method AskLeaf(i: nat, filename: string, data: string, handle: nat, ghost id: nat, ghost others: nat -> seq<Action>)
      requires Valid() && i < |leafs| && Looping(state, |leafs|, id, i)
      modifies this`state, leafs[i]
      ensures Valid() && leafs[i].connected && leafs[i].readsAsked == old(leafs[i].readsAsked)
      ensures leafs[i].writesAsked == old(leafs[i].writesAsked) + [(filename, data)]
      ensures Looping(state, |leafs|, id, i + 1)
      ensures IssueAll(state, id, others, i + 1) == IssueAll(old(state), id, others, i)
    {
      var leaf := leafs[i];
      if !leaf.connected {
        leaf.Connect(handle);
      }
      leaf.FutureWrite(filename, data);
      OthersKeep(Apply(state, Issue(id)), others(i), |leafs|, id, i + 1);
      state := Others(Apply(state, Issue(id)), others(i), id);
    }
  }
}
