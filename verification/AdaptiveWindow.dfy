/**
 `BenchmarkEcho`: a window whose depth follows the measured IOPS, the statistics each client reports,
 and the fixed points of the controller.
 */
module AdaptiveWindow {
  import opened Common

  datatype Config = Config(maxDepth: nat, requests: nat, unlimited: bool, limit: nat)

  /** One client's row in the `StatsCollector`. */
  datatype Stats = Stats(depth: nat, iops: nat, totalIos: nat, updates: nat)

  /** `fallbacks` counts the rounds that took the `to_send = 1` branch. */
  datatype State = State(
    depth: nat,
    toSend: nat,
    ios: nat,
    reqId: nat,
    sent: nat,
    complete: nat,
    out: nat,
    stats: Stats,
    fallbacks: nat
  )

  /** One round of the loop: completions inside `loopOnce`, and whether a second has passed. */
  datatype Turn = Turn(completions: nat, second: bool)

  const NEW_STATS := Stats(0, 0, 0, 0)

  function Start(): State {
    State(1, 1, 0, 0, 0, 0, 0, NEW_STATS, 0)
  }

  // ----- The code of one round -----

  /** The controller: one step up below the limit, one down above it, then the clamp. */
  function NextDepth(depth: nat, ios: nat, limit: nat, maxDepth: nat): nat {
    var d := if ios < limit then Inc64(depth) else if ios > limit then Dec64(depth) else depth;
    if d > maxDepth then maxDepth else if d == 0 then 1 else d
  }

  function Report(st: Stats, depth: nat, iops: nat, newIos: nat): Stats {
    Stats(depth, iops, st.totalIos + newIos, st.updates + 1)
  }

  function Sent(s: State): State {
    s.(reqId := s.reqId + s.toSend, sent := s.sent + s.toSend, out := s.out + s.toSend, ios := s.ios + s.toSend)
  }

  function Completed(s: State, k: nat): State
    requires k <= s.out
  {
    s.(complete := s.complete + k, out := s.out - k)
  }

  function Adjusted(s: State, c: Config, second: bool): State {
    if second then
      s.(stats := Report(s.stats, s.depth, s.ios, s.ios), depth := NextDepth(s.depth, s.ios, c.limit, c.maxDepth), ios := 0)
    else s
  }

  function Refilled(s: State, c: Config): State {
    var t := if s.depth >= s.out then s.(toSend := s.depth - s.out) else s.(toSend := 1, fallbacks := s.fallbacks + 1);
    if t.sent > c.requests && !c.unlimited then t.(toSend := 0) else t
  }

  function Round(s: State, c: Config, turn: Turn): State {
    var sent := Sent(s);
    Refilled(Adjusted(Completed(sent, Min(turn.completions, sent.out)), c, turn.second), c)
  }

  function Rounds(s: State, c: Config, schedule: seq<Turn>): State
    decreases |schedule|
  {
    if schedule == [] || (s.complete >= c.requests && !c.unlimited) then s else
    Rounds(Round(s, c, schedule[0]), c, schedule[1..])
  }

  /** Turns that complete nothing. */
  function Empties(schedule: seq<Turn>): nat {
    if schedule == [] then 0 else (if schedule[0].completions == 0 then 1 else 0) + Empties(schedule[1..])
  }

  // ----- What every run keeps -----

  predicate Consistent(s: State, maxDepth: nat) {
    && 1 <= s.depth <= maxDepth
    && s.stats.totalIos + s.ios == s.sent == s.reqId == s.complete + s.out
    && (s.stats.updates == 0 ==> s.stats == NEW_STATS)
    && (s.stats.updates > 0 ==> 1 <= s.stats.depth <= maxDepth)
  }

  lemma RoundConsistent(s: State, c: Config, turn: Turn)
    requires Consistent(s, c.maxDepth) && c.maxDepth < TWO_32
    ensures Consistent(Round(s, c, turn), c.maxDepth)
  {
  }

  lemma {:induction false} RoundsConsistent(s: State, c: Config, schedule: seq<Turn>)
    requires Consistent(s, c.maxDepth) && c.maxDepth < TWO_32
    ensures Consistent(Rounds(s, c, schedule), c.maxDepth)
    decreases |schedule|
  {
    if schedule != [] && !(s.complete >= c.requests && !c.unlimited) {
      RoundConsistent(s, c, schedule[0]);
      RoundsConsistent(Round(s, c, schedule[0]), c, schedule[1..]);
    }
  }

  /**
   After every round of every run: IOs reported plus IOs of the current second = requests sent =
   last request id = completed + outstanding; and a client's reported depth lies between 1 and the
   maximum if and only if it has reported at all.
   */
  lemma StatisticsConserved(c: Config, schedule: seq<Turn>)
    requires 1 <= c.maxDepth < TWO_32
    ensures var s := Rounds(Start(), c, schedule);
            && s.stats.totalIos + s.ios == s.sent == s.reqId == s.complete + s.out
            && 1 <= s.depth <= c.maxDepth
            && s.stats.depth <= c.maxDepth
            && (s.stats.depth >= 1 <==> s.stats.updates >= 1)
  {
    RoundsConsistent(Start(), c, schedule);
  }

  /** How many requests a turn completes: never more than are outstanding once its window was sent. */
  function Answered(s: State, turn: Turn): nat {
    Min(turn.completions, s.out + s.toSend)
  }

  /**
   What one round of a run does, field by field. At the end of a second the table gets the depth that was
   in force during it and the requests sent in it, and the count starts again; otherwise the row stays.
   */
  ghost predicate RoundDoes(s: State, t: State, c: Config, turn: Turn) {
    && t.sent == s.sent + s.toSend && t.reqId == s.reqId + s.toSend
    && t.complete == s.complete + Answered(s, turn)
    && t.out == s.out + s.toSend - Answered(s, turn)
    && (turn.second ==>
          && t.stats == Stats(s.depth, s.ios + s.toSend, s.stats.totalIos + s.ios + s.toSend, s.stats.updates + 1)
          && t.ios == 0)
    && (!turn.second ==> t.stats == s.stats && t.ios == s.ios + s.toSend && t.depth == s.depth)
    && t.toSend == (if !c.unlimited && t.sent > c.requests then 0 else if t.depth < t.out then 1 else t.depth - t.out)
  }

  /** The controller moves the depth by at most one towards the limit, and keeps it between one and the maximum. */
  ghost predicate DepthMoves(s: State, t: State, c: Config) {
    var iops := s.ios + s.toSend;
    && (iops < c.limit ==> t.depth == Min(s.depth + 1, c.maxDepth))
    && (iops > c.limit ==> t.depth == Max(s.depth - 1, 1))
    && (iops == c.limit ==> t.depth == s.depth)
  }

  lemma RoundExactly(s: State, c: Config, turn: Turn)
    requires Consistent(s, c.maxDepth) && c.maxDepth < TWO_32
    ensures RoundDoes(s, Round(s, c, turn), c, turn)
    ensures turn.second ==> DepthMoves(s, Round(s, c, turn), c)
  {
  }

  /** A run takes its rounds one by one, until its goal is met. */
  lemma {:induction false} RoundsInTurn(s: State, c: Config, schedule: seq<Turn>, turn: Turn)
    ensures Rounds(s, c, []) == s
    ensures var t := Rounds(s, c, schedule);
            Rounds(s, c, schedule + [turn]) == if t.complete >= c.requests && !c.unlimited then t else Round(t, c, turn)
    decreases |schedule|
  {
    if schedule == [] {
      assert [] + [turn] == [turn] && [turn][1..] == [];
    } else if !(s.complete >= c.requests && !c.unlimited) {
      assert (schedule + [turn])[1..] == schedule[1..] + [turn];
      RoundsInTurn(Round(s, c, schedule[0]), c, schedule[1..], turn);
    }
  }

  /** With the request cutoff, nothing is sent beyond the goal, which the last window overshoots by at most the maximum depth. */
  lemma {:induction false} CutoffHolds(s: State, c: Config, schedule: seq<Turn>)
    requires Consistent(s, c.maxDepth) && c.maxDepth < TWO_32 && !c.unlimited
    requires s.sent > c.requests ==> s.toSend == 0
    requires s.sent <= c.requests + c.maxDepth && s.toSend <= c.maxDepth
    ensures var t := Rounds(s, c, schedule);
            (t.sent > c.requests ==> t.toSend == 0) && t.sent <= c.requests + c.maxDepth && t.toSend <= c.maxDepth
    decreases |schedule|
  {
    if schedule != [] && s.complete < c.requests {
      RoundConsistent(s, c, schedule[0]);
      RoundExactly(s, c, schedule[0]);
      CutoffHolds(Round(s, c, schedule[0]), c, schedule[1..]);
    }
  }

  // ----- The window -----

  /** A second ends over the limit in a round that completed nothing, and the depth can still go down. */
  predicate Overruns(s: State, c: Config, turn: Turn) {
    turn.completions == 0 && turn.second && Sent(s).ios > c.limit && s.depth >= 2
  }

  predicate NeverOverruns(s: State, c: Config, schedule: seq<Turn>)
    decreases |schedule|
  {
    schedule != [] ==> !Overruns(s, c, schedule[0]) && NeverOverruns(Round(s, c, schedule[0]), c, schedule[1..])
  }

  /** After every send phase of the run, the requests outstanding are exactly the depth. */
  predicate AlwaysFull(s: State, c: Config, schedule: seq<Turn>)
    decreases |schedule|
  {
    Sent(s).out == s.depth && (schedule != [] ==> AlwaysFull(Round(s, c, schedule[0]), c, schedule[1..]))
  }

  /** One round from a full window: it is full again, and without the fallback, exactly if the round does not overrun. */
  lemma RoundStaysFull(s: State, c: Config, turn: Turn)
    requires Consistent(s, c.maxDepth) && c.maxDepth < TWO_32 && c.unlimited
    requires s.out + s.toSend == s.depth
    ensures var r := Round(s, c, turn);
            && (Sent(r).out == r.depth <==> !Overruns(s, c, turn))
            && (r.fallbacks == s.fallbacks <==> !Overruns(s, c, turn))
  {
  }

  lemma {:induction false} FallbacksGrow(s: State, c: Config, schedule: seq<Turn>)
    ensures Rounds(s, c, schedule).fallbacks >= s.fallbacks
    decreases |schedule|
  {
    if schedule != [] && !(s.complete >= c.requests && !c.unlimited) {
      FallbacksGrow(Round(s, c, schedule[0]), c, schedule[1..]);
    }
  }

  /**
   Without the request cutoff: the window equals the depth after every send phase if and only if no round
   overruns, and if and only if the fallback `to_send = 1` is never taken.
   */
  lemma {:induction false} FullUnlessOverrun(s: State, c: Config, schedule: seq<Turn>)
    requires Consistent(s, c.maxDepth) && c.maxDepth < TWO_32 && c.unlimited
    requires s.out + s.toSend == s.depth
    ensures AlwaysFull(s, c, schedule) <==> NeverOverruns(s, c, schedule)
    ensures Rounds(s, c, schedule).fallbacks == s.fallbacks <==> NeverOverruns(s, c, schedule)
    ensures NeverOverruns(s, c, schedule) ==> Sent(Rounds(s, c, schedule)).out == Rounds(s, c, schedule).depth
    decreases |schedule|
  {
    if schedule != [] {
      var r, rest := Round(s, c, schedule[0]), schedule[1..];
      RoundStaysFull(s, c, schedule[0]);
      RoundConsistent(s, c, schedule[0]);
      if Overruns(s, c, schedule[0]) {
        FallbacksGrow(r, c, rest);
        assert r.fallbacks > s.fallbacks && Sent(r).out != r.depth;
      } else {
        FullUnlessOverrun(r, c, rest);
      }
    }
  }

  lemma {:induction false} AnsweredNeverOverruns(s: State, c: Config, schedule: seq<Turn>)
    requires Consistent(s, c.maxDepth) && c.maxDepth < TWO_32
    requires c.maxDepth == 1 || forall t :: t in schedule ==> t.completions >= 1
    ensures NeverOverruns(s, c, schedule)
    decreases |schedule|
  {
    if schedule != [] {
      assert schedule[0] in schedule && forall t :: t in schedule[1..] ==> t in schedule;
      RoundConsistent(s, c, schedule[0]);
      AnsweredNeverOverruns(Round(s, c, schedule[0]), c, schedule[1..]);
    }
  }

  /** So a run that completes something in every round, or whose maximum depth is one, is always at its depth. */
  lemma WindowIsDepth(c: Config, schedule: seq<Turn>)
    requires 1 <= c.maxDepth < TWO_32 && c.unlimited
    requires c.maxDepth == 1 || forall t :: t in schedule ==> t.completions >= 1
    ensures AlwaysFull(Start(), c, schedule) && Rounds(Start(), c, schedule).fallbacks == 0
  {
    AnsweredNeverOverruns(Start(), c, schedule);
    FullUnlessOverrun(Start(), c, schedule);
  }

  /** In general the window exceeds the maximum depth by at most the number of rounds that completed nothing. */
  lemma {:induction false} WindowOvershoot(s: State, c: Config, schedule: seq<Turn>, empties: nat)
    requires Consistent(s, c.maxDepth) && c.maxDepth < TWO_32
    requires s.out + s.toSend <= c.maxDepth + empties
    ensures Sent(Rounds(s, c, schedule)).out <= c.maxDepth + empties + Empties(schedule)
    decreases |schedule|
  {
    if schedule != [] && !(s.complete >= c.requests && !c.unlimited) {
      var e := if schedule[0].completions == 0 then 1 else 0;
      RoundConsistent(s, c, schedule[0]);
      WindowOvershoot(Round(s, c, schedule[0]), c, schedule[1..], empties + e);
    }
  }

  // The bound is met, from the start of the program. Seconds in which everything completes climb to the
  // maximum depth; a second that then ends over the limit with nothing completed lowers the depth below
  // the full window, and the fallback sends one more; so does every empty round after it.

  lemma {:induction false} RoundsAppend(s: State, c: Config, first: seq<Turn>, more: seq<Turn>)
    requires c.unlimited
    ensures Rounds(s, c, first + more) == Rounds(Rounds(s, c, first), c, more)
    ensures Empties(first + more) == Empties(first) + Empties(more)
    decreases |first|
  {
    if first == [] {
      assert first + more == more;
    } else {
      assert (first + more)[1..] == first[1..] + more;
      RoundsAppend(Round(s, c, first[0]), c, first[1..], more);
    }
  }

  /** An unlimited run whose limit is the maximum depth. */
  function Saturated(maxDepth: nat): Config {
    Config(maxDepth, 0, true, maxDepth)
  }

  predicate Drained(s: State, depth: nat) {
    s.depth == s.toSend == depth && s.out == s.ios == 0
  }

  lemma {:induction false} SecondsClimb(s: State, maxDepth: nat, n: nat)
    requires maxDepth < TWO_32 && Drained(s, s.depth) && s.depth + n <= maxDepth
    ensures var busy := seq(n, i => Turn(maxDepth, true));
            Drained(Rounds(s, Saturated(maxDepth), busy), s.depth + n) && (maxDepth > 0 ==> Empties(busy) == 0)
    decreases n
  {
    var busy := seq(n, i => Turn(maxDepth, true));
    if n > 0 {
      assert busy[1..] == seq(n - 1, i => Turn(maxDepth, true));
      SecondsClimb(Round(s, Saturated(maxDepth), busy[0]), maxDepth, n - 1);
    }
  }

  /** From a drained full window: a round that completes everything, then only empty rounds. */
  function Stalls(maxDepth: nat, n: nat): seq<Turn> {
    [Turn(maxDepth, false), Turn(0, true)] + seq(n, i => Turn(0, false))
  }

  lemma StallsOvershoot(s: State, maxDepth: nat, n: nat)
    requires 2 <= maxDepth < TWO_32 && Drained(s, maxDepth) && Consistent(s, maxDepth)
    ensures Sent(Rounds(s, Saturated(maxDepth), Stalls(maxDepth, n))).out == maxDepth + n + 1
    ensures Empties(Stalls(maxDepth, n)) == n + 1
  {
    var c, idle, stalls := Saturated(maxDepth), seq(n, i => Turn(0, false)), Stalls(maxDepth, n);
    var t := Round(s, c, Turn(maxDepth, false));
    var u := Round(t, c, Turn(0, true));
    RoundConsistent(s, c, Turn(maxDepth, false));
    assert t.out == 0 && t.toSend == t.depth == t.ios == maxDepth;
    EmptySecondOvershoots(t, c);
    EmptyRoundsGrow(u, c, n);
    assert stalls[1..][1..] == idle;
    assert Rounds(s, c, stalls) == Rounds(t, c, stalls[1..]) == Rounds(u, c, idle);
  }

  /** For every maximum depth above one and every n, a run with n + 1 empty rounds overshoots by n + 1. */
  lemma OvershootIsReached(maxDepth: nat, n: nat) returns (c: Config, schedule: seq<Turn>)
    requires 2 <= maxDepth < TWO_32
    ensures c.maxDepth == maxDepth && Empties(schedule) == n + 1
    ensures Sent(Rounds(Start(), c, schedule)).out == maxDepth + Empties(schedule)
  {
    c := Saturated(maxDepth);
    var busy := seq(maxDepth - 1, i => Turn(maxDepth, true));
    SecondsClimb(Start(), maxDepth, maxDepth - 1);
    RoundsConsistent(Start(), c, busy);
    StallsOvershoot(Rounds(Start(), c, busy), maxDepth, n);
    RoundsAppend(Start(), c, busy, Stalls(maxDepth, n));
    schedule := busy + Stalls(maxDepth, n);
  }

  /** At depth two or more, a second over the limit in which nothing completes ... */
  lemma EmptySecondOvershoots(s: State, c: Config)
    requires Consistent(s, c.maxDepth) && c.maxDepth < TWO_32 && c.unlimited
    requires s.out + s.toSend == s.depth >= 2 && s.ios + s.toSend > c.limit
    ensures var r := Round(s, c, Turn(0, true));
            Sent(r).out == s.depth + 1 && r.depth == s.depth - 1 && r.fallbacks == s.fallbacks + 1
  {
  }

  /** ... and every further empty round sends one more again. */
  lemma {:induction false} EmptyRoundsGrow(s: State, c: Config, n: nat)
    requires c.unlimited && s.out + s.toSend > s.depth
    ensures var idle := seq(n, i => Turn(0, false));
            Sent(Rounds(s, c, idle)).out == s.out + s.toSend + n && Empties(idle) == n
    decreases n
  {
    var idle := seq(n, i => Turn(0, false));
    if n > 0 {
      assert idle[1..] == seq(n - 1, i => Turn(0, false));
      EmptyRoundsGrow(Round(s, c, Turn(0, false)), c, n - 1);
    }
  }

  // ----- The controller's limit behaviour -----

  /** Measured IOPS per second as a function of the depth, never falling as the depth grows. */
  ghost predicate Monotone(rate: nat -> nat, maxDepth: nat) {
    forall a, b :: 1 <= a <= b <= maxDepth ==> rate(a) <= rate(b)
  }

  function Control(rate: nat -> nat, limit: nat, maxDepth: nat, d: nat): nat {
    NextDepth(d, rate(d), limit, maxDepth)
  }

  function Iterate(rate: nat -> nat, limit: nat, maxDepth: nat, d: nat, n: nat): nat
    decreases n
  {
    if n == 0 then d else Iterate(rate, limit, maxDepth, Control(rate, limit, maxDepth, d), n - 1)
  }

  /** A depth the controller never leaves: at the limit, or clamped at an end. */
  predicate Resting(rate: nat -> nat, limit: nat, maxDepth: nat, d: nat) {
    1 <= d <= maxDepth
    && (rate(d) == limit || (d == 1 && rate(d) > limit) || (d == maxDepth && rate(d) < limit))
  }

  /** `d` is the least depth whose rate exceeds the limit, and the depth below it falls short. */
  predicate Straddling(rate: nat -> nat, limit: nat, maxDepth: nat, d: nat) {
    2 <= d <= maxDepth && rate(d) > limit && rate(d - 1) < limit
  }

  /** `e` itself, or by turns `e` and the depth below it. */
  function LongRun(rate: nat -> nat, limit: nat, maxDepth: nat, e: nat, k: nat): nat {
    if Straddling(rate, limit, maxDepth, e) && k % 2 == 1 then e - 1 else e
  }

  lemma {:induction false} RestsForEver(rate: nat -> nat, limit: nat, maxDepth: nat, d: nat, n: nat)
    requires maxDepth < TWO_32 && Resting(rate, limit, maxDepth, d)
    ensures Iterate(rate, limit, maxDepth, d, n) == d
    decreases n
  {
    if n > 0 {
      RestsForEver(rate, limit, maxDepth, d, n - 1);
    }
  }

  lemma {:induction false} AlternatesForEver(rate: nat -> nat, limit: nat, maxDepth: nat, d: nat, n: nat)
    requires maxDepth < TWO_32 && Straddling(rate, limit, maxDepth, d)
    ensures Iterate(rate, limit, maxDepth, d, n) == (if n % 2 == 0 then d else d - 1)
    ensures Iterate(rate, limit, maxDepth, d - 1, n) == (if n % 2 == 0 then d - 1 else d)
    decreases n
  {
    if n > 0 {
      AlternatesForEver(rate, limit, maxDepth, d, n - 1);
    }
  }

  /**
   Whatever the rates, from any depth and after fewer than `maxDepth` seconds the controller is at a
   point where it rests for ever, or at the upper end of a pair between which it alternates for ever.
   */
  lemma Converges(rate: nat -> nat, limit: nat, maxDepth: nat, d: nat) returns (n: nat, e: nat)
    requires maxDepth < TWO_32 && 1 <= d <= maxDepth
    ensures n < maxDepth
    ensures Resting(rate, limit, maxDepth, e) || Straddling(rate, limit, maxDepth, e)
    ensures forall k: nat :: Iterate(rate, limit, maxDepth, d, n + k) == LongRun(rate, limit, maxDepth, e, k)
  {
    if rate(d) < limit {
      n, e := Climbs(rate, limit, maxDepth, d);
    } else {
      n, e := Descends(rate, limit, maxDepth, d);
    }
    forall k: nat
      ensures Iterate(rate, limit, maxDepth, d, n + k) == LongRun(rate, limit, maxDepth, e, k)
    {
      IterateSplit(rate, limit, maxDepth, d, n, k);
      if Straddling(rate, limit, maxDepth, e) {
        AlternatesForEver(rate, limit, maxDepth, e, k);
      } else {
        RestsForEver(rate, limit, maxDepth, e, k);
      }
    }
  }

  lemma {:induction false} IterateSplit(rate: nat -> nat, limit: nat, maxDepth: nat, d: nat, n: nat, k: nat)
    ensures Iterate(rate, limit, maxDepth, d, n + k)
            == Iterate(rate, limit, maxDepth, Iterate(rate, limit, maxDepth, d, n), k)
    decreases n
  {
    if n > 0 {
      IterateSplit(rate, limit, maxDepth, Control(rate, limit, maxDepth, d), n - 1, k);
    }
  }

  /**
   When the rate never falls with the depth, an alternating pair is the least depth that reaches the
   limit and the one below it, so the pair is the same from every starting depth and nothing rests.
   */
  lemma StraddleIsLeast(rate: nat -> nat, limit: nat, maxDepth: nat, d: nat)
    requires Monotone(rate, maxDepth) && Straddling(rate, limit, maxDepth, d)
    ensures forall e :: 1 <= e <= maxDepth ==> (rate(e) >= limit <==> e >= d)
    ensures forall e :: Straddling(rate, limit, maxDepth, e) ==> e == d
    ensures forall e :: !Resting(rate, limit, maxDepth, e)
  {
    forall e | 1 <= e <= maxDepth
      ensures e >= d ==> rate(e) > limit
      ensures e < d ==> rate(e) < limit
    {
      if e >= d {
        assert rate(d) <= rate(e);
      } else {
        assert rate(e) <= rate(d - 1);
      }
    }
  }

  lemma Climbs(rate: nat -> nat, limit: nat, maxDepth: nat, d: nat) returns (n: nat, e: nat)
    requires maxDepth < TWO_32 && 1 <= d <= maxDepth && rate(d) < limit
    ensures n <= maxDepth - d && e == Iterate(rate, limit, maxDepth, d, n)
    ensures Resting(rate, limit, maxDepth, e) || Straddling(rate, limit, maxDepth, e)
    decreases maxDepth - d
  {
    if d == maxDepth {
      n, e := 0, d;
    } else if rate(d + 1) < limit {
      n, e := Climbs(rate, limit, maxDepth, d + 1);
      n := n + 1;
    } else {
      n, e := 1, d + 1;
      assert Iterate(rate, limit, maxDepth, d + 1, 0) == d + 1;
    }
  }

  lemma Descends(rate: nat -> nat, limit: nat, maxDepth: nat, d: nat) returns (n: nat, e: nat)
    requires maxDepth < TWO_32 && 1 <= d <= maxDepth && rate(d) >= limit
    ensures n < d && e == Iterate(rate, limit, maxDepth, d, n)
    ensures Resting(rate, limit, maxDepth, e) || Straddling(rate, limit, maxDepth, e)
    decreases d
  {
    if d == 1 || rate(d) == limit || rate(d - 1) < limit {
      n, e := 0, d;
    } else {
      n, e := Descends(rate, limit, maxDepth, d - 1);
      n := n + 1;
    }
  }

  // ----- The controller inside the loop -----

  function Seconds(schedule: seq<Turn>): nat {
    if schedule == [] then 0 else (if schedule[0].second then 1 else 0) + Seconds(schedule[1..])
  }

  /** In every second that ends during the run, as many IOs were sent as `rate` says for the depth. */
  predicate MeasuredBy(s: State, c: Config, schedule: seq<Turn>, rate: nat -> nat)
    decreases |schedule|
  {
    schedule != [] ==>
      && (schedule[0].second ==> Sent(s).ios == rate(s.depth))
      && MeasuredBy(Round(s, c, schedule[0]), c, schedule[1..], rate)
  }

  /** Only the end of a second moves the depth of the running loop, and then as the controller says. */
  lemma {:induction false} DepthFollowsController(s: State, c: Config, schedule: seq<Turn>, rate: nat -> nat)
    requires c.unlimited && MeasuredBy(s, c, schedule, rate)
    ensures Rounds(s, c, schedule).depth == Iterate(rate, c.limit, c.maxDepth, s.depth, Seconds(schedule))
    decreases |schedule|
  {
    if schedule != [] {
      DepthFollowsController(Round(s, c, schedule[0]), c, schedule[1..], rate);
    }
  }

  /**
   So in every run measured by `rate`, however its rounds, completions and seconds fall, the loop's depth
   has reached its resting point or its alternating pair after `n` seconds, fewer than the maximum depth.
   */
  lemma RunsConverge(c: Config, rate: nat -> nat) returns (n: nat, e: nat)
    requires c.unlimited && 1 <= c.maxDepth < TWO_32
    ensures n < c.maxDepth
    ensures Resting(rate, c.limit, c.maxDepth, e) || Straddling(rate, c.limit, c.maxDepth, e)
    ensures forall schedule :: MeasuredBy(Start(), c, schedule, rate) && Seconds(schedule) >= n ==>
              Rounds(Start(), c, schedule).depth == LongRun(rate, c.limit, c.maxDepth, e, Seconds(schedule) - n)
  {
    n, e := Converges(rate, c.limit, c.maxDepth, 1);
    forall schedule | MeasuredBy(Start(), c, schedule, rate) && Seconds(schedule) >= n
      ensures Rounds(Start(), c, schedule).depth == LongRun(rate, c.limit, c.maxDepth, e, Seconds(schedule) - n)
    {
      DepthFollowsController(Start(), c, schedule, rate);
      var k: nat := Seconds(schedule) - n;
      assert Iterate(rate, c.limit, c.maxDepth, 1, n + k) == LongRun(rate, c.limit, c.maxDepth, e, k);
    }
  }

  /** Such runs exist, of any number of seconds: if every round completes everything and lasts a second, the rate is the depth. */
  lemma {:induction false} MeasuredRun(s: State, c: Config, n: nat)
    requires c.unlimited && c.maxDepth < TWO_32 && 1 <= s.depth <= c.maxDepth && Drained(s, s.depth)
    ensures var busy := seq(n, i => Turn(c.maxDepth, true));
            MeasuredBy(s, c, busy, d => d) && Seconds(busy) == n
    decreases n
  {
    var busy := seq(n, i => Turn(c.maxDepth, true));
    if n > 0 {
      assert busy[1..] == seq(n - 1, i => Turn(c.maxDepth, true));
      MeasuredRun(Round(s, c, busy[0]), c, n - 1);
    }
  }

  // ----- The statistics table -----

  function DepthOf(r: Stats): nat { r.depth }

  function SumOf(rows: seq<Stats>, field: Stats -> nat): nat {
    if rows == [] then 0 else field(rows[0]) + SumOf(rows[1..], field)
  }

  function SumDepth(rows: seq<Stats>): nat {
    SumOf(rows, DepthOf)
  }

  lemma {:induction false} SumDepthBounds(rows: seq<Stats>, low: nat, high: nat)
    requires forall r :: r in rows ==> low <= r.depth <= high
    ensures low * |rows| <= SumDepth(rows) <= high * |rows|
  {
    if rows != [] {
      assert rows[0] in rows;
      SumDepthBounds(rows[1..], low, high);
      Distribute(low, 1, |rows| - 1);
      Distribute(high, 1, |rows| - 1);
    }
  }

  /** The average depth that is printed for rows within bounds is within the same bounds. */
  lemma AverageInBounds(rows: seq<Stats>, low: nat, high: nat)
    requires rows != [] && forall r :: r in rows ==> low <= r.depth <= high
    ensures low <= SumDepth(rows) / |rows| <= high
  {
    SumDepthBounds(rows, low, high);
    var sum, n := SumDepth(rows), |rows|;
    DivBounds(sum, n);
    QuotientOrder(low, sum / n, n, sum, sum);
    QuotientOrder(sum / n, high, n, sum, high * n);
  }

  /** The rows of clients that have each run some schedule. */
  ghost predicate RowsOfRuns(rows: seq<Stats>, maxDepth: nat) {
    forall r :: r in rows ==> exists c: Config, schedule ::
      c.maxDepth == maxDepth && r == Rounds(Start(), c, schedule).stats
  }

  /** How far the depths that clients reported exceed one, in all. */
  function Excess(rows: seq<Stats>): int {
    if rows == [] then 0 else (if rows[0].updates >= 1 then rows[0].depth - 1 else 0) + Excess(rows[1..])
  }

  /** How many clients have not reported yet. */
  function Silent(rows: seq<Stats>): nat {
    if rows == [] then 0 else (if rows[0].updates == 0 then 1 else 0) + Silent(rows[1..])
  }

  lemma {:induction false} DepthsByReport(rows: seq<Stats>)
    requires forall r :: r in rows ==> (r.depth >= 1 <==> r.updates >= 1)
    ensures SumDepth(rows) == Excess(rows) + |rows| - Silent(rows) && Excess(rows) >= 0
  {
    if rows != [] {
      assert rows[0] in rows;
      DepthsByReport(rows[1..]);
    }
  }

  lemma RowsReport(rows: seq<Stats>, maxDepth: nat)
    requires 1 <= maxDepth < TWO_32 && RowsOfRuns(rows, maxDepth)
    ensures forall r :: r in rows ==> r.depth <= maxDepth && (r.depth >= 1 <==> r.updates >= 1)
  {
    forall r | r in rows
      ensures r.depth <= maxDepth && (r.depth >= 1 <==> r.updates >= 1)
    {
      var c: Config, schedule :| c.maxDepth == maxDepth && r == Rounds(Start(), c, schedule).stats;
      StatisticsConserved(c, schedule);
    }
  }

  lemma AtLeastOne(sum: nat, n: nat)
    requires n > 0
    ensures 1 <= sum / n <==> n <= sum
  {
    DivBounds(sum, n);
    if n <= sum {
      QuotientOrder(1, sum / n, n, sum, sum);
    }
  }

  /**
   The printed average is at most the maximum depth. It is at least one if and only if the reported depths
   make up for the silent clients, by as much as they exceed one; so it is once every client has reported.
   */
  lemma PrintedDepth(rows: seq<Stats>, maxDepth: nat)
    requires 1 <= maxDepth < TWO_32 && rows != [] && RowsOfRuns(rows, maxDepth)
    ensures SumDepth(rows) / |rows| <= maxDepth
    ensures 1 <= SumDepth(rows) / |rows| <==> Excess(rows) >= Silent(rows)
    ensures Silent(rows) == 0 ==> 1 <= SumDepth(rows) / |rows|
  {
    RowsReport(rows, maxDepth);
    AverageInBounds(rows, 0, maxDepth);
    DepthsByReport(rows);
    AtLeastOne(SumDepth(rows), |rows|);
  }

  /** A client that was just added has depth zero, and while it is alone so is the average printed. */
  lemma NewClientPrintsZero(c: Config, rows: seq<Stats>)
    requires rows == [NEW_STATS]
    ensures RowsOfRuns(rows, c.maxDepth) && SumDepth(rows) / |rows| == 0
  {
    assert Rounds(Start(), c, []).stats == NEW_STATS;
    assert rows[1..] == [];
    assert SumOf(rows[1..], DepthOf) == 0;
    assert SumOf(rows, DepthOf) == DepthOf(rows[0]);
    DivBelow(SumDepth(rows), |rows|);
  }

  /** The rows in the table's iteration order. */
  function Rows(stats: map<nat, Stats>, order: seq<nat>): seq<Stats>
    requires forall id :: id in order ==> id in stats
  {
    seq(|order|, i requires 0 <= i < |order| => stats[order[i]])
  }

  /** The two averages `DumpInfo` prints. */
  datatype Averages = Averages(iops: nat, depth: nat)

  class StatsCollector {
    var stats: map<nat, Stats>

    constructor ()
      ensures stats == map[]
    {
      stats := map[];
    }

    /** The source asserts that the client is new. */
    method ClientAdd(id: nat)
      requires id !in stats
      modifies this
      ensures stats == old(stats)[id := Stats(0, 0, 0, 0)]
    {
      stats := stats[id := NEW_STATS];
    }

    /** The source asserts that the client is known. */
    method Update(id: nat, depth: nat, iops: nat, newIos: nat)
      requires id in stats
      modifies this
      ensures var row := old(stats)[id];
              stats == old(stats)[id := Stats(depth, iops, row.totalIos + newIos, row.updates + 1)]
    {
      var row := stats[id];
      stats := stats[id := Stats(depth, iops, row.totalIos + newIos, row.updates + 1)];
    }

    /** `order` is the table's iteration order; the averages are printed when there is any client. */
    method DumpInfo(order: seq<nat>) returns (averages: Option<Averages>)
      requires forall id :: id in order ==> id in stats
      ensures averages == if order == [] then None else
                Some(Averages(SumOf(Rows(stats, order), (r: Stats) => r.iops) / |order|, SumDepth(Rows(stats, order)) / |order|))
    {
      var curIops, curDepth := 0, 0;
      ghost var rows := Rows(stats, order);
      var i := 0;
      assert rows[0..] == rows;
      while i < |order|
        invariant i <= |order|
        invariant curIops + SumOf(rows[i..], (r: Stats) => r.iops) == SumOf(rows, (r: Stats) => r.iops)
        invariant curDepth + SumDepth(rows[i..]) == SumDepth(rows)
      {
        assert rows[i..][1..] == rows[i + 1..];
        curIops := curIops + stats[order[i]].iops;
        curDepth := curDepth + stats[order[i]].depth;
        i := i + 1;
      }
      assert rows[i..] == [];
      if |order| > 0 {
        averages := Some(Averages(curIops / |order|, curDepth / |order|));
      } else {
        averages := None;
      }
    }
  }

  // ----- The code of the loop -----

  class EchoSender {
    const config: Config
    const id: nat
    const table: StatsCollector
    var currentDepth: nat
    var toSend: nat
    var iosInLastSecond: nat
    var reqId: nat
    var reqSent: nat
    var reqComplete: nat
    var reqOut: nat
    ghost var fallbacks: nat

    ghost predicate Registered()
      reads this, table
    {
      id in table.stats
    }

    ghost function View(): State
      requires Registered()
      reads this, table
    {
      State(currentDepth, toSend, iosInLastSecond, reqId, reqSent, reqComplete, reqOut, table.stats[id], fallbacks)
    }

    constructor (config: Config, table: StatsCollector, id: nat)
      requires id !in table.stats
      modifies table
      ensures table.stats == old(table.stats)[id := NEW_STATS]
      ensures Registered() && View() == Start() && this.config == config && this.table == table && this.id == id
    {
      this.config, this.table, this.id := config, table, id;
      currentDepth, toSend, iosInLastSecond := 1, 1, 0;
      reqId, reqSent, reqComplete, reqOut, fallbacks := 0, 0, 0, 0, 0;
      new;
      table.ClientAdd(id);
    }

    /** Lines 154-167. */
    method SendWindow()
      requires Registered()
      modifies this
      ensures Registered() && View() == Sent(old(View()))
    {
      var i := 0;
      while i < toSend
        invariant i <= toSend && Registered()
        invariant View() == old(View()).(reqId := old(reqId) + i, sent := old(reqSent) + i, out := old(reqOut) + i)
      {
        reqId := reqId + 1;
        reqOut := reqOut + 1;
        reqSent := reqSent + 1;
        i := i + 1;
      }
      iosInLastSecond := iosInLastSecond + toSend;
    }

    /** Lines 171-189. */
    method Adjust(second: bool)
      requires Registered()
      modifies this, table
      ensures Registered() && View() == Adjusted(old(View()), config, second)
      ensures second ==>
                && table.stats[id].depth == old(currentDepth) && table.stats[id].iops == old(iosInLastSecond)
                && table.stats[id].updates == old(table.stats[id].updates) + 1
                && iosInLastSecond == 0
      ensures !second ==> table.stats == old(table.stats) && currentDepth == old(currentDepth)
      ensures table.stats - {id} == old(table.stats) - {id}
    {
      if second {
        var newIos := iosInLastSecond;
        table.Update(id, currentDepth, newIos, newIos);
        if iosInLastSecond < config.limit {
          currentDepth := Inc64(currentDepth);
        } else if iosInLastSecond > config.limit {
          currentDepth := Dec64(currentDepth);
        }
        if currentDepth > config.maxDepth {
          currentDepth := config.maxDepth;
        } else if currentDepth == 0 {
          currentDepth := 1;
        }
        iosInLastSecond := 0;
      }
    }

    /** Lines 191-198. */
    method Refill()
      requires Registered()
      modifies this
      ensures Registered() && View() == Refilled(old(View()), config)
      ensures reqSent > config.requests && !config.unlimited ==> toSend == 0
    {
      if currentDepth >= reqOut {
        toSend := currentDepth - reqOut;
      } else {
        toSend := 1;
        fallbacks := fallbacks + 1;
      }
      if reqSent > config.requests && !config.unlimited {
        toSend := 0;
      }
    }

    /** The body of the loop. */
    method TakeRound(turn: Turn)
      requires Registered()
      modifies this, table
      ensures Registered() && View() == Round(old(View()), config, turn)
      ensures table.stats - {id} == old(table.stats) - {id}
    {
      SendWindow();
      var k := Min(turn.completions, reqOut);
      reqComplete, reqOut := reqComplete + k, reqOut - k;
      Adjust(turn.second);
      Refill();
    }

    /** The loop, for as many rounds as the environment provides; other clients' rows are not touched. */
    method BenchmarkEcho(schedule: seq<Turn>)
      requires Registered()
      modifies this, table
      ensures Registered() && View() == Rounds(old(View()), config, schedule)
      ensures table.stats - {id} == old(table.stats) - {id}
    {
      var r := 0;
      assert schedule[0..] == schedule;
      while (reqComplete < config.requests || config.unlimited) && r < |schedule|
        invariant r <= |schedule| && Registered() && table.stats - {id} == old(table.stats) - {id}
        invariant Rounds(View(), config, schedule[r..]) == Rounds(old(View()), config, schedule)
        decreases |schedule| - r
      {
        assert schedule[r..][1..] == schedule[r + 1..];
        TakeRound(schedule[r]);
        r := r + 1;
      }
    }
  }
}
