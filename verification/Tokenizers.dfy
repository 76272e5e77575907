/**
 The two tokenizers: `Split` of the StorageRpc client and `split` of the DB servers. They differ in
 one brace: `split` moves past a delimiter only when the piece before it was not empty.
 */
module Tokenizers {
  import opened Common

  // ----- Pieces -----

  /** `find`: the first position of the delimiter from position s on. */
  function FindFrom(input: string, delim: char, s: nat): (e: Option<nat>)
    requires s <= |input|
    ensures e.Some? ==> s <= e.value < |input| && input[e.value] == delim
    decreases |input| - s
  {
    if s == |input| then None else if input[s] == delim then Some(s) else FindFrom(input, delim, s + 1)
  }

  lemma {:induction false} FindsFirst(input: string, delim: char, s: nat)
    requires s <= |input|
    ensures match FindFrom(input, delim, s)
            case None => delim !in input[s..]
            case Some(e) => delim !in input[s..e]
    decreases |input| - s
  {
    if s < |input| && input[s] != delim {
      FindsFirst(input, delim, s + 1);
      var end := match FindFrom(input, delim, s) case None => |input| case Some(e) => e;
      assert input[s..end] == [input[s]] + input[s + 1..end];
      assert input[s..|input|] == input[s..];
    }
  }

  /** What lies between the delimiters from position s on, empty pieces included. */
  function PiecesFrom(input: string, delim: char, s: nat): (p: seq<string>)
    requires s <= |input|
    ensures p != []
    decreases |input| - s
  {
    match FindFrom(input, delim, s)
    case None => [input[s..]]
    case Some(e) => [input[s..e]] + PiecesFrom(input, delim, e + 1)
  }

  function Pieces(t: string, delim: char): seq<string> {
    PiecesFrom(t, delim, 0)
  }

  function Join(tokens: seq<string>, delim: char): string
    requires tokens != []
  {
    if |tokens| == 1 then tokens[0] else tokens[0] + [delim] + Join(tokens[1..], delim)
  }

  function NonEmpty(tokens: seq<string>): seq<string> {
    if tokens == [] then [] else (if tokens[0] != "" then [tokens[0]] else []) + NonEmpty(tokens[1..])
  }

  /** The non-empty pieces in order, then the last piece whether or not it is empty. */
  function TokensOf(p: seq<string>): seq<string>
    requires p != []
  {
    NonEmpty(p[..|p| - 1]) + [p[|p| - 1]]
  }

  function Tokens(t: string, delim: char): seq<string> {
    TokensOf(Pieces(t, delim))
  }

  predicate Full(p: seq<string>) {
    forall k :: 0 <= k < |p| - 1 ==> p[k] != ""
  }

  /** Every piece that a delimiter follows is non-empty. */
  predicate NoEmptyField(t: string, delim: char) {
    Full(Pieces(t, delim))
  }

  lemma TokensOfCons(x: string, q: seq<string>)
    requires q != []
    ensures TokensOf([x] + q) == (if x != "" then [x] else []) + TokensOf(q)
  {
    var p := [x] + q;
    assert p[..|p| - 1] == [x] + q[..|q| - 1];
    assert ([x] + q[..|q| - 1])[1..] == q[..|q| - 1];
  }

  lemma FullCons(x: string, q: seq<string>)
    requires q != []
    ensures Full([x] + q) <==> x != "" && Full(q)
  {
    var p := [x] + q;
    assert p[0] == x && forall k :: 0 <= k < |q| ==> p[k + 1] == q[k];
    if Full(p) {
      forall k | 0 <= k < |q| - 1
        ensures q[k] != ""
      {
        assert p[k + 1] != "";
      }
    }
  }

  // ----- Joining -----

  lemma {:induction false} JoinPieces(t: string, delim: char, s: nat)
    requires s <= |t|
    ensures Join(PiecesFrom(t, delim, s), delim) == t[s..]
    ensures forall x :: x in PiecesFrom(t, delim, s) ==> delim !in x
    decreases |t| - s
  {
    FindsFirst(t, delim, s);
    var e := FindFrom(t, delim, s);
    if e.Some? {
      JoinPieces(t, delim, e.value + 1);
      assert PiecesFrom(t, delim, s)[1..] == PiecesFrom(t, delim, e.value + 1);
      assert t[s..] == t[s..e.value] + [delim] + t[e.value + 1..];
    }
  }

  lemma {:induction false} NonEmptyIsShorter(tokens: seq<string>)
    ensures |NonEmpty(tokens)| <= |tokens|
    ensures |NonEmpty(tokens)| == |tokens| ==> NonEmpty(tokens) == tokens
    ensures |NonEmpty(tokens)| == |tokens| <==> forall k :: 0 <= k < |tokens| ==> tokens[k] != ""
    ensures forall x :: x in NonEmpty(tokens) ==> x in tokens && x != ""
  {
    if tokens != [] {
      NonEmptyIsShorter(tokens[1..]);
    }
  }

  /** Only empty pieces are dropped, and the order is kept. */
  lemma {:induction false} NonEmptyConcat(a: seq<string>, b: seq<string>)
    ensures NonEmpty(a + b) == NonEmpty(a) + NonEmpty(b)
    ensures forall x :: NonEmpty([x]) == if x == "" then [] else [x]
  {
    if a == [] {
      assert a + b == b;
    } else {
      assert (a + b)[1..] == a[1..] + b;
      NonEmptyConcat(a[1..], b);
    }
  }

  function Count(t: string, delim: char): nat {
    if t == "" then 0 else (if t[0] == delim then 1 else 0) + Count(t[1..], delim)
  }

  lemma {:induction false} CountConcat(a: string, b: string, delim: char)
    ensures Count(a + b, delim) == Count(a, delim) + Count(b, delim)
  {
    if a == "" {
      assert a + b == b;
    } else {
      assert (a + b)[1..] == a[1..] + b;
      CountConcat(a[1..], b, delim);
    }
  }

  lemma {:induction false} CountZero(a: string, delim: char)
    requires delim !in a
    ensures Count(a, delim) == 0
  {
    if a != "" {
      CountZero(a[1..], delim);
    }
  }

  lemma {:induction false} CountOfJoin(tokens: seq<string>, delim: char)
    requires tokens != [] && forall x :: x in tokens ==> delim !in x
    ensures Count(Join(tokens, delim), delim) == |tokens| - 1
  {
    CountZero(tokens[0], delim);
    if |tokens| > 1 {
      CountOfJoin(tokens[1..], delim);
      CountConcat(tokens[0] + [delim], Join(tokens[1..], delim), delim);
      CountConcat(tokens[0], [delim], delim);
      assert Count([delim], delim) == 1;
    }
  }

  lemma TokensOrPieces(p: seq<string>)
    requires p != []
    ensures Full(p) <==> |TokensOf(p)| == |p|
    ensures Full(p) ==> TokensOf(p) == p
    ensures forall x :: x in TokensOf(p) ==> x in p
  {
    NonEmptyIsShorter(p[..|p| - 1]);
    assert p == p[..|p| - 1] + [p[|p| - 1]];
  }

  /** Joining what `Split` returns gives back its input exactly when no field is empty; it always returns a token. */
  lemma SplitJoin(t: string, delim: char)
    ensures Tokens(t, delim) != []
    ensures Join(Tokens(t, delim), delim) == t <==> NoEmptyField(t, delim)
  {
    JoinPieces(t, delim, 0);
    TokensOrPieces(Pieces(t, delim));
    CountOfJoin(Tokens(t, delim), delim);
    CountOfJoin(Pieces(t, delim), delim);
  }

  // ----- `Split` -----

  /** Past a non-empty piece, the pieces and the verdict are those of what is left; an empty one decides it. */
  lemma PieceStep(input: string, delim: char, s: nat)
    requires s <= |input| && FindFrom(input, delim, s).Some?
    ensures var e := FindFrom(input, delim, s).value;
            && PiecesFrom(input, delim, s) == [input[s..e]] + PiecesFrom(input, delim, e + 1)
            && TokensOf(PiecesFrom(input, delim, s))
               == (if e != s then [input[s..e]] else []) + TokensOf(PiecesFrom(input, delim, e + 1))
            && (Full(PiecesFrom(input, delim, s)) <==> e != s && Full(PiecesFrom(input, delim, e + 1)))
  {
    var e := FindFrom(input, delim, s).value;
    TokensOfCons(input[s..e], PiecesFrom(input, delim, e + 1));
    FullCons(input[s..e], PiecesFrom(input, delim, e + 1));
  }

  lemma LastPiece(input: string, delim: char, s: nat)
    requires s <= |input| && FindFrom(input, delim, s).None?
    ensures PiecesFrom(input, delim, s) == [input[s..]] == TokensOf([input[s..]])
    ensures Full(PiecesFrom(input, delim, s))
  {
  }

  /** `Split`'s loop invariant: the tokens so far and those of what is left are all the tokens. */
  ghost predicate KeepsTokens(str: string, delim: char, s: nat, tokens: seq<string>) {
    s <= |str| && tokens + TokensOf(PiecesFrom(str, delim, s)) == Tokens(str, delim)
  }

  lemma KeepsTokensStep(str: string, delim: char, s: nat, e: nat, tokens: seq<string>)
    requires KeepsTokens(str, delim, s, tokens) && FindFrom(str, delim, s) == Some(e)
    ensures KeepsTokens(str, delim, e + 1, if e != s then tokens + [str[s..e]] else tokens)
  {
    PieceStep(str, delim, s);
    ConcatAssociates(tokens, [str[s..e]], TokensOf(PiecesFrom(str, delim, e + 1)));
  }

  lemma KeepsTokensLast(str: string, delim: char, s: nat, tokens: seq<string>)
    requires KeepsTokens(str, delim, s, tokens) && FindFrom(str, delim, s).None?
    ensures tokens + [str[s..]] == Tokens(str, delim)
  {
    LastPiece(str, delim, s);
  }

  /** StorageRpc's `Split`; the last comparison is against `npos` and so always succeeds. */
  method Split(str: string, delim: char) returns (tokens: seq<string>)
    ensures tokens == Tokens(str, delim)
  {
    tokens := [];
    var s := 0;
    var e := FindFrom(str, delim, s);
    while e.Some?
      invariant s <= |str| && e == FindFrom(str, delim, s)
      invariant KeepsTokens(str, delim, s, tokens)
      decreases |str| - s
    {
      KeepsTokensStep(str, delim, s, e.value, tokens);
      if e.value != s {
        tokens := tokens + [str[s..e.value]];
      }
      s := e.value + 1;
      e := FindFrom(str, delim, s);
    }
    KeepsTokensLast(str, delim, s, tokens);
    if e != Some(s) {
      tokens := tokens + [str[s..]];
    }
  }

  // ----- `split` -----

  /** The loop's variables; `e` is recomputed by the guard. */
  datatype Loop = Loop(s: nat, v: seq<string>)

  predicate Exits(input: string, delim: char, l: Loop) {
    l.s <= |input| && FindFrom(input, delim, l.s).None?
  }

  /** One iteration of the body, the guard having found a delimiter. */
  function Body(input: string, delim: char, l: Loop): (r: Loop)
    requires l.s <= |input| && FindFrom(input, delim, l.s).Some?
    ensures r.s <= |input|
  {
    var e := FindFrom(input, delim, l.s).value;
    if e != l.s then Loop(e + 1, l.v + [input[l.s..e]]) else l
  }

  /** The variables after n iterations, or after the exit if that comes first. */
  function Iterations(input: string, delim: char, l: Loop, n: nat): (r: Loop)
    requires l.s <= |input|
    ensures r.s <= |input|
    decreases n
  {
    if n == 0 || Exits(input, delim, l) then l else Iterations(input, delim, Body(input, delim, l), n - 1)
  }

  ghost predicate Terminates(input: string, delim: char) {
    exists n: nat :: Exits(input, delim, Iterations(input, delim, Loop(0, []), n))
  }

  lemma {:induction false} StaysPut(input: string, delim: char, l: Loop, n: nat)
    requires l.s <= |input| && FindFrom(input, delim, l.s) == Some(l.s)
    ensures Iterations(input, delim, l, n) == l
    decreases n
  {
    if n > 0 {
      StaysPut(input, delim, l, n - 1);
    }
  }

  /** From any loop state, an exit comes only when no field that is left is empty, and then with all the pieces ... */
  lemma {:induction false} ExitMeansFull(input: string, delim: char, l: Loop, n: nat)
    requires l.s <= |input| && Exits(input, delim, Iterations(input, delim, l, n))
    ensures Full(PiecesFrom(input, delim, l.s))
    ensures var r := Iterations(input, delim, l, n);
            r.v + [input[r.s..]] == l.v + PiecesFrom(input, delim, l.s)
    decreases n
  {
    var found := FindFrom(input, delim, l.s);
    if found.Some? {
      if found.value == l.s {
        StaysPut(input, delim, l, n);
      } else if n > 0 {
        var x, left := input[l.s..found.value], PiecesFrom(input, delim, found.value + 1);
        ExitMeansFull(input, delim, Body(input, delim, l), n - 1);
        FullCons(x, left);
        ConcatAssociates(l.v, [x], left);
      }
    }
  }

  /** ... and it does come, within as many iterations as characters are left. */
  lemma {:induction false} FullMeansExit(input: string, delim: char, l: Loop, n: nat)
    requires l.s <= |input| && Full(PiecesFrom(input, delim, l.s)) && n >= |input| - l.s
    ensures Exits(input, delim, Iterations(input, delim, l, n))
    decreases n
  {
    var found := FindFrom(input, delim, l.s);
    if found.Some? {
      FullCons(input[l.s..found.value], PiecesFrom(input, delim, found.value + 1));
      FullMeansExit(input, delim, Body(input, delim, l), n - 1);
    }
  }

  /** `split` terminates exactly on the inputs without an empty field. */
  lemma SplitTerminates(input: string, delim: char)
    ensures Terminates(input, delim) <==> NoEmptyField(input, delim)
  {
    if NoEmptyField(input, delim) {
      FullMeansExit(input, delim, Loop(0, []), |input|);
    }
    if Terminates(input, delim) {
      var n: nat :| Exits(input, delim, Iterations(input, delim, Loop(0, []), n));
      ExitMeansFull(input, delim, Loop(0, []), n);
    }
  }

  /** For example a leading delimiter keeps it in the loop for ever, where `Split` returns but joining loses it. */
  lemma LeadingDelimiterHangs(rest: string, delim: char)
    ensures !Terminates([delim] + rest, delim)
    ensures Join(Tokens([delim] + rest, delim), delim) != [delim] + rest
  {
    var input := [delim] + rest;
    assert FindFrom(input, delim, 0) == Some(0);
    assert Pieces(input, delim)[0] == "";
    SplitTerminates(input, delim);
    SplitJoin(input, delim);
  }

  /** Where `split` returns, it agrees with `Split`, and joining gives back the input. */
  lemma SplittersAgree(input: string, delim: char)
    requires Terminates(input, delim)
    ensures Pieces(input, delim) == Tokens(input, delim) && Join(Pieces(input, delim), delim) == input
  {
    SplitTerminates(input, delim);
    TokensOrPieces(Pieces(input, delim));
    JoinPieces(input, delim, 0);
  }

  /** `split`'s loop invariant: nothing is lost, and what is left decides whether the loop ends. */
  ghost predicate KeepsPieces(input: string, delim: char, s: nat, tokens: seq<string>) {
    && s <= |input|
    && tokens + PiecesFrom(input, delim, s) == Pieces(input, delim)
    && (Full(PiecesFrom(input, delim, s)) <==> Terminates(input, delim))
  }

  lemma KeepsPiecesStep(input: string, delim: char, s: nat, e: nat, tokens: seq<string>)
    requires KeepsPieces(input, delim, s, tokens) && FindFrom(input, delim, s) == Some(e)
    ensures if e != s then KeepsPieces(input, delim, e + 1, tokens + [input[s..e]]) else !Terminates(input, delim)
  {
    PieceStep(input, delim, s);
    ConcatAssociates(tokens, [input[s..e]], PiecesFrom(input, delim, e + 1));
  }

  lemma KeepsPiecesLast(input: string, delim: char, s: nat, tokens: seq<string>)
    requires KeepsPieces(input, delim, s, tokens) && FindFrom(input, delim, s).None?
    ensures Terminates(input, delim) && tokens + [input[s..]] == Pieces(input, delim)
  {
    LastPiece(input, delim, s);
  }

  /**
   The DB servers' `split`; `None` stands for never returning, and is answered at the first iteration
   that changes nothing.
   */
  method SplitList(input: string, delim: char) returns (v: Option<seq<string>>)
    ensures v == if Terminates(input, delim) then Some(Pieces(input, delim)) else None
  {
    var tokens: seq<string> := [];
    var s := 0;
    SplitTerminates(input, delim);
    var e := FindFrom(input, delim, s);
    while e.Some?
      invariant s <= |input| && e == FindFrom(input, delim, s)
      invariant KeepsPieces(input, delim, s, tokens)
      decreases |input| - s
    {
      KeepsPiecesStep(input, delim, s, e.value, tokens);
      if e.value != s {
        tokens := tokens + [input[s..e.value]];
        s := e.value + 1;
      } else {
        return None;
      }
      e := FindFrom(input, delim, s);
    }
    KeepsPiecesLast(input, delim, s, tokens);
    if e != Some(s) {
      tokens := tokens + [input[s..]];
    }
    v := Some(tokens);
  }
}
