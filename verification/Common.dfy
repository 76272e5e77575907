/** Small vocabulary shared by every module of the model. */
module Common {
  datatype Option<+T> = None | Some(value: T)

  const TWO_32: nat := 0x1_0000_0000
  const TWO_63: nat := 0x8000_0000_0000_0000
  const TWO_64: nat := 0x1_0000_0000_0000_0000

  function Min(a: int, b: int): int {
    if a <= b then a else b
  }

  function Max(a: int, b: int): int {
    if a >= b then a else b
  }

  /** C++ `a - b` on `uint64_t` operands. */
  function Sub64(a: nat, b: nat): nat {
    (a - b) % TWO_64
  }

  /** C++ `a + b` on `uint64_t` operands. */
  function Add64(a: nat, b: nat): nat {
    (a + b) % TWO_64
  }

  /** C++ `++x` and `--x` on a `uint64_t`. */
  function Inc64(x: nat): nat {
    if x == TWO_64 - 1 then 0 else x + 1
  }

  function Dec64(x: nat): nat {
    if x == 0 then TWO_64 - 1 else x - 1
  }

  /** The operators agree with the integers up to multiples of 2^64, and stay below it. */
  lemma OperatorsWrap(a: nat, b: nat)
    ensures Sub64(a, b) < TWO_64 && (Sub64(a, b) - (a - b)) % TWO_64 == 0
    ensures Add64(a, b) < TWO_64 && (Add64(a, b) - (a + b)) % TWO_64 == 0
    ensures a < TWO_64 ==> Inc64(a) == Add64(a, 1) && Dec64(a) == Sub64(a, 1)
  {
    var q := (a - b) / TWO_64;
    assert Sub64(a, b) - (a - b) == TWO_64 * -q;
    var p := (a + b) / TWO_64;
    assert Add64(a, b) - (a + b) == TWO_64 * -p;
  }

  lemma SubsetOfSameSize<T>(a: set<T>, b: set<T>)
    requires a <= b && |a| == |b|
    ensures a == b
  {
    assert |b - a| == |b| - |a|;
    assert b == a + (b - a);
  }

  lemma SubsetSize<T>(a: set<T>, b: set<T>)
    requires a <= b
    ensures |a| <= |b|
  {
    assert |b - a| == |b| - |a|;
  }

  lemma CancelMultiset<T(!new)>(a: multiset<T>, b: multiset<T>, c: multiset<T>)
    requires a + c == b + c
    ensures a == b
  {
    forall x: T
      ensures a[x] == b[x]
    {
      assert (a + c)[x] == (b + c)[x];
    }
  }

  // ----- Products and quotients -----

  lemma MulMonotone(a: nat, b: nat, c: nat)
    requires a <= b
    ensures a * c <= b * c
  {
  }

  lemma CancelFactor(a: nat, b: nat, d: nat)
    requires d * a < d * b
    ensures a < b
  {
    if a >= b {
      MulMonotone(b, a, d);
    }
  }

  lemma DivMonotone(a: nat, b: nat, d: nat)
    requires a <= b && d > 0
    ensures a / d <= b / d
  {
    DivBounds(a, d);
    DivBounds(b, d);
    QuotientOrder(a / d, b / d, d, a, b);
  }

  lemma QuotientOrder(qa: nat, qb: nat, d: nat, a: nat, b: nat)
    requires d * qa <= a <= b < d * qb + d
    ensures qa <= qb
  {
    Distribute(d, qb, 1);
    CancelFactor(qa, qb + 1, d);
  }

  lemma DivBelow(x: nat, d: nat)
    requires d > 0
    ensures x / d <= x
  {
    MulMonotone(1, d, x / d);
    assert x / d * d <= x;
  }

  /** Rounding down two parts loses at most one against rounding down the whole. */
  lemma DivSplit(a: nat, b: nat, d: nat)
    requires d > 0
    ensures 0 <= (a + b) / d - a / d - b / d <= 1
  {
    var q, qa, qb := (a + b) / d, a / d, b / d;
    DivBounds(a + b, d);
    DivBounds(a, d);
    DivBounds(b, d);
    Distribute(d, qa, qb);
    Distribute(d, qa + qb, 2);
    Distribute(d, q, 1);
    CancelFactor(q, qa + qb + 2, d);
    CancelFactor(qa + qb, q + 1, d);
  }

  lemma DivBounds(x: nat, d: nat)
    requires d > 0
    ensures d * (x / d) <= x < d * (x / d) + d
  {
  }

  lemma Distribute(d: nat, a: nat, b: nat)
    ensures d * (a + b) == d * a + d * b
  {
  }

  lemma SplitAt<T>(s: seq<T>, n: nat)
    requires n <= |s|
    ensures s[..n] + s[n..] == s
  {
  }

  lemma ConcatAssociates<T>(a: seq<T>, b: seq<T>, c: seq<T>)
    ensures (a + b) + c == a + (b + c)
  {
  }
}
