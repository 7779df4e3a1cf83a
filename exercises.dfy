/** The functional exercises of src/partb.py: each is written with the
    folds, maps and filters the source uses, and proved equal to a plain
    recursive reference definition. */
module Exercises {
  import opened Util

  // ---------------------------------------------------------------------
  // The list primitives the exercises are built from.

  /** `reduce(f, s, acc)`: fold from the left. */
  function FoldLeft<A, T>(f: (A, T) -> A, acc: A, s: seq<T>): A
    decreases |s|
  {
    if s == [] then acc else FoldLeft(f, f(acc, s[0]), s[1..])
  }

  /** Folding one more element applies `f` once more, at the end. */
  lemma {:induction false} FoldLeftSnoc<A, T>(f: (A, T) -> A, acc: A, s: seq<T>, x: T)
    ensures FoldLeft(f, acc, s + [x]) == f(FoldLeft(f, acc, s), x)
    decreases |s|
  {
    if s == [] {
      assert [] + [x] == [x];
    } else {
      assert (s + [x])[1..] == s[1..] + [x];
      FoldLeftSnoc(f, f(acc, s[0]), s[1..], x);
    }
  }

  /** `reduce(f, s)` without an initial value: None where Python raises
      `TypeError` on an empty sequence. */
  function Reduce<T>(f: (T, T) -> T, s: seq<T>): (r: Option<T>)
    ensures r.None? <==> s == []
  {
    if s == [] then None else Some(FoldLeft(f, s[0], s[1..]))
  }

  /** The elements of `s` that satisfy `p`, in order. */
  function Filter<T>(p: T -> bool, s: seq<T>): (r: seq<T>)
    ensures |r| <= |s|
    decreases |s|
  {
    if s == [] then [] else (if p(s[0]) then [s[0]] else []) + Filter(p, s[1..])
  }

  lemma {:induction false} FilterMembers<T>(p: T -> bool, s: seq<T>, x: T)
    ensures x in Filter(p, s) <==> x in s && p(x)
    decreases |s|
  {
    if s != [] {
      FilterMembers(p, s[1..], x);
      assert s == [s[0]] + s[1..];
    }
  }

  /** `s[::-1]` and `reversed(s)`. */
  function Reverse<T>(s: seq<T>): (r: seq<T>)
    ensures |r| == |s|
    decreases |s|
  {
    if s == [] then [] else Reverse(s[1..]) + [s[0]]
  }

  lemma {:induction false} ReverseAt<T>(s: seq<T>, i: nat)
    requires i < |s|
    ensures Reverse(s)[i] == s[|s| - 1 - i]
    decreases |s|
  {
    if i < |s| - 1 {
      ReverseAt(s[1..], i);
    }
  }

  lemma {:induction false} ReverseSnoc<T>(q: seq<T>, x: T)
    ensures Reverse(q + [x]) == [x] + Reverse(q)
    decreases |q|
  {
    if q == [] {
      assert [x] + [] == [x];
      assert [x][1..] == [];
    } else {
      assert (q + [x])[1..] == q[1..] + [x];
      ReverseSnoc(q[1..], x);
    }
  }

  /** `range(lo, hi)`. */
  function Range(lo: int, hi: int): (r: seq<int>)
    ensures |r| == if lo < hi then hi - lo else 0
    decreases hi - lo
  {
    if lo >= hi then [] else [lo] + Range(lo + 1, hi)
  }

  function Sum(s: seq<int>): int
    decreases |s|
  {
    if s == [] then 0 else s[0] + Sum(s[1..])
  }

  function Product(s: seq<int>): int
    decreases |s|
  {
    if s == [] then 1 else s[0] * Product(s[1..])
  }

  /** Python's `b ** e` for a non-negative exponent. */
  function Pow(b: int, e: nat): int
    decreases e
  {
    if e == 0 then 1 else b * Pow(b, e - 1)
  }

  // ---------------------------------------------------------------------
  // Solution 1: `fib`.

  /** The Fibonacci numbers, F0 = 0 and F1 = 1. */
  function Fib(n: nat): nat
    decreases n
  {
    if n < 2 then n else Fib(n - 1) + Fib(n - 2)
  }

  /** `fib_inner`: shift the pair (a, b) to (b, a + b) x times, then take a.
      From a non-negative, non-decreasing pair the result is at least `a`,
      and at least `b` once a shift is made. */
  function FibInner(x: nat, a: int, b: int): (r: int)
    ensures 0 <= a <= b ==> a <= r && (x > 0 ==> b <= r)
    decreases x
  {
    if x == 0 then a else FibInner(x - 1, b, a + b)
  }

  /** `fib(n)`: `fib_inner` over `range(n)`; empty for n <= 0. */
  function FibList(n: int): (r: seq<int>)
    ensures |r| == if n <= 0 then 0 else n
    ensures forall i :: 0 <= i < |r| ==> r[i] >= 0
  {
    if n <= 0 then [] else seq(n, (i: int) requires 0 <= i => FibInner(i, 0, 1))
  }

  /** Shifting the pair (F k, F (k+1)) x times lands on F (k+x). */
  lemma {:induction false} FibInnerShifts(x: nat, k: nat)
    ensures FibInner(x, Fib(k), Fib(k + 1)) == Fib(k + x)
    decreases x
  {
    if x > 0 {
      assert Fib(k + 2) == Fib(k + 1) + Fib(k);
      FibInnerShifts(x - 1, k + 1);
    }
  }

  /** `fib(n)` is the first n Fibonacci numbers. */
  lemma FibListIsFibonacci(n: int)
    ensures |FibList(n)| == if n <= 0 then 0 else n
    ensures forall i :: 0 <= i < |FibList(n)| ==> FibList(n)[i] == Fib(i)
  {
    forall i | 0 <= i < |FibList(n)|
      ensures FibList(n)[i] == Fib(i)
    {
      FibInnerShifts(i, 0);
    }
  }

  // ---------------------------------------------------------------------
  // Solution 2: `concat_with_space`.

  function JoinStep(x: string, y: string): string {
    x + " " + y
  }

  /** `concat_with_space(lst)`: None where `reduce` raises on an empty list. */
  function ConcatWithSpace(lst: seq<string>): (r: Option<string>)
    ensures r.None? <==> lst == []
  {
    Reduce(JoinStep, lst)
  }

  /** The reference: the words with one space between neighbours. */
  function Join(lst: seq<string>): string
    requires lst != []
    decreases |lst|
  {
    if |lst| == 1 then lst[0] else lst[0] + " " + Join(lst[1..])
  }

  lemma {:induction false} FoldJoin(acc: string, lst: seq<string>)
    requires lst != []
    ensures FoldLeft(JoinStep, acc, lst) == acc + " " + Join(lst)
    decreases |lst|
  {
    if |lst| > 1 {
      FoldJoin(JoinStep(acc, lst[0]), lst[1..]);
      assert acc + " " + lst[0] + " " + Join(lst[1..]) == acc + " " + (lst[0] + " " + Join(lst[1..]));
    }
  }

  /** On a non-empty list the result is the words joined by single spaces;
      on an empty list `concat_with_space` fails. */
  lemma ConcatIsJoin(lst: seq<string>)
    ensures lst == [] <==> ConcatWithSpace(lst).None?
    ensures lst != [] ==> ConcatWithSpace(lst) == Some(Join(lst))
  {
    if |lst| > 1 {
      FoldJoin(lst[0], lst[1..]);
    }
  }

  /** `s.split(" ")`: the pieces between single spaces, empty ones kept. */
  function Split(s: string): (r: seq<string>)
    ensures |r| > 0
    decreases |s|
  {
    if s == [] then [""]
    else if s[0] == ' ' then [""] + Split(s[1..])
    else var rest := Split(s[1..]); [[s[0]] + rest[0]] + rest[1..]
  }

  lemma {:induction false} SplitWord(w: string, rest: string)
    requires ' ' !in w
    ensures Split(w + rest) == [w + Split(rest)[0]] + Split(rest)[1..]
    decreases |w|
  {
    if w != [] {
      assert (w + rest)[1..] == w[1..] + rest;
      SplitWord(w[1..], rest);
      assert [w[0]] + (w[1..] + Split(rest)[0]) == w + Split(rest)[0];
    } else {
      assert w + rest == rest;
      assert w + Split(rest)[0] == Split(rest)[0];
      assert [Split(rest)[0]] + Split(rest)[1..] == Split(rest);
    }
  }

  /** Splitting the joined words gives them back when no word has a space. */
  lemma {:induction false} SplitJoin(lst: seq<string>)
    requires lst != [] && forall i :: 0 <= i < |lst| ==> ' ' !in lst[i]
    ensures Split(Join(lst)) == lst
    decreases |lst|
  {
    if |lst| == 1 {
      SplitWord(lst[0], "");
      assert lst[0] + "" == lst[0];
      assert Split("") == [""];
      assert [lst[0] + ""] + [""][1..] == lst;
    } else {
      var rest := " " + Join(lst[1..]);
      SplitWord(lst[0], rest);
      assert rest[1..] == Join(lst[1..]);
      SplitJoin(lst[1..]);
      assert lst[0] + " " + Join(lst[1..]) == lst[0] + rest;
      assert Split(rest) == [""] + lst[1..];
      assert Split(rest)[0] == "" && Split(rest)[1..] == lst[1..];
      assert lst[0] + "" == lst[0];
      assert lst == [lst[0]] + lst[1..];
    }
  }

  /** `concat_with_space` is undone by splitting on spaces. */
  lemma ConcatRoundTrip(lst: seq<string>)
    requires lst != [] && forall i :: 0 <= i < |lst| ==> ' ' !in lst[i]
    ensures ConcatWithSpace(lst).Some? && Split(ConcatWithSpace(lst).value) == lst
  {
    ConcatIsJoin(lst);
    SplitJoin(lst);
  }

  // ---------------------------------------------------------------------
  // Solutions 3 and 5: sums of the squares of the even elements.

  predicate IsEven(x: int) {
    x % 2 == 0
  }

  function Square(x: int): int {
    x * x
  }

  /** The squares of the elements, as `map(lambda x: x**2, s)`. */
  function Squares(s: seq<int>): (r: seq<int>)
    ensures |r| == |s|
    decreases |s|
  {
    if s == [] then [] else [Square(s[0])] + Squares(s[1..])
  }

  /** The step of `cumulative_sum_of_squares`'s fold: the square of an even
      element, 0 for an odd one, added to the running total. */
  function SquareStep(acc: int, x: int): int {
    (if IsEven(x) then Square(x) else 0) + acc
  }

  /** `cumulative_sum_of_squares`: one fold from 0 per sublist, so one entry
      per sublist, 0 for an empty one. */
  function CumulativeSumOfSquares(lst: seq<seq<int>>): (r: seq<int>)
    ensures |r| == |lst|
    ensures forall i :: 0 <= i < |lst| && lst[i] == [] ==> r[i] == 0
  {
    seq(|lst|, (i: int) requires 0 <= i < |lst| => FoldLeft(SquareStep, 0, lst[i]))
  }

  lemma {:induction false} FoldSquares(acc: int, s: seq<int>)
    ensures FoldLeft(SquareStep, acc, s) == acc + Sum(Squares(Filter(IsEven, s)))
    decreases |s|
  {
    if s != [] {
      FoldSquares(SquareStep(acc, s[0]), s[1..]);
      var e := Filter(IsEven, s[1..]);
      if IsEven(s[0]) {
        assert Filter(IsEven, s) == [s[0]] + e;
        assert Squares([s[0]] + e) == [Square(s[0])] + Squares(e) by {
          assert ([s[0]] + e)[1..] == e;
        }
      } else {
        assert Filter(IsEven, s) == e;
      }
    }
  }

  /** Each entry is the sum of the squares of its sublist's even elements. */
  lemma CumulativeIsSumOfEvenSquares(lst: seq<seq<int>>)
    ensures |CumulativeSumOfSquares(lst)| == |lst|
    ensures forall i :: 0 <= i < |lst| ==>
      CumulativeSumOfSquares(lst)[i] == Sum(Squares(Filter(IsEven, lst[i])))
  {
    forall i | 0 <= i < |lst|
      ensures CumulativeSumOfSquares(lst)[i] == Sum(Squares(Filter(IsEven, lst[i])))
    {
      FoldSquares(0, lst[i]);
    }
  }

  function Add(x: int, y: int): int {
    x + y
  }

  /** `one_line_sum_squares`: `reduce` of `+` over the squared even
      elements, None where `reduce` raises because there is none. */
  function OneLineSumSquares(lst: seq<int>): (r: Option<int>)
    ensures r.None? <==> Filter(IsEven, lst) == []
  {
    Reduce(Add, Squares(Filter(IsEven, lst)))
  }

  lemma {:induction false} FoldAdd(acc: int, s: seq<int>)
    ensures FoldLeft(Add, acc, s) == acc + Sum(s)
    decreases |s|
  {
    if s != [] {
      FoldAdd(acc + s[0], s[1..]);
    }
  }

  /** The one-line version computes the same sum as a sublist's entry of
      `cumulative_sum_of_squares`, and fails exactly when no element is even. */
  lemma OneLineIsCumulative(lst: seq<int>)
    ensures OneLineSumSquares(lst).None? <==> (forall i :: 0 <= i < |lst| ==> !IsEven(lst[i]))
    ensures OneLineSumSquares(lst).Some? ==> [OneLineSumSquares(lst).value] == CumulativeSumOfSquares([lst])
  {
    var sq := Squares(Filter(IsEven, lst));
    forall i | 0 <= i < |lst| && IsEven(lst[i])
      ensures Filter(IsEven, lst) != []
    {
      FilterMembers(IsEven, lst, lst[i]);
    }
    if Filter(IsEven, lst) != [] {
      var x := Filter(IsEven, lst)[0];
      FilterMembers(IsEven, lst, x);
      FoldAdd(sq[0], sq[1..]);
      CumulativeIsSumOfEvenSquares([lst]);
    }
  }

  // ---------------------------------------------------------------------
  // Solution 4: `cumulative_operation`, `factorial`, `exponentiation`.

  /** `cumulative_operation(op)`: the function that reduces a sequence by
      `op`; it fails exactly on an empty sequence. */
  function CumulativeOperation(op: (int, int) -> int): (r: seq<int> -> Option<int>)
    ensures forall s :: r(s).None? <==> s == []
  {
    s => Reduce(op, s)
  }

  function Mul(x: int, y: int): int {
    x * y
  }

  /** `factorial`: the product of the sequence, None on an empty one. */
  function Factorial(s: seq<int>): (r: Option<int>)
    ensures r.None? <==> s == []
  {
    CumulativeOperation(Mul)(s)
  }

  function Fact(n: nat): nat
    decreases n
  {
    if n == 0 then 1 else n * Fact(n - 1)
  }

  lemma {:induction false} FoldMul(acc: int, s: seq<int>)
    ensures FoldLeft(Mul, acc, s) == acc * Product(s)
    decreases |s|
  {
    if s != [] {
      FoldMul(acc * s[0], s[1..]);
    }
  }

  lemma {:induction false} ProductRange(k: nat, n: nat)
    requires k <= n
    ensures Fact(k) * Product(Range(k + 1, n + 1)) == Fact(n)
    decreases n - k
  {
    if k < n {
      ProductRange(k + 1, n);
      var rest := Range(k + 2, n + 1);
      assert Range(k + 1, n + 1) == [k + 1] + rest;
      assert ([k + 1] + rest)[1..] == rest;
      MulRegroup(Fact(k), k + 1, Product(rest));
    } else {
      assert Range(k + 1, n + 1) == [];
    }
  }

  lemma MulRegroup(a: int, b: int, c: int)
    ensures a * (b * c) == (b * a) * c
  {
  }

  /** `factorial` is the product of its inputs, and `factorial(range(1, n+1))`
      is n!. */
  lemma FactorialIsProduct(s: seq<int>, n: nat)
    ensures s == [] <==> Factorial(s).None?
    ensures s != [] ==> Factorial(s) == Some(Product(s))
    ensures n >= 1 ==> Factorial(Range(1, n + 1)) == Some(Fact(n))
  {
    if s != [] {
      FoldMul(s[0], s[1..]);
    }
    if n >= 1 {
      FoldMul(1, Range(2, n + 1));
      ProductRange(1, n);
    }
  }

  /** Why `exponentiation` gives no integer: an empty sequence makes `reduce`
      raise, `0 ** -k` raises `ZeroDivisionError`, and any other negative
      exponent leaves the integers for a float. `NonIntegral` stands for
      whatever follows the first float, a later `ZeroDivisionError`
      included. */
  datatype PowerFault = EmptyTower | ZeroToNegativePower | NonIntegral

  /** The step `exp(elem, acc)`: the element raised to the power so far. */
  function RaiseStep(acc: Result<int, PowerFault>, elem: int): Result<int, PowerFault> {
    match acc
    case Err(_) => acc
    case Ok(e) =>
      if e >= 0 then Ok(Pow(elem, e))
      else if elem == 0 then Err(ZeroToNegativePower)
      else Err(NonIntegral)
  }

  /** `exponentiation([0, -2, -1])`: `(-2) ** -1` is the float -0.5, and
      Python then raises `ZeroDivisionError` on `0 ** -0.5`. The model stops
      at the float. */
  lemma ExponentiationAfterFloat()
    ensures Exponentiation([0, -2, -1]) == Err(NonIntegral)
  {
    assert Reverse([0, -2, -1]) == [-1, -2, 0];
  }

  /** Once started, the fold never reports an empty sequence. */
  lemma {:induction false} RaiseFoldStarted(acc: Result<int, PowerFault>, t: seq<int>)
    requires acc != Err(EmptyTower)
    ensures FoldLeft(RaiseStep, acc, t) != Err(EmptyTower)
    decreases |t|
  {
    if t != [] {
      RaiseFoldStarted(RaiseStep(acc, t[0]), t[1..]);
    }
  }

  /** `exponentiation`: `reduce` over the reversed sequence; only an empty
      sequence is reported as one. */
  function Exponentiation(s: seq<int>): (r: Result<int, PowerFault>)
    ensures r == Err(EmptyTower) <==> s == []
  {
    if s == [] then Err(EmptyTower)
    else
      var rev := Reverse(s);
      RaiseFoldStarted(Ok(rev[0]), rev[1..]);
      FoldLeft(RaiseStep, Ok(rev[0]), rev[1..])
  }

  predicate NonNegative(s: seq<int>) {
    forall i :: 0 <= i < |s| ==> s[i] >= 0
  }

  /** The reference: the right-nested power tower s0 ^ (s1 ^ (... ^ sn)). */
  function Tower(s: seq<int>): (r: int)
    requires s != [] && NonNegative(s)
    ensures r >= 0
    decreases |s|
  {
    if |s| == 1 then s[0] else PowNonNegative(s[0], Tower(s[1..])); Pow(s[0], Tower(s[1..]))
  }

  lemma {:induction false} PowNonNegative(b: int, e: nat)
    requires b >= 0
    ensures Pow(b, e) >= 0
    decreases e
  {
    if e > 0 {
      PowNonNegative(b, e - 1);
    }
  }

  /** Replacing the two top elements x, t by x ^ t leaves the tower alone. */
  lemma {:induction false} TowerTop(q: seq<int>, x: int, t: int)
    requires NonNegative(q) && x >= 0 && t >= 0
    ensures Pow(x, t) >= 0
    ensures NonNegative(q + [x, t]) && NonNegative(q + [Pow(x, t)])
    ensures Tower(q + [Pow(x, t)]) == Tower(q + [x, t])
    decreases |q|
  {
    PowNonNegative(x, t);
    if q != [] {
      TowerTop(q[1..], x, t);
      assert (q + [Pow(x, t)])[1..] == q[1..] + [Pow(x, t)];
      assert (q + [x, t])[1..] == q[1..] + [x, t];
    } else {
      assert (q + [x, t])[1..] == [t];
    }
  }

  lemma {:induction false} FoldTower(p: seq<int>, t: int)
    requires NonNegative(p) && t >= 0
    ensures NonNegative(p + [t])
    ensures FoldLeft(RaiseStep, Ok(t), Reverse(p)) == Ok(Tower(p + [t]))
    decreases |p|
  {
    if p == [] {
      assert p + [t] == [t];
    } else {
      var q := p[..|p| - 1];
      var x := p[|p| - 1];
      assert p == q + [x];
      ReverseSnoc(q, x);
      PowNonNegative(x, t);
      FoldTower(q, Pow(x, t));
      TowerTop(q, x, t);
      assert q + [x, t] == p + [t];
    }
  }

  /** On non-negative integers `exponentiation` is the power tower read from
      the right; it fails exactly on an empty sequence. */
  lemma ExponentiationIsTower(s: seq<int>)
    requires NonNegative(s)
    ensures s == [] <==> Exponentiation(s).Err?
    ensures s != [] ==> Exponentiation(s) == Ok(Tower(s))
  {
    if s != [] {
      var p := s[..|s| - 1];
      assert s == p + [s[|s| - 1]];
      ReverseSnoc(p, s[|s| - 1]);
      FoldTower(p, s[|s| - 1]);
    }
  }

  // ---------------------------------------------------------------------
  // Solution 6: `count_palindromes_per_sublist`.

  predicate IsPalindrome(s: string) {
    s == Reverse(s)
  }

  function CountStep(count: nat, s: string): nat {
    count + (if IsPalindrome(s) then 1 else 0)
  }

  /** `count_palindromes_per_sublist`: one count from 0 per sublist, so one
      count per sublist, 0 for an empty one. */
  function CountPalindromesPerSublist(lst: seq<seq<string>>): (r: seq<nat>)
    ensures |r| == |lst|
    ensures forall i :: 0 <= i < |lst| && lst[i] == [] ==> r[i] == 0
  {
    seq(|lst|, (i: int) requires 0 <= i < |lst| => FoldLeft(CountStep, 0, lst[i]))
  }

  lemma {:induction false} FoldCount(count: nat, s: seq<string>)
    ensures FoldLeft(CountStep, count, s) == count + |Filter(IsPalindrome, s)|
    decreases |s|
  {
    if s != [] {
      FoldCount(CountStep(count, s[0]), s[1..]);
    }
  }

  /** Each count is the number of strings in the sublist that read the same
      backwards, so at most the sublist's length and 0 for an empty one. */
  lemma CountsArePalindromes(lst: seq<seq<string>>)
    ensures |CountPalindromesPerSublist(lst)| == |lst|
    ensures forall i :: 0 <= i < |lst| ==>
      CountPalindromesPerSublist(lst)[i] == |Filter(IsPalindrome, lst[i])| <= |lst[i]|
  {
    forall i | 0 <= i < |lst|
      ensures CountPalindromesPerSublist(lst)[i] == |Filter(IsPalindrome, lst[i])|
    {
      FoldCount(0, lst[i]);
    }
  }

  /** A palindrome is a string whose i-th character is its i-th from the end. */
  lemma PalindromeMirror(s: string)
    ensures IsPalindrome(s) <==> forall i :: 0 <= i < |s| ==> s[i] == s[|s| - 1 - i]
  {
    forall i | 0 <= i < |s|
      ensures Reverse(s)[i] == s[|s| - 1 - i]
    {
      ReverseAt(s, i);
    }
  }

  // ---------------------------------------------------------------------
  // Solution 8: `primes_sorted_desc`.

  /** No i from `from` while i*i <= x divides x: the `all(...)` over
      `range(2, int(x**0.5) + 1)`, with the square root read as i*i <= x. */
  predicate NoDivisorFrom(x: int, from: int)
    requires from >= 2
    decreases x - from
  {
    from * from > x || (x % from != 0 && (AtMostSquare(from); NoDivisorFrom(x, from + 1)))
  }

  lemma AtMostSquare(i: int)
    requires i >= 2
    ensures i + 1 < i * i + 1
  {
  }

  /** The filter of `primes_sorted_desc` as written: `x >= 1` and no
      divisor i with 2 <= i and i*i <= x. */
  predicate KeepAsWritten(x: int) {
    x >= 1 && NoDivisorFrom(x, 2)
  }

  predicate IsPrime(x: int) {
    x >= 2 && forall d :: 2 <= d < x ==> x % d != 0
  }

  lemma {:induction false} NoDivisorFromMeans(x: int, from: int)
    requires from >= 2
    ensures NoDivisorFrom(x, from) <==> forall i :: from <= i && i * i <= x ==> x % i != 0
    decreases x - from
  {
    if from * from <= x {
      AtMostSquare(from);
      NoDivisorFromMeans(x, from + 1);
      forall i | from + 1 <= i
        ensures from * from <= i * i
      {
        MulGrows(from, i);
      }
      if !NoDivisorFrom(x, from) && x % from != 0 {
        var i :| from + 1 <= i && i * i <= x && x % i == 0;
      }
    } else {
      forall i | from <= i
        ensures x < i * i
      {
        MulGrows(from, i);
      }
    }
  }

  lemma MulGrows(a: int, b: int)
    requires 0 <= a <= b
    ensures a * a <= b * b
  {
    assert a * a <= a * b;
    assert a * b <= b * b;
  }

  /** A divisor d of x in 2..x-1 leaves one no larger than the square root. */
  lemma SmallDivisor(x: int, d: int) returns (i: int)
    requires 2 <= d < x && x % d == 0
    ensures 2 <= i && i * i <= x && x % i == 0
  {
    var q := Cofactor(x, d);
    if d * d <= x {
      i := d;
    } else {
      if q >= d {
        MulMono(d, d, q);
      }
      MulMono(q, q, d);
      ModOfProduct(d, q);
      i := q;
    }
  }

  /** The other factor of a proper divisor is at least 2. */
  lemma Cofactor(x: int, d: int) returns (q: int)
    requires 2 <= d < x && x % d == 0
    ensures x == d * q && q >= 2
  {
    q := x / d;
    assert x == d * q + x % d;
    if q < 2 {
      MulMono(d, q, 1);
    }
  }

  lemma MulMono(a: int, b: int, c: int)
    requires a >= 0 && b <= c
    ensures a * b <= a * c
  {
    assert a * c - a * b == a * (c - b);
  }

  lemma ModOfProduct(d: int, q: int)
    requires q > 0
    ensures (d * q) % q == 0
  {
    var x := d * q;
    var k := d - x / q;
    var r := x % q;
    assert x == q * (x / q) + r;
    assert q * k == r;
    if k >= 1 {
      MulAtLeastOne(q, k);
    } else if k <= -1 {
      MulAtLeastOne(q, -k);
    }
  }

  lemma MulAtLeastOne(q: int, k: int)
    requires q > 0 && k >= 1
    ensures q * k >= q
  {
    assert q * k == q * (k - 1) + q;
  }

  /** The square-root bound is enough: for x >= 2 the filter keeps exactly
      the primes. */
  lemma NoDivisorIsPrime(x: int)
    requires x >= 2
    ensures NoDivisorFrom(x, 2) <==> IsPrime(x)
  {
    NoDivisorFromMeans(x, 2);
    if NoDivisorFrom(x, 2) && !IsPrime(x) {
      var d :| 2 <= d < x && x % d == 0;
      var i := SmallDivisor(x, d);
    }
    if IsPrime(x) {
      forall i | 2 <= i && i * i <= x
        ensures x % i != 0
      {
        assert i < i * i;
      }
    }
  }

  /** The filter as written keeps 1 together with the primes. */
  lemma KeepAsWrittenMeans(x: int)
    ensures KeepAsWritten(x) <==> x == 1 || IsPrime(x)
  {
    if x >= 2 {
      NoDivisorIsPrime(x);
    }
  }

  /** `sorted(..., reverse=True)` on integers, by insertion. */
  function Insert(x: int, s: seq<int>): (r: seq<int>)
    ensures |r| == |s| + 1
    decreases |s|
  {
    if s == [] || x >= s[0] then [x] + s else [s[0]] + Insert(x, s[1..])
  }

  function SortDescending(s: seq<int>): (r: seq<int>)
    ensures |r| == |s|
    decreases |s|
  {
    if s == [] then [] else Insert(s[0], SortDescending(s[1..]))
  }

  predicate Descending(s: seq<int>) {
    forall i, j :: 0 <= i < j < |s| ==> s[i] >= s[j]
  }

  lemma {:induction false} InsertKeeps(x: int, s: seq<int>)
    requires Descending(s)
    ensures Descending(Insert(x, s)) && multiset(Insert(x, s)) == multiset(s) + multiset{x}
    ensures s != [] ==> Insert(x, s)[0] == if x >= s[0] then x else s[0]
    decreases |s|
  {
    if s == [] || x >= s[0] {
      DescendingCons(x, s);
    } else {
      var t := s[1..];
      assert Descending(t) by {
        forall i, j | 0 <= i < j < |t|
          ensures t[i] >= t[j]
        {
          assert t[i] == s[i + 1] && t[j] == s[j + 1];
        }
      }
      InsertKeeps(x, t);
      assert t != [] ==> s[0] >= t[0];
      DescendingCons(s[0], Insert(x, t));
      assert s == [s[0]] + t;
    }
  }

  lemma DescendingCons(a: int, t: seq<int>)
    requires Descending(t) && (t == [] || a >= t[0])
    ensures Descending([a] + t)
  {
    var s := [a] + t;
    forall i, j | 0 <= i < j < |s|
      ensures s[i] >= s[j]
    {
      if i == 0 {
        assert s[j] == t[j - 1] && t[0] >= t[j - 1];
      } else {
        assert s[i] == t[i - 1] && s[j] == t[j - 1];
      }
    }
  }

  /** The sort gives a non-increasing permutation of its input. */
  lemma {:induction false} SortDescendingSorts(s: seq<int>)
    ensures Descending(SortDescending(s)) && multiset(SortDescending(s)) == multiset(s)
    decreases |s|
  {
    if s != [] {
      SortDescendingSorts(s[1..]);
      InsertKeeps(s[0], SortDescending(s[1..]));
      assert s == [s[0]] + s[1..];
    }
  }

  /** `primes_sorted_desc` as written: no more elements than the input. */
  function PrimesSortedDescAsWritten(lst: seq<int>): (r: seq<int>)
    ensures |r| <= |lst|
  {
    SortDescending(Filter(KeepAsWritten, lst))
  }

  /** The filter that evidently was meant: the primes, excluding 1. */
  predicate KeepPrime(x: int) {
    x >= 2 && NoDivisorFrom(x, 2)
  }

  /** `primes_sorted_desc` keeping only the primes: no more elements than the
      input. */
  function PrimesSortedDesc(lst: seq<int>): (r: seq<int>)
    ensures |r| <= |lst|
  {
    SortDescending(Filter(KeepPrime, lst))
  }

  /** The code as written: non-increasing, and its elements are the inputs
      that are 1 or prime, each as often as in the input. */
  lemma PrimesAsWrittenKeepsOne(lst: seq<int>)
    ensures Descending(PrimesSortedDescAsWritten(lst))
    ensures multiset(PrimesSortedDescAsWritten(lst)) == multiset(Filter(KeepAsWritten, lst))
    ensures forall x :: x in PrimesSortedDescAsWritten(lst) <==> x in lst && (x == 1 || IsPrime(x))
  {
    SortDescendingSorts(Filter(KeepAsWritten, lst));
    forall x
      ensures x in PrimesSortedDescAsWritten(lst) <==> x in lst && (x == 1 || IsPrime(x))
    {
      assert x in PrimesSortedDescAsWritten(lst) <==> x in multiset(PrimesSortedDescAsWritten(lst));
      FilterMembers(KeepAsWritten, lst, x);
      KeepAsWrittenMeans(x);
    }
  }

  /** The example next to the call in `main`: the code keeps the 1 that the
      expected output leaves out. */
  lemma PrimesExampleAsWritten()
    ensures PrimesSortedDescAsWritten([10, 5, 15, 23, 29, 8, 1, 7, 13]) == [29, 23, 13, 7, 5, 1]
  {
    FilterExampleAsWritten();
    SortExample();
  }

  /** The intended behaviour: non-increasing, and its elements are exactly
      the inputs that are prime, each as often as in the input. */
  lemma PrimesSortedDescIsPrimes(lst: seq<int>)
    ensures Descending(PrimesSortedDesc(lst))
    ensures multiset(PrimesSortedDesc(lst)) == multiset(Filter(KeepPrime, lst))
    ensures forall x :: x in PrimesSortedDesc(lst) <==> x in lst && IsPrime(x)
  {
    SortDescendingSorts(Filter(KeepPrime, lst));
    forall x
      ensures x in PrimesSortedDesc(lst) <==> x in lst && IsPrime(x)
    {
      assert x in PrimesSortedDesc(lst) <==> x in multiset(PrimesSortedDesc(lst));
      FilterMembers(KeepPrime, lst, x);
      if x >= 2 {
        NoDivisorIsPrime(x);
      }
    }
  }

  lemma PrimesExample()
    ensures PrimesSortedDesc([10, 5, 15, 23, 29, 8, 1, 7, 13]) == [29, 23, 13, 7, 5]
  {
    FilterExample();
    SortExample();
  }

  lemma KeepExamples()
    ensures !KeepAsWritten(10) && KeepAsWritten(5) && !KeepAsWritten(15) && KeepAsWritten(23)
    ensures KeepAsWritten(29) && !KeepAsWritten(8) && KeepAsWritten(1) && KeepAsWritten(7) && KeepAsWritten(13)
    ensures !KeepPrime(10) && KeepPrime(5) && !KeepPrime(15) && KeepPrime(23)
    ensures KeepPrime(29) && !KeepPrime(8) && !KeepPrime(1) && KeepPrime(7) && KeepPrime(13)
  {
  }

  lemma FilterStep<T>(p: T -> bool, a: T, t: seq<T>)
    ensures Filter(p, [a] + t) == (if p(a) then [a] else []) + Filter(p, t)
  {
    assert ([a] + t)[1..] == t;
  }

  lemma FilterExampleAsWritten()
    ensures Filter(KeepAsWritten, [10, 5, 15, 23, 29, 8, 1, 7, 13]) == [5, 23, 29, 1, 7, 13]
  {
    KeepExamples();
    var k := KeepAsWritten;
    FilterTailAsWritten();
    FilterStep(k, 29, [8, 1, 7, 13]);
    FilterStep(k, 23, [29, 8, 1, 7, 13]);
    FilterStep(k, 15, [23, 29, 8, 1, 7, 13]);
    FilterStep(k, 5, [15, 23, 29, 8, 1, 7, 13]);
    FilterStep(k, 10, [5, 15, 23, 29, 8, 1, 7, 13]);
  }

  lemma FilterTailAsWritten()
    ensures Filter(KeepAsWritten, [8, 1, 7, 13]) == [1, 7, 13]
  {
    KeepExamples();
    var k := KeepAsWritten;
    FilterStep(k, 13, []);
    FilterStep(k, 7, [13]);
    FilterStep(k, 1, [7, 13]);
    FilterStep(k, 8, [1, 7, 13]);
  }

  lemma FilterTail()
    ensures Filter(KeepPrime, [8, 1, 7, 13]) == [7, 13]
  {
    KeepExamples();
    var k := KeepPrime;
    FilterStep(k, 13, []);
    FilterStep(k, 7, [13]);
    FilterStep(k, 1, [7, 13]);
    FilterStep(k, 8, [1, 7, 13]);
  }

  lemma FilterExample()
    ensures Filter(KeepPrime, [10, 5, 15, 23, 29, 8, 1, 7, 13]) == [5, 23, 29, 7, 13]
  {
    KeepExamples();
    var k := KeepPrime;
    FilterTail();
    FilterStep(k, 29, [8, 1, 7, 13]);
    FilterStep(k, 23, [29, 8, 1, 7, 13]);
    FilterStep(k, 15, [23, 29, 8, 1, 7, 13]);
    FilterStep(k, 5, [15, 23, 29, 8, 1, 7, 13]);
    FilterStep(k, 10, [5, 15, 23, 29, 8, 1, 7, 13]);
  }

  /** The sort on the filtered example, with and without the 1. */
  lemma SortExample()
    ensures SortDescending([5, 23, 29, 1, 7, 13]) == [29, 23, 13, 7, 5, 1]
    ensures SortDescending([5, 23, 29, 7, 13]) == [29, 23, 13, 7, 5]
  {
    SortTail();
    InsertFive();
  }

  lemma InsertFive()
    ensures Insert(5, [29, 23, 13, 7, 1]) == [29, 23, 13, 7, 5, 1]
    ensures Insert(5, [29, 23, 13, 7]) == [29, 23, 13, 7, 5]
  {
    assert Insert(5, [1]) == [5, 1];
    assert Insert(5, [7, 1]) == [7, 5, 1];
    assert Insert(5, [13, 7, 1]) == [13, 7, 5, 1];
    assert Insert(5, [23, 13, 7, 1]) == [23, 13, 7, 5, 1];
    assert Insert(5, [7]) == [7, 5];
    assert Insert(5, [13, 7]) == [13, 7, 5];
    assert Insert(5, [23, 13, 7]) == [23, 13, 7, 5];
  }

  lemma SortTail()
    ensures SortDescending([23, 29, 1, 7, 13]) == [29, 23, 13, 7, 1]
    ensures SortDescending([23, 29, 7, 13]) == [29, 23, 13, 7]
  {
    assert SortDescending([13]) == [13];
    assert SortDescending([7, 13]) == [13, 7];
    assert Insert(1, [13, 7]) == [13, 7, 1];
    assert SortDescending([1, 7, 13]) == [13, 7, 1];
    assert SortDescending([29, 1, 7, 13]) == [29, 13, 7, 1];
    assert Insert(23, [29, 13, 7, 1]) == [29, 23, 13, 7, 1];
    assert SortDescending([29, 7, 13]) == [29, 13, 7];
    assert Insert(23, [29, 13, 7]) == [29, 23, 13, 7];
  }

  // ---------------------------------------------------------------------
  // The expected outputs written next to the calls in `main`.

  lemma CumulativeExample()
    ensures CumulativeSumOfSquares([[1, 2, 3, 4], [10, 15, 20, 25], [2, 4, 6, 8]]) == [20, 500, 120]
  {
  }

  lemma FactorialExample()
    ensures Factorial(Range(1, 6)) == Some(120)
  {
  }

  lemma ExponentiationExample()
    ensures Exponentiation([2, 3, 4]) == Ok(Pow(2, 81))
  {
    ExponentiationIsTower([2, 3, 4]);
    assert [2, 3, 4][1..] == [3, 4] && [3, 4][1..] == [4];
    assert Tower([3, 4]) == Pow(3, 4) == 81;
  }

  lemma OneLineExample()
    ensures OneLineSumSquares([1, 2, 3, 4, 5, 6]) == Some(56)
  {
    var lst := [1, 2, 3, 4, 5, 6];
    OneLineIsCumulative(lst);
    assert IsEven(lst[1]);
    SquareFoldExample();
    assert CumulativeSumOfSquares([lst])[0] == 56;
  }

  /** The fold of `cumulative_sum_of_squares` over the example list. */
  lemma SquareFoldExample()
    ensures FoldLeft(SquareStep, 0, [1, 2, 3, 4, 5, 6]) == 56
  {
    assert FoldLeft(SquareStep, 20, [6]) == 56 by { assert [6][1..] == []; }
    assert FoldLeft(SquareStep, 20, [5, 6]) == 56 by { assert [5, 6][1..] == [6]; }
    assert FoldLeft(SquareStep, 4, [4, 5, 6]) == 56 by { assert [4, 5, 6][1..] == [5, 6]; }
    assert FoldLeft(SquareStep, 4, [3, 4, 5, 6]) == 56 by { assert [3, 4, 5, 6][1..] == [4, 5, 6]; }
    assert FoldLeft(SquareStep, 0, [2, 3, 4, 5, 6]) == 56 by { assert [2, 3, 4, 5, 6][1..] == [3, 4, 5, 6]; }
    assert [1, 2, 3, 4, 5, 6][1..] == [2, 3, 4, 5, 6];
  }

  /** The three sublists of the example next to the call in `main` hold 2,
      1 and 2 palindromes. */
  lemma PalindromesFirst()
    ensures FoldLeft(CountStep, 0, ["madam", "racecar", "hello"]) == 2
  {
    assert IsPalindrome("madam");
    assert IsPalindrome("racecar");
    assert !IsPalindrome("hello") by {
      ReverseAt("hello", 0);
    }
  }

  lemma PalindromesSecond()
    ensures FoldLeft(CountStep, 0, ["noon", "world"]) == 1
  {
    assert IsPalindrome("noon");
    assert !IsPalindrome("world") by {
      ReverseAt("world", 0);
    }
  }

  lemma PalindromesThird()
    ensures FoldLeft(CountStep, 0, ["level", "python", "rotor"]) == 2
  {
    assert IsPalindrome("level");
    assert !IsPalindrome("python") by {
      ReverseAt("python", 0);
    }
    assert IsPalindrome("rotor");
  }
}
