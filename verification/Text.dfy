/** Strings as the rest of the model needs them: Go's byte-wise order, sort.Strings,
    and decimal rendering. */
module Text {

  datatype Option<+T> = None | Some(value: T)

  // ---- Order ----------------------------------------------------------------

  predicate Leq(a: string, b: string) {
    a == "" || (b != "" && (a[0] < b[0] || (a[0] == b[0] && Leq(a[1..], b[1..]))))
  }

  lemma {:induction false} LeqTotal(a: string, b: string)
    ensures Leq(a, b) || Leq(b, a)
  {
    if a != "" && b != "" && a[0] == b[0] {
      LeqTotal(a[1..], b[1..]);
    }
  }

  lemma {:induction false} LeqAntisymmetric(a: string, b: string)
    requires Leq(a, b) && Leq(b, a)
    ensures a == b
  {
    if a != "" {
      LeqAntisymmetric(a[1..], b[1..]);
      assert a == [a[0]] + a[1..] && b == [b[0]] + b[1..];
    }
  }

  lemma {:induction false} LeqTransitive(a: string, b: string, c: string)
    requires Leq(a, b) && Leq(b, c)
    ensures Leq(a, c)
  {
    if a != "" && a[0] == b[0] && b[0] == c[0] {
      LeqTransitive(a[1..], b[1..], c[1..]);
    }
  }

  // ---- sort.Strings -----------------------------------------------------------

  ghost predicate Sorted(s: seq<string>) {
    forall i, j :: 0 <= i < j < |s| ==> Leq(s[i], s[j])
  }

  function Insert(x: string, s: seq<string>): seq<string> {
    if s == [] then [x]
    else if Leq(x, s[0]) then [x] + s
    else [s[0]] + Insert(x, s[1..])
  }

  lemma {:induction false} InsertContents(x: string, s: seq<string>)
    ensures multiset(Insert(x, s)) == multiset{x} + multiset(s)
  {
    if s != [] && !Leq(x, s[0]) {
      InsertContents(x, s[1..]);
      assert s == [s[0]] + s[1..];
    }
  }

  lemma {:induction false} InsertSorts(x: string, s: seq<string>)
    requires Sorted(s)
    ensures Sorted(Insert(x, s))
  {
    if s != [] && !Leq(x, s[0]) {
      LeqTotal(x, s[0]);
      var rest := Insert(x, s[1..]);
      InsertSorts(x, s[1..]);
      forall k | 0 <= k < |rest| ensures Leq(s[0], rest[k]) {
        InsertContents(x, s[1..]);
        assert rest[k] in multiset(rest);
        assert rest[k] == x || rest[k] in s[1..];
      }
    } else if s != [] {
      forall k | 0 <= k < |s| ensures Leq(x, s[k]) {
        if k > 0 { LeqTransitive(x, s[0], s[k]); }
      }
    }
  }

  /** sort.Strings, as a value. */
  function Sort(s: seq<string>): (r: seq<string>)
    ensures Sorted(r) && multiset(r) == multiset(s)
  {
    if s == [] then []
    else
      InsertContents(s[0], Sort(s[1..]));
      InsertSorts(s[0], Sort(s[1..]));
      assert s == [s[0]] + s[1..];
      Insert(s[0], Sort(s[1..]))
  }

  ghost predicate StrictlySorted(s: seq<string>) {
    forall i, j :: 0 <= i < j < |s| ==> Leq(s[i], s[j]) && s[i] != s[j]
  }

  lemma SortKeepsMembers(s: seq<string>)
    requires forall j, k :: 0 <= j < k < |s| ==> s[j] != s[k]
    ensures forall m :: m in Sort(s) <==> m in s
    ensures StrictlySorted(Sort(s))
  {
    var r := Sort(s);
    forall m ensures m in r <==> m in s {
      assert m in r <==> m in multiset(r);
      assert m in s <==> m in multiset(s);
    }
    EachOnce(s);
    assert forall m :: multiset(r)[m] <= 1;
    CountedOnce(r);
  }

  lemma {:induction false} CountedOnce(s: seq<string>)
    requires forall m :: multiset(s)[m] <= 1
    ensures forall j, k :: 0 <= j < k < |s| ==> s[j] != s[k]
  {
    if s != [] {
      assert s == [s[0]] + s[1..];
      assert multiset(s) == multiset{s[0]} + multiset(s[1..]);
      assert multiset(s)[s[0]] <= 1;
      assert s[0] !in multiset(s[1..]);
      forall m ensures multiset(s[1..])[m] <= 1 { assert multiset(s)[m] <= 1; }
      CountedOnce(s[1..]);
    }
  }

  lemma {:induction false} EachOnce(s: seq<string>)
    requires forall j, k :: 0 <= j < k < |s| ==> s[j] != s[k]
    ensures forall m :: multiset(s)[m] <= 1
  {
    if s != [] {
      EachOnce(s[1..]);
      assert s == [s[0]] + s[1..];
      assert s[0] !in s[1..];
    }
  }

  /** One multiset has one sorted arrangement, so what is sorted before it is shown
      cannot depend on the order it arrived in. */
  lemma {:induction false} SortedIsCanonical(s: seq<string>, t: seq<string>)
    requires Sorted(s) && Sorted(t) && multiset(s) == multiset(t)
    ensures s == t
  {
    if s == [] {
      assert |multiset(t)| == 0;
    } else {
      assert s[0] in multiset(t) && |t| > 0 by {
        assert s[0] in multiset(s);
      }
      var i :| 0 <= i < |t| && t[i] == s[0];
      assert t[0] in multiset(s);
      var j :| 0 <= j < |s| && s[j] == t[0];
      LeqTotal(s[0], s[0]);
      LeqAntisymmetric(s[0], t[0]);
      assert s == [s[0]] + s[1..] && t == [t[0]] + t[1..];
      assert multiset(s[1..]) == multiset(s) - multiset{s[0]};
      assert multiset(t[1..]) == multiset(t) - multiset{t[0]};
      SortedIsCanonical(s[1..], t[1..]);
    }
  }

  // ---- Permutations ------------------------------------------------------------

  function Map<A, B>(f: A -> B, s: seq<A>): seq<B> {
    seq(|s|, i requires 0 <= i < |s| => f(s[i]))
  }

  /** A slice filled from another, one element after the other. */
  method MapInto<A, B>(f: A -> B, s: seq<A>, blank: B) returns (r: array<B>)
    ensures fresh(r) && r[..] == Map(f, s)
  {
    r := new B[|s|](_ => blank);
    for i := 0 to |s|
      invariant forall k :: 0 <= k < i ==> r[k] == f(s[k])
    {
      r[i] := f(s[i]);
    }
  }

  /** Where b keeps the last element of its permutation a, and what is left without it. */
  lemma LastOf<T>(a: seq<T>, b: seq<T>) returns (k: nat)
    requires a != [] && multiset(a) == multiset(b)
    ensures k < |b| && b[k] == a[|a| - 1]
    ensures multiset(a[..|a| - 1]) == multiset(b[..k] + b[k + 1..])
  {
    var x := a[|a| - 1];
    assert x in multiset(b);
    k :| 0 <= k < |b| && b[k] == x;
    assert a == a[..|a| - 1] + [x];
    assert b == b[..k] + ([x] + b[k + 1..]);
    assert multiset(a) == multiset(a[..|a| - 1]) + multiset{x};
    assert multiset(b) == multiset(b[..k] + b[k + 1..]) + multiset{x};
    assert multiset(a[..|a| - 1]) == multiset(a) - multiset{x};
    assert multiset(b[..k] + b[k + 1..]) == multiset(b) - multiset{x};
  }

  lemma {:induction false} MapOfPermutation<A(!new), B>(f: A -> B, g: A -> B, a: seq<A>, b: seq<A>)
    requires multiset(a) == multiset(b) && forall x :: f(x) == g(x)
    ensures multiset(Map(f, a)) == multiset(Map(g, b))
    decreases |a|
  {
    if a == [] {
      assert |multiset(b)| == 0;
    } else {
      var k := LastOf(a, b);
      MapOfPermutation(f, g, a[..|a| - 1], b[..k] + b[k + 1..]);
      var y := f(b[k]);
      assert Map(f, a) == Map(f, a[..|a| - 1]) + [y];
      assert Map(g, b) == Map(g, b[..k]) + ([y] + Map(g, b[k + 1..]));
      assert Map(g, b[..k] + b[k + 1..]) == Map(g, b[..k]) + Map(g, b[k + 1..]);
    }
  }

  // ---- Decimal numbers ---------------------------------------------------------

  predicate IsDigit(c: char) { '0' <= c <= '9' }

  predicate AllDigits(s: string) { forall i :: 0 <= i < |s| ==> IsDigit(s[i]) }

  function Digit(d: nat): char
    requires d < 10
  {
    ['0', '1', '2', '3', '4', '5', '6', '7', '8', '9'][d]
  }

  function DigitValue(c: char): (d: nat)
    requires IsDigit(c)
    ensures d < 10
  {
    (c - '0') as nat
  }

  function Number(s: string): nat
    requires AllDigits(s)
  {
    if s == "" then 0 else 10 * Number(s[..|s| - 1]) + DigitValue(s[|s| - 1])
  }

  function Decimal(n: nat): string {
    if n < 10 then [Digit(n)] else Decimal(n / 10) + [Digit(n % 10)]
  }

  lemma {:induction false} DecimalIsItsNumber(n: nat)
    ensures AllDigits(Decimal(n)) && Number(Decimal(n)) == n && Decimal(n) != ""
    ensures n > 0 ==> Decimal(n)[0] != '0'
  {
    if n >= 10 {
      DecimalIsItsNumber(n / 10);
      assert Decimal(n)[..|Decimal(n)| - 1] == Decimal(n / 10);
    } else {
      assert Number([Digit(n)][..0]) == 0;
    }
  }

  lemma DecimalIsInjective(m: nat, n: nat)
    requires Decimal(m) == Decimal(n)
    ensures m == n
  {
    DecimalIsItsNumber(m);
    DecimalIsItsNumber(n);
  }

  /** A digit string without a leading zero is the only such string for its number. */
  lemma {:induction false} CanonicalDigitsAreDecimal(s: string)
    requires s != "" && AllDigits(s) && (s[0] == '0' ==> |s| == 1)
    ensures Decimal(Number(s)) == s
  {
    if |s| == 1 {
      assert s[..0] == "" && Number(s[..0]) == 0;
      assert Number(s) == DigitValue(s[0]);
      assert [Digit(DigitValue(s[0]))] == s;
    } else {
      var front, last := s[..|s| - 1], s[|s| - 1];
      CanonicalDigitsAreDecimal(front);
      LeadingDigitIsPositive(front);
      OneMoreDigit(Number(front), last);
      assert s == front + [last];
    }
  }

  lemma OneMoreDigit(n: nat, c: char)
    requires n > 0 && IsDigit(c)
    ensures Decimal(10 * n + DigitValue(c)) == Decimal(n) + [c]
  {
    var m := 10 * n + DigitValue(c);
    assert m / 10 == n && m % 10 == DigitValue(c);
    assert Digit(DigitValue(c)) == c;
  }

  lemma {:induction false} LeadingDigitIsPositive(s: string)
    requires s != "" && AllDigits(s) && s[0] != '0'
    ensures Number(s) > 0
  {
    if |s| > 1 {
      LeadingDigitIsPositive(s[..|s| - 1]);
    }
  }
}
