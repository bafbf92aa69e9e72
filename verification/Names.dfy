/** Generated resource names: a check label, the begin counter and a suffix, and why they never collide. */
module Names {
  import opened Common

  predicate Digit(c: char) {
    '0' <= c <= '9'
  }

  predicate DigitFree(s: string) {
    forall c | c in s :: !Digit(c)
  }

  function DigitOf(d: nat): (c: char)
    requires d < 10
    ensures Digit(c)
  {
    '0' + d as char
  }

  function Decimal(n: nat): (s: string)
    ensures s != [] && forall c | c in s :: Digit(c)
  {
    if n < 10 then [DigitOf(n)] else Decimal(n / 10) + [DigitOf(n % 10)]
  }

  function Hyphenated(check: string): (r: string)
    ensures |r| == |check|
    ensures DigitFree(check) ==> DigitFree(r)
    ensures '/' !in r && forall i | 0 <= i < |r| && check[i] != '/' :: r[i] == check[i]
  {
    seq(|check|, i requires 0 <= i < |check| => if check[i] == '/' then '-' else check[i])
  }

  function RelativeName(check: string, counter: nat, relative: string): string {
    Hyphenated(check) + "-" + Decimal(counter) + "-" + relative
  }

  lemma {:induction false} DigitOfInjective(a: nat, b: nat)
    requires a < 10 && b < 10 && DigitOf(a) == DigitOf(b)
    ensures a == b
  {
    assert DigitOf(a) as int == '0' as int + a && DigitOf(b) as int == '0' as int + b;
  }

  lemma {:induction false} OneDigit(n: nat)
    ensures |Decimal(n)| == 1 <==> n < 10
  {
  }

  lemma {:induction false} DecimalInjective(n: nat, m: nat)
    requires Decimal(n) == Decimal(m)
    ensures n == m
    decreases n
  {
    var s := Decimal(n);
    OneDigit(n);
    OneDigit(m);
    if n < 10 {
      DigitOfInjective(n, m);
    } else {
      assert s[..|s| - 1] == Decimal(n / 10) == Decimal(m / 10);
      assert s[|s| - 1] == DigitOf(n % 10) == DigitOf(m % 10);
      DecimalInjective(n / 10, m / 10);
      DigitOfInjective(n % 10, m % 10);
    }
  }

  /** The length of the longest run of digits, or of other characters, at the front. */
  function Span(digits: bool, s: string): nat {
    if s == [] || Digit(s[0]) != digits then 0 else 1 + Span(digits, s[1..])
  }

  lemma {:induction false} SpanEnds(digits: bool, a: string, x: string)
    requires forall c | c in a :: Digit(c) == digits
    requires x != [] && Digit(x[0]) != digits
    ensures Span(digits, a + x) == |a|
  {
    if a == [] {
      assert a + x == x;
    } else {
      assert a[0] in a && (a + x)[1..] == a[1..] + x;
      SpanEnds(digits, a[1..], x);
    }
  }

  /** A text splits in only one way where the first digit, or the first other character, stands. */
  lemma {:induction false} SplitsOnce(digits: bool, a: string, x: string, b: string, y: string)
    requires (forall c | c in a :: Digit(c) == digits) && (forall c | c in b :: Digit(c) == digits)
    requires x != [] && y != [] && Digit(x[0]) != digits && Digit(y[0]) != digits
    requires a + x == b + y
    ensures a == b && x == y
  {
    SpanEnds(digits, a, x);
    SpanEnds(digits, b, y);
    assert a == (a + x)[..|a|] == b && x == (a + x)[|a|..] == y;
  }

  /** A name determines its counter and suffix, whatever the labels. */
  lemma {:induction false} NameDeterminesParts(l1: string, c1: nat, r1: string, l2: string, c2: nat, r2: string)
    requires DigitFree(l1) && DigitFree(l2)
    requires RelativeName(l1, c1, r1) == RelativeName(l2, c2, r2)
    ensures c1 == c2 && r1 == r2 && Hyphenated(l1) == Hyphenated(l2)
  {
    var a, b := Hyphenated(l1) + "-", Hyphenated(l2) + "-";
    var x, y := Decimal(c1) + ("-" + r1), Decimal(c2) + ("-" + r2);
    assert RelativeName(l1, c1, r1) == a + x && RelativeName(l2, c2, r2) == b + y;
    SplitsOnce(false, a, x, b, y);
    assert Hyphenated(l1) == a[..|a| - 1] && Hyphenated(l2) == b[..|b| - 1];
    SplitsOnce(true, Decimal(c1), "-" + r1, Decimal(c2), "-" + r2);
    DecimalInjective(c1, c2);
    assert r1 == ("-" + r1)[1..] && r2 == ("-" + r2)[1..];
  }

  /** A name is the label without slashes, the counter in decimal, and the suffix. */
  lemma {:induction false} NameOfLabel()
    ensures RelativeName("list/basic", 27, "list-root") == "list-basic-27-list-root"
  {
    assert Hyphenated("list/basic") == "list-basic";
    assert Decimal(27) == [DigitOf(2), DigitOf(7)] == "27";
  }

  /** The counter after a number of `begin` calls. */
  function CounterAfter(begins: nat): nat {
    if begins == 0 then 0 else SaturatingSucc(CounterAfter(begins - 1))
  }

  lemma {:induction false} CounterSaturates(begins: nat)
    ensures CounterAfter(begins) == if begins <= U64_MAX then begins else U64_MAX
  {
    if begins > 0 {
      CounterSaturates(begins - 1);
    }
  }

  ghost predicate NeverCollide(c1: nat, c2: nat) {
    forall l1, r1, l2, r2 | DigitFree(l1) && DigitFree(l2) :: RelativeName(l1, c1, r1) != RelativeName(l2, c2, r2)
  }

  /**
   Names made after the i-th and after a later `begin` call differ for all
   labels and suffixes exactly as long as the counter had not saturated at the
   i-th call.
   */
  lemma {:induction false} NamesNeverCollide(i: nat, j: nat)
    requires i < j
    ensures NeverCollide(CounterAfter(i), CounterAfter(j)) <==> i < U64_MAX
  {
    CounterSaturates(i);
    CounterSaturates(j);
    var c1, c2 := CounterAfter(i), CounterAfter(j);
    if i < U64_MAX {
      forall l1, r1, l2, r2 | DigitFree(l1) && DigitFree(l2)
        ensures RelativeName(l1, c1, r1) != RelativeName(l2, c2, r2)
      {
        if RelativeName(l1, c1, r1) == RelativeName(l2, c2, r2) {
          NameDeterminesParts(l1, c1, r1, l2, c2, r2);
        }
      }
    } else {
      assert DigitFree("") && RelativeName("", c1, "") == RelativeName("", c2, "");
    }
  }

  /** Two names made after the i-th and the j-th `begin` call, for some labels, are equal. */
  ghost predicate MayCollide(i: nat, r1: string, j: nat, r2: string) {
    exists l1, l2 :: DigitFree(l1) && DigitFree(l2)
                     && RelativeName(l1, CounterAfter(i), r1) == RelativeName(l2, CounterAfter(j), r2)
  }

  /**
   Two names can be equal exactly when their suffixes are equal and they were made
   inside one `begin`, or after two of them with a saturated counter.
   */
  lemma {:induction false} NamesCollideIff(i: nat, r1: string, j: nat, r2: string)
    requires i <= j
    ensures MayCollide(i, r1, j, r2) <==> r1 == r2 && (i == j || U64_MAX <= i)
  {
    CounterSaturates(i);
    CounterSaturates(j);
    if MayCollide(i, r1, j, r2) {
      var l1, l2 :| DigitFree(l1) && DigitFree(l2)
                    && RelativeName(l1, CounterAfter(i), r1) == RelativeName(l2, CounterAfter(j), r2);
      NameDeterminesParts(l1, CounterAfter(i), r1, l2, CounterAfter(j), r2);
    }
    if r1 == r2 && (i == j || U64_MAX <= i) {
      assert DigitFree("") && RelativeName("", CounterAfter(i), r1) == RelativeName("", CounterAfter(j), r2);
    }
  }
}
