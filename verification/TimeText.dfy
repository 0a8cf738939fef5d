/**
 The order of stored times. The SQL guards of internal/store/store.go compare RFC3339Nano text,
 which drops the trailing zeros of the fraction, so that order is not the order of times.

 The text up to the whole second has a fixed width, and is represented by the second itself.
 */
module TimeText {
  import opened Units

  function Pow10(k: nat): (p: nat)
    ensures p >= 1
  {
    if k == 0 then 1 else 10 * Pow10(k - 1)
  }

  function Digit(d: nat): (c: char)
    requires d < 10
    ensures '0' <= c <= '9'
  {
    d as char + '0'
  }

  /** The k-digit decimal fraction n / 10^k, without trailing zeros. */
  function Fraction(n: nat, k: nat): string
    requires n < Pow10(k)
  {
    if n == 0 then ""
    else
      var p := Pow10(k - 1);
      DivBound(n, p);
      [Digit(n / p)] + Fraction(n % p, k - 1)
  }

  lemma DivBound(n: nat, p: nat)
    requires p >= 1 && n < 10 * p
    ensures n / p < 10
  {}

  /** Byte order of text, as SQLite compares it. */
  predicate Less(a: string, b: string) {
    b != "" && (a == "" || a[0] < b[0] || (a[0] == b[0] && Less(a[1..], b[1..])))
  }

  lemma {:induction false} LessIsStrict(a: string, b: string)
    ensures !(Less(a, b) && Less(b, a)) && (Less(a, b) ==> a != b) && (a != b ==> Less(a, b) || Less(b, a))
  {
    if a != "" && b != "" && a[0] == b[0] {
      LessIsStrict(a[1..], b[1..]);
      assert a == [a[0]] + a[1..] && b == [b[0]] + b[1..];
    }
  }

  lemma {:induction false} LessIsTransitive(a: string, b: string, c: string)
    requires Less(a, b) && Less(b, c)
    ensures Less(a, c)
  {
    if a != "" && a[0] == b[0] == c[0] {
      LessIsTransitive(a[1..], b[1..], c[1..]);
    }
  }

  function Whole(t: Time): int {
    t / SECOND
  }

  /** The fraction of the second as text, without its point. */
  function FractionOf(t: Time): string {
    assert Pow10(9) == SECOND by { assert Pow10(5) == 100_000; }
    Fraction(t % SECOND, 9)
  }

  /** What follows the whole second: ".5Z" or just "Z". */
  function Suffix(t: Time): string {
    var f := FractionOf(t);
    (if f == "" then "" else "." + f) + "Z"
  }

  /** text(a) < text(b) */
  predicate TextLess(a: Time, b: Time) {
    Whole(a) < Whole(b) || (Whole(a) == Whole(b) && Less(Suffix(a), Suffix(b)))
  }

  /** text(a) <= text(b) */
  predicate TextLessEq(a: Time, b: Time) {
    !TextLess(b, a)
  }

  ghost predicate ProperPrefix(a: string, b: string) {
    |a| < |b| && b[..|a|] == a
  }

  lemma PrefixCons(c: char, ra: string, d: char, rb: string)
    ensures ProperPrefix([c] + ra, [d] + rb) <==> c == d && ProperPrefix(ra, rb)
  {
    var fa, fb := [c] + ra, [d] + rb;
    if ProperPrefix(fa, fb) {
      assert fb[0] == fb[..|fa|][0];
      assert ra == fa[1..] && rb[..|ra|] == fb[..|fa|][1..];
    }
    if c == d && ProperPrefix(ra, rb) {
      assert fb[..|fa|] == [d] + rb[..|ra|];
    }
  }

  /** Text order against a known order of the values: reversed exactly at a proper prefix. */
  ghost predicate Ordered(fa: string, fb: string, less: bool, greater: bool) {
    && (ProperPrefix(fa, fb) ==> less && !Less(fa + "Z", fb + "Z"))
    && (ProperPrefix(fb, fa) ==> greater && Less(fa + "Z", fb + "Z"))
    && (!ProperPrefix(fa, fb) && !ProperPrefix(fb, fa) ==> (Less(fa + "Z", fb + "Z") <==> less))
  }

  lemma Prepend(i: nat, ra: string, j: nat, rb: string, less: bool, greater: bool)
    requires i < 10 && j < 10
    requires i == j ==> Ordered(ra, rb, less, greater)
    requires i != j ==> less == (i < j) && greater == (j < i)
    ensures Ordered([Digit(i)] + ra, [Digit(j)] + rb, less, greater)
  {
    var c, d := Digit(i), Digit(j);
    assert (c == d <==> i == j) && (c < d <==> i < j);
    var fa, fb := [c] + ra, [d] + rb;
    assert (fa + "Z")[1..] == ra + "Z" && (fb + "Z")[1..] == rb + "Z";
    PrefixCons(c, ra, d, rb);
    PrefixCons(d, rb, c, ra);
  }

  /** What the texts of two fractions say about the fractions. */
  lemma {:induction false} FractionOrder(a: nat, b: nat, k: nat)
    requires a < Pow10(k) && b < Pow10(k)
    ensures Ordered(Fraction(a, k), Fraction(b, k), a < b, b < a)
    decreases k
  {
    if a == 0 || b == 0 {
      EmptyOrder(a, b, k);
    } else {
      hide *;
      var p, qa, ra := FractionStep(a, k);
      var _, qb, rb := FractionStep(b, k);
      FractionOrder(ra, rb, k - 1);
      Prepend(qa, Fraction(ra, k - 1), qb, Fraction(rb, k - 1), a < b, b < a) by {
        SplitDecides(p, qa, ra, qb, rb);
        SplitDecides(p, qb, rb, qa, ra);
      }
    }
  }

  lemma FractionStep(n: nat, k: nat) returns (p: nat, q: nat, r: nat)
    requires 0 < n < Pow10(k)
    ensures k >= 1 && p == Pow10(k - 1) && q < 10 && r < p && n == q * p + r
    ensures Fraction(n, k) == [Digit(q)] + Fraction(r, k - 1)
  {
    p := Pow10(k - 1);
    DivBound(n, p);
    q, r := n / p, n % p;
  }

  lemma SplitDecides(p: nat, qa: nat, ra: nat, qb: nat, rb: nat)
    requires ra < p && rb < p
    ensures qa * p + ra < qb * p + rb <==> qa < qb || (qa == qb && ra < rb)
  {
    if qa < qb {
      assert (qa + 1) * p <= qb * p;
    } else if qb < qa {
      assert (qb + 1) * p <= qa * p;
    }
  }

  lemma EmptyOrder(a: nat, b: nat, k: nat)
    requires a < Pow10(k) && b < Pow10(k) && (a == 0 || b == 0)
    ensures Ordered(Fraction(a, k), Fraction(b, k), a < b, b < a)
  {
    EmptyFraction(a, k);
    EmptyFraction(b, k);
  }

  lemma EmptyFraction(n: nat, k: nat)
    requires n < Pow10(k)
    ensures n == 0 <==> Fraction(n, k) == ""
    ensures n != 0 ==>
      '0' <= Fraction(n, k)[0] <= '9' && Less(Fraction(n, k) + "Z", "Z") && !Less("Z", Fraction(n, k) + "Z")
    ensures !Less("Z", "Z")
  {
    assert "Z"[1..] == "";
  }

  /**
   Text order is time order exactly when the whole seconds differ or neither fraction's text is a
   proper prefix of the other's. Where one is, the texts are in the wrong order.
   */
  lemma TextOrderIsTimeOrderIff(a: Time, b: Time)
    ensures (TextLess(a, b) <==> a < b) <==>
              Whole(a) != Whole(b)
              || (!ProperPrefix(FractionOf(a), FractionOf(b)) && !ProperPrefix(FractionOf(b), FractionOf(a)))
    ensures Whole(a) == Whole(b) && ProperPrefix(FractionOf(a), FractionOf(b)) ==> a < b && TextLess(b, a)
    ensures TextLess(a, b) || TextLess(b, a) || a == b
    ensures !(TextLess(a, b) && TextLess(b, a))
  {
    assert Pow10(9) == SECOND by { assert Pow10(5) == 100_000; }
    var fa, fb := FractionOf(a), FractionOf(b);
    FractionOrder(a % SECOND, b % SECOND, 9);
    EmptyFraction(a % SECOND, 9);
    EmptyFraction(b % SECOND, 9);
    if Whole(a) == Whole(b) {
      PointDoesNotMatter(fa, fb);
      PointDoesNotMatter(fb, fa);
      FractionInjective(a % SECOND, b % SECOND, 9);
    }
  }

  lemma PointDoesNotMatter(f: string, g: string)
    requires f != "" ==> '0' <= f[0] <= '9'
    requires g != "" ==> '0' <= g[0] <= '9'
    ensures var x := (if f == "" then "" else "." + f) + "Z";
      var y := (if g == "" then "" else "." + g) + "Z";
      Less(x, y) <==> Less(f + "Z", g + "Z")
  {
    var x := (if f == "" then "" else "." + f) + "Z";
    var y := (if g == "" then "" else "." + g) + "Z";
    if f != "" { assert x[1..] == f + "Z"; }
    if g != "" { assert y[1..] == g + "Z"; }
    assert "Z"[1..] == "";
  }

  lemma {:induction false} FractionInjective(a: nat, b: nat, k: nat)
    requires a < Pow10(k) && b < Pow10(k)
    ensures Less(Fraction(a, k) + "Z", Fraction(b, k) + "Z") || Less(Fraction(b, k) + "Z", Fraction(a, k) + "Z")
      || a == b
    ensures !(Less(Fraction(a, k) + "Z", Fraction(b, k) + "Z") && Less(Fraction(b, k) + "Z", Fraction(a, k) + "Z"))
  {
    FractionOrder(a, b, k);
    FractionOrder(b, a, k);
  }
}
