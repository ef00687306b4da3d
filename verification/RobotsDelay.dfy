/** Crawl-delay directives: exact decimal arithmetic in 64-bit nanoseconds. */
module RobotsDelay {
  import opened Wrappers
  import opened RobotsPattern

  const MAX_DURATION: nat := 0x7fff_ffff_ffff_ffff
  const MAX_UINT64: nat := 0xffff_ffff_ffff_ffff
  const SECOND: nat := 1_000_000_000
  const DOT: Byte := 46

  predicate IsDigit(c: Byte) { 48 <= c <= 57 }

  predicate DecimalDigits(v: seq<Byte>) { forall i :: 0 <= i < |v| ==> IsDigit(v[i]) }

  function Pow10(k: nat): (p: nat)
    ensures p >= 1
  {
    if k == 0 then 1 else 10 * Pow10(k - 1)
  }

  /** The number a run of digits denotes. */
  function Decimal(v: seq<Byte>): nat
    requires DecimalDigits(v)
  {
    if v == [] then 0 else 10 * Decimal(v[..|v| - 1]) + (v[|v| - 1] - 48)
  }

  /** Position of the first dot, or the length. */
  function DotAt(v: seq<Byte>): (k: nat)
    ensures k <= |v| && (k < |v| ==> v[k] == DOT) && forall i :: 0 <= i < k ==> v[i] != DOT
  {
    if v == [] || v[0] == DOT then 0 else 1 + DotAt(v[1..])
  }

  function Whole(v: seq<Byte>): seq<Byte> { v[..DotAt(v)] }

  function Fraction(v: seq<Byte>): seq<Byte> { if DotAt(v) < |v| then v[DotAt(v) + 1..] else [] }

  /** Decimal seconds with an optional fraction of one to nine digits. */
  predicate DelaySyntax(v: seq<Byte>) {
    && Whole(v) != [] && DecimalDigits(Whole(v)) && DecimalDigits(Fraction(v))
    && (DotAt(v) < |v| ==> 1 <= |Fraction(v)| <= 9)
  }

  /** The delay in nanoseconds. */
  function Nanoseconds(v: seq<Byte>): nat
    requires DelaySyntax(v)
  {
    Decimal(Whole(v)) * SECOND + Decimal(Fraction(v)) * Pow10(9 - |Fraction(v)|)
  }

  /** The value a directive is worth: nothing unless it is well formed and fits a duration. */
  function DelayOf(v: seq<Byte>): Option<nat> {
    if DelaySyntax(v) && Nanoseconds(v) <= MAX_DURATION then Some(Nanoseconds(v)) else None
  }

  lemma {:induction false} Pow10Adds(i: nat, j: nat)
    ensures Pow10(i + j) == Pow10(i) * Pow10(j)
  {
    if i > 0 {
      Pow10Adds(i - 1, j);
      TimesTen(Pow10(j), Pow10(i - 1));
      assert i + j - 1 == i - 1 + j;
    }
  }

  lemma TimesTen(a: int, p: int)
    ensures 10 * (a * p) == a * (10 * p)
  {
  }

  lemma Pow10Bound(i: nat)
    requires i <= 9
    ensures Pow10(i) <= SECOND
  {
    Pow10Adds(i, 9 - i);
    assert Pow10(9) == SECOND;
    AtLeastOneTimes(Pow10(i), Pow10(9 - i));
  }

  lemma AtLeastOneTimes(a: nat, b: nat)
    requires b >= 1
    ensures a <= a * b
  {
  }

  lemma {:induction false} DecimalAppends(a: seq<Byte>, b: seq<Byte>)
    requires DecimalDigits(a) && DecimalDigits(b)
    ensures DecimalDigits(a + b) && Decimal(a + b) == Decimal(a) * Pow10(|b|) + Decimal(b)
    decreases |b|
  {
    if b == [] {
      assert a + b == a;
    } else {
      var k := |b| - 1;
      DecimalAppends(a, b[..k]);
      assert (a + b)[..|a + b| - 1] == a + b[..k];
      assert (a + b)[|a + b| - 1] == b[k];
      assert Decimal(a + b) == 10 * Decimal(a + b[..k]) + (b[k] - 48);
      TimesTen(Decimal(a), Pow10(k));
    }
  }

  lemma Rescale(a: int, b: int, p: int, q: int, unit: int)
    requires q * p == unit
    ensures (a * unit + b * q) * p == (a * p + b) * unit
  {
    calc {
      (a * unit + b * q) * p;
      a * unit * p + b * (q * p);
      (a * p + b) * unit;
    }
  }

  /** The value is exact: with k fraction digits, nanoseconds x 10^k is the digit string x 10^9. */
  lemma NanosecondsExact(v: seq<Byte>)
    requires DelaySyntax(v)
    ensures DecimalDigits(Whole(v) + Fraction(v))
    ensures Nanoseconds(v) * Pow10(|Fraction(v)|) == Decimal(Whole(v) + Fraction(v)) * SECOND
  {
    var w, f := Whole(v), Fraction(v);
    DecimalAppends(w, f);
    Pow10Adds(9 - |f|, |f|);
    assert Pow10(9) == SECOND;
    Rescale(Decimal(w), Decimal(f), Pow10(|f|), Pow10(9 - |f|), SECOND);
  }

  /** strconv.ParseUint on a run of digits: the value, or an error when it does not fit 64 bits. */
  function ParseUint(v: seq<Byte>): Option<nat>
    requires DecimalDigits(v)
  {
    if Decimal(v) <= MAX_UINT64 then Some(Decimal(v)) else None
  }

  /** Unsigned 64-bit arithmetic wraps around. */
  function U64(x: int): (r: nat)
    ensures 0 <= x <= MAX_UINT64 ==> r == x
  {
    x % (MAX_UINT64 + 1)
  }

  /** The digits loop. */
  method DigitsValue(digits: seq<Byte>) returns (n: nat)
    requires DecimalDigits(digits) && |digits| <= 9
    ensures n == Decimal(digits) && n < Pow10(|digits|)
  {
    n := 0;
    for index := 0 to |digits|
      invariant n == Decimal(digits[..index]) && n < Pow10(index)
    {
      Pow10Bound(index);
      assert digits[..index + 1][..index] == digits[..index];
      n := U64(U64(n * 10) + (digits[index] - 48));
    }
    assert digits[..|digits|] == digits;
  }

  /** The fraction loops: nine digits' worth of nanoseconds, with no wrap-around. */
  method FractionNanoseconds(fraction: seq<Byte>) returns (n: nat)
    requires DecimalDigits(fraction) && |fraction| <= 9
    ensures n == Decimal(fraction) * Pow10(9 - |fraction|) && n < SECOND
  {
    n := DigitsValue(fraction);
    var digits := |fraction|;
    while digits < 9
      invariant |fraction| <= digits <= 9
      invariant n == Decimal(fraction) * Pow10(digits - |fraction|) && n < Pow10(digits)
    {
      Pow10Bound(digits);
      TimesTen(Decimal(fraction), Pow10(digits - |fraction|));
      n := U64(n * 10);
      digits := digits + 1;
    }
    Pow10Bound(9);
  }

  /** Parsing accepts exactly the well-formed delays that fit a duration, and returns their exact value. */
  method ParseCrawlDelay(value: seq<Byte>) returns (r: Option<nat>)
    ensures r == DelayOf(value)
  {
    assert Decimal([]) == 0;
    hide Decimal, Pow10, DotAt;
    var hasFraction := DotAt(value) < |value|;
    var secondsValue, fractionalValue := Whole(value), Fraction(value);
    if secondsValue == [] || !DecimalDigits(secondsValue) {
      return None;
    }
    if hasFraction && (fractionalValue == [] || |fractionalValue| > 9 || !DecimalDigits(fractionalValue)) {
      return None;
    }
    var seconds := ParseUint(secondsValue);
    if seconds.None? {
      return None;
    }
    if seconds.value > MAX_DURATION / SECOND {
      return None;
    }
    var total := U64(seconds.value * SECOND);
    if hasFraction {
      var fraction := FractionNanoseconds(fractionalValue);
      if fraction > MAX_DURATION - total {
        return None;
      }
      total := U64(total + fraction);
    }
    r := Some(total);
  }

  /** What each directive of a policy is worth. */
  function Worth(delays: seq<seq<Byte>>): seq<Option<nat>> {
    seq(|delays|, i requires 0 <= i < |delays| => DelayOf(delays[i]))
  }

  /** The largest of some delays, or nothing when any of them is invalid. */
  function Largest(worth: seq<Option<nat>>): Option<nat> {
    if worth == [] then Some(0)
    else
      var before := Largest(worth[..|worth| - 1]);
      var last := worth[|worth| - 1];
      if before.None? || last.None? then None else Some(Max(before.value, last.value))
  }

  /**
   Some delay is invalid exactly when there is no largest one; otherwise none asks for more, and it
   is zero or one of them.
   */
  lemma {:induction false} LargestIsLargest(worth: seq<Option<nat>>)
    ensures Largest(worth).None? <==> None in worth
    ensures Largest(worth).Some? ==>
              && (forall d :: Some(d) in worth ==> d <= Largest(worth).value)
              && (Largest(worth).value == 0 || Largest(worth) in worth)
  {
    if worth != [] {
      var k := |worth| - 1;
      LargestIsLargest(worth[..k]);
      assert worth == worth[..k] + [worth[k]];
    }
  }

  /** The delay loop of a policy: the largest directive capped at the limit, or an error if any is invalid. */
  method CrawlDelay(delays: seq<seq<Byte>>, limit: nat) returns (r: Option<nat>)
    ensures r == match Largest(Worth(delays)) case None => None case Some(d) => Some(Min(d, limit))
  {
    hide DelayOf;
    var delay := 0;
    ghost var worth := Worth(delays);
    for k := 0 to |delays|
      invariant Largest(worth[..k]) == Some(delay)
    {
      assert worth[..k + 1][..k] == worth[..k];
      var parsed := ParseCrawlDelay(delays[k]);
      assert worth[k] == parsed;
      if parsed.None? {
        LargestIsLargest(worth);
        return None;
      }
      if parsed.value > delay {
        delay := parsed.value;
      }
    }
    assert worth[..|delays|] == worth;
    r := Some(Min(delay, limit));
  }
}
