/**
 * Decimal ids taken from URL segments such as /request/museum/{id}.
 * A segment is an id when it is a non-empty run of decimal digits whose
 * value fits a signed 32-bit int; anything else (a letter, a sign, a value
 * above INT_MAX) is a malformed request.
 */
module PathIds {
  import opened Wrappers

  /** INT_MAX of a signed 32-bit int; the largest id a path may carry. */
  const INT_MAX: int := 0x7fff_ffff

  predicate IsDigit(c: char) {
    '0' <= c <= '9'
  }

  predicate AllDigits(s: string) {
    forall i :: 0 <= i < |s| ==> IsDigit(s[i])
  }

  function DigitValue(c: char): (d: nat)
    requires IsDigit(c)
    ensures d < 10
  {
    (c as int) - ('0' as int)
  }

  function DigitChar(d: nat): (c: char)
    requires d < 10
    ensures IsDigit(c) && DigitValue(c) == d
  {
    (('0' as int) + d) as char
  }

  /** The number a run of decimal digits denotes, most significant first. */
  function Value(s: string): nat
    requires AllDigits(s)
  {
    if s == [] then 0 else Value(s[..|s| - 1]) * 10 + DigitValue(s[|s| - 1])
  }

  /** Parses a path segment as an id. */
  function ParseId(s: string): (r: Option<int>)
    ensures r.Some? ==> 0 <= r.value <= INT_MAX
  {
    if s != [] && AllDigits(s) && Value(s) <= INT_MAX then Some(Value(s)) else None
  }

  /** The canonical decimal spelling of an id (no leading zeros). */
  function ShowId(n: nat): (s: string)
    ensures s != [] && AllDigits(s)
    decreases n
  {
    if n < 10 then [DigitChar(n)] else ShowId(n / 10) + [DigitChar(n % 10)]
  }

  function Pow10(k: nat): (p: nat)
    ensures p >= 1
  {
    if k == 0 then 1 else 10 * Pow10(k - 1)
  }

  lemma {:induction false} ValueOfShow(n: nat)
    ensures Value(ShowId(n)) == n
    decreases n
  {
    var s := ShowId(n);
    if n >= 10 {
      ValueOfShow(n / 10);
      assert s[..|s| - 1] == ShowId(n / 10);
    }
  }

  /** Every id the router can produce is parsed back from its spelling. */
  lemma ParseShowRoundTrip(n: int)
    requires 0 <= n <= INT_MAX
    ensures ParseId(ShowId(n)) == Some(n)
  {
    ValueOfShow(n);
  }

  /** A canonical spelling (no leading zero) is the spelling of the id it parses to. */
  lemma {:induction false} ShowValueRoundTrip(s: string)
    requires AllDigits(s) && s != []
    requires s[0] != '0' || |s| == 1
    ensures ShowId(Value(s)) == s
    decreases |s|
  {
    if |s| > 1 {
      var init := s[..|s| - 1];
      assert init[0] == s[0];
      ShowValueRoundTrip(init);
      LeadingDigitBound(init);
      assert Value(s) / 10 == Value(init);
      assert Value(s) % 10 == DigitValue(s[|s| - 1]);
      assert DigitChar(DigitValue(s[|s| - 1])) == s[|s| - 1];
      assert s == init + [s[|s| - 1]];
    }
  }

  /** A digit run without a leading zero is at least 10^(length-1). */
  lemma {:induction false} LeadingDigitBound(s: string)
    requires AllDigits(s) && s != [] && s[0] != '0'
    ensures Value(s) >= Pow10(|s| - 1)
    decreases |s|
  {
    if |s| > 1 {
      var init := s[..|s| - 1];
      assert init[0] == s[0];
      LeadingDigitBound(init);
    }
  }

  /**
   * A run of more than ten digits without a leading zero exceeds INT_MAX,
   * so it is refused however it is spelled.
   */
  lemma TooLongIsRefused(s: string)
    requires AllDigits(s) && |s| > 10 && s[0] != '0'
    ensures ParseId(s) == None
  {
    LeadingDigitBound(s);
    PowMonotone(10, |s| - 1);
    assert Pow10(10) == 10000000000;
  }

  lemma {:induction false} PowMonotone(j: nat, k: nat)
    requires j <= k
    ensures Pow10(j) <= Pow10(k)
    decreases k
  {
    if j < k {
      PowMonotone(j, k - 1);
    }
  }

  /** A segment holding anything but digits is refused. */
  lemma NonDigitIsRefused(s: string, i: int)
    requires 0 <= i < |s| && !IsDigit(s[i])
    ensures ParseId(s) == None
  {
  }

  lemma ShowAppend(n: nat, d: nat)
    requires 1 <= n && d < 10
    ensures ShowId(10 * n + d) == ShowId(n) + [DigitChar(d)]
  {
    assert (10 * n + d) / 10 == n && (10 * n + d) % 10 == d;
  }

  /** INT_MAX itself is an id. */
  lemma IntMaxIsAccepted()
    ensures ShowId(INT_MAX) == "2147483647"
    ensures ParseId("2147483647") == Some(INT_MAX)
  {
    ParseShowRoundTrip(INT_MAX);
    ShowAppend(2, 1);
    ShowAppend(21, 4);
    ShowAppend(214, 7);
    ShowAppend(2147, 4);
    ShowAppend(21474, 8);
    ShowAppend(214748, 3);
    ShowAppend(2147483, 6);
    ShowAppend(21474836, 4);
    ShowAppend(214748364, 7);
    assert ShowId(INT_MAX) == "2147483647";
  }

  /** One above INT_MAX does not fit, so it is refused. */
  lemma IntMaxPlusOneIsRefused()
    ensures ParseId("2147483648") == None
  {
    IntMaxIsAccepted();
    ShowAppend(214748364, 8);
    assert ShowId(INT_MAX + 1) == "2147483648";
    ValueOfShow(INT_MAX + 1);
  }
}
