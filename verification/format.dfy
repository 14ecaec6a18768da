/**
 * The two pieces of Go value formatting the translator relies on: the
 * truncating integer division behind `time.Unix(ms/1000, 0)`, and the `%d`
 * rendering of an integer inside the synthetic pull-request ref.
 */
module Format {
  import opened Wrappers

  /**
   * Go's `ms / 1000` on int64: the quotient truncated toward zero (Dafny's `/`
   * on int rounds toward negative infinity for negative operands). The result
   * is the unique whole number of seconds such that the dropped remainder is
   * smaller than a second and has the sign of `ms`.
   */
  function MillisToSeconds(ms: int): (s: int)
    ensures 0 <= ms ==> 0 <= ms - s * 1000 < 1000
    ensures ms < 0 ==> -1000 < ms - s * 1000 <= 0
  {
    if ms >= 0 then ms / 1000 else -((-ms) / 1000)
  }

  /** Any two numbers of seconds that satisfy the truncation contract are the same. */
  lemma MillisToSecondsUnique(ms: int, s: int)
    requires 0 <= ms ==> 0 <= ms - s * 1000 < 1000
    requires ms < 0 ==> -1000 < ms - s * 1000 <= 0
    ensures s == MillisToSeconds(ms)
  {
  }

  /** A date of 1 600 000 000 000 ms is second 1 600 000 000; -1500 ms is second -1, not -2. */
  lemma MillisToSecondsExamples()
    ensures MillisToSeconds(1_600_000_000_000) == 1_600_000_000
    ensures MillisToSeconds(-1500) == -1 && -1500 / 1000 == -2
  {
  }

  predicate IsDigit(c: char) {
    '0' <= c <= '9'
  }

  predicate AllDigits(s: string) {
    forall i :: 0 <= i < |s| ==> IsDigit(s[i])
  }

  function DigitChar(d: nat): (c: char)
    requires d < 10
    ensures IsDigit(c) && c as int - '0' as int == d
  {
    (d + '0' as int) as char
  }

  /** The decimal digits of a natural number, without leading zeros. */
  function NatToDecimal(n: nat): (s: string)
    ensures |s| > 0 && AllDigits(s)
    ensures s[0] == '0' ==> n == 0 && s == "0"
    decreases n
  {
    if n < 10 then [DigitChar(n)] else NatToDecimal(n / 10) + [DigitChar(n % 10)]
  }

  /** `%d`: the decimal digits, preceded by a minus sign for a negative number. */
  function Decimal(n: int): (s: string)
    ensures |s| > 0
    ensures n >= 0 ==> AllDigits(s)
    ensures n < 0 ==> s[0] == '-' && |s| > 1 && AllDigits(s[1..])
  {
    if n < 0 then "-" + NatToDecimal(-n) else NatToDecimal(n)
  }

  /** The value of a string of decimal digits. */
  function ParseNat(s: string): (n: nat)
    requires AllDigits(s)
    decreases |s|
  {
    if s == [] then 0 else ParseNat(s[..|s| - 1]) * 10 + (s[|s| - 1] as int - '0' as int)
  }

  /** The inverse of `Decimal`: an optional minus sign followed by at least one digit. */
  function ParseDecimal(s: string): (r: Option<int>)
    ensures r.Some? ==> |s| > 0
  {
    if |s| > 1 && s[0] == '-' && AllDigits(s[1..]) then Some(-(ParseNat(s[1..]) as int))
    else if |s| > 0 && AllDigits(s) then Some(ParseNat(s))
    else None
  }

  lemma {:induction false} ParseNatToDecimal(n: nat)
    ensures ParseNat(NatToDecimal(n)) == n
    decreases n
  {
    var s := NatToDecimal(n);
    if n < 10 {
      assert s[..|s| - 1] == [];
    } else {
      assert s[..|s| - 1] == NatToDecimal(n / 10);
      ParseNatToDecimal(n / 10);
    }
  }

  /** Reading back the `%d` rendering of any integer gives that integer. */
  lemma ParseDecimalRoundTrip(n: int)
    ensures ParseDecimal(Decimal(n)) == Some(n)
  {
    var s := Decimal(n);
    if n < 0 {
      assert s[1..] == NatToDecimal(-n);
      ParseNatToDecimal(-n);
    } else {
      ParseNatToDecimal(n);
    }
  }

  /** Distinct integers have distinct `%d` renderings. */
  lemma DecimalInjective(a: int, b: int)
    requires Decimal(a) == Decimal(b)
    ensures a == b
  {
    ParseDecimalRoundTrip(a);
    ParseDecimalRoundTrip(b);
  }

  const PullRequestRefPrefix: string := "refs/pull-requests/"
  const PullRequestRefSuffix: string := "/from"

  /** `fmt.Sprintf("refs/pull-requests/%d/from", id)`. */
  function PullRequestRef(id: int): (ref: string)
    ensures |ref| > |PullRequestRefPrefix| + |PullRequestRefSuffix|
    ensures ref[..|PullRequestRefPrefix|] == PullRequestRefPrefix
    ensures ref[|ref| - |PullRequestRefSuffix|..] == PullRequestRefSuffix
  {
    PullRequestRefPrefix + Decimal(id) + PullRequestRefSuffix
  }

  /** The pull-request number named by a synthetic ref, if the string has that shape. */
  function ParseRef(ref: string): (r: Option<int>)
    ensures r.Some? ==> |ref| > |PullRequestRefPrefix| && ref[..|PullRequestRefPrefix|] == PullRequestRefPrefix
  {
    var p, q := |PullRequestRefPrefix|, |PullRequestRefSuffix|;
    if |ref| >= p + q && ref[..p] == PullRequestRefPrefix && ref[|ref| - q..] == PullRequestRefSuffix
    then ParseDecimal(ref[p..|ref| - q])
    else None
  }

  /** The number of a pull request can always be read back from its synthetic ref. */
  lemma ParseRefRoundTrip(id: int)
    ensures ParseRef(PullRequestRef(id)) == Some(id)
  {
    var ref := PullRequestRef(id);
    var p, q := |PullRequestRefPrefix|, |PullRequestRefSuffix|;
    assert ref[p..|ref| - q] == Decimal(id);
    ParseDecimalRoundTrip(id);
  }

  /** Two pull requests share a synthetic ref only when they share a number. */
  lemma PullRequestRefInjective(a: int, b: int)
    requires PullRequestRef(a) == PullRequestRef(b)
    ensures a == b
  {
    ParseRefRoundTrip(a);
    ParseRefRoundTrip(b);
  }
}
