/** `parseDuration` (src/index.ts): the interval argument of the `agg` command, one or
    more decimal digits followed by a unit, converted to milliseconds. */
module Duration {
  import opened Common

  datatype Unit = Millis | Seconds | Minutes | Hours

  function UnitText(u: Unit): string
  {
    match u
    case Millis => "ms"
    case Seconds => "s"
    case Minutes => "m"
    case Hours => "h"
  }

  function UnitMillis(u: Unit): nat
  {
    match u
    case Millis => 1
    case Seconds => 1000
    case Minutes => 60 * 1000
    case Hours => 60 * 60 * 1000
  }

  /** The unit spelled exactly `s`, if any. */
  function ParseUnit(s: string): (r: Option<Unit>)
    ensures r.Some? ==> UnitText(r.value) == s
    ensures r.None? ==> forall u: Unit :: UnitText(u) != s
  {
    if s == "ms" then Some(Millis)
    else if s == "s" then Some(Seconds)
    else if s == "m" then Some(Minutes)
    else if s == "h" then Some(Hours)
    else None
  }

  /** `\d` in a JavaScript regular expression: an ASCII decimal digit. */
  predicate IsDigit(c: char)
  {
    '0' <= c <= '9'
  }

  predicate AllDigits(s: string)
  {
    forall i :: 0 <= i < |s| ==> IsDigit(s[i])
  }

  /** `parseInt` of a string of decimal digits. */
  function DigitsValue(s: string): nat
    requires AllDigits(s)
  {
    if s == [] then 0
    else DigitsValue(s[..|s| - 1]) * 10 + (s[|s| - 1] as int - '0' as int)
  }

  /** The length of the longest run of digits that starts `s`. */
  function LeadingDigits(s: string): (k: nat)
    ensures k <= |s| && AllDigits(s[..k])
    ensures k < |s| ==> !IsDigit(s[k])
  {
    if s == [] || !IsDigit(s[0]) then 0
    else
      var k := 1 + LeadingDigits(s[1..]);
      assert forall i :: 1 <= i < k ==> s[..k][i] == s[1..][..k - 1][i - 1];
      k
  }

  /** `parseDuration`: the match of `^(\d+)(ms|s|m|h)$`, then `parseInt` of the digits times
      the unit's length in milliseconds. Anything else throws `Invalid duration`. */
  function ParseDuration(s: string): (r: Result<nat>)
    ensures r.Err? ==> r.error == InvalidDuration(s)
  {
    var k := LeadingDigits(s);
    match ParseUnit(s[k..])
    case Some(u) => if k == 0 then Err(InvalidDuration(s)) else Ok(DigitsValue(s[..k]) * UnitMillis(u))
    case None => Err(InvalidDuration(s))
  }

  /** The language of `^\d+(ms|s|m|h)$`: a non-empty run of digits, then exactly one unit. */
  predicate MatchesDurationPattern(s: string)
  {
    exists k :: 0 < k <= |s| && AllDigits(s[..k]) && s[k..] in {"ms", "s", "m", "h"}
  }

  /** The digit run is where the unit starts: a split into digits and a non-digit rest is the
      one `LeadingDigits` finds. */
  lemma {:induction false} LeadingDigitsIsSplit(s: string, k: nat)
    requires k <= |s| && AllDigits(s[..k]) && (k < |s| ==> !IsDigit(s[k]))
    ensures LeadingDigits(s) == k
  {
    if k > 0 {
      assert IsDigit(s[..k][0]);
      assert s[1..][..k - 1] == s[..k][1..];
      assert k - 1 < |s| - 1 ==> s[1..][k - 1] == s[k];
      LeadingDigitsIsSplit(s[1..], k - 1);
    }
  }

  /** `parseDuration` succeeds exactly on the strings the regular expression matches. */
  lemma ParseDurationAcceptsPattern(s: string)
    ensures ParseDuration(s).Ok? <==> MatchesDurationPattern(s)
  {
    var k := LeadingDigits(s);
    if ParseDuration(s).Ok? {
      assert s[k..] in {"ms", "s", "m", "h"};
    }
    if MatchesDurationPattern(s) {
      var j :| 0 < j <= |s| && AllDigits(s[..j]) && s[j..] in {"ms", "s", "m", "h"};
      assert j < |s| && s[j] == s[j..][0];
      LeadingDigitsIsSplit(s, j);
    }
  }

  /** Each unit's spelling parses back to that unit. */
  lemma ParseUnitText(u: Unit)
    ensures ParseUnit(UnitText(u)) == Some(u)
  {
  }

  /** Digits followed by a unit parse to the digits' value times the unit's milliseconds. */
  lemma ParseDurationValue(digits: string, u: Unit)
    requires |digits| > 0 && AllDigits(digits)
    ensures ParseDuration(digits + UnitText(u)) == Ok(DigitsValue(digits) * UnitMillis(u))
  {
    var s := digits + UnitText(u);
    var k := |digits|;
    assert s[..k] == digits;
    assert s[k..] == UnitText(u);
    assert !IsDigit(s[k]) by {
      assert s[k] == UnitText(u)[0];
    }
    LeadingDigitsIsSplit(s, k);
    ParseUnitText(u);
  }

  /** An accepted interval: 1500 ms. */
  lemma ParseDurationMillisExample()
    ensures ParseDuration("1500ms") == Ok(1500)
  {
    assert DigitsValue("1500") == 1500 by {
      assert "1500"[..3] == "150" && "150"[..2] == "15" && "15"[..1] == "1" && "1"[..0] == "";
    }
    assert "1500" + "ms" == "1500ms";
    ParseDurationValue("1500", Millis);
  }

  /** An accepted interval: 30 s. */
  lemma ParseDurationSecondsExample()
    ensures ParseDuration("30s") == Ok(30000)
  {
    assert DigitsValue("30") == 30 by {
      assert "30"[..1] == "3" && "3"[..0] == "";
    }
    assert "30" + "s" == "30s";
    ParseDurationValue("30", Seconds);
  }

  /** An accepted interval: one hour. */
  lemma ParseDurationHoursExample()
    ensures ParseDuration("1h") == Ok(3600000)
  {
    assert DigitsValue("1") == 1 by {
      assert "1"[..0] == "";
    }
    assert "1" + "h" == "1h";
    ParseDurationValue("1", Hours);
  }

  /** Examples of rejected intervals: no unit, an unknown unit, the empty string, a sign. */
  lemma ParseDurationRejectsExamples()
    ensures ParseDuration("5") == Err(InvalidDuration("5"))
    ensures ParseDuration("3x") == Err(InvalidDuration("3x"))
    ensures ParseDuration("") == Err(InvalidDuration(""))
    ensures ParseDuration("-5s") == Err(InvalidDuration("-5s"))
  {
    LeadingDigitsIsSplit("5", 1);
    assert "5"[1..] == "";
    LeadingDigitsIsSplit("3x", 1);
    assert "3x"[1..] == "x";
    LeadingDigitsIsSplit("-5s", 0);
  }
}
