/** Years of professional experience claimed by a resume
    (`extractExperienceYears`). The three "N years of experience" regular
    expressions are not modelled: the integers they capture, in match order,
    are an input. The employment-date scan for 19xx/20xx tokens is modelled,
    and the current year is a parameter. */
module ExperienceEstimator {
  import opened Strings

  /** Largest number of years believed, for a stated claim and for a date span. */
  const MaxPlausibleYears: int := 50

  /** Earliest calendar year counted as an employment date. */
  const EarliestDateYear: int := 1990

  /** A stated number of years that is kept: `year > 0 && year <= 50`. */
  predicate IsPlausibleYears(y: int)
  {
    0 < y <= MaxPlausibleYears
  }

  function DigitValue(c: char): int
  {
    c as int - '0' as int
  }

  /** Whether `\b(20\d{2}|19\d{2})\b` matches at position `i` of `s`. */
  predicate YearAt(s: string, i: nat)
  {
    && i + 4 <= |s|
    && (i == 0 || !IsWordChar(s[i - 1]))
    && ((s[i] == '2' && s[i + 1] == '0') || (s[i] == '1' && s[i + 1] == '9'))
    && IsDigit(s[i + 2]) && IsDigit(s[i + 3])
    && (i + 4 == |s| || !IsWordChar(s[i + 4]))
  }

  /** `parseInt` of the four digits at `i`. */
  function YearValue(s: string, i: nat): (y: int)
    requires YearAt(s, i)
    ensures 1900 <= y <= 2099
  {
    1000 * DigitValue(s[i]) + 100 * DigitValue(s[i + 1]) + 10 * DigitValue(s[i + 2]) + DigitValue(s[i + 3])
  }

  /** The year tokens of `s` from position `i` on, in text order, as a global
      `matchAll` of the date pattern finds them (a match resumes the scan
      right after it). */
  function YearTokens(s: string, i: nat): (ys: seq<int>)
    requires i <= |s|
    ensures forall k | 0 <= k < |ys| :: 1900 <= ys[k] <= 2099
    decreases |s| - i
  {
    if i + 4 > |s| then []
    else if YearAt(s, i) then [YearValue(s, i)] + YearTokens(s, i + 4)
    else YearTokens(s, i + 1)
  }

  /** The tokens that count as employment dates: from 1990 to the current year. */
  function InRange(ys: seq<int>, currentYear: int): (ds: seq<int>)
    ensures forall k | 0 <= k < |ds| :: EarliestDateYear <= ds[k] <= currentYear
    ensures forall y | y in ys && EarliestDateYear <= y <= currentYear :: y in ds
    ensures forall y | y in ds :: y in ys
  {
    if |ys| == 0 then []
    else
      var rest := InRange(ys[1..], currentYear);
      assert forall y | y in ys :: y == ys[0] || y in ys[1..];
      if EarliestDateYear <= ys[0] <= currentYear then [ys[0]] + rest else rest
  }

  /** The employment dates of a resume. */
  function Dates(text: string, currentYear: int): seq<int>
  {
    InRange(YearTokens(text, 0), currentYear)
  }

  /** The experience implied by the dates: latest minus earliest, when there
      are at least two dates and the difference is from 1 to 50. */
  function DateSpan(dates: seq<int>): (span: Option<int>)
    ensures span.Some? ==> IsPlausibleYears(span.value)
  {
    if |dates| >= 2 then
      var span := MaxOf(dates) - MinOf(dates);
      if 0 < span <= MaxPlausibleYears then Some(span) else None
    else None
  }

  /** Every candidate number of years: the plausible stated claims, in order,
      followed by the date span when there is one. */
  function Candidates(text: string, claims: seq<int>, currentYear: int): seq<int>
  {
    var span := DateSpan(Dates(text, currentYear));
    Filter(claims, IsPlausibleYears) + (if span.Some? then [span.value] else [])
  }

  /** The experience `extractExperienceYears` reports. */
  function ExperienceOf(text: string, claims: seq<int>, currentYear: int): int
  {
    var c := Candidates(text, claims, currentYear);
    if |c| > 0 then MaxOf(c) else 0
  }

  /** `extractExperienceYears`, with `claims` the integers captured by the
      three phrase patterns. */
  method ExtractExperienceYears(text: string, claims: seq<int>, currentYear: int) returns (experience: int)
    ensures experience == ExperienceOf(text, claims, currentYear)
  {
    var years: seq<int> := [];
    for i := 0 to |claims|
      invariant years == Filter(claims[..i], IsPlausibleYears)
    {
      var year := claims[i];
      FilterSnoc(claims[..i], year, IsPlausibleYears);
      assert claims[..i + 1] == claims[..i] + [year];
      if year > 0 && year <= 50 {
        years := years + [year];
      }
    }
    assert claims[..|claims|] == claims;
    var dates := Dates(text, currentYear);
    if |dates| >= 2 {
      var experienceFromDates := MaxOf(dates) - MinOf(dates);
      if experienceFromDates > 0 && experienceFromDates <= 50 {
        years := years + [experienceFromDates];
      }
    }
    assert years == Candidates(text, claims, currentYear);
    experience := if |years| > 0 then MaxOf(years) else 0;
  }

  /** Every candidate is from 1 to 50. */
  lemma CandidatesPlausible(text: string, claims: seq<int>, currentYear: int)
    ensures forall y | y in Candidates(text, claims, currentYear) :: IsPlausibleYears(y)
  {
    FilterSound(claims, IsPlausibleYears);
  }

  /** The result is 0 exactly when there is no candidate; otherwise it is the
      largest candidate. Either way it is 0 or from 1 to 50. */
  lemma ExperienceIsLargestCandidate(text: string, claims: seq<int>, currentYear: int)
    ensures var c := Candidates(text, claims, currentYear);
      var e := ExperienceOf(text, claims, currentYear);
      && (e == 0 <==> |c| == 0)
      && (|c| > 0 ==> e in c && forall y | y in c :: y <= e)
      && (e == 0 || IsPlausibleYears(e))
  {
    CandidatesPlausible(text, claims, currentYear);
  }

  /** Every plausible claim and the date span are bounded by the result, and
      the result is one of them. */
  lemma ExperienceBoundsEveryClaim(text: string, claims: seq<int>, currentYear: int)
    ensures var e := ExperienceOf(text, claims, currentYear);
      && (forall y | y in claims && IsPlausibleYears(y) :: y <= e)
      && (DateSpan(Dates(text, currentYear)).Some? ==> DateSpan(Dates(text, currentYear)).value <= e)
  {
    var c := Candidates(text, claims, currentYear);
    forall y | y in claims && IsPlausibleYears(y) ensures y in c {
      FilterKeeps(claims, IsPlausibleYears, y);
    }
    var span := DateSpan(Dates(text, currentYear));
    if span.Some? {
      assert span.value in c;
    }
  }

  /** A claim of 0 years or of more than 50 changes nothing. */
  lemma ImplausibleClaimIgnored(text: string, claims: seq<int>, y: int, currentYear: int)
    requires !IsPlausibleYears(y)
    ensures ExperienceOf(text, claims + [y], currentYear) == ExperienceOf(text, claims, currentYear)
  {
    FilterSnoc(claims, y, IsPlausibleYears);
    assert Candidates(text, claims + [y], currentYear) == Candidates(text, claims, currentYear);
  }

  /** Without any claim, a resume dated 2015-2020 in 2024 shows five years. */
  lemma DateSpanExample()
    ensures ExperienceOf("2015-2020", [], 2024) == 5
  {
    var s := "2015-2020";
    assert YearAt(s, 0) && YearValue(s, 0) == 2015;
    assert YearAt(s, 5) && YearValue(s, 5) == 2020;
    assert YearTokens(s, 9) == [];
    assert YearTokens(s, 5) == [2020];
    assert !YearAt(s, 4);
    assert YearTokens(s, 4) == [2020];
    assert YearTokens(s, 0) == [2015, 2020];
    assert Dates(s, 2024) == [2015, 2020];
    assert Filter([], IsPlausibleYears) == [];
  }
}
