/** The three field normalisers of the pitcher-roster job:
    `convert_season`, `convert_height` and `convert_weight`
    (lambda_function.py:32-54). A Python exception is `None`. */
module Normalise {
  import opened Results
  import opened Text

  /** The experience text the player-detail API gives a first-year player. */
  const Rookie: string := "Rookie"

  /** The maximal prefix of `s` made of digits. */
  function LeadingDigits(s: string): (d: string)
    ensures |d| <= |s| && d == s[..|d|] && AllDigits(d)
    ensures |d| < |s| ==> !IsDigit(s[|d|])
  {
    if s != [] && IsDigit(s[0]) then [s[0]] + LeadingDigits(s[1..]) else []
  }

  /** What `convert_season` computes: "Rookie" is one season; anything
      else is `int()` of its leading digits, which raises when there are
      none. */
  function SeasonsPlayed(experience: string): Option<nat>
  {
    if experience == Rookie then Some(1) else ParseInt(LeadingDigits(experience))
  }

  /** `convert_season`: collects the leading digits character by character,
      stopping at the first non-digit, then parses them. */
  method ConvertSeason(season: string) returns (r: Option<nat>)
    ensures r == SeasonsPlayed(season)
  {
    if season == Rookie {
      return Some(1);
    }
    var ans := "";
    var i := 0;
    while i < |season|
      invariant 0 <= i <= |season|
      invariant ans == season[..i] && AllDigits(ans)
    {
      if IsDigit(season[i]) {
        ans := ans + [season[i]];
      } else {
        break;
      }
      i := i + 1;
    }
    assert season == ans + season[i..];
    LeadingDigitsOf(ans, season[i..]);
    r := ParseInt(ans);
  }

  /** A digit run followed by a non-digit (or by nothing) is exactly the leading digits. */
  lemma {:induction false} LeadingDigitsOf(d: string, rest: string)
    requires AllDigits(d)
    requires rest == [] || !IsDigit(rest[0])
    ensures LeadingDigits(d + rest) == d
  {
    if d == [] {
      assert d + rest == rest;
    } else {
      assert (d + rest)[1..] == d[1..] + rest;
      LeadingDigitsOf(d[1..], rest);
    }
  }

  /** Any text other than "Rookie" yields a season count exactly when it
      starts with a digit; "", "rookie" and " 5" all raise. */
  lemma SeasonsPlayedSucceeds(experience: string)
    requires experience != Rookie
    ensures SeasonsPlayed(experience).Some? <==> experience != [] && IsDigit(experience[0])
  {
  }

  /** The count is the decimal value of the maximal leading digit run;
      everything from the first non-digit on is ignored. */
  lemma SeasonsPlayedValue(digits: string, rest: string)
    requires digits != [] && AllDigits(digits)
    requires rest == [] || !IsDigit(rest[0])
    ensures SeasonsPlayed(digits + rest) == Some(DigitsValue(digits))
  {
    LeadingDigitsOf(digits, rest);
    assert (digits + rest)[0] == digits[0];
  }

  /** Round trip: a count written in decimal, followed by any text that does
      not start with a digit, reads back as that count. */
  lemma SeasonsPlayedRoundTrip(n: nat, rest: string)
    requires rest == [] || !IsDigit(rest[0])
    ensures SeasonsPlayed(Decimal(n) + rest) == Some(n)
  {
    SeasonsPlayedValue(Decimal(n), rest);
    DecimalValue(n);
  }

  lemma SeasonsPlayedExamples()
    ensures SeasonsPlayed("Rookie") == Some(1)
    ensures SeasonsPlayed("5th season") == Some(5)
    ensures SeasonsPlayed("10") == Some(10)
    ensures SeasonsPlayed("") == None
    ensures SeasonsPlayed("rookie") == None
  {
    SeasonsPlayedRoundTrip(5, "th season");
    SeasonsPlayedRoundTrip(10, "");
    assert Decimal(5) + "th season" == "5th season";
    assert Decimal(10) + "" == "10";
  }

  // ---------------------------------------------------------------- height

  /** What `convert_height` computes: the first token with every `'`
      removed is the feet, the second with every `"` removed the inches;
      further tokens are ignored. Fewer than two tokens raise `IndexError`,
      a token that is not a number raises `ValueError`. */
  function HeightInches(height: string): Option<nat>
  {
    var parts := Split(height);
    if |parts| < 2 then None
    else
      match (ParseInt(RemoveAll(parts[0], '\'')), ParseInt(RemoveAll(parts[1], '"')))
      case (Some(feet), Some(inches)) => Some(feet * 12 + inches)
      case _ => None
  }

  /** How the player-detail API spells a height: `F' I"`. */
  function DisplayHeight(feet: nat, inches: nat): string
  {
    Decimal(feet) + "'" + " " + Decimal(inches) + "\""
  }

  lemma DigitsHaveNoMarks(s: string)
    requires AllDigits(s)
    ensures NoSpace(s) && '\'' !in s && '"' !in s
  {
    assert forall i :: 0 <= i < |s| ==> IsDigit(s[i]);
  }

  /** Removing a quote mark appended to a digit string gives the digits back. */
  lemma StripMark(digits: string, mark: char)
    requires AllDigits(digits) && !IsDigit(mark)
    ensures RemoveAll(digits + [mark], mark) == digits
  {
    RemoveAppend(digits, [mark], mark);
    assert mark !in digits;
    RemoveAbsent(digits, mark);
  }

  /** A displayed height splits into the feet token and the inches token. */
  lemma DisplayHeightTokens(feet: nat, inches: nat, extra: string)
    requires extra == [] || IsSpace(extra[0])
    ensures Split(DisplayHeight(feet, inches) + extra)
         == [Decimal(feet) + "'", Decimal(inches) + "\""] + Split(extra)
  {
    var f', i' := Decimal(feet) + "'", Decimal(inches) + "\"";
    DigitsHaveNoMarks(Decimal(feet));
    DigitsHaveNoMarks(Decimal(inches));
    assert NoSpace(f') && NoSpace(i');
    assert DisplayHeight(feet, inches) + extra == f' + " " + (i' + extra);
    SplitSpaced(f', i' + extra);
    SplitToken(i', extra);
  }

  /** Round trip: a displayed height reads back as `feet * 12 + inches`,
      whatever tokens follow it. */
  lemma HeightInchesRoundTrip(feet: nat, inches: nat, extra: string)
    requires extra == [] || IsSpace(extra[0])
    ensures HeightInches(DisplayHeight(feet, inches) + extra) == Some(feet * 12 + inches)
  {
    var parts := Split(DisplayHeight(feet, inches) + extra);
    DisplayHeightTokens(feet, inches, extra);
    assert parts[0] == Decimal(feet) + "'" && parts[1] == Decimal(inches) + "\"";
    StripMark(Decimal(feet), '\'');
    StripMark(Decimal(inches), '"');
    ParseDecimal(feet);
    ParseDecimal(inches);
  }

  /** For inches 0..11 the total splits back into feet and inches by
      division and remainder. */
  lemma HeightInchesDivMod(feet: nat, inches: nat)
    requires inches < 12
    ensures HeightInches(DisplayHeight(feet, inches)).Some?
    ensures HeightInches(DisplayHeight(feet, inches)).value / 12 == feet
    ensures HeightInches(DisplayHeight(feet, inches)).value % 12 == inches
  {
    HeightInchesRoundTrip(feet, inches, []);
    assert DisplayHeight(feet, inches) + [] == DisplayHeight(feet, inches);
  }

  /** Fewer than two tokens always raise. */
  lemma HeightInchesNeedsTwoTokens(height: string)
    requires |Split(height)| < 2
    ensures HeightInches(height) == None
  {
  }

  lemma HeightInchesExamples()
    ensures HeightInches("5' 11\"") == Some(71)
    ensures HeightInches("6' 2\"") == Some(74)
    ensures HeightInches("5'11\"") == None
  {
    HeightInchesRoundTrip(5, 11, []);
    assert DisplayHeight(5, 11) + [] == "5' 11\"";
    HeightInchesRoundTrip(6, 2, []);
    assert DisplayHeight(6, 2) + [] == "6' 2\"";
    SplitToken("5'11\"", []);
    assert "5'11\"" + [] == "5'11\"";
    assert Split([]) == [];
  }

  // ---------------------------------------------------------------- weight

  /** What `convert_weight` computes: `int()` of the first token; no
      token raises `IndexError`. */
  function WeightPounds(weight: string): Option<nat>
  {
    var parts := Split(weight);
    if parts == [] then None else ParseInt(parts[0])
  }

  /** Only the first token matters: what follows it is ignored. */
  lemma WeightPoundsFirstToken(token: string, rest: string)
    requires token != [] && NoSpace(token)
    requires rest == [] || IsSpace(rest[0])
    ensures WeightPounds(token + rest) == ParseInt(token)
  {
    SplitToken(token, rest);
  }

  /** Round trip: a weight written in decimal, then any whitespace-led
      suffix such as " lbs", reads back as that weight. */
  lemma WeightPoundsRoundTrip(pounds: nat, rest: string)
    requires rest == [] || IsSpace(rest[0])
    ensures WeightPounds(Decimal(pounds) + rest) == Some(pounds)
  {
    DigitsHaveNoMarks(Decimal(pounds));
    WeightPoundsFirstToken(Decimal(pounds), rest);
    ParseDecimal(pounds);
  }

  /** Empty or blank text raises. */
  lemma WeightPoundsBlank(weight: string)
    requires AllSpace(weight)
    ensures WeightPounds(weight) == None
  {
    SplitEmpty(weight);
  }

  lemma WeightPoundsExamples()
    ensures WeightPounds("210 lbs") == Some(210)
    ensures WeightPounds("") == None
    ensures WeightPounds("210lbs") == None
  {
    WeightPoundsRoundTrip(210, " lbs");
    assert Decimal(210) + " lbs" == "210 lbs";
    WeightPoundsBlank("");
    WeightPoundsFirstToken("210lbs", []);
    assert "210lbs" + [] == "210lbs";
    assert !IsDigit("210lbs"[3]);
  }
}
