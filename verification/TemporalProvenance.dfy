/** The law that a claimed origin of an effective date must explain that date. */
module TemporalProvenance {
  import opened Outcomes
  import opened Text

  const DERIVED := "DERIVED_FROM_SOURCE_PERIOD"

  datatype Claim = Claim(
    period: Option<string>,
    granularity: Option<string>,
    provenance: Option<string>,
    rule: Option<string>)

  datatype Issue =
    | DerivationRuleRequiresProvenance
    | SourcePeriodLabelRequired
    | SourcePeriodGranularityRequired
    | DerivationRuleRequired
    | DerivationRuleNotProvable
    | DerivationDoesNotExplainDate
    | DerivationRuleForbidden

  function IsAbsent(v: Option<string>): bool {
    v.None? || v.value == ""
  }

  function IsBlankText(v: Option<string>): bool {
    v.None? || Trim(v.value) == ""
  }

  // ---------------------------------------------------------------- the year a label names

  predicate IsDigit(c: char) {
    '0' <= c <= '9'
  }

  predicate IsWordChar(c: char) {
    IsDigit(c) || 'A' <= c <= 'Z' || 'a' <= c <= 'z' || c == '_'
  }

  function DigitValue(c: char): nat
    requires IsDigit(c)
  {
    (c - '0') as nat
  }

  /** A whole word of the form 19dd or 20dd starting at `i`. */
  predicate IsYearAt(s: string, i: nat) {
    && i + 4 <= |s|
    && ((s[i] == '1' && s[i + 1] == '9') || (s[i] == '2' && s[i + 1] == '0'))
    && IsDigit(s[i + 2]) && IsDigit(s[i + 3])
    && (i == 0 || !IsWordChar(s[i - 1]))
    && (i + 4 == |s| || !IsWordChar(s[i + 4]))
  }

  function YearAt(s: string, i: nat): nat
    requires IsYearAt(s, i)
  {
    (if s[i] == '1' then 1900 else 2000) + 10 * DigitValue(s[i + 2]) + DigitValue(s[i + 3])
  }

  /** The distinct years named in the label. */
  function Years(s: string): set<nat> {
    set i | 0 <= i < |s| && IsYearAt(s, i) :: YearAt(s, i)
  }

  /** The UTC day number of 1 January: 365 days a year and the Gregorian leap days since 1970. */
  function FirstOfJanuary(y: nat): int {
    365 * (y - 1970) + (y - 1969) / 4 - (y - 1901) / 100 + (y - 1601) / 400
  }

  /** The label names year `y` and no other, at year granularity, and the rule takes its first day. */
  predicate Derives(c: Claim, y: nat) {
    && c.granularity == Some("YEAR") && c.rule == Some("PERIOD_START")
    && c.period.Some? && Years(c.period.value) == {y}
  }

  predicate Provable(c: Claim) {
    && c.granularity == Some("YEAR") && c.rule == Some("PERIOD_START")
    && c.period.Some? && |Years(c.period.value)| == 1
  }

  /** The day the claim derives, where it derives one. */
  function DerivedDay(c: Claim): Option<int> {
    if Provable(c) then Some(FirstOfJanuary(Only(Years(c.period.value)))) else None
  }

  /** The member of a one-element set. */
  function Only(s: set<nat>): (y: nat)
    requires |s| == 1
    ensures s == {y}
  {
    OneMember(s);
    var y :| y in s;
    y
  }

  lemma OneMember(s: set<nat>)
    requires |s| == 1
    ensures forall x, y | x in s && y in s :: x == y
    ensures exists y :: y in s && s == {y}
  {
    var y :| y in s;
    assert |s - {y}| == 0;
    assert s == {y};
  }

  /** The issue of a claim about `day`, in the order the law asks. */
  function TemporalIssue(c: Claim, day: Option<int>): Option<Issue> {
    if IsAbsent(c.provenance) then
      if IsBlankText(c.rule) then None else Some(DerivationRuleRequiresProvenance)
    else if c.provenance == Some(DERIVED) then
      if IsBlankText(c.period) then Some(SourcePeriodLabelRequired)
      else if IsAbsent(c.granularity) then Some(SourcePeriodGranularityRequired)
      else if IsBlankText(c.rule) then Some(DerivationRuleRequired)
      else if day.None? then None
      else if DerivedDay(c).None? then Some(DerivationRuleNotProvable)
      else if DerivedDay(c) != day then Some(DerivationDoesNotExplainDate)
      else None
    else if IsBlankText(c.rule) then None
    else Some(DerivationRuleForbidden)
  }

  predicate Coherent(c: Claim, day: Option<int>) {
    TemporalIssue(c, day).None?
  }

  /** A coherent derived claim about a dated fact names exactly the year whose first day the date is. */
  lemma CoherentDerivationExplains(c: Claim, day: int)
    requires c.provenance == Some(DERIVED)
    ensures Coherent(c, Some(day)) <==> exists y :: Derives(c, y) && day == FirstOfJanuary(y)
  {
    if y :| Derives(c, y) && day == FirstOfJanuary(y) {
      assert |{y}| == 1 && Only({y}) == y;
      YearLabelIsNotBlank(c.period.value);
      TrimIsTrimmed(c.rule.value);
      assert Trimmed(c.rule.value) && c.rule.value[0] == 'P';
    }
    if Coherent(c, Some(day)) {
      assert Derives(c, Only(Years(c.period.value)));
    }
  }

  lemma {:induction false} TrimKeepsNonBlank(s: string, i: nat)
    requires i < |s| && !IsBlank(s[i])
    ensures Trim(s) != ""
  {
    var k := TrimLeftKeeps(s, i);
    TrimRightKeeps(TrimLeft(s), k);
  }

  lemma {:induction false} TrimLeftKeeps(s: string, i: nat) returns (k: nat)
    requires i < |s| && !IsBlank(s[i])
    ensures k < |TrimLeft(s)| && !IsBlank(TrimLeft(s)[k])
  {
    if IsBlank(s[0]) {
      k := TrimLeftKeeps(s[1..], i - 1);
    } else {
      k := i;
    }
  }

  lemma {:induction false} TrimRightKeeps(s: string, i: nat)
    requires i < |s| && !IsBlank(s[i])
    ensures |TrimRight(s)| > 0
  {
    if IsBlank(s[|s| - 1]) {
      TrimRightKeeps(s[..|s| - 1], i);
    }
  }

  lemma YearLabelIsNotBlank(s: string)
    requires |Years(s)| == 1
    ensures Trim(s) != ""
  {
    var y :| y in Years(s);
    var i :| 0 <= i < |s| && IsYearAt(s, i) && YearAt(s, i) == y;
    TrimKeepsNonBlank(s, i);
  }
}
