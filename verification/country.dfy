/** `convert_cgpa_to_countries` (app.py): approximate equivalents of a
    10-point CGPA for ten countries, each an independent rule over the
    percentage `pct = cgpa * 10`. The two-decimal rounding applied to the
    linear rules is not modelled; values are exact. */
module Country {
  import opened Wrappers

  /** The shapes of the per-country payloads. */
  datatype Payload =
    | Gpa(scale: string, gpa: real)
    | Classification(classification: UkClass)
    | NumericGrade(grade: real)
    | Score(scale: string, score: real)
    | Percent(percent: real)

  /** The ten supported countries; `Name` gives the key the program uses. */
  datatype Country =
    | UnitedStates | Canada | UnitedKingdom | Germany | Australia
    | Netherlands | Sweden | France | Singapore | NewZealand

  function Name(c: Country): string {
    match c
    case UnitedStates => "United States"
    case Canada => "Canada"
    case UnitedKingdom => "United Kingdom"
    case Germany => "Germany"
    case Australia => "Australia"
    case Netherlands => "Netherlands"
    case Sweden => "Sweden"
    case France => "France"
    case Singapore => "Singapore"
    case NewZealand => "New Zealand"
  }

  /** The supported countries in display order. */
  const TopCountries: seq<Country> := [
    UnitedStates, Canada, UnitedKingdom, Germany, Australia,
    Netherlands, Sweden, France, Singapore, NewZealand
  ]

  function UsGpa(cg: real): real {
    (cg / 10.0) * 4.0
  }

  function CanadaGpa(pct: real): real {
    if pct >= 90.0 then 4.0
    else if pct >= 85.0 then 3.7
    else if pct >= 80.0 then 3.3
    else if pct >= 75.0 then 3.0
    else if pct >= 70.0 then 2.7
    else 2.0
  }

  /** The UK degree classes; `Text` gives the label the program stores. */
  datatype UkClass = Fail | Third | LowerSecond | UpperSecond | First

  function Text(c: UkClass): string {
    match c
    case First => "First"
    case UpperSecond => "2:1"
    case LowerSecond => "2:2"
    case Third => "Third"
    case Fail => "Fail"
  }

  /** The order of the UK classes, from Fail (0) up to First (4). */
  function UkRank(c: UkClass): int {
    match c
    case Fail => 0
    case Third => 1
    case LowerSecond => 2
    case UpperSecond => 3
    case First => 4
  }

  function UkClassification(pct: real): UkClass {
    if pct >= 70.0 then First
    else if pct >= 60.0 then UpperSecond
    else if pct >= 50.0 then LowerSecond
    else if pct >= 40.0 then Third
    else Fail
  }

  /** The German scale runs backwards: 1.0 is best. */
  function GermanyGrade(pct: real): real {
    1.0 + 3.0 * (100.0 - pct) / 100.0
  }

  function AustraliaGpa(pct: real): real {
    if pct >= 85.0 then 7.0
    else if pct >= 75.0 then 6.0
    else if pct >= 65.0 then 5.0
    else if pct >= 50.0 then 4.0
    else 2.0
  }

  function SwedenGrade(pct: real): real {
    if pct >= 90.0 then 5.0
    else if pct >= 75.0 then 4.0
    else if pct >= 60.0 then 3.0
    else if pct >= 50.0 then 2.0
    else 1.0
  }

  /** The payload the conversion builds for one country. */
  function PayloadFor(country: Country, cg: real): Payload {
    var pct := cg * 10.0;
    match country
    case UnitedStates | Singapore => Gpa("4.0", UsGpa(cg))
    case Canada => Gpa("4.0", CanadaGpa(pct))
    case UnitedKingdom => Classification(UkClassification(pct))
    case Germany => NumericGrade(GermanyGrade(pct))
    case Australia | NewZealand => Gpa("7", AustraliaGpa(pct))
    case Netherlands => Score("10", pct / 10.0)
    case Sweden => NumericGrade(SwedenGrade(pct))
    case France => Percent(pct)
  }

  /** No CGPA gives the empty mapping; a CGPA gives exactly one payload for
      each of the ten countries, Singapore sharing the United States payload
      and New Zealand the Australian one. */
  function ConvertCgpaToCountries(cgpa10: Option<real>): (r: map<Country, Payload>)
    ensures cgpa10.None? ==> r == map[]
    ensures cgpa10.Some? ==> forall c :: c in r <==> c in TopCountries
    ensures cgpa10.Some? ==> r[Singapore] == r[UnitedStates] && r[NewZealand] == r[Australia]
  {
    match cgpa10
    case None => map[]
    case Some(cg) => map c | c in TopCountries :: PayloadFor(c, cg)
  }

  /** The step rules and the UK class are nondecreasing in the percent; the
      German grade is nonincreasing. */
  lemma StepRulesMonotone(p: real, q: real)
    requires p <= q
    ensures CanadaGpa(p) <= CanadaGpa(q)
    ensures AustraliaGpa(p) <= AustraliaGpa(q)
    ensures SwedenGrade(p) <= SwedenGrade(q)
    ensures UkRank(UkClassification(p)) <= UkRank(UkClassification(q))
    ensures GermanyGrade(p) >= GermanyGrade(q)
  {
  }

  /** A higher CGPA never lowers the Canadian, Australian or Swedish value,
      and never raises (worsens) the German grade. */
  lemma ConversionMonotone(a: real, b: real)
    requires a <= b
    ensures ConvertCgpaToCountries(Some(a))[Canada].gpa <= ConvertCgpaToCountries(Some(b))[Canada].gpa
    ensures ConvertCgpaToCountries(Some(a))[Australia].gpa <= ConvertCgpaToCountries(Some(b))[Australia].gpa
    ensures ConvertCgpaToCountries(Some(a))[Sweden].grade <= ConvertCgpaToCountries(Some(b))[Sweden].grade
    ensures ConvertCgpaToCountries(Some(a))[Germany].grade >= ConvertCgpaToCountries(Some(b))[Germany].grade
  {
    StepRulesMonotone(a * 10.0, b * 10.0);
  }

  /** A higher CGPA never gives a lower UK class
      (Fail < Third < 2:2 < 2:1 < First). */
  lemma UkClassMonotone(a: real, b: real)
    requires a <= b
    ensures UkRank(ConvertCgpaToCountries(Some(a))[UnitedKingdom].classification)
         <= UkRank(ConvertCgpaToCountries(Some(b))[UnitedKingdom].classification)
  {
    StepRulesMonotone(a * 10.0, b * 10.0);
  }

  /** The top and bottom of the 10-point scale. */
  lemma ConversionEndpoints()
    ensures ConvertCgpaToCountries(Some(10.0))[UnitedStates] == Gpa("4.0", 4.0)
    ensures ConvertCgpaToCountries(Some(10.0))[UnitedKingdom] == Classification(First)
    ensures ConvertCgpaToCountries(Some(10.0))[Germany] == NumericGrade(1.0)
    ensures ConvertCgpaToCountries(Some(0.0))[UnitedKingdom] == Classification(Fail)
    ensures ConvertCgpaToCountries(Some(0.0))[Sweden] == NumericGrade(1.0)
  {
  }

  /** On the 10-point scale the linear rules stay within their own scales:
      US and Singapore in [0, 4], Germany in [1, 4], Netherlands equal to the
      CGPA, France in [0, 100]. */
  lemma ConversionRanges(cg: real)
    requires 0.0 <= cg <= 10.0
    ensures 0.0 <= ConvertCgpaToCountries(Some(cg))[UnitedStates].gpa <= 4.0
    ensures 0.0 <= ConvertCgpaToCountries(Some(cg))[Singapore].gpa <= 4.0
    ensures 1.0 <= ConvertCgpaToCountries(Some(cg))[Germany].grade <= 4.0
    ensures ConvertCgpaToCountries(Some(cg))[Netherlands].score == cg
    ensures 0.0 <= ConvertCgpaToCountries(Some(cg))[France].percent <= 100.0
  {
  }
}
