/** The fixed percentage-to-grade table and its first-match lookup
    (app.py, `PERCENT_TO_GRADE` and `percent_to_grade_point`). */
module GradeScale {
  import opened Wrappers

  /** One row of the table: the closed interval `[mn, mx]` of percents,
      the letter and the 10-point grade point. */
  datatype Band = Band(mn: real, mx: real, letter: string, point: real)

  /** The table exactly as written: closed intervals with gaps between
      `x.99` and the next band's lower bound. */
  const Table: seq<Band> := [
    Band(90.0, 100.0, "O", 10.0),
    Band(80.0, 89.99, "A+", 9.0),
    Band(70.0, 79.99, "A", 8.0),
    Band(60.0, 69.99, "B+", 7.0),
    Band(50.0, 59.99, "B", 6.0),
    Band(45.0, 49.99, "C", 5.0),
    Band(40.0, 44.99, "D", 4.0),
    Band(0.0, 39.99, "F", 0.0)
  ]

  /** The argument handed to the lookup: a number, or something `float()`
      refuses to convert. */
  datatype Score = Num(p: real) | NotNumber

  /** The lookup's answer: `("", NaN)` becomes an empty label with no point,
      which is distinct from the failing point `Some(0.0)`. */
  datatype Grade = Grade(letter: string, point: Option<real>)

  const NoGrade: Grade := Grade("", None)

  predicate InBand(b: Band, p: real) {
    b.mn <= p <= b.mx
  }

  /** Index of the first band of `bands` whose interval holds `p`. */
  function FirstMatch(bands: seq<Band>, p: real): (r: Option<nat>)
    ensures r.Some? ==> r.value < |bands| && InBand(bands[r.value], p)
    ensures r.Some? ==> forall j :: 0 <= j < r.value ==> !InBand(bands[j], p)
    ensures r.None? <==> forall j :: 0 <= j < |bands| ==> !InBand(bands[j], p)
  {
    if bands == [] then None
    else if InBand(bands[0], p) then Some(0)
    else
      match FirstMatch(bands[1..], p)
      case None => None
      case Some(i) => Some(i + 1)
  }

  /** `percent_to_grade_point`: the label and point of the first band that
      holds the percent; `NoGrade` for a non-number or a percent no band
      holds (below 0, above 100, or in a gap of the table). */
  function PercentToGradePoint(x: Score): (r: Grade)
    ensures r.point.None? <==> x.NotNumber? || forall j :: 0 <= j < |Table| ==> !InBand(Table[j], x.p)
    ensures r.point.None? ==> r == NoGrade
    ensures r.point.Some? ==> exists i :: 0 <= i < |Table| && InBand(Table[i], x.p) &&
                                (forall j :: 0 <= j < i ==> !InBand(Table[j], x.p)) &&
                                r == Grade(Table[i].letter, Some(Table[i].point))
  {
    match x
    case NotNumber => NoGrade
    case Num(p) =>
      match FirstMatch(Table, p)
      case None => NoGrade
      case Some(i) => Grade(Table[i].letter, Some(Table[i].point))
  }

  /** The grade point of a numeric percent, if any band holds it. */
  function PointAt(p: real): Option<real> {
    PercentToGradePoint(Num(p)).point
  }

  /** The table written out as a chain of comparisons, an independent
      reference for the first-match lookup. */
  function Reference(p: real): Grade {
    if 90.0 <= p <= 100.0 then Grade("O", Some(10.0))
    else if 80.0 <= p <= 89.99 then Grade("A+", Some(9.0))
    else if 70.0 <= p <= 79.99 then Grade("A", Some(8.0))
    else if 60.0 <= p <= 69.99 then Grade("B+", Some(7.0))
    else if 50.0 <= p <= 59.99 then Grade("B", Some(6.0))
    else if 45.0 <= p <= 49.99 then Grade("C", Some(5.0))
    else if 40.0 <= p <= 44.99 then Grade("D", Some(4.0))
    else if 0.0 <= p <= 39.99 then Grade("F", Some(0.0))
    else NoGrade
  }

  /** The lookup agrees with the written-out chain on every percent. */
  lemma LookupMatchesReference(p: real)
    ensures PercentToGradePoint(Num(p)) == Reference(p)
  {
    var r := FirstMatch(Table, p);
    if r.None? {
      assert !InBand(Table[0], p) && !InBand(Table[1], p) && !InBand(Table[2], p) && !InBand(Table[3], p);
      assert !InBand(Table[4], p) && !InBand(Table[5], p) && !InBand(Table[6], p) && !InBand(Table[7], p);
    } else {
      var i := r.value;
      if i > 0 { assert !InBand(Table[0], p); }
      if i > 1 { assert !InBand(Table[1], p); }
      if i > 2 { assert !InBand(Table[2], p); }
      if i > 3 { assert !InBand(Table[3], p); }
      if i > 4 { assert !InBand(Table[4], p); }
      if i > 5 { assert !InBand(Table[5], p); }
      if i > 6 { assert !InBand(Table[6], p); }
    }
  }

  /** `p` lies strictly between a band's upper bound and the lower bound of
      the band listed just before it. */
  predicate InGap(p: real) {
    exists i :: 0 <= i < |Table| - 1 && Table[i + 1].mx < p < Table[i].mn
  }

  /** A numeric percent has no grade exactly when it is below 0, above 100
      or in one of the table's gaps; 0 is a graded (failing) percent. */
  lemma UngradedExactly(p: real)
    ensures PointAt(p).None? <==> p < 0.0 || p > 100.0 || InGap(p)
  {
    LookupMatchesReference(p);
    if InGap(p) {
      var i :| 0 <= i < |Table| - 1 && Table[i + 1].mx < p < Table[i].mn;
      assert i == 0 || i == 1 || i == 2 || i == 3 || i == 4 || i == 5 || i == 6;
    }
    if 89.99 < p < 90.0 { assert Table[1].mx < p < Table[0].mn; }
    if 79.99 < p < 80.0 { assert Table[2].mx < p < Table[1].mn; }
    if 69.99 < p < 70.0 { assert Table[3].mx < p < Table[2].mn; }
    if 59.99 < p < 60.0 { assert Table[4].mx < p < Table[3].mn; }
    if 49.99 < p < 50.0 { assert Table[5].mx < p < Table[4].mn; }
    if 44.99 < p < 45.0 { assert Table[6].mx < p < Table[5].mn; }
    if 39.99 < p < 40.0 { assert Table[7].mx < p < Table[6].mn; }
  }

  /** Concrete outcomes: a gap percent and out-of-range percents get no
      grade, while 0 gets the failing point 0.0, which is a grade. */
  lemma LookupEdgeCases()
    ensures PercentToGradePoint(Num(89.995)) == NoGrade
    ensures PercentToGradePoint(Num(-0.5)) == NoGrade
    ensures PercentToGradePoint(Num(100.5)) == NoGrade
    ensures PercentToGradePoint(NotNumber) == NoGrade
    ensures PercentToGradePoint(Num(0.0)) == Grade("F", Some(0.0))
    ensures PercentToGradePoint(Num(90.0)) == Grade("O", Some(10.0))
    ensures PercentToGradePoint(Num(89.99)) == Grade("A+", Some(9.0))
  {
    LookupMatchesReference(89.995);
    LookupMatchesReference(-0.5);
    LookupMatchesReference(100.5);
    LookupMatchesReference(0.0);
    LookupMatchesReference(90.0);
    LookupMatchesReference(89.99);
  }

  /** Every grade point the lookup produces is on the 10-point scale. */
  lemma PointInScale(p: real)
    requires PointAt(p).Some?
    ensures 0.0 <= PointAt(p).value <= 10.0
  {
    LookupMatchesReference(p);
  }

  /** A higher percent never earns a lower grade point. */
  lemma PointMonotone(p: real, q: real)
    requires p <= q
    requires PointAt(p).Some? && PointAt(q).Some?
    ensures PointAt(p).value <= PointAt(q).value
  {
    LookupMatchesReference(p);
    LookupMatchesReference(q);
  }

  /** Each band's lower bound is graded and earns that band's point. */
  lemma LowerBoundGraded(i: nat)
    requires i < |Table|
    ensures PointAt(Table[i].mn) == Some(Table[i].point)
    ensures Table[i].mn <= 90.0
  {
    var b := Table[i];
    LookupMatchesReference(b.mn);
    if i == 0 { assert b == Band(90.0, 100.0, "O", 10.0); }
    else if i == 1 { assert b == Band(80.0, 89.99, "A+", 9.0); }
    else if i == 2 { assert b == Band(70.0, 79.99, "A", 8.0); }
    else if i == 3 { assert b == Band(60.0, 69.99, "B+", 7.0); }
    else if i == 4 { assert b == Band(50.0, 59.99, "B", 6.0); }
    else if i == 5 { assert b == Band(45.0, 49.99, "C", 5.0); }
    else if i == 6 { assert b == Band(40.0, 44.99, "D", 4.0); }
    else { assert b == Band(0.0, 39.99, "F", 0.0); }
  }

  /** A graded percent below a band's lower bound earns at least one whole
      point less than that band (the table's points are at least 1 apart). */
  lemma PointBelowLowerBound(i: nat, p: real)
    requires i < |Table|
    requires p < Table[i].mn
    requires PointAt(p).Some?
    ensures PointAt(p).value <= Table[i].point - 1.0
  {
    var b := Table[i];
    LookupMatchesReference(p);
    if i == 0 { assert b == Band(90.0, 100.0, "O", 10.0); }
    else if i == 1 { assert b == Band(80.0, 89.99, "A+", 9.0); }
    else if i == 2 { assert b == Band(70.0, 79.99, "A", 8.0); }
    else if i == 3 { assert b == Band(60.0, 69.99, "B+", 7.0); }
    else if i == 4 { assert b == Band(50.0, 59.99, "B", 6.0); }
    else if i == 5 { assert b == Band(45.0, 49.99, "C", 5.0); }
    else if i == 6 { assert b == Band(40.0, 44.99, "D", 4.0); }
    else { assert false; }
  }

  /** Every multiple of one half in [0, 100] is graded: such a percent never
      falls in a gap of the table. */
  lemma HalfStepGraded(k: int)
    requires 0 <= k <= 200
    ensures PointAt(k as real / 2.0).Some?
  {
    var p := k as real / 2.0;
    LookupMatchesReference(p);
  }
}
