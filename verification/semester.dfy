/** One semester: the per-subject score composition of the "Compute Semester
    SGPA" handler and `sgpa_from_df` (app.py). */
module Semester {
  import opened Wrappers
  import opened GradeScale
  import opened WeightedMean

  /** The values entered for one subject. The widgets deliver integers. */
  datatype SubjectInput = SubjectInput(name: string, credits: int, mid1: int, mid2: int,
                                       presentation: int, see: int)

  /** The bounds the input widgets declare: credits 0..10, each mid 0..40,
      presentation 0..10, semester-end exam 0..50. */
  predicate WithinWidgetBounds(s: SubjectInput) {
    0 <= s.credits <= 10 && 0 <= s.mid1 <= 40 && 0 <= s.mid2 <= 40 &&
    0 <= s.presentation <= 10 && 0 <= s.see <= 50
  }

  /** One computed row of the semester table (the displayed two-decimal
      rounding is not modelled; the values are exact). */
  datatype SubjectRow = SubjectRow(name: string, credits: int, mid1: real, mid2: real,
                                   avgMid: real, presentation: real, cie: real, see: real,
                                   total: real, letter: string, point: Option<real>)

  /** The row for one subject: the mids are averaged, the presentation mark
      added and the result capped at 50 (CIE); the exam is added and the
      result capped at 100 (total); the total is graded. */
  function ComposeSubject(s: SubjectInput): (r: SubjectRow)
    ensures r.avgMid * 2.0 == (s.mid1 + s.mid2) as real
    ensures r.cie <= 50.0 && r.cie <= r.avgMid + r.presentation
    ensures r.cie == 50.0 || r.cie == r.avgMid + r.presentation
    ensures r.total <= 100.0 && r.total <= r.cie + r.see
    ensures r.total == 100.0 || r.total == r.cie + r.see
    ensures Grade(r.letter, r.point) == PercentToGradePoint(Num(r.total))
    ensures r.name == s.name && r.credits == s.credits
    ensures r.mid1 == s.mid1 as real && r.mid2 == s.mid2 as real
    ensures r.presentation == s.presentation as real && r.see == s.see as real
  {
    var m1, m2 := s.mid1 as real, s.mid2 as real;
    var avgMid := (m1 + m2) / 2.0;
    var pres := s.presentation as real;
    var cie := if avgMid + pres > 50.0 then 50.0 else avgMid + pres;
    var see := s.see as real;
    var total := if cie + see > 100.0 then 100.0 else cie + see;
    var g := PercentToGradePoint(Num(total));
    SubjectRow(s.name, s.credits, m1, m2, avgMid, pres, cie, see, total, g.letter, g.point)
  }

  /** Within the widget bounds the CIE is in [0, 50], the total in [0, 100],
      and the total is always graded with a point on the 10-point scale. */
  lemma SubjectWithinBounds(s: SubjectInput)
    requires WithinWidgetBounds(s)
    ensures 0.0 <= ComposeSubject(s).cie <= 50.0
    ensures 0.0 <= ComposeSubject(s).total <= 100.0
    ensures ComposeSubject(s).point.Some?
    ensures 0.0 <= ComposeSubject(s).point.value <= 10.0
  {
    var r := ComposeSubject(s);
    var raw := s.mid1 + s.mid2 + 2 * s.presentation;
    var k2 := if raw > 100 then 100 else raw;
    assert r.cie == k2 as real / 2.0;
    var k := if k2 + 2 * s.see > 200 then 200 else k2 + 2 * s.see;
    assert r.total == k as real / 2.0;
    HalfStepGraded(k);
    PointInScale(r.total);
  }

  /** The handler's loop: one row per subject, in input order. */
  method ComposeRows(subjects: seq<SubjectInput>) returns (rows: seq<SubjectRow>)
    ensures |rows| == |subjects|
    ensures forall i :: 0 <= i < |rows| ==> rows[i] == ComposeSubject(subjects[i])
  {
    rows := [];
    var i := 0;
    while i < |subjects|
      invariant 0 <= i <= |subjects|
      invariant |rows| == i
      invariant forall j :: 0 <= j < i ==> rows[j] == ComposeSubject(subjects[j])
    {
      rows := rows + [ComposeSubject(subjects[i])];
      i := i + 1;
    }
  }

  /** The terms that take part in the SGPA: graded rows only, in order. */
  function Used(rows: seq<SubjectRow>): seq<Weighted> {
    if rows == [] then []
    else
      var rest := Used(rows[1..]);
      if rows[0].point.Some? then [Weighted(rows[0].point.value, rows[0].credits as real)] + rest
      else rest
  }

  /** `sgpa_from_df` (before rounding): the credit-weighted mean of the grade
      points of the graded rows; undefined, not zero, when those rows'
      credits sum to zero. */
  function Sgpa(rows: seq<SubjectRow>): (r: Option<real>)
    ensures r.None? <==> TotalWeight(Used(rows)) == 0.0
    ensures r.Some? ==> r.value * TotalWeight(Used(rows)) == WeightedSum(Used(rows))
  {
    Mean(Used(rows))
  }

  lemma {:induction false} UsedAppend(a: seq<SubjectRow>, b: seq<SubjectRow>)
    ensures Used(a + b) == Used(a) + Used(b)
  {
    if a == [] {
      assert a + b == b;
    } else {
      assert (a + b)[1..] == a[1..] + b;
      UsedAppend(a[1..], b);
    }
  }

  /** A row without a grade point does not take part: removing it changes
      nothing. */
  lemma SgpaIgnoresUngraded(a: seq<SubjectRow>, r: SubjectRow, b: seq<SubjectRow>)
    requires r.point.None?
    ensures Sgpa(a + [r] + b) == Sgpa(a + b)
  {
    UsedAppend(a, [r]);
    UsedAppend(a + [r], b);
    UsedAppend(a, b);
    assert Used([r]) == [] by { assert [r][1..] == []; }
    assert Used(a) + [] == Used(a);
  }

  /** Every term of `Used(rows)` comes from a graded row of `rows`. */
  lemma {:induction false} UsedFrom(rows: seq<SubjectRow>, k: nat)
    requires k < |Used(rows)|
    ensures exists i :: 0 <= i < |rows| && rows[i].point == Some(Used(rows)[k].value) &&
                        rows[i].credits as real == Used(rows)[k].weight
  {
    if rows[0].point.Some? && k == 0 {
      assert rows[0].point == Some(Used(rows)[0].value);
    } else {
      var k' := if rows[0].point.Some? then k - 1 else k;
      UsedFrom(rows[1..], k');
      var i :| 0 <= i < |rows[1..]| && rows[1..][i].point == Some(Used(rows[1..])[k'].value) &&
                rows[1..][i].credits as real == Used(rows[1..])[k'].weight;
      assert rows[i + 1] == rows[1..][i];
    }
  }

  /** With nonnegative credits, a defined SGPA lies between the smallest and
      the largest grade point that takes part. */
  lemma SgpaBetween(rows: seq<SubjectRow>, lo: real, hi: real)
    requires forall i :: 0 <= i < |rows| ==> rows[i].credits >= 0
    requires forall i :: 0 <= i < |rows| && rows[i].point.Some? ==> lo <= rows[i].point.value <= hi
    requires Sgpa(rows).Some?
    ensures lo <= Sgpa(rows).value <= hi
  {
    var u := Used(rows);
    forall k | 0 <= k < |u| ensures u[k].weight >= 0.0 && lo <= u[k].value <= hi {
      UsedFrom(rows, k);
    }
    MeanBetween(u, lo, hi);
  }

  /** Credits of all rows. */
  function CreditSum(subjects: seq<SubjectInput>): int {
    if subjects == [] then 0 else subjects[0].credits + CreditSum(subjects[1..])
  }

  /** Within the widget bounds every row is graded, so the SGPA is undefined
      exactly when the entered credits sum to zero, and otherwise lies on the
      10-point scale. */
  lemma {:induction false} SemesterSgpa(subjects: seq<SubjectInput>, rows: seq<SubjectRow>)
    requires forall i :: 0 <= i < |subjects| ==> WithinWidgetBounds(subjects[i])
    requires |rows| == |subjects|
    requires forall i :: 0 <= i < |rows| ==> rows[i] == ComposeSubject(subjects[i])
    ensures Sgpa(rows).None? <==> CreditSum(subjects) == 0
    ensures Sgpa(rows).Some? ==> 0.0 <= Sgpa(rows).value <= 10.0
  {
    forall i | 0 <= i < |rows|
      ensures rows[i].credits >= 0 && rows[i].point.Some? && 0.0 <= rows[i].point.value <= 10.0
    {
      SubjectWithinBounds(subjects[i]);
    }
    AllGradedWeight(subjects, rows);
    if Sgpa(rows).Some? {
      SgpaBetween(rows, 0.0, 10.0);
    }
  }

  lemma {:induction false} AllGradedWeight(subjects: seq<SubjectInput>, rows: seq<SubjectRow>)
    requires |rows| == |subjects|
    requires forall i :: 0 <= i < |rows| ==> rows[i].point.Some? && rows[i].credits == subjects[i].credits
    ensures TotalWeight(Used(rows)) == CreditSum(subjects) as real
  {
    if rows != [] {
      AllGradedWeight(subjects[1..], rows[1..]);
    }
  }
}
