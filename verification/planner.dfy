/** The "Target & Planner" back-solve (app.py): the lower percent of the band
    whose grade point is the target, and the semester-end exam score needed
    on top of the current CIE. */
module Planner {
  import opened Wrappers
  import opened GradeScale

  /** The program compares grade points with `abs(gp - target) < 1e-6`. */
  const Tolerance: real := 0.000001

  predicate Near(x: real, y: real) {
    -Tolerance < x - y < Tolerance
  }

  predicate Matches(b: Band, target: real) {
    Near(b.point, target)
  }

  /** Index of the first band of `bands` whose point matches `target`. */
  function FirstWithPoint(bands: seq<Band>, target: real): (r: Option<nat>)
    ensures r.Some? ==> r.value < |bands| && Matches(bands[r.value], target)
    ensures r.Some? ==> forall j :: 0 <= j < r.value ==> !Matches(bands[j], target)
    ensures r.None? <==> forall j :: 0 <= j < |bands| ==> !Matches(bands[j], target)
  {
    if bands == [] then None
    else if Matches(bands[0], target) then Some(0)
    else
      match FirstWithPoint(bands[1..], target)
      case None => None
      case Some(i) => Some(i + 1)
  }

  /** The lower bound of the first band whose point matches the target, or
      `None` (the "Target not valid." error) when no band matches. */
  function LowerBoundFor(target: real): Option<real> {
    match FirstWithPoint(Table, target)
    case None => None
    case Some(i) => Some(Table[i].mn)
  }

  /** The handler's loop: scan the table, stop at the first match. */
  method FindLowerBound(target: real) returns (lower: Option<real>)
    ensures lower == LowerBoundFor(target)
    ensures lower.None? <==> forall j :: 0 <= j < |Table| ==> !Matches(Table[j], target)
  {
    lower := None;
    var i := 0;
    while i < |Table|
      invariant 0 <= i <= |Table|
      invariant lower == None
      invariant forall j :: 0 <= j < i ==> !Matches(Table[j], target)
    {
      if Matches(Table[i], target) {
        lower := Some(Table[i].mn);
        break;
      }
      i := i + 1;
    }
  }

  /** `max(0, min(50, lower - cie))`: the exam score still needed, within the
      exam's 50 marks; zero exactly when the CIE already reaches the bound. */
  function Needed(lower: real, cie: real): (r: real)
    ensures 0.0 <= r <= 50.0
    ensures r == 0.0 <==> cie >= lower
    ensures r == 50.0 <==> lower - cie >= 50.0
    ensures 0.0 <= lower - cie <= 50.0 ==> cie + r == lower
  {
    var d := lower - cie;
    if d < 0.0 then 0.0 else if d > 50.0 then 50.0 else d
  }

  /** The whole back-solve: an error when the target matches no band,
      otherwise the needed exam score for the first matching band. */
  method PlanRequiredSee(cie: real, target: real) returns (needed: Option<real>)
    ensures needed.None? <==> forall j :: 0 <= j < |Table| ==> !Matches(Table[j], target)
    ensures needed.Some? ==> LowerBoundFor(target).Some? &&
                             needed.value == Needed(LowerBoundFor(target).value, cie)
  {
    var lower := FindLowerBound(target);
    if lower.None? {
      needed := None;
    } else {
      needed := Some(Needed(lower.value, cie));
    }
  }

  /** The lower-bound lookup written out band by band. */
  lemma LowerBoundReference(target: real)
    ensures LowerBoundFor(target) ==
      if Near(10.0, target) then Some(90.0)
      else if Near(9.0, target) then Some(80.0)
      else if Near(8.0, target) then Some(70.0)
      else if Near(7.0, target) then Some(60.0)
      else if Near(6.0, target) then Some(50.0)
      else if Near(5.0, target) then Some(45.0)
      else if Near(4.0, target) then Some(40.0)
      else if Near(0.0, target) then Some(0.0)
      else None
  {
    var r := FirstWithPoint(Table, target);
    if r.None? {
      assert !Matches(Table[0], target) && !Matches(Table[1], target) && !Matches(Table[2], target);
      assert !Matches(Table[3], target) && !Matches(Table[4], target) && !Matches(Table[5], target);
      assert !Matches(Table[6], target) && !Matches(Table[7], target);
    } else {
      var i := r.value;
      if i > 0 { assert !Matches(Table[0], target); }
      if i > 1 { assert !Matches(Table[1], target); }
      if i > 2 { assert !Matches(Table[2], target); }
      if i > 3 { assert !Matches(Table[3], target); }
      if i > 4 { assert !Matches(Table[4], target); }
      if i > 5 { assert !Matches(Table[5], target); }
      if i > 6 { assert !Matches(Table[6], target); }
    }
  }

  /** Concrete targets: 8.0 needs 70, 5.0 needs 45, 10.0 needs 90, the
      failing point 0.0 has bound 0, and 3.0 is not a grade point. */
  lemma LowerBoundExamples()
    ensures LowerBoundFor(8.0) == Some(70.0)
    ensures LowerBoundFor(5.0) == Some(45.0)
    ensures LowerBoundFor(10.0) == Some(90.0)
    ensures LowerBoundFor(0.0) == Some(0.0)
    ensures LowerBoundFor(3.0) == None
  {
    LowerBoundReference(8.0);
    LowerBoundReference(5.0);
    LowerBoundReference(10.0);
    LowerBoundReference(0.0);
    LowerBoundReference(3.0);
  }

  /** Every target the planner offers (10, 9, 8, 7, 6, 5, 4) has a bound, so
      the error branch is reached only by other values. */
  lemma SelectableTargetsValid(t: real)
    requires t in [10.0, 9.0, 8.0, 7.0, 6.0, 5.0, 4.0]
    ensures LowerBoundFor(t).Some?
  {
    LowerBoundReference(t);
  }

  /** The bound is the inverse of the grade lookup: the bound itself earns a
      grade point matching the target, and no smaller percent does. */
  lemma LowerBoundIsMinimal(target: real, p: real)
    requires LowerBoundFor(target).Some?
    ensures PointAt(LowerBoundFor(target).value).Some?
    ensures Near(PointAt(LowerBoundFor(target).value).value, target)
    ensures PointAt(p).Some? && Near(PointAt(p).value, target) ==> LowerBoundFor(target).value <= p
  {
    var i := FirstWithPoint(Table, target).value;
    LowerBoundGraded(i);
    if p < Table[i].mn && PointAt(p).Some? {
      PointBelowLowerBound(i, p);
    }
  }

  /** When the bound is within 50 marks of the CIE, scoring the needed amount
      reaches the bound, and the resulting percent, if graded, earns at least
      the bound's grade point. */
  lemma NeededReachesTarget(cie: real, target: real)
    requires 0.0 <= cie <= 50.0
    requires LowerBoundFor(target).Some?
    requires LowerBoundFor(target).value - cie <= 50.0
    ensures cie + Needed(LowerBoundFor(target).value, cie) >= LowerBoundFor(target).value
    ensures cie + Needed(LowerBoundFor(target).value, cie) <= 100.0
    ensures PointAt(LowerBoundFor(target).value).Some?
    ensures PointAt(cie + Needed(LowerBoundFor(target).value, cie)).Some? ==>
            PointAt(cie + Needed(LowerBoundFor(target).value, cie)).value >= PointAt(LowerBoundFor(target).value).value
  {
    var lo := LowerBoundFor(target).value;
    var total := cie + Needed(lo, cie);
    LowerBoundGraded(FirstWithPoint(Table, target).value);
    if PointAt(total).Some? {
      PointMonotone(lo, total);
    }
  }

  /** A graded percent below the target's bound earns a grade point strictly
      below the point of the target's band. */
  lemma BelowBoundEarnsLess(target: real, p: real)
    requires LowerBoundFor(target).Some?
    requires p < LowerBoundFor(target).value
    ensures PointAt(LowerBoundFor(target).value).Some?
    ensures PointAt(p).Some? ==> PointAt(p).value < PointAt(LowerBoundFor(target).value).value
  {
    var i := FirstWithPoint(Table, target).value;
    LowerBoundGraded(i);
    if PointAt(p).Some? {
      PointBelowLowerBound(i, p);
    }
  }

  /** When the bound is more than 50 marks above the CIE the needed score is
      capped at 50, and no final percent within 50 exam marks of the CIE
      reaches the target: such a percent, if graded, earns a point strictly
      below the target band's. */
  lemma CappedTargetUnreachable(cie: real, target: real, percent: real)
    requires LowerBoundFor(target).Some?
    requires LowerBoundFor(target).value - cie > 50.0
    requires cie <= percent <= cie + 50.0
    ensures Needed(LowerBoundFor(target).value, cie) == 50.0
    ensures !(PointAt(percent).Some? && Near(PointAt(percent).value, target))
    ensures PointAt(LowerBoundFor(target).value).Some?
    ensures PointAt(percent).Some? ==> PointAt(percent).value < PointAt(LowerBoundFor(target).value).value
  {
    LowerBoundIsMinimal(target, percent);
    BelowBoundEarnsLess(target, percent);
  }
}
