/** The "Compute CGPA" handler (app.py): semesters whose SGPA is not positive
    are dropped, and the rest are credit-weighted. */
module Cumulative {
  import opened Wrappers
  import opened WeightedMean

  /** One semester as entered: SGPA widget in [0, 10], credits widget in
      0..80. */
  datatype SemesterEntry = SemesterEntry(sgpa: real, credits: int)

  /** The semesters that take part: those with a positive SGPA, in order. */
  function Kept(sems: seq<SemesterEntry>): seq<Weighted> {
    if sems == [] then []
    else
      var rest := Kept(sems[1..]);
      if sems[0].sgpa > 0.0 then [Weighted(sems[0].sgpa, sems[0].credits as real)] + rest
      else rest
  }

  /** The CGPA before rounding; `None` is the "No credits entered" error,
      raised when the kept semesters' credits sum to zero. */
  function Cgpa(sems: seq<SemesterEntry>): (r: Option<real>)
    ensures r.None? <==> TotalWeight(Kept(sems)) == 0.0
    ensures r.Some? ==> r.value * TotalWeight(Kept(sems)) == WeightedSum(Kept(sems))
  {
    Mean(Kept(sems))
  }

  lemma {:induction false} KeptAppend(a: seq<SemesterEntry>, b: seq<SemesterEntry>)
    ensures Kept(a + b) == Kept(a) + Kept(b)
  {
    if a == [] {
      assert a + b == b;
    } else {
      assert (a + b)[1..] == a[1..] + b;
      KeptAppend(a[1..], b);
    }
  }

  /** A semester with SGPA at most zero is dropped before weighting, whatever
      its credits: removing it changes nothing. */
  lemma CgpaDropsNonPositive(a: seq<SemesterEntry>, s: SemesterEntry, b: seq<SemesterEntry>)
    requires s.sgpa <= 0.0
    ensures Cgpa(a + [s] + b) == Cgpa(a + b)
  {
    KeptAppend(a, [s]);
    KeptAppend(a + [s], b);
    KeptAppend(a, b);
    assert Kept([s]) == [] by { assert [s][1..] == []; }
    assert Kept(a) + [] == Kept(a);
  }

  /** Every term of `Kept(sems)` comes from a semester of `sems` with a
      positive SGPA. */
  lemma {:induction false} KeptFrom(sems: seq<SemesterEntry>, k: nat)
    requires k < |Kept(sems)|
    ensures exists i :: 0 <= i < |sems| && sems[i].sgpa > 0.0 && sems[i].sgpa == Kept(sems)[k].value &&
                        sems[i].credits as real == Kept(sems)[k].weight
  {
    if sems[0].sgpa > 0.0 && k == 0 {
      assert sems[0].sgpa == Kept(sems)[0].value;
    } else {
      var k' := if sems[0].sgpa > 0.0 then k - 1 else k;
      KeptFrom(sems[1..], k');
      var i :| 0 <= i < |sems[1..]| && sems[1..][i].sgpa > 0.0 && sems[1..][i].sgpa == Kept(sems[1..])[k'].value &&
                sems[1..][i].credits as real == Kept(sems[1..])[k'].weight;
      assert sems[i + 1] == sems[1..][i];
    }
  }

  /** With nonnegative credits, a defined CGPA lies between the smallest and
      the largest kept SGPA. */
  lemma CgpaBetween(sems: seq<SemesterEntry>, lo: real, hi: real)
    requires forall i :: 0 <= i < |sems| ==> sems[i].credits >= 0
    requires forall i :: 0 <= i < |sems| && sems[i].sgpa > 0.0 ==> lo <= sems[i].sgpa <= hi
    requires Cgpa(sems).Some?
    ensures lo <= Cgpa(sems).value <= hi
  {
    var u := Kept(sems);
    forall k | 0 <= k < |u| ensures u[k].weight >= 0.0 && lo <= u[k].value <= hi {
      KeptFrom(sems, k);
    }
    MeanBetween(u, lo, hi);
  }

  /** Two graded semesters and one not yet taken: the empty semester is
      excluded and the result is (8.0 * 20 + 9.0 * 24) / 44. */
  lemma CgpaExample()
    ensures Cgpa([SemesterEntry(8.0, 20), SemesterEntry(0.0, 0), SemesterEntry(9.0, 24)]) == Some(376.0 / 44.0)
  {
    var s := [SemesterEntry(8.0, 20), SemesterEntry(0.0, 0), SemesterEntry(9.0, 24)];
    assert s[1..][1..][1..] == [];
    assert Kept(s) == [Weighted(8.0, 20.0), Weighted(9.0, 24.0)];
    var k := Kept(s);
    assert k[1..][1..] == [];
  }

  /** When no semester has a positive SGPA the handler reports the error,
      even if credits were entered for those semesters. */
  lemma {:induction false} CgpaNoPositiveSemester(sems: seq<SemesterEntry>)
    requires forall i :: 0 <= i < |sems| ==> sems[i].sgpa <= 0.0
    ensures Cgpa(sems).None?
  {
    if sems != [] {
      CgpaNoPositiveSemester(sems[1..]);
    }
  }
}
