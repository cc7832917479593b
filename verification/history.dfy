/** The history ledger (app.py): a list of entries that every save loads,
    extends by one entry and writes back in full, and that the admin reset
    replaces by the empty list. The JSON file is modelled by a field; an
    unreadable file is `None` and reads back as the empty list. */
module History {
  import opened Wrappers
  import WeightedMean

  datatype Difficulty = Easy | Moderate | Hard

  /** What was recorded. A semester entry's label is `Sem<semester>`; the
      planner entry keeps each subject's difficulty (the study-plan texts are
      fixed display strings and are not modelled). */
  datatype Action =
    | SemesterSaved(semester: nat, sgpa: real, csv: string, pdf: Option<string>)
    | PlannerRun(targetGp: real, neededInSee: real, planItems: map<string, Difficulty>)
    | AppRating(feedback: string)

  /** One ledger entry; the timestamp is supplied by the caller. */
  datatype Entry = Entry(timestamp: string, student: Option<string>, hallticket: Option<string>,
                         program: Option<string>, action: Action, rating: Option<int>)

  /** The recorded ratings, in ledger order, skipping entries without one. */
  function Ratings(h: seq<Entry>): seq<int> {
    if h == [] then []
    else (if h[0].rating.Some? then [h[0].rating.value] else []) + Ratings(h[1..])
  }

  function Sum(r: seq<int>): int {
    if r == [] then 0 else r[0] + Sum(r[1..])
  }

  /** The admin panel's average rating: the mean of the recorded ratings, or
      `None` ("No ratings recorded yet.") when there are none. */
  function AverageRating(h: seq<Entry>): (r: Option<real>)
    ensures r.None? <==> Ratings(h) == []
    ensures r.Some? ==> r.value * |Ratings(h)| as real == Sum(Ratings(h)) as real
  {
    var rs := Ratings(h);
    if rs == [] then None else Some(Sum(rs) as real / |rs| as real)
  }

  /** Every rating in the ledger came from a 1..5 slider. */
  predicate RatingsInRange(h: seq<Entry>) {
    forall i :: 0 <= i < |h| && h[i].rating.Some? ==> 1 <= h[i].rating.value <= 5
  }

  /** Appending an entry appends its rating, if it has one. */
  lemma {:induction false} RatingsAppend(h: seq<Entry>, e: Entry)
    ensures Ratings(h + [e]) == Ratings(h) + (if e.rating.Some? then [e.rating.value] else [])
  {
    var tail := if e.rating.Some? then [e.rating.value] else [];
    if h == [] {
      assert h + [e] == [e];
      assert [e][1..] == [];
      assert Ratings([e]) == tail + Ratings([]);
    } else {
      var head := if h[0].rating.Some? then [h[0].rating.value] else [];
      assert (h + [e])[0] == h[0];
      assert (h + [e])[1..] == h[1..] + [e];
      assert Ratings(h + [e]) == head + Ratings(h[1..] + [e]);
      RatingsAppend(h[1..], e);
      assert Ratings(h) == head + Ratings(h[1..]);
    }
  }

  lemma {:induction false} RatingsBetween(h: seq<Entry>)
    requires RatingsInRange(h)
    ensures |Ratings(h)| <= Sum(Ratings(h)) <= 5 * |Ratings(h)|
  {
    if h != [] {
      assert RatingsInRange(h[1..]) by {
        forall i | 0 <= i < |h[1..]| ensures h[1..][i] == h[i + 1] { }
      }
      RatingsBetween(h[1..]);
      var head := if h[0].rating.Some? then [h[0].rating.value] else [];
      assert Ratings(h) == head + Ratings(h[1..]);
      SumAppend(head, Ratings(h[1..]));
    }
  }

  lemma {:induction false} SumAppend(a: seq<int>, b: seq<int>)
    ensures Sum(a + b) == Sum(a) + Sum(b)
  {
    if a == [] {
      assert a + b == b;
    } else {
      assert (a + b)[1..] == a[1..] + b;
      SumAppend(a[1..], b);
    }
  }

  /** Since recorded ratings come from 1..5 sliders, a defined average lies
      in [1, 5]. */
  lemma AverageInRange(h: seq<Entry>)
    requires RatingsInRange(h)
    requires AverageRating(h).Some?
    ensures 1.0 <= AverageRating(h).value <= 5.0
  {
    RatingsBetween(h);
    var n, s := |Ratings(h)| as real, Sum(Ratings(h)) as real;
    WeightedMean.QuotientBetween(s, n, 1.0, 5.0);
  }

  class Ledger {
    /** The stored ledger; `None` stands for a file that cannot be read. */
    var store: Option<seq<Entry>>

    /** `load_history`: the stored entries, or the empty list when the file
        cannot be read. */
    function Entries(): seq<Entry>
      reads this
    {
      store.GetOr([])
    }

    /** The invariant the program's own writers keep. */
    predicate Valid()
      reads this
    {
      RatingsInRange(Entries())
    }

    constructor (initial: Option<seq<Entry>>)
      ensures store == initial
      ensures RatingsInRange(initial.GetOr([])) ==> Valid()
    {
      store := initial;
    }

    method ReadAll() returns (h: seq<Entry>)
      ensures h == Entries()
      ensures store.None? ==> h == []
    {
      h := store.GetOr([]);
    }

    /** Load, append one entry, write the whole list back: every earlier
        entry stays, in order, and the new one is last. */
    method Append(e: Entry)
      modifies this
      ensures store == Some(old(Entries()) + [e])
      ensures Entries() == old(Entries()) + [e]
      ensures old(Valid()) && (e.rating.Some? ==> 1 <= e.rating.value <= 5) ==> Valid()
    {
      var h := store.GetOr([]);
      h := h + [e];
      store := Some(h);
      assert Entries() == old(Entries()) + [e];
    }

    /** The semester handler: an undefined SGPA is reported and nothing is
        saved; a defined one is appended with no rating. */
    method RecordSemester(timestamp: string, student: Option<string>, hallticket: Option<string>,
                          program: Option<string>, semester: nat, sgpa: Option<real>,
                          csv: string, pdf: Option<string>) returns (saved: bool)
      modifies this
      ensures saved <==> sgpa.Some?
      ensures !saved ==> store == old(store)
      ensures saved ==> (Entries() == old(Entries()) +
        [Entry(timestamp, student, hallticket, program, SemesterSaved(semester, sgpa.value, csv, pdf), None)])
      ensures old(Valid()) ==> Valid()
    {
      if sgpa.None? {
        saved := false;
      } else {
        Append(Entry(timestamp, student, hallticket, program, SemesterSaved(semester, sgpa.value, csv, pdf), None));
        saved := true;
      }
    }

    /** The planner's "Create Plan & Save Rating" entry, rated on a 1..5
        slider. */
    method RecordPlan(timestamp: string, student: Option<string>, hallticket: Option<string>,
                      program: Option<string>, targetGp: real, needed: real,
                      planItems: map<string, Difficulty>, rating: int)
      requires 1 <= rating <= 5
      modifies this
      ensures Entries() == old(Entries()) +
        [Entry(timestamp, student, hallticket, program, PlannerRun(targetGp, needed, planItems), Some(rating))]
      ensures old(Valid()) ==> Valid()
    {
      Append(Entry(timestamp, student, hallticket, program, PlannerRun(targetGp, needed, planItems), Some(rating)));
    }

    /** The "Rate This App" entry; missing identifiers are stored as empty
        strings. */
    method RecordAppRating(timestamp: string, student: Option<string>, hallticket: Option<string>,
                           program: Option<string>, rating: int, feedback: string)
      requires 1 <= rating <= 5
      modifies this
      ensures Entries() == old(Entries()) +
        [Entry(timestamp, Some(student.GetOr("")), Some(hallticket.GetOr("")), Some(program.GetOr("")),
               AppRating(feedback), Some(rating))]
      ensures old(Valid()) ==> Valid()
    {
      Append(Entry(timestamp, Some(student.GetOr("")), Some(hallticket.GetOr("")), Some(program.GetOr("")),
                   AppRating(feedback), Some(rating)));
    }

    /** The admin reset: the ledger becomes the empty list. */
    method Reset()
      modifies this
      ensures store == Some([])
      ensures Entries() == [] && Valid()
      ensures AverageRating(Entries()).None?
    {
      store := Some([]);
    }
  }
}
