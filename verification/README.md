# Calci.py grade engine, modelled in Dafny

Calci.py is a single-file Streamlit app that computes a student's academic
grades. This project models its decision logic, which lives in `app.py`:

- the percentage-to-grade table and its first-match lookup;
- the per-subject score composition (mid-term average plus presentation,
  capped at 50, plus semester-end exam, capped at 100);
- the credit-weighted SGPA over graded subjects;
- the credit-weighted CGPA over semesters with a positive SGPA;
- the conversion of a 10-point CGPA to ten countries' scales;
- the target planner, which finds the lower bound of the target band and the
  exam score still needed;
- the history ledger: appends, the admin reset, and the average rating.

Modules, one per component:

| file | module | models |
|---|---|---|
| `wrappers.dfy` | `Wrappers` | `Option`: "no value" kept apart from every number |
| `grade_scale.dfy` | `GradeScale` | `PERCENT_TO_GRADE`, `percent_to_grade_point` |
| `weighted_mean.dfy` | `WeightedMean` | the weighted mean used by both SGPA and CGPA |
| `semester.dfy` | `Semester` | the subject loop of the SGPA handler, `sgpa_from_df` |
| `cumulative.dfy` | `Cumulative` | the CGPA handler's filter and average |
| `country.dfy` | `Country` | `TOP_COUNTRIES`, `convert_cgpa_to_countries` |
| `planner.dfy` | `Planner` | the target lower-bound loop and the needed-score clamp |
| `history.dfy` | `History` | `load_history`/`save_history` as a ledger class, the rating average |

In these places the code does something a reader might not expect, and the
model follows the code:

- The grade table is kept as written: closed intervals `[mn, mx]` with gaps.
  For example, a percent strictly between 89.99 and 90 matches no band and
  gets no grade. The model does not use half-open bands.
  `Semester.SubjectWithinBounds` shows that the SGPA flow never reaches a gap.
  Its widgets deliver integers, so every total is a multiple of one half.
- The planner compares grade points with a tolerance of `1e-6`, not exactly.
- `convert_cgpa_to_countries` does not check its domain. Any number is
  converted, and only `None` gives the empty mapping.
- The semester-end exam score is not clamped. Only its widget bounds it to
  0..50.
- `load_history` turns an unreadable ledger into the empty list. It does not
  raise a fatal error.

## Model

| member | source | states |
|---|---|---|
| `GradeScale.FirstMatch` | app.py:104-106 | the index returned is the first band whose closed interval holds the percent; `None` exactly when no band holds it |
| `GradeScale.PercentToGradePoint` | app.py:99-107 | returns the label and point of the first band with `mn <= p <= mx`; a non-number, or a percent no band holds, gives the empty label with no point |
| `GradeScale.LookupMatchesReference` | app.py:67-76 | the first-match lookup equals the table written out as a chain of comparisons, for every percent |
| `GradeScale.UngradedExactly` | app.py:67-76 | a percent has no grade if and only if it is below 0, above 100, or strictly inside a gap between two bands |
| `GradeScale.LookupEdgeCases` | app.py:99-107 | 89.995, -0.5, 100.5 and a non-number give `("", no point)`; 0 gives `F` with point 0.0, which is a grade; 90 gives `O`/10; 89.99 gives `A+`/9 |
| `GradeScale.PointInScale` | app.py:67-76 | every grade point the lookup produces lies in [0, 10] |
| `GradeScale.PointMonotone` | app.py:67-76 | a higher graded percent never gets a lower grade point |
| `GradeScale.LowerBoundGraded` | app.py:67-76 | each band's lower bound is graded and earns exactly that band's point |
| `GradeScale.PointBelowLowerBound` | app.py:67-76 | a graded percent below a band's lower bound earns at least one whole point less than that band |
| `GradeScale.HalfStepGraded` | app.py:67-76 | every multiple of one half in [0, 100] gets a grade |
| `WeightedMean.Mean` | app.py:114-117 | undefined exactly when the weights sum to zero; otherwise the mean times the total weight is the weighted sum |
| `WeightedMean.MeanBetween` | app.py:117 | with nonnegative weights, a defined mean lies between the smallest and largest value taking part |
| `WeightedMean.MeanIgnoresZeroWeight` | app.py:114-117 | a zero-weight term changes neither the definedness nor the value of the mean |
| `Semester.ComposeSubject` | app.py:330-338 | the mid average is half the mids' sum; CIE is the mid average plus presentation, capped at 50; total is CIE plus exam, capped at 100; the grade is the lookup of the total |
| `Semester.SubjectWithinBounds` | app.py:309-338 | within the widget bounds, CIE is in [0, 50], total in [0, 100], and the total always has a grade point in [0, 10] |
| `Semester.ComposeRows` | app.py:328-351 | the loop yields one row per subject, in input order, each the composition of that subject |
| `Semester.Sgpa` | app.py:109-118 | undefined exactly when the credits of the graded rows sum to zero; otherwise their credit-weighted mean of grade points |
| `Semester.SgpaIgnoresUngraded` | app.py:112-113 | removing a row without a grade point changes nothing |
| `Semester.SgpaBetween` | app.py:113-117 | with nonnegative credits, a defined SGPA lies between the smallest and largest grade point used |
| `Semester.SemesterSgpa` | app.py:327-355 | for subjects within the widget bounds, the SGPA is undefined exactly when the entered credits sum to 0, and otherwise lies in [0, 10] |
| `Cumulative.Cgpa` | app.py:417-424 | reports the error exactly when the kept semesters' credits sum to zero; otherwise gives the credit-weighted mean of the kept SGPAs |
| `Cumulative.CgpaDropsNonPositive` | app.py:419 | removing a semester with SGPA at most 0 changes nothing, whatever its credits |
| `Cumulative.CgpaBetween` | app.py:419-424 | with nonnegative credits, a defined CGPA lies between the smallest and largest kept SGPA |
| `Cumulative.CgpaExample` | app.py:417-424 | semesters (8.0, 20), (0, 0) and (9.0, 24) give (8.0·20 + 9.0·24)/44 |
| `Cumulative.CgpaNoPositiveSemester` | app.py:419-422 | with no positive SGPA the error is reported, even if credits were entered |
| `Country.ConvertCgpaToCountries` | app.py:120-164 | `None` gives the empty map; a number gives exactly the ten `TOP_COUNTRIES` keys; Singapore's payload equals the United States', New Zealand's equals Australia's |
| `Country.StepRulesMonotone` | app.py:130-159 | the Canada, Australia and Sweden rules and the UK class rank are nondecreasing in the percent; the German grade is nonincreasing |
| `Country.ConversionMonotone` | app.py:128-160 | as the CGPA rises, the Canada, Australia and Sweden entries never fall and the Germany entry never rises |
| `Country.UkClassMonotone` | app.py:137-143 | as the CGPA rises, the UK class never falls in the order Fail < Third < 2:2 < 2:1 < First |
| `Country.ConversionEndpoints` | app.py:120-164 | CGPA 10 gives US gpa 4.0, UK First and Germany 1.0; CGPA 0 gives UK Fail and Sweden 1 |
| `Country.ConversionRanges` | app.py:128-161 | for a CGPA in [0, 10], US and Singapore are in [0, 4], Germany in [1, 4], France in [0, 100], and the Netherlands score equals the CGPA |
| `Planner.FirstWithPoint` | app.py:484-487 | the index returned is the first band whose point is within `1e-6` of the target; `None` exactly when no band's point is |
| `Planner.FindLowerBound` | app.py:483-487 | the scan with `break` yields the lower bound of the first matching band, and `None` exactly when no band matches |
| `Planner.Needed` | app.py:492-493 | the needed score lies in [0, 50]; it is 0 exactly when the CIE already reaches the bound; it is 50 exactly when the bound is 50 or more above the CIE; otherwise CIE plus needed equals the bound |
| `Planner.PlanRequiredSee` | app.py:483-493 | the "Target not valid." error occurs exactly when no band matches the target; otherwise the result is the needed score for the first matching band's bound |
| `Planner.LowerBoundReference` | app.py:483-487 | the lower-bound lookup equals the table written out band by band |
| `Planner.LowerBoundExamples` | app.py:483-487 | target 8.0 gives 70, 5.0 gives 45, 10.0 gives 90, 0.0 gives 0, and 3.0 gives no bound |
| `Planner.SelectableTargetsValid` | app.py:472 | every target the selector offers (10, 9, ..., 4) has a lower bound |
| `Planner.LowerBoundIsMinimal` | app.py:483-487 | the bound itself earns a grade point matching the target, and no smaller percent does |
| `Planner.NeededReachesTarget` | app.py:491-493 | if the bound is within 50 of the CIE, CIE plus the needed score reaches the bound, stays within 100, the bound itself is graded, and the total, if graded, earns at least the bound's grade point |
| `Planner.BelowBoundEarnsLess` | app.py:483-487 | the target's bound is graded, and any graded percent below it earns a grade point strictly below the bound's |
| `Planner.CappedTargetUnreachable` | app.py:492-493 | if the bound is more than 50 above the CIE, the needed score is 50, and every final percent between the CIE and the CIE plus 50 misses the target: if graded, it earns a grade point strictly below the target band's point |
| `History.AverageRating` | app.py:610-615 | undefined exactly when no entry has a rating; otherwise the mean of the recorded ratings |
| `History.RatingsAppend` | app.py:610 | appending an entry appends its rating, if it has one, to the recorded ratings |
| `History.AverageInRange` | app.py:610-612 | when every recorded rating came from a 1..5 slider, a defined average lies in [1, 5] |
| `History.Ledger.constructor` | app.py:59-61 | the ledger starts from the stored contents |
| `History.Ledger.ReadAll` | app.py:90-94 | reading gives the stored entries, and the empty list when the store cannot be read |
| `History.Ledger.Append` | app.py:90-97 | load, append, write back: every earlier entry stays in order, the new entry is last, and the rating invariant is kept |
| `History.Ledger.RecordSemester` | app.py:353-390 | an undefined SGPA saves nothing; a defined one appends a semester entry with no rating |
| `History.Ledger.RecordPlan` | app.py:525-540 | appends a planner entry with the target, the needed score, the plan items and a 1..5 rating |
| `History.Ledger.RecordAppRating` | app.py:657-672 | appends an app-rating entry with a 1..5 rating; missing identifiers are stored as empty strings |
| `History.Ledger.Reset` | app.py:622 | the ledger becomes empty, so the average rating is undefined |

## Left out

- Semester.Sgpa: returns the exact weighted mean. The `round(..., 3)` applied
  to it (app.py:118) is not modelled. Python rounds binary floats half-even,
  which is floating-point detail. On an empty table the source raises
  (`pd.DataFrame([])` has no "Credits" column, app.py:111), while the model
  gives `None`; the handler always passes at least one row, because the
  subject count has a minimum of 1 (app.py:304).
- Cumulative.Cgpa: returns the exact weighted mean. The `round(..., 3)` applied
  to it (app.py:424) is not modelled, for the same reason.
- Country.ConvertCgpaToCountries: the US, Singapore, Germany and Netherlands
  values are exact. The `round(..., 2)` applied to them is not modelled.
- Semester.ComposeSubject: row fields are exact. The two-decimal rounding of
  the displayed mid average, CIE, exam and total is not modelled. The grade
  uses the unrounded total, as in the code.
- Floating point in general: table literals such as 89.99 are exact decimals
  here, not binary floats.
- The Streamlit UI is not modelled: widgets, session state, layout, CSS and
  reruns. Widget values are typed parameters, and their declared bounds
  appear as preconditions where a property needs them. Also not modelled: the
  session-state seeding of CGPA defaults and the conversion advice messages.
- matplotlib charts, and PDF, CSV and Excel generation, are not modelled. The
  CSV and PDF paths stored in a semester entry are plain parameters.
- JSON file I/O is not modelled. The ledger file is the `store` field, and an
  unreadable file is `None`. Concurrent writers are not modelled.
- The file browser, file deletion and the unlinking of files at reset are not
  modelled.
- The admin login and its credentials are not modelled.
- Timestamps are not modelled; `now_ts` becomes a parameter.
- The study-plan step texts per difficulty are not modelled. A planner entry
  keeps only each subject's difficulty.
- pandas coercion is not modelled. A row's grade point is an `Option<real>`,
  and credits are integers as the widgets deliver them.
- Country keys and UK labels: countries form an enumeration, and `Country.Name`
  gives the key string. The UK classes form an enumeration, and `Country.Text`
  gives the stored label.
- Semester labels: a semester entry stores the semester number. The code
  stores the text `Sem<n>`.
