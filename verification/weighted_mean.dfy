/** The credit-weighted mean that both the semester (SGPA) and the cumulative
    (CGPA) computations take: `sum(value * weight) / sum(weight)`, undefined
    when the weights sum to zero (app.py, `sgpa_from_df` and the CGPA
    handler). */
module WeightedMean {
  import opened Wrappers

  /** One term of a weighted mean: a grade value and its credits. */
  datatype Weighted = Weighted(value: real, weight: real)

  function TotalWeight(s: seq<Weighted>): real {
    if s == [] then 0.0 else s[0].weight + TotalWeight(s[1..])
  }

  function WeightedSum(s: seq<Weighted>): real {
    if s == [] then 0.0 else s[0].value * s[0].weight + WeightedSum(s[1..])
  }

  /** The mean, or `None` when the weights sum to zero; a defined mean
      times the total weight gives back the weighted sum. */
  function Mean(s: seq<Weighted>): (r: Option<real>)
    ensures r.None? <==> TotalWeight(s) == 0.0
    ensures r.Some? ==> r.value * TotalWeight(s) == WeightedSum(s)
  {
    var w := TotalWeight(s);
    if w == 0.0 then None else Some(WeightedSum(s) / w)
  }

  predicate NonNegativeWeights(s: seq<Weighted>) {
    forall i :: 0 <= i < |s| ==> s[i].weight >= 0.0
  }

  predicate ValuesWithin(s: seq<Weighted>, lo: real, hi: real) {
    forall i :: 0 <= i < |s| ==> lo <= s[i].value <= hi
  }

  /** Both sums distribute over concatenation. */
  lemma {:induction false} SumsAppend(a: seq<Weighted>, b: seq<Weighted>)
    ensures TotalWeight(a + b) == TotalWeight(a) + TotalWeight(b)
    ensures WeightedSum(a + b) == WeightedSum(a) + WeightedSum(b)
  {
    if a != [] {
      assert (a + b)[1..] == a[1..] + b;
      SumsAppend(a[1..], b);
    } else {
      assert a + b == b;
    }
  }

  /** With nonnegative weights the weighted sum lies between `lo` and `hi`
      times the total weight. */
  lemma {:induction false} SumBetween(s: seq<Weighted>, lo: real, hi: real)
    requires NonNegativeWeights(s) && ValuesWithin(s, lo, hi)
    ensures TotalWeight(s) >= 0.0
    ensures lo * TotalWeight(s) <= WeightedSum(s) <= hi * TotalWeight(s)
  {
    if s != [] {
      assert NonNegativeWeights(s[1..]) && ValuesWithin(s[1..], lo, hi) by {
        forall i | 0 <= i < |s[1..]| ensures s[1..][i] == s[i + 1] { }
      }
      SumBetween(s[1..], lo, hi);
      var x := s[0];
      assert lo * x.weight <= x.value * x.weight <= hi * x.weight by {
        assert 0.0 <= x.weight && lo <= x.value <= hi;
        assert (x.value - lo) * x.weight >= 0.0;
        assert (hi - x.value) * x.weight >= 0.0;
      }
    }
  }

  /** A defined mean over nonnegative weights lies between the smallest and
      the largest value that takes part. */
  lemma MeanBetween(s: seq<Weighted>, lo: real, hi: real)
    requires NonNegativeWeights(s) && ValuesWithin(s, lo, hi)
    requires Mean(s).Some?
    ensures lo <= Mean(s).value <= hi
  {
    SumBetween(s, lo, hi);
    QuotientBetween(WeightedSum(s), TotalWeight(s), lo, hi);
  }

  /** A quotient by a positive number keeps bounds given on the product. */
  lemma QuotientBetween(s: real, n: real, lo: real, hi: real)
    requires n > 0.0 && lo * n <= s <= hi * n
    ensures lo <= s / n <= hi
  {
    assert s / n * n == s;
  }

  /** A term of weight zero changes neither the definedness nor the value of
      the mean, wherever it sits. */
  lemma MeanIgnoresZeroWeight(a: seq<Weighted>, x: Weighted, b: seq<Weighted>)
    requires x.weight == 0.0
    ensures Mean(a + [x] + b) == Mean(a + b)
  {
    SumsAppend(a, [x]);
    SumsAppend(a + [x], b);
    SumsAppend(a, b);
    assert TotalWeight([x]) == 0.0 && WeightedSum([x]) == 0.0 by {
      assert [x][1..] == [];
    }
  }
}
