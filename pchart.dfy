/** The p-chart engine: samples of varying size, one pair of control limits
    per sample, and a cache of totals and pBar that is recomputed on the first
    read after a sample has been added. */
module PChartEngine {
  import opened Float64
  import opened Clock

  /** One inspected sample. `p`, `lcl` and `ucl` are written by the
      recalculation pass; a freshly added sample holds zeros there. */
  datatype Sample = Sample(
    start: Time,
    end: Time,
    inspections: nat,
    defectives: nat,
    p: Float,
    lcl: Float,
    ucl: Float)

  function SumInspections(samples: seq<Sample>): nat {
    if samples == [] then 0
    else SumInspections(samples[..|samples| - 1]) + samples[|samples| - 1].inspections
  }

  function SumDefectives(samples: seq<Sample>): nat {
    if samples == [] then 0
    else SumDefectives(samples[..|samples| - 1]) + samples[|samples| - 1].defectives
  }

  /** pBar: all defectives over all inspections, kept to three decimals.
      With no inspections at all the division yields NaN (no defectives
      either) or +Inf. */
  function PBarOf(samples: seq<Sample>): (pBar: Float)
    ensures HasThreeDecimals(pBar)
    ensures pBar.Finite? <==> 0 < SumInspections(samples)
    ensures pBar.NaN? <==> SumInspections(samples) == 0 && SumDefectives(samples) == 0
    ensures pBar.PosInf? <==> SumInspections(samples) == 0 && 0 < SumDefectives(samples)
    ensures 0 < SumInspections(samples) ==>
      -0.0005 <= pBar.v - SumDefectives(samples) as real / SumInspections(samples) as real <= 0.0005
  {
    RoundToThreeDecimals(Div(FromNat(SumDefectives(samples)), FromNat(SumInspections(samples))))
  }

  /** Three standard deviations of a proportion measured on `inspections` items. */
  function Spread(root: SquareRoot, pBar: Float, inspections: nat): (delta: Float)
    ensures !IsNegative(delta)
  {
    Mul(Finite(3.0), Sqrt(root, Div(Mul(pBar, Sub(Finite(1.0), pBar)), FromNat(inspections))))
  }

  /** The sample's proportion defective, kept to two decimals. */
  function Proportion(s: Sample): (p: Float)
    ensures HasTwoDecimals(p)
    ensures 0 < s.inspections ==>
      p.Finite? && -0.005 <= p.v - s.defectives as real / s.inspections as real <= 0.005
  {
    RoundToTwoDecimals(Div(FromNat(s.defectives), FromNat(s.inspections)))
  }

  /** The upper control limit pBar + delta, kept to two decimals. */
  function UpperLimit(root: SquareRoot, pBar: Float, inspections: nat): (ucl: Float)
    ensures HasTwoDecimals(ucl)
    ensures var delta := Spread(root, pBar, inspections);
      pBar.Finite? && delta.Finite? ==> ucl.Finite? && -0.005 <= ucl.v - (pBar.v + delta.v) <= 0.005
  {
    RoundToTwoDecimals(Add(pBar, Spread(root, pBar, inspections)))
  }

  /** The lower control limit pBar - delta, kept to two decimals and then
      raised to zero if negative: it is never below zero. */
  function LowerLimit(root: SquareRoot, pBar: Float, inspections: nat): (lcl: Float)
    ensures !Less(lcl, Zero)
    ensures HasTwoDecimals(lcl)
    ensures var raw := RoundToTwoDecimals(Sub(pBar, Spread(root, pBar, inspections)));
      !Less(raw, Zero) ==> lcl == raw
    ensures var delta := Spread(root, pBar, inspections);
      pBar.Finite? && delta.Finite? ==>
        lcl.Finite? && (lcl == Zero || -0.005 <= lcl.v - (pBar.v - delta.v) <= 0.005)
  {
    var lcl := RoundToTwoDecimals(Sub(pBar, Spread(root, pBar, inspections)));
    assert HasTwoDecimals(Zero);
    if Less(lcl, Zero) then Zero else lcl
  }

  /** The sample as the recalculation pass leaves it: its proportion
      defective and its two limits are written, nothing else changes. */
  function Recalculated(root: SquareRoot, pBar: Float, s: Sample): (r: Sample)
    ensures r.start == s.start && r.end == s.end
    ensures r.inspections == s.inspections && r.defectives == s.defectives
    ensures !Less(r.lcl, Zero)
    ensures HasTwoDecimals(r.p) && HasTwoDecimals(r.ucl) && HasTwoDecimals(r.lcl)
  {
    s.(p := Proportion(s),
       ucl := UpperLimit(root, pBar, s.inspections),
       lcl := LowerLimit(root, pBar, s.inspections))
  }

  function RecalculateAll(root: SquareRoot, pBar: Float, samples: seq<Sample>): (r: seq<Sample>)
    ensures |r| == |samples|
  {
    seq(|samples|, k requires 0 <= k < |samples| => Recalculated(root, pBar, samples[k]))
  }

  /** The state of the in-place pass after `i` samples: the first `i` are
      rewritten to their entries in `all`, the rest are still as given. */
  ghost predicate RewrittenUpTo(r: seq<Sample>, all: seq<Sample>, samples: seq<Sample>, i: nat) {
    && |r| == |samples| == |all| && i <= |r|
    && (forall k :: 0 <= k < i ==> r[k] == all[k])
    && (forall k :: i <= k < |r| ==> r[k] == samples[k])
  }

  /** Rewriting sample `i` to its recalculated form advances the pass by one. */
  lemma RewriteStep(root: SquareRoot, pBar: Float, r: seq<Sample>, all: seq<Sample>, samples: seq<Sample>,
                    i: nat, s: Sample)
    requires all == RecalculateAll(root, pBar, samples)
    requires RewrittenUpTo(r, all, samples, i) && i < |r|
    requires s == Recalculated(root, pBar, r[i])
    ensures RewrittenUpTo(r[i := s], all, samples, i + 1)
  {
    assert r[i] == samples[i];
  }

  /** A pass that has reached the end has rewritten every sample. */
  lemma RewriteDone(r: seq<Sample>, all: seq<Sample>, samples: seq<Sample>)
    requires RewrittenUpTo(r, all, samples, |r|)
    ensures r == all
  {
  }

  /** The totals and pBar describe the samples, and every sample's derived
      fields are those a recalculation around pBar gives. */
  ghost predicate IsCache(root: SquareRoot, samples: seq<Sample>, totalInspected: nat, totalDefectives: nat, pBar: Float) {
    && totalInspected == SumInspections(samples)
    && totalDefectives == SumDefectives(samples)
    && pBar == PBarOf(samples)
    && forall k :: 0 <= k < |samples| ==> samples[k] == Recalculated(root, pBar, samples[k])
  }

  /** Recalculating all samples leaves a consistent cache: totals and pBar of
      the rewritten samples are those of the originals, and recalculating a
      rewritten sample again changes nothing. */
  lemma RecalculationIsCached(root: SquareRoot, samples: seq<Sample>)
    ensures var pBar := PBarOf(samples);
      IsCache(root, RecalculateAll(root, pBar, samples), SumInspections(samples), SumDefectives(samples), pBar)
  {
    var pBar := PBarOf(samples);
    var all := RecalculateAll(root, pBar, samples);
    RecalculationKeepsSums(root, pBar, samples);
    forall k | 0 <= k < |all|
      ensures all[k] == Recalculated(root, pBar, all[k])
    {
      RecalculatedIsStable(root, pBar, samples[k]);
    }
  }

  /** The derived fields depend on the counts alone, so recalculating a
      recalculated sample changes nothing. */
  lemma RecalculatedIsStable(root: SquareRoot, pBar: Float, s: Sample)
    ensures Recalculated(root, pBar, Recalculated(root, pBar, s)) == Recalculated(root, pBar, s)
  {
    var r := Recalculated(root, pBar, s);
    assert Proportion(r) == Proportion(s);
  }

  /** The recalculation pass leaves every count where it was, so the totals
      computed over the rewritten samples are the totals of the originals. */
  lemma {:induction false} RecalculationKeepsSums(root: SquareRoot, pBar: Float, samples: seq<Sample>)
    ensures SumInspections(RecalculateAll(root, pBar, samples)) == SumInspections(samples)
    ensures SumDefectives(RecalculateAll(root, pBar, samples)) == SumDefectives(samples)
  {
    if samples != [] {
      var n := |samples|;
      var all := RecalculateAll(root, pBar, samples);
      assert all[..n - 1] == RecalculateAll(root, pBar, samples[..n - 1]);
      RecalculationKeepsSums(root, pBar, samples[..n - 1]);
    }
  }

  /** Recalculating an already recalculated chart changes nothing: the same
      pBar comes out and every sample keeps its derived fields. */
  lemma RecalculationIsIdempotent(root: SquareRoot, samples: seq<Sample>)
    ensures var all := RecalculateAll(root, PBarOf(samples), samples);
      && PBarOf(all) == PBarOf(samples)
      && RecalculateAll(root, PBarOf(all), all) == all
  {
    RecalculationIsCached(root, samples);
  }

  /** Totals are additive over consecutive runs of samples. */
  lemma {:induction false} SumsOfConcatenation(a: seq<Sample>, b: seq<Sample>)
    ensures SumInspections(a + b) == SumInspections(a) + SumInspections(b)
    ensures SumDefectives(a + b) == SumDefectives(a) + SumDefectives(b)
  {
    if b == [] {
      assert a + b == a;
    } else {
      var n := |b|;
      assert (a + b)[..|a + b| - 1] == a + b[..n - 1];
      SumsOfConcatenation(a, b[..n - 1]);
    }
  }

  predicate Consistent(s: Sample) {
    s.defectives <= s.inspections
  }

  lemma {:induction false} DefectivesBoundedByInspections(samples: seq<Sample>)
    requires forall k :: 0 <= k < |samples| ==> Consistent(samples[k])
    ensures SumDefectives(samples) <= SumInspections(samples)
  {
    if samples != [] {
      DefectivesBoundedByInspections(samples[..|samples| - 1]);
    }
  }

  lemma {:induction false} SomeInspections(samples: seq<Sample>, k: nat)
    requires k < |samples| && 0 < samples[k].inspections
    ensures 0 < SumInspections(samples)
  {
    if k < |samples| - 1 {
      SomeInspections(samples[..|samples| - 1], k);
    }
  }

  lemma ProportionWithinUnit(d: nat, n: nat)
    requires d <= n && 0 < n
    ensures Div(FromNat(d), FromNat(n)).Finite?
    ensures 0.0 <= Div(FromNat(d), FromNat(n)).v <= 1.0
  {
    QuotientWithinUnit(d as real, n as real);
  }

  /** When no sample reports more defectives than inspections and some
      inspection was made, pBar is a proportion. */
  lemma PBarIsProportion(samples: seq<Sample>)
    requires forall k :: 0 <= k < |samples| ==> Consistent(samples[k])
    requires 0 < SumInspections(samples)
    ensures PBarOf(samples).Finite? && 0.0 <= PBarOf(samples).v <= 1.0
  {
    DefectivesBoundedByInspections(samples);
    var q := Div(FromNat(SumDefectives(samples)), FromNat(SumInspections(samples)));
    ProportionWithinUnit(SumDefectives(samples), SumInspections(samples));
    RoundToThreeDecimalsKeepsProportion(q);
  }

  /** When the lower limit is not clamped, the two stored limits of a sample
      lie at the distance `delta >= 0` above and below pBar, up to the
      rounding to two decimals, so they are symmetric to within 0.01. */
  lemma LimitsSymmetricWhenNotClamped(root: SquareRoot, pBar: Float, inspections: nat)
    requires pBar.Finite? && Spread(root, pBar, inspections).Finite?
    requires !Less(RoundToTwoDecimals(Sub(pBar, Spread(root, pBar, inspections))), Zero)
    ensures var delta := Spread(root, pBar, inspections);
      var ucl := UpperLimit(root, pBar, inspections);
      var lcl := LowerLimit(root, pBar, inspections);
      && 0.0 <= delta.v && ucl.Finite? && lcl.Finite?
      && -0.005 <= (ucl.v - pBar.v) - delta.v <= 0.005
      && -0.005 <= (pBar.v - lcl.v) - delta.v <= 0.005
      && -0.01 <= (ucl.v - pBar.v) - (pBar.v - lcl.v) <= 0.01
  {
    var delta := Spread(root, pBar, inspections);
    var raw := RoundToTwoDecimals(Sub(pBar, delta));
    assert LowerLimit(root, pBar, inspections) == raw;
  }

  lemma SpreadIsNumber(root: SquareRoot, pBar: Float, inspections: nat)
    requires pBar.Finite? && 0.0 <= pBar.v <= 1.0 && 0 < inspections
    ensures Spread(root, pBar, inspections).Finite?
  {
    var x := pBar.v;
    var variance := x * (1.0 - x);
    ProductOfProportionAndComplement(x);
    VarianceIsFinite(pBar, x);
    QuotientIsFinite(variance, inspections);
    QuotientNonNegative(variance, inspections as real);
    SpreadOfFiniteVariance(root, pBar, inspections, variance / inspections as real);
  }

  lemma VarianceIsFinite(pBar: Float, x: real)
    requires pBar == Finite(x)
    ensures Mul(pBar, Sub(Finite(1.0), pBar)) == Finite(x * (1.0 - x))
  {
  }

  lemma QuotientIsFinite(x: real, n: nat)
    requires 0 < n
    ensures Div(Finite(x), FromNat(n)) == Finite(x / n as real)
  {
  }

  lemma SpreadOfFiniteVariance(root: SquareRoot, pBar: Float, inspections: nat, d: real)
    requires 0.0 <= d
    requires Div(Mul(pBar, Sub(Finite(1.0), pBar)), FromNat(inspections)) == Finite(d)
    ensures Spread(root, pBar, inspections).Finite?
  {
  }

  lemma ProductOfProportionAndComplement(x: real)
    requires 0.0 <= x <= 1.0
    ensures 0.0 <= x * (1.0 - x)
  {
    ProductNonNegative(x, 1.0 - x);
  }

  /** A sample with inspections and no more defectives than inspections
      has a proportion defective between 0 and 1. */
  lemma ProportionIsNumber(s: Sample)
    requires Consistent(s) && 0 < s.inspections
    ensures Proportion(s).Finite? && 0.0 <= Proportion(s).v <= 1.0
  {
    ProportionWithinUnit(s.defectives, s.inspections);
    RoundToTwoDecimalsKeepsProportion(Div(FromNat(s.defectives), FromNat(s.inspections)));
  }

  /** Around a pBar that is a proportion, the limits of a sample with
      inspections are numbers and 0 <= lcl <= ucl. */
  lemma SampleLimitsAreNumbers(root: SquareRoot, pBar: Float, inspections: nat)
    requires pBar.Finite? && 0.0 <= pBar.v <= 1.0 && 0 < inspections
    ensures var ucl := UpperLimit(root, pBar, inspections);
      var lcl := LowerLimit(root, pBar, inspections);
      && ucl.Finite? && lcl.Finite?
      && 0.0 <= lcl.v <= ucl.v
  {
    SpreadIsNumber(root, pBar, inspections);
    var delta := Spread(root, pBar, inspections);
    SumAndDifferenceAreNumbers(pBar, delta);
    RoundedLimitsOrdered(Sub(pBar, delta), Add(pBar, delta));
  }

  /** Rounding both limits and clamping the lower one keeps them ordered. */
  lemma RoundedLimitsOrdered(lower: Float, upper: Float)
    requires lower.Finite? && upper.Finite? && lower.v <= upper.v && 0.0 <= upper.v
    ensures var ucl := RoundToTwoDecimals(upper);
      var raw := RoundToTwoDecimals(lower);
      var lcl := if Less(raw, Zero) then Zero else raw;
      && ucl.Finite? && lcl.Finite?
      && 0.0 <= lcl.v <= ucl.v
  {
    RoundToTwoDecimalsMonotonic(lower, upper);
    RoundToTwoDecimalsMonotonic(Zero, upper);
  }

  lemma SumAndDifferenceAreNumbers(a: Float, b: Float)
    requires a.Finite? && b.Finite? && 0.0 <= a.v && 0.0 <= b.v
    ensures Add(a, b) == Finite(a.v + b.v) && 0.0 <= Add(a, b).v
    ensures Sub(a, b) == Finite(a.v - b.v)
  {
  }

  /** For samples that all have inspections and no more defectives than
      inspections, every recalculated value is a number (never NaN nor
      infinite), p is a proportion and the limits are ordered: 0 <= lcl <= ucl. */
  lemma LimitsAreNumbers(root: SquareRoot, samples: seq<Sample>, k: nat)
    requires forall j :: 0 <= j < |samples| ==> Consistent(samples[j]) && 0 < samples[j].inspections
    requires k < |samples|
    ensures var r := Recalculated(root, PBarOf(samples), samples[k]);
      && r.p.Finite? && 0.0 <= r.p.v <= 1.0
      && r.ucl.Finite? && r.lcl.Finite?
      && 0.0 <= r.lcl.v <= r.ucl.v
  {
    SomeInspections(samples, k);
    PBarIsProportion(samples);
    ProportionIsNumber(samples[k]);
    SampleLimitsAreNumbers(root, PBarOf(samples), samples[k].inspections);
  }

  /** A p-chart for one part on one machine. The totals, pBar and the
      derived fields of every sample are a cache: `requiresRecalculation`
      says that a sample was added since they were last computed. */
  class PChart {
    const part: string
    const machine: string
    const root: SquareRoot
    var samples: seq<Sample>
    var requiresRecalculation: bool
    var totalInspected: nat
    var totalDefectives: nat
    var pBar: Float

    /** The cache holds what recalculation computes from the current samples. */
    ghost predicate Cached()
      reads this
    {
      IsCache(root, samples, totalInspected, totalDefectives, pBar)
    }

    /** A chart without samples has never been recalculated and still holds
        zeros; once a sample exists, a clear flag means the cache is current. */
    ghost predicate Valid()
      reads this
    {
      && (requiresRecalculation ==> samples != [])
      && (!requiresRecalculation && samples == [] ==>
            totalInspected == 0 && totalDefectives == 0 && pBar == Zero)
      && (!requiresRecalculation && samples != [] ==> Cached())
    }

    /** What every read leaves behind: a stale cache has been recomputed (the
        counts of every sample kept, its derived fields rewritten), a current
        one has not been touched. */
    twostate predicate Refreshed()
      reads this
    {
      && Valid()
      && !requiresRecalculation
      && (old(requiresRecalculation) ==>
            samples == RecalculateAll(root, PBarOf(old(samples)), old(samples)))
      && (!old(requiresRecalculation) ==> unchanged(this))
    }

    constructor (part: string, machine: string, root: SquareRoot)
      ensures this.part == part && this.machine == machine && this.root == root
      ensures samples == [] && !requiresRecalculation
      ensures totalInspected == 0 && totalDefectives == 0 && pBar == Zero
      ensures Valid()
    {
      this.part := part;
      this.machine := machine;
      this.root := root;
      samples := [];
      requiresRecalculation := false;
      totalInspected, totalDefectives, pBar := 0, 0, Zero;
    }

    method AddSample(start: Time, end: Time, inspections: nat, defectives: nat)
      modifies this`samples, this`requiresRecalculation
      ensures samples == old(samples) + [Sample(start, end, inspections, defectives, Zero, Zero, Zero)]
      ensures requiresRecalculation
      ensures Valid()
    {
      var sample := Sample(start, end, inspections, defectives, Zero, Zero, Zero);
      samples := samples + [sample];
      requiresRecalculation := true;
    }

    /** One iteration of the recalculation pass: the sample's proportion
        defective and its control limits around `pBar`, each kept to two
        decimals, with a negative lower limit raised to zero. */
    static method RecalculateSample(root: SquareRoot, pBar: Float, sample: Sample) returns (r: Sample)
      ensures r == Recalculated(root, pBar, sample)
    {
      var p := Div(FromNat(sample.defectives), FromNat(sample.inspections));
      var deltaCL := Spread(root, pBar, sample.inspections);
      var ucl := Add(pBar, deltaCL);
      var lcl := Sub(pBar, deltaCL);

      p := RoundToTwoDecimals(p);
      ucl := RoundToTwoDecimals(ucl);
      lcl := RoundToTwoDecimals(lcl);

      if Less(lcl, Zero) {
        lcl := Zero;
      }
      r := sample.(p := p, ucl := ucl, lcl := lcl);
    }

    /** The first pass of a recalculation: the chart's totals, summed sample
        by sample. */
    static method CountTotals(samples: seq<Sample>) returns (inspected: nat, defectives: nat)
      ensures inspected == SumInspections(samples)
      ensures defectives == SumDefectives(samples)
    {
      inspected, defectives := 0, 0;
      var i := 0;
      while i < |samples|
        invariant 0 <= i <= |samples|
        invariant inspected == SumInspections(samples[..i])
        invariant defectives == SumDefectives(samples[..i])
      {
        assert samples[..i + 1][..i] == samples[..i];
        inspected := inspected + samples[i].inspections;
        defectives := defectives + samples[i].defectives;
        i := i + 1;
      }
      assert samples[..i] == samples;
    }

    /** The second pass of a recalculation: every sample rewritten in turn
        around the new pBar. */
    static method RecalculateSamples(root: SquareRoot, pBar: Float, samples: seq<Sample>) returns (r: seq<Sample>)
      ensures r == RecalculateAll(root, pBar, samples)
    {
      ghost var all := RecalculateAll(root, pBar, samples);
      r := samples;
      var i := 0;
      while i < |r|
        invariant RewrittenUpTo(r, all, samples, i)
      {
        var sample := RecalculateSample(root, pBar, r[i]);
        RewriteStep(root, pBar, r, all, samples, i, sample);
        r := r[i := sample];
        i := i + 1;
      }
      RewriteDone(r, all, samples);
    }

    /** Recomputes the totals and pBar from the samples, then writes p, ucl
        and lcl into every sample in index order, and clears the flag. */
    method ReCalculate()
      modifies this`samples, this`requiresRecalculation
      modifies this`totalInspected, this`totalDefectives, this`pBar
      ensures totalInspected == SumInspections(old(samples))
      ensures totalDefectives == SumDefectives(old(samples))
      ensures pBar == PBarOf(old(samples))
      ensures samples == RecalculateAll(root, pBar, old(samples))
      ensures !requiresRecalculation
      ensures Cached()
    {
      totalInspected, totalDefectives := CountTotals(samples);

      pBar := Div(FromNat(totalDefectives), FromNat(totalInspected));
      pBar := RoundToThreeDecimals(pBar);

      RecalculationIsCached(root, samples);
      samples := RecalculateSamples(root, pBar, samples);

      requiresRecalculation := false;
    }

    method GetTotalInspected() returns (total: nat)
      requires Valid()
      modifies this`samples, this`requiresRecalculation
      modifies this`totalInspected, this`totalDefectives, this`pBar
      ensures Refreshed()
      ensures total == SumInspections(old(samples))
    {
      if requiresRecalculation {
        ReCalculate();
      }
      total := totalInspected;
    }

    method GetTotalDefectives() returns (total: nat)
      requires Valid()
      modifies this`samples, this`requiresRecalculation
      modifies this`totalInspected, this`totalDefectives, this`pBar
      ensures Refreshed()
      ensures total == SumDefectives(old(samples))
    {
      if requiresRecalculation {
        ReCalculate();
      }
      total := totalDefectives;
    }

    /** pBar of all samples; a chart without samples reports zero. */
    method GetPBar() returns (r: Float)
      requires Valid()
      modifies this`samples, this`requiresRecalculation
      modifies this`totalInspected, this`totalDefectives, this`pBar
      ensures Refreshed()
      ensures r == if old(samples) == [] then Zero else PBarOf(old(samples))
    {
      if requiresRecalculation {
        ReCalculate();
      }
      r := pBar;
    }

    method GetProportionDefectiveForSample(i: nat) returns (r: Float)
      requires Valid()
      requires i < |samples|
      modifies this`samples, this`requiresRecalculation
      modifies this`totalInspected, this`totalDefectives, this`pBar
      ensures Refreshed()
      ensures r == Proportion(old(samples)[i])
    {
      if requiresRecalculation {
        ReCalculate();
      }
      r := samples[i].p;
    }

    method GetUpperControlLimitForSample(i: nat) returns (r: Float)
      requires Valid()
      requires i < |samples|
      modifies this`samples, this`requiresRecalculation
      modifies this`totalInspected, this`totalDefectives, this`pBar
      ensures Refreshed()
      ensures r == UpperLimit(root, PBarOf(old(samples)), old(samples)[i].inspections)
    {
      if requiresRecalculation {
        ReCalculate();
      }
      r := samples[i].ucl;
    }

    method GetLowerControlLimitForSample(i: nat) returns (r: Float)
      requires Valid()
      requires i < |samples|
      modifies this`samples, this`requiresRecalculation
      modifies this`totalInspected, this`totalDefectives, this`pBar
      ensures Refreshed()
      ensures r == LowerLimit(root, PBarOf(old(samples)), old(samples)[i].inspections)
      ensures !Less(r, Zero)
    {
      if requiresRecalculation {
        ReCalculate();
      }
      r := samples[i].lcl;
    }
  }

  /** A read after a new sample reports the earlier totals raised by that
      sample's counts, whether or not the chart was current before. */
  method ReadTotalsAfterAddSample(chart: PChart, start: Time, end: Time, inspections: nat, defectives: nat)
    returns (inspected: nat, defective: nat)
    requires chart.Valid()
    modifies chart
    ensures inspected == SumInspections(old(chart.samples)) + inspections
    ensures defective == SumDefectives(old(chart.samples)) + defectives
  {
    ghost var before := chart.samples;
    ghost var sample := Sample(start, end, inspections, defectives, Zero, Zero, Zero);
    chart.AddSample(start, end, inspections, defectives);
    ghost var added := chart.samples;
    SumsOfConcatenation(before, [sample]);
    assert SumInspections([sample]) == inspections && SumDefectives([sample]) == defectives;
    inspected := chart.GetTotalInspected();
    RecalculationKeepsSums(chart.root, PBarOf(added), added);
    defective := chart.GetTotalDefectives();
  }

  /** Reading pBar twice gives the same value: the first read leaves a current
      cache, and recalculating recalculated samples keeps pBar. */
  method ReadPBarTwice(chart: PChart) returns (first: Float, second: Float)
    requires chart.Valid()
    modifies chart
    ensures first == second
    ensures first == if old(chart.samples) == [] then Zero else PBarOf(old(chart.samples))
  {
    ghost var before := chart.samples;
    RecalculationIsIdempotent(chart.root, before);
    first := chart.GetPBar();
    second := chart.GetPBar();
  }

  /** The defectives found in the 22 samples of the package's test chart. */
  const TestDefectives: seq<nat> :=
    [6, 1, 41, 13, 60, 40, 22, 0, 3, 14, 9, 3, 2, 0, 5, 3, 8, 3, 0, 4, 6, 0]

  /** The items inspected in the same samples. */
  const TestInspected: seq<nat> :=
    [92, 36, 212, 86, 172, 448, 564, 48, 594, 530, 188, 15, 97, 36, 65, 54, 82, 67, 18, 52, 72, 96]

  /** Every test sample has inspections and no more defectives than
      inspections. */
  lemma TestSamplesAreConsistent()
    ensures |TestInspected| == |TestDefectives|
    ensures forall k :: 0 <= k < |TestDefectives| ==> TestDefectives[k] <= TestInspected[k] && 0 < TestInspected[k]
  {
  }

  /** The test chart: one sample per hour from noon on 1 January 2020 (UTC). */
  method BuildTestChart(root: SquareRoot) returns (chart: PChart)
    ensures fresh(chart) && chart.Valid() && chart.root == root && chart.requiresRecalculation
    ensures |chart.samples| == |TestDefectives|
    ensures forall i :: 0 <= i < |TestDefectives| ==>
      chart.samples[i].inspections == TestInspected[i] && chart.samples[i].defectives == TestDefectives[i]
  {
    chart := new PChart("Test Part ID", "Test Machine ID", root);
    var start := Time(1_577_880_000_000_000_000);
    var end := After(start, Hour);
    for i := 0 to |TestDefectives|
      invariant chart.Valid() && chart.root == root
      invariant |chart.samples| == i
      invariant i == 0 ==> !chart.requiresRecalculation
      invariant 0 < i ==> chart.requiresRecalculation
      invariant forall k :: 0 <= k < i ==>
        chart.samples[k].inspections == TestInspected[k] && chart.samples[k].defectives == TestDefectives[k]
    {
      ghost var before := chart.samples;
      chart.AddSample(start, end, TestInspected[i], TestDefectives[i]);
      assert forall k :: 0 <= k < i ==> chart.samples[k] == before[k];
      start := end;
      end := After(start, Hour);
    }
  }

  /** Adding the 22 test samples leaves 22 samples in the chart. */
  method TestChartSampleCount(root: SquareRoot) returns (count: nat)
    ensures count == 22
  {
    var chart := BuildTestChart(root);
    count := |chart.samples|;
  }

  /** Every recalculated sample of the test chart has a proportion in
      [0, 1] and limits with 0 <= lcl <= ucl. */
  /** What the test chart's limit reads rely on: every test sample is
      consistent and has inspections, so after recalculation each one reads
      back numeric limits around the same pBar. */
  lemma TestSampleLimits(root: SquareRoot, samples: seq<Sample>, i: nat)
    requires |samples| == |TestDefectives| && i < |samples|
    requires forall k :: 0 <= k < |TestDefectives| ==>
      samples[k].inspections == TestInspected[k] && samples[k].defectives == TestDefectives[k]
    ensures var pBar := PBarOf(samples);
      var all := RecalculateAll(root, pBar, samples);
      var r := Recalculated(root, pBar, samples[i]);
      && PBarOf(all) == pBar && all[i].inspections == samples[i].inspections
      && r.p == Proportion(samples[i])
      && r.p.Finite? && 0.0 <= r.p.v <= 1.0
      && r.ucl == UpperLimit(root, pBar, samples[i].inspections)
      && r.lcl == LowerLimit(root, pBar, samples[i].inspections)
      && r.ucl.Finite? && r.lcl.Finite? && 0.0 <= r.lcl.v <= r.ucl.v
  {
    TestSamplesAreConsistent();
    LimitsAreNumbers(root, samples, i);
    RecalculationIsIdempotent(root, samples);
  }

  method TestChartLimits(root: SquareRoot, i: nat) returns (p: Float, ucl: Float, lcl: Float)
    requires i < |TestDefectives|
    ensures p.Finite? && ucl.Finite? && lcl.Finite?
    ensures 0.0 <= p.v <= 1.0 && 0.0 <= lcl.v <= ucl.v
  {
    var chart := BuildTestChart(root);
    ghost var samples := chart.samples;
    TestSampleLimits(root, samples, i);
    p := chart.GetProportionDefectiveForSample(i);
    ucl := chart.GetUpperControlLimitForSample(i);
    lcl := chart.GetLowerControlLimitForSample(i);
  }
}

