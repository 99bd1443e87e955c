/** The np-chart engine: samples of one fixed size, a single chart-wide pair
    of control limits around npBar, the mean number of defectives per sample.
    The totals and statistics are a cache recomputed on every read once a
    sample exists, because the recalculation never lowers the flag. */
module NPChartEngine {
  import opened Float64
  import opened Clock

  /** One inspected sample of `sampleSize` items. */
  datatype Sample = Sample(start: Time, end: Time, defectives: nat)

  function SumDefectives(samples: seq<Sample>): nat {
    if samples == [] then 0
    else SumDefectives(samples[..|samples| - 1]) + samples[|samples| - 1].defectives
  }

  /** npBar: the mean number of defectives per sample. Without samples the
      division is 0/0 and yields NaN. */
  function NPBarOf(samples: seq<Sample>): (npBar: Float)
    ensures npBar.Finite? <==> samples != []
    ensures npBar.NaN? <==> samples == []
    ensures npBar.Finite? ==> npBar.v * |samples| as real == SumDefectives(samples) as real
  {
    Div(FromNat(SumDefectives(samples)), FromNat(|samples|))
  }

  /** Three standard deviations of the number of defectives in a sample of
      `sampleSize` items, with pBar = npBar / sampleSize. */
  function Spread(root: SquareRoot, npBar: Float, sampleSize: nat): (delta: Float)
    ensures !IsNegative(delta)
  {
    var pBar := Div(npBar, FromNat(sampleSize));
    Mul(Finite(3.0), Sqrt(root, Mul(npBar, Sub(Finite(1.0), pBar))))
  }

  /** The upper control limit npBar + delta; it is never clamped. */
  function UpperLimit(root: SquareRoot, npBar: Float, sampleSize: nat): (ucl: Float)
    ensures npBar.Finite? && Spread(root, npBar, sampleSize).Finite? ==>
      ucl.Finite? && npBar.v <= ucl.v
    ensures var delta := Spread(root, npBar, sampleSize);
      npBar.Finite? && delta.Finite? ==> ucl == Finite(npBar.v + delta.v)
  {
    Add(npBar, Spread(root, npBar, sampleSize))
  }

  /** The lower control limit npBar - delta, raised to zero if negative: it
      is never below zero, and the clamp only ever substitutes zero. */
  function LowerLimit(root: SquareRoot, npBar: Float, sampleSize: nat): (lcl: Float)
    ensures !Less(lcl, Zero)
    ensures lcl == Zero || lcl == Sub(npBar, Spread(root, npBar, sampleSize))
    ensures var raw := Sub(npBar, Spread(root, npBar, sampleSize));
      !Less(raw, Zero) ==> lcl == raw
  {
    var lcl := Sub(npBar, Spread(root, npBar, sampleSize));
    if Less(lcl, Zero) then Zero else lcl
  }

  /** The cached totals and statistics hold what a recalculation computes
      from these samples. */
  ghost predicate IsCache(root: SquareRoot, sampleSize: nat, samples: seq<Sample>,
                          totalInspected: nat, totalDefectives: nat,
                          npBar: Float, ucl: Float, lcl: Float) {
    && totalInspected == sampleSize * |samples|
    && totalDefectives == SumDefectives(samples)
    && npBar == NPBarOf(samples)
    && ucl == UpperLimit(root, npBar, sampleSize)
    && lcl == LowerLimit(root, npBar, sampleSize)
  }

  /** Defectives are additive over consecutive runs of samples. */
  lemma {:induction false} SumDefectivesOfConcatenation(a: seq<Sample>, b: seq<Sample>)
    ensures SumDefectives(a + b) == SumDefectives(a) + SumDefectives(b)
  {
    if b == [] {
      assert a + b == a;
    } else {
      var n := |b|;
      assert (a + b)[..|a + b| - 1] == a + b[..n - 1];
      SumDefectivesOfConcatenation(a, b[..n - 1]);
    }
  }

  /** Appending a sample adds its defectives to the total. */
  lemma SumDefectivesOfAppend(samples: seq<Sample>, s: Sample)
    ensures SumDefectives(samples + [s]) == SumDefectives(samples) + s.defectives
  {
    SumDefectivesOfConcatenation(samples, [s]);
    assert SumDefectives([s]) == s.defectives;
  }

  /** A sample cannot hold more defectives than it has items. */
  predicate Consistent(sampleSize: nat, s: Sample) {
    s.defectives <= sampleSize
  }

  lemma {:induction false} DefectivesBoundedByInspections(sampleSize: nat, samples: seq<Sample>)
    requires forall k :: 0 <= k < |samples| ==> Consistent(sampleSize, samples[k])
    ensures SumDefectives(samples) <= sampleSize * |samples|
  {
    if samples != [] {
      var n := |samples|;
      DefectivesBoundedByInspections(sampleSize, samples[..n - 1]);
      assert sampleSize * n == sampleSize * (n - 1) + sampleSize;
    }
  }

  /** When every sample is consistent, npBar lies between 0 and the sample size. */
  lemma NPBarWithinSampleSize(sampleSize: nat, samples: seq<Sample>)
    requires samples != []
    requires forall k :: 0 <= k < |samples| ==> Consistent(sampleSize, samples[k])
    ensures NPBarOf(samples).Finite?
    ensures 0.0 <= NPBarOf(samples).v <= sampleSize as real
  {
    var total, n := SumDefectives(samples), |samples|;
    DefectivesBoundedByInspections(sampleSize, samples);
    ProductAsReal(sampleSize, n);
    NPBarIsMean(samples);
    MeanWithin(total as real, n as real, sampleSize as real, total as real / n as real);
  }

  lemma NPBarIsMean(samples: seq<Sample>)
    requires samples != []
    ensures NPBarOf(samples) == Finite(SumDefectives(samples) as real / |samples| as real)
  {
  }

  /** With a positive sample size and npBar in [0, sampleSize], the spread is a
      number. */
  lemma SpreadIsNumber(root: SquareRoot, npBar: Float, sampleSize: nat)
    requires 0 < sampleSize
    requires npBar.Finite? && 0.0 <= npBar.v <= sampleSize as real
    ensures Spread(root, npBar, sampleSize).Finite?
  {
    var x := npBar.v;
    var p := x / sampleSize as real;
    QuotientWithinUnit(x, sampleSize as real);
    ProportionIsQuotient(npBar, sampleSize);
    ProductNonNegative(x, 1.0 - p);
    VarianceIsFinite(root, npBar, x, p);
  }

  lemma ProportionIsQuotient(npBar: Float, sampleSize: nat)
    requires 0 < sampleSize && npBar.Finite?
    ensures Div(npBar, FromNat(sampleSize)) == Finite(npBar.v / sampleSize as real)
  {
  }

  lemma VarianceIsFinite(root: SquareRoot, npBar: Float, x: real, p: real)
    requires npBar == Finite(x)
    requires 0.0 <= x * (1.0 - p)
    ensures Sqrt(root, Mul(npBar, Sub(Finite(1.0), Finite(p)))).Finite?
  {
    assert Sub(Finite(1.0), Finite(p)) == Finite(1.0 - p);
    assert Mul(npBar, Finite(1.0 - p)) == Finite(x * (1.0 - p));
  }

  /** Before clamping, the limits lie at the same distance delta >= 0 above
      and below npBar; when no clamping happens the stored limits keep that
      symmetry: ucl - npBar = npBar - lcl. */
  lemma LimitsSymmetricWhenNotClamped(root: SquareRoot, npBar: Float, sampleSize: nat)
    requires npBar.Finite? && Spread(root, npBar, sampleSize).Finite?
    requires !Less(Sub(npBar, Spread(root, npBar, sampleSize)), Zero)
    ensures var delta := Spread(root, npBar, sampleSize);
      var ucl := UpperLimit(root, npBar, sampleSize);
      var lcl := LowerLimit(root, npBar, sampleSize);
      && 0.0 <= delta.v
      && Sub(ucl, npBar) == delta
      && Sub(npBar, lcl) == delta
  {
  }

  /** With a positive sample size, at least one sample and no sample holding
      more defectives than items, every statistic is a number and
      0 <= lcl <= npBar <= ucl. */
  lemma LimitsAreNumbers(root: SquareRoot, sampleSize: nat, samples: seq<Sample>)
    requires 0 < sampleSize && samples != []
    requires forall k :: 0 <= k < |samples| ==> Consistent(sampleSize, samples[k])
    ensures var npBar := NPBarOf(samples);
      var ucl := UpperLimit(root, npBar, sampleSize);
      var lcl := LowerLimit(root, npBar, sampleSize);
      && npBar.Finite? && ucl.Finite? && lcl.Finite?
      && 0.0 <= lcl.v <= npBar.v <= ucl.v
  {
    var npBar := NPBarOf(samples);
    NPBarWithinSampleSize(sampleSize, samples);
    SpreadIsNumber(root, npBar, sampleSize);
    LimitsAroundNumber(root, npBar, sampleSize);
  }

  /** Around a non-negative npBar with a numeric spread, both limits are
      numbers and enclose npBar, the lower one not below zero. */
  lemma LimitsAroundNumber(root: SquareRoot, npBar: Float, sampleSize: nat)
    requires npBar.Finite? && 0.0 <= npBar.v && Spread(root, npBar, sampleSize).Finite?
    ensures var ucl := UpperLimit(root, npBar, sampleSize);
      var lcl := LowerLimit(root, npBar, sampleSize);
      && ucl.Finite? && lcl.Finite?
      && 0.0 <= lcl.v <= npBar.v <= ucl.v
  {
    var delta := Spread(root, npBar, sampleSize);
    var raw := Sub(npBar, delta);
    assert raw == Finite(npBar.v - delta.v);
  }

  /** An np-chart for one characteristic of one part on one machine, with a
      fixed number of items per sample. */
  class NPChart {
    const part: string
    const machine: string
    const characteristic: string
    const sampleSize: nat
    const root: SquareRoot
    var samples: seq<Sample>
    var requiresRecalculation: bool
    var totalInspected: nat
    var totalDefectives: nat
    var npBar: Float
    var lcl: Float
    var ucl: Float

    ghost predicate Cached()
      reads this
    {
      IsCache(root, sampleSize, samples, totalInspected, totalDefectives, npBar, ucl, lcl)
    }

    /** The flag is raised by the first sample and never lowered again; a
        chart without samples still holds zeros. */
    ghost predicate Valid()
      reads this
    {
      && (requiresRecalculation <==> samples != [])
      && (samples == [] ==>
            && totalInspected == 0 && totalDefectives == 0
            && npBar == Zero && lcl == Zero && ucl == Zero)
    }

    /** What every read leaves behind: the samples and the flag as they were,
        and a cache that is current whenever a sample exists. */
    twostate predicate Read()
      reads this
    {
      && Valid()
      && samples == old(samples)
      && requiresRecalculation == old(requiresRecalculation)
      && (samples != [] ==> Cached())
    }

    constructor (part: string, machine: string, characteristic: string, sampleSize: nat, root: SquareRoot)
      ensures this.part == part && this.machine == machine
      ensures this.characteristic == characteristic && this.sampleSize == sampleSize
      ensures this.root == root
      ensures samples == [] && !requiresRecalculation
      ensures Valid()
    {
      this.part := part;
      this.machine := machine;
      this.characteristic := characteristic;
      this.sampleSize := sampleSize;
      this.root := root;
      samples := [];
      requiresRecalculation := false;
      totalInspected, totalDefectives := 0, 0;
      npBar, lcl, ucl := Zero, Zero, Zero;
    }

    method AddSample(start: Time, end: Time, defectives: nat)
      modifies this`samples, this`requiresRecalculation
      ensures samples == old(samples) + [Sample(start, end, defectives)]
      ensures requiresRecalculation
      ensures Valid()
    {
      var sample := Sample(start, end, defectives);
      samples := samples + [sample];
      requiresRecalculation := true;
    }

    /** The loop of a recalculation: `sampleSize` counted once per sample,
        the defectives summed and the samples counted. */
    static method CountTotals(sampleSize: nat, samples: seq<Sample>)
      returns (inspected: nat, defectives: nat, numberOfSamples: nat)
      ensures inspected == sampleSize * |samples|
      ensures defectives == SumDefectives(samples)
      ensures numberOfSamples == |samples|
    {
      inspected, defectives, numberOfSamples := 0, 0, 0;
      for i := 0 to |samples|
        invariant inspected == sampleSize * i
        invariant defectives == SumDefectives(samples[..i])
        invariant numberOfSamples == i
      {
        assert samples[..i + 1][..i] == samples[..i];
        inspected := inspected + sampleSize;
        defectives := defectives + samples[i].defectives;
        numberOfSamples := numberOfSamples + 1;
      }
      assert samples[..|samples|] == samples;
    }

    /** Recomputes the totals, npBar and the clamped limit pair. The flag is
        left as it is. */
    method Recalculate()
      modifies this`totalInspected, this`totalDefectives, this`npBar, this`ucl, this`lcl
      ensures Cached()
    {
      var numberOfSamples;
      totalInspected, totalDefectives, numberOfSamples := CountTotals(sampleSize, samples);

      npBar := Div(FromNat(totalDefectives), FromNat(numberOfSamples));

      var pBar := Div(npBar, FromNat(sampleSize));
      var deltaCL := Mul(Finite(3.0), Sqrt(root, Mul(npBar, Sub(Finite(1.0), pBar))));
      ucl := Add(npBar, deltaCL);
      lcl := Sub(npBar, deltaCL);

      if Less(lcl, Zero) {
        lcl := Zero;
      }
    }

    method GetTotalInspected() returns (total: nat)
      requires Valid()
      modifies this`totalInspected, this`totalDefectives, this`npBar, this`ucl, this`lcl
      ensures Read()
      ensures total == sampleSize * |samples|
    {
      if requiresRecalculation {
        Recalculate();
      }
      total := totalInspected;
    }

    method GetTotalDefectives() returns (total: nat)
      requires Valid()
      modifies this`totalInspected, this`totalDefectives, this`npBar, this`ucl, this`lcl
      ensures Read()
      ensures total == SumDefectives(samples)
    {
      if requiresRecalculation {
        Recalculate();
      }
      total := totalDefectives;
    }

    /** npBar of all samples; a chart without samples reports zero. */
    method GetNPBar() returns (r: Float)
      requires Valid()
      modifies this`totalInspected, this`totalDefectives, this`npBar, this`ucl, this`lcl
      ensures Read()
      ensures r == if samples == [] then Zero else NPBarOf(samples)
    {
      if requiresRecalculation {
        Recalculate();
      }
      r := npBar;
    }

    method GetNumberOfDefectivesForSample(i: nat) returns (r: nat)
      requires Valid()
      requires i < |samples|
      modifies this`totalInspected, this`totalDefectives, this`npBar, this`ucl, this`lcl
      ensures Read()
      ensures r == samples[i].defectives
    {
      if requiresRecalculation {
        Recalculate();
      }
      r := samples[i].defectives;
    }

    method GetUpperControlLimit() returns (r: Float)
      requires Valid()
      modifies this`totalInspected, this`totalDefectives, this`npBar, this`ucl, this`lcl
      ensures Read()
      ensures r == if samples == [] then Zero else UpperLimit(root, NPBarOf(samples), sampleSize)
    {
      if requiresRecalculation {
        Recalculate();
      }
      r := ucl;
    }

    method GetLowerControlLimit() returns (r: Float)
      requires Valid()
      modifies this`totalInspected, this`totalDefectives, this`npBar, this`ucl, this`lcl
      ensures Read()
      ensures r == if samples == [] then Zero else LowerLimit(root, NPBarOf(samples), sampleSize)
      ensures !Less(r, Zero)
    {
      if requiresRecalculation {
        Recalculate();
      }
      r := lcl;
    }
  }

  /** A read after a new sample reports the earlier total of defectives
      raised by that sample's count. */
  method ReadTotalAfterAddSample(chart: NPChart, start: Time, end: Time, defectives: nat) returns (total: nat)
    requires chart.Valid()
    modifies chart
    ensures total == SumDefectives(old(chart.samples)) + defectives
  {
    ghost var before := chart.samples;
    chart.AddSample(start, end, defectives);
    SumDefectivesOfAppend(before, Sample(start, end, defectives));
    total := chart.GetTotalDefectives();
  }

  /** Reading npBar twice gives the same value, although the flag stays
      raised and the second read recalculates again. */
  method ReadNPBarTwice(chart: NPChart) returns (first: Float, second: Float)
    requires chart.Valid()
    modifies chart
    ensures first == second
    ensures first == if old(chart.samples) == [] then Zero else NPBarOf(old(chart.samples))
  {
    first := chart.GetNPBar();
    second := chart.GetNPBar();
  }

  /** The defectives found in the 22 samples of the package's test chart. */
  const TestDefectives: seq<nat> :=
    [2, 4, 4, 3, 6, 2, 3, 0, 0, 3, 1, 5, 4, 7, 3, 2, 4, 1, 0, 5, 3, 1]

  /** The test chart: samples of 50 items, one per hour from noon on
      1 January 2020 (UTC). */
  method BuildTestChart(root: SquareRoot) returns (chart: NPChart)
    ensures fresh(chart) && chart.Valid() && chart.root == root
    ensures chart.sampleSize == 50
    ensures |chart.samples| == |TestDefectives|
    ensures forall i :: 0 <= i < |TestDefectives| ==> chart.samples[i].defectives == TestDefectives[i]
  {
    chart := new NPChart("Test Part ID", "Test Machine ID", "Test Characteristic", 50, root);
    var start := Time(1_577_880_000_000_000_000);
    var end := After(start, Hour);
    for i := 0 to |TestDefectives|
      invariant chart.Valid() && chart.root == root && chart.sampleSize == 50
      invariant |chart.samples| == i
      invariant forall k :: 0 <= k < i ==> chart.samples[k].defectives == TestDefectives[k]
    {
      ghost var before := chart.samples;
      chart.AddSample(start, end, TestDefectives[i]);
      assert forall k :: 0 <= k < i ==> chart.samples[k] == before[k];
      start := end;
      end := After(start, Hour);
    }
  }

  /** The test chart counts 50 items in each of its 22 samples. */
  method TestChartTotalInspected(root: SquareRoot) returns (total: nat)
    ensures total == 1100
  {
    var chart := BuildTestChart(root);
    total := chart.GetTotalInspected();
  }

  /** The test chart reports the defectives of every sample as added. */
  method TestChartDefectivesForSample(root: SquareRoot, i: nat) returns (defectives: nat)
    requires i < |TestDefectives|
    ensures defectives == TestDefectives[i]
  {
    var chart := BuildTestChart(root);
    defectives := chart.GetNumberOfDefectivesForSample(i);
  }
}
