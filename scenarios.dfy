/**
 * The plugin's unit-test scenarios, stated as lemmas about the model.
 *
 * The fixture is a 1 x 5 x 5 precipitation field, zero everywhere except
 * 0.5 at grid point [0][2][2], which is cell 12 of the flattened grid.
 */
module Scenarios {
  import opened Wrappers
  import opened Membership
  import opened BasicThreshold

  /** Index of the single non-zero cell, [0][2][2] of the 1 x 5 x 5 grid. */
  const HIT := 12
  const CELLS := 25

  function FixtureData(): (d: seq<Cell>)
    ensures |d| == CELLS && !HasNaN(d)
    ensures d[HIT] == Num(0.5)
    ensures forall i :: 0 <= i < CELLS && i != HIT ==> d[i] == Num(0.0)
  {
    seq(CELLS, i => if i == HIT then Num(0.5) else Num(0.0))
  }

  function FixtureMeta(): Metadata {
    Metadata("precipitation_amount", "kg m^-2 s^-1", map[],
             [DimCoord("time", [402192.5], "hours since 1970-01-01 00:00:00", 0),
              DimCoord("latitude", [-45.0, -22.5, 0.0, 22.5, 45.0], "degrees", 1),
              DimCoord("longitude", [120.0, 135.0, 150.0, 165.0, 180.0], "degrees", 2)])
  }

  function Fixture(): Field {
    Field(FixtureMeta(), FixtureData())
  }

  /** A slice equal to `hit` at the non-zero cell and to `rest` elsewhere. */
  predicate SliceIs(s: seq<real>, hit: real, rest: real) {
    |s| == CELLS && s[HIT] == hit && forall i :: 0 <= i < CELLS && i != HIT ==> s[i] == rest
  }

  /**
   * The plugin built from these arguments processes the fixture into one
   * slice per entry of `expected`, each (hit, rest) as SliceIs says.
   */
  predicate Yields(arg: ThresholdArg, fuzzy: Option<real>, below: bool, expected: seq<(real, real)>) {
    var p := New(arg, fuzzy, below);
    && p.Ok?
    && var out := Process(p.value, Fixture());
    && out.Ok?
    && |out.value.data| == |expected|
    && forall k :: 0 <= k < |expected| ==> SliceIs(out.value.data[k], expected[k].0, expected[k].1)
  }

  /**
   * Yields follows from the membership of the two values the fixture holds,
   * 0.5 and 0.0, for each threshold.
   */
  lemma YieldsFromValues(arg: ThresholdArg, fuzzy: Option<real>, below: bool, expected: seq<(real, real)>)
    requires New(arg, fuzzy, below).Ok?
    requires |ThresholdList(arg)| == |expected|
    requires forall k :: 0 <= k < |expected| ==>
               && Value(ThresholdList(arg)[k], fuzzy, below, 0.5) == expected[k].0
               && Value(ThresholdList(arg)[k], fuzzy, below, 0.0) == expected[k].1
    ensures Yields(arg, fuzzy, below, expected)
  {
    var p := New(arg, fuzzy, below).value;
    var out := Process(p, Fixture());
    var d := FixtureData();
    forall k | 0 <= k < |expected| ensures SliceIs(out.value.data[k], expected[k].0, expected[k].1) {
      assert out.value.data[k][HIT] == Value(p.thresholds[k], fuzzy, below, d[HIT].value);
      forall i | 0 <= i < CELLS && i != HIT ensures out.value.data[k][i] == expected[k].1 {
        assert out.value.data[k][i] == Value(p.thresholds[k], fuzzy, below, d[i].value);
      }
    }
  }

  /** test_metadata_changes, test_threshold_dimension_added. */
  lemma MetadataChanges()
    ensures New(Single(0.1), None, false).Ok?
    ensures var out := Process(New(Single(0.1), None, false).value, Fixture());
            && out.Ok?
            && out.value.meta.name == "probability_of_" + Fixture().meta.name
            && out.value.meta.attributes[RELATIVE_TO_THRESHOLD] == "above"
            && out.value.meta.units == "1"
            && out.value.meta.coords[0] == DimCoord("threshold", [0.1], "kg m^-2 s^-1", 0)
  {
    var p := New(Single(0.1), None, false).value;
    assert p.thresholds == [0.1];
    var meta := Process(p, Fixture()).value.meta;
    assert meta == Rewrite(FixtureMeta(), [0.1], false);
  }

  /** test_threshold: t = 0.1, f = 0.95; the point is past the ramp. */
  lemma FuzzyPastRamp()
    ensures Yields(Single(0.1), Some(0.95), false, [(1.0, 0.0)])
  {
    assert AboveFuzzy(0.1, 0.95, 0.5) == 1.0 && AboveFuzzy(0.1, 0.95, 0.0) == 0.0;
    YieldsFromValues(Single(0.1), Some(0.95), false, [(1.0, 0.0)]);
  }

  /** test_above_threshold_without_fuzzy_factor: t = 0.1, hard step. */
  lemma HardHit()
    ensures Yields(Single(0.1), None, false, [(1.0, 0.0)])
  {
    YieldsFromValues(Single(0.1), None, false, [(1.0, 0.0)]);
  }

  /** test_below_threshold_without_fuzzy_factor: t = 0.6, hard step. */
  lemma HardMiss()
    ensures Yields(Single(0.6), None, false, [(0.0, 0.0)])
  {
    YieldsFromValues(Single(0.6), None, false, [(0.0, 0.0)]);
  }

  /** test_threshold_fuzzy: t = 0.6, f = 0.5; (0.5 - 0.3) / (0.9 - 0.3). */
  lemma FuzzyInside()
    ensures Yields(Single(0.6), Some(0.5), false, [(1.0 / 3.0, 0.0)])
  {
    assert AboveFuzzy(0.6, 0.5, 0.5) == 1.0 / 3.0 && AboveFuzzy(0.6, 0.5, 0.0) == 0.0;
    YieldsFromValues(Single(0.6), Some(0.5), false, [(1.0 / 3.0, 0.0)]);
  }

  /** test_threshold_fuzzy_miss: t = 2.0, f = 0.5; the point is below the ramp. */
  lemma FuzzyMiss()
    ensures Yields(Single(2.0), Some(0.5), false, [(0.0, 0.0)])
  {
    assert AboveFuzzy(2.0, 0.5, 0.5) == 0.0 && AboveFuzzy(2.0, 0.5, 0.0) == 0.0;
    YieldsFromValues(Single(2.0), Some(0.5), false, [(0.0, 0.0)]);
  }

  /** test_threshold_fuzzy_miss_high_threshold: t = 3.0, f = 0.5. */
  lemma FuzzyMissHighThreshold()
    ensures Yields(Single(3.0), Some(0.5), false, [(0.0, 0.0)])
  {
    assert AboveFuzzy(3.0, 0.5, 0.5) == 0.0 && AboveFuzzy(3.0, 0.5, 0.0) == 0.0;
    YieldsFromValues(Single(3.0), Some(0.5), false, [(0.0, 0.0)]);
  }

  /**
   * test_threshold_negative: t = -1.0, f = 0.5, below. The bounds are
   * lower = -0.5 and upper = -1.5, so every cell of the fixture gets
   * "above" 0 and "below" 1.
   */
  lemma NegativeThresholdBelow()
    ensures Lower(-1.0, 0.5) == -0.5 && Upper(-1.0, 0.5) == -1.5
    ensures Yields(Single(-1.0), Some(0.5), true, [(1.0, 1.0)])
  {
    assert AboveFuzzy(-1.0, 0.5, 0.5) == 0.0 && AboveFuzzy(-1.0, 0.5, 0.0) == 0.0;
    YieldsFromValues(Single(-1.0), Some(0.5), true, [(1.0, 1.0)]);
  }

  /** test_threshold_below: t = 0.1, f = 0.5, below. */
  lemma FuzzyBelowPastRamp()
    ensures Yields(Single(0.1), Some(0.5), true, [(0.0, 1.0)])
  {
    assert AboveFuzzy(0.1, 0.5, 0.5) == 1.0 && AboveFuzzy(0.1, 0.5, 0.0) == 0.0;
    YieldsFromValues(Single(0.1), Some(0.5), true, [(0.0, 1.0)]);
  }

  /** test_threshold_below_fuzzy: t = 0.6, f = 0.5, below; 1 - 1/3. */
  lemma FuzzyBelowInside()
    ensures Yields(Single(0.6), Some(0.5), true, [(2.0 / 3.0, 1.0)])
  {
    assert AboveFuzzy(0.6, 0.5, 0.5) == 1.0 / 3.0 && AboveFuzzy(0.6, 0.5, 0.0) == 0.0;
    YieldsFromValues(Single(0.6), Some(0.5), true, [(2.0 / 3.0, 1.0)]);
  }

  /** test_multiple_thresholds: [0.2, 0.4, 0.6], hard step, stacked in order. */
  lemma MultipleThresholds()
    ensures Yields(Many([0.2, 0.4, 0.6]), None, false, [(1.0, 0.0), (1.0, 0.0), (0.0, 0.0)])
  {
    YieldsFromValues(Many([0.2, 0.4, 0.6]), None, false, [(1.0, 0.0), (1.0, 0.0), (0.0, 0.0)]);
  }

  /** test_threshold_below_fuzzy_miss: t = 2.0, f = 0.5, below. */
  lemma FuzzyBelowMiss()
    ensures Yields(Single(2.0), Some(0.5), true, [(1.0, 1.0)])
  {
    assert AboveFuzzy(2.0, 0.5, 0.5) == 0.0 && AboveFuzzy(2.0, 0.5, 0.0) == 0.0;
    YieldsFromValues(Single(2.0), Some(0.5), true, [(1.0, 1.0)]);
  }

  /** test_threshold_point_nan: one NaN cell and `process` fails. */
  lemma PointNaN()
    ensures New(Single(2.0), Some(0.5), true).Ok?
    ensures Process(New(Single(2.0), Some(0.5), true).value,
                    Fixture().(data := FixtureData()[HIT := NaN])) == Err(NaNDetected)
  {
    SingleNaNRejected(New(Single(2.0), Some(0.5), true).value, Fixture(), HIT);
  }

  /** test_threshold_zero_with_fuzzy_factor. */
  lemma ZeroThresholdWithFuzzyFactor()
    ensures New(Single(0.0), Some(0.6), false) == Err(InvalidThresholdWithFuzzyFactor)
  {
  }

  /** test_threshold_fuzzy_factor_minus_1, _0, _1, _2: the factor is named. */
  lemma FuzzyFactorOutOfRange()
    ensures New(Single(0.6), Some(-1.0), false) == Err(InvalidFuzzyFactor(-1.0))
    ensures New(Single(0.6), Some(0.0), false) == Err(InvalidFuzzyFactor(0.0))
    ensures New(Single(0.6), Some(1.0), false) == Err(InvalidFuzzyFactor(1.0))
    ensures New(Single(0.6), Some(2.0), false) == Err(InvalidFuzzyFactor(2.0))
  {
  }
}
