/**
 * The BasicThreshold plugin: turns a field of values into probabilities of
 * lying above (or below) each of a list of thresholds.
 *
 * A plugin is configured once (thresholds, optional fuzzy factor, direction)
 * and validated by its constructor. `Process` rejects input holding a NaN,
 * applies the membership function of module Membership to every grid value
 * for every threshold, stacks one slice per threshold along a new leading
 * axis in configured order, and rewrites the field's metadata.
 *
 * A grid is flattened into one sequence of cells: the map is elementwise,
 * so the grid's shape plays no part beyond its length.
 */
module BasicThreshold {
  import opened Wrappers
  import opened Membership

  /** One grid value: a number, or not-a-number. */
  datatype Cell = Num(value: real) | NaN

  /** The constructor takes one threshold or a list of them. */
  datatype ThresholdArg = Single(value: real) | Many(values: seq<real>)

  /** A configured plugin; it is immutable once built. */
  datatype Plugin = Plugin(thresholds: seq<real>, fuzzyFactor: Option<real>, belowThreshOk: bool)

  /** The constructor's errors (Python raises ValueError for both). */
  datatype ConfigError =
    | InvalidFuzzyFactor(factor: real)   // the factor lies outside (0, 1); it is reported
    | InvalidThresholdWithFuzzyFactor    // a zero threshold with a fuzzy factor

  /** The error `Process` raises: "NaN detected in input cube data". */
  datatype DataError = NaNDetected

  /** The threshold list a constructor argument stands for. */
  function ThresholdList(arg: ThresholdArg): seq<real> {
    match arg
    case Single(t) => [t]
    case Many(ts) => ts
  }

  /** Every threshold of the plugin can be used with its fuzzy factor. */
  predicate Valid(p: Plugin) {
    && (p.fuzzyFactor.Some? ==> ValidFuzzyFactor(p.fuzzyFactor.value))
    && forall i :: 0 <= i < |p.thresholds| ==> Admissible(p.thresholds[i], p.fuzzyFactor)
  }

  /**
   * The constructor. A fuzzy factor outside the open interval (0, 1) is
   * rejected first, naming the factor; then a zero threshold combined with
   * a fuzzy factor. Whatever it accepts is Valid, and it accepts exactly the
   * configurations that are.
   */
  function New(thresholds: ThresholdArg, fuzzyFactor: Option<real>, belowThreshOk: bool)
    : (r: Result<Plugin, ConfigError>)
    ensures r.Ok? <==> Valid(Plugin(ThresholdList(thresholds), fuzzyFactor, belowThreshOk))
    ensures r.Ok? ==> r.value == Plugin(ThresholdList(thresholds), fuzzyFactor, belowThreshOk)
    ensures fuzzyFactor.Some? && !ValidFuzzyFactor(fuzzyFactor.value) ==>
              r == Err(InvalidFuzzyFactor(fuzzyFactor.value))
    ensures fuzzyFactor.Some? && ValidFuzzyFactor(fuzzyFactor.value) && 0.0 in ThresholdList(thresholds) ==>
              r == Err(InvalidThresholdWithFuzzyFactor)
  {
    var ts := ThresholdList(thresholds);
    if fuzzyFactor.Some? && !(0.0 < fuzzyFactor.value < 1.0) then
      Err(InvalidFuzzyFactor(fuzzyFactor.value))
    else if fuzzyFactor.Some? && 0.0 in ts then
      Err(InvalidThresholdWithFuzzyFactor)
    else
      Ok(Plugin(ts, fuzzyFactor, belowThreshOk))
  }

  /** Whether some cell of the grid is NaN (`numpy.isnan(data).any()`). */
  function HasNaN(data: seq<Cell>): (b: bool)
    ensures b <==> exists i :: 0 <= i < |data| && data[i].NaN?
  {
    if data == [] then false
    else if data[0].NaN? then true
    else
      var rest := HasNaN(data[1..]);
      assert forall i :: 1 <= i < |data| ==> data[i] == data[1..][i - 1];
      rest
  }

  /**
   * One output slice: the membership of every grid value for threshold `t`,
   * in grid order.
   */
  function Slice(t: real, fuzzy: Option<real>, below: bool, data: seq<Cell>): (r: seq<real>)
    requires Admissible(t, fuzzy)
    requires !HasNaN(data)
    ensures |r| == |data|
    ensures forall i :: 0 <= i < |r| ==> r[i] == Value(t, fuzzy, below, data[i].value)
  {
    if data == [] then []
    else
      assert data[0].Num?;
      [Value(t, fuzzy, below, data[0].value)] + Slice(t, fuzzy, below, data[1..])
  }

  /**
   * The stacked output: one slice per threshold, slice `k` for threshold
   * `k`, so the new leading axis has one entry per threshold in configured
   * order.
   */
  function Stack(thresholds: seq<real>, fuzzy: Option<real>, below: bool, data: seq<Cell>)
    : (r: seq<seq<real>>)
    requires forall i :: 0 <= i < |thresholds| ==> Admissible(thresholds[i], fuzzy)
    requires !HasNaN(data)
    ensures |r| == |thresholds|
    ensures forall k :: 0 <= k < |r| ==> r[k] == Slice(thresholds[k], fuzzy, below, data)
  {
    if thresholds == [] then []
    else [Slice(thresholds[0], fuzzy, below, data)] + Stack(thresholds[1..], fuzzy, below, data)
  }

  /** Thresholds in increasing order. */
  predicate Ascending(ts: seq<real>) {
    forall k, l :: 0 <= k < l < |ts| ==> ts[k] <= ts[l]
  }

  /**
   * With increasing thresholds (positive ones in fuzzy mode) the slices of
   * the "above" stack never increase at any grid point, and those of the
   * "below" stack never decrease: exceeding a higher threshold is never more
   * likely.
   */
  lemma StackMonotoneInThreshold(thresholds: seq<real>, fuzzy: Option<real>, below: bool,
                                 data: seq<Cell>, k: int, l: int, i: int)
    requires forall j :: 0 <= j < |thresholds| ==> Admissible(thresholds[j], fuzzy)
    requires !HasNaN(data)
    requires Ascending(thresholds)
    requires fuzzy.Some? ==> forall j :: 0 <= j < |thresholds| ==> thresholds[j] > 0.0
    requires 0 <= k < l < |thresholds| && 0 <= i < |data|
    ensures var s := Stack(thresholds, fuzzy, below, data);
            if below then s[k][i] <= s[l][i] else s[k][i] >= s[l][i]
  {
    AboveAntitoneInThreshold(thresholds[k], thresholds[l], fuzzy, data[i].value);
  }

  /** A named coordinate bound to one axis of the field's array. */
  datatype DimCoord = DimCoord(name: string, points: seq<real>, units: string, dim: nat)

  /** A field's descriptive metadata. */
  datatype Metadata = Metadata(name: string, units: string, attributes: map<string, string>,
                               coords: seq<DimCoord>)

  /** An input field: metadata and the flattened grid. */
  datatype Field = Field(meta: Metadata, data: seq<Cell>)

  /** An output field: metadata and one slice per threshold. */
  datatype ProbabilityField = ProbabilityField(meta: Metadata, data: seq<seq<real>>)

  const PROBABILITY_PREFIX := "probability_of_"
  const RELATIVE_TO_THRESHOLD := "relative_to_threshold"
  const DIMENSIONLESS := "1"
  const THRESHOLD_COORD := "threshold"

  /** The value of the `relative_to_threshold` attribute. */
  function Relation(below: bool): string {
    if below then "below" else "above"
  }

  /** The existing coordinates, moved one axis on by the new leading axis. */
  function ShiftDims(coords: seq<DimCoord>): (r: seq<DimCoord>)
    ensures |r| == |coords|
    ensures forall i :: 0 <= i < |r| ==>
              r[i].name == coords[i].name && r[i].points == coords[i].points &&
              r[i].units == coords[i].units && r[i].dim == coords[i].dim + 1
  {
    if coords == [] then []
    else [coords[0].(dim := coords[0].dim + 1)] + ShiftDims(coords[1..])
  }

  /**
   * The output metadata: the name gains the "probability_of_" prefix, the
   * units become dimensionless, `relative_to_threshold` records the
   * direction, every other attribute is kept, and a `threshold` coordinate
   * on the new leading axis holds the thresholds in the INPUT's units, in
   * front of the input's own coordinates.
   */
  function Rewrite(meta: Metadata, thresholds: seq<real>, below: bool): (r: Metadata)
    ensures |r.name| == |PROBABILITY_PREFIX| + |meta.name|
    ensures r.name[..|PROBABILITY_PREFIX|] == PROBABILITY_PREFIX
    ensures r.name[|PROBABILITY_PREFIX|..] == meta.name
    ensures r.units == DIMENSIONLESS
    ensures r.attributes.Keys == meta.attributes.Keys + {RELATIVE_TO_THRESHOLD}
    ensures RELATIVE_TO_THRESHOLD in r.attributes && r.attributes[RELATIVE_TO_THRESHOLD] == Relation(below)
    ensures forall a :: a in meta.attributes && a != RELATIVE_TO_THRESHOLD ==>
              a in r.attributes && r.attributes[a] == meta.attributes[a]
    ensures |r.coords| == |meta.coords| + 1
    ensures r.coords[0] == DimCoord(THRESHOLD_COORD, thresholds, meta.units, 0)
    ensures forall i :: 0 <= i < |meta.coords| ==>
              r.coords[i + 1].name == meta.coords[i].name && r.coords[i + 1].points == meta.coords[i].points &&
              r.coords[i + 1].units == meta.coords[i].units && r.coords[i + 1].dim == meta.coords[i].dim + 1
  {
    Metadata(PROBABILITY_PREFIX + meta.name, DIMENSIONLESS,
             meta.attributes[RELATIVE_TO_THRESHOLD := Relation(below)],
             [DimCoord(THRESHOLD_COORD, thresholds, meta.units, 0)] + ShiftDims(meta.coords))
  }

  /**
   * `process`: fails with NaNDetected, producing nothing, exactly when some
   * cell is NaN; otherwise returns a new field whose slice `k`, cell `i`, is
   * the membership of input cell `i` for threshold `k`, with the rewritten
   * metadata.
   */
  function Process(p: Plugin, field: Field): (r: Result<ProbabilityField, DataError>)
    requires Valid(p)
    ensures r.Err? <==> exists i :: 0 <= i < |field.data| && field.data[i].NaN?
    ensures r.Err? ==> r.error == NaNDetected
    ensures r.Ok? ==> |r.value.data| == |p.thresholds|
    ensures r.Ok? ==> forall k :: 0 <= k < |p.thresholds| ==>
              |r.value.data[k]| == |field.data| &&
              forall i :: 0 <= i < |field.data| ==>
                0.0 <= r.value.data[k][i] <= 1.0 &&
                r.value.data[k][i] == Value(p.thresholds[k], p.fuzzyFactor, p.belowThreshOk, field.data[i].value)
    ensures r.Ok? ==> r.value.meta == Rewrite(field.meta, p.thresholds, p.belowThreshOk)
  {
    if HasNaN(field.data) then Err(NaNDetected)
    else
      Ok(ProbabilityField(Rewrite(field.meta, p.thresholds, p.belowThreshOk),
                          Stack(p.thresholds, p.fuzzyFactor, p.belowThreshOk, field.data)))
  }

  /**
   * One NaN is enough: replacing any single cell of a grid by NaN makes
   * `process` fail, whatever the other cells hold.
   */
  lemma SingleNaNRejected(p: Plugin, field: Field, i: int)
    requires Valid(p) && 0 <= i < |field.data|
    ensures Process(p, field.(data := field.data[i := NaN])) == Err(NaNDetected)
  {
    assert field.data[i := NaN][i].NaN?;
  }

  /**
   * The two directions give complementary stacks: for every threshold and
   * cell, "below" and "above" add up to 1.
   */
  lemma DirectionsComplement(p: Plugin, field: Field, k: int, i: int)
    requires Valid(p) && !HasNaN(field.data)
    requires 0 <= k < |p.thresholds| && 0 <= i < |field.data|
    ensures Process(p.(belowThreshOk := true), field).Ok?
    ensures Process(p.(belowThreshOk := false), field).Ok?
    ensures Process(p.(belowThreshOk := true), field).value.data[k][i] +
            Process(p.(belowThreshOk := false), field).value.data[k][i] == 1.0
  {
    BelowIsComplement(p.thresholds[k], p.fuzzyFactor, field.data[i].value);
  }
}
