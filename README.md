# BasicThreshold: fuzzy threshold transform

This project models the `BasicThreshold` plugin of IMPROVER (the Met Office
post-processing library). The plugin turns a field of values, such as a
precipitation amount, into one "probability of exceedance" field per
threshold. Each grid value becomes a membership value in [0, 1]:

- Hard mode uses a step at `value >= threshold`.
- Fuzzy mode uses a linear ramp between `lower = t * f` and `upper = t * (2 - f)`, clipped to [0, 1].
- When `below_thresh_ok` is set, the result is the complement `1 - above`.

The plugin stacks one slice per threshold along a new leading axis, in the
configured order. It renames the field `probability_of_<name>`, sets the
`relative_to_threshold` attribute, makes the units dimensionless and adds a
`threshold` coordinate in the input's units.

The behaviour is taken from the plugin's unit-test suite,
`lib/improver/tests/threshold/test_BasicThreshold.py`. The plugin's own
module `lib/improver/threshold.py` is not part of this model. Every number
is an exact `real`.

Files:

- `wrappers.dfy`: the `Option` and `Result` types.
- `membership.dfy` (module `Membership`): the per-value membership function and its properties.
- `basic_threshold.dfy` (module `BasicThreshold`): construction-time validation, the NaN check, slices and stacking, the metadata rewrite and `Process`.
- `scenarios.dfy` (module `Scenarios`): each unit test's fixture and expected output, stated as a lemma. The fixture is a 1 x 5 x 5 grid that is zero except 0.5 at `[0][2][2]`, which is flattened cell 12.

Negative thresholds behave in a way that is easy to miss. With `t < 0` the
bounds come in decreasing order (`upper < t < lower`). The single ramp
formula then has a negative slope, so the fuzzy "above" membership *falls* as
the value rises. It is 0 for every value at or beyond `lower`, where the hard
step reports 1. The test at lines 196-203 pins exactly this: with
`t = -1.0, f = 0.5` and "below", every cell is 1. The model keeps that
behaviour. `Membership.NegativeThresholdInvertsRamp` and
`Membership.AboveMonotone` state it.

## Model

| member | source | states |
|---|---|---|
| `Membership.Clip` | lib/improver/tests/threshold/test_BasicThreshold.py:142-151 | the clipped value lies in [0, 1], is the value itself when that is in [0, 1], and is the point of [0, 1] nearest to the value |
| `Membership.BoundsWidth` | lib/improver/tests/threshold/test_BasicThreshold.py:171-203 | for a non-zero threshold and a factor in (0, 1), `upper - lower = 2 t (1 - f)`, which is never 0; the bounds straddle `t`, increasing for `t > 0` and inverted for `t < 0` |
| `Membership.Value` | lib/improver/tests/threshold/test_BasicThreshold.py:142-247 | every membership value, in either mode and either direction, lies in [0, 1] |
| `Membership.BelowIsComplement` | lib/improver/tests/threshold/test_BasicThreshold.py:205-223 | "below" and "above" memberships add up to 1 for every value, in both modes, with the same bounds |
| `Membership.HardStep` | lib/improver/tests/threshold/test_BasicThreshold.py:153-169 | hard mode gives exactly 1 iff `value >= t` and exactly 0 iff `value < t`; "below" is `1 - above` |
| `Membership.FuzzySaturates` | lib/improver/tests/threshold/test_BasicThreshold.py:142-194 | for `t > 0` the membership is 0 at or below `lower` and 1 at or beyond `upper`; for `t < 0` these regions swap sides |
| `Membership.FuzzyInsideRamp` | lib/improver/tests/threshold/test_BasicThreshold.py:171-178 | strictly between the bounds (in either order) the membership equals `(v - lower) / (upper - lower)` and lies strictly inside (0, 1) |
| `Membership.AboveMonotone` | lib/improver/tests/threshold/test_BasicThreshold.py:142-203 | "above" never decreases as the value rises in hard mode and in fuzzy mode with `t > 0`, and never increases in fuzzy mode with `t < 0` |
| `Membership.FuzzyLipschitz` | lib/improver/tests/threshold/test_BasicThreshold.py:171-178 | continuity: clipping brings two memberships no further apart than their ramps, and the ramp scales distances by exactly `1 / |upper - lower|` |
| `Membership.RampScalesDistance` | lib/improver/tests/threshold/test_BasicThreshold.py:171-178 | the distance between two ramp values, times `|upper - lower|`, is the distance between the two input values |
| `Membership.ClipContracts` | lib/improver/tests/threshold/test_BasicThreshold.py:142-151 | clipping never moves two points further apart |
| `Membership.FuzzyAgreesWithHardOutsideRamp` | lib/improver/tests/threshold/test_BasicThreshold.py:142-161 | for `t > 0`, outside the ramp (`v <= lower` or `v >= upper`) fuzzy and hard "above" coincide |
| `Membership.NegativeThresholdInvertsRamp` | lib/improver/tests/threshold/test_BasicThreshold.py:196-203 | for `t < 0`, at or beyond `lower` the hard step gives 1 but the fuzzy ramp gives 0, and at or below `upper` the reverse |
| `Membership.AboveAntitoneInThreshold` | lib/improver/tests/threshold/test_BasicThreshold.py:225-238 | raising the threshold never raises the "above" membership, in hard mode and in fuzzy mode with positive thresholds |
| `BasicThreshold.New` | lib/improver/tests/threshold/test_BasicThreshold.py:259-293 | construction succeeds iff the configuration is valid; a factor outside (0, 1) gives InvalidFuzzyFactor carrying that factor; otherwise a zero threshold with a factor gives InvalidThresholdWithFuzzyFactor; on success the plugin keeps the thresholds (a single one as a one-element list), the factor and the direction |
| `BasicThreshold.HasNaN` | lib/improver/tests/threshold/test_BasicThreshold.py:249-257 | true iff some cell of the grid is NaN |
| `BasicThreshold.Slice` | lib/improver/tests/threshold/test_BasicThreshold.py:142-169 | one slice has one entry per grid cell, and entry `i` is the membership of cell `i` |
| `BasicThreshold.Stack` | lib/improver/tests/threshold/test_BasicThreshold.py:225-238 | the stack has one slice per threshold, and slice `k` belongs to threshold `k` in configured order |
| `BasicThreshold.StackMonotoneInThreshold` | lib/improver/tests/threshold/test_BasicThreshold.py:225-238 | with ascending thresholds (positive ones in fuzzy mode), "above" slices never increase at any cell down the stack and "below" slices never decrease |
| `BasicThreshold.ShiftDims` | lib/improver/tests/threshold/test_BasicThreshold.py:94-103 | the input's coordinates keep their names, points and units, and each moves one axis on |
| `BasicThreshold.Rewrite` | lib/improver/tests/threshold/test_BasicThreshold.py:113-140 | the name is "probability_of_" followed by the input name; the units are "1"; `relative_to_threshold` is "above" or "below"; every other attribute is kept; coordinate 0 is `threshold` on axis 0 with the configured values in the input's units, followed by the shifted input coordinates |
| `BasicThreshold.Process` | lib/improver/tests/threshold/test_BasicThreshold.py:105-257 | fails with NaNDetected exactly when some cell is NaN; otherwise there is one slice per threshold, each as long as the grid, cell `(k, i)` is the membership of input cell `i` for threshold `k` and lies in [0, 1], and the metadata is rewritten |
| `BasicThreshold.SingleNaNRejected` | lib/improver/tests/threshold/test_BasicThreshold.py:249-257 | setting any one cell of any grid to NaN makes `Process` fail, whatever the other cells hold |
| `BasicThreshold.DirectionsComplement` | lib/improver/tests/threshold/test_BasicThreshold.py:205-247 | for every threshold and cell, the "below" output and the "above" output of `Process` add up to 1 |
| `Scenarios.MetadataChanges` | lib/improver/tests/threshold/test_BasicThreshold.py:113-140 | for threshold 0.1 the output is named "probability_of_" + the fixture's name, `relative_to_threshold` is "above", the units are "1", and the threshold coordinate is [0.1] in "kg m^-2 s^-1" |
| `Scenarios.FuzzyPastRamp` | lib/improver/tests/threshold/test_BasicThreshold.py:142-151 | t = 0.1, f = 0.95: one slice, 1 at the 0.5 cell, 0 elsewhere |
| `Scenarios.HardHit` | lib/improver/tests/threshold/test_BasicThreshold.py:153-161 | t = 0.1, hard: one slice, 1 at the 0.5 cell, 0 elsewhere |
| `Scenarios.HardMiss` | lib/improver/tests/threshold/test_BasicThreshold.py:163-169 | t = 0.6, hard: one slice of zeros |
| `Scenarios.FuzzyInside` | lib/improver/tests/threshold/test_BasicThreshold.py:171-178 | t = 0.6, f = 0.5: 1/3 at the 0.5 cell, 0 elsewhere |
| `Scenarios.FuzzyMiss` | lib/improver/tests/threshold/test_BasicThreshold.py:180-186 | t = 2.0, f = 0.5: one slice of zeros |
| `Scenarios.FuzzyMissHighThreshold` | lib/improver/tests/threshold/test_BasicThreshold.py:188-194 | t = 3.0, f = 0.5: one slice of zeros |
| `Scenarios.NegativeThresholdBelow` | lib/improver/tests/threshold/test_BasicThreshold.py:196-203 | t = -1.0, f = 0.5, below: the bounds are -0.5 and -1.5 and every cell is 1 |
| `Scenarios.FuzzyBelowPastRamp` | lib/improver/tests/threshold/test_BasicThreshold.py:205-213 | t = 0.1, f = 0.5, below: 0 at the 0.5 cell, 1 elsewhere |
| `Scenarios.FuzzyBelowInside` | lib/improver/tests/threshold/test_BasicThreshold.py:215-223 | t = 0.6, f = 0.5, below: 2/3 at the 0.5 cell, 1 elsewhere |
| `Scenarios.MultipleThresholds` | lib/improver/tests/threshold/test_BasicThreshold.py:225-238 | thresholds [0.2, 0.4, 0.6], hard: three slices in that order; the first two are 1 at the 0.5 cell and 0 elsewhere, the third is all zeros |
| `Scenarios.FuzzyBelowMiss` | lib/improver/tests/threshold/test_BasicThreshold.py:240-247 | t = 2.0, f = 0.5, below: every cell is 1 |
| `Scenarios.PointNaN` | lib/improver/tests/threshold/test_BasicThreshold.py:249-257 | with the 0.5 cell replaced by NaN, `Process` fails with NaNDetected |
| `Scenarios.ZeroThresholdWithFuzzyFactor` | lib/improver/tests/threshold/test_BasicThreshold.py:259-265 | threshold 0.0 with factor 0.6 is rejected as InvalidThresholdWithFuzzyFactor |
| `Scenarios.FuzzyFactorOutOfRange` | lib/improver/tests/threshold/test_BasicThreshold.py:267-293 | factors -1.0, 0.0, 1.0 and 2.0 are each rejected as InvalidFuzzyFactor naming that factor |

## Left out

- The string label `__repr__` (lines 45-80). Its text is Python's rendering of a list, a float and `None`, and that rendering has no counterpart in the model.
- The exact text of the error messages. The model keeps only the error kinds, plus the offending factor for an out-of-range fuzzy factor.
- The iris `Cube` container. This covers coordinate-system objects, `cf_units` time units and their calendar, and iris coordinate equality. A field is modelled as a name, a units string, a string attribute map, a list of named coordinates (points, units, axis) and the grid values.
- The grid's shape. The grid is flattened into one sequence because the transform is elementwise. The output's shape `(thresholds, ...)` is the outer sequence of slices. The `reshape(1, 1, 5, 5)` of the tests corresponds to one slice of 25 cells.
- IEEE floating point. Values are exact reals, and NaN is an explicit cell variant. The tests' `assertArrayAlmostEqual` tolerance therefore becomes exact equality, for example exactly 1/3.
- The `isinstance(result, Cube)` check of `test_basic` (lines 105-111). It holds by the result type.
- Empty or repeated threshold lists. The tests do not exercise them, so the constructor accepts them as given. How iris would merge such a stack is not modelled.
- `BasicThreshold.New`: a zero threshold combined with an out-of-range factor is reported as InvalidFuzzyFactor. The tests never combine the two, so the order of the two checks is a modelling choice.
- Hard mode with "below" at `value == t`. It is modelled only as `1 - above`, which gives 0. No test exercises this case, and nothing beyond the complement is claimed.
- Fixture mutation in `setUp` and in the NaN test. This is test scaffolding. The model builds the NaN grid as a new value.
