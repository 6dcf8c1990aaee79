/** The piecewise-linear calibrations of VBUS voltage and current, over any correction tables. */
module Calibration {
  // ----- Current: the raw reading at each true half ampere, from 0 A to 6 A -----

  const CURRENT_POINTS: nat := 13
  const CURRENT_SEGMENTS: nat := 12
  const MAX_CURRENT: real := 6.0

  type CurrentTable = t: seq<real> | |t| == CURRENT_POINTS witness seq(CURRENT_POINTS, i => 0.0)

  function Magnitude(x: real): real {
    if x < 0.0 then -x else x
  }

  function CopySign(magnitude: real, sign: real): real {
    if sign < 0.0 then -magnitude else magnitude
  }

  /** The first segment from `i` on whose upper end is not below the magnitude, or the number of segments. */
  function Segment(t: CurrentTable, m: real, i: nat): (k: nat)
    requires i <= CURRENT_SEGMENTS
    ensures i <= k <= CURRENT_SEGMENTS
    ensures k < CURRENT_SEGMENTS ==> m <= t[k + 1]
    ensures forall j :: i < j <= k ==> t[j] < m
    decreases CURRENT_SEGMENTS - i
  {
    if i == CURRENT_SEGMENTS || m <= t[i + 1] then i else Segment(t, m, i + 1)
  }

  /** The point a fraction of the way along a segment whose raw span is positive. */
  function OnSegment(k: nat, lower: real, upper: real, m: real): real
    requires lower < upper
  {
    k as real * 0.5 + (m - lower) / (upper - lower) * 0.5
  }

  function CalibratedMagnitude(t: CurrentTable, m: real): real {
    if m <= t[0] then 0.0
    else
      var k := Segment(t, m, 0);
      if k == CURRENT_SEGMENTS then MAX_CURRENT else OnSegment(k, t[k], t[k + 1], m)
  }

  function CalibratedCurrent(t: CurrentTable, raw: real): real {
    CopySign(CalibratedMagnitude(t, Magnitude(raw)), raw)
  }

  lemma OnSegmentBounds(k: nat, lower: real, upper: real, m: real)
    requires lower < m <= upper
    ensures k as real * 0.5 < OnSegment(k, lower, upper, m) <= k as real * 0.5 + 0.5
    ensures OnSegment(k, lower, upper, m) == k as real * 0.5 + 0.5 <==> m == upper
  {
    var fraction := (m - lower) / (upper - lower);
    assert fraction * (upper - lower) == m - lower;
    var left := 1.0 - fraction;
    assert left * (upper - lower) == upper - m;
    SignOfProduct(fraction, upper - lower);
    SignOfProduct(left, upper - lower);
  }

  lemma SignOfProduct(x: real, y: real)
    requires y > 0.0
    ensures x > 0.0 <==> x * y > 0.0
    ensures x == 0.0 <==> x * y == 0.0
  {
  }

  lemma OnSegmentMonotone(k: nat, lower: real, upper: real, m: real, n: real)
    requires lower < upper && m <= n
    ensures OnSegment(k, lower, upper, m) <= OnSegment(k, lower, upper, n)
  {
    var f, g := (m - lower) / (upper - lower), (n - lower) / (upper - lower);
    assert (g - f) * (upper - lower) == n - m;
  }

  /** Where a magnitude above the first entry lands: inside its segment, open below and closed above. */
  lemma SegmentValue(t: CurrentTable, m: real)
    requires m > t[0]
    ensures var k := Segment(t, m, 0);
      if k == CURRENT_SEGMENTS then CalibratedMagnitude(t, m) == MAX_CURRENT
      else k as real * 0.5 < CalibratedMagnitude(t, m) <= k as real * 0.5 + 0.5
  {
    var k := Segment(t, m, 0);
    if k < CURRENT_SEGMENTS {
      OnSegmentBounds(k, t[k], t[k + 1], m);
    }
  }

  lemma {:induction false} SegmentMonotone(t: CurrentTable, m: real, n: real, i: nat)
    requires i <= CURRENT_SEGMENTS && m <= n
    ensures Segment(t, m, i) <= Segment(t, n, i)
    decreases CURRENT_SEGMENTS - i
  {
    if i == CURRENT_SEGMENTS || m <= t[i + 1] {
    } else {
      SegmentMonotone(t, m, n, i + 1);
    }
  }

  /** For every table, sorted or not, the calibrated magnitude is bounded and never falls as the raw one rises. */
  lemma CurrentIsMonotone(t: CurrentTable, m: real, n: real)
    requires m <= n
    ensures 0.0 <= CalibratedMagnitude(t, m) <= CalibratedMagnitude(t, n) <= MAX_CURRENT
  {
    if m > t[0] {
      SegmentValue(t, m);
    }
    if n > t[0] {
      SegmentValue(t, n);
    }
    if m > t[0] {
      var k, l := Segment(t, m, 0), Segment(t, n, 0);
      SegmentMonotone(t, m, n, 0);
      if k == l && k < CURRENT_SEGMENTS {
        OnSegmentMonotone(k, t[k], t[k + 1], m, n);
      } else if k < l {
        assert k as real * 0.5 + 0.5 <= l as real * 0.5;
      }
    }
  }

  /** The calibrated current is within 6 A, odd in the raw current and rises with it over the whole range. */
  lemma CurrentKeepsSignAndOrder(t: CurrentTable, a: real, b: real)
    ensures -MAX_CURRENT <= CalibratedCurrent(t, a) <= MAX_CURRENT
    ensures a >= 0.0 ==> CalibratedCurrent(t, a) >= 0.0
    ensures a != 0.0 ==> IsOddAt(t, a)
    ensures a <= b ==> CalibratedCurrent(t, a) <= CalibratedCurrent(t, b)
  {
    hide CalibratedMagnitude;
    var m, n := Magnitude(a), Magnitude(b);
    CurrentIsMonotone(t, m, m);
    CurrentIsMonotone(t, n, n);
    if m <= n {
      CurrentIsMonotone(t, m, n);
    } else {
      CurrentIsMonotone(t, n, m);
    }
  }

  predicate IsOddAt(t: CurrentTable, a: real) {
    CalibratedCurrent(t, -a) == -CalibratedCurrent(t, a)
  }

  /** No current reads as none if and only if the first entry is not negative, and then the curve is odd throughout. */
  lemma CurrentIsOddIff(t: CurrentTable)
    ensures CalibratedMagnitude(t, 0.0) == 0.0 <==> t[0] >= 0.0
    ensures (forall a :: IsOddAt(t, a)) <==> t[0] >= 0.0
  {
    if t[0] < 0.0 {
      SegmentValue(t, 0.0);
      assert !IsOddAt(t, 0.0);
    } else {
      forall a
        ensures IsOddAt(t, a)
      {
        if a != 0.0 {
          CurrentKeepsSignAndOrder(t, a, a);
        }
      }
    }
  }

  /** A table point reads as its own current if and only if every earlier point is below it. */
  lemma PointsReadTrueIffRecord(t: CurrentTable, k: nat)
    requires 0 < k < CURRENT_POINTS
    ensures CalibratedMagnitude(t, t[k]) == k as real * 0.5 <==> forall j :: 0 <= j < k ==> t[j] < t[k]
  {
    if t[k] > t[0] {
      SegmentValue(t, t[k]);
      var s := Segment(t, t[k], 0);
      SegmentFinds(t, t[k], 0, k);
      assert s < k;
      OnSegmentBounds(s, t[s], t[s + 1], t[k]);
      if forall j :: 0 <= j < k ==> t[j] < t[k] {
        assert s + 1 == k;
      } else {
        var j :| 0 <= j < k && t[j] >= t[k];
        SegmentFinds(t, t[k], 0, j);
        assert s as real * 0.5 + 0.5 < k as real * 0.5;
      }
    }
  }

  /** The search stops no later than at a segment that ends at or above the magnitude. */
  lemma {:induction false} SegmentFinds(t: CurrentTable, m: real, i: nat, j: nat)
    requires i < j < CURRENT_POINTS && m <= t[j]
    ensures Segment(t, m, i) < j
    decreases j - i
  {
    if m <= t[i + 1] {
    } else {
      SegmentFinds(t, m, i + 1, j);
    }
  }

  // ----- Voltage: a correction in volts for each raw volt, from 0 V to 60 V -----

  const VOLTAGE_POINTS: nat := 61
  const VOLTAGE_SEGMENTS: nat := 60
  const MIN_CALIBRATED: real := 1.0

  type VoltageTable = t: seq<real> | |t| == VOLTAGE_POINTS witness seq(VOLTAGE_POINTS, i => 0.0)

  function Clamp(v: real): real {
    if v < MIN_CALIBRATED then MIN_CALIBRATED else if v > VOLTAGE_SEGMENTS as real then VOLTAGE_SEGMENTS as real else v
  }

  function Interpolated(t: VoltageTable, v: real): real
    requires MIN_CALIBRATED <= v <= VOLTAGE_SEGMENTS as real
  {
    var i := v.Floor;
    if i >= VOLTAGE_SEGMENTS then v + t[VOLTAGE_SEGMENTS]
    else v + (t[i] + (v - i as real) * (t[i + 1] - t[i]))
  }

  function CalibratedVoltage(t: VoltageTable, raw: real): real {
    if raw < MIN_CALIBRATED then raw else Interpolated(t, Clamp(raw))
  }

  /** From bucket `from` up, no correction falls by more than a volt to the next. */
  predicate FallsGently(t: VoltageTable, from: nat) {
    forall i :: from <= i < VOLTAGE_SEGMENTS ==> t[i] - t[i + 1] <= 1.0
  }

  /** At a whole volt the correction is the table's. */
  lemma WholeVoltsReadTheTable(t: VoltageTable, k: nat)
    requires 1 <= k <= VOLTAGE_SEGMENTS
    ensures CalibratedVoltage(t, k as real) == k as real + t[k]
  {
    assert (k as real).Floor == k;
  }

  /** Within a segment the calibrated voltage is a straight line between the values at its ends. */
  lemma SegmentIsStraight(t: VoltageTable, v: real, i: nat)
    requires 1 <= i < VOLTAGE_SEGMENTS && i as real <= v <= i as real + 1.0
    ensures CalibratedVoltage(t, v) == i as real + t[i] + (v - i as real) * (1.0 + t[i + 1] - t[i])
  {
    if v == i as real + 1.0 {
      WholeVoltsReadTheTable(t, i + 1);
    } else {
      assert v.Floor == i;
    }
  }

  lemma SegmentRises(t: VoltageTable, u: real, v: real, i: nat)
    requires 1 <= i < VOLTAGE_SEGMENTS && i as real <= u <= v <= i as real + 1.0
    requires t[i] - t[i + 1] <= 1.0
    ensures CalibratedVoltage(t, u) <= CalibratedVoltage(t, v)
  {
    hide CalibratedVoltage;
    SegmentIsStraight(t, u, i);
    SegmentIsStraight(t, v, i);
    var slope, step := 1.0 + t[i + 1] - t[i], v - u;
    assert slope >= 0.0;
    if slope > 0.0 {
      SignOfProduct(step, slope);
    }
    assert step * slope == (v - i as real) * slope - (u - i as real) * slope;
  }

  lemma {:induction false} WholeVoltsRise(t: VoltageTable, i: nat, j: nat)
    requires 1 <= i <= j <= VOLTAGE_SEGMENTS && FallsGently(t, 1)
    ensures CalibratedVoltage(t, i as real) <= CalibratedVoltage(t, j as real)
    decreases j - i
  {
    hide CalibratedVoltage;
    if i == j {
    } else {
      SegmentRises(t, i as real, i as real + 1.0, i);
      WholeVoltsRise(t, i + 1, j);
    }
  }

  predicate Ordered(t: VoltageTable, u: real, v: real) {
    u <= v ==> CalibratedVoltage(t, u) <= CalibratedVoltage(t, v)
  }

  lemma VoltageRises(t: VoltageTable, u: real, v: real)
    requires FallsGently(t, 1) && MIN_CALIBRATED <= u <= v
    ensures CalibratedVoltage(t, u) <= CalibratedVoltage(t, v)
  {
    var a, b := Clamp(u), Clamp(v);
    assert CalibratedVoltage(t, u) == CalibratedVoltage(t, a) && CalibratedVoltage(t, v) == CalibratedVoltage(t, b);
    hide CalibratedVoltage;
    var i, j := a.Floor, b.Floor;
    if i == j {
      if i < VOLTAGE_SEGMENTS {
        SegmentRises(t, a, b, i);
      }
    } else {
      SegmentRises(t, a, i as real + 1.0, i);
      WholeVoltsRise(t, i + 1, j);
      if j < VOLTAGE_SEGMENTS {
        SegmentRises(t, j as real, b, j);
      }
    }
  }

  /** The calibrated voltage never falls from 1 V up if and only if the corrections fall gently from bucket 1 up. */
  lemma VoltageIsMonotoneIffGentle(t: VoltageTable)
    ensures FallsGently(t, 1) <==> forall u, v :: MIN_CALIBRATED <= u <= v ==> Ordered(t, u, v)
  {
    if FallsGently(t, 1) {
      forall u, v | MIN_CALIBRATED <= u <= v ensures Ordered(t, u, v) {
        VoltageRises(t, u, v);
      }
    }
    if forall u, v :: MIN_CALIBRATED <= u <= v ==> Ordered(t, u, v) {
      forall i | 1 <= i < VOLTAGE_SEGMENTS ensures t[i] - t[i + 1] <= 1.0 {
        assert Ordered(t, i as real, (i + 1) as real);
        WholeVoltsReadTheTable(t, i);
        WholeVoltsReadTheTable(t, i + 1);
      }
    }
  }

  /** Over the whole range the first correction must not be negative either. */
  lemma VoltageIsMonotoneEverywhereIff(t: VoltageTable)
    ensures FallsGently(t, 1) && t[1] >= 0.0 <==> forall u, v :: u <= v ==> Ordered(t, u, v)
  {
    WholeVoltsReadTheTable(t, 1);
    if FallsGently(t, 1) && t[1] >= 0.0 {
      forall u, v | u <= v ensures Ordered(t, u, v) {
        if u >= MIN_CALIBRATED {
          VoltageRises(t, u, v);
        } else if v >= MIN_CALIBRATED {
          VoltageRises(t, 1.0, v);
        }
      }
    }
    if forall u, v :: u <= v ==> Ordered(t, u, v) {
      VoltageIsMonotoneIffGentle(t);
      var below := if t[1] < -1.0 then 0.0 else 1.0 + t[1] / 2.0;
      assert t[1] < 0.0 ==> !Ordered(t, below, 1.0);
    }
  }
}
