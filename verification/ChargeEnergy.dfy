/**
 * Integration of VBUS charge and energy: each calibrated sample adds its current, and its power, times the
 * time since the last one, in 64-bit units so small that a residue carries what is below one count. The
 * counters saturate at 32 bits.
 */
module ChargeEnergy {
  import opened Calibration
  import opened Division

  const MAX_COUNT := 0xFFFF_FFFF
  const WRAP := 0x1_0000_0000_0000_0000
  /** Centiampere microseconds in a milliampere hour, and centivolt times that in a milliwatt hour. */
  const CHARGE_DENOMINATOR: nat := 360_000_000
  const ENERGY_DENOMINATOR: nat := 36_000_000_000

  datatype Counter = Counter(count: nat, residue: nat)

  function Add(c: Counter, amount: nat, denominator: nat): Counter
    requires denominator > 0
  {
    if c.count >= MAX_COUNT then c
    else
      var sum := (c.residue + amount) % WRAP;
      if sum / denominator >= MAX_COUNT - c.count then Counter(MAX_COUNT, 0)
      else Counter(c.count + sum / denominator, sum % denominator)
  }

  function Min(a: nat, b: nat): nat {
    if a <= b then a else b
  }

  /** The counter shows the whole counts of a total and holds the rest as its residue, until it saturates. */
  predicate Represents(c: Counter, total: nat, denominator: nat)
    requires denominator > 0
  {
    && c.count == Min(MAX_COUNT, total / denominator)
    && c.residue < denominator
    && (c.count < MAX_COUNT ==> c.residue == total % denominator)
  }

  /** A step keeps the exact total if and only if it was saturated, did not wrap, or saturates even wrapped. */
  lemma StepIsExactIff(c: Counter, total: nat, amount: nat, d: nat)
    requires 0 < d <= WRAP && Represents(c, total, d)
    ensures Represents(Add(c, amount, d), total + amount, d)
      <==> c.count == MAX_COUNT || c.residue + amount < WRAP || (c.residue + amount) % WRAP / d >= MAX_COUNT - c.count
  {
    AddToQuotient(total, amount, d);
    if c.count == MAX_COUNT {
      QuotientGrows(total, total + amount, d);
    } else {
      var sum, wrapped := c.residue + amount, (c.residue + amount) % WRAP;
      assert wrapped <= sum;
      QuotientGrows(wrapped, sum, d);
      if sum >= WRAP {
        WrapLosesAtLeast(sum);
      }
    }
  }

  lemma WrapLosesAtLeast(sum: nat)
    requires sum >= WRAP
    ensures sum >= sum % WRAP + WRAP
  {
    assert sum == WRAP * (sum / WRAP) + sum % WRAP;
  }

  // ----- Samples -----

  datatype Sample = Sample(time: nat, centiV: nat, centiA: nat)

  datatype Accumulator = Accumulator(start: nat, last: nat, charge: Counter, energy: Counter)

  function ResetAt(time: nat): Accumulator {
    Accumulator(time, time, Counter(0, 0), Counter(0, 0))
  }

  function Integrate(a: Accumulator, s: Sample): Accumulator {
    if a.start == 0 || a.last == 0 then a.(start := s.time, last := s.time)
    else if s.time > a.last then
      var delta := s.time - a.last;
      a.(charge := Add(a.charge, s.centiA * delta, CHARGE_DENOMINATOR),
         energy := Add(a.energy, s.centiV * s.centiA * delta, ENERGY_DENOMINATOR), last := s.time)
    else a
  }

  function IntegrateAll(a: Accumulator, samples: seq<Sample>): Accumulator {
    if samples == [] then a
    else Integrate(IntegrateAll(a, samples[..|samples| - 1]), samples[|samples| - 1])
  }

  /** The latest time seen, a reset included. */
  function Latest(reset: nat, samples: seq<Sample>): nat {
    if samples == [] then reset
    else
      var before, time := Latest(reset, samples[..|samples| - 1]), samples[|samples| - 1].time;
      if time > before then time else before
  }

  /** The time the last sample stands for: none if it is not the latest, or if no start is known yet. */
  function Interval(reset: nat, samples: seq<Sample>): nat
    requires samples != []
  {
    var before, time := Latest(reset, samples[..|samples| - 1]), samples[|samples| - 1].time;
    if before == 0 || time <= before then 0 else time - before
  }

  /** The true integral of current over the run, in centiampere microseconds. */
  function TotalCharge(reset: nat, samples: seq<Sample>): nat {
    if samples == [] then 0
    else TotalCharge(reset, samples[..|samples| - 1]) + samples[|samples| - 1].centiA * Interval(reset, samples)
  }

  /** The true integral of power. */
  function TotalEnergy(reset: nat, samples: seq<Sample>): nat {
    if samples == [] then 0
    else
      var s := samples[|samples| - 1];
      TotalEnergy(reset, samples[..|samples| - 1]) + s.centiV * s.centiA * Interval(reset, samples)
  }

  /** No step's increment can overflow 64 bits together with a residue. */
  predicate Fits(reset: nat, samples: seq<Sample>) {
    samples == [] ||
    (var s, interval := samples[|samples| - 1], Interval(reset, samples);
     && Fits(reset, samples[..|samples| - 1])
     && s.centiA * interval + CHARGE_DENOMINATOR <= WRAP
     && s.centiV * s.centiA * interval + ENERGY_DENOMINATOR <= WRAP)
  }

  ghost predicate Conserves(a: Accumulator, reset: nat, samples: seq<Sample>) {
    && a.last == Latest(reset, samples) && (a.start == 0 <==> a.last == 0)
    && Represents(a.charge, TotalCharge(reset, samples), CHARGE_DENOMINATOR)
    && Represents(a.energy, TotalEnergy(reset, samples), ENERGY_DENOMINATOR)
  }

  lemma AddKeeps(c: Counter, total: nat, amount: nat, d: nat)
    requires 0 < d && Represents(c, total, d) && amount + d <= WRAP
    ensures Represents(Add(c, amount, d), total + amount, d)
  {
    StepIsExactIff(c, total, amount, d);
  }

  /** Over every run of samples since a reset, each counter shows exactly the whole counts of the integral. */
  lemma {:induction false} CountersConserve(reset: nat, samples: seq<Sample>)
    requires Fits(reset, samples)
    ensures Conserves(IntegrateAll(ResetAt(reset), samples), reset, samples)
  {
    hide Add, Represents;
    if samples == [] {
      ZeroRepresents(CHARGE_DENOMINATOR);
      ZeroRepresents(ENERGY_DENOMINATOR);
    } else {
      var rest, s := samples[..|samples| - 1], samples[|samples| - 1];
      CountersConserve(reset, rest);
      var a, interval := IntegrateAll(ResetAt(reset), rest), Interval(reset, samples);
      AddKeeps(a.charge, TotalCharge(reset, rest), s.centiA * interval, CHARGE_DENOMINATOR);
      AddKeeps(a.energy, TotalEnergy(reset, rest), s.centiV * s.centiA * interval, ENERGY_DENOMINATOR);
    }
  }

  lemma ZeroRepresents(d: nat)
    requires d > 0
    ensures Represents(Counter(0, 0), 0, d)
  {
    QuotientIsUnique(0, 0, 0, d);
  }

  /** Cutting a sample's interval in two with the same readings changes neither integral, hence neither count. */
  lemma SplittingDoesNotMatter(reset: nat, samples: seq<Sample>, s: Sample, middle: nat)
    requires 0 < Latest(reset, samples) < middle < s.time
    ensures var split := samples + [s.(time := middle)] + [s];
      && TotalCharge(reset, split) == TotalCharge(reset, samples + [s])
      && TotalEnergy(reset, split) == TotalEnergy(reset, samples + [s])
  {
    var whole, half, split := samples + [s], samples + [s.(time := middle)], samples + [s.(time := middle)] + [s];
    assert whole[..|samples|] == samples && half[..|samples|] == samples && split[..|half|] == half;
    var t := Latest(reset, samples);
    var charge, power := s.centiA, s.centiV * s.centiA;
    Distribute(charge, middle - t, s.time - middle);
    Distribute(power, middle - t, s.time - middle);
  }

  lemma Distribute(a: nat, x: nat, y: nat)
    ensures a * x + a * y == a * (x + y)
  {
  }

  /** Longest interval that cannot overflow at 6 A and 70 V: over 46 days. */
  const MAX_INTERVAL: nat := 4_000_000_000_000

  predicate Plausible(reset: nat, samples: seq<Sample>) {
    samples == [] ||
    (var s := samples[|samples| - 1];
     && Plausible(reset, samples[..|samples| - 1])
     && s.centiA <= 600 && s.centiV <= 7000 && Interval(reset, samples) <= MAX_INTERVAL)
  }

  lemma {:induction false} PlausibleRunsFit(reset: nat, samples: seq<Sample>)
    requires Plausible(reset, samples)
    ensures Fits(reset, samples)
  {
    if samples == [] {
    } else {
      PlausibleRunsFit(reset, samples[..|samples| - 1]);
      var s, interval := samples[|samples| - 1], Interval(reset, samples);
      ProductBound(s.centiV, s.centiA, 7000, 600);
      ProductBound(s.centiA, interval, 600, MAX_INTERVAL);
      ProductBound(s.centiV * s.centiA, interval, 7000 * 600, MAX_INTERVAL);
    }
  }

  lemma ProductBound(x: nat, y: nat, a: nat, b: nat)
    requires x <= a && y <= b
    ensures x * y <= a * b
  {
    assert x * y <= a * y <= a * b;
  }

  // ----- From raw readings -----

  /** Below this calibrated voltage VBUS reads as zero. */
  const ZERO_THRESHOLD: real := 1.5

  /** A float converted to an integer drops its fraction, towards zero. */
  function Truncate(x: real): int {
    if x < 0.0 then -(-x).Floor else x.Floor
  }

  function CentiVolts(t: VoltageTable, raw: real): nat {
    var v := CalibratedVoltage(t, raw);
    if v < ZERO_THRESHOLD then 0 else (v * 100.0).Floor
  }

  function CentiAmps(t: CurrentTable, raw: real): nat {
    var c := Truncate(CalibratedCurrent(t, raw) * 100.0);
    if c < 0 then -c else c
  }

  function SampleOf(volts: VoltageTable, amps: CurrentTable, rawVoltage: real, rawCurrent: real, time: nat): Sample {
    Sample(time, CentiVolts(volts, rawVoltage), CentiAmps(amps, rawCurrent))
  }

  /** Any reading through any current table is within 6 A, and the direction does not matter. */
  lemma CentiAmpsBounded(t: CurrentTable, raw: real)
    ensures CentiAmps(t, raw) <= 600
    ensures raw != 0.0 ==> CentiAmps(t, raw) == CentiAmps(t, -raw)
  {
    hide CalibratedMagnitude;
    CurrentIsMonotone(t, Magnitude(raw), Magnitude(raw));
  }

  // ----- The monitor in place -----

  class AnalogMonitor {
    const vBusVoltageCorrectionByRawVolt: array<real>
    const vBusCurrentRawByCalibratedHalfAmp: array<real>
    var accumulationStartTimestampUs: nat
    var lastAccumulationTimestampUs: nat
    var accumulatedChargeMah: nat
    var accumulatedEnergyMwh: nat
    var chargeAccumulationResidue: nat
    var energyAccumulationResidue: nat

    ghost predicate Valid() {
      && vBusVoltageCorrectionByRawVolt.Length == VOLTAGE_POINTS
      && vBusCurrentRawByCalibratedHalfAmp.Length == CURRENT_POINTS
    }

    ghost function Volts(): VoltageTable
      requires Valid()
      reads vBusVoltageCorrectionByRawVolt
    {
      vBusVoltageCorrectionByRawVolt[..]
    }

    ghost function Amps(): CurrentTable
      requires Valid()
      reads vBusCurrentRawByCalibratedHalfAmp
    {
      vBusCurrentRawByCalibratedHalfAmp[..]
    }

    ghost function State(): Accumulator
      reads this
    {
      Accumulator(accumulationStartTimestampUs, lastAccumulationTimestampUs,
                  Counter(accumulatedChargeMah, chargeAccumulationResidue),
                  Counter(accumulatedEnergyMwh, energyAccumulationResidue))
    }

    constructor ()
      ensures Valid() && State() == ResetAt(0)
      ensures Volts() == seq(VOLTAGE_POINTS, i => 0.0)
      ensures Amps() == seq(CURRENT_POINTS, i => i as real * 0.5)
    {
      vBusVoltageCorrectionByRawVolt := new real[VOLTAGE_POINTS](i => 0.0);
      vBusCurrentRawByCalibratedHalfAmp := new real[CURRENT_POINTS](i => i as real * 0.5);
      accumulationStartTimestampUs, lastAccumulationTimestampUs := 0, 0;
      accumulatedChargeMah, accumulatedEnergyMwh := 0, 0;
      chargeAccumulationResidue, energyAccumulationResidue := 0, 0;
    }

    method ResetAccumulatedMeasurements(now: nat)
      modifies this
      ensures State() == ResetAt(now)
    {
      accumulationStartTimestampUs, lastAccumulationTimestampUs := now, now;
      accumulatedChargeMah, accumulatedEnergyMwh := 0, 0;
      chargeAccumulationResidue, energyAccumulationResidue := 0, 0;
    }

    method ApplyVBusVoltageCalibration(rawScaledVoltage: real) returns (volts: real)
      requires Valid()
      ensures volts == CalibratedVoltage(Volts(), rawScaledVoltage)
    {
      if rawScaledVoltage < MIN_CALIBRATED {
        return rawScaledVoltage;
      }
      var clamped := Clamp(rawScaledVoltage);
      var lowerIndex := clamped.Floor;
      if lowerIndex >= VOLTAGE_SEGMENTS {
        return clamped + vBusVoltageCorrectionByRawVolt[VOLTAGE_POINTS - 1];
      }
      var fraction := clamped - lowerIndex as real;
      var lower, upper := vBusVoltageCorrectionByRawVolt[lowerIndex], vBusVoltageCorrectionByRawVolt[lowerIndex + 1];
      return clamped + (lower + fraction * (upper - lower));
    }

    method ApplyVBusCurrentCalibration(rawScaledCurrent: real) returns (amps: real)
      requires Valid()
      ensures amps == CalibratedCurrent(Amps(), rawScaledCurrent)
    {
      hide OnSegment;
      var magnitude := Magnitude(rawScaledCurrent);
      if magnitude <= vBusCurrentRawByCalibratedHalfAmp[0] {
        return CopySign(0.0, rawScaledCurrent);
      }
      for lowerIndex := 0 to CURRENT_SEGMENTS
        invariant magnitude > vBusCurrentRawByCalibratedHalfAmp[lowerIndex]
        invariant Segment(Amps(), magnitude, 0) == Segment(Amps(), magnitude, lowerIndex)
      {
        var lower, upper := vBusCurrentRawByCalibratedHalfAmp[lowerIndex],
          vBusCurrentRawByCalibratedHalfAmp[lowerIndex + 1];
        if magnitude <= upper {
          var calibrated := Interpolate(lowerIndex, lower, upper, magnitude);
          return CopySign(calibrated, rawScaledCurrent);
        }
      }
      return CopySign(MAX_CURRENT, rawScaledCurrent);
    }

    /** The span is never zero or negative: every earlier point is below the magnitude. */
    method Interpolate(lowerIndex: nat, lower: real, upper: real, magnitude: real) returns (calibrated: real)
      requires lower < magnitude <= upper
      ensures calibrated == OnSegment(lowerIndex, lower, upper, magnitude)
    {
      var lowerCalibrated, upperCalibrated := lowerIndex as real * 0.5, (lowerIndex + 1) as real * 0.5;
      var rawSpan := upper - lower;
      if rawSpan <= 0.0 {
        assert false;
      }
      var fraction := (magnitude - lower) / rawSpan;
      return lowerCalibrated + fraction * (upperCalibrated - lowerCalibrated);
    }

    /** Takes in one pair of raw readings, captured at `now`. */
    method ReadVBusValues(rawVoltage: real, rawCurrent: real, now: nat)
      requires Valid()
      modifies this
      ensures State() == Integrate(old(State()), SampleOf(Volts(), Amps(), rawVoltage, rawCurrent, now))
    {
      hide CalibratedVoltage, CalibratedCurrent, Add;
      var vbusVoltage := ApplyVBusVoltageCalibration(rawVoltage);
      if vbusVoltage < ZERO_THRESHOLD {
        vbusVoltage := 0.0;
      }
      var centiV := Truncate(vbusVoltage * 100.0);
      var vBusCurrent := ApplyVBusCurrentCalibration(rawCurrent);
      var centiA := Truncate(vBusCurrent * 100.0);
      if accumulationStartTimestampUs == 0 || lastAccumulationTimestampUs == 0 {
        accumulationStartTimestampUs, lastAccumulationTimestampUs := now, now;
      } else if now > lastAccumulationTimestampUs {
        var delta := now - lastAccumulationTimestampUs;
        Accumulate(if centiV < 0 then 0 else centiV, if centiA < 0 then -centiA else centiA, delta);
        lastAccumulationTimestampUs := now;
      }
    }

    method Accumulate(voltageCentiV: nat, currentCentiA: nat, deltaUs: nat)
      modifies this`accumulatedChargeMah, this`accumulatedEnergyMwh, this`chargeAccumulationResidue,
        this`energyAccumulationResidue
      ensures State().charge == Add(old(State()).charge, currentCentiA * deltaUs, CHARGE_DENOMINATOR)
      ensures State().energy == Add(old(State()).energy, voltageCentiV * currentCentiA * deltaUs, ENERGY_DENOMINATOR)
    {
      hide Add;
      accumulatedChargeMah, chargeAccumulationResidue :=
        AddTo(accumulatedChargeMah, chargeAccumulationResidue, currentCentiA * deltaUs, CHARGE_DENOMINATOR);
      accumulatedEnergyMwh, energyAccumulationResidue :=
        AddTo(accumulatedEnergyMwh, energyAccumulationResidue, voltageCentiV * currentCentiA * deltaUs,
          ENERGY_DENOMINATOR);
    }

    /** The step both counters share. */
    method AddTo(count: nat, residue: nat, amount: nat, denominator: nat) returns (newCount: nat, newResidue: nat)
      requires denominator > 0
      ensures Counter(newCount, newResidue) == Add(Counter(count, residue), amount, denominator)
    {
      newCount, newResidue := count, residue;
      if count < MAX_COUNT {
        newResidue := (newResidue + amount) % WRAP;
        var additional := newResidue / denominator;
        newResidue := newResidue % denominator;
        if additional > 0 {
          if additional >= MAX_COUNT - count {
            newCount, newResidue := MAX_COUNT, 0;
          } else {
            newCount := newCount + additional;
          }
        }
      }
    }
  }
}
