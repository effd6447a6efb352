/**
 * The scores of src/diagnostics/findings.rs and the classification of src/diagnostics/health.rs. Percentages are
 * real numbers.
 */
module Scores {
  import opened Wrappers

  datatype Severity = Low | Medium | High | Critical

  datatype Confidence = LowConfidence | MediumConfidence | HighConfidence

  function SeverityRank(s: Severity): nat {
    match s
    case Low => 0
    case Medium => 1
    case High => 2
    case Critical => 3
  }

  function SeverityOf(score: nat): Severity {
    if score >= 90 then Critical else if score >= 70 then High else if score >= 50 then Medium else Low
  }

  function ConfidenceOf(score: nat): Confidence {
    if score >= 70 then HighConfidence else if score >= 50 then MediumConfidence else LowConfidence
  }

  lemma SeverityFollowsScore(a: nat, b: nat)
    requires a >= b
    ensures SeverityRank(SeverityOf(a)) >= SeverityRank(SeverityOf(b))
  {
  }

  function Clamp(x: real): real { if x < 0.0 then 0.0 else if x > 100.0 then 100.0 else x }

  /** A percentage as a score: clamped and cut. */
  function AsScore(x: real): (score: nat)
    ensures score <= 100
  {
    Clamp(x).Floor
  }

  lemma AsScoreReaches(x: real, k: nat)
    requires 0 < k <= 100
    ensures AsScore(x) >= k <==> x >= k as real
  {
  }

  function StorageScore(freePercent: real): nat {
    if freePercent <= 1.0 then 100 else if freePercent <= 5.0 then 95 else if freePercent <= 10.0 then 80
    else if freePercent <= 20.0 then 60 else 0
  }

  // ---------------------------------------------------------------------------------------------
  // Memory pressure.

  function RootFrom(frac: real, k: nat): (root: nat)
    requires 0.0 <= frac
    ensures root <= k && (root * root) as real <= 10000.0 * frac
    ensures root < k ==> 10000.0 * frac < ((root + 1) * (root + 1)) as real
  {
    if (k * k) as real <= 10000.0 * frac then k else RootFrom(frac, k - 1)
  }

  /** One hundred times the square root, cut to an integer. */
  function RootPercent(frac: real): (root: nat)
    requires 0.0 <= frac
    ensures root <= 100
  {
    RootFrom(frac, 100)
  }

  lemma SquareMonotone(a: nat, b: nat)
    requires a <= b
    ensures a * a <= b * b
  {
  }

  lemma RootMonotone(a: real, b: real)
    requires 0.0 <= a <= b
    ensures RootPercent(a) <= RootPercent(b)
  {
    var k, k' := RootPercent(a), RootPercent(b);
    if k > k' {
      SquareMonotone(k' + 1, k);
      assert false;
    }
  }

  function Fraction(load: real, threshold: real): (frac: real)
    requires threshold < 100.0
    ensures 0.0 <= frac <= 1.0
  {
    var x := (load - threshold) / (100.0 - threshold);
    if x < 0.0 then 0.0 else if x > 1.0 then 1.0 else x
  }

  lemma ScaleOrder(a: real, b: real, d: real)
    requires d > 0.0
    ensures a >= b <==> a * d >= b * d
  {
    assert a * d - b * d == (a - b) * d;
  }

  lemma RatioReaches(a: real, d: real, c: real)
    requires d > 0.0
    ensures a / d >= c <==> a >= c * d
  {
    ScaleOrder(a / d, c, d);
    assert a / d * d == a;
  }

  lemma DivideMonotone(a: real, b: real, d: real)
    requires a <= b && d > 0.0
    ensures a / d <= b / d
  {
    RatioReaches(b, d, a / d);
    assert a / d * d == a;
  }

  lemma FractionMonotone(a: real, b: real, threshold: real)
    requires threshold < 100.0 && a <= b
    ensures Fraction(a, threshold) <= Fraction(b, threshold)
  {
    DivideMonotone(a - threshold, b - threshold, 100.0 - threshold);
  }

  function AvailabilityScore(availablePercent: Option<real>): nat {
    if availablePercent.None? then 0
    else if availablePercent.value <= 5.0 then 90
    else if availablePercent.value <= 10.0 then 80
    else if availablePercent.value <= 15.0 then 60
    else if availablePercent.value <= 20.0 then 40
    else 0
  }

  function MemoryPressureScore(load: real, threshold: real, availablePercent: Option<real>): (score: nat)
    ensures score <= 100
  {
    var ramp := if threshold >= 100.0 then 100 else RootPercent(Fraction(load, threshold));
    var availability := AvailabilityScore(availablePercent);
    if ramp >= availability then ramp else availability
  }

  /** More load and less available memory never score lower. */
  lemma MemoryPressureMonotone(a: real, b: real, threshold: real, more: real, less: real)
    requires a <= b && less <= more
    ensures MemoryPressureScore(a, threshold, Some(more)) <= MemoryPressureScore(b, threshold, Some(less))
  {
    if threshold < 100.0 {
      FractionMonotone(a, b, threshold);
      RootMonotone(Fraction(a, threshold), Fraction(b, threshold));
    }
  }

  lemma FractionFull(load: real, threshold: real)
    requires threshold < 100.0
    ensures Fraction(load, threshold) == 1.0 <==> load >= 100.0
  {
    RatioReaches(load - threshold, 100.0 - threshold, 1.0);
  }

  lemma SquareBelow(n: nat)
    ensures n < 100 ==> (n + 1) * (n + 1) <= 10000
  {
    if n < 100 {
      SquareMonotone(n + 1, 100);
    }
  }

  lemma RootFull(frac: real)
    requires 0.0 <= frac <= 1.0
    ensures RootPercent(frac) == 100 <==> frac == 1.0
  {
    SquareBelow(RootPercent(frac));
  }

  /** Full load, and only full load, scores 100. */
  lemma MemoryPressureFull(load: real, threshold: real, availablePercent: Option<real>)
    requires threshold < 100.0
    ensures MemoryPressureScore(load, threshold, availablePercent) == 100 <==> load >= 100.0
  {
    FractionFull(load, threshold);
    RootFull(Fraction(load, threshold));
  }

  // ---------------------------------------------------------------------------------------------
  // The other scores.

  function AppCpuScore(cpuPercent: real): nat { AsScore(cpuPercent) }

  function Denominator(totalRam: Option<nat>, threshold: nat): nat {
    var quarter := if totalRam.None? then threshold else totalRam.value / 4;
    if quarter >= threshold then quarter else threshold
  }

  function AppMemoryScore(workingSet: nat, totalRam: Option<nat>, threshold: nat): (score: nat)
    ensures score <= 100
  {
    var d := Denominator(totalRam, threshold);
    if d == 0 then 100 else AsScore(workingSet as real / d as real * 100.0)
  }

  /** An application scores 100 when it holds a quarter of the memory and as much as the threshold, and not before. */
  lemma AppMemoryFull(workingSet: nat, totalRam: Option<nat>, threshold: nat)
    ensures AppMemoryScore(workingSet, totalRam, threshold) == 100 <==>
              workingSet >= threshold && (totalRam.Some? ==> workingSet >= totalRam.value / 4)
  {
    var d := Denominator(totalRam, threshold);
    if d > 0 {
      AsScoreReaches(workingSet as real / d as real * 100.0, 100);
      RatioReaches(workingSet as real, d as real, 1.0);
    }
  }

  function MemoryGrowthScore(rate: real, threshold: real): (score: nat)
    ensures score <= 100
  {
    if threshold <= 0.0 then 100 else AsScore(rate / (threshold * 2.0) * 100.0)
  }

  /** A growth at the threshold or above never scores below the medium band. */
  lemma MemoryGrowthAtThreshold(rate: real, threshold: real)
    requires rate >= threshold
    ensures MemoryGrowthScore(rate, threshold) >= 50
  {
    if threshold > 0.0 {
      RatioReaches(rate, threshold * 2.0, 0.5);
      AsScoreReaches(rate / (threshold * 2.0) * 100.0, 50);
    }
  }

  datatype Pressure = HighPressure | ElevatedPressure | OtherPressure

  function ThermalScore(pressure: Pressure): nat {
    match pressure
    case HighPressure => 90
    case ElevatedPressure => 60
    case OtherPressure => 0
  }

  function FrequencyScore(throttlingLikely: bool, reduced: Option<bool>): nat {
    if throttlingLikely then 85 else if reduced == Some(true) then 70 else 0
  }

  datatype DriveStatus = CriticalStatus | WarningStatus | OtherStatus

  function StorageHealthScore(status: Option<DriveStatus>, used: Option<nat>, warning: nat): nat {
    if status == Some(CriticalStatus) then 95
    else if status == Some(WarningStatus) then 70
    else if used.Some? && used.value >= warning then 60
    else 0
  }

  function BatteryScore(health: real, low: real): (score: nat)
    ensures score <= 100
  {
    if low <= 0.0 then 100
    else AsScore((low - (if health < low then health else low)) / low * 100.0)
  }

  /** A battery is flagged once a hundredth of the threshold is missing, not at the threshold itself. */
  lemma BatteryFlagged(health: real, low: real)
    requires low > 0.0
    ensures BatteryScore(health, low) > 0 <==> (low - health) * 100.0 >= low
  {
    var missing := low - (if health < low then health else low);
    AsScoreReaches(missing / low * 100.0, 1);
    RatioReaches(missing, low, 0.01);
  }

  function WifiScore(signal: nat, weak: nat): (score: nat)
    ensures score <= 100
  {
    if weak == 0 then 100
    else AsScore((weak as real - (if signal < weak then signal else weak) as real) / weak as real * 100.0)
  }

  /** The same for a signal. */
  lemma WifiFlagged(signal: nat, weak: nat)
    requires weak > 0
    ensures WifiScore(signal, weak) > 0 <==> (weak - signal) * 100 >= weak
  {
    var missing := weak as real - (if signal < weak then signal else weak) as real;
    AsScoreReaches(missing / weak as real * 100.0, 1);
    RatioReaches(missing, weak as real, 0.01);
  }

  // ---------------------------------------------------------------------------------------------
  // Application groups.

  datatype HealthConfig = HealthConfig(lowDiskFree: nat, highMemoryLoad: real, highCpu: real, highMemory: nat)

  datatype Classification = Classification(highCpu: bool, highMemory: bool, treeOnly: bool)

  function Classify(cpu: Option<real>, own: nat, tree: nat, cfg: HealthConfig): (c: Classification)
    ensures c.highCpu ==> cpu.Some?
    ensures c.treeOnly ==> c.highMemory && own < cfg.highMemory
  {
    var highMemory := tree >= cfg.highMemory;
    Classification(cpu.Some? && cpu.value >= cfg.highCpu, highMemory, highMemory && own < cfg.highMemory)
  }
}
