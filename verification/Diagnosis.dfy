/** The ranked diagnosis of a machine in src/diagnostics/system.rs. */
module Diagnosis {
  import opened Wrappers
  import opened Scores
  import opened Sorting
  import opened Lists
  import Text

  datatype Drive = Drive(subject: string, free: nat, total: nat)

  datatype App = App(displayName: string, workingSet: nat, ownWorkingSet: nat, cpu: Option<real>)

  datatype Thermal = Thermal(pressure: Pressure, throttlingLikely: bool, reduced: Option<bool>)

  datatype Device = Device(device: string, status: Option<DriveStatus>, used: Option<nat>)

  datatype Battery = Battery(health: Option<real>)

  datatype Wifi = Wifi(description: string, signal: Option<nat>)

  datatype Evidence = Evidence(
    load: Option<real>, available: Option<nat>, total: Option<nat>, growth: Option<int>,
    drives: seq<Drive>, apps: seq<App>, thermal: Option<Thermal>, devices: seq<Device>,
    battery: Option<Battery>, wifi: seq<Wifi>)

  datatype Config = Config(health: HealthConfig, growth: nat, usedWarning: nat, lowBattery: real, weakWifi: nat)

  datatype Kind =
    | StoragePressure | MemoryPressure | AppHighCpu | AppHighMemory | MemoryGrowth
    | CpuThermalPressure | CpuFrequencyReduced | StorageHealth | BatteryDegraded | WifiWeakSignal

  datatype Category =
    | Storage | SystemMemory | AppCpu | AppMemory | Growth
    | Heat | Frequency | DeviceHealth | BatteryHealth | WifiSignal

  datatype Signal = Signal(kind: Kind, severity: Severity)

  datatype Finding = Finding(rank: nat, category: Category, severity: Severity, confidence: Confidence, score: nat,
    subject: string)

  function KindSeverity(kind: Kind): Severity {
    match kind
    case StoragePressure => High
    case MemoryPressure => High
    case AppHighCpu => Medium
    case AppHighMemory => Medium
    case MemoryGrowth => High
    case CpuThermalPressure => High
    case CpuFrequencyReduced => Medium
    case StorageHealth => High
    case BatteryDegraded => Medium
    case WifiWeakSignal => Low
  }

  function NewSignal(kind: Kind): Signal { Signal(kind, KindSeverity(kind)) }

  function NewFinding(category: Category, score: nat, subject: string): Finding {
    Finding(0, category, SeverityOf(score), ConfidenceOf(score), score, subject)
  }

  /** The signal that a finding is reported to rest on. */
  function CauseKind(f: Finding): Kind {
    match f.category
    case Storage => StoragePressure
    case SystemMemory => MemoryPressure
    case AppCpu => AppHighCpu
    case AppMemory => AppHighMemory
    case Heat => CpuThermalPressure
    case Frequency => CpuFrequencyReduced
    case DeviceHealth => StorageHealth
    case BatteryHealth => BatteryDegraded
    case WifiSignal => WifiWeakSignal
    case _ => MemoryGrowth
  }

  // ---------------------------------------------------------------------------------------------
  // Which evidence is flagged, and how high.

  function PercentFree(d: Drive): real {
    if d.total > 0 then d.free as real / d.total as real * 100.0 else 100.0
  }

  function DriveFindings(cfg: Config): Drive -> seq<Finding> {
    (d: Drive) => if d.free > cfg.health.lowDiskFree then []
      else [NewFinding(Storage, StorageScore(PercentFree(d)), d.subject)]
  }

  function AvailablePercent(available: Option<nat>, total: Option<nat>): Option<real> {
    if available.Some? && total.Some? && total.value > 0
    then Some(available.value as real / total.value as real * 100.0) else None
  }

  function LoadFindings(e: Evidence, cfg: Config): seq<Finding> {
    if e.load.None? || e.load.value < cfg.health.highMemoryLoad then []
    else [NewFinding(SystemMemory,
                     MemoryPressureScore(e.load.value, cfg.health.highMemoryLoad,
                       AvailablePercent(e.available, e.total)),
                     "memory")]
  }

  function GroupMemoryScore(c: Classification, own: nat, tree: nat, total: Option<nat>, cfg: HealthConfig): nat {
    var score := AppMemoryScore(if c.treeOnly then own else tree, total, cfg.highMemory);
    if c.treeOnly && score > 49 then 49 else score
  }

  function AppFindings(total: Option<nat>, cfg: Config): App -> seq<Finding> {
    (a: App) =>
      var c := Classify(a.cpu, a.ownWorkingSet, a.workingSet, cfg.health);
      (if c.highCpu then [NewFinding(AppCpu, AppCpuScore(a.cpu.value), a.displayName)] else [])
      + (if c.highMemory
         then [NewFinding(AppMemory, GroupMemoryScore(c, a.ownWorkingSet, a.workingSet, total, cfg.health),
           a.displayName)]
         else [])
  }

  function GrowthFindings(e: Evidence, cfg: Config): seq<Finding> {
    if e.growth.Some? && e.growth.value > 0 && e.growth.value >= cfg.growth
    then [NewFinding(Growth, MemoryGrowthScore(e.growth.value as real, cfg.growth as real), "system memory")] else []
  }

  function ThermalFindings(e: Evidence): seq<Finding> {
    if e.thermal.None? then [] else
      var t := e.thermal.value;
      (if ThermalScore(t.pressure) > 0 then [NewFinding(Heat, ThermalScore(t.pressure), "cpu_package")] else [])
      + (if FrequencyScore(t.throttlingLikely, t.reduced) > 0
         then [NewFinding(Frequency, FrequencyScore(t.throttlingLikely, t.reduced), "cpu_package")] else [])
  }

  function DeviceFindings(cfg: Config): Device -> seq<Finding> {
    (d: Device) =>
      var score := StorageHealthScore(d.status, d.used, cfg.usedWarning);
      if score == 0 then [] else [NewFinding(DeviceHealth, score, d.device)]
  }

  function BatteryFindings(e: Evidence, cfg: Config): seq<Finding> {
    if e.battery.None? || e.battery.value.health.None? then [] else
      var score := BatteryScore(e.battery.value.health.value, cfg.lowBattery);
      if score > 0 then [NewFinding(BatteryHealth, score, "battery")] else []
  }

  function WifiFindings(cfg: Config): Wifi -> seq<Finding> {
    (w: Wifi) =>
      if w.signal.None? || WifiScore(w.signal.value, cfg.weakWifi) == 0 then []
      else [NewFinding(WifiSignal, WifiScore(w.signal.value, cfg.weakWifi), w.description)]
  }

  /** All findings, in the order in which the evidence is read. */
  function Found(e: Evidence, cfg: Config): seq<Finding> {
    FlatMap(e.drives, DriveFindings(cfg)) + LoadFindings(e, cfg) + FlatMap(e.apps, AppFindings(e.total, cfg))
    + GrowthFindings(e, cfg) + ThermalFindings(e) + FlatMap(e.devices, DeviceFindings(cfg))
    + BatteryFindings(e, cfg) + FlatMap(e.wifi, WifiFindings(cfg))
  }

  function SignalOf(): Finding -> Signal { f => NewSignal(CauseKind(f)) }

  /** Every flag becomes one signal and one finding. */
  ghost predicate Paired(signals: seq<Signal>, findings: seq<Finding>) { signals == Map(findings, SignalOf()) }

  /** Both pushes of a flag. */
  method Push(signals: seq<Signal>, findings: seq<Finding>, kind: Kind, category: Category, score: nat, subject: string)
    returns (signals': seq<Signal>, findings': seq<Finding>)
    requires Paired(signals, findings) && kind == CauseKind(NewFinding(category, score, subject))
    ensures Paired(signals', findings') && findings' == findings + [NewFinding(category, score, subject)]
  {
    signals' := signals + [NewSignal(kind)];
    findings' := findings + [NewFinding(category, score, subject)];
  }

  method FlagDrives(drives: seq<Drive>, cfg: Config) returns (signals: seq<Signal>, findings: seq<Finding>)
    ensures Paired(signals, findings) && findings == FlatMap(drives, DriveFindings(cfg))
  {
    signals, findings := [], [];
    for i := 0 to |drives|
      invariant Paired(signals, findings) && findings == FlatMap(drives[..i], DriveFindings(cfg))
    {
      var d := drives[i];
      FlatMapNext(drives, i, DriveFindings(cfg));
      if d.free > cfg.health.lowDiskFree {
        continue;
      }
      signals, findings := Push(signals, findings, StoragePressure, Storage, StorageScore(PercentFree(d)), d.subject);
    }
    assert drives[..|drives|] == drives;
  }

  method FlagApp(a: App, total: Option<nat>, cfg: Config, signals: seq<Signal>, findings: seq<Finding>)
    returns (signals': seq<Signal>, findings': seq<Finding>)
    requires Paired(signals, findings)
    ensures Paired(signals', findings') && findings' == findings + AppFindings(total, cfg)(a)
  {
    signals', findings' := signals, findings;
    var c := Classify(a.cpu, a.ownWorkingSet, a.workingSet, cfg.health);
    if c.highCpu {
      signals', findings' := Push(signals', findings', AppHighCpu, AppCpu, AppCpuScore(a.cpu.value), a.displayName);
    }
    if c.highMemory {
      var score := AppMemoryScore(if c.treeOnly then a.ownWorkingSet else a.workingSet, total, cfg.health.highMemory);
      if c.treeOnly && score > 49 {
        score := 49;
      }
      signals', findings' := Push(signals', findings', AppHighMemory, AppMemory, score, a.displayName);
    }
  }

  method FlagApps(apps: seq<App>, total: Option<nat>, cfg: Config, signals: seq<Signal>, findings: seq<Finding>)
    returns (signals': seq<Signal>, findings': seq<Finding>)
    requires Paired(signals, findings)
    ensures Paired(signals', findings') && findings' == findings + FlatMap(apps, AppFindings(total, cfg))
  {
    signals', findings' := signals, findings;
    for i := 0 to |apps|
      invariant Paired(signals', findings') && findings' == findings + FlatMap(apps[..i], AppFindings(total, cfg))
    {
      FlatMapNext(apps, i, AppFindings(total, cfg));
      signals', findings' := FlagApp(apps[i], total, cfg, signals', findings');
    }
    assert apps[..|apps|] == apps;
  }

  method FlagDevices(devices: seq<Device>, cfg: Config, signals: seq<Signal>, findings: seq<Finding>)
    returns (signals': seq<Signal>, findings': seq<Finding>)
    requires Paired(signals, findings)
    ensures Paired(signals', findings') && findings' == findings + FlatMap(devices, DeviceFindings(cfg))
  {
    signals', findings' := signals, findings;
    for i := 0 to |devices|
      invariant Paired(signals', findings') && findings' == findings + FlatMap(devices[..i], DeviceFindings(cfg))
    {
      var d := devices[i];
      FlatMapNext(devices, i, DeviceFindings(cfg));
      var score := StorageHealthScore(d.status, d.used, cfg.usedWarning);
      if score == 0 {
        continue;
      }
      signals', findings' := Push(signals', findings', StorageHealth, DeviceHealth, score, d.device);
    }
    assert devices[..|devices|] == devices;
  }

  method FlagWifi(wifi: seq<Wifi>, cfg: Config, signals: seq<Signal>, findings: seq<Finding>)
    returns (signals': seq<Signal>, findings': seq<Finding>)
    requires Paired(signals, findings)
    ensures Paired(signals', findings') && findings' == findings + FlatMap(wifi, WifiFindings(cfg))
  {
    signals', findings' := signals, findings;
    for i := 0 to |wifi|
      invariant Paired(signals', findings') && findings' == findings + FlatMap(wifi[..i], WifiFindings(cfg))
    {
      var w := wifi[i];
      FlatMapNext(wifi, i, WifiFindings(cfg));
      if w.signal.Some? {
        var score := WifiScore(w.signal.value, cfg.weakWifi);
        if score == 0 {
          continue;
        }
        signals', findings' := Push(signals', findings', WifiWeakSignal, WifiSignal, score, w.description);
      }
    }
    assert wifi[..|wifi|] == wifi;
  }

  method FlagLoad(e: Evidence, cfg: Config, signals: seq<Signal>, findings: seq<Finding>)
    returns (signals': seq<Signal>, findings': seq<Finding>)
    requires Paired(signals, findings)
    ensures Paired(signals', findings') && findings' == findings + LoadFindings(e, cfg)
  {
    signals', findings' := signals, findings;
    if e.load.Some? && e.load.value >= cfg.health.highMemoryLoad {
      var score := MemoryPressureScore(e.load.value, cfg.health.highMemoryLoad, AvailablePercent(e.available, e.total));
      signals', findings' := Push(signals, findings, MemoryPressure, SystemMemory, score, "memory");
    }
  }

  method FlagGrowth(e: Evidence, cfg: Config, signals: seq<Signal>, findings: seq<Finding>)
    returns (signals': seq<Signal>, findings': seq<Finding>)
    requires Paired(signals, findings)
    ensures Paired(signals', findings') && findings' == findings + GrowthFindings(e, cfg)
  {
    signals', findings' := signals, findings;
    if e.growth.Some? && e.growth.value > 0 && e.growth.value >= cfg.growth {
      var score := MemoryGrowthScore(e.growth.value as real, cfg.growth as real);
      signals', findings' := Push(signals, findings, MemoryGrowth, Growth, score, "system memory");
    }
  }

  method FlagThermal(e: Evidence, signals: seq<Signal>, findings: seq<Finding>)
    returns (signals': seq<Signal>, findings': seq<Finding>)
    requires Paired(signals, findings)
    ensures Paired(signals', findings') && findings' == findings + ThermalFindings(e)
  {
    signals', findings' := signals, findings;
    if e.thermal.Some? {
      var t := e.thermal.value;
      var pressureScore := ThermalScore(t.pressure);
      if pressureScore > 0 {
        signals', findings' := Push(signals', findings', CpuThermalPressure, Heat, pressureScore, "cpu_package");
      }
      var frequencyScore := FrequencyScore(t.throttlingLikely, t.reduced);
      if frequencyScore > 0 {
        signals', findings' := Push(signals', findings', CpuFrequencyReduced, Frequency, frequencyScore, "cpu_package");
      }
    }
  }

  method FlagBattery(e: Evidence, cfg: Config, signals: seq<Signal>, findings: seq<Finding>)
    returns (signals': seq<Signal>, findings': seq<Finding>)
    requires Paired(signals, findings)
    ensures Paired(signals', findings') && findings' == findings + BatteryFindings(e, cfg)
  {
    signals', findings' := signals, findings;
    if e.battery.Some? && e.battery.value.health.Some? {
      var score := BatteryScore(e.battery.value.health.value, cfg.lowBattery);
      if score > 0 {
        signals', findings' := Push(signals, findings, BatteryDegraded, BatteryHealth, score, "battery");
      }
    }
  }

  method SystemSignalsAndFindings(e: Evidence, cfg: Config) returns (signals: seq<Signal>, findings: seq<Finding>)
    ensures findings == Found(e, cfg)
    ensures Paired(signals, findings)
  {
    signals, findings := FlagDrives(e.drives, cfg);
    signals, findings := FlagLoad(e, cfg, signals, findings);
    signals, findings := FlagApps(e.apps, e.total, cfg, signals, findings);
    signals, findings := FlagGrowth(e, cfg, signals, findings);
    signals, findings := FlagThermal(e, signals, findings);
    signals, findings := FlagDevices(e.devices, cfg, signals, findings);
    signals, findings := FlagBattery(e, cfg, signals, findings);
    signals, findings := FlagWifi(e.wifi, cfg, signals, findings);
  }

  // ---------------------------------------------------------------------------------------------
  // What was checked.

  datatype Dimension =
    | DiskSpace | Memory | Applications | MemoryTrend | CpuHeat | DiskHealth | BatteryWear | WifiStrength

  predicate HasData(e: Evidence, d: Dimension) {
    match d
    case DiskSpace => e.drives != []
    case Memory => e.load.Some?
    case Applications => e.apps != []
    case MemoryTrend => e.growth.Some?
    case CpuHeat => e.thermal.Some?
    case DiskHealth => e.devices != []
    case BatteryWear => e.battery.Some? && e.battery.value.health.Some?
    case WifiStrength => e.wifi != []
  }

  function DimensionOf(kind: Kind): Dimension {
    match kind
    case StoragePressure => DiskSpace
    case MemoryPressure => Memory
    case AppHighCpu => Applications
    case AppHighMemory => Applications
    case MemoryGrowth => MemoryTrend
    case CpuThermalPressure => CpuHeat
    case CpuFrequencyReduced => CpuHeat
    case StorageHealth => DiskHealth
    case BatteryDegraded => BatteryWear
    case WifiWeakSignal => WifiStrength
  }

  predicate HasKind(signals: seq<Signal>, kind: Kind) { exists s :: s in signals && s.kind == kind }

  ghost predicate Signalled(signals: seq<Signal>, d: Dimension) { exists s :: s in signals && DimensionOf(s.kind) == d }

  predicate SignalledByKinds(signals: seq<Signal>, d: Dimension) {
    match d
    case DiskSpace => HasKind(signals, StoragePressure)
    case Memory => HasKind(signals, MemoryPressure)
    case Applications => HasKind(signals, AppHighCpu) || HasKind(signals, AppHighMemory)
    case MemoryTrend => HasKind(signals, MemoryGrowth)
    case CpuHeat => HasKind(signals, CpuThermalPressure) || HasKind(signals, CpuFrequencyReduced)
    case DiskHealth => HasKind(signals, StorageHealth)
    case BatteryWear => HasKind(signals, BatteryDegraded)
    case WifiStrength => HasKind(signals, WifiWeakSignal)
  }

  lemma SignalledMeans(signals: seq<Signal>, d: Dimension)
    ensures SignalledByKinds(signals, d) <==> Signalled(signals, d)
  {
    if Signalled(signals, d) {
      var s :| s in signals && DimensionOf(s.kind) == d;
      assert HasKind(signals, s.kind);
    }
  }

  function Place(d: Dimension): (place: nat)
    ensures place < 8
  {
    match d
    case DiskSpace => 0
    case Memory => 1
    case Applications => 2
    case MemoryTrend => 3
    case CpuHeat => 4
    case DiskHealth => 5
    case BatteryWear => 6
    case WifiStrength => 7
  }

  function DimensionAt(n: nat): (d: Dimension)
    requires n < 8
    ensures Place(d) == n
  {
    if n == 0 then DiskSpace else if n == 1 then Memory else if n == 2 then Applications else if n == 3 then MemoryTrend
    else if n == 4 then CpuHeat else if n == 5 then DiskHealth else if n == 6 then BatteryWear else WifiStrength
  }

  /** The first n dimensions, without those that have no data or a signal. */
  ghost function CleanOf(e: Evidence, signals: seq<Signal>, n: nat): seq<Dimension>
    requires n <= 8
  {
    if n == 0 then [] else
      var d := DimensionAt(n - 1);
      CleanOf(e, signals, n - 1) + (if HasData(e, d) && !SignalledByKinds(signals, d) then [d] else [])
  }

  lemma {:induction false} CleanOfMeans(e: Evidence, signals: seq<Signal>, n: nat)
    requires n <= 8
    ensures forall d :: d in CleanOf(e, signals, n) <==> Place(d) < n && HasData(e, d) && !Signalled(signals, d)
    ensures forall i, j :: 0 <= i < j < |CleanOf(e, signals, n)| ==>
              CleanOf(e, signals, n)[i] != CleanOf(e, signals, n)[j]
  {
    if n > 0 {
      CleanOfMeans(e, signals, n - 1);
      var d := DimensionAt(n - 1);
      SignalledMeans(signals, d);
      assert forall d' :: Place(d') == Place(d) ==> d' == d;
      var before := CleanOf(e, signals, n - 1);
      assert forall i :: 0 <= i < |before| ==> before[i] in before && Place(before[i]) < n - 1;
    }
  }

  method PushIf(clean: seq<Dimension>, isClean: bool, d: Dimension, ghost n: nat, ghost e: Evidence,
      ghost signals: seq<Signal>)
    returns (clean': seq<Dimension>, ghost n': nat)
    requires n == Place(d) && clean == CleanOf(e, signals, n)
               && (isClean <==> HasData(e, d) && !SignalledByKinds(signals, d))
    ensures n' == n + 1 && clean' == CleanOf(e, signals, n')
  {
    clean' := clean;
    if isClean {
      clean' := clean' + [d];
    }
    n' := n + 1;
    assert d == DimensionAt(n);
  }

  /** The first four tests. */
  method CheckSoftware(e: Evidence, signals: seq<Signal>) returns (clean: seq<Dimension>, ghost n: nat)
    ensures n == Place(CpuHeat) && clean == CleanOf(e, signals, n)
  {
    n := 0;
    clean := [];
    clean, n := PushIf(clean, e.drives != [] && !HasKind(signals, StoragePressure), DiskSpace, n, e, signals);
    clean, n := PushIf(clean, e.load.Some? && !HasKind(signals, MemoryPressure), Memory, n, e, signals);
    clean, n := PushIf(clean, e.apps != [] && !HasKind(signals, AppHighCpu) && !HasKind(signals, AppHighMemory),
                       Applications, n, e, signals);
    clean, n := PushIf(clean, e.growth.Some? && !HasKind(signals, MemoryGrowth), MemoryTrend, n, e, signals);
  }

  /** The last four. */
  method CheckHardware(e: Evidence, signals: seq<Signal>, clean': seq<Dimension>, ghost n': nat)
    returns (clean: seq<Dimension>, ghost n: nat)
    requires n' == Place(CpuHeat) && clean' == CleanOf(e, signals, n')
    ensures n == 8 && clean == CleanOf(e, signals, n)
  {
    clean, n := clean', n';
    clean, n := PushIf(clean, e.thermal.Some? && !HasKind(signals, CpuThermalPressure)
      && !HasKind(signals, CpuFrequencyReduced),
                       CpuHeat, n, e, signals);
    clean, n := PushIf(clean, e.devices != [] && !HasKind(signals, StorageHealth), DiskHealth, n, e, signals);
    clean, n := PushIf(clean, e.battery.Some? && e.battery.value.health.Some? && !HasKind(signals, BatteryDegraded),
                       BatteryWear, n, e, signals);
    clean, n := PushIf(clean, e.wifi != [] && !HasKind(signals, WifiWeakSignal), WifiStrength, n, e, signals);
  }

  /** The list of what was measured and found clean: each dimension at most once. */
  method CheckedClean(e: Evidence, signals: seq<Signal>) returns (clean: seq<Dimension>)
    ensures forall d :: d in clean <==> HasData(e, d) && !Signalled(signals, d)
    ensures forall i, j :: 0 <= i < j < |clean| ==> clean[i] != clean[j]
  {
    ghost var n;
    clean, n := CheckSoftware(e, signals);
    clean, n := CheckHardware(e, signals, clean, n);
    CleanOfMeans(e, signals, n);
  }

  /** A finding carries the bands of its score and rests on evidence that is there. */
  ghost predicate WellFounded(e: Evidence, f: Finding) {
    f == NewFinding(f.category, f.score, f.subject) && HasData(e, DimensionOf(CauseKind(f)))
  }

  lemma DriveOrigin(e: Evidence, cfg: Config, f: Finding)
    requires f in FlatMap(e.drives, DriveFindings(cfg))
    ensures WellFounded(e, f) && f.category == Storage
  {
    var _ := FlatMapSource(e.drives, DriveFindings(cfg), f);
  }

  lemma AppOrigin(e: Evidence, cfg: Config, f: Finding)
    requires f in FlatMap(e.apps, AppFindings(e.total, cfg))
    ensures WellFounded(e, f) && (f.category == AppCpu || f.category == AppMemory)
  {
    var _ := FlatMapSource(e.apps, AppFindings(e.total, cfg), f);
  }

  lemma DeviceOrigin(e: Evidence, cfg: Config, f: Finding)
    requires f in FlatMap(e.devices, DeviceFindings(cfg))
    ensures WellFounded(e, f) && f.category == DeviceHealth
  {
    var _ := FlatMapSource(e.devices, DeviceFindings(cfg), f);
  }

  lemma WifiOrigin(e: Evidence, cfg: Config, f: Finding)
    requires f in FlatMap(e.wifi, WifiFindings(cfg))
    ensures WellFounded(e, f) && f.category == WifiSignal
  {
    var _ := FlatMapSource(e.wifi, WifiFindings(cfg), f);
  }

  lemma SingleOrigin(e: Evidence, cfg: Config, f: Finding)
    requires f in LoadFindings(e, cfg) || f in GrowthFindings(e, cfg) || f in ThermalFindings(e)
               || f in BatteryFindings(e, cfg)
    ensures WellFounded(e, f) && f.category in {SystemMemory, Growth, Heat, Frequency, BatteryHealth}
  {
  }

  lemma FoundOrigin(e: Evidence, cfg: Config, f: Finding)
    requires f in Found(e, cfg)
    ensures WellFounded(e, f)
    ensures f.category == AppMemory ==> f in FlatMap(e.apps, AppFindings(e.total, cfg))
  {
    if f in FlatMap(e.drives, DriveFindings(cfg)) {
      DriveOrigin(e, cfg, f);
    } else if f in FlatMap(e.apps, AppFindings(e.total, cfg)) {
      AppOrigin(e, cfg, f);
    } else if f in FlatMap(e.devices, DeviceFindings(cfg)) {
      DeviceOrigin(e, cfg, f);
    } else if f in FlatMap(e.wifi, WifiFindings(cfg)) {
      WifiOrigin(e, cfg, f);
    } else {
      SingleOrigin(e, cfg, f);
    }
  }

  /** A memory finding above the low band comes from an application whose own processes reach the threshold. */
  lemma HeavyAppIsHeavyItself(e: Evidence, cfg: Config, f: Finding) returns (a: App)
    requires f in Found(e, cfg) && f.category == AppMemory && f.severity != Low
    ensures a in e.apps && f in AppFindings(e.total, cfg)(a)
    ensures a.displayName == f.subject && a.ownWorkingSet >= cfg.health.highMemory
  {
    FoundOrigin(e, cfg, f);
    a := FlatMapSource(e.apps, AppFindings(e.total, cfg), f);
  }

  /** What an application whose tree alone is heavy contributes about memory stays low. */
  lemma TreeOnlyStaysLow(a: App, total: Option<nat>, cfg: Config, f: Finding)
    requires Classify(a.cpu, a.ownWorkingSet, a.workingSet, cfg.health).treeOnly
    requires f in AppFindings(total, cfg)(a) && f.category == AppMemory
    ensures f.score <= 49 && f.severity == Low && f.confidence == LowConfidence
  {
  }

  // ---------------------------------------------------------------------------------------------
  // The ranking.

  /** Higher scores first; equal scores by subject. */
  predicate Ahead(score: nat, subject: string, score': nat, subject': string) {
    score > score' || (score == score' && Text.Less(subject, subject'))
  }

  function FindingBefore(): (Finding, Finding) -> bool {
    (a: Finding, b: Finding) => Ahead(a.score, a.subject, b.score, b.subject)
  }

  lemma AheadIsComparator(s: nat, x: string, s': nat, x': string, s'': nat, x'': string)
    ensures !(Ahead(s, x, s', x') && Ahead(s', x', s, x))
    ensures !Ahead(s', x', s, x) && !Ahead(s'', x'', s', x') ==> !Ahead(s'', x'', s, x)
  {
    Text.LessTotal(x, x');
    Text.LessTotal(x', x'');
    Text.LessTotal(x, x'');
    if Text.Less(x'', x) && Text.Less(x, x') {
      Text.LessTransitive(x'', x, x');
    }
    if Text.Less(x', x'') && Text.Less(x'', x) {
      Text.LessTransitive(x', x'', x);
    }
  }

  lemma FindingsCompare()
    ensures Comparator(FindingBefore())
  {
    var before := FindingBefore();
    forall a, b ensures before(a, b) ==> !before(b, a) {
      AheadIsComparator(a.score, a.subject, b.score, b.subject, b.score, b.subject);
    }
    forall a, b, c ensures !before(b, a) && !before(c, b) ==> !before(c, a) {
      AheadIsComparator(a.score, a.subject, b.score, b.subject, c.score, c.subject);
    }
  }

  datatype Report = Report(negative: bool, signals: seq<Signal>, findings: seq<Finding>, causes: seq<Kind>,
    clean: seq<Dimension>)

  function Unranked(): Finding -> Finding { (f: Finding) => f.(rank := 0) }

  function CauseOf(): Finding -> Kind { (f: Finding) => CauseKind(f) }

  function KindOf(): Signal -> Kind { (s: Signal) => s.kind }

  /** Ranks in place, from 1 on. */
  method AssignRanks(sorted: seq<Finding>) returns (findings: seq<Finding>)
    ensures |findings| == |sorted|
    ensures forall i :: 0 <= i < |sorted| ==> findings[i] == sorted[i].(rank := i + 1)
  {
    findings := sorted;
    for i := 0 to |findings|
      invariant |findings| == |sorted|
      invariant forall k :: 0 <= k < |sorted| ==> findings[k] == if k < i then sorted[k].(rank := k + 1) else sorted[k]
    {
      findings := findings[i := findings[i].(rank := i + 1)];
    }
  }

  ghost predicate RankedFrom(findings: seq<Finding>, sorted: seq<Finding>) {
    |findings| == |sorted| && forall i :: 0 <= i < |sorted| ==> findings[i] == sorted[i].(rank := i + 1)
  }

  lemma RankingIsSound(e: Evidence, cfg: Config, sorted: seq<Finding>, findings: seq<Finding>)
    requires sorted == SortBy(Found(e, cfg), FindingBefore()) && RankedFrom(findings, sorted)
    ensures Map(findings, Unranked()) == sorted && multiset(sorted) == multiset(Found(e, cfg))
    ensures forall i :: 0 <= i < |findings| ==>
              sorted[i] in Found(e, cfg) && findings[i].severity == SeverityOf(findings[i].score)
    ensures forall i, j :: 0 <= i < j < |findings| ==> !FindingBefore()(findings[j], findings[i])
  {
    SortKeeps(Found(e, cfg), FindingBefore());
    SortMultiset(Found(e, cfg), FindingBefore());
    FindingsCompare();
    SortOrdered(Found(e, cfg), FindingBefore());
    forall i | 0 <= i < |findings|
      ensures sorted[i] in Found(e, cfg) && sorted[i].rank == 0 && sorted[i].severity == SeverityOf(sorted[i].score)
    {
      assert sorted[i] in sorted;
      FoundOrigin(e, cfg, sorted[i]);
    }
    forall i, j | 0 <= i < j < |findings| ensures !FindingBefore()(findings[j], findings[i]) {
      assert !FindingBefore()(sorted[j], sorted[i]);
    }
  }

  lemma InOrder(findings: seq<Finding>, i: nat, j: nat)
    requires i < j < |findings| && !FindingBefore()(findings[j], findings[i])
    requires findings[i].severity == SeverityOf(findings[i].score)
               && findings[j].severity == SeverityOf(findings[j].score)
    ensures findings[i].score >= findings[j].score
    ensures SeverityRank(findings[i].severity) >= SeverityRank(findings[j].severity)
    ensures findings[i].score == findings[j].score ==> !Text.Less(findings[j].subject, findings[i].subject)
  {
    SeverityFollowsScore(findings[i].score, findings[j].score);
  }

  lemma SignalsMatch(e: Evidence, cfg: Config, signals: seq<Signal>, sorted: seq<Finding>, findings: seq<Finding>)
    requires Paired(signals, Found(e, cfg)) && multiset(sorted) == multiset(Found(e, cfg))
               && RankedFrom(findings, sorted)
    ensures multiset(Map(signals, KindOf())) == multiset(Map(findings, CauseOf()))
    ensures forall k :: k in Map(findings, CauseOf()) ==> HasKind(signals, k)
  {
    var found := Found(e, cfg);
    assert Map(signals, KindOf()) == Map(found, CauseOf());
    assert Map(sorted, CauseOf()) == Map(findings, CauseOf());
    MapMultiset(sorted, found, CauseOf());
    forall k | k in Map(findings, CauseOf()) ensures HasKind(signals, k) {
      assert k in multiset(Map(signals, KindOf()));
      var i :| 0 <= i < |signals| && Map(signals, KindOf())[i] == k;
      assert signals[i] in signals && signals[i].kind == k;
    }
  }

  lemma SignalsHaveData(e: Evidence, cfg: Config, signals: seq<Signal>, d: Dimension)
    requires Paired(signals, Found(e, cfg)) && Signalled(signals, d)
    ensures HasData(e, d)
  {
    var s :| s in signals && DimensionOf(s.kind) == d;
    var i :| 0 <= i < |signals| && signals[i] == s;
    FoundOrigin(e, cfg, Found(e, cfg)[i]);
  }

  method AnalyzeSystem(e: Evidence, cfg: Config) returns (r: Report)
    // The findings are the flags of the evidence, ranked.
    ensures Map(r.findings, Unranked()) == SortBy(Found(e, cfg), FindingBefore())
    ensures multiset(Map(r.findings, Unranked())) == multiset(Found(e, cfg))
    ensures forall i :: 0 <= i < |r.findings| ==> r.findings[i].rank == i + 1
    ensures forall i, j :: 0 <= i < j < |r.findings| ==>
              && r.findings[i].score >= r.findings[j].score
              && SeverityRank(r.findings[i].severity) >= SeverityRank(r.findings[j].severity)
              && (r.findings[i].score == r.findings[j].score ==>
                !Text.Less(r.findings[j].subject, r.findings[i].subject))
    // Findings and signals match one to one, and every cause rests on a signal that is there.
    ensures multiset(Map(r.signals, KindOf())) == multiset(Map(r.findings, CauseOf()))
    ensures r.causes == Map(r.findings, CauseOf()) && forall k :: k in r.causes ==> HasKind(r.signals, k)
    ensures r.negative <==> r.findings == []
    // A dimension with data is either clean or signalled, one without is neither.
    ensures forall d :: if HasData(e, d) then d in r.clean <==> !Signalled(r.signals, d)
                        else d !in r.clean && !Signalled(r.signals, d)
    ensures forall i, j :: 0 <= i < j < |r.clean| ==> r.clean[i] != r.clean[j]
    ensures forall f :: f in r.findings && f.category == AppMemory && f.severity != Low ==>
              exists a :: a in e.apps && f.(rank := 0) in AppFindings(e.total, cfg)(a)
                && a.ownWorkingSet >= cfg.health.highMemory
  {
    var signals, found := SystemSignalsAndFindings(e, cfg);
    var sorted := SortBy(found, FindingBefore());
    var findings := AssignRanks(sorted);
    var clean := CheckedClean(e, signals);
    r := Report(signals == [], signals, findings, Map(findings, CauseOf()), clean);
    RankingIsSound(e, cfg, sorted, findings);
    SignalsMatch(e, cfg, signals, sorted, findings);
    forall i, j | 0 <= i < j < |findings|
      ensures findings[i].score >= findings[j].score
      ensures SeverityRank(findings[i].severity) >= SeverityRank(findings[j].severity)
      ensures findings[i].score == findings[j].score ==> !Text.Less(findings[j].subject, findings[i].subject)
    {
      InOrder(findings, i, j);
    }
    forall d | Signalled(signals, d) ensures HasData(e, d) {
      SignalsHaveData(e, cfg, signals, d);
    }
    forall f | f in findings && f.category == AppMemory && f.severity != Low
      ensures exists a :: a in e.apps && f.(rank := 0) in AppFindings(e.total, cfg)(a)
                && a.ownWorkingSet >= cfg.health.highMemory
    {
      var i :| 0 <= i < |findings| && findings[i] == f;
      var a := HeavyAppIsHeavyItself(e, cfg, sorted[i]);
      assert f.(rank := 0) == Map(findings, Unranked())[i];
    }
  }
}
