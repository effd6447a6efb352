/** The health report of src/tools/health.rs, and its agreement with the ranked diagnosis. */
module HealthReports {
  import opened Wrappers
  import opened Scores
  import opened Sorting
  import opened Lists
  import opened Diagnosis
  import Text

  datatype Status = HighCpuAndMemory | OnlyHighCpu | OnlyHighMemory | Normal

  datatype Group = Group(displayName: string, workingSet: nat, ownWorkingSet: nat, cpu: Option<real>, status: Status)

  datatype DriveInfo = DriveInfo(root: string, free: Option<nat>, total: Option<nat>)

  datatype Resources = Resources(load: Option<real>, available: Option<nat>, total: Option<nat>)

  datatype Issue = Issue(category: Category, subject: string, score: nat, severity: Severity)

  datatype DriveHealth = DriveHealth(drive: string, low: bool)

  function StatusOf(c: Classification): Status {
    if c.highCpu && c.highMemory then HighCpuAndMemory
    else if c.highCpu then OnlyHighCpu
    else if c.highMemory then OnlyHighMemory
    else Normal
  }

  /** `C:\` is shown as `C:`. */
  function DriveLabel(root: string): string {
    if root != "" && (root[|root| - 1] == '\\' || root[|root| - 1] == '/') then DriveLabel(root[..|root| - 1]) else root
  }

  function NewIssue(category: Category, subject: string, score: nat): Issue
  {
    Issue(category, subject, score, SeverityOf(score))
  }

  // ---------------------------------------------------------------------------------------------
  // The issues.

  function Classified(g: Group, cfg: HealthConfig): Classification
  {
    Classify(g.cpu, g.ownWorkingSet, g.workingSet, cfg)
  }

  function AtMost(a: nat, b: nat): nat { if a <= b then a else b }

  function GroupIssues(total: Option<nat>, cfg: HealthConfig): Group -> seq<Issue> {
    (g: Group) =>
      var c := Classified(g, cfg);
      (if c.highCpu then [NewIssue(AppCpu, g.displayName, AppCpuScore(g.cpu.value))] else [])
      + (if !c.highMemory then []
         else if c.treeOnly
         then [NewIssue(AppMemory, g.displayName, AtMost(AppMemoryScore(g.ownWorkingSet, total, cfg.highMemory), 49))]
         else [NewIssue(AppMemory, g.displayName, AppMemoryScore(g.workingSet, total, cfg.highMemory))])
  }

  predicate IsLow(d: DriveInfo, cfg: HealthConfig) { d.free.Some? && d.free.value <= cfg.lowDiskFree }

  /** A full score when the capacity of a low drive is unknown or zero. */
  function DriveIssues(cfg: HealthConfig): DriveInfo -> seq<Issue> {
    (d: DriveInfo) =>
      if !IsLow(d, cfg) then []
      else
        var score := if d.total.Some? && d.total.value > 0
                     then StorageScore(d.free.value as real / d.total.value as real * 100.0) else 100;
        [NewIssue(Storage, DriveLabel(d.root), score)]
  }

  function LoadIssues(r: Resources, cfg: HealthConfig): seq<Issue> {
    if r.load.Some? && r.load.value >= cfg.highMemoryLoad
    then [NewIssue(SystemMemory, "memory",
                   MemoryPressureScore(r.load.value, cfg.highMemoryLoad, AvailablePercent(r.available, r.total)))]
    else []
  }

  function Issues(groups: seq<Group>, r: Resources, drives: seq<DriveInfo>, cfg: HealthConfig): seq<Issue> {
    FlatMap(groups, GroupIssues(r.total, cfg)) + FlatMap(drives, DriveIssues(cfg)) + LoadIssues(r, cfg)
  }

  function IssueBefore(): (Issue, Issue) -> bool
  {
    (a: Issue, b: Issue) => Ahead(a.score, a.subject, b.score, b.subject)
  }

  /** One group: its issues are pushed and its label is returned. */
  method AssessGroup(g: Group, total: Option<nat>, cfg: HealthConfig, issues: seq<Issue>)
    returns (labelled: Group, issues': seq<Issue>)
    ensures issues' == issues + GroupIssues(total, cfg)(g)
    ensures labelled == g.(status := StatusOf(Classified(g, cfg)))
  {
    issues' := issues;
    var c := Classify(g.cpu, g.ownWorkingSet, g.workingSet, cfg);
    labelled := g.(status := StatusOf(c));
    if c.highCpu {
      issues' := issues' + [NewIssue(AppCpu, g.displayName, AppCpuScore(g.cpu.value))];
    }
    if c.highMemory {
      var score := AppMemoryScore(if c.treeOnly then g.ownWorkingSet else g.workingSet, total, cfg.highMemory);
      if c.treeOnly {
        score := AtMost(score, 49);
      }
      issues' := issues' + [NewIssue(AppMemory, g.displayName, score)];
    }
  }

  method GroupsSection(groups: seq<Group>, total: Option<nat>, cfg: HealthConfig)
    returns (labelled: seq<Group>, issues: seq<Issue>)
    ensures issues == FlatMap(groups, GroupIssues(total, cfg)) && |labelled| == |groups|
    ensures forall i :: 0 <= i < |groups| ==> labelled[i] == groups[i].(status := StatusOf(Classified(groups[i], cfg)))
  {
    labelled, issues := groups, [];
    for i := 0 to |groups|
      invariant |labelled| == |groups|
      invariant forall k :: 0 <= k < |groups| ==>
                  labelled[k] == if k < i then groups[k].(status := StatusOf(Classified(groups[k], cfg))) else groups[k]
      invariant issues == FlatMap(groups[..i], GroupIssues(total, cfg))
    {
      FlatMapNext(groups, i, GroupIssues(total, cfg));
      var g;
      g, issues := AssessGroup(labelled[i], total, cfg, issues);
      labelled := labelled[i := g];
    }
    assert groups[..|groups|] == groups;
  }

  method AssessDrive(d: DriveInfo, cfg: HealthConfig, issues: seq<Issue>)
    returns (health: DriveHealth, issues': seq<Issue>)
    ensures issues' == issues + DriveIssues(cfg)(d)
    ensures health == DriveHealth(DriveLabel(d.root), IsLow(d, cfg))
  {
    issues' := issues;
    var low := d.free.Some? && d.free.value <= cfg.lowDiskFree;
    if low {
      var score := 100;
      if d.total.Some? && d.total.value > 0 {
        score := StorageScore(d.free.value as real / d.total.value as real * 100.0);
      }
      issues' := issues' + [NewIssue(Storage, DriveLabel(d.root), score)];
    }
    health := DriveHealth(DriveLabel(d.root), low);
  }

  method DrivesSection(drives: seq<DriveInfo>, cfg: HealthConfig) returns (health: seq<DriveHealth>, issues: seq<Issue>)
    ensures issues == FlatMap(drives, DriveIssues(cfg)) && |health| == |drives|
    ensures forall i :: 0 <= i < |drives| ==>
              health[i] == DriveHealth(DriveLabel(drives[i].root), IsLow(drives[i], cfg))
  {
    health, issues := [], [];
    for i := 0 to |drives|
      invariant |health| == i && issues == FlatMap(drives[..i], DriveIssues(cfg))
      invariant forall k :: 0 <= k < i ==> health[k] == DriveHealth(DriveLabel(drives[k].root), IsLow(drives[k], cfg))
    {
      FlatMapNext(drives, i, DriveIssues(cfg));
      var h;
      h, issues := AssessDrive(drives[i], cfg, issues);
      health := health + [h];
    }
    assert drives[..|drives|] == drives;
  }

  method CollectIssues(groups: seq<Group>, r: Resources, drives: seq<DriveInfo>, cfg: HealthConfig)
    returns (labelled: seq<Group>, pressure: bool, health: seq<DriveHealth>, raw: seq<Issue>)
    ensures raw == Issues(groups, r, drives, cfg) && |labelled| == |groups| && |health| == |drives|
    ensures forall i :: 0 <= i < |groups| ==> labelled[i] == groups[i].(status := StatusOf(Classified(groups[i], cfg)))
    ensures forall i :: 0 <= i < |drives| ==>
              health[i] == DriveHealth(DriveLabel(drives[i].root), IsLow(drives[i], cfg))
    ensures pressure <==> r.load.Some? && r.load.value >= cfg.highMemoryLoad
  {
    var groupIssues, driveIssues;
    labelled, groupIssues := GroupsSection(groups, r.total, cfg);
    health, driveIssues := DrivesSection(drives, cfg);
    raw := groupIssues + driveIssues;
    pressure := r.load.Some? && r.load.value >= cfg.highMemoryLoad;
    if pressure {
      var score := MemoryPressureScore(r.load.value, cfg.highMemoryLoad, AvailablePercent(r.available, r.total));
      raw := raw + [NewIssue(SystemMemory, "memory", score)];
    }
  }

  lemma IssuesCompare()
    ensures Comparator(IssueBefore())
  {
    var before := IssueBefore();
    forall a, b ensures before(a, b) ==> !before(b, a) {
      AheadIsComparator(a.score, a.subject, b.score, b.subject, b.score, b.subject);
    }
    forall a, b, c ensures !before(b, a) && !before(c, b) ==> !before(c, a) {
      AheadIsComparator(a.score, a.subject, b.score, b.subject, c.score, c.subject);
    }
  }

  lemma IssuesAreSorted(raw: seq<Issue>)
    ensures var issues := SortBy(raw, IssueBefore());
      && multiset(issues) == multiset(raw)
      && Ordered(issues, IssueBefore())
      && forall i, j :: 0 <= i < j < |issues| ==>
              && issues[i].score >= issues[j].score
              && (issues[i].score == issues[j].score ==> !Text.Less(issues[j].subject, issues[i].subject))
  {
    IssuesCompare();
    SortMultiset(raw, IssueBefore());
    SortOrdered(raw, IssueBefore());
    var issues := SortBy(raw, IssueBefore());
    forall i, j | 0 <= i < j < |issues|
      ensures issues[i].score >= issues[j].score
      ensures issues[i].score == issues[j].score ==> !Text.Less(issues[j].subject, issues[i].subject)
    {
      assert !IssueBefore()(issues[j], issues[i]);
    }
  }

  lemma PressureIsListed(groups: seq<Group>, r: Resources, drives: seq<DriveInfo>, cfg: HealthConfig)
    ensures (r.load.Some? && r.load.value >= cfg.highMemoryLoad)
            <==> exists i :: i in Issues(groups, r, drives, cfg) && i.category == SystemMemory
  {
    if r.load.Some? && r.load.value >= cfg.highMemoryLoad {
      assert LoadIssues(r, cfg)[0] in Issues(groups, r, drives, cfg);
    }
    forall i | i in FlatMap(groups, GroupIssues(r.total, cfg)) ensures i.category != SystemMemory {
      var _ := FlatMapSource(groups, GroupIssues(r.total, cfg), i);
    }
    forall i | i in FlatMap(drives, DriveIssues(cfg)) ensures i.category != SystemMemory {
      var _ := FlatMapSource(drives, DriveIssues(cfg), i);
    }
  }

  method BuildHealthReport(groups: seq<Group>, r: Resources, drives: seq<DriveInfo>, cfg: HealthConfig)
    returns (labelled: seq<Group>, pressure: bool, health: seq<DriveHealth>, issues: seq<Issue>)
    ensures issues == SortBy(Issues(groups, r, drives, cfg), IssueBefore())
    ensures multiset(issues) == multiset(Issues(groups, r, drives, cfg))
    ensures forall i, j :: 0 <= i < j < |issues| ==>
              && issues[i].score >= issues[j].score
              && (issues[i].score == issues[j].score ==> !Text.Less(issues[j].subject, issues[i].subject))
    ensures |labelled| == |groups| && |health| == |drives|
    ensures forall i :: 0 <= i < |groups| ==> labelled[i] == groups[i].(status := StatusOf(Classified(groups[i], cfg)))
    ensures forall i :: 0 <= i < |drives| ==>
              health[i] == DriveHealth(DriveLabel(drives[i].root), IsLow(drives[i], cfg))
    ensures pressure <==> exists i :: i in issues && i.category == SystemMemory
  {
    var raw;
    labelled, pressure, health, raw := CollectIssues(groups, r, drives, cfg);
    issues := SortBy(raw, IssueBefore());
    IssuesAreSorted(raw);
    PressureIsListed(groups, r, drives, cfg);
    SortKeeps(raw, IssueBefore());
  }

  // ---------------------------------------------------------------------------------------------
  // The same machine, seen by the diagnosis.

  function AppOf(): Group -> App { (g: Group) => App(g.displayName, g.workingSet, g.ownWorkingSet, g.cpu) }

  /** A drive becomes evidence when its free space and its capacity are known. */
  function DriveEvidence(): DriveInfo -> seq<Drive> {
    (d: DriveInfo) => if d.free.Some? && d.total.Some? then [Drive(DriveLabel(d.root), d.free.value, d.total.value)]
      else []
  }

  function EvidenceOf(groups: seq<Group>, r: Resources, drives: seq<DriveInfo>, rest: Evidence): Evidence {
    rest.(load := r.load, available := r.available, total := r.total,
          drives := FlatMap(drives, DriveEvidence()), apps := Map(groups, AppOf()))
  }

  datatype Mark = Mark(score: nat, subject: string, category: Category, severity: Severity)

  function FindingMark(): Finding -> Mark { (f: Finding) => Mark(f.score, f.subject, f.category, f.severity) }

  function IssueMark(): Issue -> Mark { (i: Issue) => Mark(i.score, i.subject, i.category, i.severity) }

  /** The categories that both reports know. */
  function Shared(): Finding -> bool {
    (f: Finding) => f.category == Storage || f.category == SystemMemory || f.category == AppCpu
      || f.category == AppMemory
  }

  lemma OneAppAgrees(g: Group, total: Option<nat>, cfg: Config)
    ensures Map(AppFindings(total, cfg)(AppOf()(g)), FindingMark())
              == Map(GroupIssues(total, cfg.health)(g), IssueMark())
  {
  }

  lemma {:induction false} AppsAgree(groups: seq<Group>, total: Option<nat>, cfg: Config)
    ensures Map(FlatMap(Map(groups, AppOf()), AppFindings(total, cfg)), FindingMark())
            == Map(FlatMap(groups, GroupIssues(total, cfg.health)), IssueMark())
  {
    if groups != [] {
      var init, g := groups[..|groups| - 1], groups[|groups| - 1];
      AppsAgree(init, total, cfg);
      assert Map(groups, AppOf())[..|groups| - 1] == Map(init, AppOf());
      MapAppend(FlatMap(Map(init, AppOf()), AppFindings(total, cfg)), AppFindings(total, cfg)(AppOf()(g)),
        FindingMark());
      MapAppend(FlatMap(init, GroupIssues(total, cfg.health)), GroupIssues(total, cfg.health)(g), IssueMark());
      OneAppAgrees(g, total, cfg);
    }
  }

  /**
   * A low drive of unknown or zero capacity: the health report gives it the full score, the diagnosis nothing or
   * no score.
   */
  predicate Unsized(d: DriveInfo, cfg: HealthConfig) { IsLow(d, cfg) && (d.total.None? || d.total.value == 0) }

  function DriveMarks(drives: seq<DriveInfo>, cfg: Config): seq<Mark> {
    Map(FlatMap(FlatMap(drives, DriveEvidence()), DriveFindings(cfg)), FindingMark())
  }

  function DriveIssueMarks(drives: seq<DriveInfo>, cfg: Config): seq<Mark> {
    Map(FlatMap(drives, DriveIssues(cfg.health)), IssueMark())
  }

  function Full(): Mark -> bool { (m: Mark) => m.score == 100 }

  function UnsizedCount(drives: seq<DriveInfo>, cfg: HealthConfig): nat {
    if drives == [] then 0 else
      UnsizedCount(drives[..|drives| - 1], cfg) + (if Unsized(drives[|drives| - 1], cfg) then 1 else 0)
  }

  function OneDrive(d: DriveInfo, cfg: Config): seq<Mark> {
    if d.free.Some? && d.total.Some?
    then Map(DriveFindings(cfg)(Drive(DriveLabel(d.root), d.free.value, d.total.value)), FindingMark()) else []
  }

  lemma DriveMarksNext(drives: seq<DriveInfo>, cfg: Config)
    requires drives != []
    ensures DriveMarks(drives, cfg) == DriveMarks(drives[..|drives| - 1], cfg) + OneDrive(drives[|drives| - 1], cfg)
    ensures DriveIssueMarks(drives, cfg)
            == DriveIssueMarks(drives[..|drives| - 1], cfg) + Map(DriveIssues(cfg.health)(drives[|drives| - 1]),
              IssueMark())
  {
    var init, d := drives[..|drives| - 1], drives[|drives| - 1];
    var known := FlatMap(init, DriveEvidence());
    if d.free.Some? && d.total.Some? {
      var e := Drive(DriveLabel(d.root), d.free.value, d.total.value);
      assert (known + [e])[..|known|] == known;
      MapAppend(FlatMap(known, DriveFindings(cfg)), DriveFindings(cfg)(e), FindingMark());
    } else {
      assert known + [] == known;
    }
    MapAppend(FlatMap(init, DriveIssues(cfg.health)), DriveIssues(cfg.health)(d), IssueMark());
  }

  lemma OneDriveAgrees(d: DriveInfo, cfg: Config)
    ensures var a, b := OneDrive(d, cfg), Map(DriveIssues(cfg.health)(d), IssueMark());
      && (!Unsized(d, cfg.health) ==> a == b)
      && |Filter(b, Full())| == |Filter(a, Full())| + (if Unsized(d, cfg.health) then 1 else 0)
  {
  }

  lemma {:induction false} DrivesAgree(drives: seq<DriveInfo>, cfg: Config)
    ensures UnsizedCount(drives, cfg.health) == 0 ==> DriveMarks(drives, cfg) == DriveIssueMarks(drives, cfg)
    ensures |Filter(DriveIssueMarks(drives, cfg), Full())|
            == |Filter(DriveMarks(drives, cfg), Full())| + UnsizedCount(drives, cfg.health)
  {
    if drives != [] {
      var init, d := drives[..|drives| - 1], drives[|drives| - 1];
      DrivesAgree(init, cfg);
      DriveMarksNext(drives, cfg);
      OneDriveAgrees(d, cfg);
      FilterAppend(DriveMarks(init, cfg), OneDrive(d, cfg), Full());
      FilterAppend(DriveIssueMarks(init, cfg), Map(DriveIssues(cfg.health)(d), IssueMark()), Full());
    }
  }

  lemma {:induction false} UnsizedCountZero(drives: seq<DriveInfo>, cfg: HealthConfig)
    ensures UnsizedCount(drives, cfg) == 0 <==> forall d :: d in drives ==> !Unsized(d, cfg)
  {
    if drives != [] {
      UnsizedCountZero(drives[..|drives| - 1], cfg);
      assert drives == drives[..|drives| - 1] + [drives[|drives| - 1]];
    }
  }

  function DiagnosisMarks(e: Evidence, cfg: Config): seq<Mark> { Map(Filter(Found(e, cfg), Shared()), FindingMark()) }

  function IssueMarks(groups: seq<Group>, r: Resources, drives: seq<DriveInfo>, cfg: Config): seq<Mark> {
    Map(Issues(groups, r, drives, cfg.health), IssueMark())
  }

  function LoadMarks(r: Resources, cfg: Config): seq<Mark> { Map(LoadIssues(r, cfg.health), IssueMark()) }

  function GroupMarks(groups: seq<Group>, r: Resources, cfg: Config): seq<Mark> {
    Map(FlatMap(groups, GroupIssues(r.total, cfg.health)), IssueMark())
  }

  function SharedPart(e: Evidence, cfg: Config): seq<Finding> {
    FlatMap(e.drives, DriveFindings(cfg)) + LoadFindings(e, cfg) + FlatMap(e.apps, AppFindings(e.total, cfg))
  }

  function OwnPart(e: Evidence, cfg: Config): seq<Finding> {
    GrowthFindings(e, cfg) + ThermalFindings(e) + FlatMap(e.devices, DeviceFindings(cfg))
    + BatteryFindings(e, cfg) + FlatMap(e.wifi, WifiFindings(cfg))
  }

  lemma SumInParts<T>(x: seq<T>, a: seq<T>, b: seq<T>, c: seq<T>, d: seq<T>, e: seq<T>)
    ensures x + a + b + c + d + e == x + (a + b + c + d + e)
  {
    assert x + a + b == x + (a + b);
    assert x + (a + b) + c == x + (a + b + c);
    assert x + (a + b + c) + d == x + (a + b + c + d);
  }

  lemma FoundInParts(e: Evidence, cfg: Config)
    ensures Found(e, cfg) == SharedPart(e, cfg) + OwnPart(e, cfg)
  {
    SumInParts(SharedPart(e, cfg), GrowthFindings(e, cfg), ThermalFindings(e), FlatMap(e.devices, DeviceFindings(cfg)),
               BatteryFindings(e, cfg), FlatMap(e.wifi, WifiFindings(cfg)));
  }

  lemma SharedIsShared(e: Evidence, cfg: Config, f: Finding)
    requires f in SharedPart(e, cfg)
    ensures Shared()(f)
  {
    if f in FlatMap(e.drives, DriveFindings(cfg)) {
      DriveOrigin(e, cfg, f);
    } else if f in FlatMap(e.apps, AppFindings(e.total, cfg)) {
      AppOrigin(e, cfg, f);
    }
  }

  lemma OwnIsNotShared(e: Evidence, cfg: Config, f: Finding)
    requires f in OwnPart(e, cfg)
    ensures !Shared()(f)
  {
    if f in FlatMap(e.devices, DeviceFindings(cfg)) {
      DeviceOrigin(e, cfg, f);
    } else if f in FlatMap(e.wifi, WifiFindings(cfg)) {
      WifiOrigin(e, cfg, f);
    } else {
      SingleOrigin(e, cfg, f);
      assert f in GrowthFindings(e, cfg) || f in ThermalFindings(e) || f in BatteryFindings(e, cfg);
    }
  }

  /** What the diagnosis shares with the health report: its drives, the memory load and the applications. */
  lemma SharedFindings(e: Evidence, cfg: Config)
    ensures Filter(Found(e, cfg), Shared()) == SharedPart(e, cfg)
  {
    FoundInParts(e, cfg);
    forall f | f in SharedPart(e, cfg) ensures Shared()(f) { SharedIsShared(e, cfg, f); }
    forall f | f in OwnPart(e, cfg) ensures !Shared()(f) { OwnIsNotShared(e, cfg, f); }
    FilterAll(SharedPart(e, cfg), Shared());
    FilterAll(OwnPart(e, cfg), Shared());
    FilterAppend(SharedPart(e, cfg), OwnPart(e, cfg), Shared());
  }

  lemma MapThree<T, U>(a: seq<T>, b: seq<T>, c: seq<T>, f: T -> U)
    ensures Map(a + b + c, f) == Map(a, f) + Map(b, f) + Map(c, f)
  {
  }

  lemma LoadAgrees(e: Evidence, r: Resources, cfg: Config)
    requires e.load == r.load && e.available == r.available && e.total == r.total
    ensures Map(LoadFindings(e, cfg), FindingMark()) == LoadMarks(r, cfg)
  {
  }

  lemma MarksByPart(groups: seq<Group>, r: Resources, drives: seq<DriveInfo>, rest: Evidence, cfg: Config)
    ensures DiagnosisMarks(EvidenceOf(groups, r, drives, rest), cfg)
            == DriveMarks(drives, cfg) + LoadMarks(r, cfg) + GroupMarks(groups, r, cfg)
    ensures IssueMarks(groups, r, drives, cfg)
              == GroupMarks(groups, r, cfg) + DriveIssueMarks(drives, cfg) + LoadMarks(r, cfg)
  {
    var e := EvidenceOf(groups, r, drives, rest);
    SharedFindings(e, cfg);
    AppsAgree(groups, r.total, cfg);
    LoadAgrees(e, r, cfg);
    MapThree(FlatMap(e.drives, DriveFindings(cfg)), LoadFindings(e, cfg), FlatMap(e.apps, AppFindings(e.total, cfg)),
      FindingMark());
    MapThree(FlatMap(groups, GroupIssues(r.total, cfg.health)), FlatMap(drives, DriveIssues(cfg.health)),
             LoadIssues(r, cfg.health), IssueMark());
  }

  lemma FilterSize<T(!new)>(xs: seq<T>, ys: seq<T>, p: T -> bool)
    requires multiset(xs) == multiset(ys)
    ensures |Filter(xs, p)| == |Filter(ys, p)|
  {
    FilterMultiset(xs, ys, p);
    assert |multiset(Filter(xs, p))| == |multiset(Filter(ys, p))|;
  }

  /**
   * Both reports flag and score the same machine the same way, subject by subject, if and only if
   * every low drive has a known capacity that is not zero.
   */
  lemma TwinsAgree(groups: seq<Group>, r: Resources, drives: seq<DriveInfo>, rest: Evidence, cfg: Config)
    ensures multiset(DiagnosisMarks(EvidenceOf(groups, r, drives, rest), cfg))
              == multiset(IssueMarks(groups, r, drives, cfg))
            <==> forall d :: d in drives ==> !Unsized(d, cfg.health)
  {
    var e := EvidenceOf(groups, r, drives, rest);
    MarksByPart(groups, r, drives, rest, cfg);
    DrivesAgree(drives, cfg);
    UnsizedCountZero(drives, cfg.health);
    var dm, lm, gm, im := DriveMarks(drives, cfg), LoadMarks(r, cfg), GroupMarks(groups, r, cfg),
      DriveIssueMarks(drives, cfg);
    FilterAppend(dm, lm, Full());
    FilterAppend(dm + lm, gm, Full());
    FilterAppend(gm, im, Full());
    FilterAppend(gm + im, lm, Full());
    if multiset(DiagnosisMarks(e, cfg)) == multiset(IssueMarks(groups, r, drives, cfg)) {
      FilterSize(DiagnosisMarks(e, cfg), IssueMarks(groups, r, drives, cfg), Full());
    }
  }

  // ---------------------------------------------------------------------------------------------
  // The ranked lists.

  datatype Key = Key(score: nat, subject: string)

  function KeyBefore(): (Key, Key) -> bool { (a: Key, b: Key) => Ahead(a.score, a.subject, b.score, b.subject) }

  function FindingKey(): Finding -> Key { (f: Finding) => Key(f.score, f.subject) }

  function IssueKey(): Issue -> Key { (i: Issue) => Key(i.score, i.subject) }

  function MarkKey(): Mark -> Key { (m: Mark) => Key(m.score, m.subject) }

  lemma KeysSeparate()
    ensures forall a, b :: a != b ==> KeyBefore()(a, b) || KeyBefore()(b, a)
  {
    forall a: Key, b: Key | a != b ensures KeyBefore()(a, b) || KeyBefore()(b, a) {
      Text.LessTotal(a.subject, b.subject);
    }
  }

  lemma {:induction false} FilterUnranked(findings: seq<Finding>)
    ensures Map(Filter(findings, Shared()), FindingKey())
              == Map(Filter(Map(findings, Unranked()), Shared()), FindingKey())
  {
    if findings != [] {
      FilterUnranked(findings[1..]);
      assert Map(findings, Unranked())[1..] == Map(findings[1..], Unranked());
      var f := findings[0];
      MapAppend(if Shared()(f) then [f] else [], Filter(findings[1..], Shared()), FindingKey());
      var u := Unranked()(f);
      MapAppend(if Shared()(u) then [u] else [], Filter(Map(findings[1..], Unranked()), Shared()), FindingKey());
    }
  }

  /** On a machine without unsized low drives, both tools show the same scores and subjects in the same order. */
  lemma SameRanking(groups: seq<Group>, r: Resources, drives: seq<DriveInfo>, rest: Evidence, cfg: Config,
                    findings: seq<Finding>, issues: seq<Issue>)
    requires forall d :: d in drives ==> !Unsized(d, cfg.health)
    requires Map(findings, Unranked()) == SortBy(Found(EvidenceOf(groups, r, drives, rest), cfg), FindingBefore())
    requires issues == SortBy(Issues(groups, r, drives, cfg.health), IssueBefore())
    ensures Map(Filter(findings, Shared()), FindingKey()) == Map(issues, IssueKey())
  {
    var found := Found(EvidenceOf(groups, r, drives, rest), cfg);
    var sorted := SortBy(found, FindingBefore());
    var raw := Issues(groups, r, drives, cfg.health);
    FilterUnranked(findings);
    var shared := Filter(sorted, Shared());
    TwinsAgree(groups, r, drives, rest, cfg);
    SortMultiset(found, FindingBefore());
    FilterMultiset(sorted, found, Shared());
    MapMultiset(shared, Filter(found, Shared()), FindingKey());
    SortMultiset(raw, IssueBefore());
    MapMultiset(issues, raw, IssueKey());
    MapMultiset(DiagnosisMarks(EvidenceOf(groups, r, drives, rest), cfg), IssueMarks(groups, r, drives, cfg),
      MarkKey());
    assert Map(DiagnosisMarks(EvidenceOf(groups, r, drives, rest), cfg), MarkKey())
      == Map(Filter(found, Shared()), FindingKey());
    assert Map(IssueMarks(groups, r, drives, cfg), MarkKey()) == Map(raw, IssueKey());
    FindingsCompare();
    SortOrdered(found, FindingBefore());
    FilterOrdered(sorted, Shared(), FindingBefore());
    assert Ordered(Map(shared, FindingKey()), KeyBefore());
    IssuesAreSorted(raw);
    assert Ordered(Map(issues, IssueKey()), KeyBefore());
    KeysSeparate();
    OrderedUnique(Map(shared, FindingKey()), Map(issues, IssueKey()), KeyBefore());
  }
}
