/** The target loop of `winkit install` in src/cli.rs. */
module InstallRuns {
  import opened Wrappers
  import opened Documents
  import opened ConfigFiles
  import opened Paths

  /**
   * What the machine looks like: profile directories, extension directories, and whether Continue's config.json is
   * usable.
   */
  datatype Env = Env(
    home: Path, appdata: Path, cline: Option<string>, roo: Option<string>, continueUsable: bool,
    detected: set<Target>)

  function AllTargets(): seq<Target> {
    [Opencode, ClaudeCode, Codex, Cursor, Windsurf, GeminiCli, Zed, Cline, RooCode, Continue]
  }

  /** The directory of a target's config file, when there is a location that can be verified. */
  function ConfigDir(t: Target, env: Env): Option<Path> {
    match t
    case Opencode => Some(env.home + [".config", "opencode"])
    case ClaudeCode => Some(env.home)
    case Codex => Some(env.home + [".codex"])
    case Cursor => Some(env.home + [".cursor"])
    case Windsurf => Some(env.home + [".codeium", "windsurf"])
    case GeminiCli => Some(env.home + [".gemini"])
    case Zed => Some(env.appdata + ["Zed"])
    case Cline =>
      if env.cline.None? then None
      else Some(env.appdata + [env.cline.value, "User", "globalStorage", "saoudrizwan.claude-dev", "settings"])
    case RooCode =>
      if env.roo.None? then None
      else Some(env.appdata + [env.roo.value, "User", "globalStorage", "rooveterinaryinc.roo-cline", "settings"])
    case Continue => if env.continueUsable then Some(env.home + [".continue"]) else None
  }

  function ConfigName(t: Target): string {
    match t
    case Opencode => "opencode.json"
    case ClaudeCode => ".claude.json"
    case Codex => "config.toml"
    case Cursor => "mcp.json"
    case Windsurf => "mcp_config.json"
    case GeminiCli => "settings.json"
    case Zed => "settings.json"
    case Cline => "cline_mcp_settings.json"
    case RooCode => "mcp_settings.json"
    case Continue => "config.json"
  }

  function ConfigPath(t: Target, env: Env): Option<Path> {
    match ConfigDir(t, env)
    case None => None
    case Some(dir) => Some(dir + [ConfigName(t)])
  }

  // ---------------------------------------------------------------------------------------------
  // Targets do not share files: neither config files nor backups.

  function Touches(t: Target, env: Env, stamp: string): set<Path> {
    match ConfigPath(t, env)
    case None => {}
    case Some(p) => {p, Backup(p, stamp)}
  }

  /** Directories of two targets are told apart by their last component, or by the one before it. */
  predicate Apart(a: string, b: string) {
    |a| != |b| || (|a| > 1 && a[1] != b[1]) || (|a| > 0 && a[0] != b[0])
  }

  function LastName(p: Path): string { if p == [] then "" else p[|p| - 1] }

  lemma DirsApart(t: Target, t': Target, env: Env)
    requires t != t' && t != ClaudeCode && t' != ClaudeCode && ConfigDir(t, env).Some? && ConfigDir(t', env).Some?
    ensures ConfigDir(t, env) != ConfigDir(t', env)
  {
    var d, d' := ConfigDir(t, env).value, ConfigDir(t', env).value;
    if {t, t'} == {Cline, RooCode} {
      assert Apart(d[|d| - 2], d'[|d'| - 2]);
    } else {
      assert Apart(LastName(d), LastName(d'));
    }
  }

  lemma NamesApart(t: Target)
    requires t != ClaudeCode
    ensures ConfigName(t) != "" && ConfigName(t)[0] != '.' && ConfigName(ClaudeCode)[0] == '.'
  {
  }

  lemma TouchesShape(t: Target, env: Env, stamp: string, q: Path)
    requires q in Touches(t, env, stamp)
    ensures ConfigDir(t, env).Some? && |q| == |ConfigDir(t, env).value| + 1
    ensures q[..|q| - 1] == ConfigDir(t, env).value && ConfigName(t) <= q[|q| - 1]
  {
    var dir := ConfigDir(t, env).value;
    var p := dir + [ConfigName(t)];
    assert p[..|p| - 1] == dir;
  }

  lemma TargetsDisjoint(t: Target, t': Target, env: Env, stamp: string, stamp': string)
    requires t != t'
    ensures Touches(t, env, stamp) !! Touches(t', env, stamp')
  {
    forall q | q in Touches(t, env, stamp) && q in Touches(t', env, stamp') ensures false {
      TouchesShape(t, env, stamp, q);
      TouchesShape(t', env, stamp', q);
      if t != ClaudeCode && t' != ClaudeCode {
        DirsApart(t, t', env);
      } else {
        NamesApart(if t == ClaudeCode then t' else t);
      }
    }
  }

  // ---------------------------------------------------------------------------------------------
  // The run.

  datatype Status = Detected | Installed | AlreadyRegistered | Declined | Skipped | Error

  datatype Outcome = Outcome(target: Target, status: Status)

  predicate KeepsFile(s: Status) { s == Detected || s == AlreadyRegistered || s == Declined || s == Skipped }

  function DetectedOf(ts: seq<Target>, detected: set<Target>): seq<Target> {
    if ts == [] then [] else
      DetectedOf(ts[..|ts| - 1], detected) + (if ts[|ts| - 1] in detected then [ts[|ts| - 1]] else [])
  }

  function TargetsOf(os: seq<Outcome>): seq<Target> {
    if os == [] then [] else TargetsOf(os[..|os| - 1]) + [os[|os| - 1].target]
  }

  /** What is at p before a run, what the run is asked, and which calls fail in it. */
  datatype Scene = Scene(files: Files, env: Env, stamps: Target -> string, fails: Faults)

  function Existing(files: Files, p: Path): Option<Content> { if p in files then Some(files[p]) else None }

  /** What the run merges into: nothing also when the file is there and the look-up fails. */
  function SeenText(files: Files, p: Path, fails: Faults): Option<Content> {
    if p in files && !fails(ExistsToRead, p) then Some(files[p]) else None
  }

  predicate Unreadable(files: Files, p: Path, fails: Faults) {
    p in files && !fails(ExistsToRead, p) && fails(ReadExisting, p)
  }

  type MergePlan = Result<Option<Content>, MergeError>

  /** What a status says about the config file at p, given what merging would do. */
  ghost predicate Fits(status: Status, plan: MergePlan, p: Path, backup: Path, fails: Faults, before: Files,
                       after: Files) {
    && (KeepsFile(status) ==> Existing(after, p) == Existing(before, p))
    && (status != Detected && status != Error ==> !Unreadable(before, p, fails))
    && (status == AlreadyRegistered ==> plan == Ok(None))
    && (status == Skipped ==> plan.Err?)
    && (status == Declined ==> plan.Ok? && plan.value.Some?)
    && (status == Installed ==> p in after && plan == Ok(Some(after[p])) && CanWrite(fails, before, p, backup))
    && (status == Error ==>
          Unreadable(before, p, fails) || (plan.Ok? && plan.value.Some? && !CanWrite(fails, before, p, backup)))
  }

  /** A location is only planned for in a plan, and `--yes` asks nothing. */
  predicate Called(status: Status, located: bool, planOnly: bool, yes: bool) {
    && (status == Detected <==> planOnly && located)
    && (status == Declined ==> !yes)
  }

  ghost predicate Honest(o: Outcome, s: Scene, after: Files) {
    match ConfigPath(o.target, s.env)
    case None => o.status == Skipped
    case Some(p) =>
      Fits(o.status, ParseAndMerge(o.target, SeenText(s.files, p, s.fails)), p, Backup(p, s.stamps(o.target)), s.fails,
        s.files, after)
  }

  /** The run came to write over the file at p, which the look-up before the backup did not see. */
  predicate Exposed(status: Status, files: Files, p: Path, fails: Faults) {
    && (status == Installed || status == Error)
    && p in files && !Unreadable(files, p, fails) && Unguarded(fails, p)
  }

  /** The loop body from the merge on: report, ask, and write. */
  method CarryOut(disk: FileDisk, path: Path, plan: MergePlan, yes: bool, stamp: string) returns (status: Status)
    requires disk.Valid() && !Unreadable(disk.files, path, disk.fails)
    modifies disk
    ensures disk.Valid() && old(disk.trace) <= disk.trace
    ensures Fits(status, plan, path, Backup(path, stamp), disk.fails, old(disk.files), disk.files)
    ensures SafeRun(old(disk.files), disk.trace, |old(disk.trace)|, path, Backup(path, stamp),
                    Exposed(status, old(disk.files), path, disk.fails))
    ensures KeepsFile(status) ==> disk.trace == old(disk.trace)
    ensures plan == Ok(None) ==> status == AlreadyRegistered
    ensures Called(status, true, false, yes)
  {
    match plan {
      case Ok(None) =>
        return AlreadyRegistered;
      case Err(_) =>
        return Skipped;
      case Ok(Some(merged)) =>
        if !yes {
          var accepted: bool := *;
          if !accepted {
            return Declined;
          }
        }
        var w := WriteWithRestore(disk, path, merged, stamp);
        return if w.Ok? then Installed else Error;
    }
  }

  /** One target, as the loop body handles it. */
  method InstallTarget(disk: FileDisk, t: Target, path: Option<Path>, planOnly: bool, yes: bool, stamp: string)
    returns (status: Status)
    requires disk.Valid()
    modifies disk
    ensures disk.Valid() && old(disk.trace) <= disk.trace
    ensures path.None? ==> status == Skipped && disk.trace == old(disk.trace)
    ensures path.Some? ==>
              var p, plan := path.value, ParseAndMerge(t, SeenText(old(disk.files), path.value, disk.fails));
              && Fits(status, plan, p, Backup(p, stamp), disk.fails, old(disk.files), disk.files)
              && SafeRun(old(disk.files), disk.trace, |old(disk.trace)|, p, Backup(p, stamp),
                         Exposed(status, old(disk.files), p, disk.fails))
              && (plan == Ok(None) ==> disk.trace == old(disk.trace))
    ensures planOnly || KeepsFile(status) ==> disk.trace == old(disk.trace)
    ensures Called(status, path.Some?, planOnly, yes)
  {
    if path.None? {
      return Skipped;
    }
    if planOnly {
      return Detected;
    }
    var existing: Option<Content> := None;
    var found := disk.Exists(ExistsToRead, path.value);
    if found {
      existing := disk.Read(ReadExisting, path.value);
      if existing.None? {
        return Error;
      }
    }
    status := CarryOut(disk, path.value, ParseAndMerge(t, existing), yes, stamp);
  }

  // ---------------------------------------------------------------------------------------------
  // Many targets.

  ghost predicate Distinct(ts: seq<Target>) { forall i, j :: 0 <= i < j < |ts| ==> ts[i] != ts[j] }

  /** The files a list of targets may have touched: their config files and backups. */
  ghost function TouchedBy(ts: seq<Target>, s: Scene): set<Path> {
    if ts == [] then {} else
      var t := ts[|ts| - 1];
      TouchedBy(ts[..|ts| - 1], s) + Touches(t, s.env, s.stamps(t))
  }

  lemma {:induction false} LaterUntouched(ts: seq<Target>, t: Target, s: Scene)
    requires t !in ts
    ensures TouchedBy(ts, s) !! Touches(t, s.env, s.stamps(t))
  {
    if ts != [] {
      var last := ts[|ts| - 1];
      LaterUntouched(ts[..|ts| - 1], t, s);
      TargetsDisjoint(last, t, s.env, s.stamps(last), s.stamps(t));
    }
  }

  ghost predicate SurvivesOf(t: Target, s: Scene, state: Files) {
    match ConfigPath(t, s.env)
    case None => true
    case Some(p) => p in s.files ==> Survives(state, s.files[p], p, Backup(p, s.stamps(t)))
  }

  /** The target's config file, as it was before, is at every step wholly at its place or at its backup. */
  ghost predicate KeptThroughout(t: Target, s: Scene, trace: seq<Files>, from: nat) {
    forall i :: from <= i < |trace| ==> SurvivesOf(t, s, trace[i])
  }

  ghost predicate ExposedBy(o: Outcome, s: Scene) {
    match ConfigPath(o.target, s.env)
    case None => false
    case Some(p) => Exposed(o.status, s.files, p, s.fails)
  }

  ghost predicate ExposedIn(t: Target, outcomes: seq<Outcome>, s: Scene) {
    exists o :: o in outcomes && o.target == t && ExposedBy(o, s)
  }

  ghost predicate TellingOf(t: Target, s: Scene) {
    match ConfigPath(t, s.env)
    case None => false
    case Some(p) => Telling(s.files, p, Backup(p, s.stamps(t)))
  }

  /** The target's config file survives the run if and only if it was not exposed. */
  ghost predicate Fares(t: Target, exposed: bool, s: Scene, trace: seq<Files>, from: nat) {
    && (!exposed ==> KeptThroughout(t, s, trace, from))
    && (exposed && TellingOf(t, s) ==> !KeptThroughout(t, s, trace, from))
  }

  ghost predicate StepsTouch(now: Files, trace: seq<Files>, from: nat, t: Target, s: Scene) {
    StepsWithin(now, trace, from, Touches(t, s.env, s.stamps(t)))
  }

  lemma SameSurvives(t': Target, s: Scene, now: Files, state: Files, t: Target)
    requires t' != t && Within(now, state, Touches(t, s.env, s.stamps(t)))
    ensures SurvivesOf(t', s, state) <==> SurvivesOf(t', s, now)
  {
    TargetsDisjoint(t, t', s.env, s.stamps(t), s.stamps(t'));
    forall q | q in Touches(t', s.env, s.stamps(t')) ensures Same(now, state, q) {
      assert q !in Touches(t, s.env, s.stamps(t));
    }
  }

  /** What touches only the files of one target changes nothing for the others. */
  lemma OthersFare(t': Target, exposed: bool, s: Scene, soFar: seq<Files>, trace: seq<Files>, from: nat, t: Target)
    requires t' != t && from < |soFar| && soFar <= trace && Fares(t', exposed, s, soFar, from)
    requires StepsTouch(soFar[|soFar| - 1], trace, |soFar|, t, s)
    ensures Fares(t', exposed, s, trace, from)
  {
    forall i | from <= i < |trace| && KeptThroughout(t', s, soFar, from) ensures SurvivesOf(t', s, trace[i]) {
      if i < |soFar| {
        assert trace[i] == soFar[i];
      } else {
        SameSurvives(t', s, soFar[|soFar| - 1], trace[i], t);
        assert SurvivesOf(t', s, soFar[|soFar| - 1]);
      }
    }
    if KeptThroughout(t', s, trace, from) {
      forall i | from <= i < |soFar| ensures SurvivesOf(t', s, soFar[i]) {
        assert trace[i] == soFar[i];
      }
    }
  }

  lemma OthersStayHonest(o: Outcome, s: Scene, now: Files, state: Files, t: Target)
    requires o.target != t && Honest(o, s, now) && Within(now, state, Touches(t, s.env, s.stamps(t)))
    ensures Honest(o, s, state)
  {
    TargetsDisjoint(t, o.target, s.env, s.stamps(t), s.stamps(o.target));
    if ConfigPath(o.target, s.env).Some? {
      var p := ConfigPath(o.target, s.env).value;
      assert p in Touches(o.target, s.env, s.stamps(o.target));
      assert Same(now, state, p);
    }
  }

  /** Nobody has touched the files of t. */
  ghost predicate Untouched(t: Target, s: Scene, now: Files) {
    forall p {:trigger Same(s.files, now, p)} :: p in Touches(t, s.env, s.stamps(t)) ==> Same(s.files, now, p)
  }

  /** What InstallTarget promises of a target's run. */
  ghost predicate TargetRun(o: Outcome, s: Scene, soFar: seq<Files>, files: Files, trace: seq<Files>) {
    && soFar != [] && soFar <= trace && soFar[|soFar| - 1] == s.files && trace[|trace| - 1] == files
    && Honest(o, s, files)
    && match ConfigPath(o.target, s.env)
       case None => trace == soFar
       case Some(p) => SafeRun(s.files, trace, |soFar|, p, Backup(p, s.stamps(o.target)),
         Exposed(o.status, s.files, p, s.fails))
  }

  lemma RunTouches(o: Outcome, s: Scene, soFar: seq<Files>, files: Files, trace: seq<Files>)
    requires TargetRun(o, s, soFar, files, trace)
    ensures StepsTouch(s.files, trace, |soFar|, o.target, s)
    ensures Within(s.files, files, Touches(o.target, s.env, s.stamps(o.target)))
  {
    if |trace| == |soFar| {
      assert trace == soFar;
    }
  }

  /** A target whose files nobody has touched yet is judged as in the beginning. */
  lemma HonestFromStart(o: Outcome, s: Scene, now: Files, after: Files)
    requires Untouched(o.target, s, now) && Honest(o, s.(files := now), after)
    ensures Honest(o, s, after) && (ExposedBy(o, s) <==> ExposedBy(o, s.(files := now)))
  {
    if ConfigPath(o.target, s.env).Some? {
      assert Same(s.files, now, ConfigPath(o.target, s.env).value);
    }
  }

  lemma UntouchedSurvives(t: Target, s: Scene, now: Files)
    requires Untouched(t, s, now)
    ensures SurvivesOf(t, s, now) && (TellingOf(t, s) <==> TellingOf(t, s.(files := now)))
    ensures forall state :: SurvivesOf(t, s, state) <==> SurvivesOf(t, s.(files := now), state)
  {
    match ConfigPath(t, s.env) {
      case None =>
      case Some(p) =>
        assert Same(s.files, now, p) && Same(s.files, now, Backup(p, s.stamps(t)));
    }
  }

  lemma RunFares(o: Outcome, s: Scene, soFar: seq<Files>, files: Files, trace: seq<Files>)
    requires TargetRun(o, s, soFar, files, trace)
    ensures Fares(o.target, ExposedBy(o, s), s, trace, |soFar|)
  {
    match ConfigPath(o.target, s.env) {
      case None =>
      case Some(p) =>
        if p in s.files {
          assert AllSurvive(s.files[p], trace, |soFar|, p, Backup(p, s.stamps(o.target)))
            <==> KeptThroughout(o.target, s, trace, |soFar|);
        }
    }
  }

  /** Up to its own run a target's files are untouched, so that run decides. */
  lemma VisitedFares(o: Outcome, s: Scene, now: Files, soFar: seq<Files>, files: Files, trace: seq<Files>, from: nat)
    requires from < |soFar| && forall i :: from <= i < |soFar| ==> Untouched(o.target, s, soFar[i])
    requires TargetRun(o, s.(files := now), soFar, files, trace)
    ensures Fares(o.target, ExposedBy(o, s), s, trace, from)
  {
    var s' := s.(files := now);
    var t := o.target;
    assert Untouched(t, s, soFar[|soFar| - 1]);
    HonestFromStart(o, s, now, files);
    UntouchedSurvives(t, s, now);
    RunFares(o, s', soFar, files, trace);
    forall i | from <= i < |soFar| ensures SurvivesOf(t, s, trace[i]) {
      UntouchedSurvives(t, s, soFar[i]);
    }
    assert KeptThroughout(t, s, trace, from) <==> KeptThroughout(t, s', trace, |soFar|) by {
      if KeptThroughout(t, s, trace, from) {
        forall i | |soFar| <= i < |trace| ensures SurvivesOf(t, s', trace[i]) {
          assert SurvivesOf(t, s, trace[i]);
        }
      }
      if KeptThroughout(t, s', trace, |soFar|) {
        forall i | from <= i < |trace| ensures SurvivesOf(t, s, trace[i]) {
          if i >= |soFar| {
            assert SurvivesOf(t, s', trace[i]);
          }
        }
      }
    }
  }

  /**
   * After the targets `done`: one outcome for each detected one, all honest; nothing but their files
   * has changed at any step; and every target fares as its outcome says.
   */
  ghost predicate Progress(s: Scene, from: nat, files: Files, trace: seq<Files>, outcomes: seq<Outcome>,
                           done: seq<Target>) {
    && from < |trace| && trace[|trace| - 1] == files
    && TargetsOf(outcomes) == DetectedOf(done, s.env.detected)
    && (forall o :: o in outcomes ==> Honest(o, s, files) && o.target in done)
    && (forall t :: t in TargetsOf(outcomes) ==> t in done)
    && StepsWithin(s.files, trace, from, TouchedBy(TargetsOf(outcomes), s))
    && (forall t :: Fares(t, ExposedIn(t, outcomes, s), s, trace, from))
  }

  lemma ExposedInMore(outcomes: seq<Outcome>, o: Outcome, s: Scene)
    requires forall e :: e in outcomes ==> e.target != o.target
    ensures ExposedIn(o.target, outcomes + [o], s) <==> ExposedBy(o, s)
    ensures forall t :: t != o.target ==> (ExposedIn(t, outcomes + [o], s) <==> ExposedIn(t, outcomes, s))
  {
    assert o in outcomes + [o];
    forall t | t != o.target && ExposedIn(t, outcomes, s) ensures ExposedIn(t, outcomes + [o], s) {
      var e :| e in outcomes && e.target == t && ExposedBy(e, s);
      assert e in outcomes + [o];
    }
  }

  lemma StepsWithinMore(s: Scene, soFar: seq<Files>, trace: seq<Files>, from: nat, ps: set<Path>, qs: set<Path>)
    requires from < |soFar| && soFar <= trace && StepsWithin(s.files, soFar, from, ps)
    requires StepsWithin(soFar[|soFar| - 1], trace, |soFar|, qs)
    ensures StepsWithin(s.files, trace, from, ps + qs)
  {
    forall i | from <= i < |trace| ensures Within(s.files, trace[i], ps + qs) {
      if i < |soFar| {
        assert trace[i] == soFar[i];
      } else {
        var now := soFar[|soFar| - 1];
        forall p | p !in ps + qs ensures Same(s.files, trace[i], p) {
          assert Same(s.files, now, p) && Same(now, trace[i], p);
        }
      }
    }
  }

  lemma StillUntouched(t: Target, s: Scene, soFar: seq<Files>, from: nat, ts: seq<Target>)
    requires t !in ts && StepsWithin(s.files, soFar, from, TouchedBy(ts, s))
    ensures forall i :: from <= i < |soFar| ==> Untouched(t, s, soFar[i])
  {
    LaterUntouched(ts, t, s);
    forall i | from <= i < |soFar| ensures Untouched(t, s, soFar[i]) {
      assert Within(s.files, soFar[i], TouchedBy(ts, s));
    }
  }

  lemma AllFare(s: Scene, from: nat, now: Files, soFar: seq<Files>, files: Files, trace: seq<Files>,
                outcomes: seq<Outcome>, o: Outcome)
    requires from < |soFar| && TargetRun(o, s.(files := now), soFar, files, trace)
    requires forall t :: Fares(t, ExposedIn(t, outcomes, s), s, soFar, from)
    requires forall i :: from <= i < |soFar| ==> Untouched(o.target, s, soFar[i])
    requires forall e :: e in outcomes ==> e.target != o.target
    ensures forall t :: Fares(t, ExposedIn(t, outcomes + [o], s), s, trace, from)
  {
    RunTouches(o, s.(files := now), soFar, files, trace);
    ExposedInMore(outcomes, o, s);
    forall t ensures Fares(t, ExposedIn(t, outcomes + [o], s), s, trace, from) {
      if t == o.target {
        VisitedFares(o, s, now, soFar, files, trace, from);
      } else {
        OthersFare(t, ExposedIn(t, outcomes, s), s, soFar, trace, from, o.target);
      }
    }
  }

  lemma AllHonest(s: Scene, now: Files, soFar: seq<Files>, files: Files, trace: seq<Files>, outcomes: seq<Outcome>,
                  o: Outcome)
    requires TargetRun(o, s.(files := now), soFar, files, trace) && Untouched(o.target, s, now)
    requires forall e :: e in outcomes ==> Honest(e, s, now) && e.target != o.target
    ensures forall e :: e in outcomes + [o] ==> Honest(e, s, files)
  {
    RunTouches(o, s.(files := now), soFar, files, trace);
    HonestFromStart(o, s, now, files);
    forall e | e in outcomes ensures Honest(e, s, files) {
      OthersStayHonest(e, s, now, files, o.target);
    }
  }

  lemma TargetsOfMore(outcomes: seq<Outcome>, o: Outcome)
    ensures TargetsOf(outcomes + [o]) == TargetsOf(outcomes) + [o.target]
  {
    assert (outcomes + [o])[..|outcomes|] == outcomes;
  }

  lemma DetectedMore(done: seq<Target>, t: Target, detected: set<Target>)
    ensures DetectedOf(done + [t], detected) == DetectedOf(done, detected) + if t in detected then [t] else []
  {
    assert (done + [t])[..|done|] == done;
  }

  lemma TouchedMore(ts: seq<Target>, t: Target, s: Scene)
    ensures TouchedBy(ts + [t], s) == TouchedBy(ts, s) + Touches(t, s.env, s.stamps(t))
  {
    assert (ts + [t])[..|ts|] == ts;
  }

  lemma Undetected(s: Scene, from: nat, files: Files, trace: seq<Files>, outcomes: seq<Outcome>, done: seq<Target>,
                   t: Target)
    requires Progress(s, from, files, trace, outcomes, done) && t !in s.env.detected
    ensures Progress(s, from, files, trace, outcomes, done + [t])
  {
    DetectedMore(done, t, s.env.detected);
  }

  lemma Visited(s: Scene, from: nat, now: Files, soFar: seq<Files>, files: Files, trace: seq<Files>,
                outcomes: seq<Outcome>, done: seq<Target>, o: Outcome)
    requires Progress(s, from, now, soFar, outcomes, done) && TargetRun(o, s.(files := now), soFar, files, trace)
    requires o.target in s.env.detected && o.target !in done
    ensures Progress(s, from, files, trace, outcomes + [o], done + [o.target])
  {
    var t, ts := o.target, TargetsOf(outcomes);
    TargetsOfMore(outcomes, o);
    DetectedMore(done, t, s.env.detected);
    TouchedMore(ts, t, s);
    StillUntouched(t, s, soFar, from, ts);
    assert Untouched(t, s, soFar[|soFar| - 1]);
    AllHonest(s, now, soFar, files, trace, outcomes, o);
    AllFare(s, from, now, soFar, files, trace, outcomes, o);
    RunTouches(o, s.(files := now), soFar, files, trace);
    StepsWithinMore(s, soFar, trace, from, TouchedBy(ts, s), Touches(t, s.env, s.stamps(t)));
  }

  /** The target's config file already carries the entry, or there is no file WinKit would write. */
  ghost predicate Registered(t: Target, env: Env, files: Files) {
    match ConfigPath(t, env)
    case None => true
    case Some(p) => ParseAndMerge(t, Existing(files, p)) == Ok(None)
  }

  ghost predicate AllRegistered(env: Env, files: Files) { forall t :: t in env.detected ==> Registered(t, env, files) }

  /** Every detected target is registered, and the run can see it. */
  ghost predicate AllRecognised(s: Scene) {
    && AllRegistered(s.env, s.files)
    && forall t :: t in s.env.detected && ConfigPath(t, s.env).Some? ==>
      !s.fails(ExistsToRead, ConfigPath(t, s.env).value)
  }

  datatype Ask = Ask(env: Env, planOnly: bool, yes: bool, stamps: Target -> string)

  function SceneOf(files: Files, ask: Ask, fails: Faults): Scene { Scene(files, ask.env, ask.stamps, fails) }

  ghost predicate AllCalled(outcomes: seq<Outcome>, ask: Ask) {
    forall o :: o in outcomes ==> Called(o.status, ConfigPath(o.target, ask.env).Some?, ask.planOnly, ask.yes)
  }

  /** How a run stands after the targets `done`; `start` is the trace it found. */
  ghost predicate Standing(s: Scene, start: seq<Files>, files: Files, trace: seq<Files>, outcomes: seq<Outcome>,
                           done: seq<Target>, ask: Ask) {
    && start != [] && start <= trace
    && Progress(s, |start| - 1, files, trace, outcomes, done)
    && start[|start| - 1] == s.files && (ask.planOnly || AllRecognised(s) ==> trace == start)
    && AllCalled(outcomes, ask)
  }

  lemma CalledMore(outcomes: seq<Outcome>, o: Outcome, ask: Ask)
    requires AllCalled(outcomes, ask) && Called(o.status, ConfigPath(o.target, ask.env).Some?, ask.planOnly, ask.yes)
    ensures AllCalled(outcomes + [o], ask)
  {
  }

  /** Nothing is written by a target that is only planned for or recognised. */
  lemma StillIdle(s: Scene, start: seq<Files>, now: Files, soFar: seq<Files>, trace: seq<Files>, ask: Ask)
    requires start != [] && soFar != [] && start[|start| - 1] == s.files && soFar[|soFar| - 1] == now
    requires ask.planOnly || AllRecognised(s) ==> soFar == start
    requires ask.planOnly || AllRecognised(s.(files := now)) ==> trace == soFar
    ensures ask.planOnly || AllRecognised(s) ==> trace == start
  {
    if AllRecognised(s) {
      assert s.(files := now) == s;
    }
  }

  lemma StandsAtStart(s: Scene, start: seq<Files>, ask: Ask)
    requires start != [] && start[|start| - 1] == s.files
    ensures Standing(s, start, s.files, start, [], [], ask)
  {
    forall t ensures Fares(t, ExposedIn(t, [], s), s, start, |start| - 1) {
    }
  }

  lemma StandsAfter(s: Scene, start: seq<Files>, now: Files, soFar: seq<Files>, files: Files, trace: seq<Files>,
                    outcomes: seq<Outcome>, done: seq<Target>, o: Outcome, ask: Ask)
    requires Standing(s, start, now, soFar, outcomes, done, ask) && o.target in s.env.detected && o.target !in done
    requires TargetRun(o, s.(files := now), soFar, files, trace)
    requires ask.planOnly || AllRecognised(s.(files := now)) ==> trace == soFar
    requires Called(o.status, ConfigPath(o.target, ask.env).Some?, ask.planOnly, ask.yes)
    ensures Standing(s, start, files, trace, outcomes + [o], done + [o.target], ask)
  {
    Visited(s, |start| - 1, now, soFar, files, trace, outcomes, done, o);
    StillIdle(s, start, now, soFar, trace, ask);
    CalledMore(outcomes, o, ask);
  }

  /** One detected target with its location looked up. */
  method VisitTarget(disk: FileDisk, t: Target, ask: Ask) returns (status: Status)
    requires disk.Valid() && t in ask.env.detected
    modifies disk
    ensures disk.Valid()
    ensures TargetRun(Outcome(t, status), SceneOf(old(disk.files), ask, disk.fails), old(disk.trace), disk.files,
              disk.trace)
    ensures ask.planOnly || AllRecognised(SceneOf(old(disk.files), ask, disk.fails)) ==> disk.trace == old(disk.trace)
    ensures Called(status, ConfigPath(t, ask.env).Some?, ask.planOnly, ask.yes)
  {
    if AllRecognised(SceneOf(disk.files, ask, disk.fails)) {
      assert Registered(t, ask.env, disk.files);
    }
    status := InstallTarget(disk, t, ConfigPath(t, ask.env), ask.planOnly, ask.yes, ask.stamps(t));
  }

  /** The loop body. */
  method Step(disk: FileDisk, t: Target, ask: Ask, outcomes: seq<Outcome>, ghost s: Scene, ghost start: seq<Files>,
              ghost done: seq<Target>)
    returns (more: seq<Outcome>)
    requires disk.Valid() && t !in done && s == SceneOf(s.files, ask, disk.fails)
    requires Standing(s, start, disk.files, disk.trace, outcomes, done, ask)
    modifies disk
    ensures disk.Valid()
    ensures Standing(s, start, disk.files, disk.trace, more, done + [t], ask)
  {
    if t !in ask.env.detected {
      Undetected(s, |start| - 1, disk.files, disk.trace, outcomes, done, t);
      return outcomes;
    }
    ghost var now, soFar := disk.files, disk.trace;
    var status := VisitTarget(disk, t, ask);
    var o := Outcome(t, status);
    StandsAfter(s, start, now, soFar, disk.files, disk.trace, outcomes, done, o, ask);
    more := outcomes + [o];
  }

  /** The loop over a list of targets. */
  method InstallAll(disk: FileDisk, ts: seq<Target>, ask: Ask) returns (outcomes: seq<Outcome>)
    requires disk.Valid() && Distinct(ts)
    modifies disk
    ensures disk.Valid()
    ensures Standing(SceneOf(old(disk.files), ask, disk.fails), old(disk.trace), disk.files, disk.trace, outcomes, ts,
              ask)
  {
    outcomes := [];
    ghost var s, start := SceneOf(disk.files, ask, disk.fails), disk.trace;
    StandsAtStart(s, start, ask);
    ghost var done: seq<Target> := [];
    for n := 0 to |ts|
      invariant disk.Valid() && done == ts[..n]
      invariant Standing(s, start, disk.files, disk.trace, outcomes, done, ask)
    {
      outcomes := Step(disk, ts[n], ask, outcomes, s, start, done);
      done := done + [ts[n]];
    }
    assert done == ts;
  }

  lemma {:induction false} DetectedHolds(ts: seq<Target>, detected: set<Target>, t: Target)
    requires t in ts && t in detected
    ensures t in DetectedOf(ts, detected)
  {
    if ts[|ts| - 1] != t {
      DetectedHolds(ts[..|ts| - 1], detected, t);
    }
  }

  lemma {:induction false} OutcomeFor(os: seq<Outcome>, t: Target) returns (o: Outcome)
    requires t in TargetsOf(os)
    ensures o in os && o.target == t
  {
    if os[|os| - 1].target == t {
      o := os[|os| - 1];
    } else {
      o := OutcomeFor(os[..|os| - 1], t);
    }
  }

  lemma {:induction false} DetectedHasOutcome(ts: seq<Target>, os: seq<Outcome>, detected: set<Target>, t: Target)
    returns (o: Outcome)
    requires TargetsOf(os) == DetectedOf(ts, detected) && t in ts && t in detected
    ensures o in os && o.target == t
  {
    DetectedHolds(ts, detected, t);
    o := OutcomeFor(os, t);
  }

  lemma EveryTarget(t: Target)
    ensures t in AllTargets()
  {
    var ts := AllTargets();
    assert ts[0] == Opencode && ts[1] == ClaudeCode && ts[2] == Codex && ts[3] == Cursor && ts[4] == Windsurf;
    assert ts[5] == GeminiCli && ts[6] == Zed && ts[7] == Cline && ts[8] == RooCode && ts[9] == Continue;
  }

  lemma TargetsDistinct()
    ensures Distinct(AllTargets())
  {
  }

  lemma NothingIsUnregistered(t: Target)
    ensures ParseAndMerge(t, None) != Ok(None)
  {
  }

  /** An installed or already registered target is registered afterwards. */
  lemma DoneIsRegistered(o: Outcome, s: Scene, after: Files)
    requires Honest(o, s, after) && (o.status == Installed || o.status == AlreadyRegistered)
    ensures Registered(o.target, s.env, after)
  {
    var p := ConfigPath(o.target, s.env).value;
    if o.status == Installed {
      MergedTextIsRegistered(o.target, SeenText(s.files, p, s.fails));
    } else {
      NothingIsUnregistered(o.target);
    }
  }

  /**
   * The document an installation leaves is the one that was there and the entry; but if the file was
   * there and could not be seen, it is the entry alone.
   */
  lemma InstalledAddsOnly(o: Outcome, s: Scene, after: Files)
    requires Honest(o, s, after) && o.status == Installed
    ensures ConfigPath(o.target, s.env).Some? && ConfigPath(o.target, s.env).value in after
    ensures var p := ConfigPath(o.target, s.env).value;
            var old', new' := ParsedRoot(o.target, SeenText(s.files, p, s.fails)), ParsedRoot(o.target, Some(after[p]));
            && old'.Some? && new'.Some? && AddsEntry(o.target, old'.value, new'.value)
            && (if s.fails(ExistsToRead, p) then old' == Some(Obj(map[]))
              else old' == ParsedRoot(o.target, Existing(s.files, p)))
  {
    MergedTextConserves(o.target, SeenText(s.files, ConfigPath(o.target, s.env).value, s.fails));
  }

  /** So after a run that installed everything, every detected target is registered. */
  lemma AllInstalled(outcomes: seq<Outcome>, s: Scene, after: Files)
    requires TargetsOf(outcomes) == DetectedOf(AllTargets(), s.env.detected)
    requires forall o :: o in outcomes ==>
               Honest(o, s, after) && (o.status == Installed || o.status == AlreadyRegistered)
    ensures AllRegistered(s.env, after)
  {
    forall t | t in s.env.detected ensures Registered(t, s.env, after) {
      EveryTarget(t);
      var o := DetectedHasOutcome(AllTargets(), outcomes, s.env.detected, t);
      DoneIsRegistered(o, s, after);
    }
  }

  /**
   * The whole run: one honest outcome per detected target; at every step nothing but the config files
   * and backups of detected targets has changed, and a config file that existed is whole at its place
   * or at its backup if and only if the run did not write over it unseen; nothing is written in a
   * plan, nor when every detected target is seen to be registered, which is what a run that installed
   * everything leaves.
   */
  method InstallRun(disk: FileDisk, env: Env, planOnly: bool, yes: bool, stamps: Target -> string)
    returns (outcomes: seq<Outcome>)
    requires disk.Valid()
    modifies disk
    ensures disk.Valid() && old(disk.trace) <= disk.trace
    ensures TargetsOf(outcomes) == DetectedOf(AllTargets(), env.detected)
    ensures forall o :: o in outcomes ==>
              && Honest(o, Scene(old(disk.files), env, stamps, disk.fails), disk.files)
              && Called(o.status, ConfigPath(o.target, env).Some?, planOnly, yes)
    ensures var s := Scene(old(disk.files), env, stamps, disk.fails);
            forall t :: Fares(t, ExposedIn(t, outcomes, s), s, disk.trace, |old(disk.trace)| - 1)
    ensures StepsWithin(old(disk.files), disk.trace, |old(disk.trace)| - 1,
                        TouchedBy(TargetsOf(outcomes), Scene(old(disk.files), env, stamps, disk.fails)))
    ensures planOnly || AllRecognised(Scene(old(disk.files), env, stamps, disk.fails)) ==> disk.trace == old(disk.trace)
    ensures (forall o :: o in outcomes ==> o.status == Installed || o.status == AlreadyRegistered) ==>
              AllRegistered(env, disk.files)
  {
    TargetsDistinct();
    outcomes := InstallAll(disk, AllTargets(), Ask(env, planOnly, yes, stamps));
    if forall o :: o in outcomes ==> o.status == Installed || o.status == AlreadyRegistered {
      AllInstalled(outcomes, Scene(old(disk.files), env, stamps, disk.fails), disk.files);
    }
  }
}
