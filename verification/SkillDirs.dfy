/** Installing the skill directory over an older one in src/cli.rs. */
module SkillDirs {
  import opened Bytes
  import opened Paths
  import opened Wrappers
  import opened DirCopies

  const SKILL_FILE := "SKILL.md"

  datatype InstallError =
    | NoSource | NoSkillFile | NoParent | NoBackup | NotCounted | Incomplete | NotCleared
    | NotWritten | Restored | NotRestored

  /** What an installation is given: the disk it finds, its directories, and the calls that fail. */
  datatype Job = Job(files: Tree, src: Path, dest: Path, backup: Path, fails: TreeFaults)

  /** The look-up that decides about the backup finds the older directory. */
  predicate Seen(j: Job) { Exists(j.files, j.dest) && !j.fails(ExistsToBackUp, j.dest) }

  /**
   * Source, destination and backup are apart, and no link is on the way to them. A backup is made where
   * there are no links, and a copy over an older directory does not write into its own source.
   */
  ghost predicate Proper(j: Job) {
    && WellFormed(j.files) && j.dest != []
    && Apart(j.src, j.dest) && Apart(j.src, j.backup) && Apart(j.dest, j.backup)
    && LinkFree(j.files, j.src) && LinkFree(j.files, j.dest)
    && if Seen(j) then Straight(j.files, j.backup) else Untangled(j.files, j.src, j.dest)
  }

  lemma BackupIsBeside(dest: Path, stamp: string)
    requires dest != []
    ensures Apart(dest, BackupPath(dest, stamp, "skill"))
  {
    var last := |dest| - 1;
    assert |BackupPath(dest, stamp, "skill")[last]| > |dest[last]|;
  }

  // ---------------------------------------------------------------------------------------------
  // Where the original is.

  /** The regular files that were below dest are below `at`, byte for byte, but for some. */
  ghost predicate WholeAt(original: Tree, dest: Path, now: Tree, at: Path, except: set<Path>) {
    forall p :: dest <= p && IsRegular(original, p) && p !in except ==>
      Rebase(p, dest, at) in now && now[Rebase(p, dest, at)] == original[p]
  }

  /** The older directory is wholly at its place or wholly at the backup. */
  ghost predicate Recoverable(j: Job, now: Tree) {
    WholeAt(j.files, j.dest, now, j.dest, {}) || WholeAt(j.files, j.dest, now, j.backup, {})
  }

  ghost predicate AlwaysRecoverable(j: Job, trace: seq<Tree>, from: nat) {
    forall i :: from <= i < |trace| ==> Recoverable(j, trace[i])
  }

  /** Nothing changed but what is below dest or below its backup. */
  ghost predicate SiblingsKept(j: Job, now: Tree) {
    forall p {:trigger Same(j.files, now, p)} :: !(j.dest <= p) && !(j.backup <= p) ==> Same(j.files, now, p)
  }

  ghost function BackedUp(j: Job): set<Path> { Chosen(j.files, j.dest, |j.dest|, j.fails, ToBackup) }

  /** The original files that the backup passes over, since a look-up on the way to them fails. */
  ghost function Overlooked(j: Job): set<Path> { Regulars(j.files, j.dest) - BackedUp(j) }

  /** The source files that are installed. */
  ghost function Taken(j: Job): set<Path> { Chosen(j.files, j.src, |j.src|, j.fails, ToDest) }

  /** The original files that a restore passes over. */
  ghost function NotBrought(j: Job): set<Path> {
    set p |
      && p in Regulars(j.files, j.dest)
      && Skips(j.fails, LinkLookUp(BackToDest), |j.backup|, j.backup + p[|j.dest|..])
  }

  /** The disk once the backup is accepted. */
  ghost predicate Saved(j: Job, saved: Tree) { Placed(j.files, saved, BackedUp(j), j.dest, j.backup) }

  lemma SavedOutside(j: Job, saved: Tree)
    requires Saved(j, saved)
    ensures SameOutside(j.files, saved, j.backup)
  {
    ImageBelow(BackedUp(j), j.dest, j.backup);
    WithinMeansOutside(j.files, saved, Image(BackedUp(j), j.dest, j.backup), j.backup);
  }

  lemma BackupHolds(j: Job, saved: Tree, now: Tree)
    requires Proper(j) && Saved(j, saved) && SameOutside(saved, now, j.dest)
    ensures WholeAt(j.files, j.dest, now, j.backup, Overlooked(j))
  {
    forall p | j.dest <= p && IsRegular(j.files, p) && p !in Overlooked(j)
      ensures Rebase(p, j.dest, j.backup) in now && now[Rebase(p, j.dest, j.backup)] == j.files[p]
    {
      assert p in Regulars(j.files, j.dest) && p in BackedUp(j);
      assert Arrived(j.files, saved, p, j.dest, j.backup);
      RebaseBack(p, j.dest, j.backup);
      ApartBelow(j.backup, j.dest, Rebase(p, j.dest, j.backup));
      assert Same(saved, now, Rebase(p, j.dest, j.backup));
    }
  }

  lemma StaysInPlace(j: Job, now: Tree)
    requires Proper(j) && SameOutside(j.files, now, j.backup)
    ensures WholeAt(j.files, j.dest, now, j.dest, {}) && SiblingsKept(j, now)
  {
    forall p | j.dest <= p && IsRegular(j.files, p)
      ensures p in now && now[p] == j.files[p] && Rebase(p, j.dest, j.dest) == p
    {
      ApartBelow(j.dest, j.backup, p);
      assert Same(j.files, now, p);
    }
  }

  /** Up to the backup only the backup changes; from then on only the destination does. */
  ghost predicate InPhase(j: Job, saved: Option<Tree>, now: Tree) {
    SameOutside(j.files, now, j.backup) || (saved.Some? && SameOutside(saved.value, now, j.dest))
  }

  ghost predicate StepsInPhase(j: Job, saved: Option<Tree>, trace: seq<Tree>, from: nat) {
    forall i :: from <= i < |trace| ==> InPhase(j, saved, trace[i])
  }

  lemma PhaseKeeps(j: Job, saved: Option<Tree>, now: Tree)
    requires Proper(j) && InPhase(j, saved, now) && (saved.Some? ==> Saved(j, saved.value))
    ensures SiblingsKept(j, now)
    ensures WholeAt(j.files, j.dest, now, j.dest, {})
              || (saved.Some? && WholeAt(j.files, j.dest, now, j.backup, Overlooked(j)))
  {
    if SameOutside(j.files, now, j.backup) {
      StaysInPlace(j, now);
    } else {
      SavedOutside(j, saved.value);
      forall p | !(j.dest <= p) && !(j.backup <= p) ensures Same(j.files, now, p) {
        assert Same(j.files, saved.value, p) && Same(saved.value, now, p);
      }
      BackupHolds(j, saved.value, now);
    }
  }

  lemma PhasesKeep(j: Job, saved: Option<Tree>, trace: seq<Tree>, from: nat)
    requires Proper(j) && StepsInPhase(j, saved, trace, from) && (saved.Some? ==> Saved(j, saved.value))
    ensures forall i :: from <= i < |trace| ==> SiblingsKept(j, trace[i])
    ensures saved.None? || Overlooked(j) == {} ==> AlwaysRecoverable(j, trace, from)
  {
    forall i | from <= i < |trace|
      ensures SiblingsKept(j, trace[i]) && (saved.None? || Overlooked(j) == {} ==> Recoverable(j, trace[i]))
    {
      PhaseKeeps(j, saved, trace[i]);
    }
  }

  /** Once any of the original is gone from its place, a file that the backup passed over makes it unrecoverable. */
  lemma OverlookedIsLost(j: Job, saved: Tree, now: Tree)
    requires Proper(j) && Saved(j, saved) && SameOutside(saved, now, j.dest) && !Exists(j.files, j.backup)
    requires Overlooked(j) != {} && exists p :: p in Regulars(j.files, j.dest) && p !in now
    ensures !Recoverable(j, now)
  {
    var gone :| gone in Regulars(j.files, j.dest) && gone !in now;
    assert IsRegular(j.files, gone) && Rebase(gone, j.dest, j.dest) == gone;
    var p :| p in Overlooked(j);
    var q := Rebase(p, j.dest, j.backup);
    RebaseBack(p, j.dest, j.backup);
    ApartBelow(j.backup, j.dest, q);
    assert q !in Image(BackedUp(j), j.dest, j.backup) by {
      if q in Image(BackedUp(j), j.dest, j.backup) {
        var p' :| p' in BackedUp(j) && j.dest <= p' && q == j.backup + p'[|j.dest|..];
        RebaseInjective(p, p', j.dest, j.backup);
      }
    }
    assert Same(j.files, saved, q) && Same(saved, now, q) && q !in j.files;
    assert IsRegular(j.files, p);
  }

  // ---------------------------------------------------------------------------------------------
  // What equal counts say about a backup.

  lemma ImageOfOne(ps: set<Path>, from: Path, to: Path, p: Path)
    requires p in ps && from <= p
    ensures Image(ps, from, to) == Image(ps - {p}, from, to) + {Rebase(p, from, to)}
    ensures Rebase(p, from, to) !in Image(ps - {p}, from, to)
  {
    if Rebase(p, from, to) in Image(ps - {p}, from, to) {
      var r :| r in ps - {p} && from <= r && Rebase(p, from, to) == to + r[|from|..];
      RebaseInjective(p, r, from, to);
    }
    assert to + p[|from|..] == Rebase(p, from, to);
  }

  lemma {:induction false} RebasedCount(ps: set<Path>, from: Path, to: Path)
    requires forall p :: p in ps ==> from <= p
    ensures |Image(ps, from, to)| == |ps|
    decreases |ps|
  {
    if ps == {} {
      assert Image(ps, from, to) == {};
    } else {
      var p :| p in ps;
      var rest := ps - {p};
      RebasedCount(rest, from, to);
      ImageOfOne(ps, from, to, p);
    }
  }

  lemma SubsetCount<T>(a: set<T>, b: set<T>)
    requires a <= b
    ensures |a| <= |b| && (|a| == |b| ==> a == b) && |b - a| == |b| - |a|
  {
    assert b == a + (b - a);
    if |a| == |b| {
      assert b - a == {};
    }
  }

  /** What a free place holds after a copy is the image of the files copied. */
  lemma PlaceHolds(f0: Tree, f1: Tree, ps: set<Path>, dest: Path, backup: Path)
    requires Placed(f0, f1, ps, dest, backup) && !Exists(f0, backup)
    requires forall p :: p in ps ==> IsRegular(f0, p)
    ensures Regulars(f1, backup) == Image(ps, dest, backup)
    ensures backup in f1 ==> dest in ps
  {
    forall q | q in f1 && backup <= q ensures q in Image(ps, dest, backup) {
      assert q !in f0;
      assert !Same(f0, f1, q);
    }
    forall q | q in Image(ps, dest, backup) ensures IsRegular(f1, q) && backup <= q {
      var p :| p in ps && dest <= p && q == backup + p[|dest|..];
      assert Arrived(f0, f1, p, dest, backup) && q == Rebase(p, dest, backup);
    }
    if backup in f1 {
      var p :| p in ps && dest <= p && backup == backup + p[|dest|..];
      assert p[|dest|..] == [] && p == dest;
    }
  }

  /**
   * If the counts of the original and of a backup made in a free place agree, the backup passed over
   * no more files than the count of the original did, but for directories counted as files.
   */
  lemma EqualCounts(f0: Tree, f1: Tree, dest: Path, backup: Path, ps: set<Path>, counted: set<Path>, found: set<Path>,
                    extra: nat, extra': nat)
    requires Placed(f0, f1, ps, dest, backup) && ps <= Regulars(f0, dest) && !Exists(f0, backup)
    requires counted <= Regulars(f0, dest) && found <= Regulars(f1, backup) && |counted| + extra == |found| + extra'
    ensures |Regulars(f0, dest) - ps| + extra <= |Regulars(f0, dest) - counted| + extra'
  {
    PlaceHolds(f0, f1, ps, dest, backup);
    RebasedCount(ps, dest, backup);
    SubsetCount(found, Regulars(f1, backup));
    SubsetCount(ps, Regulars(f0, dest));
    SubsetCount(counted, Regulars(f0, dest));
  }

  lemma {:induction false} RebasedTotal(f0: Tree, f1: Tree, ps: set<Path>, from: Path, to: Path)
    requires forall p :: p in ps ==> IsRegular(f0, p) && Arrived(f0, f1, p, from, to)
    ensures forall q :: q in Image(ps, from, to) ==> IsRegular(f1, q)
    ensures TotalBytes(f1, Image(ps, from, to)) == TotalBytes(f0, ps)
    decreases |ps|
  {
    if ps == {} {
      assert Image(ps, from, to) == {};
    } else {
      var p :| p in ps;
      var rest := ps - {p};
      assert Arrived(f0, f1, p, from, to);
      RebasedTotal(f0, f1, rest, from, to);
      ImageOfOne(ps, from, to, p);
      assert ps == rest + {p};
      TotalOfOneMore(f0, rest, p);
      TotalOfOneMore(f1, Image(rest, from, to), Rebase(p, from, to));
    }
  }

  lemma {:induction false} SameTotal(f0: Tree, f1: Tree, ps: set<Path>)
    requires forall p :: p in ps ==> IsRegular(f0, p) && IsRegular(f1, p) && f0[p] == f1[p]
    ensures TotalBytes(f0, ps) == TotalBytes(f1, ps)
    decreases |ps|
  {
    if ps != {} {
      var p :| p in ps;
      SameTotal(f0, f1, ps - {p});
      assert ps == (ps - {p}) + {p};
      TotalOfOneMore(f0, ps - {p}, p);
      TotalOfOneMore(f1, ps - {p}, p);
    }
  }

  ghost function OriginalCounted(j: Job, now: Tree): set<Path> {
    Counted(now, j.dest, |j.dest|, j.fails, OriginalCount)
  }

  ghost function BackupCounted(j: Job, now: Tree): set<Path> {
    Counted(now, j.backup, |j.backup|, j.fails, BackupCount)
  }

  /** In the counts no look-up fails that could hide a file of the original or blow up the backup. */
  ghost predicate CountsSee(j: Job) {
    && (forall p :: j.dest <= p ==>
          !j.fails(CountLinkLookUp(OriginalCount), p) && !j.fails(CountDirLookUp(OriginalCount), p))
    && (forall p :: j.backup <= p ==> !j.fails(CountDirLookUp(BackupCount), p))
  }

  ghost predicate NoDirBlurs(j: Job) {
    forall p :: !j.fails(CountDirLookUp(OriginalCount), p) && !j.fails(CountDirLookUp(BackupCount), p)
  }

  /** The count of the original passes over what the backup passed over, and nothing else goes wrong in the counts. */
  ghost predicate CountsMatch(j: Job) {
    && NoDirBlurs(j) && (forall p :: !j.fails(CountLinkLookUp(BackupCount), p))
    && forall p :: p in Regulars(j.files, j.dest) ==>
         (Skips(j.fails, LinkLookUp(ToBackup), |j.dest|, p) <==>
           Skips(j.fails, CountLinkLookUp(OriginalCount), |j.dest|, p))
  }

  lemma StillThere(j: Job, saved: Tree, p: Path)
    requires Proper(j) && Saved(j, saved) && j.dest <= p
    ensures Same(j.files, saved, p)
  {
    SavedOutside(j, saved);
    ApartBelow(j.dest, j.backup, p);
  }

  lemma AllCountedWhenSeen(j: Job, saved: Tree)
    requires Proper(j) && Saved(j, saved) && CountsSee(j)
    ensures OriginalCounted(j, saved) == Regulars(j.files, j.dest)
  {
    forall p | j.dest <= p ensures Same(j.files, saved, p) && Reached(j.fails, OriginalCount, |j.dest|, p) {
      StillThere(j, saved, p);
      forall k | |j.dest| < k <= |p| ensures j.dest <= p[..k] {
      }
      assert forall k :: |j.dest| < k <= |p| - 1 ==> p[..|p| - 1][..k] == p[..k];
    }
    forall p ensures p in OriginalCounted(j, saved) <==> p in Regulars(j.files, j.dest) {
      if j.dest <= p {
        assert Same(j.files, saved, p);
      }
    }
  }

  /** Counts that see everything see a file that the backup passed over. */
  lemma AgreementMeansComplete(j: Job, saved: Tree, extra: nat, extra': nat)
    requires Proper(j) && Saved(j, saved) && CountsSee(j) && !Exists(j.files, j.backup)
    requires |OriginalCounted(j, saved)| + extra == |BackupCounted(j, saved)| + extra'
    requires extra' > 0 ==> Blurred(saved, j.backup, j.fails, BackupCount)
    ensures Overlooked(j) == {}
  {
    AllCountedWhenSeen(j, saved);
    assert !Blurred(saved, j.backup, j.fails, BackupCount);
    EqualCounts(j.files, saved, j.dest, j.backup, BackedUp(j), OriginalCounted(j, saved), BackupCounted(j, saved),
      extra, extra');
    assert |Overlooked(j)| == 0;
  }

  /** The files that the count of the original meets. */
  ghost function OriginalMet(j: Job): set<Path> { OriginalCounted(j, j.files) }

  /** The files that are backed up and then met by the count of the backup. */
  ghost function BackupMet(j: Job): set<Path> {
    set p | p in BackedUp(j) && Reached(j.fails, BackupCount, |j.backup|, j.backup + p[|j.dest|..])
  }

  /** The two counts and the two totals of bytes, as the failing look-ups determine them. */
  ghost predicate CountsEqual(j: Job) {
    && |OriginalMet(j)| == |BackupMet(j)|
    && TotalBytes(j.files, OriginalMet(j)) == TotalBytes(j.files, BackupMet(j))
  }

  lemma OriginalCountOfSaved(j: Job, saved: Tree)
    requires Proper(j) && Saved(j, saved)
    ensures OriginalCounted(j, saved) == OriginalMet(j)
    ensures TotalBytes(saved, OriginalMet(j)) == TotalBytes(j.files, OriginalMet(j))
  {
    forall p ensures p in OriginalCounted(j, saved) <==> p in OriginalMet(j) {
      if j.dest <= p {
        StillThere(j, saved, p);
      }
    }
    forall p | p in OriginalMet(j) ensures saved[p] == j.files[p] {
      StillThere(j, saved, p);
    }
    SameTotal(saved, j.files, OriginalMet(j));
  }

  lemma BackupCountOfSaved(j: Job, saved: Tree)
    requires Proper(j) && Saved(j, saved) && !Exists(j.files, j.backup)
    ensures BackupCounted(j, saved) == Image(BackupMet(j), j.dest, j.backup)
    ensures |BackupCounted(j, saved)| == |BackupMet(j)|
    ensures TotalBytes(saved, BackupCounted(j, saved)) == TotalBytes(j.files, BackupMet(j))
  {
    PlaceHolds(j.files, saved, BackedUp(j), j.dest, j.backup);
    assert forall q :: q in BackupCounted(j, saved) ==> q in Regulars(saved, j.backup);
    RebasedCount(BackupMet(j), j.dest, j.backup);
    RebasedTotal(j.files, saved, BackupMet(j), j.dest, j.backup);
  }

  lemma CountsOfSaved(j: Job, saved: Tree)
    requires Proper(j) && Saved(j, saved) && !Exists(j.files, j.backup)
    ensures forall p :: p in OriginalCounted(j, saved) || p in BackupCounted(j, saved) ==> IsRegular(saved, p)
    ensures CountsEqual(j) <==>
              && |OriginalCounted(j, saved)| == |BackupCounted(j, saved)|
              && TotalBytes(saved, OriginalCounted(j, saved)) == TotalBytes(saved, BackupCounted(j, saved))
  {
    OriginalCountOfSaved(j, saved);
    BackupCountOfSaved(j, saved);
  }

  /** Counts that pass over what the backup passed over agree. */
  lemma MatchMeansAgreement(j: Job)
    requires CountsMatch(j)
    ensures CountsEqual(j)
  {
    forall p ensures p in OriginalMet(j) <==> p in BackedUp(j) {
      if IsRegular(j.files, p) && j.dest <= p {
        assert p in Regulars(j.files, j.dest);
      }
    }
    assert OriginalMet(j) == BackedUp(j) == BackupMet(j);
  }

  // ---------------------------------------------------------------------------------------------
  // The steps of an installation.

  /** The disk runs the job: its calls fail as the job says, and it is as the job found it. */
  ghost predicate Starts(disk: TreeDisk, j: Job)
    reads disk
  {
    disk.Valid() && disk.files == j.files && disk.fails == j.fails && Proper(j)
  }

  /** The counts of the original and of its backup: None when one of the walks fails. */
  method CountsAgree(disk: TreeDisk, ghost j: Job, dest: Path, backup: Path)
    returns (agree: Option<bool>, ghost extra: nat, ghost extra': nat)
    requires WellFormed(disk.files) && disk.fails == j.fails && dest == j.dest && backup == j.backup
    ensures agree == Some(true) ==>
              |OriginalCounted(j, disk.files)| + extra == |BackupCounted(j, disk.files)| + extra'
    ensures extra' > 0 ==> Blurred(disk.files, j.backup, j.fails, BackupCount)
    ensures agree.Some? && NoDirBlurs(j) ==>
              && (forall p :: p in OriginalCounted(j, disk.files) || p in BackupCounted(j, disk.files) ==>
                IsRegular(disk.files, p))
              && (agree.value <==>
                   && |OriginalCounted(j, disk.files)| == |BackupCounted(j, disk.files)|
                   && TotalBytes(disk.files, OriginalCounted(j, disk.files))
                     == TotalBytes(disk.files, BackupCounted(j, disk.files)))
    ensures SmoothCount(j.fails, OriginalCount) && SmoothCount(j.fails, BackupCount) ==>
              dest in disk.files || backup in disk.files || agree.Some?
  {
    extra' := 0;
    var original, copy;
    original, extra := DirStats(disk, OriginalCount, dest);
    if original.None? {
      return None, extra, extra';
    }
    copy, extra' := DirStats(disk, BackupCount, backup);
    if copy.None? {
      return None, extra, extra';
    }
    agree := Some(original == copy);
  }

  /** No call of the counts fails but look-ups of links. */
  ghost predicate CanCount(j: Job) {
    SmoothCount(j.fails, OriginalCount) && SmoothCount(j.fails, BackupCount) && NoDirBlurs(j)
  }

  /** The backup can be made: nothing stands in its way, and no call fails with an error. */
  ghost predicate CanBackUp(j: Job) {
    && Smooth(j.fails, ToBackup) && Fits(j.files, j.dest, j.backup) && Exists(j.files, j.dest) && j.dest !in j.files
    && !Exists(j.files, j.backup) && CanCount(j)
  }

  lemma BackupOutside(f0: Tree, f: Tree, t: seq<Tree>, from: nat, begun: set<Path>, to: Path, ps: set<Path>, src: Path)
    requires Begun(f0, f, t, from, begun) && begun <= Image(ps, src, to)
    ensures StepsOutside(f0, t, from, to) && SameOutside(f0, f, to)
  {
    ImageBelow(ps, src, to);
    WithinMeansOutside(f0, f, begun, to);
    forall i | from <= i < |t| ensures SameOutside(f0, t[i], to) {
      WithinMeansOutside(f0, t[i], begun, to);
    }
  }

  /** The copy into the backup's place. */
  method CopyToBackup(disk: TreeDisk, j: Job) returns (ok: bool)
    requires Starts(disk, j) && Seen(j)
    modifies disk
    ensures disk.Valid() && old(disk.trace) <= disk.trace
    ensures StepsOutside(j.files, disk.trace, |old(disk.trace)|, j.backup) && SameOutside(j.files, disk.files, j.backup)
    ensures ok ==> Saved(j, disk.files)
    ensures CanBackUp(j) ==> ok
  {
    ghost var f0, t0, begun := disk.files, disk.trace, {};
    StraightIsUntangled(f0, j.dest, j.backup);
    StraightLandings(f0, BackedUp(j), j.dest, j.backup);
    ok, begun := CopyDir(disk, ToBackup, j.dest, j.backup, MaxLength(disk.files));
    BackupOutside(f0, disk.files, disk.trace, |t0|, begun, j.backup, BackedUp(j), j.dest);
    if ok {
      StraightPlaced(f0, disk.files, BackedUp(j), j.dest, j.backup);
    }
  }

  /** What agreeing counts promise of a backup in a free place. */
  ghost predicate Checked(j: Job) {
    !Exists(j.files, j.backup) ==> (CountsSee(j) ==> Overlooked(j) == {}) && (NoDirBlurs(j) ==> CountsEqual(j))
  }

  /**
   * A backup whose counts agree with those of the original, or an error and, of the original, nothing
   * changed. Where only look-ups of links fail the counts decide.
   */
  method MakeBackup(disk: TreeDisk, j: Job) returns (error: Option<InstallError>)
    requires Starts(disk, j) && Seen(j)
    modifies disk
    ensures disk.Valid() && old(disk.trace) <= disk.trace
    ensures StepsOutside(j.files, disk.trace, |old(disk.trace)|, j.backup) && SameOutside(j.files, disk.files, j.backup)
    ensures error == None ==> Saved(j, disk.files) && Checked(j)
    ensures error.Some? ==> error.value in {NoBackup, NotCounted, Incomplete}
    ensures CanBackUp(j) ==> error == if CountsEqual(j) then None else Some(Incomplete)
  {
    ghost var f0, t0 := disk.files, disk.trace;
    var ok := CopyToBackup(disk, j);
    ghost var f1, t1 := disk.files, disk.trace;
    if !ok {
      return Some(NoBackup);
    }
    if !Exists(j.files, j.backup) {
      CountsOfSaved(j, f1);
      StillThere(j, f1, j.dest);
      PlaceHolds(f0, f1, BackedUp(j), j.dest, j.backup);
    }
    var agree;
    ghost var extra, extra';
    agree, extra, extra' := CountsAgree(disk, j, j.dest, j.backup);
    if agree.None? {
      return Some(NotCounted);
    }
    if !agree.value {
      ok := disk.RemoveAll(OfBackup, j.backup);
      Transitive(f0, f1, disk.files, j.backup);
      StepsTransitive(f0, f1, t1, disk.trace, |t0|, j.backup);
      return Some(Incomplete);
    }
    if CountsSee(j) && !Exists(j.files, j.backup) {
      AgreementMeansComplete(j, f1, extra, extra');
    }
    error := None;
  }

  /** The original's regular files are all still at their place. */
  ghost predicate NoneGone(j: Job, now: Tree) { forall p :: p in Regulars(j.files, j.dest) ==> p in now }

  ghost predicate AllInPlace(j: Job, trace: seq<Tree>, from: nat) {
    forall i :: from <= i < |trace| ==> WholeAt(j.files, j.dest, trace[i], j.dest, {})
  }

  ghost predicate CanClear(j: Job) {
    forall p :: p in j.files && j.dest <= p ==> !j.fails(Remove(OfOriginal), p)
  }

  lemma StepsBeforeClearing(j: Job, trace: seq<Tree>, from: nat, saved: Option<Tree>)
    requires StepsOutside(j.files, trace, from, j.backup)
    ensures StepsInPhase(j, saved, trace, from)
  {
  }

  lemma StepsAfterClearing(j: Job, saved: Tree, now: Tree, t: seq<Tree>, t': seq<Tree>, from: nat)
    requires StepsInPhase(j, Some(saved), t, from) && SameOutside(saved, now, j.dest)
    requires t <= t' && StepsOutside(now, t', |t|, j.dest)
    ensures StepsInPhase(j, Some(saved), t', from)
  {
    forall i | from <= i < |t'| ensures InPhase(j, Some(saved), t'[i]) {
      if i < |t| {
        assert t'[i] == t[i];
      } else {
        Transitive(saved, now, t'[i], j.dest);
      }
    }
  }

  /** A clearing that stopped before any regular file was removed has kept them all in place. */
  lemma KeptInPlace(j: Job, saved: Tree, now: Tree, t: seq<Tree>, t': seq<Tree>, from: nat)
    requires Proper(j) && Saved(j, saved) && StepsOutside(j.files, t, from, j.backup) && t <= t'
    requires OnlyRemoved(saved, t', |t|, now) && NoneGone(j, now)
    ensures AllInPlace(j, t', from)
  {
    forall i | from <= i < |t'| ensures WholeAt(j.files, j.dest, t'[i], j.dest, {}) {
      if i < |t| {
        assert t'[i] == t[i];
        StaysInPlace(j, t[i]);
      } else {
        assert Keeps(now, t'[i]) && Keeps(now, saved);
        forall p | j.dest <= p && IsRegular(j.files, p)
          ensures p in t'[i] && t'[i][p] == j.files[p] && Rebase(p, j.dest, j.dest) == p
        {
          assert p in Regulars(j.files, j.dest);
          StillThere(j, saved, p);
        }
      }
    }
  }

  /** The block that sets an existing destination aside: copy it, compare the counts, and clear it. */
  method SetAside(disk: TreeDisk, j: Job) returns (error: Option<InstallError>, ghost saved: Option<Tree>)
    requires Starts(disk, j) && Seen(j)
    modifies disk
    ensures disk.Valid() && old(disk.trace) <= disk.trace
    ensures StepsInPhase(j, saved, disk.trace, |old(disk.trace)|)
    ensures saved.Some? <==> error == None || error == Some(NotCleared)
    ensures saved.Some? ==> Saved(j, saved.value) && SameOutside(saved.value, disk.files, j.dest)
    ensures saved.Some? ==> Checked(j)
    ensures saved.None? ==> SameOutside(j.files, disk.files, j.backup)
    ensures error == None ==> !Exists(disk.files, j.dest)
    ensures error == Some(NotCleared) && NoneGone(j, disk.files) ==> AllInPlace(j, disk.trace, |old(disk.trace)|)
    ensures error.Some? ==> error.value in {NoBackup, NotCounted, Incomplete, NotCleared}
    ensures CanBackUp(j) && CanClear(j) ==> error == if CountsEqual(j) then None else Some(Incomplete)
  {
    saved := None;
    ghost var from := |disk.trace|;
    error := MakeBackup(disk, j);
    ghost var f1, t1 := disk.files, disk.trace;
    StepsBeforeClearing(j, t1, from, saved);
    if error.Some? {
      return error, saved;
    }
    saved := Some(f1);
    StepsBeforeClearing(j, t1, from, saved);
    if CanClear(j) && CanBackUp(j) {
      forall p | p in f1 && j.dest <= p ensures p in j.files {
        StillThere(j, f1, p);
      }
    }
    var ok := disk.RemoveAll(OfOriginal, j.dest);
    StepsAfterClearing(j, f1, f1, t1, disk.trace, from);
    if NoneGone(j, disk.files) {
      KeptInPlace(j, f1, disk.files, t1, disk.trace, from);
    }
    error := if ok then None else Some(NotCleared);
  }

  /** What the restore brings back of a backup. */
  ghost predicate BroughtBack(j: Job, before: Tree, now: Tree) {
    forall q :: j.backup <= q && IsRegular(before, q) && !Skips(j.fails, LinkLookUp(BackToDest), |j.backup|, q) ==>
      Rebase(q, j.backup, j.dest) in now && now[Rebase(q, j.backup, j.dest)] == before[q]
  }

  lemma CopiedBack(j: Job, f0: Tree, f2: Tree, f3: Tree)
    requires Apart(j.dest, j.backup) && SameOutside(f0, f2, j.dest)
    requires Placed(f2, f3, Chosen(f2, j.backup, |j.backup|, j.fails, BackToDest), j.backup, j.dest)
    ensures BroughtBack(j, f0, f3)
  {
    forall q | j.backup <= q && IsRegular(f0, q) && !Skips(j.fails, LinkLookUp(BackToDest), |j.backup|, q)
      ensures Rebase(q, j.backup, j.dest) in f3 && f3[Rebase(q, j.backup, j.dest)] == f0[q]
    {
      ApartBelow(j.backup, j.dest, q);
      assert Same(f0, f2, q);
      assert Arrived(f2, f3, q, j.backup, j.dest);
    }
  }

  lemma RestoredIsOriginal(j: Job, saved: Tree, f2: Tree, now: Tree)
    requires Proper(j) && Saved(j, saved) && SameOutside(saved, f2, j.dest) && BroughtBack(j, f2, now)
    ensures WholeAt(j.files, j.dest, now, j.dest, Overlooked(j) + NotBrought(j))
  {
    BackupHolds(j, saved, f2);
    forall p | j.dest <= p && IsRegular(j.files, p) && p !in Overlooked(j) + NotBrought(j)
      ensures Rebase(p, j.dest, j.dest) in now && now[Rebase(p, j.dest, j.dest)] == j.files[p]
    {
      var q := Rebase(p, j.dest, j.backup);
      RebaseBack(p, j.dest, j.backup);
      assert p in Regulars(j.files, j.dest) && q == j.backup + p[|j.dest|..];
      assert IsRegular(f2, q) && f2[q] == j.files[p];
      assert Rebase(p, j.dest, j.dest) == p;
    }
  }

  lemma StillStraight(f: Tree, f': Tree, dir: Path)
    requires Straight(f, dir) && (SameLinks(f, f') || Keeps(f', f))
    ensures Straight(f', dir)
  {
    forall q | IsLink(f', q) ensures IsLink(f, q) {
    }
  }

  /** The copy of the backup into what is left of the destination. */
  method BringBack(disk: TreeDisk, j: Job) returns (ok: bool)
    requires disk.Valid() && disk.fails == j.fails && Apart(j.dest, j.backup) && Straight(disk.files, j.dest)
    modifies disk
    ensures disk.Valid() && old(disk.trace) <= disk.trace
    ensures StepsOutside(old(disk.files), disk.trace, |old(disk.trace)|, j.dest)
              && SameOutside(old(disk.files), disk.files, j.dest)
    ensures var f := old(disk.files);
            ok ==> Placed(f, disk.files, Chosen(f, j.backup, |j.backup|, j.fails, BackToDest), j.backup, j.dest)
  {
    ghost var f, t, ps := disk.files, disk.trace, Chosen(disk.files, j.backup, |j.backup|, j.fails, BackToDest);
    ghost var begun;
    StraightIsUntangled(f, j.backup, j.dest);
    StraightLandings(f, ps, j.backup, j.dest);
    ok, begun := CopyDir(disk, BackToDest, j.backup, j.dest, MaxLength(disk.files));
    BackupOutside(f, disk.files, disk.trace, |t|, begun, j.dest, ps, j.backup);
    if ok {
      StraightPlaced(f, disk.files, ps, j.backup, j.dest);
    }
  }

  /** The copy of the source into the cleared destination, and the restore from the backup when it fails. */
  method PutOrRestore(disk: TreeDisk, j: Job) returns (error: Option<InstallError>)
    requires disk.Valid() && disk.fails == j.fails && Apart(j.src, j.dest) && Apart(j.dest, j.backup)
    requires Straight(disk.files, j.dest)
    modifies disk
    ensures disk.Valid() && old(disk.trace) <= disk.trace
    ensures StepsOutside(old(disk.files), disk.trace, |old(disk.trace)|, j.dest)
              && SameOutside(old(disk.files), disk.files, j.dest)
    ensures error == None ==>
              Placed(old(disk.files), disk.files, Chosen(old(disk.files), j.src, |j.src|, j.fails, ToDest), j.src,
                j.dest)
    ensures error == Some(Restored) ==> BroughtBack(j, old(disk.files), disk.files)
    ensures error.Some? ==> error.value in {Restored, NotRestored}
    ensures var f := old(disk.files);
            Smooth(j.fails, ToDest) && Fits(f, j.src, j.dest) && Exists(f, j.src) && j.src !in f ==> error == None
  {
    ghost var f0, t0, ps := disk.files, disk.trace, Chosen(disk.files, j.src, |j.src|, j.fails, ToDest);
    var ok;
    ghost var begun;
    StraightIsUntangled(f0, j.src, j.dest);
    StraightLandings(f0, ps, j.src, j.dest);
    ok, begun := CopyDir(disk, ToDest, j.src, j.dest, MaxLength(disk.files));
    ghost var f1, t1 := disk.files, disk.trace;
    BackupOutside(f0, f1, t1, |t0|, begun, j.dest, ps, j.src);
    if ok {
      StraightPlaced(f0, f1, ps, j.src, j.dest);
      return None;
    }
    StillStraight(f0, f1, j.dest);
    ok := disk.RemoveAll(OfTorn, j.dest);
    StillStraight(f1, disk.files, j.dest);
    ghost var f2, t2 := disk.files, disk.trace;
    StepsTransitive(f0, f1, t1, t2, |t0|, j.dest);
    Transitive(f0, f1, f2, j.dest);
    ok := BringBack(disk, j);
    StepsTransitive(f0, f2, t2, disk.trace, |t0|, j.dest);
    Transitive(f0, f2, disk.files, j.dest);
    if ok {
      CopiedBack(j, f0, f2, disk.files);
    }
    error := Some(if ok then Restored else NotRestored);
  }

  // ---------------------------------------------------------------------------------------------
  // The whole installation.

  type Ending = Result<Option<Path>, InstallError>

  /** The run came to clear the destination. */
  predicate Cleared(r: Ending) {
    match r
    case Ok(kept) => kept.Some?
    case Err(e) => e == NotCleared || e == Restored || e == NotRestored
  }

  /** A regular file of the older directory. */
  predicate Old(j: Job, q: Path) { j.dest <= q && IsRegular(j.files, q) }

  /**
   * The original was cleared while the backup lacked some of it, or some of it was written over
   * without a backup; `begun` holds the places, reached through links or not, at which an unguarded copy
   * began to write.
   */
  ghost predicate Exposed(j: Job, r: Ending, now: Tree, begun: set<Path>) {
    || (Cleared(r) && Overlooked(j) != {} && (r == Err(NotCleared) ==> !NoneGone(j, now)))
    || (exists q :: q in begun && Old(j, q))
  }

  /** The backup's place is free and stays so, and what is written over holds something. */
  ghost predicate Telling(j: Job, begun: set<Path>) {
    && !Exists(j.files, j.backup)
    && forall q :: q in begun ==> !(j.backup <= q) && (Old(j, q) ==> j.files[q].bytes != [])
  }

  /** The same, but for the places at which an unguarded copy began to write, through links perhaps. */
  ghost predicate OthersKept(j: Job, now: Tree, begun: set<Path>) {
    forall p {:trigger Same(j.files, now, p)} ::
      !(j.dest <= p) && !(j.backup <= p) && p !in begun ==> Same(j.files, now, p)
  }

  /**
   * Siblings never change but where an unguarded copy writes, which empties them; and the original is
   * recoverable at every step if and only if it was not exposed.
   */
  ghost predicate Protected(j: Job, r: Ending, now: Tree, begun: set<Path>, trace: seq<Tree>, from: nat) {
    && (forall i :: from <= i < |trace| ==> OthersKept(j, trace[i], begun))
    && (forall q :: q in begun ==> Emptied(q, trace, from))
    && (!Exposed(j, r, now, begun) ==> AlwaysRecoverable(j, trace, from))
    && (Telling(j, begun) && Exposed(j, r, now, begun) ==> !AlwaysRecoverable(j, trace, from))
  }

  /** The installed files, and nothing else, are below dest. */
  ghost predicate Mirrored(j: Job, now: Tree) {
    forall p {:trigger Rebase(p, j.src, j.dest)} :: j.src <= p ==>
      if p in Taken(j) then Rebase(p, j.src, j.dest) in now && now[Rebase(p, j.src, j.dest)] == j.files[p]
      else Rebase(p, j.src, j.dest) !in now
  }

  /** What a run that came to replace the directory leaves, by its result. */
  ghost predicate Left(j: Job, r: Ending, now: Tree, begun: set<Path>) {
    match r
    case Ok(Some(kept)) =>
      Seen(j) && kept == j.backup && Mirrored(j, now) && WholeAt(j.files, j.dest, now, j.backup, Overlooked(j))
    case Ok(None) =>
      && !Seen(j) && begun == Landings(j.files, Taken(j), j.src, j.dest)
      && Filled(j.files, now, Taken(j), j.src, j.dest) && Within(j.files, now, begun)
    case Err(Restored) => Seen(j) && WholeAt(j.files, j.dest, now, j.dest, Overlooked(j) + NotBrought(j))
    case Err(NotRestored) => Seen(j) && WholeAt(j.files, j.dest, now, j.backup, Overlooked(j))
    case Err(NotCleared) => Seen(j) && WholeAt(j.files, j.dest, now, j.backup, Overlooked(j))
    case Err(NotWritten) => !Seen(j)
    case Err(_) => Seen(j) && SameOutside(j.files, now, j.backup)
  }

  lemma TraceGrew(t: seq<Tree>, t': seq<Tree>)
    requires t != [] && t <= t' && t[|t| - 1] != t'[|t'| - 1]
    ensures |t| < |t'|
  {
  }

  /** The state at which the destination was cleared, or the clearing stopped, decides. */
  lemma ClearingDecides(j: Job, saved: Tree, f2: Tree, t0: seq<Tree>, t2: seq<Tree>, trace: seq<Tree>, r: Ending,
                        now: Tree)
    requires Proper(j) && Saved(j, saved) && StepsInPhase(j, Some(saved), trace, |t0|) && SameOutside(saved, f2, j.dest)
    requires t0 != [] && t0[|t0| - 1] == j.files && t0 <= t2 <= trace && t2[|t2| - 1] == f2
    requires Cleared(r) && (if r == Err(NotCleared) then f2 == now && (NoneGone(j, now) ==> AllInPlace(j, trace, |t0|))
                            else !Exists(f2, j.dest))
    ensures Protected(j, r, now, {}, trace, |t0|)
  {
    PhasesKeep(j, Some(saved), trace, |t0|);
    if AllInPlace(j, trace, |t0|) {
      assert AlwaysRecoverable(j, trace, |t0|);
    }
    if Telling(j, {}) && Exposed(j, r, now, {}) {
      var p :| p in Overlooked(j);
      assert p in Regulars(j.files, j.dest);
      if r != Err(NotCleared) {
        assert p !in f2;
      }
      assert !NoneGone(j, f2);
      assert f2 != j.files;
      TraceGrew(t0, t2);
      OverlookedIsLost(j, saved, f2);
      assert trace[|t2| - 1] == f2;
    }
  }

  lemma WrittenBeside(j: Job, now: Tree, begun: set<Path>)
    requires Within(j.files, now, begun) && forall q :: q in begun ==> !Old(j, q)
    ensures WholeAt(j.files, j.dest, now, j.dest, {})
  {
    forall p | j.dest <= p && IsRegular(j.files, p)
      ensures p in now && now[p] == j.files[p] && Rebase(p, j.dest, j.dest) == p
    {
      assert Same(j.files, now, p);
    }
  }

  lemma WrittenOver(j: Job, now: Tree, begun: set<Path>, q: Path)
    requires Proper(j) && Within(j.files, now, begun) && Telling(j, begun)
    requires q in begun && Old(j, q) && q in now && now[q] == Regular([])
    ensures !Recoverable(j, now)
  {
    assert Rebase(q, j.dest, j.dest) == q;
    var b := Rebase(q, j.dest, j.backup);
    RebaseBack(q, j.dest, j.backup);
    assert Same(j.files, now, b);
  }

  /** Writing over an original that was not backed up loses it; writing beside it does not. */
  lemma UnguardedDecides(j: Job, r: Ending, now: Tree, trace: seq<Tree>, from: nat, begun: set<Path>)
    requires Proper(j) && Begun(j.files, now, trace, from, begun) && !Cleared(r)
    ensures Protected(j, r, now, begun, trace, from)
  {
    forall i | from <= i < |trace|
      ensures OthersKept(j, trace[i], begun) && (!Exposed(j, r, now, begun) ==> Recoverable(j, trace[i]))
    {
      if !Exposed(j, r, now, begun) {
        WrittenBeside(j, trace[i], begun);
      }
    }
    if Telling(j, begun) && Exposed(j, r, now, begun) {
      var q :| q in begun && Old(j, q);
      assert Emptied(q, trace, from);
      var i :| from <= i < |trace| && q in trace[i] && trace[i][q] == Regular([]);
      WrittenOver(j, trace[i], begun, q);
    }
  }

  lemma SourceKept(j: Job, now: Tree)
    requires Proper(j) && SiblingsKept(j, now)
    ensures forall p {:trigger Same(j.files, now, p)} :: j.src <= p ==> Same(j.files, now, p)
    ensures Chosen(now, j.src, |j.src|, j.fails, ToDest) == Taken(j)
    ensures Exists(j.files, j.src) ==> Exists(now, j.src)
    ensures j.src in now <==> j.src in j.files
  {
    assert j.src <= j.src;
    forall p | j.src <= p ensures (p in now <==> p in j.files) && (p in now ==> now[p] == j.files[p]) {
      ApartBelow(j.src, j.dest, p);
      ApartBelow(j.src, j.backup, p);
      assert Same(j.files, now, p);
    }
  }

  lemma CopiedIntoNothing(j: Job, f: Tree, now: Tree)
    requires Proper(j) && SiblingsKept(j, f) && Placed(f, now, Taken(j), j.src, j.dest) && !Exists(f, j.dest)
    ensures Mirrored(j, now)
  {
    SourceKept(j, f);
    forall p | j.src <= p
      ensures if p in Taken(j) then Rebase(p, j.src, j.dest) in now && now[Rebase(p, j.src, j.dest)] == j.files[p]
              else Rebase(p, j.src, j.dest) !in now
    {
      var q := Rebase(p, j.src, j.dest);
      if p in Taken(j) {
        assert Arrived(f, now, p, j.src, j.dest) && Same(j.files, f, p);
      } else {
        assert q !in Image(Taken(j), j.src, j.dest) by {
          if q in Image(Taken(j), j.src, j.dest) {
            var p' :| p' in Taken(j) && j.src <= p' && q == j.dest + p'[|j.src|..];
            RebaseInjective(p, p', j.src, j.dest);
          }
        }
        assert Same(f, now, q) && q !in f;
      }
    }
  }

  lemma NoFileAbove(j: Job, f: Tree, q: Path)
    requires Proper(j) && SiblingsKept(j, f) && Exists(j.files, j.dest) && !Exists(f, j.dest) && q in f
    ensures !(q <= j.dest)
  {
    if q <= j.dest {
      assert q != j.dest;
      var p :| p in j.files && j.dest <= p;
      assert !(j.backup <= q) && !(j.dest <= q);
      assert Same(j.files, f, q) && q == p[..|q|];
      assert Below(q, p);
    }
  }

  lemma ClearedHasRoom(j: Job, f: Tree)
    requires Proper(j) && SiblingsKept(j, f) && Exists(j.files, j.dest) && !Exists(f, j.dest)
    ensures forall p, q :: p in f && j.src <= p && q in f ==>
              !Below(q, Rebase(p, j.src, j.dest)) && !Below(Rebase(p, j.src, j.dest), q)
  {
    forall p, q | p in f && j.src <= p && q in f
      ensures !Below(q, Rebase(p, j.src, j.dest)) && !Below(Rebase(p, j.src, j.dest), q)
    {
      RebaseBack(p, j.src, j.dest);
      if Below(q, Rebase(p, j.src, j.dest)) {
        PrefixesMeet(q, j.dest, Rebase(p, j.src, j.dest));
        NoFileAbove(j, f, q);
      }
    }
  }

  /** A cleared destination has room for anything. */
  lemma ClearedFits(j: Job, f: Tree)
    requires Proper(j) && SiblingsKept(j, f) && Exists(j.files, j.dest) && !Exists(f, j.dest)
    ensures Straight(f, j.dest) && (WellFormed(f) ==> Fits(f, j.src, j.dest))
  {
    forall q | IsLink(f, q) ensures Apart(q, j.dest) {
      NoFileAbove(j, f, q);
    }
    if WellFormed(f) {
      ClearedHasRoom(j, f);
      StraightFits(f, j.src, j.dest);
    }
  }

  /** The loss of an original: what protects it, and what the counts add. */
  ghost predicate Guarded(j: Job, r: Ending, now: Tree, begun: set<Path>, trace: seq<Tree>, from: nat) {
    && Protected(j, r, now, begun, trace, from)
    && (Cleared(r) ==> Checked(j))
    && begun <= Landings(j.files, Taken(j), j.src, j.dest) && (Seen(j) ==> begun == {})
  }

  /**
   * Without errors but from look-ups of links, and with nothing in the way, the counts decide whether the
   * destination is cleared, and a run that is not stopped by them succeeds.
   */
  ghost predicate Succeeds(j: Job, r: Ending) {
    && (Seen(j) && CanBackUp(j) && CanClear(j) ==>
          if CountsEqual(j)
          then Cleared(r) && r != Err(NotCleared) && (Smooth(j.fails, ToDest) ==> r == Ok(Some(j.backup)))
          else r == Err(Incomplete))
    && (!Seen(j) && Smooth(j.fails, ToDest) && Fits(j.files, j.src, j.dest) ==> r == Ok(None))
  }

  /** The places an unguarded copy writes if nothing stops it. */
  ghost function Targets(j: Job): set<Path> {
    if Seen(j) then {} else Landings(j.files, Taken(j), j.src, j.dest)
  }

  /**
   * The look-ups that fail lose the original: they hide a file from the backup and leave the counts equal, or hide
   * it whole.
   */
  ghost predicate Loses(j: Job) {
    if Seen(j) then Overlooked(j) != {} && CountsEqual(j) else exists q :: q in Targets(j) && Old(j, q)
  }

  /** Nothing but look-ups of links, and the look-up before the backup, stops or misleads the run. */
  ghost predicate Calm(j: Job) {
    if Seen(j) then CanBackUp(j) && CanClear(j) else Smooth(j.fails, ToDest) && Fits(j.files, j.src, j.dest)
  }

  /** The counts are of files, made where the backup's place is free. */
  ghost predicate Judged(j: Job) {
    Seen(j) && Overlooked(j) != {} ==> NoDirBlurs(j) && !Exists(j.files, j.backup)
  }

  /** What can be told before a run: exactly, of a calm one; that nothing is lost, of every other. */
  ghost predicate Foretold(j: Job, trace: seq<Tree>, from: nat) {
    && (Judged(j) && !Loses(j) ==> AlwaysRecoverable(j, trace, from))
    && (Calm(j) && Loses(j) && Telling(j, Targets(j)) ==> !AlwaysRecoverable(j, trace, from))
  }

  lemma RunIsForetold(j: Job, r: Ending, now: Tree, begun: set<Path>, trace: seq<Tree>, from: nat)
    requires Guarded(j, r, now, begun, trace, from) && Left(j, r, now, begun) && Succeeds(j, r)
    ensures Foretold(j, trace, from)
  {
    if Judged(j) && !Loses(j) {
      assert !Exposed(j, r, now, begun);
    }
    if Calm(j) && Loses(j) && Telling(j, Targets(j)) {
      assert Telling(j, begun) && Exposed(j, r, now, begun);
    }
  }

  predicate HasSkill(files: Tree, dir: Path) { Found(files, dir + [SKILL_FILE]) }

  /** What is read at an item. */
  function Shown(item: Item): Listing {
    match item
    case Regular(bytes) => map[[] := bytes]
    case Link(_, shows) => shows
  }

  /** What is read below dir, by relative path, links included. */
  function View(files: Tree, dir: Path): map<Path, Listing> {
    map r |
      && r in (set p | p in files && dir <= p :: p[|dir|..])
      && dir + r in files && Shown(files[dir + r]) != map[]
      :: Shown(files[dir + r])
  }

  predicate IsShown(files: Tree, p: Path) { p in files && Shown(files[p]) != map[] }

  lemma ViewAt(files: Tree, dir: Path, p: Path)
    requires dir <= p
    ensures IsShown(files, p) <==> p[|dir|..] in View(files, dir)
    ensures IsShown(files, p) ==> View(files, dir)[p[|dir|..]] == Shown(files[p])
  {
    assert dir + p[|dir|..] == p;
  }

  /** Both directories hold the same, the skill among it. */
  ghost predicate UpToDate(files: Tree, src: Path, dest: Path) {
    HasSkill(files, src) && HasSkill(files, dest) && View(files, src) == View(files, dest)
  }

  /** Everything that is read in the source is a file of it that is taken. */
  ghost predicate ShowsOnlyTaken(j: Job) { forall p :: j.src <= p && IsShown(j.files, p) ==> p in Taken(j) }

  /** Everything that is read in the source is a file of it that is taken, and the skill is one. */
  ghost predicate TakesAll(j: Job) {
    ShowsOnlyTaken(j) && exists p :: p in Taken(j) && j.src + [SKILL_FILE] <= p
  }

  /** Nothing older that was not seen is left below the destination. */
  predicate StartsAfresh(j: Job) { Seen(j) || !Exists(j.files, j.dest) }

  lemma MirroredView(j: Job, now: Tree, p: Path)
    requires Proper(j) && Mirrored(j, now) && SiblingsKept(j, now) && j.src <= p
    ensures var q := Rebase(p, j.src, j.dest);
            && (IsShown(now, q) <==> p in Taken(j)) && (p in Taken(j) ==> Shown(now[q]) == Shown(j.files[p]))
            && Same(j.files, now, p)
  {
    SourceKept(j, now);
    assert Same(j.files, now, p);
    if p in Taken(j) {
      assert [] in Shown(j.files[p]);
    }
  }

  lemma MirroredEntry(j: Job, now: Tree, r: Path)
    requires Proper(j) && Mirrored(j, now) && SiblingsKept(j, now)
    ensures r in View(now, j.src) <==> IsShown(j.files, j.src + r)
    ensures r in View(now, j.dest) <==> j.src + r in Taken(j)
    ensures j.src + r in Taken(j) ==> IsShown(j.files, j.src + r)
    ensures j.src + r in Taken(j) ==> View(now, j.src)[r] == View(now, j.dest)[r]
  {
    var p := j.src + r;
    assert Rebase(p, j.src, j.dest) == j.dest + r && p[|j.src|..] == r && (j.dest + r)[|j.dest|..] == r;
    MirroredView(j, now, p);
    ViewAt(now, j.src, p);
    ViewAt(now, j.dest, j.dest + r);
    if p in Taken(j) {
      assert [] in Shown(j.files[p]);
    }
  }

  lemma SameViewIfTaken(j: Job, now: Tree)
    requires Proper(j) && Mirrored(j, now) && SiblingsKept(j, now) && ShowsOnlyTaken(j)
    ensures View(now, j.src) == View(now, j.dest)
  {
    forall r
      ensures r in View(now, j.src) <==> r in View(now, j.dest)
      ensures r in View(now, j.src) ==> View(now, j.src)[r] == View(now, j.dest)[r]
    {
      MirroredEntry(j, now, r);
      assert j.src <= j.src + r;
    }
  }

  /** What is shown and not taken tells the views apart. */
  lemma UntakenDiffers(j: Job, now: Tree, p: Path)
    requires Proper(j) && Mirrored(j, now) && SiblingsKept(j, now)
    requires j.src <= p && IsShown(j.files, p) && p !in Taken(j)
    ensures p[|j.src|..] in View(now, j.src) && p[|j.src|..] !in View(now, j.dest)
  {
    assert j.src + p[|j.src|..] == p;
    MirroredEntry(j, now, p[|j.src|..]);
  }

  lemma MirroredIsSameView(j: Job, now: Tree)
    requires Proper(j) && Mirrored(j, now) && SiblingsKept(j, now)
    ensures View(now, j.src) == View(now, j.dest) <==> ShowsOnlyTaken(j)
  {
    if ShowsOnlyTaken(j) {
      SameViewIfTaken(j, now);
    }
    if p :| j.src <= p && IsShown(j.files, p) && p !in Taken(j) {
      UntakenDiffers(j, now, p);
    }
  }

  lemma MirroredSkill(j: Job, now: Tree)
    requires Proper(j) && Mirrored(j, now) && Straight(now, j.dest)
    ensures HasSkill(now, j.dest) <==> exists p :: p in Taken(j) && j.src + [SKILL_FILE] <= p
  {
    LandBelow(now, j.dest, j.dest + [SKILL_FILE]);
    if p :| p in Taken(j) && j.src + [SKILL_FILE] <= p {
      RebaseEntry(p, j.src, j.dest, SKILL_FILE);
    }
    if HasSkill(now, j.dest) {
      var q :| q in now && j.dest + [SKILL_FILE] <= q;
      EntryPrefix(j.dest, SKILL_FILE, q);
      RebaseBack(q, j.dest, j.src);
      var p := Rebase(q, j.dest, j.src);
      assert Rebase(p, j.src, j.dest) == q;
      EntryPrefix(j.src, SKILL_FILE, p);
      assert p in Taken(j);
    }
  }

  lemma MirroredHoldsFiles(j: Job, now: Tree, q: Path)
    requires Mirrored(j, now) && j.dest <= q && q in now
    ensures IsRegular(now, q)
  {
    RebaseBack(q, j.dest, j.src);
    assert Rebase(Rebase(q, j.dest, j.src), j.src, j.dest) == q;
  }

  lemma MirroredIsStraight(j: Job, now: Tree)
    requires Proper(j) && Mirrored(j, now) && SiblingsKept(j, now)
    ensures Straight(now, j.dest)
  {
    forall q | IsLink(now, q) ensures Apart(q, j.dest) {
      if j.dest <= q {
        MirroredHoldsFiles(j, now, q);
      } else if q <= j.dest {
        assert !(j.backup <= q) && Same(j.files, now, q);
        assert IsLink(j.files, q);
      }
    }
  }

  lemma TakenSkillIsFound(j: Job, now: Tree)
    requires Proper(j) && SiblingsKept(j, now) && WellFormed(now) && TakesAll(j)
    ensures HasSkill(now, j.src)
  {
    SourceKept(j, now);
    var p :| p in Taken(j) && j.src + [SKILL_FILE] <= p;
    EntryPrefix(j.src, SKILL_FILE, p);
    assert Same(j.files, now, p);
    assert !IsLink(now, j.src + [SKILL_FILE]) by {
      assert p == j.src + [SKILL_FILE] || Below(j.src + [SKILL_FILE], p);
    }
    SeenIsFree(now, j.src + [SKILL_FILE]);
    LandStraight(now, j.src + [SKILL_FILE]);
  }

  /** A mirrored destination is up to date exactly if the source shows nothing but the files taken from it. */
  lemma MirroredIsUpToDate(j: Job, now: Tree)
    requires Proper(j) && Mirrored(j, now) && SiblingsKept(j, now) && WellFormed(now)
    ensures UpToDate(now, j.src, j.dest) <==> TakesAll(j)
  {
    MirroredIsStraight(j, now);
    MirroredIsSameView(j, now);
    MirroredSkill(j, now);
    if TakesAll(j) {
      TakenSkillIsFound(j, now);
    }
  }

  lemma EndKeepsOthers(j: Job, begun: set<Path>, t: seq<Tree>, t': seq<Tree>)
    requires t != [] && t <= t' && t[|t| - 1] == j.files
    requires forall i :: |t| <= i < |t'| ==> OthersKept(j, t'[i], begun)
    ensures OthersKept(j, t'[|t'| - 1], begun)
  {
    if |t| == |t'| {
      assert t' == t;
    }
  }

  /** A copy into nothing mirrors the source. */
  lemma CopiedAfresh(j: Job, now: Tree, begun: set<Path>)
    requires Proper(j) && !Exists(j.files, j.dest) && Left(j, Ok(None), now, begun)
    ensures Mirrored(j, now) && SiblingsKept(j, now)
  {
    assert Straight(j.files, j.dest);
    StraightLandings(j.files, Taken(j), j.src, j.dest);
    StraightPlaced(j.files, now, Taken(j), j.src, j.dest);
    CopiedIntoNothing(j, j.files, now);
    ImageBelow(Taken(j), j.src, j.dest);
  }

  /** What a replacement that ended well leaves for the next run. */
  lemma NextRunIsQuiet(j: Job, r: Ending, now: Tree, begun: set<Path>, t: seq<Tree>, t': seq<Tree>)
    requires t != [] && t <= t' && t[|t| - 1] == j.files && t'[|t'| - 1] == now && WellFormed(now)
    requires Proper(j) && Guarded(j, r, now, begun, t', |t|) && Left(j, r, now, begun)
    ensures r.Ok? && StartsAfresh(j) ==> (UpToDate(now, j.src, j.dest) <==> TakesAll(j))
  {
    if r.Ok? && StartsAfresh(j) {
      EndKeepsOthers(j, begun, t, t');
      if r == Ok(None) {
        CopiedAfresh(j, now, begun);
      } else {
        assert SiblingsKept(j, now);
      }
      MirroredIsUpToDate(j, now);
    }
  }

  /** What a run does that comes to replace the destination. */
  ghost predicate Replaced(j: Job, r: Ending, now: Tree, begun: set<Path>, trace: seq<Tree>, from: nat) {
    && Guarded(j, r, now, begun, trace, from) && Left(j, r, now, begun) && Succeeds(j, r) && Foretold(j, trace, from)
    && (r.Ok? && StartsAfresh(j) ==> (UpToDate(now, j.src, j.dest) <==> TakesAll(j)))
  }

  lemma Concluded(j: Job, r: Ending, now: Tree, begun: set<Path>, t: seq<Tree>, t': seq<Tree>)
    requires t != [] && t <= t' && t[|t| - 1] == j.files && t'[|t'| - 1] == now && WellFormed(now) && Proper(j)
    requires Guarded(j, r, now, begun, t', |t|) && Left(j, r, now, begun) && Succeeds(j, r)
    ensures Replaced(j, r, now, begun, t', |t|)
  {
    RunIsForetold(j, r, now, begun, t', |t|);
    NextRunIsQuiet(j, r, now, begun, t, t');
  }

  method PutOver(disk: TreeDisk, j: Job) returns (r: Ending, ghost begun: set<Path>)
    requires Starts(disk, j) && !Seen(j) && Exists(j.files, j.src) && j.src !in j.files
    modifies disk
    ensures disk.Valid() && old(disk.trace) <= disk.trace
    ensures Guarded(j, r, disk.files, begun, disk.trace, |old(disk.trace)|) && Left(j, r, disk.files, begun)
              && Succeeds(j, r)
    ensures r == Ok(None) || r == Err(NotWritten)
  {
    var ok;
    ok, begun := CopyDir(disk, ToDest, j.src, j.dest, MaxLength(disk.files));
    r := if ok then Ok(None) else Err(NotWritten);
    UnguardedDecides(j, r, disk.files, disk.trace, |old(disk.trace)|, begun);
  }

  /** The copy of the source when no older directory is seen: what may be there stays, or is written over. */
  method PutUnguarded(disk: TreeDisk, j: Job) returns (r: Ending, ghost begun: set<Path>)
    requires Starts(disk, j) && !Seen(j) && Exists(j.files, j.src) && j.src !in j.files
    modifies disk
    ensures disk.Valid() && old(disk.trace) <= disk.trace
    ensures Replaced(j, r, disk.files, begun, disk.trace, |old(disk.trace)|)
    ensures r == Ok(None) || r == Err(NotWritten)
  {
    ghost var t := disk.trace;
    r, begun := PutOver(disk, j);
    Concluded(j, r, disk.files, begun, t, disk.trace);
  }

  /** A run that ends before the destination is cleared. */
  lemma StoppedEarly(j: Job, saved: Option<Tree>, f2: Tree, t0: seq<Tree>, t2: seq<Tree>, error: InstallError)
    requires Proper(j) && Seen(j) && t0 != [] && t0[|t0| - 1] == j.files && t0 <= t2 && t2[|t2| - 1] == f2
    requires StepsInPhase(j, saved, t2, |t0|) && error in {NoBackup, NotCounted, Incomplete, NotCleared}
    requires if error == NotCleared then saved.Some? && Saved(j, saved.value) && SameOutside(saved.value, f2, j.dest)
             else saved.None? && SameOutside(j.files, f2, j.backup)
    requires error == NotCleared && NoneGone(j, f2) ==> AllInPlace(j, t2, |t0|)
    ensures Protected(j, Err(error), f2, {}, t2, |t0|) && Left(j, Err(error), f2, {})
  {
    if error == NotCleared {
      ClearingDecides(j, saved.value, f2, t0, t2, t2, Err(error), f2);
      BackupHolds(j, saved.value, f2);
    } else {
      PhasesKeep(j, saved, t2, |t0|);
    }
  }

  /** A run that got past the clearing. */
  lemma WentOn(j: Job, saved: Tree, f2: Tree, t0: seq<Tree>, t2: seq<Tree>, now: Tree, trace: seq<Tree>, r: Ending)
    requires Proper(j) && Seen(j) && t0 != [] && t0[|t0| - 1] == j.files && t0 <= t2 <= trace && t2[|t2| - 1] == f2
    requires Saved(j, saved) && StepsInPhase(j, Some(saved), t2, |t0|) && SameOutside(saved, f2, j.dest)
               && !Exists(f2, j.dest)
    requires StepsOutside(f2, trace, |t2|, j.dest) && SameOutside(f2, now, j.dest)
    requires r in {Ok(Some(j.backup)), Err(Restored), Err(NotRestored)}
    requires r.Ok? ==> Placed(f2, now, Taken(j), j.src, j.dest) && SiblingsKept(j, f2)
    requires r == Err(Restored) ==> BroughtBack(j, f2, now)
    ensures Protected(j, r, now, {}, trace, |t0|) && Left(j, r, now, {})
  {
    StepsAfterClearing(j, saved, f2, t2, trace, |t0|);
    Transitive(saved, f2, now, j.dest);
    BackupHolds(j, saved, now);
    ClearingDecides(j, saved, f2, t0, t2, trace, r, now);
    if r.Ok? {
      CopiedIntoNothing(j, f2, now);
    } else if r == Err(Restored) {
      RestoredIsOriginal(j, saved, f2, now);
    }
  }

  method PutAside(disk: TreeDisk, j: Job) returns (r: Ending)
    requires Starts(disk, j) && Seen(j) && Exists(j.files, j.src) && j.src !in j.files
    modifies disk
    ensures disk.Valid() && old(disk.trace) <= disk.trace
    ensures Guarded(j, r, disk.files, {}, disk.trace, |old(disk.trace)|) && Left(j, r, disk.files, {}) && Succeeds(j, r)
    ensures r != Ok(None)
    ensures r.Err? ==> r.error in {NoBackup, NotCounted, Incomplete, NotCleared, Restored, NotRestored}
  {
    ghost var t0 := disk.trace;
    ghost var saved;
    var error;
    error, saved := SetAside(disk, j);
    ghost var f2, t2 := disk.files, disk.trace;
    if error.Some? {
      StoppedEarly(j, saved, f2, t0, t2, error.value);
      return Err(error.value);
    }
    PhaseKeeps(j, saved, f2);
    SourceKept(j, f2);
    ClearedFits(j, f2);
    error := PutOrRestore(disk, j);
    r := if error.Some? then Err(error.value) else Ok(Some(j.backup));
    WentOn(j, saved.value, f2, t0, t2, disk.files, disk.trace, r);
  }

  method ReplaceOlder(disk: TreeDisk, j: Job) returns (r: Ending)
    requires Starts(disk, j) && Seen(j) && Exists(j.files, j.src) && j.src !in j.files
    modifies disk
    ensures disk.Valid() && old(disk.trace) <= disk.trace
    ensures Replaced(j, r, disk.files, {}, disk.trace, |old(disk.trace)|)
    ensures r != Ok(None)
    ensures r.Err? ==> r.error in {NoBackup, NotCounted, Incomplete, NotCleared, Restored, NotRestored}
  {
    ghost var t0 := disk.trace;
    r := PutAside(disk, j);
    Concluded(j, r, disk.files, {}, t0, disk.trace);
  }

  /** From the backup of what is there to the copy of the source. */
  method Replace(disk: TreeDisk, j: Job) returns (r: Ending, ghost begun: set<Path>)
    requires Starts(disk, j) && Exists(j.files, j.src) && j.src !in j.files
    modifies disk
    ensures disk.Valid() && old(disk.trace) <= disk.trace
    ensures Replaced(j, r, disk.files, begun, disk.trace, |old(disk.trace)|)
    ensures r.Err? ==> r.error !in {NoSource, NoSkillFile, NoParent}
  {
    begun := {};
    LandStraight(disk.files, j.dest);
    var there := disk.LookUp(ExistsToBackUp, j.dest);
    if there {
      r := ReplaceOlder(disk, j);
    } else {
      r, begun := PutUnguarded(disk, j);
    }
  }

  // ---------------------------------------------------------------------------------------------
  // The comparison that comes first.

  /** The comparison finds the directories identical; h is the hash of a directory's contents. */
  predicate LooksIdentical(j: Job, h: map<Path, Listing> -> int) {
    && Exists(j.files, j.dest) && !j.fails(DestExists, j.dest) && !j.fails(CompareExists, j.dest)
    && IsDir(j.files, j.dest) && !j.fails(CompareDir, j.dest)
    && HasSkill(j.files, j.dest) && !j.fails(CompareSkill, j.dest + [SKILL_FILE])
    && !j.fails(HashDir, j.src) && !j.fails(HashDir, j.dest)
    && h(View(j.files, j.src)) == h(View(j.files, j.dest))
  }

  /** `dest.exists() && dirs_are_identical`. */
  method Identical(disk: TreeDisk, j: Job, h: map<Path, Listing> -> int) returns (same: bool)
    requires WellFormed(disk.files) && disk.files == j.files && disk.fails == j.fails && LinkFree(j.files, j.dest)
    ensures same <==> LooksIdentical(j, h)
  {
    LandStraight(disk.files, j.dest);
    var first := disk.LookUp(DestExists, j.dest);
    if !first {
      return false;
    }
    var exists' := disk.LookUp(CompareExists, j.dest);
    var dir := disk.LookUpDir(CompareDir, j.dest);
    var skill := disk.LookUp(CompareSkill, j.dest + [SKILL_FILE]);
    if !exists' || !dir || !skill {
      return false;
    }
    same := !disk.fails(HashDir, j.src) && !disk.fails(HashDir, j.dest)
      && h(View(disk.files, j.src)) == h(View(disk.files, j.dest));
  }

  /** A directory in which the skill is found, through a link perhaps, is one. */
  lemma LinkedSkillIsBelow(files: Tree, dir: Path)
    requires WellFormed(files) && LinkFree(files, dir) && HasSkill(files, dir)
    ensures Exists(files, dir) && dir !in files && IsDir(files, dir)
  {
    var skill := dir + [SKILL_FILE];
    if IsLink(files, skill) {
      assert Below(dir, skill);
    } else {
      FreeStep(files, dir, SKILL_FILE);
      LandStraight(files, skill);
      var p :| p in files && skill <= p;
      EntryPrefix(dir, SKILL_FILE, p);
      assert Below(dir, p);
    }
  }

  /** Directories that hold the same are found identical, unless a call of the comparison fails. */
  lemma UpToDateIsIdentical(j: Job, h: map<Path, Listing> -> int)
    requires Proper(j) && UpToDate(j.files, j.src, j.dest) && forall p ::
               && !j.fails(DestExists, p) && !j.fails(CompareExists, p) && !j.fails(CompareDir, p)
               && !j.fails(CompareSkill, p) && !j.fails(HashDir, p)
    ensures LooksIdentical(j, h)
  {
    LinkedSkillIsBelow(j.files, j.dest);
  }

  // ---------------------------------------------------------------------------------------------
  // The installation.

  function JobOf(files: Tree, src: Path, dest: Path, stamp: string, fails: TreeFaults): Job {
    Job(files, src, dest, BackupPath(dest, stamp, "skill"), fails)
  }

  predicate SourceFound(j: Job) { Exists(j.files, j.src) && !j.fails(SourceExists, j.src) }

  predicate SkillFound(j: Job) { HasSkill(j.files, j.src) && !j.fails(SkillExists, j.src + [SKILL_FILE]) }

  /** The directory that is to hold the destination can be made; a destination at the root needs none. */
  predicate ParentMade(j: Job)
    requires j.dest != []
  {
    var parent := j.dest[..|j.dest| - 1];
    parent == [] || (!j.fails(MakeParent, parent) && forall q :: q in j.files ==> !(q <= parent))
  }

  /** The run comes to replace the destination. */
  predicate Replaces(j: Job, h: map<Path, Listing> -> int)
    requires j.dest != []
  {
    SourceFound(j) && SkillFound(j) && !LooksIdentical(j, h) && ParentMade(j)
  }

  /** The result of a run that does not come to replace the destination. */
  function Early(j: Job, h: map<Path, Listing> -> int): Ending {
    if !SourceFound(j) then Err(NoSource)
    else if !SkillFound(j) then Err(NoSkillFile)
    else if LooksIdentical(j, h) then Ok(None)
    else Err(NoParent)
  }

  /** Everything before the backup: None means to go on. */
  method Prepare(disk: TreeDisk, j: Job, h: map<Path, Listing> -> int) returns (early: Option<Ending>)
    requires disk.files == j.files && disk.fails == j.fails && Proper(j)
    ensures early.None? ==> Exists(j.files, j.src) && j.src !in j.files
    ensures early == if Replaces(j, h) then None else Some(Early(j, h))
  {
    LandStraight(disk.files, j.src);
    var found := disk.LookUp(SourceExists, j.src);
    if !found {
      return Some(Err(NoSource));
    }
    found := disk.LookUp(SkillExists, j.src + [SKILL_FILE]);
    if !found {
      return Some(Err(NoSkillFile));
    }
    LinkedSkillIsBelow(disk.files, j.src);
    var same := Identical(disk, j, h);
    if same {
      return Some(Ok(None));
    }
    var parent := j.dest[..|j.dest| - 1];
    FreeAbove(disk.files, j.dest, parent);
    if parent != [] {
      var made := disk.MakeDir(MakeParent, parent);
      if !made {
        return Some(Err(NoParent));
      }
    }
    early := None;
  }

  method InstallSkillDir(disk: TreeDisk, src: Path, dest: Path, stamp: string, h: map<Path, Listing> -> int)
    returns (r: Ending, ghost begun: set<Path>)
    requires disk.Valid() && Proper(JobOf(disk.files, src, dest, stamp, disk.fails))
    modifies disk
    ensures disk.Valid() && old(disk.trace) <= disk.trace
    ensures var j := JobOf(old(disk.files), src, dest, stamp, disk.fails);
            if Replaces(j, h) then Replaced(j, r, disk.files, begun, disk.trace, |old(disk.trace)|)
            else r == Early(j, h) && disk.trace == old(disk.trace)
  {
    begun := {};
    var j := JobOf(disk.files, src, dest, stamp, disk.fails);
    var early := Prepare(disk, j, h);
    if early.Some? {
      return early.value, begun;
    }
    r, begun := Replace(disk, j);
  }
}
