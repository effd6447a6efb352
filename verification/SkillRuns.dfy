/** Runs of the installation of src/cli.rs that lose the older skill directory and report success. */
module SkillRuns {
  import opened Bytes
  import opened Paths
  import opened Wrappers
  import opened DirCopies
  import opened SkillDirs

  function BackupOf(dest: Path, stamp: string): Path { BackupPath(dest, stamp, "skill") }

  /** Only the look-up before the backup fails. */
  function Unseen(dest: Path): TreeFaults { (call, p) => call == ExistsToBackUp && p == dest }

  /** Only two look-ups of q fail: in the backup, and in the count of the original. */
  function OverlookedTwice(q: Path): TreeFaults {
    (call, p) => p == q && (call == LinkLookUp(ToBackup) || call == CountLinkLookUp(OriginalCount))
  }

  lemma ApartStays(a: Path, b: Path, n: string)
    requires Apart(a, b)
    ensures !(a <= b + [n]) && !(b + [n] <= a)
  {
    if a <= b + [n] {
      PrefixesMeet(a, b, b + [n]);
    }
    if b + [n] <= a {
      RebaseEntry(a, b, a, n);
    }
  }

  // ---------------------------------------------------------------------------------------------
  // The source holds a skill file; where its copy lands there is an older one.

  /** One file is to be installed, and it lands at `at`. */
  ghost predicate BringsSkill(j: Job, at: Path, new': seq<byte>) {
    && Proper(j) && Regulars(j.files, j.src) == {j.src + [SKILL_FILE]}
    && j.files[j.src + [SKILL_FILE]] == Regular(new')
    && Land(j.files, j.dest + [SKILL_FILE]) == Some(at) && Fits(j.files, j.src, j.dest)
  }

  lemma SkillIsTaken(j: Job, at: Path, new': seq<byte>)
    requires BringsSkill(j, at, new') && forall p :: !j.fails(LinkLookUp(ToDest), p)
    ensures Taken(j) == {j.src + [SKILL_FILE]} && Landings(j.files, Taken(j), j.src, j.dest) == {at}
  {
    var p := j.src + [SKILL_FILE];
    assert p in Regulars(j.files, j.src);
    assert Taken(j) == {p};
    assert p[|j.src|..] == [SKILL_FILE];
  }

  lemma SkillArrives(j: Job, at: Path, new': seq<byte>, now: Tree)
    requires BringsSkill(j, at, new') && Taken(j) == {j.src + [SKILL_FILE]}
               && Filled(j.files, now, Taken(j), j.src, j.dest)
    ensures at in now && now[at] == Regular(new')
  {
    var p := j.src + [SKILL_FILE];
    assert p in Taken(j) && Rebase(p, j.src, j.dest) == j.dest + [SKILL_FILE];
    assert Full(j.files, now, Taken(j), j.src, j.dest, at);
    var p' :| Holds(j.files, now, Taken(j), p', j.src, j.dest, at);
  }

  lemma WrittenIsLost(j: Job, at: Path, trace: seq<Tree>, from: nat)
    requires Proper(j) && !Seen(j) && Foretold(j, trace, from) && Calm(j) && Targets(j) == {at}
    requires Old(j, at) && j.files[at].bytes != [] && !Exists(j.files, j.backup)
    ensures !AlwaysRecoverable(j, trace, from)
  {
    ApartBelow(j.dest, j.backup, at);
    assert Loses(j) && Telling(j, Targets(j));
  }

  lemma UnseenGoesOn(j: Job, r: Ending)
    requires j.fails == Unseen(j.dest) && Fits(j.files, j.src, j.dest) && Succeeds(j, r)
    ensures !Seen(j) && Calm(j) && r == Ok(None) && forall p :: !j.fails(LinkLookUp(ToDest), p)
  {
  }

  /** The copy is made without a look at what is there, and what is there is lost. */
  lemma BlindEnding(j: Job, at: Path, new': seq<byte>, r: Ending, now: Tree, begun: set<Path>, trace: seq<Tree>,
                    from: nat)
    requires BringsSkill(j, at, new') && j.fails == Unseen(j.dest) && Replaced(j, r, now, begun, trace, from)
    ensures r == Ok(None) && at in now && now[at] == Regular(new') && Within(j.files, now, {at})
    ensures Foretold(j, trace, from) && Calm(j) && !Seen(j) && Targets(j) == {at}
  {
    UnseenGoesOn(j, r);
    SkillIsTaken(j, at, new');
    SkillArrives(j, at, new', now);
  }

  // ---------------------------------------------------------------------------------------------
  // The older directory holds a skill file of its own.

  /** Both directories hold a skill file and nothing else. */
  function TwoSkills(src: Path, dest: Path, new': seq<byte>, old': seq<byte>): Tree {
    map[src + [SKILL_FILE] := Regular(new'), dest + [SKILL_FILE] := Regular(old')]
  }

  lemma TwoSkillsAreWellFormed(src: Path, dest: Path, new': seq<byte>, old': seq<byte>)
    requires Apart(src, dest)
    ensures var files := TwoSkills(src, dest, new', old');
            && WellFormed(files) && forall p :: Straight(files, p) && LinkFree(files, p)
  {
    EntriesApart(src, dest, SKILL_FILE);
  }

  /** A copy between directories that hold at most a skill file each finds room. */
  lemma SkillFits(files: Tree, from: Path, to: Path)
    requires WellFormed(files) && Straight(files, to) && Apart(from, to)
    requires forall p :: p in files ==>
               p == from + [SKILL_FILE] || p == to + [SKILL_FILE] || (Apart(p, to + [SKILL_FILE]) && Apart(p, from))
    ensures Fits(files, from, to)
  {
    EntriesApart(from, to, SKILL_FILE);
    forall p, q | p in files && from <= p && q in files
      ensures !Below(q, Rebase(p, from, to)) && !Below(Rebase(p, from, to), q)
    {
      ApartStays(from, to, SKILL_FILE);
      assert p == from + [SKILL_FILE];
      assert p[|from|..] == [SKILL_FILE];
      assert Rebase(p, from, to) == to + [SKILL_FILE];
    }
    StraightFits(files, from, to);
  }

  /** One skill file is there, and another to be installed. */
  ghost predicate HoldsTwo(j: Job, new': seq<byte>, old': seq<byte>) {
    && Apart(j.src, j.dest) && Apart(j.src, j.backup) && Apart(j.dest, j.backup) && j.dest != []
    && j.files == TwoSkills(j.src, j.dest, new', old')
  }

  lemma TwoSkillsFit(j: Job, new': seq<byte>, old': seq<byte>)
    requires HoldsTwo(j, new', old')
    ensures Fits(j.files, j.src, j.dest) && Fits(j.files, j.dest, j.backup)
  {
    TwoSkillsAreWellFormed(j.src, j.dest, new', old');
    EntriesApart(j.src, j.dest, SKILL_FILE);
    EntriesApart(j.src, j.backup, SKILL_FILE);
    ApartStays(j.src, j.dest, SKILL_FILE);
    ApartStays(j.dest, j.src, SKILL_FILE);
    ApartStays(j.src, j.backup, SKILL_FILE);
    ApartStays(j.backup, j.src, SKILL_FILE);
    SkillFits(j.files, j.src, j.dest);
    SkillFits(j.files, j.dest, j.backup);
  }

  lemma TwoSkillsHold(j: Job, new': seq<byte>, old': seq<byte>)
    requires HoldsTwo(j, new', old')
    ensures Exists(j.files, j.src) && Exists(j.files, j.dest) && !Exists(j.files, j.backup)
    ensures forall q :: q in j.files ==> !(q <= j.dest)
    ensures Regulars(j.files, j.dest) == {j.dest + [SKILL_FILE]} && Regulars(j.files, j.src) == {j.src + [SKILL_FILE]}
  {
    ApartStays(j.src, j.dest, SKILL_FILE);
    ApartStays(j.dest, j.src, SKILL_FILE);
    ApartStays(j.backup, j.src, SKILL_FILE);
    ApartStays(j.backup, j.dest, SKILL_FILE);
    assert j.src + [SKILL_FILE] in j.files && j.dest + [SKILL_FILE] in j.files;
    assert j.dest <= j.dest + [SKILL_FILE] && j.src <= j.src + [SKILL_FILE];
  }

  lemma TwoSkillsStand(j: Job, new': seq<byte>, old': seq<byte>)
    requires HoldsTwo(j, new', old')
    ensures Proper(j) && HasSkill(j.files, j.src) && HasSkill(j.files, j.dest)
    ensures Land(j.files, j.dest + [SKILL_FILE]) == Some(j.dest + [SKILL_FILE])
  {
    TwoSkillsAreWellFormed(j.src, j.dest, new', old');
    StraightIsUntangled(j.files, j.src, j.dest);
    LandStraight(j.files, j.src + [SKILL_FILE]);
    LandStraight(j.files, j.dest + [SKILL_FILE]);
    assert j.src + [SKILL_FILE] in j.files && j.dest + [SKILL_FILE] in j.files;
  }

  lemma ParentIsMade(j: Job)
    requires j.dest != [] && (forall p :: !j.fails(MakeParent, p)) && forall q :: q in j.files ==> !(q <= j.dest)
    ensures ParentMade(j)
  {
    var parent := j.dest[..|j.dest| - 1];
    forall q | q in j.files ensures !(q <= parent) {
      PrefixesChain(q, parent, j.dest);
    }
  }

  lemma DifferentIsReplaced(j: Job, h: map<Path, Listing> -> int)
    requires Exists(j.files, j.src) && HasSkill(j.files, j.src) && j.dest != [] && ParentMade(j)
    requires h(View(j.files, j.src)) != h(View(j.files, j.dest))
    requires forall p :: !j.fails(SourceExists, p) && !j.fails(SkillExists, p)
    ensures Replaces(j, h)
  {
  }

  lemma TwoSkillsBring(j: Job, new': seq<byte>, old': seq<byte>)
    requires HoldsTwo(j, new', old')
    ensures BringsSkill(j, j.dest + [SKILL_FILE], new') && !Exists(j.files, j.backup)
    ensures Old(j, j.dest + [SKILL_FILE]) && j.files[j.dest + [SKILL_FILE]] == Regular(old')
  {
    EntriesApart(j.src, j.dest, SKILL_FILE);
    TwoSkillsHold(j, new', old');
    TwoSkillsStand(j, new', old');
    TwoSkillsFit(j, new', old');
  }

  lemma TwoSkillsReplace(j: Job, new': seq<byte>, old': seq<byte>, h: map<Path, Listing> -> int)
    requires HoldsTwo(j, new', old') && h(View(j.files, j.src)) != h(View(j.files, j.dest))
    requires forall p :: !j.fails(SourceExists, p) && !j.fails(SkillExists, p) && !j.fails(MakeParent, p)
    ensures Replaces(j, h)
  {
    TwoSkillsHold(j, new', old');
    TwoSkillsStand(j, new', old');
    ParentIsMade(j);
    DifferentIsReplaced(j, h);
  }

  /** Only the look-up before the backup fails: the older file is written over, and nothing holds it. */
  method BlindLoss(src: Path, dest: Path, new': seq<byte>, old': seq<byte>, stamp: string, h: map<Path, Listing> -> int)
    returns (disk: TreeDisk, r: Ending)
    requires dest != [] && Apart(src, dest) && Apart(src, BackupOf(dest, stamp)) && old' != []
    requires h(View(TwoSkills(src, dest, new', old'), src)) != h(View(TwoSkills(src, dest, new', old'), dest))
    ensures disk.fails == Unseen(dest)
    ensures r == Ok(None) && dest + [SKILL_FILE] in disk.files && disk.files[dest + [SKILL_FILE]] == Regular(new')
    ensures !AlwaysRecoverable(JobOf(TwoSkills(src, dest, new', old'), src, dest, stamp, disk.fails), disk.trace, 1)
  {
    TwoSkillsAreWellFormed(src, dest, new', old');
    BackupIsBeside(dest, stamp);
    disk := new TreeDisk(TwoSkills(src, dest, new', old'), Unseen(dest));
    ghost var j := JobOf(disk.files, src, dest, stamp, disk.fails);
    ghost var begun;
    TwoSkillsBring(j, new', old');
    TwoSkillsReplace(j, new', old', h);
    r, begun := InstallSkillDir(disk, src, dest, stamp, h);
    BlindEnding(j, dest + [SKILL_FILE], new', r, disk.files, begun, disk.trace, 1);
    WrittenIsLost(j, dest + [SKILL_FILE], disk.trace, 1);
  }

  lemma BothSkip(j: Job, q: Path, p: Path)
    requires j.fails == OverlookedTwice(q)
    ensures Skips(j.fails, LinkLookUp(ToBackup), |j.dest|, p) <==>
              Skips(j.fails, CountLinkLookUp(OriginalCount), |j.dest|, p)
  {
    if Skips(j.fails, LinkLookUp(ToBackup), |j.dest|, p) {
      var k :| |j.dest| < k <= |p| && j.fails(LinkLookUp(ToBackup), p[..k]);
      assert j.fails(CountLinkLookUp(OriginalCount), p[..k]);
    }
    if Skips(j.fails, CountLinkLookUp(OriginalCount), |j.dest|, p) {
      var k :| |j.dest| < k <= |p| && j.fails(CountLinkLookUp(OriginalCount), p[..k]);
      assert j.fails(LinkLookUp(ToBackup), p[..k]);
    }
  }

  lemma CountsMatchWhenBothSkip(j: Job, q: Path)
    requires j.fails == OverlookedTwice(q)
    ensures CountsEqual(j) && CanCount(j) && Smooth(j.fails, ToBackup) && Smooth(j.fails, ToDest) && CanClear(j)
  {
    forall p
      ensures Skips(j.fails, LinkLookUp(ToBackup), |j.dest|, p) <==>
                Skips(j.fails, CountLinkLookUp(OriginalCount), |j.dest|, p)
    {
      BothSkip(j, q, p);
    }
    MatchMeansAgreement(j);
  }

  lemma SkillIsOverlooked(j: Job)
    requires j.fails == OverlookedTwice(j.dest + [SKILL_FILE]) && Regulars(j.files, j.dest) == {j.dest + [SKILL_FILE]}
    ensures Overlooked(j) != {}
  {
    var q := j.dest + [SKILL_FILE];
    assert q[..|q|] == q;
    assert Skips(j.fails, LinkLookUp(ToBackup), |j.dest|, q);
    assert q in Overlooked(j);
  }

  lemma OverlookedStart(j: Job, new': seq<byte>, old': seq<byte>, h: map<Path, Listing> -> int)
    requires HoldsTwo(j, new', old') && j.fails == OverlookedTwice(j.dest + [SKILL_FILE])
    requires h(View(j.files, j.src)) != h(View(j.files, j.dest))
    ensures Proper(j) && Replaces(j, h) && Seen(j) && CanBackUp(j) && CanClear(j) && Smooth(j.fails, ToDest)
    ensures CountsEqual(j) && Overlooked(j) != {}
  {
    TwoSkillsHold(j, new', old');
    TwoSkillsStand(j, new', old');
    TwoSkillsFit(j, new', old');
    TwoSkillsReplace(j, new', old', h);
    CountsMatchWhenBothSkip(j, j.dest + [SKILL_FILE]);
    SkillIsOverlooked(j);
  }

  lemma OverlookedEnding(j: Job, r: Ending, trace: seq<Tree>, from: nat)
    requires Seen(j) && CanBackUp(j) && CanClear(j) && Smooth(j.fails, ToDest) && CountsEqual(j) && Overlooked(j) != {}
    requires Succeeds(j, r) && Foretold(j, trace, from)
    ensures r == Ok(Some(j.backup)) && !AlwaysRecoverable(j, trace, from)
  {
    assert Calm(j) && Loses(j) && Telling(j, Targets(j));
  }

  /**
   * The look-ups of the older file fail in the backup and in the count of the original: both pass it
   * over, the counts agree, the destination is cleared, and nothing holds the file.
   */
  method TwiceOverlooked(src: Path, dest: Path, new': seq<byte>, old': seq<byte>, stamp: string,
                         h: map<Path, Listing> -> int)
    returns (disk: TreeDisk, r: Ending)
    requires dest != [] && Apart(src, dest) && Apart(src, BackupOf(dest, stamp)) && old' != []
    requires h(View(TwoSkills(src, dest, new', old'), src)) != h(View(TwoSkills(src, dest, new', old'), dest))
    ensures disk.fails == OverlookedTwice(dest + [SKILL_FILE])
    ensures r == Ok(Some(BackupOf(dest, stamp)))
    ensures !AlwaysRecoverable(JobOf(TwoSkills(src, dest, new', old'), src, dest, stamp, disk.fails), disk.trace, 1)
  {
    TwoSkillsAreWellFormed(src, dest, new', old');
    BackupIsBeside(dest, stamp);
    disk := new TreeDisk(TwoSkills(src, dest, new', old'), OverlookedTwice(dest + [SKILL_FILE]));
    ghost var j := JobOf(disk.files, src, dest, stamp, disk.fails);
    ghost var begun;
    OverlookedStart(j, new', old', h);
    r, begun := InstallSkillDir(disk, src, dest, stamp, h);
    OverlookedEnding(j, r, disk.trace, 1);
  }

  // ---------------------------------------------------------------------------------------------
  // The older directory holds a link in place of a skill file.

  /** The older skill file is a link to a file at `at`, below the older directory or beside it. */
  function LinkedSkill(src: Path, dest: Path, at: Path, new': seq<byte>, old': seq<byte>): Tree {
    map[
      src + [SKILL_FILE] := Regular(new'),
      dest + [SKILL_FILE] := Link(Some(at), map[[] := old']),
      at := Regular(old')
    ]
  }

  ghost predicate HoldsLinked(j: Job, at: Path, new': seq<byte>, old': seq<byte>) {
    && Apart(j.src, j.dest) && Apart(j.src, j.backup) && Apart(j.dest, j.backup) && j.dest != []
    && at != [] && Apart(at, j.src) && Apart(at, j.backup) && Apart(at, j.dest + [SKILL_FILE])
    && j.files == LinkedSkill(j.src, j.dest, at, new', old')
  }

  lemma LinkedIsWellFormed(j: Job, at: Path, new': seq<byte>, old': seq<byte>)
    requires HoldsLinked(j, at, new', old')
    ensures WellFormed(j.files)
    ensures forall q :: IsLink(j.files, q) <==> q == j.dest + [SKILL_FILE]
    ensures forall q :: q in j.files ==> !(q <= j.dest)
  {
    EntriesApart(j.src, j.dest, SKILL_FILE);
    ApartStays(j.dest, j.src, SKILL_FILE);
    ApartStays(j.src, j.dest, SKILL_FILE);
    ApartStays(at, j.src, SKILL_FILE);
    PrefixesChain(at, j.dest, j.dest + [SKILL_FILE]);
  }

  lemma LinkedLands(j: Job, at: Path, new': seq<byte>, old': seq<byte>, p: Path)
    requires HoldsLinked(j, at, new', old')
    ensures var link := j.dest + [SKILL_FILE];
            Land(j.files, p) == if link <= p then Some(at + p[|link|..]) else Some(p)
  {
    LinkedIsWellFormed(j, at, new', old');
    var link := j.dest + [SKILL_FILE];
    if link <= p {
      LandThrough(j.files, link, p);
      ApartBelow(at, link, at + p[|link|..]);
      WalkStraight(j.files, at, p[|link|..]);
    } else {
      LandStraight(j.files, p);
    }
  }

  lemma LinkedIsUntangled(j: Job, at: Path, new': seq<byte>, old': seq<byte>)
    requires HoldsLinked(j, at, new', old')
    ensures Untangled(j.files, j.src, j.dest)
  {
    var link := j.dest + [SKILL_FILE];
    forall x | j.dest <= x && Land(j.files, x).Some? ensures !(j.src <= Land(j.files, x).value) {
      LinkedLands(j, at, new', old', x);
      if link <= x {
        ApartBelow(at, j.src, at + x[|link|..]);
      } else {
        ApartBelow(j.dest, j.src, x);
      }
    }
  }

  lemma LinkedHolds(j: Job, at: Path, new': seq<byte>, old': seq<byte>)
    requires HoldsLinked(j, at, new', old')
    ensures Exists(j.files, j.src) && Regulars(j.files, j.src) == {j.src + [SKILL_FILE]} && !Exists(j.files, j.backup)
    ensures LinkFree(j.files, j.src) && LinkFree(j.files, j.dest) && LinkFree(j.files, j.src + [SKILL_FILE])
  {
    LinkedIsWellFormed(j, at, new', old');
    EntriesApart(j.src, j.dest, SKILL_FILE);
    ApartStays(j.src, j.dest, SKILL_FILE);
    ApartStays(j.backup, j.src, SKILL_FILE);
    ApartStays(j.backup, j.dest, SKILL_FILE);
    assert j.src + [SKILL_FILE] in j.files && j.src <= j.src + [SKILL_FILE];
  }

  lemma LinkedFits(j: Job, at: Path, new': seq<byte>, old': seq<byte>)
    requires HoldsLinked(j, at, new', old')
    ensures Fits(j.files, j.src, j.dest)
  {
    LinkedIsWellFormed(j, at, new', old');
    LinkedHolds(j, at, new', old');
    EntriesApart(j.src, j.dest, SKILL_FILE);
    ApartStays(at, j.src, SKILL_FILE);
    ApartStays(j.src, j.dest, SKILL_FILE);
    var p, link := j.src + [SKILL_FILE], j.dest + [SKILL_FILE];
    forall q | q in j.files && j.src <= q ensures q == p {
    }
    assert p[|j.src|..] == [SKILL_FILE] && Rebase(p, j.src, j.dest) == link;
    LinkedLands(j, at, new', old', link);
    assert at + [] == at && link[|link|..] == [];
  }

  lemma SkillKept(j: Job, at: Path, new': seq<byte>, old': seq<byte>)
    requires HoldsLinked(j, at, new', old')
    ensures j.src + [SKILL_FILE] in j.files && j.files[j.src + [SKILL_FILE]] == Regular(new')
    ensures at in j.files && j.files[at] == Regular(old') && IsLink(j.files, j.dest + [SKILL_FILE])
  {
    EntriesApart(j.src, j.dest, SKILL_FILE);
    ApartStays(at, j.src, SKILL_FILE);
  }

  lemma LinkedBrings(j: Job, at: Path, new': seq<byte>, old': seq<byte>)
    requires HoldsLinked(j, at, new', old') && j.fails == Unseen(j.dest)
    ensures BringsSkill(j, at, new') && HasSkill(j.files, j.src)
  {
    LinkedIsWellFormed(j, at, new', old');
    LinkedHolds(j, at, new', old');
    LinkedIsUntangled(j, at, new', old');
    LinkedFits(j, at, new', old');
    SkillKept(j, at, new', old');
    LandStraight(j.files, j.src + [SKILL_FILE]);
    LinkedLands(j, at, new', old', j.dest + [SKILL_FILE]);
    assert at + [] == at;
  }

  lemma LinkedReplaces(j: Job, at: Path, new': seq<byte>, old': seq<byte>, h: map<Path, Listing> -> int)
    requires HoldsLinked(j, at, new', old') && j.fails == Unseen(j.dest)
    requires h(View(j.files, j.src)) != h(View(j.files, j.dest))
    ensures Replaces(j, h)
  {
    LinkedBrings(j, at, new', old');
    LinkedHolds(j, at, new', old');
    LinkedIsWellFormed(j, at, new', old');
    ParentIsMade(j);
    DifferentIsReplaced(j, h);
  }

  lemma LinkedEnding(j: Job, at: Path, new': seq<byte>, old': seq<byte>, r: Ending, now: Tree, begun: set<Path>,
                     trace: seq<Tree>, from: nat)
    requires HoldsLinked(j, at, new', old') && j.fails == Unseen(j.dest) && old' != []
    requires Replaced(j, r, now, begun, trace, from)
    ensures r == Ok(None) && at in now && now[at] == Regular(new') && IsLink(now, j.dest + [SKILL_FILE])
    ensures j.dest <= at ==> !AlwaysRecoverable(j, trace, from)
  {
    LinkedBrings(j, at, new', old');
    LinkedHolds(j, at, new', old');
    SkillKept(j, at, new', old');
    BlindEnding(j, at, new', r, now, begun, trace, from);
    if j.dest <= at {
      WrittenIsLost(j, at, trace, from);
    }
    assert Same(j.files, now, j.dest + [SKILL_FILE]);
  }

  /**
   * Only the look-up before the backup fails, and the older skill file is a link: the file it leads to,
   * of the older directory or beside it, is written over, and nothing holds it.
   */
  method LinkedLoss(src: Path, dest: Path, at: Path, new': seq<byte>, old': seq<byte>, stamp: string,
                    h: map<Path, Listing> -> int)
    returns (disk: TreeDisk, r: Ending)
    requires dest != [] && Apart(src, dest) && Apart(src, BackupOf(dest, stamp)) && old' != []
    requires at != [] && Apart(at, src) && Apart(at, BackupOf(dest, stamp)) && Apart(at, dest + [SKILL_FILE])
    requires h(View(LinkedSkill(src, dest, at, new', old'), src)) != h(View(LinkedSkill(src, dest, at, new', old'),
               dest))
    ensures disk.fails == Unseen(dest)
    ensures r == Ok(None) && at in disk.files && disk.files[at] == Regular(new')
    ensures IsLink(disk.files, dest + [SKILL_FILE])
    ensures dest <= at ==>
              !AlwaysRecoverable(JobOf(LinkedSkill(src, dest, at, new', old'), src, dest, stamp, disk.fails),
                disk.trace, 1)
  {
    BackupIsBeside(dest, stamp);
    ghost var j := JobOf(LinkedSkill(src, dest, at, new', old'), src, dest, stamp, Unseen(dest));
    LinkedIsWellFormed(j, at, new', old');
    LinkedBrings(j, at, new', old');
    LinkedReplaces(j, at, new', old', h);
    disk := new TreeDisk(LinkedSkill(src, dest, at, new', old'), Unseen(dest));
    ghost var begun;
    r, begun := InstallSkillDir(disk, src, dest, stamp, h);
    LinkedEnding(j, at, new', old', r, disk.files, begun, disk.trace, 1);
  }
}
