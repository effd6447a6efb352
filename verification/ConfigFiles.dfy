/** Backed-up writing of config files in src/cli.rs, on a disk whose every operation and look-up may fail. */
module ConfigFiles {
  import opened Wrappers
  import opened Documents
  import opened Paths

  type Files = map<Path, Content>

  /** The questions and orders a run puts to the operating system about a path, each by its place in the code. */
  datatype Call =
    | ExistsAtAll | ExistsUnforced | ExistsToBackUp | ExistsToRead
    | MakeParents | ReadExisting
    | ReadOriginal | OpenBackup | FillBackup
    | OpenDest | FillDest
    | ReadBackup | OpenRestore | FillRestore

  /** Which calls fail: any set of them. */
  type Faults = (Call, Path) -> bool

  /** The files of a disk. `trace` records every state the disk passes through; the current one is its last. */
  class FileDisk {
    const fails: Faults
    var files: Files
    ghost var trace: seq<Files>

    ghost predicate Valid()
      reads this
    {
      trace != [] && trace[|trace| - 1] == files
    }

    constructor (files: Files, fails: Faults)
      ensures Valid() && this.files == files && this.fails == fails && trace == [files]
    {
      this.files, this.fails := files, fails;
      trace := [files];
    }

    /** `Path::exists`: false also when the metadata cannot be read. */
    method Exists(call: Call, p: Path) returns (found: bool)
      ensures found <==> p in files && !fails(call, p)
    {
      found := p in files && !fails(call, p);
    }

    method MakeDirs(p: Path) returns (ok: bool)
      ensures ok <==> !fails(MakeParents, p)
    {
      ok := !fails(MakeParents, p);
    }

    method Read(call: Call, p: Path) returns (text: Option<Content>)
      ensures text == if p in files && !fails(call, p) then Some(files[p]) else None
    {
      text := if p in files && !fails(call, p) then Some(files[p]) else None;
    }

    /** Opening for writing empties the file; what a failed write leaves is anything or nothing. */
    method Write(open: Call, fill: Call, p: Path, content: Content) returns (ok: bool)
      requires Valid()
      modifies this`files, this`trace
      ensures Valid() && old(trace) <= trace
      ensures ok <==> !fails(open, p) && !fails(fill, p)
      ensures fails(open, p) ==> files == old(files) && trace == old(trace)
      ensures !fails(open, p) ==> |trace| > |old(trace)| && trace[|old(trace)|] == old(files)[p := Blank]
      ensures StepsWithin(old(files), trace, |old(trace)|, {p}) && Within(old(files), files, {p})
      ensures ok ==> files == old(files)[p := content]
    {
      if fails(open, p) {
        return false;
      }
      var partial: Content := *;
      var before := files;
      files := before[p := Blank];
      trace := trace + [files];
      if fails(fill, p) {
        if * {
          files := before[p := partial];
        } else {
          files := before - {p};
        }
        trace := trace + [files];
        return false;
      }
      trace := trace + [before[p := partial]];
      files := before[p := content];
      trace := trace + [files];
      return true;
    }

    method Copy(read: Call, open: Call, fill: Call, from: Path, to: Path) returns (ok: bool)
      requires Valid() && from != to
      modifies this`files, this`trace
      ensures Valid() && old(trace) <= trace
      ensures StepsWithin(old(files), trace, |old(trace)|, {to}) && Within(old(files), files, {to})
      ensures ok <==> from in old(files) && !fails(read, from) && !fails(open, to) && !fails(fill, to)
      ensures ok ==> files == old(files)[to := old(files)[from]]
    {
      var text := Read(read, from);
      if text.None? {
        return false;
      }
      ok := Write(open, fill, to, text.value);
    }
  }

  // ---------------------------------------------------------------------------------------------
  // Where the original is.

  function Backup(dest: Path, stamp: string): Path { BackupPath(dest, stamp, "config") }

  /** The original is wholly at the destination or wholly at the backup. */
  ghost predicate Survives(state: Files, original: Content, dest: Path, backup: Path) {
    (dest in state && state[dest] == original) || (backup in state && state[backup] == original)
  }

  ghost predicate AllSurvive(original: Content, trace: seq<Files>, from: nat, dest: Path, backup: Path) {
    forall i :: from <= i < |trace| ==> Survives(trace[i], original, dest, backup)
  }

  /** There is something to lose, and it is not at the backup's place by chance. */
  predicate Telling(before: Files, dest: Path, backup: Path) {
    dest in before && before[dest] != Blank && (backup in before ==> before[backup] != before[dest])
  }

  /**
   * From the given state on nothing but the destination and its backup is touched, and an original
   * survives every step if and only if it was not exposed.
   */
  ghost predicate SafeRun(before: Files, trace: seq<Files>, from: nat, dest: Path, backup: Path, exposed: bool) {
    && StepsWithin(before, trace, from, {dest, backup})
    && (dest !in before ==> StepsWithin(before, trace, from, {dest}))
    && (dest in before && !exposed ==> AllSurvive(before[dest], trace, from, dest, backup))
    && (Telling(before, dest, backup) && exposed ==> !AllSurvive(before[dest], trace, from, dest, backup))
  }

  /** The look-up that decides about the backup fails, and the write begins all the same. */
  predicate Unguarded(fails: Faults, dest: Path) {
    fails(ExistsToBackUp, dest) && !fails(MakeParents, dest) && !fails(OpenDest, dest)
  }

  /** The destination is seen, so it is backed up before anything is written. */
  predicate Seen(fails: Faults, before: Files, dest: Path) { dest in before && !fails(ExistsToBackUp, dest) }

  predicate CanBackUp(fails: Faults, dest: Path, backup: Path) {
    !fails(ReadOriginal, dest) && !fails(OpenBackup, backup) && !fails(FillBackup, backup)
  }

  predicate CanWrite(fails: Faults, before: Files, dest: Path, backup: Path) {
    && !fails(MakeParents, dest)
    && (Seen(fails, before, dest) ==> CanBackUp(fails, dest, backup))
    && !fails(OpenDest, dest) && !fails(FillDest, dest)
  }

  lemma OnlyBackup(before: Files, now: Files, dest: Path, backup: Path)
    requires Within(before, now, {backup}) && dest != backup
    ensures Within(before, now, {dest, backup}) && Same(before, now, dest)
  {
    assert Same(before, now, dest);
    forall p | p !in {dest, backup} ensures Same(before, now, p) {
    }
  }

  /** While the backup is written the original stands at the destination. */
  lemma SafeWhileBackingUp(before: Files, t: seq<Files>, t': seq<Files>, dest: Path, backup: Path)
    requires t <= t' && dest != backup && dest in before && StepsWithin(before, t', |t|, {backup})
    ensures SafeRun(before, t', |t|, dest, backup, false)
  {
    forall i | |t| <= i < |t'|
      ensures Within(before, t'[i], {dest, backup}) && Survives(t'[i], before[dest], dest, backup)
    {
      OnlyBackup(before, t'[i], dest, backup);
    }
  }

  /** What changes only the destination changes nothing else on top of what was changed before. */
  lemma OnTop(before: Files, base: Files, now: Files, dest: Path, backup: Path)
    requires Within(before, base, {dest, backup}) && Within(base, now, {dest})
    ensures Within(before, now, {dest, backup})
    ensures Within(before, base, {dest}) ==> Within(before, now, {dest})
  {
    forall p | p !in {dest, backup} ensures Same(before, now, p) {
      assert Same(before, base, p) && Same(base, now, p);
    }
    forall p | p !in {dest} && Within(before, base, {dest}) ensures Same(before, now, p) {
      assert Same(before, base, p) && Same(base, now, p);
    }
  }

  /** While the destination is written the original stands at the backup. */
  lemma SafeWhileWriting(before: Files, base: Files, t: seq<Files>, t': seq<Files>, from: nat, dest: Path, backup: Path)
    requires SafeRun(before, t, from, dest, backup, false) && t <= t' && from <= |t| && dest != backup
    requires StepsWithin(base, t', |t|, {dest})
    requires dest in before ==> Within(before, base, {dest, backup}) && backup in base && base[backup] == before[dest]
    requires dest !in before ==> Within(before, base, {dest})
    ensures SafeRun(before, t', from, dest, backup, false)
  {
    assert Within(before, base, {dest, backup}) by {
      forall p | p !in {dest, backup} ensures Same(before, base, p) {
      }
    }
    forall i | from <= i < |t'|
      ensures Within(before, t'[i], {dest, backup}) && (dest !in before ==> Within(before, t'[i], {dest}))
      ensures dest in before ==> Survives(t'[i], before[dest], dest, backup)
    {
      if i < |t| {
        assert t'[i] == t[i];
      } else {
        OnTop(before, base, t'[i], dest, backup);
        assert Same(base, t'[i], backup);
      }
    }
  }

  /** Without a backup, a write that begins loses what the destination held. */
  lemma ExposedIsLost(before: Files, t: seq<Files>, t': seq<Files>, dest: Path, backup: Path)
    requires t <= t' && dest != backup && StepsWithin(before, t', |t|, {dest})
    requires |t| < |t'| && t'[|t|] == before[dest := Blank]
    ensures SafeRun(before, t', |t|, dest, backup, dest in before)
  {
    forall i | |t| <= i < |t'| ensures Within(before, t'[i], {dest, backup}) {
      forall p | p !in {dest, backup} ensures Same(before, t'[i], p) {
        assert Within(before, t'[i], {dest});
      }
    }
    if Telling(before, dest, backup) {
      assert !Survives(t'[|t|], before[dest], dest, backup);
    }
  }

  // ---------------------------------------------------------------------------------------------
  // The writers.

  datatype WriteError =
    | NoParent | NoBackup | WriteFailed | Restored | RestoreFailed | Refused | CannotRead
    | CannotMerge(e: MergeError) | NoLocation

  /** What a successful write leaves: the new content, and the original at the backup if it was seen. */
  ghost predicate Written(before: Files, after: Files, dest: Path, backup: Path, content: Content, kept: Option<Path>,
                          seen: bool) {
    if seen
    then dest in before && kept == Some(backup) && after == before[backup := before[dest]][dest := content]
    else kept == None && after == before[dest := content]
  }

  /** The common first half of both writers: make the directory, and copy a file that is seen to its backup. */
  method BackUp(disk: FileDisk, dest: Path, stamp: string) returns (r: Result<Option<Path>, WriteError>)
    requires disk.Valid()
    modifies disk
    ensures disk.Valid() && old(disk.trace) <= disk.trace
    ensures SafeRun(old(disk.files), disk.trace, |old(disk.trace)|, dest, Backup(dest, stamp), false)
    ensures disk.fails(MakeParents, dest) <==> r == Err(NoParent)
    ensures r == Err(NoBackup) <==>
              && !disk.fails(MakeParents, dest)
              && Seen(disk.fails, old(disk.files), dest) && !CanBackUp(disk.fails, dest, Backup(dest, stamp))
    ensures r.Err? ==> r.error == NoParent || r.error == NoBackup
    ensures r.Ok? ==>
              if Seen(disk.fails, old(disk.files), dest)
              then r.value == Some(Backup(dest, stamp))
                && disk.files == old(disk.files)[Backup(dest, stamp) := old(disk.files)[dest]]
              else r.value == None && disk.files == old(disk.files) && disk.trace == old(disk.trace)
    ensures r == Err(NoParent) ==> disk.files == old(disk.files)
    ensures r.Err? ==> Same(old(disk.files), disk.files, dest)
  {
    BackupIsElsewhere(dest, stamp, "config");
    var made := disk.MakeDirs(dest);
    if !made {
      return Err(NoParent);
    }
    var seen := disk.Exists(ExistsToBackUp, dest);
    if !seen {
      return Ok(None);
    }
    var copied := disk.Copy(ReadOriginal, OpenBackup, FillBackup, dest, Backup(dest, stamp));
    SafeWhileBackingUp(old(disk.files), old(disk.trace), disk.trace, dest, Backup(dest, stamp));
    if !copied {
      assert Same(old(disk.files), disk.files, dest);
      return Err(NoBackup);
    }
    return Ok(Some(Backup(dest, stamp)));
  }

  /** The write that follows, seen from the state before the backup. */
  method WriteOver(disk: FileDisk, dest: Path, backup: Path, content: Content, ghost before: Files,
                   ghost soFar: seq<Files>)
    returns (ok: bool)
    requires disk.Valid() && soFar != [] && soFar <= disk.trace && dest != backup
    requires SafeRun(before, disk.trace, |soFar|, dest, backup, false)
    requires if Seen(disk.fails, before, dest) then disk.files == before[backup := before[dest]]
             else disk.files == before && disk.trace == soFar
    modifies disk
    ensures disk.Valid() && old(disk.trace) <= disk.trace
    ensures SafeRun(before, disk.trace, |soFar|, dest, backup,
                    dest in before && disk.fails(ExistsToBackUp, dest) && !disk.fails(OpenDest, dest))
    ensures ok <==> !disk.fails(OpenDest, dest) && !disk.fails(FillDest, dest)
    ensures ok ==> disk.files == old(disk.files)[dest := content]
    ensures Within(old(disk.files), disk.files, {dest})
  {
    ghost var base, t := disk.files, disk.trace;
    ok := disk.Write(OpenDest, FillDest, dest, content);
    if disk.fails(OpenDest, dest) {
    } else if Seen(disk.fails, before, dest) || dest !in before {
      assert Within(before, base, {dest, backup});
      SafeWhileWriting(before, base, t, disk.trace, |soFar|, dest, backup);
    } else {
      ExposedIsLost(before, t, disk.trace, dest, backup);
    }
  }

  /** The restore writes only the destination, while the original stands at the backup. */
  lemma RestoreIsSafe(before: Files, torn: Files, t: seq<Files>, t': seq<Files>, from: nat, dest: Path, backup: Path)
    requires SafeRun(before, t, from, dest, backup, false) && from <= |t| && t <= t' && dest != backup && dest in before
    requires Within(before[backup := before[dest]], torn, {dest}) && StepsWithin(torn, t', |t|, {dest})
    ensures SafeRun(before, t', from, dest, backup, false)
  {
    var saved := before[backup := before[dest]];
    assert Within(before, saved, {dest, backup});
    OnTop(before, saved, torn, dest, backup);
    assert Same(saved, torn, backup);
    SafeWhileWriting(before, torn, t, t', from, dest, backup);
  }

  method WriteWithRestore(disk: FileDisk, dest: Path, content: Content, stamp: string)
    returns (r: Result<Option<Path>, WriteError>)
    requires disk.Valid()
    modifies disk
    ensures disk.Valid() && old(disk.trace) <= disk.trace
    ensures SafeRun(old(disk.files), disk.trace, |old(disk.trace)|, dest, Backup(dest, stamp),
                    dest in old(disk.files) && Unguarded(disk.fails, dest))
    ensures r.Ok? ==> Written(old(disk.files), disk.files, dest, Backup(dest, stamp), content, r.value,
              Seen(disk.fails, old(disk.files), dest))
    ensures r.Ok? <==> CanWrite(disk.fails, old(disk.files), dest, Backup(dest, stamp))
    ensures r == Err(NoParent) ==> disk.files == old(disk.files)
    ensures r == Err(NoBackup) || r == Err(Restored) ==>
              dest in old(disk.files) && dest in disk.files && disk.files[dest] == old(disk.files)[dest]
    ensures r == Err(RestoreFailed) ==>
              && dest in old(disk.files) && Backup(dest, stamp) in disk.files
              && disk.files[Backup(dest, stamp)] == old(disk.files)[dest]
    ensures r == Err(WriteFailed) ==> !Seen(disk.fails, old(disk.files), dest)
    ensures r.Err? ==> r.error in {NoParent, NoBackup, WriteFailed, Restored, RestoreFailed}
  {
    BackupIsElsewhere(dest, stamp, "config");
    ghost var before, t := disk.files, disk.trace;
    var prepared := BackUp(disk, dest, stamp);
    if prepared.Err? {
      return Err(prepared.error);
    }
    var backup := prepared.value;
    var written := WriteOver(disk, dest, Backup(dest, stamp), content, before, t);
    if written {
      return Ok(backup);
    }
    if backup.None? {
      return Err(WriteFailed);
    }
    ghost var torn, t' := disk.files, disk.trace;
    assert Same(before[Backup(dest, stamp) := before[dest]], torn, Backup(dest, stamp));
    var restored := disk.Copy(ReadBackup, OpenRestore, FillRestore, backup.value, dest);
    assert Same(torn, disk.files, Backup(dest, stamp));
    RestoreIsSafe(before, torn, t', disk.trace, |t|, dest, Backup(dest, stamp));
    return Err(if restored then Restored else RestoreFailed);
  }

  method WriteInitFile(disk: FileDisk, dest: Path, content: Content, force: bool, stamp: string)
    returns (r: Result<Option<Path>, WriteError>)
    requires disk.Valid()
    modifies disk
    ensures disk.Valid() && old(disk.trace) <= disk.trace
    ensures SafeRun(old(disk.files), disk.trace, |old(disk.trace)|, dest, Backup(dest, stamp),
                    dest in old(disk.files) && (force || disk.fails(ExistsUnforced, dest))
                      && Unguarded(disk.fails, dest))
    ensures r == Err(Refused) <==> dest in old(disk.files) && !disk.fails(ExistsUnforced, dest) && !force
    ensures r == Err(Refused) || r == Err(NoParent) ==> disk.files == old(disk.files)
    ensures r.Ok? ==> Written(old(disk.files), disk.files, dest, Backup(dest, stamp), content, r.value,
              Seen(disk.fails, old(disk.files), dest))
    ensures r.Ok? <==> r != Err(Refused) && CanWrite(disk.fails, old(disk.files), dest, Backup(dest, stamp))
    ensures r.Err? ==> r.error in {Refused, NoParent, NoBackup, WriteFailed}
  {
    BackupIsElsewhere(dest, stamp, "config");
    ghost var before, t := disk.files, disk.trace;
    var exists' := disk.Exists(ExistsUnforced, dest);
    if exists' && !force {
      return Err(Refused);
    }
    var prepared := BackUp(disk, dest, stamp);
    if prepared.Err? {
      return Err(prepared.error);
    }
    var written := WriteOver(disk, dest, Backup(dest, stamp), content, before, t);
    return if written then Ok(prepared.value) else Err(WriteFailed);
  }

  datatype Client = Generic | OpencodeClient | ClaudeCodeClient | CodexClient

  datatype InitDone = Wrote | Replaced | MergedInto | AlreadyThere

  function InitTarget(client: Client): Option<Target> {
    match client
    case ClaudeCodeClient => Some(ClaudeCode)
    case CodexClient => Some(Codex)
    case _ => None
  }

  /** Whether `init --write` comes to write the file, once its directory and its backup are made. */
  predicate ComesToWrite(fails: Faults, before: Files, dest: Path, client: Client, force: bool) {
    if dest !in before || fails(ExistsAtAll, dest) then dest !in before || fails(ExistsUnforced, dest)
    else force
         || (InitTarget(client).Some? && !fails(ReadExisting, dest)
             && match ParseAndMerge(InitTarget(client).value, Some(before[dest]))
                case Ok(Some(_)) => true
                case _ => false)
  }

  /** `init --write`: a merge by default, a replacement only when forced. */
  method InitWrite(disk: FileDisk, dest: Path, client: Client, template: Content, force: bool, stamp: string)
    returns (r: Result<InitDone, WriteError>)
    requires disk.Valid()
    modifies disk
    ensures disk.Valid() && old(disk.trace) <= disk.trace
    ensures SafeRun(old(disk.files), disk.trace, |old(disk.trace)|, dest, Backup(dest, stamp),
                    && dest in old(disk.files) && Unguarded(disk.fails, dest)
                    && ComesToWrite(disk.fails, old(disk.files), dest, client, force))
    ensures r == Ok(Wrote) || r == Ok(Replaced) ==>
              exists kept :: Written(old(disk.files), disk.files, dest, Backup(dest, stamp), template, kept,
                Seen(disk.fails, old(disk.files), dest))
    ensures r == Ok(Wrote) ==>
              dest !in old(disk.files) || (disk.fails(ExistsAtAll, dest) && disk.fails(ExistsUnforced, dest))
    ensures r == Ok(Replaced) ==> force && dest in old(disk.files)
    ensures r == Ok(MergedInto) ==>
              && !force && dest in old(disk.files) && InitTarget(client).Some? && dest in disk.files
              && ParseAndMerge(InitTarget(client).value, Some(old(disk.files)[dest])) == Ok(Some(disk.files[dest]))
              && exists kept :: Written(old(disk.files), disk.files, dest, Backup(dest, stamp), disk.files[dest], kept,
                Seen(disk.fails, old(disk.files), dest))
    ensures r == Ok(AlreadyThere) ==>
              && dest in old(disk.files) && InitTarget(client).Some? && disk.files == old(disk.files)
              && ParseAndMerge(InitTarget(client).value, Some(old(disk.files)[dest])) == Ok(None)
    ensures r.Err? && (r.error.CannotMerge? || r.error in {NoLocation, CannotRead, NoParent, Refused}) ==>
              disk.files == old(disk.files)
    ensures r.Err? && r.error.CannotMerge? ==>
              && dest in old(disk.files) && InitTarget(client).Some?
              && ParseAndMerge(InitTarget(client).value, Some(old(disk.files)[dest])) == Err(r.error.e)
    // When nothing fails the outcome is decided by what is there and what was asked.
    ensures (forall call, p :: !disk.fails(call, p)) ==>
              if dest !in old(disk.files) then r == Ok(Wrote)
              else if force then r == Ok(Replaced)
              else if InitTarget(client).None? then r == Err(NoLocation)
              else match ParseAndMerge(InitTarget(client).value, Some(old(disk.files)[dest]))
                   case Ok(Some(_)) => r == Ok(MergedInto)
                   case Ok(None) => r == Ok(AlreadyThere)
                   case Err(e) => r == Err(CannotMerge(e))
  {
    var found := disk.Exists(ExistsAtAll, dest);
    if !found {
      var w := WriteInitFile(disk, dest, template, false, stamp);
      return match w case Ok(_) => Ok(Wrote) case Err(e) => Err(e);
    }
    if force {
      var w := WriteInitFile(disk, dest, template, true, stamp);
      return match w case Ok(_) => Ok(Replaced) case Err(e) => Err(e);
    }
    var target := InitTarget(client);
    if target.None? {
      return Err(NoLocation);
    }
    var existing := disk.Read(ReadExisting, dest);
    if existing.None? {
      return Err(CannotRead);
    }
    match ParseAndMerge(target.value, existing) {
      case Ok(Some(merged)) =>
        var w := WriteWithRestore(disk, dest, merged, stamp);
        return match w case Ok(_) => Ok(MergedInto) case Err(e) => Err(e);
      case Ok(None) =>
        return Ok(AlreadyThere);
      case Err(e) =>
        return Err(CannotMerge(e));
    }
  }

  /** A run in which only the look-up before the backup fails: the write succeeds and the original is gone. */
  method OneFailedLookUp(dest: Path, original: Content, content: Content, stamp: string)
    returns (disk: FileDisk, r: Result<Option<Path>, WriteError>)
    requires original != Blank && content != original
    ensures forall call, p :: disk.fails(call, p) <==> call == ExistsToBackUp && p == dest
    ensures r == Ok(None) && disk.files == map[dest := content]
    ensures exists i :: 0 < i < |disk.trace| && !Survives(disk.trace[i], original, dest, Backup(dest, stamp))
  {
    disk := new FileDisk(map[dest := original], (call, p) => call == ExistsToBackUp && p == dest);
    BackupIsElsewhere(dest, stamp, "config");
    r := WriteWithRestore(disk, dest, content, stamp);
    assert disk.fails(ExistsToBackUp, dest) && Unguarded(disk.fails, dest);
    assert map[dest := original][dest := content] == map[dest := content];
  }
}
