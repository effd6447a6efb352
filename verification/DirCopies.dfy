/** Copying, counting and removing directories in src/cli.rs, on a disk whose every operation and look-up may fail. */
module DirCopies {
  import opened Bytes
  import opened Paths
  import opened Wrappers

  /** What is below a directory, by relative path; of a file, its bytes at the empty path. */
  type Listing = map<Path, seq<byte>>

  /**
   * What a path can hold. A link has the place it finally leads to, if any, and shows what is read through
   * it. A directory is what lies above something.
   */
  datatype Item = Regular(bytes: seq<byte>) | Link(end: Option<Path>, shows: Listing)

  type Tree = map<Path, Item>

  predicate IsRegular(files: Tree, p: Path) { p in files && files[p].Regular? }

  predicate IsLink(files: Tree, p: Path) { p in files && files[p].Link? }

  predicate Below(dir: Path, p: Path) { dir < p }

  /** No link stands at p or above it. */
  ghost predicate LinkFree(files: Tree, p: Path) { forall q :: IsLink(files, q) ==> !(q <= p) }

  predicate Apart(a: Path, b: Path) { !(a <= b) && !(b <= a) }

  /** No link stands at dir, above it or below it. */
  ghost predicate Straight(files: Tree, dir: Path) { forall q :: IsLink(files, q) ==> Apart(q, dir) }

  /** Nothing lies below a file or a link, and where a link leads no more links are met. */
  ghost predicate WellFormed(files: Tree) {
    && [] !in files
    && (forall p, q {:trigger Below(p, q)} :: p in files && q in files ==> !Below(p, q))
    && forall q :: IsLink(files, q) && files[q].end.Some? ==> LinkFree(files, files[q].end.value)
  }

  predicate IsDir(files: Tree, dir: Path) { exists p :: p in files && Below(dir, p) }

  predicate Exists(files: Tree, dir: Path) { exists p :: p in files && dir <= p }

  ghost function Regulars(files: Tree, dir: Path): set<Path> { set p | p in files && dir <= p && files[p].Regular? }

  function Names(files: Tree, dir: Path): set<string> { set p | p in files && dir < p :: p[|dir|] }

  /** A file cannot be put where a directory is, nor below a file. */
  predicate Blocked(files: Tree, p: Path) { p == [] || exists q :: q in files && (Below(p, q) || Below(q, p)) }

  lemma PrefixesMeet(a: Path, b: Path, p: Path)
    requires a <= p && b <= p
    ensures a <= b || b <= a
  {
    assert a == p[..|a|] && b == p[..|b|];
    if |a| <= |b| {
      assert b[..|a|] == p[..|a|];
    } else {
      assert a[..|b|] == p[..|b|];
    }
  }

  lemma ApartBelow(a: Path, b: Path, p: Path)
    requires Apart(a, b) && a <= p
    ensures !(b <= p)
  {
    if b <= p {
      PrefixesMeet(a, b, p);
    }
  }

  /** The place of p when the directory `from` is copied to `to`. */
  function Rebase(p: Path, from: Path, to: Path): Path
    requires |from| <= |p|
  {
    to + p[|from|..]
  }

  lemma RebaseEntry(p: Path, from: Path, to: Path, n: string)
    requires from + [n] <= p
    ensures |from| < |p| && from < p && p[|from|] == n
    ensures Rebase(p, from, to) == Rebase(p, from + [n], to + [n])
    ensures to + [n] <= Rebase(p, from, to)
  {
    assert (from + [n])[|from|] == n && p[..|from|] == from;
    assert p[|from|..] == [n] + p[|from| + 1..];
  }

  lemma RebaseSelf(p: Path, to: Path)
    ensures Rebase(p, p, to) == to
  {
    assert p[|p|..] == [] && to + [] == to;
  }

  lemma RebaseBack(p: Path, from: Path, to: Path)
    requires from <= p
    ensures to <= Rebase(p, from, to) && Rebase(Rebase(p, from, to), to, from) == p
  {
  }

  lemma RebaseBelow(a: Path, b: Path, from: Path, to: Path)
    requires from <= a && from <= b && Below(Rebase(a, from, to), Rebase(b, from, to))
    ensures Below(a, b)
  {
    RebaseBack(a, from, to);
    RebaseBack(b, from, to);
    var a', b' := Rebase(a, from, to), Rebase(b, from, to);
    assert b'[..|a'|] == a';
    assert a'[|to|..] == a[|from|..] && b'[|to|..] == b[|from|..];
    assert b[|from|..][..|a| - |from|] == a[|from|..];
    assert b[..|a|] == a;
  }

  ghost function Image(ps: set<Path>, from: Path, to: Path): set<Path> {
    set p | p in ps && from <= p :: to + p[|from|..]
  }

  // ---------------------------------------------------------------------------------------------
  // Following links.

  lemma PrefixesChain(a: Path, b: Path, c: Path)
    requires b <= c
    ensures a <= b ==> a <= c
  {
    if a <= b {
      assert a == b[..|a|] == c[..|a|];
    }
  }

  lemma FreeAbove(files: Tree, p: Path, q: Path)
    requires LinkFree(files, p) && q <= p
    ensures LinkFree(files, q)
  {
    forall l | IsLink(files, l) ensures !(l <= q) {
      PrefixesChain(l, q, p);
    }
  }

  /** Where a path leads: `at` is walked already, `rest` is to come. */
  function Walk(files: Tree, at: Path, rest: Path): Option<Path>
    decreases |rest|
  {
    if rest == [] then Some(at)
    else if !IsLink(files, at + [rest[0]]) then Walk(files, at + [rest[0]], rest[1..])
    else if files[at + [rest[0]]].end.None? then None
    else Walk(files, files[at + [rest[0]]].end.value, rest[1..])
  }

  /** The place that opening p leads to, through every link on the way. */
  function Land(files: Tree, p: Path): Option<Path> { Walk(files, [], p) }

  predicate Found(files: Tree, p: Path) {
    match Land(files, p)
    case None => false
    case Some(r) => Exists(files, r)
  }

  ghost predicate SameLinks(a: Tree, b: Tree) {
    forall p {:trigger IsLink(a, p)} {:trigger IsLink(b, p)} ::
      (IsLink(a, p) <==> IsLink(b, p)) && (IsLink(a, p) ==> a[p] == b[p])
  }

  lemma {:induction false} WalkStraight(files: Tree, at: Path, rest: Path)
    requires LinkFree(files, at + rest)
    ensures Walk(files, at, rest) == Some(at + rest)
    decreases |rest|
  {
    if rest == [] {
      assert at + rest == at;
    } else {
      var next := at + [rest[0]];
      assert next + rest[1..] == at + rest;
      assert next == (at + rest)[..|next|];
      WalkStraight(files, next, rest[1..]);
    }
  }

  lemma PrefixStep(q: Path, at: Path, n: string)
    requires q <= at + [n] && q != at + [n]
    ensures q <= at
  {
    assert |q| <= |at|;
    assert q == (at + [n])[..|q|] == at[..|q|];
  }

  lemma FreeStep(files: Tree, at: Path, n: string)
    requires LinkFree(files, at) && !IsLink(files, at + [n])
    ensures LinkFree(files, at + [n])
  {
    forall q | IsLink(files, q) && q <= at + [n] ensures false {
      PrefixStep(q, at, n);
    }
  }

  lemma {:induction false} WalkIsFree(files: Tree, at: Path, rest: Path)
    requires WellFormed(files) && LinkFree(files, at) && Walk(files, at, rest).Some?
    ensures LinkFree(files, Walk(files, at, rest).value)
    decreases |rest|
  {
    if rest != [] {
      var next := at + [rest[0]];
      if IsLink(files, next) {
        WalkIsFree(files, files[next].end.value, rest[1..]);
      } else {
        FreeStep(files, at, rest[0]);
        WalkIsFree(files, next, rest[1..]);
      }
    }
  }

  lemma {:induction false} WalkSame(f: Tree, f': Tree, at: Path, rest: Path)
    requires SameLinks(f, f')
    ensures Walk(f, at, rest) == Walk(f', at, rest)
    decreases |rest|
  {
    if rest != [] {
      var next := at + [rest[0]];
      assert IsLink(f, next) <==> IsLink(f', next);
      WalkSame(f, f', if IsLink(f, next) && f[next].end.Some? then f[next].end.value else next, rest[1..]);
    }
  }

  lemma LandStraight(files: Tree, p: Path)
    requires LinkFree(files, p)
    ensures Land(files, p) == Some(p) && (Found(files, p) <==> Exists(files, p))
  {
    assert [] + p == p;
    WalkStraight(files, [], p);
  }

  lemma {:induction false} WalkLink(files: Tree, at: Path, rest: Path, tail: Path)
    requires rest != [] && IsLink(files, at + rest) && files[at + rest].end.Some?
    requires forall q :: IsLink(files, q) ==> !Below(q, at + rest)
    ensures Walk(files, at, rest + tail) == Walk(files, files[at + rest].end.value, tail)
    decreases |rest|
  {
    var next := at + [rest[0]];
    assert (rest + tail)[1..] == rest[1..] + tail;
    if |rest| == 1 {
      assert next == at + rest && rest[1..] + tail == tail;
    } else {
      assert next + rest[1..] == at + rest && next == (at + rest)[..|next|];
      WalkLink(files, next, rest[1..], tail);
    }
  }

  /** A path through a link leads on from where the link leads to. */
  lemma LandThrough(files: Tree, link: Path, p: Path)
    requires WellFormed(files) && IsLink(files, link) && files[link].end.Some? && link <= p
    ensures Land(files, p) == Walk(files, files[link].end.value, p[|link|..])
  {
    assert p == link + p[|link|..] && [] + link == link;
    WalkLink(files, [], link, p[|link|..]);
  }

  /** Below a straight directory every path leads to itself. */
  lemma LandBelow(files: Tree, dir: Path, p: Path)
    requires Straight(files, dir) && dir <= p
    ensures Land(files, p) == Some(p)
  {
    forall q | IsLink(files, q) ensures !(q <= p) {
      ApartBelow(dir, q, p);
    }
    LandStraight(files, p);
  }

  lemma LandIsFree(files: Tree, p: Path)
    requires WellFormed(files) && Land(files, p).Some?
    ensures LinkFree(files, Land(files, p).value)
  {
    WalkIsFree(files, [], p);
  }

  /** What is listed and is no link is reached without one. */
  lemma SeenIsFree(files: Tree, p: Path)
    requires WellFormed(files) && Exists(files, p) && !IsLink(files, p)
    ensures LinkFree(files, p)
  {
    var k :| k in files && p <= k;
    forall q | IsLink(files, q) ensures !(q <= p) {
      if q <= p {
        assert q != p && q == p[..|q|] == k[..|q|];
        assert Below(q, k);
      }
    }
  }

  /** Nothing that is written through dest lands in src. */
  ghost predicate Untangled(files: Tree, src: Path, dest: Path) {
    forall x {:trigger Land(files, x)} :: dest <= x && Land(files, x).Some? ==> !(src <= Land(files, x).value)
  }

  lemma StraightIsUntangled(files: Tree, src: Path, dest: Path)
    requires Straight(files, dest) && Apart(src, dest)
    ensures Untangled(files, src, dest)
  {
    forall x | dest <= x && Land(files, x).Some? ensures !(src <= Land(files, x).value) {
      LandBelow(files, dest, x);
      ApartBelow(dest, src, x);
    }
  }

  // ---------------------------------------------------------------------------------------------
  // Changes below a directory.

  ghost predicate SameOutside(a: Tree, b: Tree, dir: Path) {
    forall p {:trigger Same(a, b, p)} :: !(dir <= p) ==> Same(a, b, p)
  }

  ghost predicate StepsOutside(a: Tree, trace: seq<Tree>, from: nat, dir: Path) {
    forall i :: from <= i < |trace| ==> SameOutside(a, trace[i], dir)
  }

  lemma WithinMeansOutside(a: Tree, b: Tree, ps: set<Path>, dir: Path)
    requires Within(a, b, ps) && forall p :: p in ps ==> dir <= p
    ensures SameOutside(a, b, dir)
  {
  }

  lemma Transitive(a: Tree, b: Tree, c: Tree, dir: Path)
    requires SameOutside(a, b, dir) && SameOutside(b, c, dir)
    ensures SameOutside(a, c, dir)
  {
    forall p | !(dir <= p) ensures Same(a, c, p) {
      assert Same(a, b, p) && Same(b, c, p);
    }
  }

  lemma StepsTransitive(a: Tree, b: Tree, t: seq<Tree>, t': seq<Tree>, from: nat, dir: Path)
    requires StepsOutside(a, t, from, dir) && SameOutside(a, b, dir) && t <= t' && StepsOutside(b, t', |t|, dir)
    ensures StepsOutside(a, t', from, dir)
  {
    forall i | from <= i < |t'| ensures SameOutside(a, t'[i], dir) {
      if i < |t| {
        assert t'[i] == t[i];
      } else {
        Transitive(a, b, t'[i], dir);
      }
    }
  }

  /** q is empty at some step. */
  ghost predicate Emptied(q: Path, trace: seq<Tree>, from: nat) {
    exists i :: from <= i < |trace| && q in trace[i] && trace[i][q] == Regular([])
  }

  /** Nothing but the paths whose writing has begun changes, and opening them empties them. */
  ghost predicate Begun(f0: Tree, files: Tree, trace: seq<Tree>, from: nat, begun: set<Path>) {
    && Within(f0, files, begun) && StepsWithin(f0, trace, from, begun) && SameLinks(f0, files)
    && forall q :: q in begun ==> Emptied(q, trace, from)
  }

  lemma WithinMore(a: Tree, b: Tree, c: Tree, ps: set<Path>, qs: set<Path>)
    requires Within(a, b, ps) && Within(b, c, qs)
    ensures Within(a, c, ps + qs)
  {
    forall p | p !in ps + qs ensures Same(a, c, p) {
      assert Same(a, b, p) && Same(b, c, p);
    }
  }

  lemma BegunMore(f0: Tree, f: Tree, f': Tree, t: seq<Tree>, t': seq<Tree>, from: nat, begun: set<Path>,
                  more: set<Path>)
    requires Begun(f0, f, t, from, begun) && t <= t' && from <= |t| && Begun(f, f', t', |t|, more)
    ensures Begun(f0, f', t', from, begun + more)
  {
    WithinMore(f0, f, f', begun, more);
    forall i | from <= i < |t'| ensures Within(f0, t'[i], begun + more) {
      if i < |t| {
        assert t'[i] == t[i];
      } else {
        WithinMore(f0, f, t'[i], begun, more);
      }
    }
    forall q | q in begun + more ensures Emptied(q, t', from) {
      if q in begun {
        var i :| from <= i < |t| && q in t[i] && t[i][q] == Regular([]);
        assert t'[i] == t[i];
      }
    }
  }

  ghost predicate Keeps(part: Tree, whole: Tree) { forall p :: p in part ==> p in whole && whole[p] == part[p] }

  /** What is still there was there at every step, and nothing was added. */
  ghost predicate OnlyRemoved(before: Tree, trace: seq<Tree>, from: nat, after: Tree) {
    && Keeps(after, before)
    && forall i :: from <= i < |trace| ==> Keeps(after, trace[i]) && Keeps(trace[i], before)
  }

  /** Opening p for writing leads to a place where a file is or can be made. */
  predicate Opens(files: Tree, p: Path) { Land(files, p).Some? && !Blocked(files, Land(files, p).value) }

  // ---------------------------------------------------------------------------------------------
  // The disk.

  datatype Pass = ToBackup | ToDest | BackToDest

  datatype Count = OriginalCount | BackupCount

  datatype Removal = OfBackup | OfOriginal | OfTorn

  /** The questions and orders of an installation, each by its place in the code. */
  datatype TreeCall =
    | SourceExists | SkillExists | DestExists | CompareExists | CompareDir | CompareSkill | HashDir
    | MakeParent | ExistsToBackUp
    | LinkLookUp(pass: Pass) | DirLookUp(pass: Pass)
    | MakeDir(pass: Pass) | ListDir(pass: Pass)
    | MakeFileParent(pass: Pass) | ReadFile(pass: Pass) | OpenFile(pass: Pass) | FillFile(pass: Pass)
    | CountLinkLookUp(count: Count) | CountDirLookUp(count: Count)
    | CountListDir(count: Count) | ReadLength(count: Count)
    | Remove(removal: Removal)

  /** Which calls fail: any set of them. */
  type TreeFaults = (TreeCall, Path) -> bool

  /** Files come and go, but links stay. */
  lemma FileStaysWellFormed(files: Tree, p: Path, bytes: seq<byte>)
    requires WellFormed(files) && !Blocked(files, p) && !IsLink(files, p)
    ensures WellFormed(files[p := Regular(bytes)]) && SameLinks(files, files[p := Regular(bytes)])
  {
    var now := files[p := Regular(bytes)];
    forall q ensures IsLink(now, q) <==> IsLink(files, q) {
    }
    forall q | IsLink(now, q) && now[q].end.Some? ensures LinkFree(now, now[q].end.value) {
      assert LinkFree(files, files[q].end.value);
    }
  }

  lemma RemovalStaysWellFormed(files: Tree, p: Path)
    requires WellFormed(files)
    ensures WellFormed(files - {p})
  {
    var now := files - {p};
    forall q | IsLink(now, q) && now[q].end.Some? ensures LinkFree(now, now[q].end.value) {
      assert IsLink(files, q) && LinkFree(files, files[q].end.value);
      forall l | IsLink(now, l) ensures !(l <= now[q].end.value) {
        assert IsLink(files, l);
      }
    }
  }

  lemma BeginsEmpty(f0: Tree, trace: seq<Tree>, from: nat, p: Path)
    requires !IsLink(f0, p) && |trace| == from + 1 && trace[from] == f0[p := Regular([])]
    ensures Begun(f0, trace[from], trace, from, {p})
  {
    assert Emptied(p, trace, from);
  }

  lemma BegunAgain(f0: Tree, trace: seq<Tree>, now: Tree, from: nat, p: Path)
    requires trace != [] && Begun(f0, trace[|trace| - 1], trace, from, {p}) && Within(trace[|trace| - 1], now, {p})
    requires SameLinks(trace[|trace| - 1], now)
    ensures Begun(f0, now, trace + [now], from, {p})
  {
    WithinMore(f0, trace[|trace| - 1], now, {p}, {p});
    assert {p} + {p} == {p};
    var i :| from <= i < |trace| && p in trace[i] && trace[i][p] == Regular([]);
    assert (trace + [now])[i] == trace[i];
    assert Emptied(p, trace + [now], from);
  }

  lemma OneRemoved(before: Tree, files: Tree, trace: seq<Tree>, from: nat, dir: Path, p: Path)
    requires StepsOutside(before, trace, from, dir) && SameOutside(before, files, dir) && dir <= p
    requires OnlyRemoved(before, trace, from, files)
    ensures var now := files - {p};
            && StepsOutside(before, trace + [now], from, dir) && SameOutside(before, now, dir)
            && OnlyRemoved(before, trace + [now], from, now)
  {
    var now := files - {p};
    forall q | !(dir <= q) ensures Same(before, now, q) {
      assert Same(before, files, q);
    }
  }

  /** `trace` records every state of the disk; the current one is its last. */
  class TreeDisk {
    const fails: TreeFaults
    var files: Tree
    ghost var trace: seq<Tree>

    ghost predicate Valid()
      reads this
    {
      trace != [] && trace[|trace| - 1] == files && WellFormed(files)
    }

    constructor (files: Tree, fails: TreeFaults)
      requires WellFormed(files)
      ensures Valid() && this.files == files && this.fails == fails && trace == [files]
    {
      this.files, this.fails := files, fails;
      trace := [files];
    }

    /** `Path::exists`, which follows links: false also when the metadata cannot be read. */
    method LookUp(call: TreeCall, p: Path) returns (found: bool)
      ensures found <==> Found(files, p) && !fails(call, p)
    {
      found := Found(files, p) && !fails(call, p);
    }

    /** `Path::is_dir`, with the same weakness, where no link is on the way. */
    method LookUpDir(call: TreeCall, p: Path) returns (dir: bool)
      requires LinkFree(files, p)
      ensures dir <==> IsDir(files, p) && !fails(call, p)
    {
      dir := IsDir(files, p) && !fails(call, p);
    }

    /** `symlink_metadata`, read so that what cannot be looked up is taken for a link. */
    method LookUpLink(call: TreeCall, p: Path) returns (link: bool)
      ensures link <==> fails(call, p) || IsLink(files, p)
    {
      link := fails(call, p) || IsLink(files, p);
    }

    /**
     * `create_dir_all`. Through a link it depends on whether the link leads to a directory, which may be an empty
     * one.
     */
    method MakeDir(call: TreeCall, p: Path) returns (ok: bool)
      ensures fails(call, p) ==> !ok
      ensures LinkFree(files, p) ==> (ok <==> !fails(call, p) && forall q :: q in files ==> !(q <= p))
    {
      if fails(call, p) {
        return false;
      }
      if q :| q in files && q <= p {
        ok := false;
        if IsLink(files, q) {
          ok := *;
        }
      } else {
        ok := true;
      }
    }

    method ListDir(call: TreeCall, dir: Path) returns (ok: bool, names: set<string>)
      ensures ok <==> !fails(call, dir) && dir !in files
      ensures ok ==> names == Names(files, dir)
    {
      ok, names := !fails(call, dir) && dir !in files, Names(files, dir);
    }

    method Store(p: Path, bytes: seq<byte>)
      requires Valid() && !Blocked(files, p) && !IsLink(files, p)
      modifies this`files, this`trace
      ensures Valid() && files == old(files)[p := Regular(bytes)] && trace == old(trace) + [files]
      ensures SameLinks(old(files), files)
    {
      FileStaysWellFormed(files, p, bytes);
      files := files[p := Regular(bytes)];
      trace := trace + [files];
    }

    method Drop(p: Path)
      requires Valid()
      modifies this`files, this`trace
      ensures Valid() && files == old(files) - {p} && trace == old(trace) + [files]
    {
      RemovalStaysWellFormed(files, p);
      files := files - {p};
      trace := trace + [files];
    }

    /**
     * Opening for writing follows links and empties the file it leads to; what a failed write leaves is
     * anything or nothing.
     */
    method Write(pass: Pass, p: Path, bytes: seq<byte>) returns (ok: bool, ghost begun: set<Path>)
      requires Valid()
      modifies this`files, this`trace
      ensures Valid() && old(trace) <= trace
      ensures begun == if !fails(OpenFile(pass), p) && Opens(old(files), p) then {Land(old(files), p).value} else {}
      ensures Begun(old(files), files, trace, |old(trace)|, begun)
      ensures ok <==> begun != {} && !fails(FillFile(pass), p)
      ensures ok ==> files == old(files)[Land(old(files), p).value := Regular(bytes)]
    {
      begun := {};
      if fails(OpenFile(pass), p) || !Opens(files, p) {
        return false, begun;
      }
      var place := Land(files, p).value;
      LandIsFree(files, p);
      begun := {place};
      var partial: seq<byte> := *;
      ghost var f0, from := files, |trace|;
      Store(place, []);
      BeginsEmpty(f0, trace, from, place);
      ghost var t := trace;
      Store(place, partial);
      BegunAgain(f0, t, files, from, place);
      t := trace;
      ok := !fails(FillFile(pass), p);
      if ok {
        Store(place, bytes);
        assert files == f0[place := Regular(bytes)];
        BegunAgain(f0, t, files, from, place);
      } else if * {
        Drop(place);
        BegunAgain(f0, t, files, from, place);
      }
    }

    /** `remove_dir_all`: what is below goes in any order, up to the first that cannot be removed. */
    method RemoveAll(removal: Removal, dir: Path) returns (ok: bool)
      requires Valid()
      modifies this`files, this`trace
      ensures Valid() && old(trace) <= trace
      ensures StepsOutside(old(files), trace, |old(trace)|, dir) && SameOutside(old(files), files, dir)
      ensures OnlyRemoved(old(files), trace, |old(trace)|, files)
      ensures ok <==> forall p :: p in old(files) && dir <= p ==> !fails(Remove(removal), p)
      ensures ok ==> !Exists(files, dir)
    {
      var rest := set p | p in files && dir <= p;
      while rest != {}
        invariant Valid() && old(trace) <= trace
        invariant StepsOutside(old(files), trace, |old(trace)|, dir) && SameOutside(old(files), files, dir)
        invariant OnlyRemoved(old(files), trace, |old(trace)|, files)
        invariant forall p :: p in files && dir <= p ==> p in rest
        invariant forall p :: p in rest ==> dir <= p && p in old(files)
        invariant forall p :: p in old(files) && dir <= p ==> p in rest || !fails(Remove(removal), p)
        decreases |rest|
      {
        var p :| p in rest;
        if fails(Remove(removal), p) {
          return false;
        }
        rest := rest - {p};
        ghost var f, t := files, trace;
        Drop(p);
        OneRemoved(old(files), f, t, |old(trace)|, dir, p);
      }
      ok := true;
    }
  }

  // ---------------------------------------------------------------------------------------------
  // Copying.

  /** A look-up of p, or of a directory on the way from the first `low` names down to it, fails. */
  ghost predicate Skips(fails: TreeFaults, call: TreeCall, low: nat, p: Path) {
    exists k :: low < k <= |p| && fails(call, p[..k])
  }

  lemma SkipsOneLess(fails: TreeFaults, call: TreeCall, low: nat, p: Path)
    requires low < |p|
    ensures Skips(fails, call, low, p) <==> fails(call, p[..low + 1]) || Skips(fails, call, low + 1, p)
  {
    if Skips(fails, call, low, p) {
      var k :| low < k <= |p| && fails(call, p[..k]);
      assert k == low + 1 || Skips(fails, call, low + 1, p);
    }
    if Skips(fails, call, low + 1, p) {
      var k :| low + 1 < k <= |p| && fails(call, p[..k]);
    }
  }

  /** The regular files that a copy does not pass over. */
  ghost function Chosen(files: Tree, dir: Path, low: nat, fails: TreeFaults, pass: Pass): set<Path> {
    set p | p in files && dir <= p && files[p].Regular? && !Skips(fails, LinkLookUp(pass), low, p)
  }

  /** Those of them below the entries `done`. */
  ghost function ChosenIn(files: Tree, dir: Path, done: set<string>, fails: TreeFaults, pass: Pass): set<Path> {
    set p | p in Chosen(files, dir, |dir|, fails, pass) && |dir| < |p| && p[|dir|] in done
  }

  lemma EntryPrefix(dir: Path, n: string, p: Path)
    ensures dir + [n] <= p <==> dir <= p && |dir| < |p| && p[|dir|] == n
  {
    if dir + [n] <= p {
      RebaseEntry(p, dir, dir, n);
    }
  }

  lemma ChosenMore(files: Tree, dir: Path, n: string, done: set<string>, fails: TreeFaults, pass: Pass)
    ensures ChosenIn(files, dir, done + {n}, fails, pass)
      == ChosenIn(files, dir, done, fails, pass) + Chosen(files, dir + [n], |dir|, fails, pass)
  {
    forall p ensures dir + [n] <= p <==> dir <= p && |dir| < |p| && p[|dir|] == n {
      EntryPrefix(dir, n, p);
    }
  }

  lemma ChosenAll(files: Tree, dir: Path, done: set<string>, fails: TreeFaults, pass: Pass)
    requires dir !in files && forall n :: n in Names(files, dir) ==> n in done
    ensures ChosenIn(files, dir, done, fails, pass) == Chosen(files, dir, |dir|, fails, pass)
  {
    forall p | p in Chosen(files, dir, |dir|, fails, pass) ensures p in ChosenIn(files, dir, done, fails, pass) {
      assert p != dir && dir < p;
      assert p[|dir|] in Names(files, dir);
    }
  }

  /** A directory whose look-up succeeds passes on what lies below it. */
  lemma ChosenBelow(files: Tree, p: Path, fails: TreeFaults, pass: Pass)
    requires p != [] && !fails(LinkLookUp(pass), p)
    ensures Chosen(files, p, |p| - 1, fails, pass) == Chosen(files, p, |p|, fails, pass)
  {
    forall q | p <= q
      ensures Skips(fails, LinkLookUp(pass), |p| - 1, q) <==> Skips(fails, LinkLookUp(pass), |p|, q)
    {
      SkipsOneLess(fails, LinkLookUp(pass), |p| - 1, q);
      assert q[..|p|] == p;
    }
  }

  /** Nothing is chosen below what cannot be looked up, nor at a link. */
  lemma NothingChosen(files: Tree, p: Path, fails: TreeFaults, pass: Pass)
    requires p != [] && WellFormed(files) && (fails(LinkLookUp(pass), p) || (p in files && files[p].Link?))
    ensures Chosen(files, p, |p| - 1, fails, pass) == {}
  {
    forall q | q in files && p <= q && files[q].Regular? ensures Skips(fails, LinkLookUp(pass), |p| - 1, q) {
      assert q[..|p|] == p;
      assert q == p || Below(p, q);
    }
  }

  lemma OneChosen(files: Tree, p: Path, fails: TreeFaults, pass: Pass)
    requires p != [] && WellFormed(files) && IsRegular(files, p) && !fails(LinkLookUp(pass), p)
    ensures Chosen(files, p, |p| - 1, fails, pass) == {p}
  {
    ChosenBelow(files, p, fails, pass);
    forall q | q in files && p <= q ensures q == p {
      assert q == p || Below(p, q);
    }
    assert !Skips(fails, LinkLookUp(pass), |p|, p);
  }

  ghost predicate Arrived(before: Tree, after: Tree, p: Path, src: Path, dest: Path) {
    && src <= p && p in before
    && Rebase(p, src, dest) in after && after[Rebase(p, src, dest)] == before[p]
  }

  /** The files ps of src are at their places below dest, and nothing but these places differs. */
  ghost predicate Placed(before: Tree, after: Tree, ps: set<Path>, src: Path, dest: Path) {
    && Within(before, after, Image(ps, src, dest))
    && forall p :: p in ps ==> Arrived(before, after, p, src, dest)
  }

  /** Where the copy of p is written, through the links below dest. */
  function Landing(files: Tree, p: Path, src: Path, dest: Path): Option<Path>
    requires |src| <= |p|
  {
    Land(files, Rebase(p, src, dest))
  }

  ghost predicate LandsAt(files: Tree, p: Path, src: Path, dest: Path, r: Path) {
    src <= p && Landing(files, p, src, dest) == Some(r)
  }

  ghost function Landings(files: Tree, ps: set<Path>, src: Path, dest: Path): set<Path> {
    set p | p in ps && src <= p && Land(files, dest + p[|src|..]).Some? :: Land(files, dest + p[|src|..]).value
  }

  lemma LandingsHold(files: Tree, ps: set<Path>, src: Path, dest: Path, r: Path)
    ensures r in Landings(files, ps, src, dest) <==> exists p :: p in ps && LandsAt(files, p, src, dest, r)
  {
    if r in Landings(files, ps, src, dest) {
      var p :| p in ps && src <= p && Land(files, dest + p[|src|..]) == Some(r);
      assert LandsAt(files, p, src, dest, r);
    }
    if p :| p in ps && LandsAt(files, p, src, dest, r) {
      assert Land(files, dest + p[|src|..]) == Some(r);
    }
  }

  ghost predicate Holds(before: Tree, after: Tree, ps: set<Path>, p: Path, src: Path, dest: Path, r: Path) {
    p in ps && p in before && LandsAt(before, p, src, dest, r) && r in after && after[r] == before[p]
  }

  /** At r are the bytes of a file that lands there. */
  ghost predicate Full(before: Tree, after: Tree, ps: set<Path>, src: Path, dest: Path, r: Path) {
    exists p :: Holds(before, after, ps, p, src, dest, r)
  }

  ghost predicate Lands(files: Tree, p: Path, src: Path, dest: Path) { src <= p && Landing(files, p, src, dest).Some? }

  /** Every file of ps has its bytes at the place it lands at, or those of another that lands there too. */
  ghost predicate Filled(before: Tree, after: Tree, ps: set<Path>, src: Path, dest: Path) {
    forall p :: p in ps ==>
      Lands(before, p, src, dest) && Full(before, after, ps, src, dest, Landing(before, p, src, dest).value)
  }

  ghost predicate Shallow(files: Tree, dir: Path, depth: nat) {
    forall p :: p in files && dir <= p ==> |p| <= |dir| + depth
  }

  lemma SameLanding(f: Tree, f': Tree, p: Path, src: Path, dest: Path)
    requires SameLinks(f, f') && src <= p
    ensures Landing(f, p, src, dest) == Landing(f', p, src, dest)
  {
    WalkSame(f, f', [], Rebase(p, src, dest));
  }

  lemma ImageBelow(ps: set<Path>, src: Path, dest: Path)
    ensures forall q :: q in Image(ps, src, dest) ==> dest <= q
  {
  }

  lemma LandingsOfEntry(f: Tree, f': Tree, ps: set<Path>, src: Path, dest: Path, n: string)
    requires SameLinks(f, f') && forall p :: p in ps ==> src + [n] <= p
    ensures Landings(f', ps, src + [n], dest + [n]) == Landings(f, ps, src, dest)
  {
    forall p | p in ps
      ensures src <= p && Landing(f', p, src + [n], dest + [n]) == Landing(f, p, src, dest)
    {
      RebaseEntry(p, src, dest, n);
      SameLanding(f, f', p, src, dest);
    }
    forall r ensures r in Landings(f', ps, src + [n], dest + [n]) <==> r in Landings(f, ps, src, dest) {
      LandingsHold(f', ps, src + [n], dest + [n], r);
      LandingsHold(f, ps, src, dest, r);
      if p :| p in ps && LandsAt(f, p, src, dest, r) {
        assert LandsAt(f', p, src + [n], dest + [n], r);
      }
      if p :| p in ps && LandsAt(f', p, src + [n], dest + [n], r) {
        assert LandsAt(f, p, src, dest, r);
      }
    }
  }

  lemma LandingsOfSum(files: Tree, ps: set<Path>, qs: set<Path>, src: Path, dest: Path)
    ensures Landings(files, ps + qs, src, dest) == Landings(files, ps, src, dest) + Landings(files, qs, src, dest)
  {
  }

  lemma RebaseInjective(p: Path, q: Path, src: Path, dest: Path)
    requires src <= p && src <= q && Rebase(p, src, dest) == Rebase(q, src, dest)
    ensures p == q
  {
    RebaseBack(p, src, dest);
    RebaseBack(q, src, dest);
  }

  lemma LandingsOutside(files: Tree, ps: set<Path>, src: Path, dest: Path)
    requires Untangled(files, src, dest)
    ensures forall r :: r in Landings(files, ps, src, dest) ==> !(src <= r)
  {
    forall p | p in ps && src <= p ensures dest <= dest + p[|src|..] {
    }
  }

  /** Copying leaves its source alone. */
  lemma SourceStays(f0: Tree, f: Tree, ps: set<Path>, src: Path, dest: Path, p: Path)
    requires Within(f0, f, Landings(f0, ps, src, dest)) && Untangled(f0, src, dest) && src <= p
    ensures Same(f0, f, p)
  {
    LandingsOutside(f0, ps, src, dest);
  }

  lemma FullLonger(f0: Tree, f: Tree, f': Tree, ps: set<Path>, qs: set<Path>, src: Path, dest: Path, r: Path)
    requires Full(f0, f, ps, src, dest, r) && Same(f, f', r)
    ensures Full(f0, f', ps + qs, src, dest, r)
  {
    var p :| Holds(f0, f, ps, p, src, dest, r);
    assert Holds(f0, f', ps + qs, p, src, dest, r);
  }

  lemma FullNow(f0: Tree, f: Tree, f': Tree, ps: set<Path>, qs: set<Path>, src: Path, dest: Path, n: string, r: Path)
    requires Full(f, f', qs, src + [n], dest + [n], r) && SameLinks(f0, f)
    requires Within(f0, f, Landings(f0, ps, src, dest)) && Untangled(f0, src, dest)
    ensures Full(f0, f', ps + qs, src, dest, r)
  {
    var p :| Holds(f, f', qs, p, src + [n], dest + [n], r);
    RebaseEntry(p, src, dest, n);
    SourceStays(f0, f, ps, src, dest, p);
    SameLanding(f0, f, p, src, dest);
    assert Holds(f0, f', ps + qs, p, src, dest, r);
  }

  /** One more entry has been copied. */
  lemma FilledMore(f0: Tree, f: Tree, f': Tree, ps: set<Path>, qs: set<Path>, src: Path, dest: Path, n: string)
    requires Filled(f0, f, ps, src, dest) && Filled(f, f', qs, src + [n], dest + [n]) && SameLinks(f0, f)
    requires Within(f0, f, Landings(f0, ps, src, dest)) && Within(f, f', Landings(f0, qs, src, dest))
    requires Untangled(f0, src, dest) && forall q :: q in qs ==> src + [n] <= q
    ensures Filled(f0, f', ps + qs, src, dest)
  {
    forall q | q in qs
      ensures Lands(f0, q, src, dest) && Full(f0, f', ps + qs, src, dest, Landing(f0, q, src, dest).value)
    {
      RebaseEntry(q, src, dest, n);
      SameLanding(f0, f, q, src, dest);
      FullNow(f0, f, f', ps, qs, src, dest, n, Landing(f0, q, src, dest).value);
    }
    forall p | p in ps ensures Full(f0, f', ps + qs, src, dest, Landing(f0, p, src, dest).value) {
      var r := Landing(f0, p, src, dest).value;
      if r in Landings(f0, qs, src, dest) {
        var q :| q in qs && src <= q && Land(f0, dest + q[|src|..]) == Some(r);
        assert Landing(f0, q, src, dest) == Some(r);
      } else {
        assert Same(f, f', r);
        FullLonger(f0, f, f', ps, qs, src, dest, r);
      }
    }
  }

  lemma EntriesApart(a: Path, b: Path, n: string)
    requires Apart(a, b)
    ensures Apart(a + [n], b + [n])
  {
    if a + [n] <= b + [n] {
      RebaseEntry(b + [n], a, b, n);
      ApartBelow(b, a, b + [n]);
    }
    if b + [n] <= a + [n] {
      RebaseEntry(a + [n], b, a, n);
      ApartBelow(a, b, a + [n]);
    }
  }

  lemma EntryIsShallow(files: Tree, dir: Path, n: string, depth: nat)
    requires n in Names(files, dir) && Shallow(files, dir, depth)
    ensures Exists(files, dir + [n]) && depth > 0 && Shallow(files, dir + [n], depth - 1)
  {
    var p :| p in files && dir < p && p[|dir|] == n;
    assert dir + [n] <= p;
    forall q | q in files && dir + [n] <= q ensures |q| <= |dir + [n]| + (depth - 1) {
      RebaseEntry(q, dir, dir, n);
    }
  }

  /** While its entries are copied the source looks as in the beginning. */
  lemma EntryStays(f0: Tree, f: Tree, src: Path, n: string, fails: TreeFaults, pass: Pass)
    requires forall p {:trigger Same(f0, f, p)} :: src <= p ==> Same(f0, f, p)
    ensures Chosen(f, src + [n], |src|, fails, pass) == Chosen(f0, src + [n], |src|, fails, pass)
    ensures forall depth :: Shallow(f0, src + [n], depth) ==> Shallow(f, src + [n], depth)
    ensures Exists(f0, src + [n]) ==> Exists(f, src + [n])
  {
    forall p | src + [n] <= p ensures (p in f <==> p in f0) && (p in f ==> f[p] == f0[p]) {
      EntryPrefix(src, n, p);
      assert Same(f0, f, p);
    }
  }

  /** One file lands at r, and another lands or is placed at r'. */
  ghost predicate Meets(files: Tree, p: Path, p': Path, src: Path, dest: Path, r: Path, r': Path) {
    && IsRegular(files, p) && p' in files && src <= p && src <= p'
    && ((LandsAt(files, p, src, dest, r) && (LandsAt(files, p', src, dest, r') || r' == Rebase(p', src, dest)))
        || (r == Rebase(p', src, dest) && LandsAt(files, p, src, dest, r')))
  }

  /**
   * Every file finds its place, through links as well: no file or link where a directory is needed, no
   * directory where a file is, and no two files in each other's way.
   */
  ghost predicate Fits(files: Tree, src: Path, dest: Path) {
    && (forall p, q :: p in files && src <= p && q in files ==>
          !Below(q, Rebase(p, src, dest)) && !Below(Rebase(p, src, dest), q))
    && (forall p :: IsRegular(files, p) && src <= p ==> Opens(files, Rebase(p, src, dest)))
    && forall p, p', r, r' :: Meets(files, p, p', src, dest, r, r') ==> !Below(r, r')
  }

  /** What is there while a copy is made was there before or is one of its files. */
  lemma KeyIsOldOrLanded(f0: Tree, f: Tree, ps: set<Path>, src: Path, dest: Path, q: Path)
    requires Within(f0, f, Landings(f0, ps, src, dest)) && q in f
    ensures q in f0 || exists p :: p in ps && LandsAt(f0, p, src, dest, q)
  {
    LandingsHold(f0, ps, src, dest, q);
    if q !in Landings(f0, ps, src, dest) {
      assert Same(f0, f, q);
    }
  }

  /** The copy of p is not in the way of what has landed so far. */
  lemma StillFits(f0: Tree, f: Tree, ps: set<Path>, src: Path, dest: Path, p: Path, q: Path)
    requires Fits(f0, src, dest) && Within(f0, f, Landings(f0, ps, src, dest)) && q in f
    requires (forall p :: p in ps ==> IsRegular(f0, p)) && p in f0 && src <= p
    ensures !Below(q, Rebase(p, src, dest)) && !Below(Rebase(p, src, dest), q)
    ensures IsRegular(f0, p) && Landing(f0, p, src, dest).Some? ==>
              !Below(q, Landing(f0, p, src, dest).value) && !Below(Landing(f0, p, src, dest).value, q)
  {
    KeyIsOldOrLanded(f0, f, ps, src, dest, q);
    if q !in f0 {
      var p' :| p' in ps && LandsAt(f0, p', src, dest, q);
      assert Meets(f0, p', p, src, dest, q, Rebase(p, src, dest));
      assert Meets(f0, p', p, src, dest, Rebase(p, src, dest), q);
      if IsRegular(f0, p) && Landing(f0, p, src, dest).Some? {
        var r := Landing(f0, p, src, dest).value;
        assert Meets(f0, p', p, src, dest, q, r) && Meets(f0, p, p', src, dest, r, q);
      }
    } else if IsRegular(f0, p) && Landing(f0, p, src, dest).Some? {
      assert Opens(f0, Rebase(p, src, dest));
    }
  }

  lemma EntryMeets(f0: Tree, f: Tree, p: Path, p': Path, src: Path, dest: Path, n: string, r: Path, r': Path)
    requires Meets(f, p, p', src + [n], dest + [n], r, r') && SameLinks(f0, f)
    requires Same(f0, f, p) && Same(f0, f, p')
    ensures Meets(f0, p, p', src, dest, r, r')
  {
    RebaseEntry(p, src, dest, n);
    RebaseEntry(p', src, dest, n);
    SameLanding(f0, f, p, src, dest);
    SameLanding(f0, f, p', src, dest);
  }

  lemma EntryFits(f0: Tree, f: Tree, ps: set<Path>, src: Path, dest: Path, n: string)
    requires Fits(f0, src, dest) && Within(f0, f, Landings(f0, ps, src, dest)) && SameLinks(f0, f)
    requires Untangled(f0, src, dest) && forall p :: p in ps ==> IsRegular(f0, p)
    ensures Fits(f, src + [n], dest + [n])
  {
    forall p | p in f && src + [n] <= p
      ensures forall q :: q in f ==>
                !Below(q, Rebase(p, src + [n], dest + [n])) && !Below(Rebase(p, src + [n], dest + [n]), q)
      ensures IsRegular(f, p) ==> Opens(f, Rebase(p, src + [n], dest + [n]))
    {
      RebaseEntry(p, src, dest, n);
      SourceStays(f0, f, ps, src, dest, p);
      SameLanding(f0, f, p, src, dest);
      forall q | q in f
        ensures !Below(q, Rebase(p, src, dest)) && !Below(Rebase(p, src, dest), q)
        ensures IsRegular(f, p) && Landing(f0, p, src, dest).Some? ==>
                  !Below(q, Landing(f0, p, src, dest).value) && !Below(Landing(f0, p, src, dest).value, q)
      {
        StillFits(f0, f, ps, src, dest, p, q);
      }
      if IsRegular(f, p) {
        assert Opens(f0, Rebase(p, src, dest));
      }
    }
    forall p, p', r, r' | Meets(f, p, p', src + [n], dest + [n], r, r') ensures !Below(r, r') {
      RebaseEntry(p, src, dest, n);
      RebaseEntry(p', src, dest, n);
      SourceStays(f0, f, ps, src, dest, p);
      SourceStays(f0, f, ps, src, dest, p');
      EntryMeets(f0, f, p, p', src, dest, n, r, r');
    }
  }

  lemma DirFits(files: Tree, src: Path, dest: Path)
    requires Fits(files, src, dest) && Exists(files, src) && src !in files
    ensures LinkFree(files, dest) && forall q :: q in files ==> !(q <= dest)
  {
    var p :| p in files && src <= p;
    assert p != src;
    assert |src| < |p|;
    RebaseBack(p, src, dest);
    forall q | q in files && q <= dest ensures false {
      assert |Rebase(p, src, dest)| > |dest|;
      assert Below(q, Rebase(p, src, dest));
    }
  }

  /** No call of this copy fails with an error, though look-ups of links may. */
  ghost predicate Smooth(fails: TreeFaults, pass: Pass) {
    forall p ::
      && !fails(DirLookUp(pass), p) && !fails(MakeDir(pass), p) && !fails(ListDir(pass), p)
      && !fails(MakeFileParent(pass), p) && !fails(ReadFile(pass), p)
      && !fails(OpenFile(pass), p) && !fails(FillFile(pass), p)
  }

  lemma IsFile(files: Tree, p: Path)
    requires Exists(files, p) && !IsDir(files, p)
    ensures p in files
  {
    var q :| q in files && p <= q;
    assert q == p || Below(p, q);
  }

  lemma FileCopied(before: Tree, after: Tree, p: Path, to: Path)
    requires IsRegular(before, p) && Land(before, to).Some? && after == before[Land(before, to).value := before[p]]
    ensures Landings(before, {p}, p, to) == {Land(before, to).value} && Filled(before, after, {p}, p, to)
  {
    RebaseSelf(p, to);
    var r := Land(before, to).value;
    assert to + p[|p|..] == to;
    assert Landings(before, {p}, p, to) == {r};
    assert Holds(before, after, {p}, p, p, to, r);
  }

  /** A copy of src to dest in progress: the entries `done` have been handled. */
  ghost predicate Copying(f0: Tree, from: nat, disk: TreeDisk, src: Path, dest: Path, pass: Pass, begun: set<Path>,
                          done: set<string>)
    reads disk
  {
    var ps := ChosenIn(f0, src, done, disk.fails, pass);
    && Begun(f0, disk.files, disk.trace, from, begun)
    && begun == Landings(f0, ps, src, dest) && Filled(f0, disk.files, ps, src, dest)
  }

  /** What has been written by the entries `done` and the next one, which may have stopped half-way. */
  lemma EntryBegun(f0: Tree, f: Tree, f': Tree, t: seq<Tree>, t': seq<Tree>, from: nat, src: Path, dest: Path,
                   n: string, begun: set<Path>, more: set<Path>, done: set<string>, fails: TreeFaults, pass: Pass)
    requires Begun(f0, f, t, from, begun) && begun == Landings(f0, ChosenIn(f0, src, done, fails, pass), src, dest)
    requires t <= t' && from <= |t| && Begun(f, f', t', |t|, more)
    requires more <= Landings(f, Chosen(f0, src + [n], |src|, fails, pass), src + [n], dest + [n])
    ensures Begun(f0, f', t', from, begun + more)
    ensures begun + more <= Landings(f0, ChosenIn(f0, src, done + {n}, fails, pass), src, dest)
    ensures more == Landings(f, Chosen(f0, src + [n], |src|, fails, pass), src + [n], dest + [n]) ==>
              begun + more == Landings(f0, ChosenIn(f0, src, done + {n}, fails, pass), src, dest)
  {
    var ps, qs := ChosenIn(f0, src, done, fails, pass), Chosen(f0, src + [n], |src|, fails, pass);
    BegunMore(f0, f, f', t, t', from, begun, more);
    ChosenMore(f0, src, n, done, fails, pass);
    LandingsOfEntry(f0, f, qs, src, dest, n);
    LandingsOfSum(f0, ps, qs, src, dest);
  }

  lemma EntryFilled(f0: Tree, f: Tree, f': Tree, src: Path, dest: Path, n: string, done: set<string>,
                    fails: TreeFaults, pass: Pass)
    requires Filled(f0, f, ChosenIn(f0, src, done, fails, pass), src, dest) && SameLinks(f0, f)
    requires Within(f0, f, Landings(f0, ChosenIn(f0, src, done, fails, pass), src, dest)) && Untangled(f0, src, dest)
    requires Filled(f, f', Chosen(f0, src + [n], |src|, fails, pass), src + [n], dest + [n])
    requires Within(f, f', Landings(f, Chosen(f0, src + [n], |src|, fails, pass), src + [n], dest + [n]))
    ensures Filled(f0, f', ChosenIn(f0, src, done + {n}, fails, pass), src, dest)
  {
    var ps, qs := ChosenIn(f0, src, done, fails, pass), Chosen(f0, src + [n], |src|, fails, pass);
    ChosenMore(f0, src, n, done, fails, pass);
    LandingsOfEntry(f0, f, qs, src, dest, n);
    FilledMore(f0, f, f', ps, qs, src, dest, n);
  }

  lemma LandingsOfPart(files: Tree, ps: set<Path>, qs: set<Path>, src: Path, dest: Path)
    requires ps <= qs
    ensures Landings(files, ps, src, dest) <= Landings(files, qs, src, dest)
  {
  }

  lemma EntryUntangled(f0: Tree, f: Tree, src: Path, dest: Path, n: string)
    requires Untangled(f0, src, dest) && SameLinks(f0, f)
    ensures Untangled(f, src + [n], dest + [n])
  {
    forall x | dest + [n] <= x && Land(f, x).Some? ensures !(src + [n] <= Land(f, x).value) {
      WalkSame(f0, f, [], x);
      assert Land(f0, x) == Land(f, x);
      EntryPrefix(dest, n, x);
      EntryPrefix(src, n, Land(f, x).value);
    }
  }

  /** The next entry of a copy in progress is as in the beginning. */
  lemma EntryReady(f0: Tree, f: Tree, src: Path, dest: Path, n: string, ps: set<Path>, fails: TreeFaults, pass: Pass,
                   depth: nat)
    requires Untangled(f0, src, dest) && Shallow(f0, src, depth) && n in Names(f0, src)
    requires Within(f0, f, Landings(f0, ps, src, dest)) && SameLinks(f0, f) && forall p :: p in ps ==> IsRegular(f0, p)
    ensures Chosen(f, src + [n], |src|, fails, pass) == Chosen(f0, src + [n], |src|, fails, pass)
    ensures Exists(f, src + [n]) && depth > 0 && Shallow(f, src + [n], depth - 1)
    ensures Untangled(f, src + [n], dest + [n]) && (Fits(f0, src, dest) ==> Fits(f, src + [n], dest + [n]))
  {
    forall p | src <= p ensures Same(f0, f, p) {
      SourceStays(f0, f, ps, src, dest, p);
    }
    EntryIsShallow(f0, src, n, depth);
    EntryStays(f0, f, src, n, fails, pass);
    EntryUntangled(f0, f, src, dest, n);
    if Fits(f0, src, dest) {
      EntryFits(f0, f, ps, src, dest, n);
    }
  }

  /** The loop body. */
  method CopyNext(disk: TreeDisk, pass: Pass, src: Path, dest: Path, n: string, ghost f0: Tree, ghost from: nat,
                  ghost begun: set<Path>, ghost done: set<string>, ghost depth: nat)
    returns (ok: bool, ghost more: set<Path>)
    requires disk.Valid() && WellFormed(f0) && Untangled(f0, src, dest) && Shallow(f0, src, depth)
               && from <= |disk.trace|
    requires n in Names(f0, src) && n !in done && Copying(f0, from, disk, src, dest, pass, begun, done)
    modifies disk
    ensures disk.Valid() && old(disk.trace) <= disk.trace
    ensures Begun(f0, disk.files, disk.trace, from, more)
    ensures more <= Landings(f0, Chosen(f0, src, |src|, disk.fails, pass), src, dest)
    ensures ok ==> Copying(f0, from, disk, src, dest, pass, more, done + {n})
    ensures Smooth(disk.fails, pass) && Fits(f0, src, dest) ==> ok
    decreases depth, 0
  {
    ghost var f, t := disk.files, disk.trace;
    EntryReady(f0, f, src, dest, n, ChosenIn(f0, src, done, disk.fails, pass), disk.fails, pass, depth);
    ghost var b;
    ok, b := CopyEntry(disk, pass, src + [n], dest + [n], depth - 1);
    more := begun + b;
    EntryBegun(f0, f, disk.files, t, disk.trace, from, src, dest, n, begun, b, done, disk.fails, pass);
    LandingsOfPart(f0, ChosenIn(f0, src, done + {n}, disk.fails, pass), Chosen(f0, src, |src|, disk.fails, pass), src,
      dest);
    if ok {
      EntryFilled(f0, f, disk.files, src, dest, n, done, disk.fails, pass);
    }
  }

  /** `fs::copy` into a directory that is made if need be; it refuses a directory, which can come here unseen. */
  method CopyFile(disk: TreeDisk, pass: Pass, p: Path, to: Path) returns (ok: bool, ghost begun: set<Path>)
    requires disk.Valid() && p != [] && Exists(disk.files, p) && !disk.fails(LinkLookUp(pass), p)
    requires !IsLink(disk.files, p) && (!IsDir(disk.files, p) || disk.fails(DirLookUp(pass), p))
    modifies disk
    ensures disk.Valid() && old(disk.trace) <= disk.trace
    ensures Begun(old(disk.files), disk.files, disk.trace, |old(disk.trace)|, begun)
    ensures begun <= Landings(old(disk.files), Chosen(old(disk.files), p, |p| - 1, disk.fails, pass), p, to)
    ensures ok ==>
              var f, ps := old(disk.files), Chosen(old(disk.files), p, |p| - 1, disk.fails, pass);
              begun == Landings(f, ps, p, to) && Filled(f, disk.files, ps, p, to)
    ensures Smooth(disk.fails, pass) && Fits(old(disk.files), p, to) ==> ok
  {
    begun := {};
    if !IsDir(disk.files, p) {
      IsFile(disk.files, p);
    }
    if disk.fails(MakeFileParent(pass), to) || disk.fails(ReadFile(pass), p) || p !in disk.files {
      return false, begun;
    }
    OneChosen(disk.files, p, disk.fails, pass);
    RebaseSelf(p, to);
    ghost var f := disk.files;
    ok, begun := disk.Write(pass, to, disk.files[p].bytes);
    if begun != {} {
      FileCopied(f, f[Land(f, to).value := f[p]], p, to);
    }
  }

  /** One entry: links, and what cannot be looked up, are passed over. */
  method CopyEntry(disk: TreeDisk, pass: Pass, p: Path, to: Path, ghost depth: nat)
    returns (ok: bool, ghost begun: set<Path>)
    requires disk.Valid() && p != [] && Untangled(disk.files, p, to)
    requires Shallow(disk.files, p, depth) && Exists(disk.files, p)
    modifies disk
    ensures disk.Valid() && old(disk.trace) <= disk.trace
    ensures Begun(old(disk.files), disk.files, disk.trace, |old(disk.trace)|, begun)
    ensures begun <= Landings(old(disk.files), Chosen(old(disk.files), p, |p| - 1, disk.fails, pass), p, to)
    ensures ok ==>
              var f, ps := old(disk.files), Chosen(old(disk.files), p, |p| - 1, disk.fails, pass);
              begun == Landings(f, ps, p, to) && Filled(f, disk.files, ps, p, to)
    ensures Smooth(disk.fails, pass) && Fits(old(disk.files), p, to) ==> ok
    decreases depth, 2
  {
    begun := {};
    var link := disk.LookUpLink(LinkLookUp(pass), p);
    if link {
      NothingChosen(disk.files, p, disk.fails, pass);
      return true, begun;
    }
    SeenIsFree(disk.files, p);
    var dir := disk.LookUpDir(DirLookUp(pass), p);
    ChosenBelow(disk.files, p, disk.fails, pass);
    if dir {
      ok, begun := CopyDir(disk, pass, p, to, depth);
    } else {
      ok, begun := CopyFile(disk, pass, p, to);
    }
  }

  /**
   * `copy_dir_recursive`. What it writes through the links below dest may be anywhere but in src: otherwise
   * it may not even end.
   */
  method CopyDir(disk: TreeDisk, pass: Pass, src: Path, dest: Path, ghost depth: nat)
    returns (ok: bool, ghost begun: set<Path>)
    requires disk.Valid() && Untangled(disk.files, src, dest) && Shallow(disk.files, src, depth)
    modifies disk
    ensures disk.Valid() && old(disk.trace) <= disk.trace
    ensures Begun(old(disk.files), disk.files, disk.trace, |old(disk.trace)|, begun)
    ensures begun <= Landings(old(disk.files), Chosen(old(disk.files), src, |src|, disk.fails, pass), src, dest)
    ensures ok ==>
              var f, ps := old(disk.files), Chosen(old(disk.files), src, |src|, disk.fails, pass);
              begun == Landings(f, ps, src, dest) && Filled(f, disk.files, ps, src, dest)
    ensures var f := old(disk.files);
            Smooth(disk.fails, pass) && Fits(f, src, dest) && Exists(f, src) && src !in f ==> ok
    decreases depth, 1
  {
    begun := {};
    var made := disk.MakeDir(MakeDir(pass), dest);
    if Fits(disk.files, src, dest) && Exists(disk.files, src) && src !in disk.files {
      DirFits(disk.files, src, dest);
    }
    if !made {
      return false, begun;
    }
    var listed, names := disk.ListDir(ListDir(pass), src);
    if !listed {
      return false, begun;
    }
    ghost var f0, from := disk.files, |disk.trace|;
    ghost var done: set<string> := {};
    while names != {}
      invariant disk.Valid() && old(disk.trace) <= disk.trace
      invariant forall n :: n in Names(f0, src) <==> n in names || n in done
      invariant forall n :: n in names ==> n !in done
      invariant Copying(f0, from, disk, src, dest, pass, begun, done)
      decreases |names|
    {
      var n :| n in names;
      names := names - {n};
      ok, begun := CopyNext(disk, pass, src, dest, n, f0, from, begun, done, depth);
      if !ok {
        return false, begun;
      }
      done := done + {n};
    }
    ChosenAll(f0, src, done, disk.fails, pass);
    ok := true;
  }

  /** Below a straight directory every file lands at its place. */
  lemma StraightLandings(files: Tree, ps: set<Path>, src: Path, dest: Path)
    requires Straight(files, dest)
    ensures Landings(files, ps, src, dest) == Image(ps, src, dest)
  {
    forall p | src <= p ensures Land(files, dest + p[|src|..]) == Some(dest + p[|src|..]) {
      LandBelow(files, dest, dest + p[|src|..]);
    }
    forall q | q in Image(ps, src, dest) ensures q in Landings(files, ps, src, dest) {
      var p :| p in ps && src <= p && q == dest + p[|src|..];
      assert Land(files, dest + p[|src|..]) == Some(q);
    }
  }

  lemma StraightPlaced(f0: Tree, f: Tree, ps: set<Path>, src: Path, dest: Path)
    requires Straight(f0, dest) && Filled(f0, f, ps, src, dest) && Within(f0, f, Landings(f0, ps, src, dest))
    ensures Placed(f0, f, ps, src, dest)
  {
    StraightLandings(f0, ps, src, dest);
    forall p | p in ps ensures Arrived(f0, f, p, src, dest) {
      LandBelow(f0, dest, Rebase(p, src, dest));
      assert Full(f0, f, ps, src, dest, Rebase(p, src, dest));
      var p' :| Holds(f0, f, ps, p', src, dest, Rebase(p, src, dest));
      LandBelow(f0, dest, Rebase(p', src, dest));
      RebaseInjective(p, p', src, dest);
    }
  }

  /** Below a straight directory it is enough that no file is in the way of another. */
  lemma StraightFits(files: Tree, src: Path, dest: Path)
    requires Straight(files, dest) && WellFormed(files) && src != [] && dest != []
    requires forall p, q :: p in files && src <= p && q in files ==>
               !Below(q, Rebase(p, src, dest)) && !Below(Rebase(p, src, dest), q)
    ensures Fits(files, src, dest)
  {
    forall p | src <= p ensures Landing(files, p, src, dest) == Some(Rebase(p, src, dest)) {
      LandBelow(files, dest, Rebase(p, src, dest));
    }
    forall p, p', r, r' | Meets(files, p, p', src, dest, r, r') ensures !Below(r, r') {
      if Below(r, r') {
        if Below(Rebase(p, src, dest), Rebase(p', src, dest)) {
          RebaseBelow(p, p', src, dest);
        } else {
          RebaseBelow(p', p, src, dest);
        }
      }
    }
  }

  // ---------------------------------------------------------------------------------------------
  // Counting.

  ghost function Pick(ps: set<Path>): (p: Path)
    requires ps != {}
    ensures p in ps
  {
    var p :| p in ps;
    p
  }

  ghost function TotalBytes(files: Tree, ps: set<Path>): nat
    requires forall p :: p in ps ==> IsRegular(files, p)
  {
    if ps == {} then 0 else
      var p := Pick(ps);
      assert IsRegular(files, p);
      |files[p].bytes| + TotalBytes(files, ps - {p})
  }

  /** The total does not depend on the order in which the files are met. */
  lemma {:induction false} TotalOfOneMore(files: Tree, ps: set<Path>, p: Path)
    requires p !in ps && forall q :: q in ps + {p} ==> IsRegular(files, q)
    ensures TotalBytes(files, ps + {p}) == TotalBytes(files, ps) + |files[p].bytes|
    decreases |ps|
  {
    var all := ps + {p};
    var q := Pick(all);
    if q == p {
      assert all - {p} == ps;
    } else {
      TotalOfOneMore(files, ps - {q}, p);
      assert all - {q} == (ps - {q}) + {p};
      assert (ps - {q}) + {q} == ps;
      TotalOfOneMore(files, ps - {q}, q);
    }
  }

  /** On the way to p no link look-up failed, and no directory was taken for a file. */
  ghost predicate Reached(fails: TreeFaults, w: Count, low: nat, p: Path) {
    && !Skips(fails, CountLinkLookUp(w), low, p)
    && (p != [] ==> !Skips(fails, CountDirLookUp(w), low, p[..|p| - 1]))
  }

  /** The regular files that a count meets. */
  ghost function Counted(files: Tree, dir: Path, low: nat, fails: TreeFaults, w: Count): set<Path> {
    set p | p in files && dir <= p && files[p].Regular? && Reached(fails, w, low, p)
  }

  ghost function CountedIn(files: Tree, dir: Path, done: set<string>, fails: TreeFaults, w: Count): set<Path> {
    set p | p in Counted(files, dir, |dir|, fails, w) && |dir| < |p| && p[|dir|] in done
  }

  lemma CountedMore(files: Tree, dir: Path, n: string, done: set<string>, fails: TreeFaults, w: Count)
    requires n !in done
    ensures CountedIn(files, dir, done + {n}, fails, w)
      == CountedIn(files, dir, done, fails, w) + Counted(files, dir + [n], |dir|, fails, w)
    ensures CountedIn(files, dir, done, fails, w) !! Counted(files, dir + [n], |dir|, fails, w)
  {
    forall p ensures dir + [n] <= p <==> dir <= p && |dir| < |p| && p[|dir|] == n {
      EntryPrefix(dir, n, p);
    }
  }

  lemma CountedAll(files: Tree, dir: Path, done: set<string>, fails: TreeFaults, w: Count)
    requires dir !in files && forall n :: n in Names(files, dir) ==> n in done
    ensures CountedIn(files, dir, done, fails, w) == Counted(files, dir, |dir|, fails, w)
  {
    forall p | p in Counted(files, dir, |dir|, fails, w) ensures p in CountedIn(files, dir, done, fails, w) {
      assert p != dir && dir < p;
      assert p[|dir|] in Names(files, dir);
    }
  }

  lemma ReachedBelow(fails: TreeFaults, w: Count, p: Path, q: Path)
    requires p != [] && p < q
    ensures Reached(fails, w, |p| - 1, q) <==>
              !fails(CountLinkLookUp(w), p) && !fails(CountDirLookUp(w), p) && Reached(fails, w, |p|, q)
  {
    SkipsOneLess(fails, CountLinkLookUp(w), |p| - 1, q);
    SkipsOneLess(fails, CountDirLookUp(w), |p| - 1, q[..|q| - 1]);
    assert q[..|p|] == p && q[..|q| - 1][..|p|] == p;
  }

  /** A directory that is seen to be one passes on what lies below it. */
  lemma CountedBelow(files: Tree, p: Path, fails: TreeFaults, w: Count)
    requires p != [] && p !in files && !fails(CountLinkLookUp(w), p)
    ensures Counted(files, p, |p| - 1, fails, w) == if fails(CountDirLookUp(w), p) then {}
              else Counted(files, p, |p|, fails, w)
  {
    forall q | q in files && p <= q
      ensures Reached(fails, w, |p| - 1, q) <==> !fails(CountDirLookUp(w), p) && Reached(fails, w, |p|, q)
    {
      assert p != q;
      ReachedBelow(fails, w, p, q);
    }
  }

  lemma CountedAt(files: Tree, p: Path, fails: TreeFaults, w: Count)
    requires p != [] && WellFormed(files)
    ensures fails(CountLinkLookUp(w), p) ==> Counted(files, p, |p| - 1, fails, w) == {}
    ensures p in files && !fails(CountLinkLookUp(w), p) ==>
              Counted(files, p, |p| - 1, fails, w) == if files[p].Regular? then {p} else {}
  {
    if fails(CountLinkLookUp(w), p) {
      forall q | q in files && p <= q ensures Skips(fails, CountLinkLookUp(w), |p| - 1, q) {
        assert q[..|p|] == p;
      }
    } else if p in files {
      forall q | q in files && p <= q ensures q == p {
        assert q == p || Below(p, q);
      }
      assert p[..|p|] == p;
      assert !Skips(fails, CountLinkLookUp(w), |p| - 1, p);
    }
  }

  /** The tally of the files met, with `extra` directories taken for files, whose lengths are anything. */
  ghost predicate Tally(files: Tree, counted: set<Path>, extra: nat, count: nat, bytes: nat) {
    && (forall p :: p in counted ==> IsRegular(files, p))
    && count == |counted| + extra
    && (extra == 0 ==> bytes == TotalBytes(files, counted))
  }

  /** The look-up of some directory below dir fails in this count. */
  ghost predicate Blurred(files: Tree, dir: Path, fails: TreeFaults, w: Count) {
    exists d :: dir <= d && IsDir(files, d) && fails(CountDirLookUp(w), d)
  }

  ghost predicate SmoothCount(fails: TreeFaults, w: Count) {
    forall p :: !fails(CountListDir(w), p) && !fails(ReadLength(w), p)
  }

  lemma EntryBlurred(files: Tree, dir: Path, n: string, fails: TreeFaults, w: Count)
    requires Blurred(files, dir + [n], fails, w)
    ensures Blurred(files, dir, fails, w)
  {
    var d :| dir + [n] <= d && IsDir(files, d) && fails(CountDirLookUp(w), d);
    EntryPrefix(dir, n, d);
  }

  lemma TallyFile(files: Tree, counted: set<Path>, extra: nat, count: nat, bytes: nat, p: Path)
    requires Tally(files, counted, extra, count, bytes) && p !in counted && IsRegular(files, p)
    ensures Tally(files, counted + {p}, extra, count + 1, bytes + |files[p].bytes|)
  {
    TotalOfOneMore(files, counted, p);
  }

  /** The length of an entry; of a directory, any. */
  method Length(disk: TreeDisk, w: Count, p: Path) returns (length: Option<nat>)
    ensures length.None? <==> disk.fails(ReadLength(w), p)
    ensures length.Some? && IsRegular(disk.files, p) ==> length.value == |disk.files[p].bytes|
  {
    if disk.fails(ReadLength(w), p) {
      return None;
    }
    var any: nat :| any >= 0;
    length := Some(if IsRegular(disk.files, p) then |disk.files[p].bytes| else any);
  }

  /** What is counted as one file: a file, or a directory that is not seen to be one. */
  method CountLeaf(disk: TreeDisk, w: Count, p: Path, count: nat, bytes: nat, ghost before: set<Path>, ghost extra: nat)
    returns (ok: bool, count': nat, bytes': nat, ghost extra': nat)
    requires Tally(disk.files, before, extra, count, bytes) && p !in before
               && (p in disk.files ==> disk.files[p].Regular?)
    ensures ok <==> !disk.fails(ReadLength(w), p)
    ensures extra' == if p in disk.files then extra else extra + 1
    ensures ok ==> Tally(disk.files, before + if p in disk.files then {p} else {}, extra', count', bytes')
  {
    count', bytes', extra' := count, bytes, if p in disk.files then extra else extra + 1;
    var length := Length(disk, w, p);
    if length.None? {
      return false, count', bytes', extra';
    }
    ok, count', bytes' := true, count + 1, bytes + length.value;
    if p in disk.files {
      TallyFile(disk.files, before, extra, count, bytes, p);
    } else {
      assert before + {} == before;
    }
  }

  lemma DirIsNoFile(files: Tree, p: Path)
    requires WellFormed(files) && IsDir(files, p)
    ensures p !in files
  {
    var q :| q in files && Below(p, q);
  }

  /** One entry. */
  method CountEntry(disk: TreeDisk, w: Count, p: Path, count: nat, bytes: nat, ghost before: set<Path>,
                    ghost extra: nat,
                    ghost depth: nat)
    returns (ok: bool, count': nat, bytes': nat, ghost extra': nat)
    requires WellFormed(disk.files) && p != [] && Shallow(disk.files, p, depth) && Exists(disk.files, p)
    requires Tally(disk.files, before, extra, count, bytes) && before !! Counted(disk.files, p, |p| - 1, disk.fails, w)
    ensures ok ==> Tally(disk.files, before + Counted(disk.files, p, |p| - 1, disk.fails, w), extra', count', bytes')
    ensures extra' >= extra && (extra' > extra ==> Blurred(disk.files, p, disk.fails, w))
    ensures SmoothCount(disk.fails, w) ==> ok
    decreases depth, 2
  {
    ok, count', bytes', extra' := true, count, bytes, extra;
    var link := disk.LookUpLink(CountLinkLookUp(w), p);
    CountedAt(disk.files, p, disk.fails, w);
    if link {
      assert before + {} == before;
      return;
    }
    SeenIsFree(disk.files, p);
    var dir := disk.LookUpDir(CountDirLookUp(w), p);
    if IsDir(disk.files, p) {
      DirIsNoFile(disk.files, p);
      CountedBelow(disk.files, p, disk.fails, w);
    } else {
      IsFile(disk.files, p);
    }
    if dir {
      ok, count', bytes', extra' := CountDir(disk, w, p, count, bytes, before, extra, depth);
    } else {
      ok, count', bytes', extra' := CountLeaf(disk, w, p, count, bytes, before, extra);
    }
  }

  lemma CountedNone(files: Tree, dir: Path, fails: TreeFaults, w: Count)
    ensures CountedIn(files, dir, {}, fails, w) == {}
  {
  }

  /** A walk of dir in progress: the entries `done` have been counted. */
  ghost predicate Counting(disk: TreeDisk, w: Count, dir: Path, count: nat, bytes: nat, before: set<Path>, extra: nat,
                           now: nat,
                           done: set<string>)
    reads disk
  {
    && Tally(disk.files, before + CountedIn(disk.files, dir, done, disk.fails, w), now, count, bytes)
    && now >= extra && (now > extra ==> Blurred(disk.files, dir, disk.fails, w))
  }

  /** The recursive walk of `dir_stats`, whose counters are handed through. */
  method CountDir(disk: TreeDisk, w: Count, dir: Path, count: nat, bytes: nat, ghost before: set<Path>,
                  ghost extra: nat,
                  ghost depth: nat)
    returns (ok: bool, count': nat, bytes': nat, ghost extra': nat)
    requires WellFormed(disk.files) && Shallow(disk.files, dir, depth)
    requires Tally(disk.files, before, extra, count, bytes) && before !! Counted(disk.files, dir, |dir|, disk.fails, w)
    ensures ok ==> Tally(disk.files, before + Counted(disk.files, dir, |dir|, disk.fails, w), extra', count', bytes')
    ensures extra' >= extra && (extra' > extra ==> Blurred(disk.files, dir, disk.fails, w))
    ensures SmoothCount(disk.fails, w) && dir !in disk.files ==> ok
    decreases depth, 1
  {
    count', bytes', extra' := count, bytes, extra;
    var listed, names := disk.ListDir(CountListDir(w), dir);
    if !listed {
      return false, count', bytes', extra';
    }
    ghost var done: set<string> := {};
    CountedNone(disk.files, dir, disk.fails, w);
    assert before + {} == before;
    while names != {}
      invariant forall n :: n in Names(disk.files, dir) <==> n in names || n in done
      invariant forall n :: n in names ==> n !in done
      invariant Counting(disk, w, dir, count', bytes', before, extra, extra', done)
      decreases |names|
    {
      var n :| n in names;
      names := names - {n};
      ok, count', bytes', extra' := CountNext(disk, w, dir, n, count', bytes', before, extra, extra', done, depth);
      if !ok {
        return false, count', bytes', extra';
      }
      done := done + {n};
    }
    CountedAll(disk.files, dir, done, disk.fails, w);
    ok := true;
  }

  lemma EntryUncounted(files: Tree, dir: Path, n: string, before: set<Path>, done: set<string>, fails: TreeFaults,
                       w: Count)
    requires before !! Counted(files, dir, |dir|, fails, w) && n !in done
    ensures before + CountedIn(files, dir, done, fails, w) !! Counted(files, dir + [n], |dir|, fails, w)
    ensures before + CountedIn(files, dir, done + {n}, fails, w)
      == before + CountedIn(files, dir, done, fails, w) + Counted(files, dir + [n], |dir|, fails, w)
  {
    CountedMore(files, dir, n, done, fails, w);
    forall p | p in Counted(files, dir + [n], |dir|, fails, w) ensures p in Counted(files, dir, |dir|, fails, w) {
      EntryPrefix(dir, n, p);
    }
  }

  /** The loop body. */
  method CountNext(disk: TreeDisk, w: Count, dir: Path, n: string, count: nat, bytes: nat, ghost before: set<Path>,
                   ghost extra: nat, ghost now: nat, ghost done: set<string>, ghost depth: nat)
    returns (ok: bool, count': nat, bytes': nat, ghost extra': nat)
    requires WellFormed(disk.files) && Shallow(disk.files, dir, depth) && n in Names(disk.files, dir) && n !in done
    requires before !! Counted(disk.files, dir, |dir|, disk.fails, w)
    requires Counting(disk, w, dir, count, bytes, before, extra, now, done)
    ensures ok ==> Counting(disk, w, dir, count', bytes', before, extra, extra', done + {n})
    ensures extra' >= extra && (extra' > extra ==> Blurred(disk.files, dir, disk.fails, w))
    ensures SmoothCount(disk.fails, w) ==> ok
    decreases depth, 0
  {
    ghost var c := before + CountedIn(disk.files, dir, done, disk.fails, w);
    EntryIsShallow(disk.files, dir, n, depth);
    EntryUncounted(disk.files, dir, n, before, done, disk.fails, w);
    ok, count', bytes', extra' := CountEntry(disk, w, dir + [n], count, bytes, c, now, depth - 1);
    if extra' > now {
      EntryBlurred(disk.files, dir, n, disk.fails, w);
    }
  }

  ghost function MaxLength(files: Tree): (n: nat)
    ensures forall p :: p in files ==> |p| <= n
  {
    if files == map[] then 0 else
      var p :| p in files;
      var rest := MaxLength(files - {p});
      if |p| <= rest then rest else |p|
  }

  /** The count and the bytes of the files met; the failing look-ups say which those are. */
  method DirStats(disk: TreeDisk, w: Count, dir: Path) returns (stats: Option<(nat, nat)>, ghost extra: nat)
    requires WellFormed(disk.files)
    ensures stats.Some? ==> Tally(disk.files, Counted(disk.files, dir, |dir|, disk.fails, w), extra, stats.value.0,
              stats.value.1)
    ensures extra > 0 ==> Blurred(disk.files, dir, disk.fails, w)
    ensures SmoothCount(disk.fails, w) && dir !in disk.files ==> stats.Some?
  {
    var ok, count, bytes;
    ok, count, bytes, extra := CountDir(disk, w, dir, 0, 0, {}, 0, MaxLength(disk.files));
    assert {} + Counted(disk.files, dir, |dir|, disk.fails, w) == Counted(disk.files, dir, |dir|, disk.fails, w);
    stats := if ok then Some((count, bytes)) else None;
  }
}
