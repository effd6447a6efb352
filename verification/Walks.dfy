/** The budgeted directory walks of src/utils/filesys.rs. */
module Walks {
  import opened Wrappers
  import opened Text
  import opened Sorting
  import opened Trees
  import opened Bytes
  import Glob

  // ---------------------------------------------------------------------------------------------
  // walk_files: the run of a budget over a stream of events.

  datatype FileEntry = FileEntry(path: seq<string>, size: nat)

  /** The name filter: no pattern accepts every name; `lower` is the given case folding to bytes. */
  function NameFilter(pattern: Option<seq<byte>>, lower: string -> seq<byte>): string -> bool {
    name => pattern.None? || Glob.WildcardMatches(lower(name), pattern.value)
  }

  datatype Event = Enter | Scanned | Unreadable | Found(file: FileEntry)

  function DirEvents(path: seq<string>, d: Node, depth: nat, maxDepth: nat, accept: string -> bool): seq<Event>
    requires d.Dir?
    decreases d, |d.entries| + 1
  {
    if depth > maxDepth then [Enter]
    else if !d.readable then [Enter, Unreadable]
    else
      SortKeeps(d.entries, ByName);
      [Enter, Scanned] + ListEvents(path, d, Sorted(d.entries), depth, maxDepth, accept)
  }

  function ListEvents(path: seq<string>, d: Node, rest: seq<Entry>, depth: nat, maxDepth: nat,
      accept: string -> bool): seq<Event>
    requires d.Dir? && (forall e :: e in rest ==> e in d.entries) && |rest| <= |d.entries|
    decreases d, |rest|
  {
    if rest == [] then [] else
      EntryEvents(path, d, rest[0], depth, maxDepth, accept) + ListEvents(path, d, rest[1..], depth, maxDepth, accept)
  }

  function EntryEvents(path: seq<string>, d: Node, e: Entry, depth: nat, maxDepth: nat,
      accept: string -> bool): seq<Event>
    requires d.Dir? && e in d.entries
    decreases d, 0
  {
    match e.node
    case Dir(_, _) => DirEvents(path + [e.name], e.node, depth + 1, maxDepth, accept)
    case NoMeta => []
    case File(size) => if accept(e.name) then [Found(FileEntry(path + [e.name], size))] else []
    case Link(size) => if accept(e.name) then [Found(FileEntry(path + [e.name], size))] else []
  }

  datatype WalkState = WalkState(files: seq<FileEntry>, truncated: bool, scanned: nat, unreadable: nat)

  const FreshWalk := WalkState([], false, 0, 0)

  /** One event; the boolean says whether the walk goes on. */
  function Step(st: WalkState, ev: Event, maxFiles: nat): (WalkState, bool) {
    match ev
    case Enter => if |st.files| >= maxFiles then (st.(truncated := true), false) else (st, true)
    case Scanned => (st.(scanned := st.scanned + 1), true)
    case Unreadable => (st.(unreadable := st.unreadable + 1), true)
    case Found(f) =>
      if |st.files| + 1 >= maxFiles then (st.(files := st.files + [f], truncated := true), false)
      else (st.(files := st.files + [f]), true)
  }

  function Run(st: WalkState, evs: seq<Event>, maxFiles: nat): (WalkState, bool)
    decreases |evs|
  {
    if evs == [] then (st, true) else
      var (st', go) := Step(st, evs[0], maxFiles);
      if go then Run(st', evs[1..], maxFiles) else (st', false)
  }

  lemma {:induction false} RunThen(st: WalkState, a: seq<Event>, b: seq<Event>, maxFiles: nat)
    ensures var (st', go) := Run(st, a, maxFiles);
            Run(st, a + b, maxFiles) == if go then Run(st', b, maxFiles) else (st', false)
    decreases |a|
  {
    if a == [] {
      assert a + b == b;
    } else {
      assert (a + b)[1..] == a[1..] + b;
      RunThen(Step(st, a[0], maxFiles).0, a[1..], b, maxFiles);
    }
  }

  class WalkOutcome {
    var files: seq<FileEntry>
    var truncated: bool
    var scannedDirs: nat
    var unreadableDirs: nat

    constructor ()
      ensures State() == FreshWalk
    {
      files, truncated, scannedDirs, unreadableDirs := [], false, 0, 0;
    }

    ghost function State(): WalkState
      reads this
    {
      WalkState(files, truncated, scannedDirs, unreadableDirs)
    }
  }

  /** An entry that is no directory: pushed when its name is accepted. */
  method TakeFile(path: seq<string>, d: Node, e: Entry, depth: nat, maxDepth: nat, maxFiles: nat,
                  accept: string -> bool,
      out: WalkOutcome)
    returns (go: bool)
    requires d.Dir? && e in d.entries && !e.node.Dir?
    modifies out
    ensures (out.State(), go) == Run(old(out.State()), EntryEvents(path, d, e, depth, maxDepth, accept), maxFiles)
  {
    if e.node.NoMeta? || !accept(e.name) {
      return true;
    }
    var file := FileEntry(path + [e.name], e.node.size);
    assert [Found(file)][1..] == [];
    out.files := out.files + [file];
    if |out.files| >= maxFiles {
      out.truncated := true;
      return false;
    }
    return true;
  }

  /** The loop over the children that are left. */
  method WalkChildren(path: seq<string>, d: Node, children: seq<Entry>, depth: nat, maxDepth: nat, maxFiles: nat,
                      accept: string -> bool, out: WalkOutcome)
    returns (go: bool)
    requires d.Dir? && |children| <= |d.entries| && forall e :: e in children ==> e in d.entries
    modifies out
    ensures (out.State(), go) == Run(old(out.State()), ListEvents(path, d, children, depth, maxDepth, accept), maxFiles)
    decreases d, 0
  {
    ghost var goal := Run(out.State(), ListEvents(path, d, children, depth, maxDepth, accept), maxFiles);
    assert children[0..] == children;
    var i := 0;
    while i < |children|
      invariant i <= |children|
      invariant goal == Run(out.State(), ListEvents(path, d, children[i..], depth, maxDepth, accept), maxFiles)
    {
      var e := children[i];
      assert children[i..][1..] == children[i + 1..];
      assert e in children;
      RunThen(out.State(), EntryEvents(path, d, e, depth, maxDepth, accept),
              ListEvents(path, d, children[i + 1..], depth, maxDepth, accept), maxFiles);
      i := i + 1;
      if e.node.Dir? {
        var more := WalkDir(path + [e.name], e.node, depth + 1, maxDepth, maxFiles, accept, out);
        if !more {
          return false;
        }
      } else {
        var more := TakeFile(path, d, e, depth, maxDepth, maxFiles, accept, out);
        if !more {
          return false;
        }
      }
    }
    return true;
  }

  method WalkDir(path: seq<string>, d: Node, depth: nat, maxDepth: nat, maxFiles: nat, accept: string -> bool,
      out: WalkOutcome)
    returns (go: bool)
    requires d.Dir?
    modifies out
    ensures (out.State(), go) == Run(old(out.State()), DirEvents(path, d, depth, maxDepth, accept), maxFiles)
    decreases d, 1
  {
    if |out.files| >= maxFiles {
      out.truncated := true;
      return false;
    }
    if depth > maxDepth {
      return true;
    }
    if !d.readable {
      assert [Enter, Unreadable][1..] == [Unreadable] && [Unreadable][1..] == [];
      out.unreadableDirs := out.unreadableDirs + 1;
      return true;
    }
    out.scannedDirs := out.scannedDirs + 1;
    SortKeeps(d.entries, ByName);
    var children := Sorted(d.entries);
    RunThen(old(out.State()), [Enter, Scanned], ListEvents(path, d, children, depth, maxDepth, accept), maxFiles);
    go := WalkChildren(path, d, children, depth, maxDepth, maxFiles, accept, out);
  }

  function Founds(evs: seq<Event>): seq<FileEntry> {
    if evs == [] then [] else (if evs[0].Found? then [evs[0].file] else []) + Founds(evs[1..])
  }

  /** The matching files of the whole tree, in walk order. */
  function Listing(root: Node, maxDepth: nat, accept: string -> bool): seq<FileEntry>
    requires root.Dir?
  {
    Founds(DirEvents([], root, 0, maxDepth, accept))
  }

  function Take<T>(xs: seq<T>, n: nat): seq<T> { if n < |xs| then xs[..n] else xs }

  /** What one event does to the list: only a found file adds to it, and only that can fill it. */
  lemma StepCollects(st: WalkState, ev: Event, maxFiles: nat)
    requires |st.files| < maxFiles && !st.truncated
    ensures var (st', go) := Step(st, ev, maxFiles);
            && st'.files == st.files + Founds([ev])
            && (go <==> |st'.files| < maxFiles) && (st'.truncated <==> !go)
  {
    assert [ev][1..] == [];
  }

  lemma {:induction false} FoundsThen(a: seq<Event>, b: seq<Event>)
    ensures Founds(a + b) == Founds(a) + Founds(b)
    decreases |a|
  {
    if a == [] {
      assert a + b == b;
    } else {
      assert (a + b)[1..] == a[1..] + b;
      FoundsThen(a[1..], b);
      var first := if a[0].Found? then [a[0].file] else [];
      assert first + (Founds(a[1..]) + Founds(b)) == first + Founds(a[1..]) + Founds(b);
    }
  }

  lemma {:induction false} RunCollects(st: WalkState, evs: seq<Event>, maxFiles: nat)
    requires |st.files| < maxFiles && !st.truncated
    ensures Run(st, evs, maxFiles).0.files == Take(st.files + Founds(evs), maxFiles)
    ensures Run(st, evs, maxFiles).0.truncated <==> |st.files + Founds(evs)| >= maxFiles
    decreases |evs|
  {
    if evs == [] {
      assert st.files + Founds(evs) == st.files;
    } else {
      var ev, rest := evs[0], evs[1..];
      assert evs == [ev] + rest;
      FoundsThen([ev], rest);
      StepCollects(st, ev, maxFiles);
      var st' := Step(st, ev, maxFiles).0;
      assert st.files + Founds(evs) == st'.files + Founds(rest);
      if |st'.files| < maxFiles {
        RunCollects(st', rest, maxFiles);
      }
    }
  }

  method WalkFiles(root: Node, maxDepth: nat, maxFiles: nat, accept: string -> bool) returns (out: WalkOutcome)
    requires root.Dir?
    ensures fresh(out)
    ensures out.files == Take(Listing(root, maxDepth, accept), maxFiles)
    ensures out.truncated <==> |Listing(root, maxDepth, accept)| >= maxFiles
    ensures out.State() == Run(FreshWalk, DirEvents([], root, 0, maxDepth, accept), maxFiles).0
  {
    out := new WalkOutcome();
    var _ := WalkDir([], root, 0, maxDepth, maxFiles, accept, out);
    if maxFiles > 0 {
      RunCollects(FreshWalk, DirEvents([], root, 0, maxDepth, accept), maxFiles);
      assert [] + Listing(root, maxDepth, accept) == Listing(root, maxDepth, accept);
    }
  }

  // ---------------------------------------------------------------------------------------------
  // What the listing is: all matching files within the depth, in path order.

  /** `node` stands at relative path `p` below `d`, through readable directories. */
  ghost predicate At(d: Node, p: seq<string>, node: Node)
    decreases d
  {
    if p == [] then d == node
    else d.Dir? && d.readable && exists e :: e in d.entries && e.name == p[0] && At(e.node, p[1..], node)
  }

  ghost predicate Wanted(d: Node, p: seq<string>, size: nat, accept: string -> bool) {
    p != [] && accept(p[|p| - 1]) && (At(d, p, File(size)) || At(d, p, Link(size)))
  }

  lemma {:induction false} ListFounds(path: seq<string>, d: Node, rest: seq<Entry>, depth: nat, maxDepth: nat,
      accept: string -> bool, f: FileEntry)
    requires d.Dir? && (forall e :: e in rest ==> e in d.entries) && |rest| <= |d.entries|
    ensures f in Founds(ListEvents(path, d, rest, depth, maxDepth, accept))
            <==> exists e :: e in rest && f in Founds(EntryEvents(path, d, e, depth, maxDepth, accept))
  {
    if rest != [] {
      ListFounds(path, d, rest[1..], depth, maxDepth, accept, f);
      FoundsThen(EntryEvents(path, d, rest[0], depth, maxDepth, accept),
        ListEvents(path, d, rest[1..], depth, maxDepth, accept));
      assert forall e :: e in rest <==> e == rest[0] || e in rest[1..];
    }
  }

  lemma DirFounds(path: seq<string>, d: Node, depth: nat, maxDepth: nat, accept: string -> bool)
    requires d.Dir?
    ensures Founds(DirEvents(path, d, depth, maxDepth, accept)) ==
            if depth <= maxDepth && d.readable
            then (SortKeeps(d.entries, ByName); Founds(ListEvents(path, d, Sorted(d.entries), depth, maxDepth, accept)))
            else []
  {
    assert forall a: Event, b: Event :: [a, b] == [a] + [b];
    FoundsThen([Enter], [Unreadable]);
    FoundsThen([Enter], [Scanned]);
    if depth <= maxDepth && d.readable {
      SortKeeps(d.entries, ByName);
      var list := ListEvents(path, d, Sorted(d.entries), depth, maxDepth, accept);
      FoundsThen([Enter, Scanned], list);
    }
  }

  /** The listing holds exactly the wanted files no deeper than the limit. */
  lemma {:induction false} ListingExact(path: seq<string>, d: Node, depth: nat, maxDepth: nat,
      accept: string -> bool, p: seq<string>, size: nat)
    requires d.Dir?
    ensures FileEntry(path + p, size) in Founds(DirEvents(path, d, depth, maxDepth, accept))
            <==> depth + |p| <= maxDepth + 1 && Wanted(d, p, size, accept)
    decreases d
  {
    DirFounds(path, d, depth, maxDepth, accept);
    SortKeeps(d.entries, ByName);
    var f := FileEntry(path + p, size);
    if depth <= maxDepth && d.readable {
      ListFounds(path, d, Sorted(d.entries), depth, maxDepth, accept, f);
      forall e | e in d.entries
        ensures f in Founds(EntryEvents(path, d, e, depth, maxDepth, accept))
                <==> p != [] && e.name == p[0] && depth + |p| <= maxDepth + 1 && accept(p[|p| - 1])
                     && (At(e.node, p[1..], File(size)) || At(e.node, p[1..], Link(size)))
      {
        EntryExact(path, d, e, depth, maxDepth, accept, p, size);
      }
    }
  }

  lemma PrefixHead(path: seq<string>, name: string, p: seq<string>)
    ensures path + [name] <= path + p ==> p != [] && p[0] == name
  {
    if path + [name] <= path + p { assert (path + p)[|path|] == name; }
  }

  lemma {:induction false} EntryPrefix(path: seq<string>, d: Node, e: Entry, depth: nat, maxDepth: nat,
      accept: string -> bool, f: FileEntry)
    requires d.Dir? && e in d.entries
    ensures f in Founds(EntryEvents(path, d, e, depth, maxDepth, accept)) ==> path + [e.name] <= f.path
    decreases d, 0
  {
    if e.node.Dir? {
      DirPrefix(path + [e.name], e.node, depth + 1, maxDepth, accept, f);
    } else {
      var evs := EntryEvents(path, d, e, depth, maxDepth, accept);
      if evs != [] {
        assert evs[1..] == [] && Founds(evs) == [evs[0].file] + Founds(evs[1..]);
      }
    }
  }

  lemma {:induction false} EntryExact(path: seq<string>, d: Node, e: Entry, depth: nat, maxDepth: nat,
      accept: string -> bool, p: seq<string>, size: nat)
    requires d.Dir? && e in d.entries && depth <= maxDepth
    ensures FileEntry(path + p, size) in Founds(EntryEvents(path, d, e, depth, maxDepth, accept))
            <==> p != [] && e.name == p[0] && depth + |p| <= maxDepth + 1 && accept(p[|p| - 1])
                 && (At(e.node, p[1..], File(size)) || At(e.node, p[1..], Link(size)))
    decreases d, 0
  {
    var f := FileEntry(path + p, size);
    if p == [] || p[0] != e.name {
      EntryPrefix(path, d, e, depth, maxDepth, accept, f);
      PrefixHead(path, e.name, p);
    } else if e.node.Dir? {
      assert path + p == path + [e.name] + p[1..];
      ListingExact(path + [e.name], e.node, depth + 1, maxDepth, accept, p[1..], size);
      if |p| > 1 { assert p[1..][|p| - 2] == p[|p| - 1]; }
    } else {
      assert path + p == path + [e.name] <==> p == [e.name] by {
        if path + p == path + [e.name] { assert p == (path + p)[|path|..]; }
      }
    }
  }

  lemma {:induction false} DirPrefix(path: seq<string>, d: Node, depth: nat, maxDepth: nat,
      accept: string -> bool, f: FileEntry)
    requires d.Dir?
    ensures f in Founds(DirEvents(path, d, depth, maxDepth, accept)) ==> path < f.path
    decreases d
  {
    DirFounds(path, d, depth, maxDepth, accept);
    SortKeeps(d.entries, ByName);
    ListFounds(path, d, Sorted(d.entries), depth, maxDepth, accept, f);
    forall e | e in d.entries ensures f in Founds(EntryEvents(path, d, e, depth, maxDepth, accept)) ==> path < f.path {
      EntryPrefix(path, d, e, depth, maxDepth, accept, f);
    }
  }

  // ---------------------------------------------------------------------------------------------
  // Its order.

  /** Component-wise path order. */
  predicate PathLess(a: seq<string>, b: seq<string>) {
    b != [] && (a == [] || Less(a[0], b[0]) || (a[0] == b[0] && PathLess(a[1..], b[1..])))
  }

  ghost predicate UniqueNames(d: Node)
    decreases d
  {
    d.Dir? ==>
      && (forall i, j :: 0 <= i < j < |d.entries| ==> d.entries[i].name != d.entries[j].name)
      && (forall e :: e in d.entries ==> UniqueNames(e.node))
  }

  ghost predicate Increasing(fs: seq<FileEntry>) {
    forall i, j :: 0 <= i < j < |fs| ==> PathLess(fs[i].path, fs[j].path)
  }

  lemma {:induction false} PathLessUnder(path: seq<string>, a: seq<string>, b: seq<string>)
    requires PathLess(a, b)
    ensures PathLess(path + a, path + b)
  {
    if path == [] {
      assert path + a == a && path + b == b;
    } else {
      assert (path + a)[1..] == path[1..] + a && (path + b)[1..] == path[1..] + b;
      PathLessUnder(path[1..], a, b);
    }
  }

  lemma IncreasingSum(a: seq<FileEntry>, b: seq<FileEntry>)
    requires Increasing(a) && Increasing(b) && forall f, g :: f in a && g in b ==> PathLess(f.path, g.path)
    ensures Increasing(a + b)
  {
  }

  lemma BelowSiblings(path: seq<string>, name: string, name': string, p: seq<string>, p': seq<string>)
    requires path + [name] <= p && path + [name'] <= p' && Less(name, name')
    ensures PathLess(p, p')
  {
    var n := |path|;
    assert p[n] == (path + [name])[n] == name && p'[n] == (path + [name'])[n] == name';
    assert p == path + p[n..] && p' == path + p'[n..];
    PathLessUnder(path, p[n..], p'[n..]);
  }

  /** What is below the smaller of two names comes first. */
  lemma SiblingsInOrder(path: seq<string>, d: Node, e: Entry, e': Entry, depth: nat, maxDepth: nat,
                        accept: string -> bool,
      f: FileEntry, g: FileEntry)
    requires d.Dir? && e in d.entries && e' in d.entries && Less(e.name, e'.name)
    requires f in Founds(EntryEvents(path, d, e, depth, maxDepth, accept))
    requires g in Founds(EntryEvents(path, d, e', depth, maxDepth, accept))
    ensures PathLess(f.path, g.path)
  {
    EntryPrefix(path, d, e, depth, maxDepth, accept, f);
    EntryPrefix(path, d, e', depth, maxDepth, accept, g);
    BelowSiblings(path, e.name, e'.name, f.path, g.path);
  }

  lemma {:induction false} ListIncreases(path: seq<string>, d: Node, rest: seq<Entry>, depth: nat,
      maxDepth: nat, accept: string -> bool)
    requires d.Dir? && (forall e :: e in rest ==> e in d.entries) && |rest| <= |d.entries|
    requires forall e :: e in d.entries ==> UniqueNames(e.node)
    requires forall i, j :: 0 <= i < j < |rest| ==> Less(rest[i].name, rest[j].name)
    ensures Increasing(Founds(ListEvents(path, d, rest, depth, maxDepth, accept)))
    decreases d, |rest|
  {
    if rest != [] {
      var e, tail := rest[0], rest[1..];
      assert e in rest;
      ListIncreases(path, d, tail, depth, maxDepth, accept);
      var here, there := EntryEvents(path, d, e, depth, maxDepth, accept),
        ListEvents(path, d, tail, depth, maxDepth, accept);
      FoundsThen(here, there);
      EntryIncreases(path, d, e, depth, maxDepth, accept);
      forall f, g | f in Founds(here) && g in Founds(there) ensures PathLess(f.path, g.path) {
        ListFounds(path, d, tail, depth, maxDepth, accept, g);
        var e' :| e' in tail && g in Founds(EntryEvents(path, d, e', depth, maxDepth, accept));
        SiblingsInOrder(path, d, e, e', depth, maxDepth, accept, f, g);
      }
      IncreasingSum(Founds(here), Founds(there));
    }
  }

  lemma {:induction false} EntryIncreases(path: seq<string>, d: Node, e: Entry, depth: nat, maxDepth: nat,
      accept: string -> bool)
    requires d.Dir? && e in d.entries && UniqueNames(e.node)
    ensures Increasing(Founds(EntryEvents(path, d, e, depth, maxDepth, accept)))
    decreases d, 0
  {
    if e.node.Dir? {
      DirIncreases(path + [e.name], e.node, depth + 1, maxDepth, accept);
    }
  }

  lemma {:induction false} DirIncreases(path: seq<string>, d: Node, depth: nat, maxDepth: nat, accept: string -> bool)
    requires d.Dir? && UniqueNames(d)
    ensures Increasing(Founds(DirEvents(path, d, depth, maxDepth, accept)))
    decreases d
  {
    DirFounds(path, d, depth, maxDepth, accept);
    SortKeeps(d.entries, ByName);
    StrictlySorted(d.entries);
    ListIncreases(path, d, Sorted(d.entries), depth, maxDepth, accept);
  }

  /** The listing is the set of wanted files within the depth, each once, in path order. */
  lemma ListingIsTheFiles(root: Node, maxDepth: nat, accept: string -> bool)
    requires root.Dir? && UniqueNames(root)
    ensures Increasing(Listing(root, maxDepth, accept))
    ensures forall f :: f in Listing(root, maxDepth, accept) <==>
              |f.path| <= maxDepth + 1 && Wanted(root, f.path, f.size, accept)
  {
    DirIncreases([], root, 0, maxDepth, accept);
    forall f: FileEntry
      ensures f in Listing(root, maxDepth, accept) <==> |f.path| <= maxDepth + 1 && Wanted(root, f.path, f.size, accept)
    {
      ListingExact([], root, 0, maxDepth, accept, f.path, f.size);
      assert [] + f.path == f.path;
    }
  }

  /**
   * Under a pattern, every listed name matches it in the recursive sense, and every file within the
   * depth whose folded name matches it and holds no star is listed.
   */
  lemma PatternListing(root: Node, maxDepth: nat, pattern: seq<byte>, lower: string -> seq<byte>, f: FileEntry)
    requires root.Dir? && f.path != []
    ensures var name := lower(f.path[|f.path| - 1]);
      var listed := f in Listing(root, maxDepth, NameFilter(Some(pattern), lower));
      var there := |f.path| <= maxDepth + 1 && (At(root, f.path, File(f.size)) || At(root, f.path, Link(f.size)));
      && (listed ==> there && Glob.Matches(name, pattern))
      && (there && Glob.Matches(name, pattern) && Glob.STAR !in name ==> listed)
  {
    ListingExact([], root, 0, maxDepth, NameFilter(Some(pattern), lower), f.path, f.size);
    assert [] + f.path == f.path;
    Glob.WildcardSound(lower(f.path[|f.path| - 1]), pattern);
  }
}
