/** Directory trees as the walks of src/utils/filesys.rs see them. */
module Trees {
  import opened Text
  import opened Sorting

  /** What the filesystem shows: links are never followed, metadata and listings may be unreadable. */
  datatype Node =
    | File(size: nat)
    | Link(size: nat)
    | NoMeta
    | Dir(readable: bool, entries: seq<Entry>)

  datatype Entry = Entry(name: string, node: Node)

  predicate ByName(a: Entry, b: Entry) { Less(a.name, b.name) }

  function Sorted(entries: seq<Entry>): seq<Entry> { SortBy(entries, ByName) }

  ghost predicate Strict(s: seq<Entry>) { forall i, j :: 0 <= i < j < |s| ==> Less(s[i].name, s[j].name) }

  lemma {:induction false} InsertStrict(x: Entry, xs: seq<Entry>)
    requires Strict(xs) && forall y :: y in xs ==> y.name != x.name
    ensures Strict(Insert(x, xs, ByName))
  {
    if xs != [] {
      LessTotal(xs[0].name, x.name);
      if ByName(xs[0], x) {
        InsertStrict(x, xs[1..]);
        InsertMultiset(x, xs[1..], ByName);
        var r := Insert(x, xs[1..], ByName);
        forall j | 0 <= j < |r| ensures Less(xs[0].name, r[j].name) {
          assert r[j] in multiset(r);
          assert r[j] == x || r[j] in xs[1..];
        }
      } else {
        forall j | 0 < j < |xs| ensures Less(x.name, xs[j].name) {
          LessTransitive(x.name, xs[0].name, xs[j].name);
        }
      }
    }
  }

  /** Sorting distinct names puts them in strictly increasing order. */
  lemma {:induction false} StrictlySorted(entries: seq<Entry>)
    requires forall i, j :: 0 <= i < j < |entries| ==> entries[i].name != entries[j].name
    ensures Strict(Sorted(entries))
  {
    if entries != [] {
      StrictlySorted(entries[1..]);
      SortKeeps(entries[1..], ByName);
      InsertStrict(entries[0], Sorted(entries[1..]));
    }
  }
}
