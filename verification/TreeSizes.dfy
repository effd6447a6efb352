/** tree_stats of src/utils/filesys.rs: a walk with a shared budget of entries. */
module TreeSizes {
  import opened Sorting
  import opened Trees

  datatype Cost = DirCost | FileCost(size: nat) | Denied | Skipped

  datatype TreeStats = TreeStats(size: nat, files: nat, dirs: nat, truncated: bool)

  function DirCosts(d: Node): (costs: seq<Cost>)
    requires d.Dir?
    ensures costs != []
    decreases d, |d.entries| + 1
  {
    if !d.readable then [Denied] else
      SortKeeps(d.entries, ByName);
      [DirCost] + ListCosts(d, Sorted(d.entries))
  }

  function ListCosts(d: Node, rest: seq<Entry>): seq<Cost>
    requires d.Dir? && (forall e :: e in rest ==> e in d.entries) && |rest| <= |d.entries|
    decreases d, |rest|
  {
    if rest == [] then [] else EntryCosts(d, rest[0]) + ListCosts(d, rest[1..])
  }

  function EntryCosts(d: Node, e: Entry): (costs: seq<Cost>)
    requires d.Dir? && e in d.entries
    ensures costs != []
    decreases d, 0
  {
    match e.node
    case Dir(_, _) => DirCosts(e.node)
    case NoMeta => [Skipped]
    case File(size) => [FileCost(size)]
    case Link(size) => [FileCost(size)]
  }

  function Uses(c: Cost): nat { if c.DirCost? || c.FileCost? then 1 else 0 }

  // Sums over a stream.

  function Entries(costs: seq<Cost>): nat { if costs == [] then 0 else Uses(costs[0]) + Entries(costs[1..]) }

  function Bytes(costs: seq<Cost>): nat {
    if costs == [] then 0 else (if costs[0].FileCost? then costs[0].size else 0) + Bytes(costs[1..])
  }

  function FileCount(costs: seq<Cost>): nat {
    if costs == [] then 0 else (if costs[0].FileCost? then 1 else 0) + FileCount(costs[1..])
  }

  function DirCount(costs: seq<Cost>): nat {
    if costs == [] then 0 else (if costs[0].DirCost? then 1 else 0) + DirCount(costs[1..])
  }

  lemma {:induction false} SumsThen(a: seq<Cost>, b: seq<Cost>)
    ensures Entries(a + b) == Entries(a) + Entries(b)
    ensures Bytes(a + b) == Bytes(a) + Bytes(b)
    ensures FileCount(a + b) == FileCount(a) + FileCount(b)
    ensures DirCount(a + b) == DirCount(a) + DirCount(b)
    ensures Entries(a) == FileCount(a) + DirCount(a)
  {
    if a == [] {
      assert a + b == b;
    } else {
      assert (a + b)[1..] == a[1..] + b;
      SumsThen(a[1..], b);
    }
  }

  /** The part of a stream that `room` entries of budget reach, and the room left after it. */
  function Reach(costs: seq<Cost>, room: nat): seq<Cost>
    decreases |costs|
  {
    if costs == [] || room == 0 then [] else [costs[0]] + Reach(costs[1..], room - Uses(costs[0]))
  }

  function Left(costs: seq<Cost>, room: nat): nat
    decreases |costs|
  {
    if costs == [] || room == 0 then room else Left(costs[1..], room - Uses(costs[0]))
  }

  /** Cut short: some of the stream was not reached, or a directory in it could not be read. */
  predicate Cut(costs: seq<Cost>, room: nat) {
    Reach(costs, room) != costs || Denied in Reach(costs, room)
  }

  lemma {:induction false} LeftIsUnspent(costs: seq<Cost>, room: nat)
    ensures Left(costs, room) + Entries(Reach(costs, room)) == room
    decreases |costs|
  {
    if costs != [] && room > 0 {
      LeftIsUnspent(costs[1..], room - Uses(costs[0]));
      assert Reach(costs, room)[1..] == Reach(costs[1..], room - Uses(costs[0]));
    }
  }

  /** What is left of the room after a goes to b. */
  lemma {:induction false} ReachThen(a: seq<Cost>, b: seq<Cost>, room: nat)
    ensures Reach(a + b, room) == Reach(a, room) + Reach(b, Left(a, room))
    ensures Left(a + b, room) == Left(b, Left(a, room))
    decreases |a|
  {
    if a == [] {
      assert a + b == b;
    } else if room > 0 {
      assert (a + b)[1..] == a[1..] + b;
      ReachThen(a[1..], b, room - Uses(a[0]));
    }
  }

  /** Room is left over only when everything was reached. */
  lemma {:induction false} ReachAll(a: seq<Cost>, room: nat)
    ensures Reach(a, room) <= a
    ensures Reach(a, room) != a ==> Left(a, room) == 0
    decreases |a|
  {
    if a != [] && room > 0 {
      ReachAll(a[1..], room - Uses(a[0]));
      assert a == [a[0]] + a[1..];
    }
  }

  lemma CutThen(a: seq<Cost>, b: seq<Cost>, room: nat)
    ensures Cut(a + b, room) <==> Cut(a, room) || Cut(b, Left(a, room))
  {
    ReachThen(a, b, room);
    ReachAll(a, room);
    ReachAll(b, Left(a, room));
    var ra, rb := Reach(a, room), Reach(b, Left(a, room));
    if ra != a {
      assert |ra| < |a| && rb == [];
    } else if rb != b {
      assert |rb| < |b|;
    }
  }

  lemma ReachOne(c: Cost, room: nat)
    requires room > 0
    ensures Reach([c], room) == [c] && Left([c], room) == room - Uses(c) && (Cut([c], room) <==> c == Denied)
    ensures Bytes([c]) == if c.FileCost? then c.size else 0
    ensures FileCount([c]) == if c.FileCost? then 1 else 0
    ensures DirCount([c]) == if c.DirCost? then 1 else 0
  {
    assert [c][1..] == [];
  }

  /** The counter shared by the whole walk. */
  class Used {
    var entries: nat
    constructor () ensures entries == 0 { entries := 0; }
  }

  function Room(budget: nat, used: nat): nat { if used < budget then budget - used else 0 }

  predicate Sums(stats: TreeStats, reached: seq<Cost>) {
    stats.size == Bytes(reached) && stats.files == FileCount(reached) && stats.dirs == DirCount(reached)
  }

  /** Of the stream `costs` entered with `room`, `reached` is done and `rest` follows with `left` to spend. */
  predicate Midway(costs: seq<Cost>, room: nat, reached: seq<Cost>, truncated: bool, rest: seq<Cost>, left: nat) {
    && Left(costs, room) == Left(rest, left)
    && Reach(costs, room) == reached + Reach(rest, left)
    && (Cut(costs, room) <==> truncated || Cut(rest, left))
  }

  lemma MidwayAfter(costs: seq<Cost>, room: nat, reached: seq<Cost>, truncated: bool, here: seq<Cost>,
      there: seq<Cost>, left: nat)
    requires Midway(costs, room, reached, truncated, here + there, left)
    ensures Midway(costs, room, reached + Reach(here, left), truncated || Cut(here, left), there, Left(here, left))
  {
    ReachThen(here, there, left);
    CutThen(here, there, left);
    var a, b := Reach(here, left), Reach(there, Left(here, left));
    assert reached + (a + b) == reached + a + b;
  }

  /** One child further. */
  lemma MidwayChild(d: Node, children: seq<Entry>, i: nat, room: nat, reached: seq<Cost>, truncated: bool, left: nat)
    requires d.Dir? && (forall e :: e in children ==> e in d.entries) && |children| <= |d.entries| && i < |children|
    requires Midway(ListCosts(d, children), room, reached, truncated, ListCosts(d, children[i..]), left)
    ensures children[i] in d.entries
    ensures var here := EntryCosts(d, children[i]);
            && Midway(ListCosts(d, children), room, reached + Reach(here, left), truncated || Cut(here, left),
                      ListCosts(d, children[i + 1..]), Left(here, left))
            && Bytes(reached + Reach(here, left)) == Bytes(reached) + Bytes(Reach(here, left))
            && FileCount(reached + Reach(here, left)) == FileCount(reached) + FileCount(Reach(here, left))
            && DirCount(reached + Reach(here, left)) == DirCount(reached) + DirCount(Reach(here, left))
    ensures ListCosts(d, children[i..]) != []
  {
    assert children[i] in children;
    assert children[i..][1..] == children[i + 1..];
    var here := EntryCosts(d, children[i]);
    MidwayAfter(ListCosts(d, children), room, reached, truncated, here, ListCosts(d, children[i + 1..]), left);
    SumsThen(reached, Reach(here, left));
  }

  lemma MidwayEnd(costs: seq<Cost>, room: nat, reached: seq<Cost>, truncated: bool, rest: seq<Cost>, left: nat)
    requires Midway(costs, room, reached, truncated, rest, left) && (rest == [] || left == 0)
    ensures Left(costs, room) == left && Reach(costs, room) == reached
              && (Cut(costs, room) <==> truncated || rest != [])
  {
    assert Reach(rest, left) == [];
    assert reached + [] == reached;
  }

  method MeasureTree(d: Node, budget: nat, used: Used) returns (stats: TreeStats)
    requires d.Dir?
    modifies used
    ensures Sums(stats, Reach(DirCosts(d), Room(budget, old(used.entries))))
    ensures stats.truncated == Cut(DirCosts(d), Room(budget, old(used.entries)))
    ensures Room(budget, used.entries) == Left(DirCosts(d), Room(budget, old(used.entries)))
    ensures used.entries == old(used.entries) || used.entries <= budget
    decreases d, 2
  {
    if used.entries >= budget {
      return TreeStats(0, 0, 0, true);
    }
    ghost var room := budget - used.entries;
    if !d.readable {
      ReachOne(Denied, room);
      return TreeStats(0, 0, 0, true);
    }
    used.entries := used.entries + 1;
    SortKeeps(d.entries, ByName);
    var children := Sorted(d.entries);
    ghost var rest := ListCosts(d, children);
    ReachOne(DirCost, room);
    ReachThen([DirCost], rest, room);
    CutThen([DirCost], rest, room);
    SumsThen([DirCost], Reach(rest, room - 1));
    stats := MeasureChildren(d, children, budget, used);
    stats := stats.(dirs := stats.dirs + 1);
  }

  method MeasureChildren(d: Node, children: seq<Entry>, budget: nat, used: Used) returns (stats: TreeStats)
    requires d.Dir? && (forall e :: e in children ==> e in d.entries) && |children| <= |d.entries|
    requires used.entries <= budget
    modifies used
    ensures Sums(stats, Reach(ListCosts(d, children), budget - old(used.entries)))
    ensures stats.truncated == Cut(ListCosts(d, children), budget - old(used.entries))
    ensures used.entries <= budget
    ensures budget - used.entries == Left(ListCosts(d, children), budget - old(used.entries))
    decreases d, 1
  {
    var size: nat, files: nat, dirs: nat, truncated := 0, 0, 0, false;
    ghost var room, costs, reached := budget - used.entries, ListCosts(d, children), [];
    var i := 0;
    while i < |children|
      invariant i <= |children| && used.entries <= budget
      invariant Midway(costs, room, reached, truncated, ListCosts(d, children[i..]), budget - used.entries)
      invariant size == Bytes(reached) && files == FileCount(reached) && dirs == DirCount(reached)
    {
      ghost var left := budget - used.entries;
      MidwayChild(d, children, i, room, reached, truncated, left);
      if used.entries >= budget {
        MidwayEnd(costs, room, reached, truncated, ListCosts(d, children[i..]), left);
        return TreeStats(size, files, dirs, true);
      }
      var sub := MeasureChild(d, children[i], budget, used);
      size, files, dirs := size + sub.size, files + sub.files, dirs + sub.dirs;
      if sub.truncated {
        truncated := true;
      }
      reached := reached + Reach(EntryCosts(d, children[i]), left);
      i := i + 1;
    }
    MidwayEnd(costs, room, reached, truncated, [], budget - used.entries);
    return TreeStats(size, files, dirs, truncated);
  }

  /** What one child adds: nothing without metadata, a file or an opaque link, or a whole subtree. */
  method MeasureChild(d: Node, e: Entry, budget: nat, used: Used) returns (sub: TreeStats)
    requires d.Dir? && e in d.entries && used.entries < budget
    modifies used
    ensures Sums(sub, Reach(EntryCosts(d, e), budget - old(used.entries)))
    ensures sub.truncated == Cut(EntryCosts(d, e), budget - old(used.entries))
    ensures used.entries <= budget
    ensures budget - used.entries == Left(EntryCosts(d, e), budget - old(used.entries))
    decreases d, 0
  {
    match e.node {
      case NoMeta =>
        ReachOne(Skipped, budget - used.entries);
        sub := TreeStats(0, 0, 0, false);
      case File(size) =>
        ReachOne(FileCost(size), budget - used.entries);
        sub := TreeStats(size, 1, 0, false);
        used.entries := used.entries + 1;
      case Link(size) =>
        ReachOne(FileCost(size), budget - used.entries);
        sub := TreeStats(size, 1, 0, false);
        used.entries := used.entries + 1;
      case Dir(_, _) =>
        sub := MeasureTree(e.node, budget, used);
    }
  }

  // ---------------------------------------------------------------------------------------------
  // Readable trees.

  /** Everything can be listed and read. */
  ghost predicate Readable(n: Node)
    decreases n
  {
    match n
    case File(_) => true
    case Link(_) => true
    case NoMeta => false
    case Dir(readable, entries) => readable && forall e :: e in entries ==> Readable(e.node)
  }

  /** How many files, links and directories a tree has, and the bytes in them, whatever the order of listing. */
  function NodeCount(n: Node): nat
    decreases n, 0
  {
    match n
    case File(_) => 1
    case Link(_) => 1
    case NoMeta => 0
    case Dir(_, entries) => 1 + CountAll(n, entries)
  }

  function CountAll(d: Node, rest: seq<Entry>): nat
    requires d.Dir? && forall e :: e in rest ==> e in d.entries
    decreases d, 0, |rest|
  {
    if rest == [] then 0 else
      assert rest[0] in d.entries;
      NodeCount(rest[0].node) + CountAll(d, rest[1..])
  }

  function TotalBytes(n: Node): nat
    decreases n, 0
  {
    match n
    case File(size) => size
    case Link(size) => size
    case NoMeta => 0
    case Dir(_, entries) => BytesOfAll(n, entries)
  }

  function BytesOfAll(d: Node, rest: seq<Entry>): nat
    requires d.Dir? && forall e :: e in rest ==> e in d.entries
    decreases d, 0, |rest|
  {
    if rest == [] then 0 else
      assert rest[0] in d.entries;
      TotalBytes(rest[0].node) + BytesOfAll(d, rest[1..])
  }

  lemma {:induction false} InsertKeepsTotals(d: Node, x: Entry, xs: seq<Entry>)
    requires d.Dir? && x in d.entries && forall e :: e in xs ==> e in d.entries
    ensures forall e :: e in Insert(x, xs, ByName) ==> e in d.entries
    ensures CountAll(d, Insert(x, xs, ByName)) == NodeCount(x.node) + CountAll(d, xs)
    ensures BytesOfAll(d, Insert(x, xs, ByName)) == TotalBytes(x.node) + BytesOfAll(d, xs)
  {
    if xs != [] && ByName(xs[0], x) {
      InsertKeepsTotals(d, x, xs[1..]);
      var r := Insert(x, xs[1..], ByName);
      assert Insert(x, xs, ByName) == [xs[0]] + r && ([xs[0]] + r)[1..] == r;
    } else {
      assert ([x] + xs)[1..] == xs;
    }
  }

  lemma {:induction false} SortKeepsTotals(d: Node, xs: seq<Entry>)
    requires d.Dir? && forall e :: e in xs ==> e in d.entries
    ensures forall e :: e in Sorted(xs) ==> e in d.entries
    ensures CountAll(d, Sorted(xs)) == CountAll(d, xs) && BytesOfAll(d, Sorted(xs)) == BytesOfAll(d, xs)
  {
    if xs != [] {
      SortKeepsTotals(d, xs[1..]);
      InsertKeepsTotals(d, xs[0], Sorted(xs[1..]));
    }
  }

  lemma {:induction false} DirCostsCount(d: Node)
    requires d.Dir? && Readable(d)
    ensures |DirCosts(d)| == Entries(DirCosts(d)) == NodeCount(d) && Bytes(DirCosts(d)) == TotalBytes(d)
    ensures Denied !in DirCosts(d)
    decreases d
  {
    SortKeeps(d.entries, ByName);
    SortKeepsTotals(d, d.entries);
    ListCostsCount(d, Sorted(d.entries));
    SumsThen([DirCost], ListCosts(d, Sorted(d.entries)));
    ReachOne(DirCost, 1);
    assert [DirCost][1..] == [];
  }

  lemma {:induction false} ListCostsCount(d: Node, rest: seq<Entry>)
    requires d.Dir? && (forall e :: e in rest ==> e in d.entries) && |rest| <= |d.entries|
    requires forall e :: e in d.entries ==> Readable(e.node)
    ensures |ListCosts(d, rest)| == Entries(ListCosts(d, rest)) == CountAll(d, rest)
    ensures Bytes(ListCosts(d, rest)) == BytesOfAll(d, rest)
    ensures Denied !in ListCosts(d, rest)
    decreases d, 0, |rest|
  {
    if rest != [] {
      var e := rest[0];
      assert e in rest;
      ListCostsCount(d, rest[1..]);
      var here := EntryCosts(d, e);
      SumsThen(here, ListCosts(d, rest[1..]));
      if e.node.Dir? {
        DirCostsCount(e.node);
      } else {
        assert here[1..] == [];
      }
    }
  }

  lemma {:induction false} EntriesAtMost(costs: seq<Cost>)
    ensures Entries(costs) <= |costs|
  {
    if costs != [] { EntriesAtMost(costs[1..]); }
  }

  lemma {:induction false} ReachWhenAllCount(costs: seq<Cost>, room: nat)
    requires Entries(costs) == |costs|
    ensures |Reach(costs, room)| == Entries(Reach(costs, room)) == if room < |costs| then room else |costs|
    decreases |costs|
  {
    if costs != [] {
      EntriesAtMost(costs[1..]);
      if room > 0 {
        ReachWhenAllCount(costs[1..], room - 1);
        assert Reach(costs, room)[1..] == Reach(costs[1..], room - 1);
      }
    }
  }

  /** The whole call. On a readable tree the budget is exact: so many entries are counted, and no more. */
  method MeasureWithin(root: Node, budget: nat) returns (stats: TreeStats, consumed: nat)
    requires root.Dir?
    ensures consumed <= budget && stats.files + stats.dirs == consumed
    ensures Readable(root) ==> consumed == (if NodeCount(root) <= budget then NodeCount(root) else budget)
    ensures Readable(root) ==> (stats.truncated <==> NodeCount(root) > budget)
    ensures Readable(root) && NodeCount(root) <= budget ==> stats.size == TotalBytes(root)
    ensures Sums(stats, Reach(DirCosts(root), budget))
  {
    var used := new Used();
    stats := MeasureTree(root, budget, used);
    consumed := used.entries;
    ghost var costs := DirCosts(root);
    LeftIsUnspent(costs, budget);
    SumsThen(Reach(costs, budget), []);
    ReachAll(costs, budget);
    if Readable(root) {
      DirCostsCount(root);
      ReachWhenAllCount(costs, budget);
      assert |Reach(costs, budget)| == |costs| ==> Reach(costs, budget) == costs;
      assert Denied !in Reach(costs, budget);
    }
  }
}
