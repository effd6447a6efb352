/** The wildcard matcher of src/utils/filesys.rs, over lowercased bytes. */
module Glob {
  import opened Wrappers
  import opened Bytes

  const STAR: byte := 42
  const QUESTION: byte := 63

  /** What a glob means: `*` stands for any run of bytes, `?` for one byte, any other byte for itself. */
  predicate Matches(name: seq<byte>, pat: seq<byte>)
    decreases |pat|, |name|
  {
    if pat == [] then name == []
    else if pat[0] == STAR then Matches(name, pat[1..]) || (name != [] && Matches(name[1..], pat))
    else name != [] && (pat[0] == QUESTION || pat[0] == name[0]) && Matches(name[1..], pat[1..])
  }

  // ---------------------------------------------------------------------------------------------
  // The source's loop as a function of its four variables.

  predicate AllStars(pat: seq<byte>) { forall i :: 0 <= i < |pat| ==> pat[i] == STAR }

  predicate State(name: seq<byte>, pat: seq<byte>, ni: nat, pi: nat, star: Option<nat>, mark: nat) {
    ni <= |name| && pi <= |pat| && mark <= ni
    && (star.Some? ==> star.value < pi && pat[star.value] == STAR && ni - mark == pi - star.value - 1)
    && (star.None? ==> mark == 0 && ni == pi)
  }

  /** Byte `p` of the pattern is taken literally, or as `?`, against byte `n` of the name. */
  predicate Takes(n: byte, p: byte) { p == QUESTION || p == n }

  function Scan(name: seq<byte>, pat: seq<byte>, ni: nat, pi: nat, star: Option<nat>, mark: nat): bool
    requires State(name, pat, ni, pi, star, mark)
    decreases |name| - mark, |pat| - pi
  {
    if ni == |name| then AllStars(pat[pi..])
    else if pi < |pat| && Takes(name[ni], pat[pi]) then Scan(name, pat, ni + 1, pi + 1, star, mark)
    else if pi < |pat| && pat[pi] == STAR then Scan(name, pat, ni, pi + 1, Some(pi), ni)
    else if star.Some? then Scan(name, pat, mark + 1, star.value + 1, star, mark + 1)
    else false
  }

  function WildcardMatches(name: seq<byte>, pat: seq<byte>): bool { Scan(name, pat, 0, 0, None, 0) }

  lemma StepsGrow(mark: nat, ni: nat, width: nat)
    requires mark <= ni
    ensures mark * width <= ni * width
    ensures (mark + 1) * width == mark * width + width
  {
  }

  lemma StepsBound(mark: nat, pi: nat, name: seq<byte>, pat: seq<byte>)
    requires mark <= |name| && pi <= |pat|
    ensures mark * (|pat| + 1) + pi <= (|name| + 1) * (|pat| + 1)
  {
    StepsGrow(mark, |name|, |pat| + 1);
  }

  // ---------------------------------------------------------------------------------------------
  // Facts about the meaning.

  lemma {:induction false} StarsMatchNothing(pat: seq<byte>)
    ensures Matches([], pat) <==> AllStars(pat)
  {
    if pat != [] {
      StarsMatchNothing(pat[1..]);
      assert AllStars(pat) <==> pat[0] == STAR && AllStars(pat[1..]);
    }
  }

  /** A leading star may swallow any prefix of the name. */
  lemma {:induction false} StarSwallows(name: seq<byte>, pat: seq<byte>, k: nat)
    requires k <= |name| && pat != [] && pat[0] == STAR
    ensures Matches(name[k..], pat) ==> Matches(name, pat)
    decreases k
  {
    if k == 0 {
      assert name[0..] == name;
    } else {
      StarSwallows(name[1..], pat, k - 1);
      assert name[1..][k - 1..] == name[k..];
    }
  }

  predicate TakesRun(run: seq<byte>, pat: seq<byte>) {
    |run| == |pat| && forall i :: 0 <= i < |run| ==> Takes(run[i], pat[i])
  }

  // ---------------------------------------------------------------------------------------------
  // Only the last star matters.

  function RunStart(star: Option<nat>): nat { if star.Some? then star.value + 1 else 0 }

  /** The part of the state that soundness needs: the run since the last star has been taken. */
  predicate Tracks(name: seq<byte>, pat: seq<byte>, ni: nat, pi: nat, star: Option<nat>, mark: nat)
    requires State(name, pat, ni, pi, star, mark)
  {
    TakesRun(name[mark..ni], pat[RunStart(star)..pi])
  }

  /**
   * From a reachable state, the question left is whether the name from `mark` matches the pattern from the last
   * star.
   */
  predicate Pending(name: seq<byte>, pat: seq<byte>, star: Option<nat>, mark: nat)
    requires mark <= |name| && (star.Some? ==> star.value < |pat|)
  {
    Matches(name[mark..], if star.Some? then pat[star.value..] else pat)
  }

  lemma TracksMore(name: seq<byte>, pat: seq<byte>, ni: nat, pi: nat, star: Option<nat>, mark: nat)
    requires State(name, pat, ni, pi, star, mark) && Tracks(name, pat, ni, pi, star, mark)
    requires ni < |name| && pi < |pat| && Takes(name[ni], pat[pi])
    ensures Tracks(name, pat, ni + 1, pi + 1, star, mark)
  {
    assert name[mark..ni + 1] == name[mark..ni] + [name[ni]];
    assert pat[RunStart(star)..pi + 1] == pat[RunStart(star)..pi] + [pat[pi]];
  }

  /** A run taken byte by byte can be put in front of a match, even where the bytes are stars. */
  lemma {:induction false} RunMatches(run: seq<byte>, lit: seq<byte>, name: seq<byte>, pat: seq<byte>)
    requires TakesRun(run, lit) && Matches(name, pat)
    ensures Matches(run + name, lit + pat)
  {
    if run == [] {
      assert run + name == name && lit + pat == pat;
    } else {
      assert (run + name)[1..] == run[1..] + name && (lit + pat)[1..] == lit[1..] + pat;
      RunMatches(run[1..], lit[1..], name, pat);
      if lit[0] == STAR {
        var n, p := run + name, lit + pat;
        assert n[1..][0..] == n[1..];
        StarSwallows(n, p, 1);
        assert Matches(n[1..], p[1..]);
      }
    }
  }

  /** If the rest matches now, the pending question is answered yes. */
  lemma PendingByRun(name: seq<byte>, pat: seq<byte>, ni: nat, pi: nat, star: Option<nat>, mark: nat)
    requires State(name, pat, ni, pi, star, mark) && Tracks(name, pat, ni, pi, star, mark)
    requires Matches(name[ni..], pat[pi..])
    ensures Pending(name, pat, star, mark)
  {
    var s := RunStart(star);
    RunMatches(name[mark..ni], pat[s..pi], name[ni..], pat[pi..]);
    assert name[mark..ni] + name[ni..] == name[mark..] && pat[s..pi] + pat[pi..] == pat[s..];
    if star.Some? {
      assert pat[star.value..][1..] == pat[s..];
    } else {
      assert pat[0..] == pat;
    }
  }

  /** A true answer implies the pending question: the scan never invents a match. */
  lemma {:induction false} ScanSound(name: seq<byte>, pat: seq<byte>, ni: nat, pi: nat, star: Option<nat>, mark: nat)
    requires State(name, pat, ni, pi, star, mark) && Tracks(name, pat, ni, pi, star, mark)
    requires Scan(name, pat, ni, pi, star, mark)
    ensures Pending(name, pat, star, mark)
    decreases |name| - mark, |pat| - pi
  {
    if ni == |name| {
      StarsMatchNothing(pat[pi..]);
      PendingByRun(name, pat, ni, pi, star, mark);
    } else if pi < |pat| && Takes(name[ni], pat[pi]) {
      TracksMore(name, pat, ni, pi, star, mark);
      ScanSound(name, pat, ni + 1, pi + 1, star, mark);
    } else if pi < |pat| && pat[pi] == STAR {
      ScanSound(name, pat, ni, pi + 1, Some(pi), ni);
      PendingByRun(name, pat, ni, pi, star, mark);
    } else {
      ScanSound(name, pat, mark + 1, star.value + 1, star, mark + 1);
      StarSwallows(name[mark..], pat[star.value..], 1);
      assert name[mark..][1..] == name[mark + 1..];
    }
  }

  /** ... and what it leaves is matched by the rest of the pattern. */
  lemma {:induction false} StarLeaves(name: seq<byte>, pat: seq<byte>) returns (k: nat)
    requires pat != [] && pat[0] == STAR && Matches(name, pat)
    ensures k <= |name| && Matches(name[k..], pat[1..])
  {
    if Matches(name, pat[1..]) {
      k := 0;
      assert name[0..] == name;
    } else {
      k := StarLeaves(name[1..], pat);
      k := k + 1;
      assert name[1..][k - 1..] == name[k..];
    }
  }

  /** A starless pattern prefix is matched by exactly the bytes it takes. */
  lemma {:induction false} RunForced(name: seq<byte>, lit: seq<byte>, pat: seq<byte>)
    requires STAR !in lit && Matches(name, lit + pat)
    ensures |lit| <= |name| && TakesRun(name[..|lit|], lit) && Matches(name[|lit|..], pat)
  {
    if lit == [] {
      assert lit + pat == pat && name[0..] == name;
    } else {
      assert (lit + pat)[1..] == lit[1..] + pat;
      RunForced(name[1..], lit[1..], pat);
      var rest := name[1..];
      assert name[..|lit|] == [name[0]] + rest[..|lit| - 1];
      assert rest[|lit| - 1..] == name[|lit|..];
    }
  }

  /** A match pending at `mark` resumes the pattern at `pi` somewhere not before `ni`. */
  lemma RunResumes(name: seq<byte>, pat: seq<byte>, ni: nat, pi: nat, star: Option<nat>, mark: nat) returns (j: nat)
    requires State(name, pat, ni, pi, star, mark) && Tracks(name, pat, ni, pi, star, mark)
    requires STAR !in name && Pending(name, pat, star, mark)
    ensures ni <= j <= |name| && Matches(name[j..], pat[pi..])
    ensures star.None? ==> j == ni
    ensures star.Some? ==> Matches(name[j - (ni - mark)..], pat[star.value + 1..])
  {
    var s := RunStart(star);
    var k := 0;
    var lit := pat[s..pi];
    assert STAR !in lit by {
      forall i | 0 <= i < |lit| ensures lit[i] != STAR {
        assert Takes(name[mark..ni][i], lit[i]) && name[mark..ni][i] == name[mark + i];
      }
    }
    if star.Some? {
      k := StarLeaves(name[mark..], pat[star.value..]);
      assert pat[star.value..][1..] == pat[s..];
    } else {
      assert pat[0..] == pat;
    }
    var from := mark + k;
    assert name[mark..][k..] == name[from..];
    assert lit + pat[pi..] == pat[s..];
    RunForced(name[from..], lit, pat[pi..]);
    j := from + |lit|;
    assert name[from..][|lit|..] == name[j..];
  }

  lemma CompleteAtEnd(name: seq<byte>, pat: seq<byte>, ni: nat, pi: nat, star: Option<nat>, mark: nat)
    requires State(name, pat, ni, pi, star, mark) && Tracks(name, pat, ni, pi, star, mark)
    requires STAR !in name && Pending(name, pat, star, mark) && ni == |name|
    ensures AllStars(pat[pi..])
  {
    var j := RunResumes(name, pat, ni, pi, star, mark);
    assert name[j..] == [];
    StarsMatchNothing(pat[pi..]);
  }

  lemma PendingAtStar(name: seq<byte>, pat: seq<byte>, ni: nat, pi: nat, j: nat)
    requires ni <= j <= |name| && pi < |pat| && pat[pi] == STAR && Matches(name[j..], pat[pi..])
    ensures Pending(name, pat, Some(pi), ni)
  {
    assert name[ni..][j - ni..] == name[j..];
    StarSwallows(name[ni..], pat[pi..], j - ni);
  }

  lemma CompleteAtStar(name: seq<byte>, pat: seq<byte>, ni: nat, pi: nat, star: Option<nat>, mark: nat)
    requires State(name, pat, ni, pi, star, mark) && Tracks(name, pat, ni, pi, star, mark)
    requires STAR !in name && Pending(name, pat, star, mark) && pi < |pat| && pat[pi] == STAR
    ensures Pending(name, pat, Some(pi), ni) && Tracks(name, pat, ni, pi + 1, Some(pi), ni)
  {
    var j := RunResumes(name, pat, ni, pi, star, mark);
    PendingAtStar(name, pat, ni, pi, j);
  }

  lemma StuckResumesLater(name: seq<byte>, pat: seq<byte>, ni: nat, pi: nat, j: nat)
    requires ni <= j <= |name| && ni < |name| && pi <= |pat| && Matches(name[j..], pat[pi..])
    requires pi < |pat| ==> !Takes(name[ni], pat[pi]) && pat[pi] != STAR
    ensures ni < j
  {
  }

  lemma StarRetries(name: seq<byte>, pat: seq<byte>, ni: nat, pi: nat, star: nat, mark: nat, j: nat)
    requires State(name, pat, ni, pi, Some(star), mark) && ni < j <= |name|
    requires Matches(name[j - (ni - mark)..], pat[star + 1..])
    ensures mark < |name| && Pending(name, pat, Some(star), mark + 1)
  {
    var from := j - (ni - mark);
    var n, p := name[mark + 1..], pat[star..];
    assert p[1..] == pat[star + 1..];
    assert n[from - mark - 1..] == name[from..];
    StarSwallows(n, p, from - mark - 1);
  }

  lemma CompleteByRetry(name: seq<byte>, pat: seq<byte>, ni: nat, pi: nat, star: Option<nat>, mark: nat)
    requires State(name, pat, ni, pi, star, mark) && Tracks(name, pat, ni, pi, star, mark)
    requires STAR !in name && Pending(name, pat, star, mark) && ni < |name|
    requires pi < |pat| ==> !Takes(name[ni], pat[pi]) && pat[pi] != STAR
    ensures star.Some? && mark < |name| && Pending(name, pat, star, mark + 1)
    ensures Tracks(name, pat, mark + 1, star.value + 1, star, mark + 1)
  {
    var j := RunResumes(name, pat, ni, pi, star, mark);
    StuckResumesLater(name, pat, ni, pi, j);
    StarRetries(name, pat, ni, pi, star.value, mark, j);
  }

  /** Without stars in the name the converse holds too. */
  lemma {:induction false} ScanComplete(name: seq<byte>, pat: seq<byte>, ni: nat, pi: nat, star: Option<nat>, mark: nat)
    requires State(name, pat, ni, pi, star, mark) && Tracks(name, pat, ni, pi, star, mark)
    requires STAR !in name && Pending(name, pat, star, mark)
    ensures Scan(name, pat, ni, pi, star, mark)
    decreases |name| - mark, |pat| - pi
  {
    if ni == |name| {
      CompleteAtEnd(name, pat, ni, pi, star, mark);
    } else if pi < |pat| && Takes(name[ni], pat[pi]) {
      TracksMore(name, pat, ni, pi, star, mark);
      ScanComplete(name, pat, ni + 1, pi + 1, star, mark);
    } else if pi < |pat| && pat[pi] == STAR {
      CompleteAtStar(name, pat, ni, pi, star, mark);
      ScanComplete(name, pat, ni, pi + 1, Some(pi), ni);
    } else {
      CompleteByRetry(name, pat, ni, pi, star, mark);
      ScanComplete(name, pat, mark + 1, star.value + 1, star, mark + 1);
    }
  }

  lemma WildcardSound(name: seq<byte>, pat: seq<byte>)
    ensures WildcardMatches(name, pat) ==> Matches(name, pat)
    ensures STAR !in name && Matches(name, pat) ==> WildcardMatches(name, pat)
  {
    assert name[0..] == name;
    if WildcardMatches(name, pat) {
      ScanSound(name, pat, 0, 0, None, 0);
    }
    if STAR !in name && Matches(name, pat) {
      ScanComplete(name, pat, 0, 0, None, 0);
    }
  }

  // ---------------------------------------------------------------------------------------------
  // The loop.

  /** The loop itself; `steps` counts its iterations. */
  method WildcardMatch(name: seq<byte>, pat: seq<byte>) returns (matched: bool, ghost steps: nat)
    ensures matched == WildcardMatches(name, pat)
    ensures STAR !in name ==> (matched <==> Matches(name, pat))
    ensures matched ==> Matches(name, pat)
    ensures steps <= (|name| + 1) * (|pat| + 1)
  {
    var ni: nat, pi: nat, mark: nat := 0, 0, 0;
    var star: Option<nat> := None;
    steps := 0;
    while ni < |name|
      invariant State(name, pat, ni, pi, star, mark)
      invariant Scan(name, pat, ni, pi, star, mark) == WildcardMatches(name, pat)
      invariant steps <= mark * (|pat| + 1) + pi
      decreases |name| - mark, |pat| - pi
    {
      StepsGrow(mark, ni, |pat| + 1);
      if pi < |pat| && Takes(name[ni], pat[pi]) {
        ni, pi := ni + 1, pi + 1;
      } else if pi < |pat| && pat[pi] == STAR {
        star, pi, mark := Some(pi), pi + 1, ni;
      } else if star.Some? {
        pi, mark := star.value + 1, mark + 1;
        ni := mark;
      } else {
        WildcardSound(name, pat);
        StepsBound(mark, pi, name, pat);
        return false, steps;
      }
      steps := steps + 1;
    }
    StepsBound(mark, pi, name, pat);
    WildcardSound(name, pat);
    ghost var scanned := pi;
    while pi < |pat| && pat[pi] == STAR
      invariant scanned <= pi <= |pat|
      invariant AllStars(pat[scanned..pi])
    {
      assert pat[scanned..pi + 1] == pat[scanned..pi] + [STAR];
      pi := pi + 1;
    }
    matched := pi == |pat|;
    if matched {
      assert pat[scanned..pi] == pat[scanned..];
    } else {
      assert pat[scanned..][pi - scanned] == pat[pi];
    }
  }

  // ---------------------------------------------------------------------------------------------
  // Where the loop misses a match.

  lemma TailMatches(post: seq<byte>, tail: seq<byte>)
    requires tail == if post == [] then [STAR, QUESTION] else [STAR]
    ensures Matches([STAR] + post, tail)
  {
    var n := [STAR] + post;
    if post == [] {
      assert Matches([], []);
      assert tail[1..] == [QUESTION] && tail[1..][1..] == [] && n[1..] == [];
      assert Matches(n, tail[1..]);
    } else {
      assert Matches([], tail) by { StarsMatchNothing(tail); }
      StarSwallows(n, tail, |n|);
      assert n[|n|..] == [];
    }
  }

  lemma FirstStar(name: seq<byte>)
    requires STAR in name
    ensures exists i :: 0 <= i < |name| && name[i] == STAR && STAR !in name[..i]
  {
    var i := 0;
    while name[i] != STAR
      invariant 0 <= i < |name| && STAR !in name[..i]
      invariant exists k :: i <= k < |name| && name[k] == STAR
      decreases |name| - i
    {
      i := i + 1;
    }
  }

  lemma {:induction false} ScanPrefix(name: seq<byte>, pat: seq<byte>, k: nat, i: nat)
    requires k <= i <= |name| && i <= |pat| && forall j :: k <= j < i ==> pat[j] == name[j]
    ensures Scan(name, pat, k, k, None, 0) == Scan(name, pat, i, i, None, 0)
    decreases i - k
  {
    if k < i {
      ScanPrefix(name, pat, k + 1, i);
    }
  }

  /** The literal test runs first, so a star in the name uses up the star in the pattern. */
  lemma MissedPattern(name: seq<byte>) returns (pat: seq<byte>)
    requires STAR in name
    ensures Matches(name, pat) && !WildcardMatches(name, pat)
  {
    var i :| 0 <= i < |name| && name[i] == STAR && STAR !in name[..i] by { FirstStar(name); }
    var pre, post := name[..i], name[i + 1..];
    assert name == pre + ([STAR] + post);
    var tail := if post == [] then [STAR, QUESTION] else [STAR];
    pat := pre + tail;
    TailMatches(post, tail);
    RunMatches(pre, pre, [STAR] + post, tail);
    ScanPrefix(name, pat, 0, i);
    assert pat[i] == STAR && pat[i + 1..] == tail[1..];
    assert !Scan(name, pat, i + 1, i + 1, None, 0) by {
      if post == [] { assert pat[i + 1..][0] == QUESTION; }
    }
    assert !Scan(name, pat, i, i, None, 0);
  }

  /** Exactly the names without a star are decided correctly for every pattern. */
  lemma DecidedNames(name: seq<byte>)
    ensures (forall pat :: WildcardMatches(name, pat) <==> Matches(name, pat)) <==> STAR !in name
  {
    if STAR !in name {
      forall pat ensures WildcardMatches(name, pat) <==> Matches(name, pat) { WildcardSound(name, pat); }
    } else {
      var pat := MissedPattern(name);
    }
  }
}
