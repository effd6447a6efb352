/** The shutdown timeline of src/tools/stability.rs: dedup, newest first, and the last shutdown kind. */
module Shutdowns {
  import opened Wrappers
  import opened Text
  import opened EventStamps
  import opened Timestamps
  import opened Sorting

  datatype Category = Boot | CleanShutdown | UnexpectedShutdown | UserShutdown | PowerLoss | Sleep | Hibernate | Uptime

  datatype Entry = Entry(category: Category, time: Option<string>, recordId: Option<nat>)

  predicate IsShutdown(c: Category) {
    c.CleanShutdown? || c.UnexpectedShutdown? || c.UserShutdown? || c.PowerLoss?
  }

  /** `Option<String>` order: None first. */
  predicate Earlier(a: Option<string>, b: Option<string>) {
    b.Some? && (a.None? || Less(a.value, b.value))
  }

  predicate NewerFirst(a: Entry, b: Entry) { Earlier(b.time, a.time) }

  function NewestFirst(entries: seq<Entry>): seq<Entry> {
    SortBy(entries, NewerFirst)
  }

  lemma NewerFirstCompares()
    ensures Comparator(NewerFirst)
  {
    forall a, b, c | !NewerFirst(b, a) && !NewerFirst(c, b) ensures !NewerFirst(c, a) {
      if NewerFirst(c, a) {
        if a.time.Some? && b.time.Some? {
          LessTotal(a.time.value, b.time.value);
          LessTotal(b.time.value, c.time.value);
          if a.time != b.time {
            LessTransitive(b.time.value, a.time.value, c.time.value);
          }
        }
      }
    }
    forall a, b | NewerFirst(a, b) ensures !NewerFirst(b, a) {
      if a.time.Some? && b.time.Some? { LessTotal(a.time.value, b.time.value); }
    }
  }

  // ---------------------------------------------------------------------------------------------
  // Dedup by record id: `retain` with a set of ids already seen.

  predicate SeenBefore(entries: seq<Entry>, k: nat)
    requires k < |entries|
  {
    entries[k].recordId.Some? && exists j :: 0 <= j < k && entries[j].recordId == entries[k].recordId
  }

  function FirstPerId(entries: seq<Entry>): seq<Entry> {
    if entries == [] then [] else
      var k := |entries| - 1;
      FirstPerId(entries[..k]) + (if SeenBefore(entries, k) then [] else [entries[k]])
  }

  method Retain(entries: seq<Entry>) returns (kept: seq<Entry>)
    ensures kept == FirstPerId(entries)
  {
    kept := [];
    var seen: set<nat> := {};
    for k := 0 to |entries|
      invariant kept == FirstPerId(entries[..k])
      invariant forall id :: id in seen <==> exists j :: 0 <= j < k && entries[j].recordId == Some(id)
    {
      assert entries[..k + 1][..k] == entries[..k];
      assert SeenBefore(entries[..k + 1], k) <==> entries[k].recordId.Some? && entries[k].recordId.value in seen by {
        if entries[k].recordId.Some? && entries[k].recordId.value in seen {
          var j :| 0 <= j < k && entries[j].recordId == Some(entries[k].recordId.value);
          assert entries[..k + 1][j].recordId == entries[..k + 1][k].recordId;
        }
      }
      match entries[k].recordId {
        case None => kept := kept + [entries[k]];
        case Some(id) =>
          if id !in seen {
            seen := seen + {id};
            kept := kept + [entries[k]];
          }
      }
    }
    assert entries[..|entries|] == entries;
  }

  lemma SeenInPrefix(entries: seq<Entry>, n: nat)
    requires n <= |entries|
    ensures forall k :: 0 <= k < n ==>
              entries[..n][k] == entries[k] && SeenBefore(entries[..n], k) == SeenBefore(entries, k)
  {
    forall k | 0 <= k < n ensures SeenBefore(entries[..n], k) == SeenBefore(entries, k) {
      assert forall j :: 0 <= j < n ==> entries[..n][j] == entries[j];
      if SeenBefore(entries, k) {
        var j :| 0 <= j < k && entries[j].recordId == entries[k].recordId;
        assert entries[..n][j].recordId == entries[..n][k].recordId;
      }
    }
  }

  /** The first entry of its record id, or one without an id. */
  predicate IsFirst(e: Entry, entries: seq<Entry>) {
    exists k :: 0 <= k < |entries| && entries[k] == e && !SeenBefore(entries, k)
  }

  lemma FirstInPrefix(entries: seq<Entry>, e: Entry)
    requires entries != []
    ensures var n := |entries| - 1;
      IsFirst(e, entries) <==> IsFirst(e, entries[..n]) || (entries[n] == e && !SeenBefore(entries, n))
  {
    var n := |entries| - 1;
    SeenInPrefix(entries, n);
    if IsFirst(e, entries[..n]) {
      var k :| 0 <= k < n && entries[..n][k] == e && !SeenBefore(entries[..n], k);
      assert entries[k] == e && !SeenBefore(entries, k);
    }
    if IsFirst(e, entries) && entries[n] != e {
      var k :| 0 <= k < |entries| && entries[k] == e && !SeenBefore(entries, k);
      assert entries[..n][k] == e && !SeenBefore(entries[..n], k);
    }
    if IsFirst(e, entries) && SeenBefore(entries, n) {
      var k :| 0 <= k < |entries| && entries[k] == e && !SeenBefore(entries, k);
      assert k < n;
      assert entries[..n][k] == e && !SeenBefore(entries[..n], k);
    }
  }

  /** An entry is kept exactly when it stands somewhere with no earlier entry of the same record id. */
  lemma {:induction false} KeptExactly(entries: seq<Entry>, e: Entry)
    ensures e in FirstPerId(entries) <==> IsFirst(e, entries)
  {
    if entries != [] {
      KeptExactly(entries[..|entries| - 1], e);
      FirstInPrefix(entries, e);
    }
  }

  /** Every record id keeps an entry. */
  lemma {:induction false} EveryIdKept(entries: seq<Entry>, k: nat) returns (e: Entry)
    requires k < |entries|
    ensures e in FirstPerId(entries) && (e == entries[k] || (e.recordId.Some? && e.recordId == entries[k].recordId))
    decreases k
  {
    if SeenBefore(entries, k) {
      var j :| 0 <= j < k && entries[j].recordId == entries[k].recordId;
      e := EveryIdKept(entries, j);
    } else {
      e := entries[k];
      KeptExactly(entries, e);
    }
  }

  /** And only one. */
  lemma {:induction false} OnePerId(entries: seq<Entry>)
    ensures var kept := FirstPerId(entries);
            forall i, j :: 0 <= i < j < |kept| && kept[i].recordId.Some? ==> kept[i].recordId != kept[j].recordId
  {
    if entries != [] {
      var n := |entries| - 1;
      OnePerId(entries[..n]);
      var before := FirstPerId(entries[..n]);
      if !SeenBefore(entries, n) {
        forall i | 0 <= i < |before| && before[i].recordId.Some? ensures before[i].recordId != entries[n].recordId {
          KeptExactly(entries[..n], before[i]);
          var k :| 0 <= k < n && entries[..n][k] == before[i];
          assert entries[k].recordId == before[i].recordId;
        }
      }
    }
  }

  // ---------------------------------------------------------------------------------------------
  // The last boot and the last shutdown before it.

  /** First boot entry that has a time. */
  function FirstBootTime(entries: seq<Entry>): Option<string> {
    if entries == [] then None
    else if entries[0].category.Boot? && entries[0].time.Some? then entries[0].time
    else FirstBootTime(entries[1..])
  }

  predicate Candidate(e: Entry, boot: Option<string>) {
    IsShutdown(e.category) && (e.time.Some? && boot.Some? ==> !Less(boot.value, e.time.value))
  }

  function LastShutdownKind(entries: seq<Entry>, boot: Option<string>): Option<Category> {
    var candidates := Filter(entries, e => Candidate(e, boot));
    var sorted := NewestFirst(candidates);
    if sorted == [] then None else Some(sorted[0].category)
  }

  /**
   * The chosen category belongs to a candidate no other candidate is newer than; there is none only without
   * candidates.
   */
  lemma LastShutdownIsNewest(entries: seq<Entry>, boot: Option<string>)
    ensures LastShutdownKind(entries, boot).None? <==> forall e :: e in entries ==> !Candidate(e, boot)
    ensures LastShutdownKind(entries, boot).Some? ==>
              exists e :: e in entries && Candidate(e, boot) && LastShutdownKind(entries, boot) == Some(e.category)
                && forall f :: f in entries && Candidate(f, boot) ==> !Earlier(e.time, f.time)
  {
    var p := (e: Entry) => Candidate(e, boot);
    var candidates := Filter(entries, p);
    NewerFirstCompares();
    SortKeeps(candidates, NewerFirst);
    if candidates == [] {
      forall e | e in entries ensures !Candidate(e, boot) {
        assert e in candidates <==> p(e);
      }
    } else {
      assert candidates[0] in candidates;
      var i := SortHead(candidates, NewerFirst);
      var e := candidates[i];
      assert e in candidates;
      forall f | f in entries && Candidate(f, boot) ensures !Earlier(e.time, f.time) {
        assert f in candidates;
        var j :| 0 <= j < |candidates| && candidates[j] == f;
        assert !NewerFirst(candidates[j], candidates[i]);
      }
    }
  }

  /** On a newest-first list the first boot time is the newest one. */
  lemma {:induction false} FirstBootIsNewest(entries: seq<Entry>)
    requires Ordered(entries, NewerFirst)
    ensures FirstBootTime(entries).None? <==> forall e :: e in entries ==> !(e.category.Boot? && e.time.Some?)
    ensures FirstBootTime(entries).Some? ==> exists e ::
              e in entries && e.category.Boot? && e.time == FirstBootTime(entries)
    ensures forall e :: e in entries && e.category.Boot? ==> !Earlier(FirstBootTime(entries), e.time)
  {
    if entries != [] {
      var rest := entries[1..];
      assert forall e :: e in entries <==> e == entries[0] || e in rest;
      assert Ordered(rest, NewerFirst) by {
        assert forall i :: 0 <= i < |rest| ==> rest[i] == entries[i + 1];
      }
      FirstBootIsNewest(rest);
      if entries[0].category.Boot? && entries[0].time.Some? {
        forall e | e in entries ensures !Earlier(entries[0].time, e.time) {
          var k :| 0 <= k < |entries| && entries[k] == e;
          if k == 0 { LessTotal(e.time.value, e.time.value); } else { assert !NewerFirst(entries[k], entries[0]); }
        }
      }
    }
  }

  // ---------------------------------------------------------------------------------------------
  // The whole summary.

  method ShutdownSummary(entries: seq<Entry>) returns (shown: seq<Entry>, boot: Option<string>, last: Option<Category>)
    // Shown are the first entries of their record ids, newest first, no id twice.
    ensures shown == NewestFirst(FirstPerId(entries)) && Ordered(shown, NewerFirst)
    ensures forall e :: e in shown <==> IsFirst(e, entries)
    ensures multiset(shown) == multiset(FirstPerId(entries))
    // The boot time is that of a shown boot, and no shown boot is newer.
    ensures boot == FirstBootTime(shown)
    ensures boot.Some? ==> exists b :: b in shown && b.category.Boot? && b.time == boot
    ensures forall b :: b in shown && b.category.Boot? ==> !Earlier(boot, b.time)
    // The last shutdown is a candidate, and no candidate is newer.
    ensures last == LastShutdownKind(shown, boot)
    ensures last.None? ==> forall e :: e in shown ==> !Candidate(e, boot)
    ensures last.Some? ==>
              exists e :: e in shown && Candidate(e, boot) && last == Some(e.category)
                && forall f :: f in shown && Candidate(f, boot) ==> !Earlier(e.time, f.time)
  {
    var kept := Retain(entries);
    shown := NewestFirst(kept);
    boot := FirstBootTime(shown);
    last := LastShutdownKind(shown, boot);
    NewerFirstCompares();
    SortOrdered(kept, NewerFirst);
    SortMultiset(kept, NewerFirst);
    SortKeeps(kept, NewerFirst);
    forall e ensures e in shown <==> IsFirst(e, entries) {
      KeptExactly(entries, e);
    }
    FirstBootIsNewest(shown);
    LastShutdownIsNewest(shown, boot);
  }

  // ---------------------------------------------------------------------------------------------
  // Chronology: events whose times the event log wrote, with any number of fraction digits.

  datatype Event = Event(category: Category, instant: Option<Instant>, recordId: Option<nat>)

  function TextOf(t: Option<Instant>): Option<string> { if t.None? then None else Some(StampText(t.value)) }

  function Recorded(e: Event): Entry { Entry(e.category, TextOf(e.instant), e.recordId) }

  function RecordedAll(events: seq<Event>): seq<Entry> {
    seq(|events|, i requires 0 <= i < |events| => Recorded(events[i]))
  }

  function Timeline(events: seq<Event>): seq<Entry> { FirstPerId(RecordedAll(events)) }

  predicate Printable(t: Option<Instant>) { t.Some? ==> IsStamp(t.value) }

  /** Time order, an unknown time first. */
  predicate Sooner(a: Option<Instant>, b: Option<Instant>)
    requires Printable(a) && Printable(b)
  {
    b.Some? && (a.None? || Precedes(a.value, b.value))
  }

  predicate Comparable(a: Option<Instant>, b: Option<Instant>) { a.Some? && b.Some? ==> !Clash(a.value, b.value) }

  /** Every time is a stamp of a year before 10000. */
  predicate Stamped(events: seq<Event>) { forall e :: e in events ==> Printable(e.instant) }

  /** And no two of them clash; stamps of one width never do. */
  predicate ReadableLog(events: seq<Event>) {
    && Stamped(events)
    && (forall e, f :: e in events && f in events ==> Comparable(e.instant, f.instant))
  }

  lemma SoonerIsEarlier(a: Option<Instant>, b: Option<Instant>)
    requires Printable(a) && Printable(b) && Comparable(a, b)
    ensures Earlier(TextOf(a), TextOf(b)) <==> Sooner(a, b)
  {
    if a.Some? && b.Some? {
      TextAgreesUnlessClash(a.value, b.value);
    }
  }

  /** An event of the list that survived the dedup. */
  predicate Kept(e: Event, events: seq<Event>) {
    e in events && Recorded(e) in Timeline(events)
  }

  lemma TimelineEvents(events: seq<Event>, x: Entry) returns (e: Event)
    requires x in Timeline(events)
    ensures Kept(e, events) && Recorded(e) == x
  {
    KeptExactly(RecordedAll(events), x);
    var k :| 0 <= k < |RecordedAll(events)| && RecordedAll(events)[k] == x;
    e := events[k];
  }

  ghost predicate IsNewestBoot(boot: Option<Instant>, events: seq<Event>)
    requires Stamped(events) && Printable(boot)
  {
    && (boot.Some? ==> exists b :: Kept(b, events) && b.category.Boot? && b.instant == boot)
    && (forall e :: e in events && Kept(e, events) && e.category.Boot? ==> !Sooner(boot, e.instant))
  }

  /** A shutdown that is not known to be after the boot. */
  predicate Eligible(e: Event, boot: Option<Instant>)
    requires Printable(e.instant) && Printable(boot)
  {
    IsShutdown(e.category) && !(boot.Some? && Sooner(boot, e.instant))
  }

  ghost predicate IsLatestShutdown(s: Event, boot: Option<Instant>, events: seq<Event>)
    requires Stamped(events) && Printable(boot)
  {
    && Kept(s, events) && Eligible(s, boot)
    && forall e :: e in events && Kept(e, events) && Eligible(e, boot) ==> !Sooner(s.instant, e.instant)
  }

  lemma NewestBootFound(events: seq<Event>, shown: seq<Entry>) returns (boot: Option<Instant>)
    requires ReadableLog(events) && shown == NewestFirst(Timeline(events))
    ensures Printable(boot) && IsNewestBoot(boot, events) && FirstBootTime(shown) == TextOf(boot)
    ensures boot.Some? ==> exists b :: b in events && b.instant == boot
  {
    NewerFirstCompares();
    SortOrdered(Timeline(events), NewerFirst);
    SortKeeps(Timeline(events), NewerFirst);
    FirstBootIsNewest(shown);
    boot := None;
    if FirstBootTime(shown).Some? {
      var x :| x in shown && x.category.Boot? && x.time == FirstBootTime(shown);
      var b := TimelineEvents(events, x);
      boot := b.instant;
    }
    forall e | e in events && Kept(e, events) && e.category.Boot? ensures !Sooner(boot, e.instant) {
      assert Recorded(e) in shown;
      SoonerIsEarlier(boot, e.instant);
    }
  }

  lemma CandidateIsEligible(e: Event, boot: Option<Instant>)
    requires Printable(e.instant) && Printable(boot) && Comparable(boot, e.instant)
    ensures Candidate(Recorded(e), TextOf(boot)) <==> Eligible(e, boot)
  {
    SoonerIsEarlier(boot, e.instant);
  }

  lemma LatestFound(events: seq<Event>, shown: seq<Entry>, boot: Option<Instant>) returns (s: Event)
    requires ReadableLog(events) && shown == NewestFirst(Timeline(events)) && Printable(boot)
    requires boot.Some? ==> exists b :: b in events && b.instant == boot
    requires LastShutdownKind(shown, TextOf(boot)).Some?
    ensures IsLatestShutdown(s, boot, events) && LastShutdownKind(shown, TextOf(boot)) == Some(s.category)
  {
    SortKeeps(Timeline(events), NewerFirst);
    LastShutdownIsNewest(shown, TextOf(boot));
    var x :| x in shown && Candidate(x, TextOf(boot)) && LastShutdownKind(shown, TextOf(boot)) == Some(x.category)
             && forall f :: f in shown && Candidate(f, TextOf(boot)) ==> !Earlier(x.time, f.time);
    s := TimelineEvents(events, x);
    CandidateIsEligible(s, boot);
    forall e | e in events && Kept(e, events) && Eligible(e, boot) ensures !Sooner(s.instant, e.instant) {
      CandidateIsEligible(e, boot);
      assert Recorded(e) in shown;
      SoonerIsEarlier(s.instant, e.instant);
    }
  }

  /**
   * The summary is right in time: its boot is a newest one, and the reported kind is that of a latest
   * shutdown not after it (of a latest shutdown at all when no boot is known); there is none only if no
   * such event was kept.
   */
  ghost predicate AnswersWith(events: seq<Event>, boot: Option<Instant>)
    requires Stamped(events)
  {
    var shown := NewestFirst(Timeline(events));
    && Printable(boot) && IsNewestBoot(boot, events) && FirstBootTime(shown) == TextOf(boot)
    && match LastShutdownKind(shown, FirstBootTime(shown))
       case None => forall e :: e in events && Kept(e, events) ==> !Eligible(e, boot)
       case Some(c) => exists s :: IsLatestShutdown(s, boot, events) && s.category == c
  }

  ghost predicate Chronological(events: seq<Event>)
    requires Stamped(events)
  {
    exists boot :: AnswersWith(events, boot)
  }

  /** Comparing text finds the chronologically right answer on a log without clashes. */
  lemma LastShutdownIsChronological(events: seq<Event>) returns (boot: Option<Instant>)
    requires ReadableLog(events)
    ensures AnswersWith(events, boot)
  {
    var shown := NewestFirst(Timeline(events));
    boot := NewestBootFound(events, shown);
    SortKeeps(Timeline(events), NewerFirst);
    LastShutdownIsNewest(shown, TextOf(boot));
    forall e | e in events && Kept(e, events)
      ensures Recorded(e) in shown && (Candidate(Recorded(e), TextOf(boot)) <==> Eligible(e, boot))
    {
      CandidateIsEligible(e, boot);
    }
    if LastShutdownKind(shown, TextOf(boot)).Some? {
      var s := LatestFound(events, shown, boot);
    }
  }

  /** A shutdown and a boot that both have times and no record ids, and nothing else. */
  function ShutdownThenBoot(a: Instant, b: Instant): seq<Event> {
    [Event(CleanShutdown, Some(a), None), Event(Boot, Some(b), None)]
  }

  lemma PairIsShown(a: Instant, b: Instant)
    ensures var events := ShutdownThenBoot(a, b);
            var shown := NewestFirst(Timeline(events));
            && Ordered(shown, NewerFirst)
            && forall x :: x in shown <==> x == Recorded(events[0]) || x == Recorded(events[1])
  {
    var events := ShutdownThenBoot(a, b);
    var entries := RecordedAll(events);
    NewerFirstCompares();
    SortOrdered(Timeline(events), NewerFirst);
    SortKeeps(Timeline(events), NewerFirst);
    assert entries[0] == Recorded(events[0]) && entries[1] == Recorded(events[1]);
    forall x ensures x in Timeline(events) <==> x in entries {
      KeptExactly(entries, x);
    }
  }

  /** Of a shutdown and a boot whose text is less, nothing but the boot is reported. */
  lemma ShutdownAfterBoot(shown: seq<Entry>, s: Entry, b: Entry)
    requires Ordered(shown, NewerFirst) && (forall x :: x in shown <==> x == s || x == b)
    requires IsShutdown(s.category) && b.category.Boot? && s.time.Some? && b.time.Some?
               && Less(b.time.value, s.time.value)
    ensures FirstBootTime(shown) == b.time && LastShutdownKind(shown, b.time) == None
  {
    assert b in shown;
    FirstBootIsNewest(shown);
    assert FirstBootTime(shown).Some?;
    LastShutdownIsNewest(shown, b.time);
    forall e | e in shown ensures !Candidate(e, b.time) {
    }
  }

  /**
   * What is shown of two clashing events: the shutdown, whose stamp has fewer digits, is taken to be after the
   * boot.
   */
  lemma ClashIsMisread(a: Instant, b: Instant)
    requires IsStamp(a) && IsStamp(b) && a.secs == b.secs && a.fraction < b.fraction
    ensures var shown := NewestFirst(Timeline(ShutdownThenBoot(a, b)));
            FirstBootTime(shown) == Some(StampText(b)) && LastShutdownKind(shown, FirstBootTime(shown)) == None
  {
    var events := ShutdownThenBoot(a, b);
    PairIsShown(a, b);
    LongerSortsFirst(a, b);
    ShutdownAfterBoot(NewestFirst(Timeline(events)), Recorded(events[0]), Recorded(events[1]));
  }

  lemma PairIsKept(a: Instant, b: Instant)
    ensures forall e :: e in ShutdownThenBoot(a, b) ==> Kept(e, ShutdownThenBoot(a, b))
  {
    var events := ShutdownThenBoot(a, b);
    PairIsShown(a, b);
    SortKeeps(Timeline(events), NewerFirst);
    assert Recorded(events[0]) in NewestFirst(Timeline(events)) && Recorded(events[1]) in NewestFirst(Timeline(events));
  }

  lemma OnlyBoot(a: Instant, b: Instant, boot: Option<Instant>)
    requires IsStamp(a) && IsStamp(b) && Printable(boot) && boot.Some? && IsNewestBoot(boot, ShutdownThenBoot(a, b))
    ensures boot == Some(b)
  {
  }

  lemma MisreadIsWrong(a: Instant, b: Instant, boot: Option<Instant>)
    requires IsStamp(a) && IsStamp(b) && a.secs == b.secs && a.fraction < b.fraction
    requires var shown := NewestFirst(Timeline(ShutdownThenBoot(a, b)));
             FirstBootTime(shown) == Some(StampText(b)) && LastShutdownKind(shown, FirstBootTime(shown)) == None
    ensures !AnswersWith(ShutdownThenBoot(a, b), boot)
  {
    var events := ShutdownThenBoot(a, b);
    PairIsKept(a, b);
    LongerSortsFirst(a, b);
    assert events[0] in events && Eligible(events[0], Some(b));
    if boot.Some? && Printable(boot) && IsNewestBoot(boot, events) {
      OnlyBoot(a, b, boot);
    }
  }

  /** Then the summary is wrong: the shutdown is not after the boot, and no shutdown is reported. */
  lemma ClashMisleads(a: Instant, b: Instant)
    requires IsStamp(a) && IsStamp(b) && a.secs == b.secs && a.fraction < b.fraction
    ensures Stamped(ShutdownThenBoot(a, b)) && !Chronological(ShutdownThenBoot(a, b))
  {
    ClashIsMisread(a, b);
    forall boot ensures !AnswersWith(ShutdownThenBoot(a, b), boot) {
      MisreadIsWrong(a, b, boot);
    }
  }

  predicate LogOver(events: seq<Event>, stamps: set<Instant>) {
    Stamped(events) && forall e :: e in events && e.instant.Some? ==> e.instant.value in stamps
  }

  ghost predicate NoneClash(stamps: set<Instant>) {
    forall a, b :: a in stamps && b in stamps ==> !Clash(a, b)
  }

  /** Every log over a set of stamps is answered rightly if and only if no two of the stamps clash. */
  lemma StampsDecide(stamps: set<Instant>)
    requires forall t :: t in stamps ==> IsStamp(t)
    ensures (forall events :: LogOver(events, stamps) ==> Chronological(events)) <==> NoneClash(stamps)
  {
    if NoneClash(stamps) {
      forall events | LogOver(events, stamps) ensures Chronological(events) {
        var boot := LastShutdownIsChronological(events);
      }
    } else {
      var a, b :| a in stamps && b in stamps && Clash(a, b);
      var first, second := if |a.fraction| < |b.fraction| then a else b, if |a.fraction| < |b.fraction| then b else a;
      ClashMisleads(first, second);
      assert LogOver(ShutdownThenBoot(first, second), stamps);
    }
  }

  /** A log stamped by the program itself is always answered rightly, up to the end of year 9999. */
  lemma OwnStampsAreChronological(events: seq<Event>, times: seq<int>)
    requires |times| == |events|
    requires forall i :: 0 <= i < |events| ==>
               Millis(times[i]) < Y10K_MILLIS && events[i].instant == Some(Printed(times[i]))
    ensures forall i :: 0 <= i < |events| ==> Recorded(events[i]).time == Some(FormatRfc3339(times[i]))
    ensures Stamped(events) && Chronological(events)
  {
    forall i | 0 <= i < |events|
      ensures Recorded(events[i]).time == Some(FormatRfc3339(times[i]))
      ensures IsStamp(Printed(times[i])) && |Printed(times[i]).fraction| == 3
    {
      FormatIsStamp(times[i]);
    }
    forall e | e in events ensures Printable(e.instant) && |e.instant.value.fraction| == 3 {
    }
    var boot := LastShutdownIsChronological(events);
  }
}
