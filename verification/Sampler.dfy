/** The deadline-scheduled sampler of src/tools/workflows.rs and the resolver of its parameters. */
module Sampler {
  import opened Numbers
  import opened Wrappers

  const MS := 1_000_000
  const TREND_MIN_MS := 200
  const U64 := 0x1_0000_0000_0000_0000

  // ---------------------------------------------------------------------------------------------
  // Parameters.

  datatype TrendsConfig = TrendsConfig(maxWindow: nat, defaultInterval: nat, maxSamples: nat)

  datatype TrendArgs = TrendArgs(window: Option<nat>, interval: Option<nat>, samples: Option<nat>)

  datatype TrendParams = TrendParams(window: nat, interval: nat, samples: nat)

  datatype ClampNote =
    | WindowClamped(req: nat, got: nat)
    | IntervalClamped(req: nat, got: nat)
    | SamplesClamped(req: nat, got: nat)

  function OrElse(o: Option<nat>, default: nat): nat { if o.Some? then o.value else default }

  /** `Ord::clamp`, which needs low <= high. */
  function Clamp(x: nat, low: nat, high: nat): nat
    requires low <= high
  {
    if x < low then low else if x > high then high else x
  }

  function Budget(window: nat, interval: nat): nat
    requires interval > 0
  {
    Max(window / interval, 1) + 1
  }

  function Resolved(args: TrendArgs, cfg: TrendsConfig): TrendParams {
    var window := Clamp(OrElse(args.window, (cfg.defaultInterval * 2) % U64), TREND_MIN_MS,
      Max(cfg.maxWindow, TREND_MIN_MS));
    var interval := Clamp(OrElse(args.interval, cfg.defaultInterval), TREND_MIN_MS, window);
    var budget := Budget(window, interval);
    TrendParams(window, interval, Min(Clamp(OrElse(args.samples, budget), 2, Max(cfg.maxSamples, 2)), budget))
  }

  predicate InBounds(p: TrendParams, cfg: TrendsConfig) {
    && TREND_MIN_MS <= p.interval <= p.window <= Max(cfg.maxWindow, TREND_MIN_MS)
    && 2 <= p.samples <= Min(Max(cfg.maxSamples, 2), p.window / p.interval + 1)
  }

  lemma QuotientAtLeastOne(a: nat, b: nat)
    requires 0 < b <= a
    ensures a / b >= 1 && (a / b) * b <= a
  {
    assert a == b * (a / b) + a % b && a % b < b;
  }

  lemma ResolvedInBounds(args: TrendArgs, cfg: TrendsConfig)
    ensures InBounds(Resolved(args, cfg), cfg)
  {
    var p := Resolved(args, cfg);
    QuotientAtLeastOne(p.window, p.interval);
  }

  method ResolveTrendParams(args: TrendArgs, cfg: TrendsConfig) returns (params: TrendParams, notes: seq<ClampNote>)
    ensures params == Resolved(args, cfg)
    ensures InBounds(params, cfg)
    ensures WindowClamped(OrElse(args.window, (cfg.defaultInterval * 2) % U64), params.window) in notes
            <==> OrElse(args.window, (cfg.defaultInterval * 2) % U64) != params.window
    ensures IntervalClamped(OrElse(args.interval, cfg.defaultInterval), params.interval) in notes
            <==> OrElse(args.interval, cfg.defaultInterval) != params.interval
    ensures SamplesClamped(OrElse(args.samples, Budget(params.window, params.interval)), params.samples) in notes
            <==> OrElse(args.samples, Budget(params.window, params.interval)) != params.samples
    ensures args == TrendArgs(Some(params.window), Some(params.interval), Some(params.samples)) ==> notes == []
  {
    notes := [];
    var requestedWindow := OrElse(args.window, (cfg.defaultInterval * 2) % U64);
    var windowMax := Max(cfg.maxWindow, TREND_MIN_MS);
    var window := Clamp(requestedWindow, TREND_MIN_MS, windowMax);
    if requestedWindow != window {
      notes := notes + [WindowClamped(requestedWindow, window)];
    }
    var requestedInterval := OrElse(args.interval, cfg.defaultInterval);
    var interval := Clamp(requestedInterval, TREND_MIN_MS, window);
    if requestedInterval != interval {
      notes := notes + [IntervalClamped(requestedInterval, interval)];
    }
    var maxSamples := Max(cfg.maxSamples, 2);
    var budget := Max(window / interval, 1) + 1;
    var requestedSamples := OrElse(args.samples, budget);
    var samples := Min(Clamp(requestedSamples, 2, maxSamples), budget);
    if requestedSamples != samples {
      notes := notes + [SamplesClamped(requestedSamples, samples)];
    }
    params := TrendParams(window, interval, samples);
    ResolvedInBounds(args, cfg);
  }

  /** Parameters within the bounds resolve to themselves. */
  lemma ResolvedIsStable(p: TrendParams, cfg: TrendsConfig)
    requires InBounds(p, cfg)
    ensures Resolved(TrendArgs(Some(p.window), Some(p.interval), Some(p.samples)), cfg) == p
  {
    QuotientAtLeastOne(p.window, p.interval);
  }

  /** Resolving the parameters that a resolution gave changes nothing. */
  lemma ResolvingTwice(args: TrendArgs, cfg: TrendsConfig)
    ensures var p := Resolved(args, cfg);
            Resolved(TrendArgs(Some(p.window), Some(p.interval), Some(p.samples)), cfg) == p
  {
    ResolvedInBounds(args, cfg);
    ResolvedIsStable(Resolved(args, cfg), cfg);
  }

  lemma ProductMonotone(a: nat, b: nat, c: nat)
    requires a <= b
    ensures a * c <= b * c
  {
  }

  /** The last scheduled sample of resolved parameters lies within the window. */
  lemma LastTargetFits(p: TrendParams, cfg: TrendsConfig)
    requires InBounds(p, cfg)
    ensures (p.samples - 1) * p.interval <= p.window
  {
    QuotientAtLeastOne(p.window, p.interval);
    ProductMonotone(p.samples - 1, p.window / p.interval, p.interval);
  }

  // ---------------------------------------------------------------------------------------------
  // One run against a clock. Times are nanoseconds from the start of the observation.

  datatype Measurement = Value(v: real) | NoValue | Failed(message: string)

  /** The clock readings of one loop turn: at the top, after the measurement, and before scheduling the next. */
  datatype Turn = Turn(before: nat, done: nat, after: nat, measured: Measurement)

  datatype Note = NoValueOn(sample: nat) | SampleError(message: string) | DeadlineReached | IntervalOverrun

  /** Offset of the i-th scheduled sample: i intervals, summed up so that the loop's proof stays linear. */
  function Target(i: nat, interval: nat): nat { if i == 0 then 0 else Target(i - 1, interval) + interval * MS }

  lemma {:induction false} TargetIsProduct(i: nat, interval: nat)
    ensures Target(i, interval) == i * interval * MS
  {
    if i > 0 {
      TargetIsProduct(i - 1, interval);
    }
  }

  /** The clock never goes back, and a sleep to the next target never wakes before it. */
  ghost predicate Clock(turns: seq<Turn>, interval: nat, window: nat) {
    && (forall i :: 0 <= i < |turns| ==> turns[i].before <= turns[i].done <= turns[i].after)
    && (forall i :: 0 < i < |turns| ==> turns[i - 1].after <= turns[i].before)
    && (forall i :: 0 < i < |turns| ==>
          turns[i - 1].after < Target(i, interval) <= window * MS ==> Target(i, interval) <= turns[i].before)
  }

  /** Measurements shorter than the interval, and sleeps that end on the dot. */
  ghost predicate Prompt(turns: seq<Turn>, interval: nat, window: nat) {
    && (forall i :: 0 <= i < |turns| ==> turns[i].before == Target(i, interval))
    && (forall i :: 0 <= i < |turns| ==> turns[i].after < Target(i + 1, interval))
  }

  predicate MayStart(t: Turn, target: nat, deadline: nat) { t.before < deadline || target >= deadline }

  /** After sample i the loop does not stop: time is left, and the next sample is scheduled within the window. */
  predicate GoesOn(turns: seq<Turn>, i: nat, interval: nat, deadline: nat)
    requires i < |turns|
  {
    turns[i].after < deadline && Target(i + 1, interval) <= deadline
  }

  /** The next sample's slot is already past, but the deadline is not. */
  predicate Overruns(turns: seq<Turn>, i: nat, interval: nat, deadline: nat)
    requires i < |turns|
  {
    Target(i + 1, interval) <= turns[i].after < deadline
  }

  /** Some sample before the n-th overran the slot of its successor. */
  predicate AnyOverrun(turns: seq<Turn>, n: nat, interval: nat, deadline: nat)
    requires n <= |turns|
  {
    n > 0 && (AnyOverrun(turns, n - 1, interval, deadline)
      || (n < |turns| && Overruns(turns, n - 1, interval, deadline)))
  }

  /** How many samples a run takes that has reached the top of turn i. */
  function Attempts(turns: seq<Turn>, i: nat, interval: nat, deadline: nat): (n: nat)
    requires i <= |turns|
    ensures i <= n <= |turns|
    decreases |turns| - i
  {
    if i == |turns| || !MayStart(turns[i], Target(i, interval), deadline) then i
    else if i + 1 < |turns| && GoesOn(turns, i, interval, deadline) then Attempts(turns, i + 1, interval, deadline)
    else i + 1
  }

  function Points(turns: seq<Turn>): seq<(nat, real)> {
    if turns == [] then [] else
      var t := turns[|turns| - 1];
      Points(turns[..|turns| - 1]) + (if t.measured.Value? then [(t.done / MS, t.measured.v)] else [])
  }

  /** The notes about missing values and errors. */
  function Reports(turns: seq<Turn>): seq<Note> {
    if turns == [] then [] else
      var n := |turns| - 1;
      Reports(turns[..n]) +
      match turns[n].measured
      case Value(_) => []
      case NoValue => [NoValueOn(n + 1)]
      case Failed(m) => [SampleError(m)]
  }

  predicate Scheduling(n: Note) { n == DeadlineReached || n == IntervalOverrun }

  function WithoutScheduling(notes: seq<Note>): seq<Note> {
    if notes == [] then [] else
      var n := |notes| - 1;
      WithoutScheduling(notes[..n]) + (if Scheduling(notes[n]) then [] else [notes[n]])
  }

  function Count(notes: seq<Note>, x: Note): nat {
    if notes == [] then 0 else
      var n := |notes| - 1;
      Count(notes[..n], x) + (if notes[n] == x then 1 else 0)
  }

  lemma Pushed(notes: seq<Note>, n: Note)
    ensures WithoutScheduling(notes + [n]) == WithoutScheduling(notes) + (if Scheduling(n) then [] else [n])
    ensures forall x :: Count(notes + [n], x) == Count(notes, x) + (if n == x then 1 else 0)
  {
    assert (notes + [n])[..|notes|] == notes;
  }

  lemma {:induction false} PointsAndReports(turns: seq<Turn>)
    ensures |Points(turns)| + |Reports(turns)| == |turns|
  {
    if turns != [] {
      PointsAndReports(turns[..|turns| - 1]);
    }
  }

  /** Recorded times never go back. */
  lemma {:induction false} PointsNondecreasing(turns: seq<Turn>)
    requires forall i :: 0 < i < |turns| ==> turns[i - 1].done <= turns[i].done
    ensures forall i, j :: 0 <= i < j < |Points(turns)| ==> Points(turns)[i].0 <= Points(turns)[j].0
    ensures forall i :: 0 <= i < |Points(turns)| ==> turns != [] && Points(turns)[i].0 <= turns[|turns| - 1].done / MS
  {
    if turns != [] {
      var n := |turns| - 1;
      var init, t := turns[..n], turns[n];
      PointsNondecreasing(init);
      if n > 0 {
        assert turns[n - 1].done <= t.done && init[|init| - 1] == turns[n - 1];
        assert turns[n - 1].done / MS <= t.done / MS;
      }
      forall i | 0 <= i < |Points(turns)| ensures Points(turns)[i].0 <= t.done / MS {
        if i < |Points(init)| {
          assert Points(turns)[i] == Points(init)[i];
        }
      }
    } else {
      assert Points(turns) == [];
    }
  }

  /**
   * The schedule, for every clock: no sample starts before its slot, none starts at or after the
   * deadline unless its slot is the deadline itself, and none is scheduled past the window.
   */
  lemma {:induction false} AttemptsKeepSchedule(turns: seq<Turn>, i: nat, interval: nat, window: nat)
    requires Clock(turns, interval, window) && i <= |turns|
    requires i < |turns| ==> Target(i, interval) <= turns[i].before && Target(i, interval) <= window * MS
    ensures forall k :: i <= k < Attempts(turns, i, interval, window * MS) ==>
              && Target(k, interval) <= turns[k].before && Target(k, interval) <= window * MS
              && (turns[k].before < window * MS || Target(k, interval) == window * MS)
    decreases |turns| - i
  {
    if i + 1 < |turns| && GoesOn(turns, i, interval, window * MS) {
      if turns[i].after < Target(i + 1, interval) {
        assert Target(i + 1, interval) <= turns[i + 1].before;
      }
      AttemptsKeepSchedule(turns, i + 1, interval, window);
    }
  }

  /** The run ends early only where the clock forces it to. */
  lemma {:induction false} AttemptsEndWhereForced(turns: seq<Turn>, i: nat, interval: nat, deadline: nat)
    requires i <= |turns|
    ensures var n := Attempts(turns, i, interval, deadline);
            && (forall k :: i <= k && k + 1 < n ==> GoesOn(turns, k, interval, deadline))
            && (n < |turns| ==>
                  !MayStart(turns[n], Target(n, interval), deadline)
                    || (i < n && !GoesOn(turns, n - 1, interval, deadline)))
    decreases |turns| - i
  {
    if i + 1 < |turns| && GoesOn(turns, i, interval, deadline) {
      AttemptsEndWhereForced(turns, i + 1, interval, deadline);
    }
  }

  lemma {:induction false} PromptNeverOverruns(turns: seq<Turn>, n: nat, interval: nat, window: nat)
    requires Prompt(turns, interval, window) && n <= |turns|
    ensures !AnyOverrun(turns, n, interval, window * MS)
  {
    if n > 0 {
      PromptNeverOverruns(turns, n - 1, interval, window);
      assert turns[n - 1].after < Target(n - 1 + 1, interval);
    }
  }

  lemma {:induction false} TargetsGrow(i: nat, j: nat, interval: nat)
    requires i <= j
    ensures Target(i, interval) <= Target(j, interval)
  {
    if i < j { TargetsGrow(i, j - 1, interval); }
  }

  /** Prompt measurements and exact sleeps: every sample that fits the window is taken, none behind its slot. */
  lemma {:induction false} PromptTakesAll(turns: seq<Turn>, i: nat, interval: nat, window: nat)
    requires Prompt(turns, interval, window) && i <= |turns|
    requires |turns| > 0 ==> Target(|turns| - 1, interval) <= window * MS
    ensures Attempts(turns, i, interval, window * MS) == |turns|
    ensures !AnyOverrun(turns, i, interval, window * MS)
    decreases |turns| - i
  {
    if i < |turns| {
      TargetsGrow(i, |turns| - 1, interval);
      if i + 1 < |turns| {
        TargetsGrow(i + 1, |turns| - 1, interval);
      }
      PromptTakesAll(turns, i + 1, interval, window);
    }
    PromptNeverOverruns(turns, i, interval, window);
  }

  /** One measurement becomes a point or a note. */
  method Record(turns: seq<Turn>, i: nat, points: seq<(nat, real)>, notes: seq<Note>)
    returns (points': seq<(nat, real)>, notes': seq<Note>)
    requires i < |turns| && points == Points(turns[..i]) && WithoutScheduling(notes) == Reports(turns[..i])
    ensures points' == Points(turns[..i + 1]) && WithoutScheduling(notes') == Reports(turns[..i + 1])
    ensures forall x :: Scheduling(x) ==> Count(notes', x) == Count(notes, x)
  {
    points', notes' := points, notes;
    assert turns[..i + 1][..i] == turns[..i];
    match turns[i].measured {
      case Value(v) =>
        points' := points + [(turns[i].done / MS, v)];
      case NoValue =>
        Pushed(notes, NoValueOn(i + 1));
        notes' := notes + [NoValueOn(i + 1)];
      case Failed(m) =>
        Pushed(notes, SampleError(m));
        notes' := notes + [SampleError(m)];
    }
  }

  /** What the loop has produced when it stands at the top of turn i. */
  ghost predicate Produced(turns: seq<Turn>, i: nat, interval: nat, deadline: nat,
                           points: seq<(nat, real)>, notes: seq<Note>, overrunReported: bool)
    requires i <= |turns|
  {
    && points == Points(turns[..i]) && WithoutScheduling(notes) == Reports(turns[..i])
    && Count(notes, IntervalOverrun) == (if overrunReported then 1 else 0)
    && (overrunReported <==> AnyOverrun(turns, i, interval, deadline))
  }

  /** After a measurement: stop, go on at once because the slot has passed, or sleep. */
  datatype Next = Late | Behind | CutSleep | SleepOn

  function Plan(after: nat, nextTarget: nat, deadline: nat): Next {
    if after >= deadline then Late
    else if after >= nextTarget then Behind
    else if nextTarget - after > deadline - after then CutSleep
    else SleepOn
  }

  /** Where the loop stands: stopped or not, before turn `attempts`. */
  ghost predicate Sampling(turns: seq<Turn>, attempts: nat, interval: nat, deadline: nat, points: seq<(nat, real)>,
                           notes: seq<Note>, overrunReported: bool, stopped: bool, cutSleep: bool)
    requires attempts <= |turns|
  {
    && Produced(turns, attempts, interval, deadline, points, notes, overrunReported)
    && Count(notes, DeadlineReached) == (if stopped then 1 else 0)
    && Attempts(turns, 0, interval, deadline)
       == (if stopped then attempts else Attempts(turns, attempts, interval, deadline))
    && (stopped ==> attempts < |turns|)
    && (cutSleep ==> stopped && 0 < attempts && Target(attempts, interval) > deadline)
  }

  /** What is planned after a measurement decides how the run goes on. */
  lemma TurnTaken(turns: seq<Turn>, i: nat, interval: nat, deadline: nat)
    requires i < |turns| && MayStart(turns[i], Target(i, interval), deadline)
    ensures var next := Plan(turns[i].after, Target(i + 1, interval), deadline);
            && (i + 1 < |turns| && (next == Behind || next == SleepOn) ==>
                  Attempts(turns, i, interval, deadline) == Attempts(turns, i + 1, interval, deadline))
            && (i + 1 == |turns| || next == Late || next == CutSleep ==>
                  Attempts(turns, i, interval, deadline) == i + 1)
            && (AnyOverrun(turns, i + 1, interval, deadline) <==>
                  AnyOverrun(turns, i, interval, deadline) || (i + 1 < |turns| && next == Behind))
            && (next == CutSleep ==> Target(i + 1, interval) > deadline)
    ensures i + 1 == |turns| ==> Attempts(turns, i + 1, interval, deadline) == i + 1
  {
  }

  /** The end of the loop body, after the measurement of turn `attempts`: what is planned for the next one. */
  method PlanNext(turns: seq<Turn>, attempts: nat, interval: nat, deadline: nat, points: seq<(nat, real)>,
                  notes: seq<Note>, overrunReported: bool)
    returns (notes': seq<Note>, reported: bool, stopped: bool, cutSleep: bool)
    requires attempts < |turns| && MayStart(turns[attempts], Target(attempts, interval), deadline)
    requires points == Points(turns[..attempts + 1]) && WithoutScheduling(notes) == Reports(turns[..attempts + 1])
    requires Count(notes, DeadlineReached) == 0 && Count(notes, IntervalOverrun) == (if overrunReported then 1 else 0)
    requires overrunReported <==> AnyOverrun(turns, attempts, interval, deadline)
    requires Attempts(turns, 0, interval, deadline) == Attempts(turns, attempts, interval, deadline)
    ensures Sampling(turns, attempts + 1, interval, deadline, points, notes', reported, stopped, cutSleep)
  {
    notes', reported, stopped, cutSleep := notes, overrunReported, false, false;
    TurnTaken(turns, attempts, interval, deadline);
    if attempts + 1 < |turns| {
      var next := Plan(turns[attempts].after, Target(attempts + 1, interval), deadline);
      if next == Late || next == CutSleep {
        Pushed(notes, DeadlineReached);
        notes', stopped, cutSleep := notes + [DeadlineReached], true, next == CutSleep;
      } else if next == Behind && !overrunReported {
        Pushed(notes, IntervalOverrun);
        notes', reported := notes + [IntervalOverrun], true;
      }
    }
  }

  /**
   * The loop. The readings are an input: any nondecreasing clock, any measurement and oversleep.
   * `attempts` is the number of samples taken and `cutSleep` tells of the branch that sleeps to the
   * deadline and stops.
   */
  method CollectTrendSamples(turns: seq<Turn>, samples: nat, interval: nat, window: nat)
    returns (points: seq<(nat, real)>, notes: seq<Note>, attempts: nat, cutSleep: bool)
    requires |turns| == samples
    ensures attempts == Attempts(turns, 0, interval, window * MS)
    // Accounting: every attempt leaves its point or its note, in order.
    ensures points == Points(turns[..attempts]) && WithoutScheduling(notes) == Reports(turns[..attempts])
    ensures |points| + |WithoutScheduling(notes)| == attempts
    // Scheduling notes.
    ensures Count(notes, DeadlineReached) == if attempts < samples then 1 else 0
    ensures Count(notes, IntervalOverrun) == if AnyOverrun(turns, attempts, interval, window * MS) then 1 else 0
    ensures cutSleep ==> 0 < attempts < samples && Target(attempts, interval) > window * MS
  {
    points, notes, attempts, cutSleep := [], [], 0, false;
    var deadline := window * MS;
    var overrunReported := false;
    var stopped := false;
    while attempts < samples && !stopped
      invariant attempts <= samples
      invariant Sampling(turns, attempts, interval, deadline, points, notes, overrunReported, stopped, cutSleep)
      decreases samples - attempts, !stopped
    {
      if !MayStart(turns[attempts], Target(attempts, interval), deadline) {
        Pushed(notes, DeadlineReached);
        notes, stopped := notes + [DeadlineReached], true;
      } else {
        points, notes := Record(turns, attempts, points, notes);
        notes, overrunReported, stopped, cutSleep :=
          PlanNext(turns, attempts, interval, deadline, points, notes, overrunReported);
        attempts := attempts + 1;
      }
    }
    PointsAndReports(turns[..attempts]);
  }

  /** Resolved parameters leave every slot within the window. */
  lemma SlotsFit(p: TrendParams, cfg: TrendsConfig, k: nat)
    requires InBounds(p, cfg) && k < p.samples
    ensures Target(k, p.interval) <= p.window * MS
  {
    LastTargetFits(p, cfg);
    TargetIsProduct(p.samples - 1, p.interval);
    TargetsGrow(k, p.samples - 1, p.interval);
  }

  /** The schedule with slots written as products. */
  lemma ScheduleInProducts(clock: seq<Turn>, interval: nat, window: nat, k: nat)
    requires Clock(clock, interval, window) && k < Attempts(clock, 0, interval, window * MS)
    ensures k * interval * MS <= clock[k].before && k * interval <= window
    ensures clock[k].before < window * MS || k * interval == window
  {
    AttemptsKeepSchedule(clock, 0, interval, window);
    TargetIsProduct(k, interval);
  }

  lemma SlotsBelow(k: nat, interval: nat, window: nat)
    requires interval > 0 && k * interval <= window
    ensures k <= window / interval
  {
    assert window == interval * (window / interval) + window % interval;
    if k > window / interval {
      ProductMonotone(window / interval + 1, k, interval);
    }
  }

  /** Whatever the parameters, a run takes no more samples than the window has slots. */
  lemma AttemptsFitWindow(clock: seq<Turn>, interval: nat, window: nat)
    requires interval > 0 && Clock(clock, interval, window)
    ensures Attempts(clock, 0, interval, window * MS) <= window / interval + 1
  {
    var n := Attempts(clock, 0, interval, window * MS);
    if n > 0 {
      ScheduleInProducts(clock, interval, window, n - 1);
      SlotsBelow(n - 1, interval, window);
    }
  }

  lemma {:induction false} NoSchedulingNotes(notes: seq<Note>)
    requires Count(notes, DeadlineReached) == 0 && Count(notes, IntervalOverrun) == 0
    ensures WithoutScheduling(notes) == notes
  {
    if notes != [] {
      NoSchedulingNotes(notes[..|notes| - 1]);
    }
  }

  lemma PromptRun(clock: seq<Turn>, p: TrendParams, cfg: TrendsConfig, notes: seq<Note>, attempts: nat)
    requires InBounds(p, cfg) && |clock| == p.samples && Prompt(clock, p.interval, p.window)
    requires attempts == Attempts(clock, 0, p.interval, p.window * MS)
    requires WithoutScheduling(notes) == Reports(clock[..attempts])
    requires Count(notes, DeadlineReached) == if attempts < p.samples then 1 else 0
    requires Count(notes, IntervalOverrun) == if AnyOverrun(clock, attempts, p.interval, p.window * MS) then 1 else 0
    ensures attempts == p.samples && notes == Reports(clock)
  {
    SlotsFit(p, cfg, p.samples - 1);
    PromptTakesAll(clock, 0, p.interval, p.window);
    PromptNeverOverruns(clock, attempts, p.interval, p.window);
    assert clock[..attempts] == clock;
    NoSchedulingNotes(notes);
  }

  lemma DonesNeverGoBack(turns: seq<Turn>, interval: nat, window: nat)
    requires Clock(turns, interval, window)
    ensures forall i :: 0 < i < |turns| ==> turns[i - 1].done <= turns[i].done
  {
    forall i | 0 < i < |turns| ensures turns[i - 1].done <= turns[i].done {
      assert turns[i - 1].done <= turns[i - 1].after <= turns[i].before;
    }
  }

  /**
   * A run on any parameters and any clock: everything the sampler promises, on slots i * interval.
   * With parameters as the resolver leaves them the sleep is never cut, and a prompt run is complete.
   */
  method RunTrend(params: TrendParams, clock: seq<Turn>)
    returns (points: seq<(nat, real)>, notes: seq<Note>, attempts: nat, cutSleep: bool)
    requires |clock| == params.samples && Clock(clock, params.interval, params.window)
    ensures attempts <= params.samples
    ensures params.interval > 0 ==> attempts <= params.window / params.interval + 1
    ensures forall k :: 0 <= k < attempts ==>
              && k * params.interval * MS <= clock[k].before
              && (clock[k].before < params.window * MS || k * params.interval == params.window)
    ensures |points| + |WithoutScheduling(notes)| == attempts
    ensures Count(notes, DeadlineReached) == (if attempts < params.samples then 1 else 0)
              && Count(notes, IntervalOverrun) <= 1
    ensures forall i, j :: 0 <= i < j < |points| ==> points[i].0 <= points[j].0
    ensures forall cfg :: InBounds(params, cfg) ==> !cutSleep
    ensures forall cfg :: InBounds(params, cfg) && Prompt(clock, params.interval, params.window) ==>
              attempts == params.samples && notes == Reports(clock)
  {
    points, notes, attempts, cutSleep := CollectTrendSamples(clock, params.samples, params.interval, params.window);
    if params.interval > 0 {
      AttemptsFitWindow(clock, params.interval, params.window);
    }
    forall k | 0 <= k < attempts
      ensures k * params.interval * MS <= clock[k].before
              && (clock[k].before < params.window * MS || k * params.interval == params.window)
    {
      ScheduleInProducts(clock, params.interval, params.window, k);
    }
    DonesNeverGoBack(clock, params.interval, params.window);
    PointsNondecreasing(clock[..attempts]);
    forall cfg | InBounds(params, cfg) ensures !cutSleep {
      if attempts < params.samples {
        SlotsFit(params, cfg, attempts);
      }
    }
    forall cfg | InBounds(params, cfg) && Prompt(clock, params.interval, params.window)
      ensures attempts == params.samples && notes == Reports(clock)
    {
      PromptRun(clock, params, cfg, notes, attempts);
    }
  }

  // ---------------------------------------------------------------------------------------------
  // How far the loop falls behind.

  /** The first reading is the start; scheduling takes no time; sleeps end on the dot. */
  ghost predicate ExactSleeps(turns: seq<Turn>, interval: nat) {
    && (turns != [] ==> turns[0].before == 0)
    && (forall i :: 0 <= i < |turns| ==> turns[i].before <= turns[i].done == turns[i].after)
    && (forall i :: 0 < i < |turns| ==>
          turns[i].before == if turns[i - 1].after < Target(i, interval) then Target(i, interval)
            else turns[i - 1].after)
  }

  function Lateness(turns: seq<Turn>, i: nat, interval: nat): int
    requires i < |turns|
  {
    turns[i].before - Target(i, interval)
  }

  function Duration(t: Turn): int { t.done - t.before }

  /** By how much the measurements from j up to i exceed their intervals, taken together. */
  function Excess(turns: seq<Turn>, j: nat, i: nat, interval: nat): int
    requires j <= i <= |turns|
    decreases i
  {
    if i == j then 0 else Excess(turns, j, i - 1, interval) + Duration(turns[i - 1]) - interval * MS
  }

  /** Sample i is late by the largest excess of any run of measurements that ends just before it. */
  lemma {:induction false} LatenessIsWorstExcess(turns: seq<Turn>, i: nat, interval: nat) returns (worst: nat)
    requires ExactSleeps(turns, interval) && i < |turns|
    ensures worst <= i && Lateness(turns, i, interval) == Excess(turns, worst, i, interval)
    ensures forall j :: 0 <= j <= i ==> Excess(turns, j, i, interval) <= Lateness(turns, i, interval)
  {
    if i == 0 {
      worst := 0;
    } else {
      worst := LatenessIsWorstExcess(turns, i - 1, interval);
      forall j | 0 <= j < i
        ensures Excess(turns, j, i, interval)
                  == Excess(turns, j, i - 1, interval) + Duration(turns[i - 1]) - interval * MS
      {
      }
      if turns[i - 1].after < Target(i, interval) {
        worst := i;
      }
    }
  }

  /** "Never further behind than the measurement itself takes" holds exactly after a sample at most an interval late. */
  lemma NoFurtherBehind(turns: seq<Turn>, i: nat, interval: nat)
    requires ExactSleeps(turns, interval) && i + 1 < |turns|
    ensures Lateness(turns, i + 1, interval) <= Duration(turns[i]) <==> Lateness(turns, i, interval) <= interval * MS
  {
  }

  /** The readings of three measurements of three milliseconds each, at an interval of one. */
  function SlowTurns(v: real): seq<Turn> {
    [
      Turn(0, 3 * MS, 3 * MS, Value(v)), Turn(3 * MS, 6 * MS, 6 * MS, Value(v)), Turn(6 * MS, 9 * MS, 9 * MS, Value(v))
    ]
  }

  lemma SlowTargets()
    ensures Target(0, 1) == 0 && Target(1, 1) == MS && Target(2, 1) == 2 * MS && Target(3, 1) == 3 * MS
  {
    TargetIsProduct(1, 1);
    TargetIsProduct(2, 1);
    TargetIsProduct(3, 1);
  }

  lemma SlowAttempts(v: real)
    ensures Attempts(SlowTurns(v), 0, 1, 10 * MS) == 3
  {
    var turns := SlowTurns(v);
    SlowTargets();
    assert Attempts(turns, 2, 1, 10 * MS) == 3;
    assert GoesOn(turns, 1, 1, 10 * MS);
    assert Attempts(turns, 1, 1, 10 * MS) == 3;
    assert GoesOn(turns, 0, 1, 10 * MS);
  }

  lemma SlowPoints(v: real)
    ensures Points(SlowTurns(v)) == [(3, v), (6, v), (9, v)]
  {
    var turns := SlowTurns(v);
    assert turns[..2][..1] == turns[..1] && turns[..1][..0] == [];
    assert Points(turns[..1]) == [(3, v)];
    assert Points(turns[..2]) == [(3, v), (6, v)];
  }

  lemma SlowClock(v: real)
    ensures ExactSleeps(SlowTurns(v), 1) && Clock(SlowTurns(v), 1, 10)
    ensures Lateness(SlowTurns(v), 2, 1) == 4 * MS && Duration(SlowTurns(v)[1]) == 3 * MS
  {
    SlowTargets();
  }

  /** A run in which lateness adds up: before the third sample the loop is behind by more than a measurement takes. */
  method FallsFurtherBehind(v: real) returns (points: seq<(nat, real)>, notes: seq<Note>, attempts: nat)
    ensures ExactSleeps(SlowTurns(v), 1) && Clock(SlowTurns(v), 1, 10)
    ensures attempts == 3 && points == [(3, v), (6, v), (9, v)]
    ensures Lateness(SlowTurns(v), 2, 1) == 4 * MS > Duration(SlowTurns(v)[1])
  {
    var turns := SlowTurns(v);
    var cutSleep;
    SlowAttempts(v);
    SlowPoints(v);
    SlowClock(v);
    points, notes, attempts, cutSleep := CollectTrendSamples(turns, 3, 1, 10);
    assert turns[..3] == turns;
  }
}
