/** What one process does to the store, in every mode. */
module Runs {
  import opened Environment
  import opened Store
  import opened WorkerPool
  import opened Recovery
  import opened Refinement
  import opened Wrappers

  /** What the operator asked for; a start or stop of 0 means "choose". */
  datatype Settings = Settings(start: nat, stop: nat, reIndex: bool, live: bool)

  function ShouldSkipMissingBlockCheck(c: Settings): bool {
    (c.start != 0 && c.stop != 0) || c.reIndex
  }

  /** Gaps are filled in every run but a re-indexing one and one with both ends configured. */
  ghost predicate FillsGaps(c: Settings) {
    !c.reIndex && (c.start == 0 || c.stop == 0)
  }

  /** The ranges are non-empty, follow one another without overlap, and together make up `start..current`. */
  ghost predicate Partition(ranges: seq<(nat, nat)>, start: nat, current: int) {
    if ranges == [] then current == start - 1
    else
      var (low, high) := ranges[|ranges| - 1];
      high == current && low <= high && Partition(ranges[..|ranges| - 1], start, low as int - 1)
  }

  /** Where a live run stands: what it has processed, and what it was told. */
  ghost predicate LiveState(w: World, start: nat, current: int, ranges: seq<(nat, nat)>, log: LiveLog, a: Mark,
    b: Mark)
  {
    match log
    case LiveLog(reports, _, _) =>
      LiveRanges(start, current, ranges, reports) && TrueLog(w, log, a, b)
  }

  /** It has come to the highest report, in ranges that end at reports. */
  ghost predicate LiveRanges(start: nat, current: int, ranges: seq<(nat, nat)>, reports: seq<nat>) {
    && Partition(ranges, start, current) && current == HighestOf(start - 1, reports)
    && forall i :: 0 <= i < |ranges| ==> ranges[i].1 in reports
  }

  lemma LiveRangesGrow(start: nat, current: nat, ranges: seq<(nat, nat)>, reports: seq<nat>, report: nat)
    requires LiveRanges(start, current, ranges, reports)
    ensures var next := if report > current then report else current;
            LiveRanges(start, next, WithRange(ranges, current, next), reports + [report])
  {
    assert (reports + [report])[..|reports|] == reports;
    if report > current {
      PartitionGrows(ranges, start, current, report);
    }
  }

  lemma LiveStateWidens(w: World, start: nat, current: int, ranges: seq<(nat, nat)>, log: LiveLog, a: Mark, b: Mark,
    c: Mark)
    requires LiveState(w, start, current, ranges, log, a, b) && Before(b, c)
    ensures LiveState(w, start, current, ranges, log, a, c)
  {
    TrueLogWidens(w, log, a, b, a, c);
  }

  lemma LiveEndWidens(w: World, current: nat, goal: nat, log: LiveLog, polls: nat, a: Mark, b: Mark, a': Mark)
    requires LiveEnd(w, current, goal, false, log, polls, a, b) && Before(a', a)
    ensures LiveEnd(w, current, goal, false, log, polls, a', b)
  {
    LiveFailureWidens(w, a, b, current, a', b);
    ToldWidens(w, a, b, goal, a');
  }

  /** The last look at the context found it done. */
  ghost predicate FoundDone(w: World, a: Mark, b: Mark) {
    a.ticks < b.ticks && w.node.done(b.ticks - 1)
  }

  /**
   Why a live run ended: all polls were made or the context was done, or a report or a height up to
   the one it then aimed at failed.
   */
  ghost predicate LiveEnd(w: World, current: nat, goal: nat, ok: bool, log: LiveLog, polls: nat, a: Mark, b: Mark) {
    match log
    case LiveLog(reports, _, _) =>
      if ok then goal == current && (|reports| == polls || FoundDone(w, a, b))
      else LiveFailed(w, a, b, current) && (goal == current || (current < goal < MAX_HEIGHT && WasTold(w, a, b, goal)))
  }

  function WithRange(ranges: seq<(nat, nat)>, current: nat, next: nat): seq<(nat, nat)> {
    if next > current then ranges + [(current + 1, next)] else ranges
  }

  lemma WithRangeAfter(before: seq<(nat, nat)>, ranges: seq<(nat, nat)>, current: nat, next: nat)
    ensures WithRange(before + ranges, current, next) == before + WithRange(ranges, current, next)
  {
  }

  lemma LiveStep(w: World, start: nat, current: nat, ranges: seq<(nat, nat)>, log: LiveLog, a: Mark, b: Mark, c: Mark,
    report: nat)
    requires LiveState(w, start, current, ranges, log, a, b)
    requires Before(b, c) && b.ticks < c.ticks && !w.node.done(b.ticks)
    requires LatestAt(w, b.calls) == Success(report) && b.calls + LatestCalls(w, b.calls) <= c.calls
    ensures var next := if report > current then report else current;
            var longer := LiveLog(log.reports + [report], log.asked + [b.calls], log.looks + [b.ticks]);
            LiveState(w, start, next, WithRange(ranges, current, next), longer, a, c)
  {
    TrueLogGrows(w, log, a, b, c, report);
    LiveRangesGrow(start, current, ranges, log.reports, report);
  }

  /** What a live run has done to the store, and handed to the worker pool, when it has made `k` polls. */
  ghost predicate LiveSoFar(w: World, start: nat, current: int, ranges: seq<(nat, nat)>, log: LiveLog, k: nat, a: Mark,
    b: Mark, first: set<nat>, now: set<nat>, before: seq<(nat, nat)>, dispatched: seq<(nat, nat)>)
  {
    match log
    case LiveLog(reports, _, _) =>
      && LiveState(w, start, current, ranges, log, a, b) && |reports| == k
      && start - 1 <= current && (current == start - 1 || current < MAX_HEIGHT)
      && GrewBy(first, now, start, current) && dispatched == before + ranges
  }

  lemma LiveBegins(w: World, start: nat, a: Mark, first: set<nat>, before: seq<(nat, nat)>)
    requires start > 0
    ensures LiveSoFar(w, start, start - 1, [], LiveLog([], [], []), 0, a, a, first, first, before, before)
  {
    assert before + [] == before;
  }

  lemma LiveGoesOn(w: World, start: nat, current: nat, ranges: seq<(nat, nat)>, log: LiveLog, k: nat, a: Mark, b: Mark,
    first: set<nat>, now: set<nat>, before: seq<(nat, nat)>, dispatched: seq<(nat, nat)>, next: nat, longer: LiveLog,
    c: Mark, later: set<nat>)
    requires LiveSoFar(w, start, current, ranges, log, k, a, b, first, now, before, dispatched)
    requires LiveState(w, start, next, WithRange(ranges, current, next), longer, a, c) && |longer.reports| == k + 1
    requires GrewBy(now, later, current + 1, next) && (next == current || current < next < MAX_HEIGHT)
    ensures LiveSoFar(w, start, next, WithRange(ranges, current, next), longer, k + 1, a, c, first, later, before,
                      WithRange(dispatched, current, next))
  {
    WithRangeAfter(before, ranges, current, next);
    GrewByBoth(first, now, later, start, current, next);
  }

  /**
   What a live run comes to. It has come to the highest report, in ranges that it handed to the worker
   pool, end at reports, partition `start..current` and are stored. If it ended with an error, a last
   range followed, up to `goal`, of which any part may be stored.
   */
  ghost predicate LiveOutcome(w: World, start: nat, current: int, goal: nat, ok: bool, polls: nat,
    ranges: seq<(nat, nat)>, log: LiveLog, a: Mark, b: Mark, first: set<nat>, now: set<nat>, before: seq<(nat, nat)>,
    dispatched: seq<(nat, nat)>)
  {
    match log
    case LiveLog(_, _, _) =>
      && 0 <= start - 1 <= current <= goal && (current == start - 1 || current < MAX_HEIGHT)
      && LiveState(w, start, current, ranges, log, a, b) && LiveEnd(w, current, goal, ok, log, polls, a, b)
      && dispatched == WithRange(before + ranges, current, goal)
      && first <= now && (forall h :: start <= h <= current ==> h in now)
      && forall h :: h in now ==> h in first || start <= h <= goal
  }

  lemma LiveStops(w: World, start: nat, current: nat, ranges: seq<(nat, nat)>, log: LiveLog, k: nat, polls: nat,
    a: Mark, b: Mark, c: Mark, first: set<nat>, now: set<nat>, before: seq<(nat, nat)>, dispatched: seq<(nat, nat)>)
    requires LiveSoFar(w, start, current, ranges, log, k, a, b, first, now, before, dispatched) && start > 0
    requires Before(b, c) && (k == polls || FoundDone(w, a, c))
    ensures LiveOutcome(w, start, current, current, true, polls, ranges, log, a, c, first, now, before, dispatched)
  {
    LiveStateWidens(w, start, current, ranges, log, a, b, c);
  }

  lemma LiveBreaksOff(w: World, start: nat, current: nat, goal: nat, ranges: seq<(nat, nat)>, log: LiveLog, k: nat,
    polls: nat, a: Mark, b: Mark, c: Mark, first: set<nat>, now: set<nat>, later: set<nat>, before: seq<(nat, nat)>,
    dispatched: seq<(nat, nat)>)
    requires LiveSoFar(w, start, current, ranges, log, k, a, b, first, now, before, dispatched) && start > 0
    requires LiveState(w, start, current, ranges, log, a, c) && LiveEnd(w, current, goal, false, log, polls, a, c)
    requires now <= later && forall h :: h in later ==> h in now || current < h <= goal
    ensures LiveOutcome(w, start, current, goal, false, polls, ranges, log, a, c, first, later, before,
                        WithRange(dispatched, current, goal))
  {
  }

  lemma SinglePartition(low: nat, high: nat)
    requires 1 <= low <= high
    ensures Partition([(low, high)], low, high)
  {
    PartitionGrows([], low, low - 1, high);
    assert [] + [(low, high)] == [(low, high)];
  }

  lemma PartitionGrows(ranges: seq<(nat, nat)>, start: nat, current: nat, next: nat)
    requires Partition(ranges, start, current) && current < next
    ensures Partition(ranges + [(current + 1, next)], start, next)
  {
  }

  /** The stored heights grew by exactly `low..high`, as far as it was not stored already. */
  ghost predicate GrewBy(before: set<nat>, after: set<nat>, low: nat, high: int) {
    forall h :: h in after <==> h in before || low <= h <= high
  }

  lemma GrewByBoth(before: set<nat>, between: set<nat>, after: set<nat>, start: nat, current: int, next: int)
    requires start - 1 <= current <= next && current + 1 >= 0
    requires GrewBy(before, between, start, current) && GrewBy(between, after, current + 1, next)
    ensures GrewBy(before, after, start, next)
  {
  }

  ghost predicate InRange(range: (nat, nat), h: nat) {
    range.0 <= h <= range.1
  }

  lemma {:induction false} PartitionBounds(ranges: seq<(nat, nat)>, start: nat, current: int)
    requires Partition(ranges, start, current)
    ensures forall i :: 0 <= i < |ranges| ==> start <= ranges[i].0 <= ranges[i].1 <= current
    ensures start - 1 <= current
    decreases |ranges|
  {
    if ranges != [] {
      PartitionBounds(ranges[..|ranges| - 1], start, ranges[|ranges| - 1].0 as int - 1);
    }
  }

  /** Each height from the start to the current one lies in exactly one dispatched range, and no other does. */
  lemma {:induction false} PartitionIsExact(ranges: seq<(nat, nat)>, start: nat, current: int, h: nat)
    requires Partition(ranges, start, current)
    ensures start <= h <= current <==> exists i :: 0 <= i < |ranges| && InRange(ranges[i], h)
    ensures forall i, j :: 0 <= i < j < |ranges| ==> !(InRange(ranges[i], h) && InRange(ranges[j], h))
    decreases |ranges|
  {
    PartitionBounds(ranges, start, current);
    if ranges != [] {
      var front := ranges[..|ranges| - 1];
      var last := ranges[|ranges| - 1];
      PartitionBounds(front, start, last.0 as int - 1);
      PartitionIsExact(front, start, last.0 as int - 1, h);
      if start <= h < last.0 {
        var i :| 0 <= i < |front| && InRange(front[i], h);
        assert InRange(ranges[i], h);
      } else if start <= h <= current {
        assert InRange(ranges[|front|], h);
      }
      forall i, j | 0 <= i < j < |ranges|
        ensures !(InRange(ranges[i], h) && InRange(ranges[j], h))
      {
        if j < |front| {
          assert !(InRange(front[i], h) && InRange(front[j], h));
        } else {
          assert front[i] == ranges[i];
        }
      }
    }
  }

  ghost function Firsts(s: seq<nat>, n: nat): set<nat>
    requires n <= |s|
  {
    set i | 0 <= i < n :: s[i]
  }

  lemma FirstsGrow(s: seq<nat>, n: nat)
    requires n < |s|
    ensures Firsts(s, n + 1) == Firsts(s, n) + {s[n]}
  {
  }

  lemma FirstsBound(first: set<nat>, s: seq<nat>, n: nat, now: set<nat>, all: bool)
    requires n < |s| && now == first + Firsts(s, n) + (if all then {s[n]} else {})
    ensures all ==> now == first + Firsts(s, n + 1)
    ensures first + Firsts(s, n) <= now <= first + Firsts(s, n + 1)
  {
    FirstsGrow(s, n);
  }

  lemma FirstsAreListed(s: seq<nat>)
    ensures forall n :: 0 <= n <= |s| ==> forall h :: h in Firsts(s, n) ==> h in s
    ensures forall h :: h in s ==> h in Firsts(s, |s|)
  {
  }

  predicate AsksForTip(c: Settings) {
    c.reIndex || c.stop == 0
  }

  predicate SeeksStart(c: Settings) {
    c.reIndex || c.start == 0
  }

  /** The start chosen on a store holding `stored`. */
  ghost predicate StartChosen(c: Settings, stored: set<nat>, start: nat) {
    && 1 <= start
    && (!c.reIndex && c.start != 0 ==> start == c.start)
    && (!c.reIndex && c.start == 0 && stored != {} ==> IsMax(stored, start - 1))
    && (c.reIndex && stored != {} && 0 !in stored ==> IsMin(stored, start))
    && (c.reIndex && 0 in stored ==> IsMax(stored, start - 1))  // a lowest height of 0 reads as "choose"
  }

  /** And the stop; `tip` is the height the node reported, if it was asked. */
  ghost predicate BoundsChosen(c: Settings, stored: set<nat>, start: nat, stop: nat, tip: nat) {
    StartChosen(c, stored, start) && stop == if AsksForTip(c) then tip else c.stop
  }

  ghost predicate RangeChosen(c: Settings, stored: set<nat>, start: nat, stop: nat, tip: nat) {
    BoundsChosen(c, stored, start, stop, tip) && start <= stop
  }

  /**
   How a process went: the range it chose, when it asked for the tip, how far it came, and the highest
   height it aimed at.
   */
  datatype Course = Course(start: nat, stop: nat, tip: nat, asked: nat, current: int, goal: nat, log: LiveLog)

  /** The tip is what the node said when asked, and the start on an empty store what it offered. */
  ghost predicate TrueCourse(w: World, c: Settings, stored: set<nat>, r: Course, a: Mark, b: Mark) {
    && a.calls <= r.asked <= b.calls
    && (AsksForTip(c) ==> LatestAt(w, r.asked) == Success(r.tip))
    && (stored == {} && SeeksStart(c) ==> Earliest(w, a.calls) == Some(r.start))
    && (stored != {} || !SeeksStart(c) ==> r.asked == a.calls)
  }

  /** Why no start could be chosen. */
  ghost predicate NoStart(w: World, c: Settings, stored: set<nat>, a: Mark, b: Mark) {
    SeeksStart(c) && (StatementFailed(w, a, b) || (stored == {} && Earliest(w, a.calls) == None))
  }

  /** Why no range could be chosen. */
  ghost predicate NoRange(w: World, c: Settings, stored: set<nat>, r: Course, a: Mark, b: Mark) {
    || NoStart(w, c, stored, a, b)
    || (AsksForTip(c) && a.calls <= r.asked <= b.calls && LatestAt(w, r.asked).Failure?)
    || (BoundsChosen(c, stored, r.start, r.stop, r.tip) && r.start > r.stop && TrueCourse(w, c, stored, r, a, b))
  }

  /** Why the chosen range could not be stored. */
  ghost predicate StoreFailed(w: World, live: bool, r: Course, a: Mark, b: Mark) {
    if live then r.current >= 0 && LiveFailed(w, a, b, r.current)
    else Trouble(w, a, b, Range(r.start, Span(r.start, r.stop)))
  }

  ghost predicate WasTold(w: World, a: Mark, b: Mark, h: nat) {
    exists calls :: a.calls <= calls <= b.calls && LatestAt(w, calls) == Success(h)
  }

  lemma ToldWidens(w: World, a: Mark, b: Mark, h: nat, a': Mark)
    requires Before(a', a)
    ensures WasTold(w, a, b, h) ==> WasTold(w, a', b, h)
  {
  }

  /** A batch run aims at its stop, a live run at what it is told, if that is above where it is. */
  ghost predicate AimedAt(w: World, live: bool, r: Course, a: Mark, b: Mark) {
    if live then r.goal == r.current || (r.goal > r.current && WasTold(w, a, b, r.goal)) else r.goal == r.stop
  }

  /** Why the chosen range, or the gaps before it, could not be stored. */
  ghost predicate RangeFailed(w: World, c: Settings, stored: set<nat>, r: Course, a: Mark, b: Mark) {
    || (FillsGaps(c) && (StatementFailed(w, a, b) || BlockFailed(w, a, b, GapSet(stored))))
    || StoreFailed(w, c.live, r, a, b)
  }

  /** A process that ends without error. */
  ghost predicate WentWell(w: World, c: Settings, before: set<nat>, after: set<nat>, r: Course, polls: nat, a: Mark,
    b: Mark)
  {
    && RangeChosen(c, before, r.start, r.stop, r.tip) && TrueCourse(w, c, before, r, a, b)
    && RangeStored(c, after, r) && (c.live ==> LiveCourse(w, r, polls, a, b))
  }

  /** A process that ends with one: it could not choose a range, or not store the one it chose. */
  ghost predicate WentWrong(w: World, c: Settings, before: set<nat>, r: Course, a: Mark, b: Mark) {
    || NoRange(w, c, before, r, a, b)
    || (&& RangeChosen(c, before, r.start, r.stop, r.tip) && TrueCourse(w, c, before, r, a, b)
        && AimedAt(w, c.live, r, a, b) && RangeFailed(w, c, before, r, a, b))
  }

  lemma StoreFailureWidens(w: World, live: bool, r: Course, a: Mark, b: Mark, a': Mark)
    requires StoreFailed(w, live, r, a, b) && Before(a', a)
    ensures StoreFailed(w, live, r, a', b)
  {
    if live {
      LiveFailureWidens(w, a, b, r.current, a', b);
    }
  }

  lemma StoreAfterGaps(w: World, c: Settings, r: Course, polls: nat, a: Mark, b: Mark, d: Mark)
    requires Before(a, b) && Before(b, d)
    ensures LiveCourse(w, r, polls, b, d) ==> LiveCourse(w, r, polls, a, d)
    ensures StoreFailed(w, c.live, r, b, d) ==> StoreFailed(w, c.live, r, a, d)
    ensures AimedAt(w, c.live, r, b, d) ==> AimedAt(w, c.live, r, a, d)
  {
    if LiveCourse(w, r, polls, b, d) {
      TrueLogWidens(w, r.log, b, d, a, d);
    }
    if StoreFailed(w, c.live, r, b, d) {
      StoreFailureWidens(w, c.live, r, b, d, a);
    }
  }

  /** Start and stop are left open, and the node reports nothing above what is stored. */
  ghost predicate NothingNew(w: World, c: Settings, stored: set<nat>, calls: nat) {
    !c.reIndex && c.start == 0 && c.stop == 0 && exists s :: s in stored && ReportsAtMost(w, calls, s)
  }

  ghost predicate ReportsAtMost(w: World, calls: nat, s: nat) {
    match LatestAt(w, calls)
    case Failure(_) => true
    case Success(h) => h <= s
  }

  lemma NothingNewMeansNoRange(w: World, c: Settings, stored: set<nat>, r: Course, a: Mark, b: Mark)
    requires NothingNew(w, c, stored, a.calls)
    ensures !(RangeChosen(c, stored, r.start, r.stop, r.tip) && TrueCourse(w, c, stored, r, a, b))
  {
  }

  /** A live run has come as far as the highest height reported to it. */
  ghost predicate LiveCourse(w: World, r: Course, polls: nat, a: Mark, b: Mark) {
    && TrueLog(w, r.log, a, b) && r.current == HighestOf(r.start - 1, r.log.reports)
    && (|r.log.reports| == polls || FoundDone(w, a, b))
  }

  /** All of the chosen range is stored; a live run's goes up to where it has come. */
  ghost predicate RangeStored(c: Settings, after: set<nat>, r: Course) {
    && (forall h :: r.start <= h <= r.current ==> h in after)
    && r.current == r.goal && (!c.live ==> r.current == r.stop)
  }

  predicate SameChoice(r: Course, r': Course) {
    r'.start == r.start && r'.stop == r.stop && r'.tip == r.tip && r'.asked == r.asked
  }

  /** Gap filling took the store from `before` to `between`, and the range after that to `after`. */
  ghost predicate RangeDone(c: Settings, before: set<nat>, between: set<nat>, after: set<nat>, r: Course, ok: bool) {
    && before <= between <= after
    && (forall h :: h in between ==> h in before || (FillsGaps(c) && IsGap(before, h)))
    && (forall h :: h in after ==> h in between || r.start <= h <= r.goal)
    && (ok ==> GrewBy(between, after, r.start, r.current) && r.current == r.goal)
    && (if c.live then r.start - 1 <= r.goal else r.goal == r.stop)
  }

  ghost predicate AllGapsIn(before: set<nat>, between: set<nat>) {
    forall h :: IsGap(before, h) ==> h in between
  }

  /** Neither start nor stop is configured. */
  predicate IsAutomatic(c: Settings) {
    !c.reIndex && c.start == 0 && c.stop == 0
  }

  /**
   What one process achieves. What it adds are gaps or heights of its range. `cut` says that the gap
   query's rows broke off. With automatic start and stop it is an automatic run on a non-empty store,
   live or not, which on success fills every gap unless the query was cut.
   */
  ghost predicate Accounted(c: Settings, before: set<nat>, after: set<nat>, r: Course, ok: bool, cut: bool) {
    && before <= after
    && (forall h :: h in after ==>
          h in before || (FillsGaps(c) && IsGap(before, h)) || r.start <= h <= r.goal)
    && (ok && !c.live && !c.reIndex && c.start != 0 && c.stop != 0 ==>
          forall h :: c.start <= h <= c.stop ==> h in after)
    && (ok && !c.live && c.reIndex && 0 !in before ==>
          forall m: nat, h: nat :: IsMin(before, m) && m <= h <= r.tip ==> h in after)
    && (IsAutomatic(c) && before != {} ==> AutomaticRun(ReportOf(before, after, r, ok)))
    && (IsAutomatic(c) && before != {} && ok ==> (GapsFilled(ReportOf(before, after, r, ok)) <==> !cut))
  }

  function ReportOf(before: set<nat>, after: set<nat>, r: Course, ok: bool): RunReport {
    RunReport(before, after, r.tip, r.goal, ok)
  }

  predicate IsFirstRun(c: Settings, stored: set<nat>) {
    IsAutomatic(c) && stored == {}
  }

  /** What a first run leaves: heights from the node's earliest on, and on success all up to where it reached. */
  ghost predicate FirstRun(after: set<nat>, earliest: nat, reach: nat, ok: bool) {
    && (forall h :: h in after ==> earliest <= h <= reach)
    && (ok ==> IsInterval(after, earliest, reach))
  }

  /** A run that cannot choose a range leaves the store alone. */
  lemma NoRangeIsAccounted(c: Settings, stored: set<nat>, r: Course, cut: bool)
    ensures Accounted(c, stored, stored, r, false, cut)
  {
  }

  lemma RunIsAccounted(c: Settings, before: set<nat>, between: set<nat>, after: set<nat>, r: Course, ok: bool,
    cut: bool)
    requires RangeChosen(c, before, r.start, r.stop, r.tip) && RangeDone(c, before, between, after, r, ok)
    requires ok && !c.reIndex && c.start == 0 ==> (AllGapsIn(before, between) <==> !cut)
    ensures Accounted(c, before, after, r, ok, cut)
    ensures IsFirstRun(c, before) ==> FirstRun(after, r.start, r.goal, ok)
  {
    if IsAutomatic(c) && before != {} {
      AutomaticReport(c, before, between, after, r, ok);
    }
  }

  lemma AutomaticReport(c: Settings, before: set<nat>, between: set<nat>, after: set<nat>, r: Course, ok: bool)
    requires IsAutomatic(c) && 1 <= r.start <= r.tip && r.stop == r.tip && IsMax(before, r.start - 1)
    requires RangeDone(c, before, between, after, r, ok)
    ensures AutomaticRun(ReportOf(before, after, r, ok))
    ensures GapsFilled(ReportOf(before, after, r, ok)) <==> AllGapsIn(before, between)
  {
    assert IsNew(before, r.tip, r.start);
    forall h: nat | h in after && h !in before && !IsGap(before, h)
      ensures IsNew(before, r.goal, h)
    {
    }
    forall h: nat | IsGap(before, h)
      ensures h in after <==> h in between
    {
      assert h < r.start;
    }
  }

  /** A process as it took place between two marks. */
  datatype Process = Process(before: set<nat>, after: set<nat>, course: Course, ok: bool, a: Mark, b: Mark)

  /** Whether the rows of its gap query, the second statement, broke off. */
  ghost predicate WasCut(w: World, p: Process) {
    CutShort(w.outcomes(p.a.statements + 1), p.before)
  }

  ghost predicate TookPlace(w: World, c: Settings, polls: nat, p: Process) {
    match p
    case Process(before, after, r, ok, a, b) =>
      && Before(a, b) && Accounted(c, before, after, r, ok, WasCut(w, p))
      && (if ok then WentWell(w, c, before, after, r, polls, a, b) else WentWrong(w, c, before, r, a, b))
  }

  /** What came of the chosen range. */
  ghost predicate RangeOutcome(w: World, c: Settings, before: set<nat>, after: set<nat>, r: Course, polls: nat,
    ok: bool, cut: bool, a: Mark, b: Mark)
  {
    && AimedAt(w, c.live, r, a, b) && Accounted(c, before, after, r, ok, cut)
    && (if ok then RangeStored(c, after, r) && (c.live ==> LiveCourse(w, r, polls, a, b))
        else RangeFailed(w, c, before, r, a, b))
  }

  /** The range was chosen between `a` and `b`, and dealt with between `b` and `d`. */
  lemma ChosenThenDone(w: World, c: Settings, before: set<nat>, after: set<nat>, r: Course, r': Course, polls: nat,
    ok: bool, cut: bool, a: Mark, b: Mark, d: Mark)
    requires RangeChosen(c, before, r.start, r.stop, r.tip) && TrueCourse(w, c, before, r, a, b)
    requires SameChoice(r, r') && Before(a, b) && Before(b, d)
    requires RangeOutcome(w, c, before, after, r', polls, ok, cut, b, d)
    requires cut == CutShort(w.outcomes(a.statements + 1), before)
    ensures TookPlace(w, c, polls, Process(before, after, r', ok, a, d))
  {
    StoreAfterGaps(w, c, r', polls, a, b, d);
  }

  lemma NoRangeTookPlace(w: World, c: Settings, polls: nat, stored: set<nat>, r: Course, a: Mark, b: Mark)
    requires NoRange(w, c, stored, r, a, b) && Before(a, b)
    ensures TookPlace(w, c, polls, Process(stored, stored, r, false, a, b))
  {
    NoRangeIsAccounted(c, stored, r, CutShort(w.outcomes(a.statements + 1), stored));
  }

  /** Processes one after the other, from a store that held `first` to one that holds `now`. */
  datatype Restarts = Restarts(ps: seq<Process>, first: set<nat>, now: set<nat>, ok: bool, a: Mark, b: Mark)

  /** All of them took place, each where the one before it ended, and all but the last failed. */
  ghost predicate Restarted(w: World, c: Settings, polls: nat, q: Restarts) {
    match q
    case Restarts(ps, first, now, ok, a, b) =>
      && (if ps == [] then !ok && now == first && a == b
          else ps[0].before == first && ps[0].a == a && ps[|ps| - 1].after == now && ps[|ps| - 1].b == b)
      && (forall i :: 0 <= i < |ps| ==> TookPlace(w, c, polls, ps[i]) && ps[i].a.statements < ps[i].b.statements)
      && (forall i :: 0 <= i < |ps| ==> (ps[i].ok <==> ok && i == |ps| - 1))
      && forall i, j :: 0 <= i < j < |ps| && j == i + 1 ==> ps[i].after == ps[j].before && ps[i].b == ps[j].a
  }

  lemma RestartStep(w: World, c: Settings, polls: nat, ps: seq<Process>, first: set<nat>, p: Process, a: Mark)
    requires Restarted(w, c, polls, Restarts(ps, first, p.before, false, a, p.a))
    requires TookPlace(w, c, polls, p) && p.a.statements < p.b.statements
    ensures Restarted(w, c, polls, Restarts(ps + [p], first, p.after, p.ok, a, p.b))
  {
  }

  /** Every process makes a statement at least. */
  lemma {:induction false} RestartsMakeStatements(w: World, c: Settings, polls: nat, ps: seq<Process>, first: set<nat>,
    now: set<nat>, ok: bool, a: Mark, b: Mark)
    requires Restarted(w, c, polls, Restarts(ps, first, now, ok, a, b))
    ensures a.statements + |ps| <= b.statements
    decreases |ps|
  {
    if ps != [] {
      var k := |ps| - 1;
      assert TookPlace(w, c, polls, ps[k]);
      RestartsMakeStatements(w, c, polls, ps[..k], first, ps[k].before, false, a, ps[k].a);
    }
  }

  /** Such processes, with nothing configured, are a history of automatic runs. */
  lemma RestartsAreHistory(w: World, c: Settings, polls: nat, ps: seq<Process>, first: set<nat>, now: set<nat>,
    ok: bool, a: Mark, b: Mark)
    returns (runs: seq<RunReport>)
    requires Restarted(w, c, polls, Restarts(ps, first, now, ok, a, b)) && IsAutomatic(c) && ps != [] && first != {}
    ensures History(runs) && |runs| == |ps|
    ensures forall i :: 0 <= i < |ps| ==> runs[i] == ReportOf(ps[i].before, ps[i].after, ps[i].course, ps[i].ok)
  {
    runs := seq(|ps|, i requires 0 <= i < |ps| => ReportOf(ps[i].before, ps[i].after, ps[i].course, ps[i].ok));
    for k := 0 to |ps|
      invariant forall i :: 0 <= i < k ==> AutomaticRun(runs[i])
    {
      assert TookPlace(w, c, polls, ps[k]);
      assert k > 0 ==> AutomaticRun(runs[k - 1]) && ps[k - 1].after == ps[k].before;
    }
  }

  /** However the failures went, the first success leaves no gap exactly if its gap query was not cut short. */
  lemma FirstSuccessRestores(w: World, c: Settings, polls: nat, ps: seq<Process>, first: set<nat>, now: set<nat>,
    a: Mark, b: Mark, m: nat)
    requires Restarted(w, c, polls, Restarts(ps, first, now, true, a, b)) && IsAutomatic(c) && IsMin(first, m)
    ensures var last := ps[|ps| - 1]; IsInterval(now, m, last.course.goal) <==> !WasCut(w, last)
  {
    var runs := RestartsAreHistory(w, c, polls, ps, first, now, true, a, b);
    assert TookPlace(w, c, polls, ps[|ps| - 1]);
    SuccessRestoresContiguity(runs, m);
    HistoryKeepsMin(runs, m);
  }
}
