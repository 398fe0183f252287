/**
 `processBlocks`: a dispatcher that hands out heights under a semaphore, workers that each store one
 block, an error group that cancels on the first error, and a caller that can cancel at any time.
 A state machine over their interleaved steps; worker `i` has the `i`-th dispatched height.
 */
module WorkerPool {
  import opened Decimals
  import opened Store
  import opened Transactions
  import opened Wrappers

  /** The rows one worker commits for its height. */
  datatype Write = Write(block: Block, records: seq<Record>)

  /** A worker gives its token back before the error group learns how it ended. */
  datatype Stage = Working | Ended(ok: bool) | Released(ok: bool) | Reported(ok: bool)

  datatype Phase =
    | Checking           // at the loop head
    | Acquiring          // waiting for a token
    | Waiting            // in eg.Wait
    | Returned(ok: bool)

  datatype Pool = Pool(
    start: nat, stop: nat, capacity: nat,
    next: nat, phase: Phase, workers: seq<Stage>, tokens: nat,
    failed: bool,        // the error group holds an error
    cancelled: bool,     // the shared context is done
    stored: set<nat>,    // heights committed by this pool's workers
    tables: Tables)

  datatype Event =
    | Check
    | Acquire
    | LoopEnds
    | Return
    | Cancel
    | End(i: nat, ok: bool, write: Option<Write>)  // an error may hide a commit that took effect
    | Release(i: nat)
    | Report(i: nat)

  const MAX_HEIGHT: nat := TWO_TO_THE_64 - 1

  /** `uint64` heights wrap around. */
  function HeightOf(start: nat, i: nat): nat {
    (start + i) % TWO_TO_THE_64
  }

  /** The block parses, and its records are the extraction of its transactions. */
  predicate Possible(codec: Codec, height: nat, w: Write) {
    && w.block.id == height
    && Unmarshalled(codec, w.block.data).Some?
    && IsExtraction(codec, Entries(codec, w.block.data), w.records)
  }

  function Initial(start: nat, stop: nat, capacity: nat, tables: Tables): Pool {
    Pool(start, stop, capacity, start, Checking, [], 0, false, false, {}, tables)
  }

  predicate Enabled(codec: Codec, s: Pool, e: Event) {
    match e
    case Check => s.phase == Checking && s.next <= s.stop
    case LoopEnds => s.phase == Checking && s.next > s.stop
    case Acquire => s.phase == Acquiring && s.tokens < s.capacity
    case Return => s.phase == Waiting && forall i :: 0 <= i < |s.workers| ==> s.workers[i].Reported?
    case Cancel => !s.cancelled
    case End(i, ok, write) =>
      && i < |s.workers| && s.workers[i] == Working
      && (ok ==> write.Some?)
      && (write.Some? ==> Possible(codec, HeightOf(s.start, i), write.value))
    case Release(i) => i < |s.workers| && s.workers[i].Ended?
    case Report(i) => i < |s.workers| && s.workers[i].Released?
  }

  function Next(s: Pool, e: Event): Pool {
    match e
    case Check => s.(phase := if s.cancelled then Returned(false) else Acquiring)
    case LoopEnds => s.(phase := Waiting)
    case Acquire =>
      s.(tokens := s.tokens + 1, workers := s.workers + [Working],
         next := (s.next + 1) % TWO_TO_THE_64, phase := Checking)
    case Return => s.(phase := Returned(!s.failed))
    case Cancel => s.(cancelled := true)
    case End(i, ok, write) =>
      if i >= |s.workers| then s
      else
        var ended := s.(workers := s.workers[i := Ended(ok)]);
        if write.None? then ended
        else ended.(stored := s.stored + {write.value.block.id},
                    tables := Written(s.tables, write.value.block, write.value.records))
    case Release(i) =>
      if i >= |s.workers| || !s.workers[i].Ended? || s.tokens == 0 then s
      else s.(workers := s.workers[i := Released(s.workers[i].ok)], tokens := s.tokens - 1)
    case Report(i) =>
      if i >= |s.workers| || !s.workers[i].Released? then s
      else
        var ok := s.workers[i].ok;
        s.(workers := s.workers[i := Reported(ok)], failed := s.failed || !ok, cancelled := s.cancelled || !ok)
  }

  ghost predicate IsRun(codec: Codec, s: Pool, es: seq<Event>)
    decreases |es|
  {
    es == [] || (Enabled(codec, s, es[0]) && IsRun(codec, Next(s, es[0]), es[1..]))
  }

  function Run(s: Pool, es: seq<Event>): Pool
    decreases |es|
  {
    if es == [] then s else Run(Next(s, es[0]), es[1..])
  }

  predicate HoldsToken(w: Stage) {
    w.Working? || w.Ended?
  }

  function Holding(ws: seq<Stage>): nat {
    if ws == [] then 0 else Holding(ws[..|ws| - 1]) + (if HoldsToken(ws[|ws| - 1]) then 1 else 0)
  }

  /** How many heights the range has. */
  function Span(start: nat, stop: nat): nat {
    if start <= stop then stop - start + 1 else 0
  }

  predicate Succeeded(w: Stage) {
    !w.Working? && w.ok
  }

  ghost predicate AnyFailed(ws: seq<Stage>) {
    exists i :: 0 <= i < |ws| && ws[i] == Reported(false)
  }

  ghost predicate Inv(s: Pool) {
    && s.start <= MAX_HEIGHT && s.stop <= MAX_HEIGHT
    && s.next == HeightOf(s.start, |s.workers|)
    && s.tokens == Holding(s.workers) && s.tokens <= s.capacity
    && (s.capacity == 0 ==> s.workers == [])
    && (s.stop < MAX_HEIGHT ==> |s.workers| <= Span(s.start, s.stop))
    && (s.phase == Acquiring ==> s.next <= s.stop)
    && (s.phase == Waiting ==> s.next > s.stop)
    && (forall i :: 0 <= i < |s.workers| && Succeeded(s.workers[i]) ==> HeightOf(s.start, i) in s.stored)
    && (forall h :: h in s.stored ==> exists i :: 0 <= i < |s.workers| && h == HeightOf(s.start, i))
    && s.stored <= s.tables.blocks.Keys
    && (s.failed <==> AnyFailed(s.workers))
    && (s.failed ==> s.cancelled)
    && (s.phase == Returned(true) ==>
          s.next > s.stop && forall i :: 0 <= i < |s.workers| ==> s.workers[i] == Reported(true))
  }

  lemma HoldingOfUpdate(ws: seq<Stage>, i: nat, w: Stage)
    requires i < |ws|
    ensures Holding(ws[i := w]) + (if HoldsToken(ws[i]) then 1 else 0) == Holding(ws) + (if HoldsToken(w) then 1 else 0)
    decreases |ws|
  {
    var k := |ws| - 1;
    if i < k {
      assert ws[i := w][..k] == ws[..k][i := w];
      HoldingOfUpdate(ws[..k], i, w);
    } else {
      assert ws[i := w][..k] == ws[..k];
    }
  }

  lemma HoldingOfAppend(ws: seq<Stage>, w: Stage)
    ensures Holding(ws + [w]) == Holding(ws) + (if HoldsToken(w) then 1 else 0)
  {
  }

  lemma {:induction false} HoldingIsPositive(ws: seq<Stage>, i: nat)
    requires i < |ws| && HoldsToken(ws[i])
    ensures Holding(ws) > 0
    decreases |ws|
  {
    if i < |ws| - 1 {
      HoldingIsPositive(ws[..|ws| - 1], i);
    }
  }

  lemma InitialInv(start: nat, stop: nat, capacity: nat, tables: Tables)
    requires start <= MAX_HEIGHT && stop <= MAX_HEIGHT
    ensures Inv(Initial(start, stop, capacity, tables))
  {
  }

  /** Short of the last 64-bit height, nothing wraps. */
  lemma NoWrap(s: Pool)
    requires Inv(s) && s.stop < MAX_HEIGHT
    ensures s.next == s.start + |s.workers|
    ensures forall i :: 0 <= i < |s.workers| ==> HeightOf(s.start, i) == s.start + i
    ensures s.next > s.stop ==> |s.workers| == Span(s.start, s.stop)
  {
  }

  lemma StepKeepsInv(codec: Codec, s: Pool, e: Event)
    requires Inv(s) && Enabled(codec, s, e)
    ensures Inv(Next(s, e))
  {
    match e {
      case Check =>
      case LoopEnds =>
      case Return => ReturnKeepsInv(s);
      case Cancel =>
      case Acquire => AcquireKeepsInv(s);
      case End(i, ok, write) => EndKeepsInv(s, i, ok, write);
      case Release(i) => ReleaseKeepsInv(s, i);
      case Report(i) => ReportKeepsInv(s, i);
    }
  }

  lemma ReturnKeepsInv(s: Pool)
    requires Inv(s) && s.phase == Waiting && forall i :: 0 <= i < |s.workers| ==> s.workers[i].Reported?
    ensures Inv(Next(s, Return))
  {
  }

  lemma NextHeight(start: nat, i: nat)
    ensures (HeightOf(start, i) + 1) % TWO_TO_THE_64 == HeightOf(start, i + 1)
  {
  }

  lemma AcquireKeepsInv(s: Pool)
    requires Inv(s) && s.phase == Acquiring && s.tokens < s.capacity
    ensures Inv(Next(s, Acquire))
  {
    HoldingOfAppend(s.workers, Working);
    var s' := Next(s, Acquire);
    NextHeight(s.start, |s.workers|);
    if s.stop < MAX_HEIGHT {
      NoWrap(s);
    }
    forall h | h in s'.stored
      ensures exists i :: 0 <= i < |s'.workers| && h == HeightOf(s.start, i)
    {
      var i :| 0 <= i < |s.workers| && h == HeightOf(s.start, i);
      assert i < |s'.workers|;
    }
    if s.failed {
      var i :| 0 <= i < |s.workers| && s.workers[i] == Reported(false);
      assert s'.workers[i] == Reported(false);
    }
  }

  lemma FailureStays(ws: seq<Stage>, i: nat, w: Stage)
    requires i < |ws| && !ws[i].Reported? && w != Reported(false)
    ensures AnyFailed(ws) <==> AnyFailed(ws[i := w])
  {
    if AnyFailed(ws) {
      var k :| 0 <= k < |ws| && ws[k] == Reported(false);
      assert ws[i := w][k] == Reported(false);
    }
  }

  lemma EndKeepsInv(s: Pool, i: nat, ok: bool, write: Option<Write>)
    requires Inv(s) && i < |s.workers| && s.workers[i] == Working && (ok ==> write.Some?)
    requires write.Some? ==> write.value.block.id == HeightOf(s.start, i)
    ensures Inv(Next(s, End(i, ok, write)))
  {
    HoldingOfUpdate(s.workers, i, Ended(ok));
    FailureStays(s.workers, i, Ended(ok));
    var s' := Next(s, End(i, ok, write));
    forall h | h in s'.stored
      ensures exists k :: 0 <= k < |s'.workers| && h == HeightOf(s.start, k)
    {
      if h in s.stored {
        var k :| 0 <= k < |s.workers| && h == HeightOf(s.start, k);
        assert k < |s'.workers|;
      }
    }
  }

  lemma ReleaseKeepsInv(s: Pool, i: nat)
    requires Inv(s) && i < |s.workers| && s.workers[i].Ended?
    ensures Inv(Next(s, Release(i)))
  {
    HoldingIsPositive(s.workers, i);
    HoldingOfUpdate(s.workers, i, Released(s.workers[i].ok));
    FailureStays(s.workers, i, Released(s.workers[i].ok));
  }

  lemma ReportKeepsInv(s: Pool, i: nat)
    requires Inv(s) && i < |s.workers| && s.workers[i].Released?
    ensures Inv(Next(s, Report(i)))
  {
    var ok := s.workers[i].ok;
    HoldingOfUpdate(s.workers, i, Reported(ok));
    var s' := Next(s, Report(i));
    if ok {
      FailureStays(s.workers, i, Reported(ok));
    } else {
      assert s'.workers[i] == Reported(false);
    }
  }

  lemma {:induction false} RunKeepsInv(codec: Codec, s: Pool, es: seq<Event>)
    requires Inv(s) && IsRun(codec, s, es)
    ensures Inv(Run(s, es))
    ensures var s' := Run(s, es); s'.start == s.start && s'.stop == s.stop && s'.capacity == s.capacity
    decreases |es|
  {
    if es != [] {
      StepKeepsInv(codec, s, es[0]);
      RunKeepsInv(codec, Next(s, es[0]), es[1..]);
    }
  }

  ghost predicate Dispatched(s: Pool, h: nat) {
    exists i :: 0 <= i < |s.workers| && HeightOf(s.start, i) == h
  }

  lemma {:induction false} RunThenStep(codec: Codec, s: Pool, es: seq<Event>, e: Event)
    requires IsRun(codec, s, es) && Enabled(codec, Run(s, es), e)
    ensures IsRun(codec, s, es + [e]) && Run(s, es + [e]) == Next(Run(s, es), e)
    decreases |es|
  {
    var longer := es + [e];
    if es == [] {
      assert longer[1..] == [];
    } else {
      RunThenStep(codec, Next(s, es[0]), es[1..], e);
      assert longer[0] == es[0] && longer[1..] == es[1..] + [e];
    }
  }

  /**
   In every reachable state: each height below `next` was dispatched to exactly one worker, at most
   `capacity` workers hold a token, and a nil return means the whole range is stored and every
   worker is done.
   */
  lemma DispatchedExactlyOnce(codec: Codec, start: nat, stop: nat, capacity: nat, tables: Tables, es: seq<Event>)
    requires start <= MAX_HEIGHT && stop < MAX_HEIGHT && IsRun(codec, Initial(start, stop, capacity, tables), es)
    ensures var s := Run(Initial(start, stop, capacity, tables), es);
            && (forall h: nat :: Dispatched(s, h) <==> start <= h < s.next)
            && (forall i, j :: 0 <= i < j < |s.workers| ==> HeightOf(start, i) != HeightOf(start, j))
            && Holding(s.workers) <= capacity
            && (forall h :: h in s.stored ==> start <= h < s.next && h <= stop)
            && (s.phase == Returned(true) ==>
                  && (forall h :: start <= h <= stop ==> h in s.stored && h in s.tables.blocks)
                  && (forall i :: 0 <= i < |s.workers| ==> s.workers[i] == Reported(true)))
  {
    InitialInv(start, stop, capacity, tables);
    RunKeepsInv(codec, Initial(start, stop, capacity, tables), es);
    var s := Run(Initial(start, stop, capacity, tables), es);
    NoWrap(s);
    forall h | start <= h < s.next
      ensures Dispatched(s, h)
      ensures s.phase == Returned(true) ==> h in s.stored
    {
      assert HeightOf(s.start, h - start) == h;
      if s.phase == Returned(true) {
        assert s.workers[h - start] == Reported(true);
        assert Succeeded(s.workers[h - start]);
      }
    }
  }

  /** So many workers, and all of them at work. */
  function AllWorking(k: nat): seq<Stage> {
    seq(k, _ => Working)
  }

  lemma {:induction false} AllHold(k: nat)
    ensures Holding(AllWorking(k)) == k
    decreases k
  {
    if k > 0 {
      assert AllWorking(k) == AllWorking(k - 1) + [Working];
      AllHold(k - 1);
      HoldingOfAppend(AllWorking(k - 1), Working);
    }
  }

  /** One worker after the other is dispatched while none has finished. */
  lemma {:induction false} DispatchAll(codec: Codec, start: nat, stop: nat, capacity: nat, tables: Tables, k: nat)
    returns (es: seq<Event>)
    requires start <= MAX_HEIGHT && stop < MAX_HEIGHT && k <= capacity && k <= Span(start, stop)
    ensures IsRun(codec, Initial(start, stop, capacity, tables), es)
    ensures var s := Run(Initial(start, stop, capacity, tables), es);
            && s == Initial(start, stop, capacity, tables).(next := s.next, workers := AllWorking(k), tokens := k)
            && s.next == start + k
    decreases k
  {
    var s := Initial(start, stop, capacity, tables);
    if k == 0 {
      es := [];
      assert AllWorking(0) == [];
    } else {
      var shorter := DispatchAll(codec, start, stop, capacity, tables, k - 1);
      RunThenStep(codec, s, shorter, Check);
      RunThenStep(codec, s, shorter + [Check], Acquire);
      es := shorter + [Check] + [Acquire];
      assert AllWorking(k) == AllWorking(k - 1) + [Working];
    }
  }

  /** Exactly as many workers can be at work at once as there are tokens and heights. */
  lemma ConcurrencyIff(codec: Codec, start: nat, stop: nat, capacity: nat, tables: Tables, k: nat)
    requires start <= MAX_HEIGHT && stop < MAX_HEIGHT
    ensures (exists es :: && IsRun(codec, Initial(start, stop, capacity, tables), es)
                          && Run(Initial(start, stop, capacity, tables), es).workers == AllWorking(k)) <==>
              k <= capacity && k <= Span(start, stop)
  {
    var s := Initial(start, stop, capacity, tables);
    if k <= capacity && k <= Span(start, stop) {
      var es := DispatchAll(codec, start, stop, capacity, tables, k);
    }
    forall es | IsRun(codec, s, es) && Run(s, es).workers == AllWorking(k)
      ensures k <= capacity && k <= Span(start, stop)
    {
      InitialInv(start, stop, capacity, tables);
      RunKeepsInv(codec, s, es);
      AllHold(k);
    }
  }

  /** These workers commit, one after the other. */
  function Commits(order: seq<nat>, writes: nat -> Write): seq<Event> {
    if order == [] then [] else [End(order[0], true, Some(writes(order[0])))] + Commits(order[1..], writes)
  }

  predicate MayCommit(codec: Codec, s: Pool, i: nat, w: Write) {
    i < |s.workers| && s.workers[i] == Working && Possible(codec, HeightOf(s.start, i), w)
  }

  lemma CommitLeavesOthers(codec: Codec, s: Pool, i: nat, w: Write, k: nat, w': Write)
    requires MayCommit(codec, s, i, w) && MayCommit(codec, s, k, w') && i != k
    ensures MayCommit(codec, Next(s, End(i, true, Some(w))), k, w')
  {
  }

  /** Workers that are at work can commit in any order. */
  lemma {:induction false} AnyOrderOfCommits(codec: Codec, s: Pool, order: seq<nat>, writes: nat -> Write)
    requires forall j :: 0 <= j < |order| ==> MayCommit(codec, s, order[j], writes(order[j]))
    requires forall i, j :: 0 <= i < j < |order| ==> order[i] != order[j]
    ensures IsRun(codec, s, Commits(order, writes))
    decreases |order|
  {
    if order != [] {
      var es, e, rest := Commits(order, writes), End(order[0], true, Some(writes(order[0]))), order[1..];
      assert es[0] == e && es[1..] == Commits(rest, writes);
      assert MayCommit(codec, s, order[0], writes(order[0])) && Enabled(codec, s, e);
      forall j | 0 <= j < |rest|
        ensures MayCommit(codec, Next(s, e), rest[j], writes(rest[j]))
      {
        assert rest[j] == order[j + 1] && order[0] != order[j + 1];
        CommitLeavesOthers(codec, s, order[0], writes(order[0]), order[j + 1], writes(order[j + 1]));
      }
      AnyOrderOfCommits(codec, Next(s, e), rest, writes);
    }
  }

  /** The schedule contains a cancellation or a worker's error. */
  ghost predicate HasCause(es: seq<Event>) {
    exists k :: 0 <= k < |es| && IsCause(es[k])
  }

  predicate IsCause(e: Event) {
    e.Cancel? || (e.End? && !e.ok)
  }

  predicate Untroubled(s: Pool) {
    && !s.cancelled && !s.failed && s.phase != Returned(false)
    && forall i :: 0 <= i < |s.workers| ==> s.workers[i].Working? || s.workers[i].ok
  }

  /** An error is returned only if the caller cancelled or some worker failed. */
  lemma {:induction false} FailureHasCause(codec: Codec, s: Pool, es: seq<Event>)
    requires Untroubled(s) && IsRun(codec, s, es) && Run(s, es).phase == Returned(false)
    ensures HasCause(es)
    decreases |es|
  {
    if IsCause(es[0]) {
      assert HasCause(es);
    } else {
      FailureHasCause(codec, Next(s, es[0]), es[1..]);
      var k :| 0 <= k < |es[1..]| && IsCause(es[1..][k]);
      assert IsCause(es[k + 1]);
    }
  }

  predicate Final(s: Pool) {
    s.phase.Returned?
  }

  /**
   The call returns at the loop head, with an error, if the context is done, or when all workers are
   reported, and then with an error exactly if one of them failed, whether the context is done or not.
   */
  lemma ReturnsWhen(codec: Codec, s: Pool, e: Event)
    requires Inv(s) && Enabled(codec, s, e) && !Final(s) && Final(Next(s, e))
    ensures if s.phase == Checking then s.cancelled && !Next(s, e).phase.ok
            else
              && s.phase == Waiting && (forall i :: 0 <= i < |s.workers| ==> s.workers[i].Reported?)
              && (Next(s, e).phase.ok <==> forall i :: 0 <= i < |s.workers| ==> s.workers[i].ok)
  {
    if s.phase == Waiting && s.failed {
      var i :| 0 <= i < |s.workers| && s.workers[i] == Reported(false);
    } else if s.phase == Waiting {
      forall i | 0 <= i < |s.workers|
        ensures s.workers[i].Reported? && s.workers[i].ok
      {
        assert s.workers[i] != Reported(false);
      }
    }
  }

  /** With a token to give, a pool that has not returned can always take a step of its own. */
  lemma NeverStuck(codec: Codec, s: Pool)
    requires Inv(s) && s.capacity >= 1 && !Final(s)
    ensures exists e :: Enabled(codec, s, e) && e != Cancel
  {
    match s.phase {
      case Checking =>
        assert Enabled(codec, s, Check) || Enabled(codec, s, LoopEnds);
      case Acquiring =>
        if s.tokens < s.capacity {
          assert Enabled(codec, s, Acquire);
        } else {
          var i := SomeHolder(s.workers);
          assert Enabled(codec, s, if s.workers[i].Working? then End(i, false, None) else Release(i));
        }
      case Waiting =>
        if forall i :: 0 <= i < |s.workers| ==> s.workers[i].Reported? {
          assert Enabled(codec, s, Return);
        } else {
          var i :| 0 <= i < |s.workers| && !s.workers[i].Reported?;
          assert Enabled(codec, s, if s.workers[i].Working? then End(i, false, None)
                                   else if s.workers[i].Ended? then Release(i) else Report(i));
        }
    }
  }

  lemma {:induction false} SomeHolder(ws: seq<Stage>) returns (i: nat)
    requires Holding(ws) > 0
    ensures i < |ws| && HoldsToken(ws[i])
    decreases |ws|
  {
    var k := |ws| - 1;
    if HoldsToken(ws[k]) {
      i := k;
    } else {
      i := SomeHolder(ws[..k]);
    }
  }

  function Remaining(w: Stage): nat {
    match w
    case Working => 3
    case Ended(_) => 2
    case Released(_) => 1
    case Reported(_) => 0
  }

  function Work(ws: seq<Stage>): nat {
    if ws == [] then 0 else Work(ws[..|ws| - 1]) + Remaining(ws[|ws| - 1])
  }

  lemma WorkOfUpdate(ws: seq<Stage>, i: nat, w: Stage)
    requires i < |ws|
    ensures Work(ws[i := w]) + Remaining(ws[i]) == Work(ws) + Remaining(w)
    decreases |ws|
  {
    var k := |ws| - 1;
    if i < k {
      assert ws[i := w][..k] == ws[..k][i := w];
      WorkOfUpdate(ws[..k], i, w);
    } else {
      assert ws[i := w][..k] == ws[..k];
    }
  }

  lemma WorkOfAppend(ws: seq<Stage>, w: Stage)
    ensures Work(ws + [w]) == Work(ws) + Remaining(w)
  {
  }

  function PhaseWeight(p: Phase): nat {
    match p
    case Checking => 3
    case Acquiring => 2
    case Waiting => 1
    case Returned(_) => 0
  }

  /** Undispatched heights, unfinished workers, the dispatcher's place, and the caller's one cancellation. */
  function Measure(s: Pool): int {
    8 * (Span(s.start, s.stop) - |s.workers|) + Work(s.workers) + PhaseWeight(s.phase) + (if s.cancelled then 0 else 1)
  }

  lemma StepDecreasesMeasure(codec: Codec, s: Pool, e: Event)
    requires Inv(s) && Enabled(codec, s, e)
    ensures Measure(Next(s, e)) < Measure(s)
  {
    match e {
      case Acquire => WorkOfAppend(s.workers, Working);
      case End(i, ok, write) => WorkerStepDecreasesMeasure(s, i, Ended(ok));
      case Release(i) =>
        HoldingIsPositive(s.workers, i);
        WorkerStepDecreasesMeasure(s, i, Released(s.workers[i].ok));
      case Report(i) => WorkerStepDecreasesMeasure(s, i, Reported(s.workers[i].ok));
      case _ =>
    }
  }

  lemma WorkerStepDecreasesMeasure(s: Pool, i: nat, w: Stage)
    requires i < |s.workers| && Remaining(w) < Remaining(s.workers[i])
    ensures Measure(s.(workers := s.workers[i := w])) < Measure(s)
  {
    WorkOfUpdate(s.workers, i, w);
  }

  lemma MeasureIsNatural(s: Pool)
    requires Inv(s) && s.stop < MAX_HEIGHT
    ensures Measure(s) >= 0
  {
  }

  /** No schedule is longer than the measure of its first state. */
  lemma {:induction false} RunsAreBounded(codec: Codec, s: Pool, es: seq<Event>)
    requires Inv(s) && s.stop < MAX_HEIGHT && IsRun(codec, s, es)
    ensures |es| <= Measure(s)
    decreases |es|
  {
    if es != [] {
      StepKeepsInv(codec, s, es[0]);
      StepDecreasesMeasure(codec, s, es[0]);
      RunsAreBounded(codec, Next(s, es[0]), es[1..]);
    } else {
      if s.stop < MAX_HEIGHT {
        NoWrap(s);
      }
    }
  }

  /** A range that ends at the last 64-bit height is never finished: the loop test never fails. */
  lemma LastHeightNeverFinishes(s: Pool)
    requires Inv(s) && s.stop == MAX_HEIGHT
    ensures s.phase != Waiting && s.phase != Returned(true)
  {
  }

  /** Without tokens the dispatcher stays at its first acquisition: a cancellation is possible, but changes nothing. */
  lemma NoTokensNoProgress(codec: Codec, s: Pool, e: Event)
    requires Inv(s) && s.capacity == 0 && s.phase == Acquiring && Enabled(codec, s, e)
    ensures e == Cancel && Next(s, e).phase == Acquiring && Next(s, e).workers == []
  {
  }

  /** `s` is where the schedule `es` leads from the start of `processBlocks`. */
  ghost predicate Reached(codec: Codec, start: nat, stop: nat, capacity: nat, tables: Tables, es: seq<Event>, s: Pool) {
    && start <= MAX_HEIGHT && stop < MAX_HEIGHT && capacity >= 1
    && IsRun(codec, Initial(start, stop, capacity, tables), es)
    && Run(Initial(start, stop, capacity, tables), es) == s
  }

  lemma ReachedInv(codec: Codec, start: nat, stop: nat, capacity: nat, tables: Tables, es: seq<Event>, s: Pool)
    requires Reached(codec, start, stop, capacity, tables, es, s)
    ensures Inv(s) && s.start == start && s.stop == stop && s.capacity == capacity
  {
    InitialInv(start, stop, capacity, tables);
    RunKeepsInv(codec, Initial(start, stop, capacity, tables), es);
  }

  lemma ReachedNext(codec: Codec, start: nat, stop: nat, capacity: nat, tables: Tables, es: seq<Event>, s: Pool,
    e: Event)
    requires Reached(codec, start, stop, capacity, tables, es, s) && Enabled(codec, s, e)
    ensures Reached(codec, start, stop, capacity, tables, es + [e], Next(s, e))
    ensures 0 <= Measure(Next(s, e)) < Measure(s)
  {
    ReachedInv(codec, start, stop, capacity, tables, es, s);
    RunThenStep(codec, Initial(start, stop, capacity, tables), es, e);
    StepDecreasesMeasure(codec, s, e);
    ReachedInv(codec, start, stop, capacity, tables, es + [e], Next(s, e));
    MeasureIsNatural(Next(s, e));
  }

  lemma ReachedHeights(codec: Codec, start: nat, stop: nat, capacity: nat, tables: Tables, es: seq<Event>, s: Pool)
    requires Reached(codec, start, stop, capacity, tables, es, s)
    ensures forall h :: h in s.stored ==> start <= h <= stop
    ensures s.phase == Returned(true) ==> forall h :: start <= h <= stop ==> h in s.stored
  {
    DispatchedExactlyOnce(codec, start, stop, capacity, tables, es);
  }
}
