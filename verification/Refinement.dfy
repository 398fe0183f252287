/**
 What the workers leave in the tables: any interleaving amounts to processing the stored heights one
 after the other, and the tables stay whole in every reachable state.
 */
module Refinement {
  import opened Decimals
  import opened Store
  import opened Transactions
  import opened WorkerPool
  import opened Wrappers

  /** A node whose answers depend on the height and on the hash alone. */
  datatype Chain = Chain(json: nat -> string, details: string -> string)

  function RecordsOf(codec: Codec, chain: Chain, entries: seq<string>): seq<Record> {
    seq(|entries|, i requires 0 <= i < |entries| =>
      var hash := HashOf(codec, entries[i]); Record(hash, chain.details(hash)))
  }

  function EntriesAt(codec: Codec, chain: Chain, h: nat): seq<string> {
    Entries(codec, chain.json(h))
  }

  function ChainWrite(codec: Codec, chain: Chain, h: nat): Write {
    Write(Block(h, chain.json(h)), RecordsOf(codec, chain, EntriesAt(codec, chain, h)))
  }

  /** Processing `n` heights from `start` upwards, one at a time. */
  function Sequential(codec: Codec, chain: Chain, t: Tables, start: nat, n: nat): Tables
    decreases n
  {
    if n == 0 then t
    else
      var w := ChainWrite(codec, chain, start + n - 1);
      Written(Sequential(codec, chain, t, start, n - 1), w.block, w.records)
  }

  ghost function HashSet(codec: Codec, entries: seq<string>): set<string> {
    set i | 0 <= i < |entries| :: HashOf(codec, entries[i])
  }

  ghost function Hashes(codec: Codec, chain: Chain, heights: set<nat>): set<string> {
    set h, x | h in heights && x in HashSet(codec, EntriesAt(codec, chain, h)) :: x
  }

  /** `m` with every key of `keys` set to its value under `f`. */
  ghost function Laid<K(!new), V>(m: map<K, V>, keys: set<K>, f: K -> V): map<K, V> {
    m + map k | k in keys :: f(k)
  }

  lemma LaidTwice<K(!new), V>(m: map<K, V>, keys: set<K>, more: set<K>, f: K -> V)
    ensures Laid(Laid(m, keys, f), more, f) == Laid(m, keys + more, f)
  {
  }

  lemma LaidOne<K(!new), V>(m: map<K, V>, keys: set<K>, k: K, f: K -> V)
    ensures Laid(m, keys, f)[k := f(k)] == Laid(m, keys + {k}, f)
    ensures Laid(m, {}, f) == m
  {
  }

  /** `t` with the blocks of `heights` and all their transactions laid over it, in no order. */
  ghost function Overlay(codec: Codec, chain: Chain, t: Tables, heights: set<nat>): Tables {
    Tables(Laid(t.blocks, heights, chain.json),
           Laid(t.transactions, Hashes(codec, chain, heights), chain.details))
  }

  ghost predicate FromChain(codec: Codec, chain: Chain, s: Pool, e: Event) {
    e.End? && e.write.Some? ==> e.write.value == ChainWrite(codec, chain, HeightOf(s.start, e.i))
  }

  ghost predicate RunFromChain(codec: Codec, chain: Chain, s: Pool, es: seq<Event>)
    decreases |es|
  {
    es == [] || (FromChain(codec, chain, s, es[0]) && RunFromChain(codec, chain, Next(s, es[0]), es[1..]))
  }

  lemma {:induction false} ChainRunThenStep(codec: Codec, chain: Chain, s: Pool, es: seq<Event>, e: Event)
    requires IsRun(codec, s, es) && RunFromChain(codec, chain, s, es) && FromChain(codec, chain, Run(s, es), e)
    ensures RunFromChain(codec, chain, s, es + [e])
    decreases |es|
  {
    var longer := es + [e];
    if es == [] {
      assert longer[1..] == [];
    } else {
      ChainRunThenStep(codec, chain, Next(s, es[0]), es[1..], e);
      assert longer[0] == es[0] && longer[1..] == es[1..] + [e];
    }
  }

  lemma {:induction false} UpsertIsLaid(codec: Codec, chain: Chain, rows: map<string, string>, entries: seq<string>)
    ensures UpsertAll(rows, RecordsOf(codec, chain, entries)) == Laid(rows, HashSet(codec, entries), chain.details)
    decreases |entries|
  {
    if entries == [] {
      LaidOne(rows, {}, "", chain.details);
      assert HashSet(codec, entries) == {};
    } else {
      var hash := HashOf(codec, entries[0]);
      var records := RecordsOf(codec, chain, entries);
      assert records[0] == Record(hash, chain.details(hash));
      assert records[1..] == RecordsOf(codec, chain, entries[1..]);
      UpsertIsLaid(codec, chain, rows[hash := chain.details(hash)], entries[1..]);
      HashSetSplits(codec, entries);
      LaidOne(rows, {}, hash, chain.details);
      LaidTwice(rows, {hash}, HashSet(codec, entries[1..]), chain.details);
      assert {} + {hash} == {hash};
    }
  }

  lemma HashSetSplits(codec: Codec, entries: seq<string>)
    requires entries != []
    ensures HashSet(codec, entries) == {HashOf(codec, entries[0])} + HashSet(codec, entries[1..])
  {
  }

  lemma HashesOfAdd(codec: Codec, chain: Chain, heights: set<nat>, h: nat)
    ensures Hashes(codec, chain, heights + {h})
         == Hashes(codec, chain, heights) + HashSet(codec, EntriesAt(codec, chain, h))
  {
  }

  /** One more committed block extends the overlay, whatever the order so far. */
  lemma WriteExtendsOverlay(codec: Codec, chain: Chain, t: Tables, heights: set<nat>, h: nat)
    ensures var w := ChainWrite(codec, chain, h);
            Written(Overlay(codec, chain, t, heights), w.block, w.records) == Overlay(codec, chain, t, heights + {h})
  {
    var rows := Laid(t.transactions, Hashes(codec, chain, heights), chain.details);
    var entries := EntriesAt(codec, chain, h);
    UpsertIsLaid(codec, chain, rows, entries);
    HashesOfAdd(codec, chain, heights, h);
    LaidTwice(t.transactions, Hashes(codec, chain, heights), HashSet(codec, entries), chain.details);
    LaidOne(t.blocks, heights, h, chain.json);
  }

  lemma OverlayOfNothing(codec: Codec, chain: Chain, t: Tables)
    ensures Overlay(codec, chain, t, {}) == t
  {
  }

  lemma StepIsOverlay(codec: Codec, chain: Chain, t: Tables, s: Pool, e: Event)
    requires Enabled(codec, s, e) && FromChain(codec, chain, s, e)
    requires s.tables == Overlay(codec, chain, t, s.stored)
    ensures Next(s, e).tables == Overlay(codec, chain, t, Next(s, e).stored)
  {
    if e.End? && e.write.Some? {
      WriteExtendsOverlay(codec, chain, t, s.stored, HeightOf(s.start, e.i));
    }
  }

  /** In every reachable state, of failing runs too, the tables are the overlay of the stored heights. */
  lemma {:induction false} RunIsOverlay(codec: Codec, chain: Chain, t: Tables, s: Pool, es: seq<Event>)
    requires IsRun(codec, s, es) && RunFromChain(codec, chain, s, es)
    requires s.tables == Overlay(codec, chain, t, s.stored)
    ensures Run(s, es).tables == Overlay(codec, chain, t, Run(s, es).stored)
    decreases |es|
  {
    if es != [] {
      StepIsOverlay(codec, chain, t, s, es[0]);
      RunIsOverlay(codec, chain, t, Next(s, es[0]), es[1..]);
    }
  }

  ghost function Range(start: nat, n: nat): (r: set<nat>)
    ensures forall h :: h in r <==> start <= h < start + n
  {
    if n == 0 then {} else Range(start, n - 1) + {start + n - 1}
  }

  lemma SequentialExtends(codec: Codec, chain: Chain, t: Tables, start: nat, n: nat, heights: set<nat>)
    requires n > 0 && Sequential(codec, chain, t, start, n - 1) == Overlay(codec, chain, t, heights)
    ensures Sequential(codec, chain, t, start, n) == Overlay(codec, chain, t, heights + {start + n - 1})
  {
    WriteExtendsOverlay(codec, chain, t, heights, start + n - 1);
  }

  lemma {:induction false} SequentialIsOverlay(codec: Codec, chain: Chain, t: Tables, start: nat, n: nat)
    ensures Sequential(codec, chain, t, start, n) == Overlay(codec, chain, t, Range(start, n))
    decreases n
  {
    if n == 0 {
      assert Range(start, n) == {};
      OverlayOfNothing(codec, chain, t);
    } else {
      SequentialIsOverlay(codec, chain, t, start, n - 1);
      SequentialExtends(codec, chain, t, start, n, Range(start, n - 1));
      assert Range(start, n) == Range(start, n - 1) + {start + n - 1};
    }
  }

  /** Any schedule that returns nil leaves the tables that processing the range in order leaves. */
  lemma SuccessIsSequential(codec: Codec, chain: Chain, start: nat, stop: nat, capacity: nat, t: Tables, es: seq<Event>)
    requires start <= MAX_HEIGHT && stop < MAX_HEIGHT
    requires IsRun(codec, Initial(start, stop, capacity, t), es)
    requires RunFromChain(codec, chain, Initial(start, stop, capacity, t), es)
    requires Run(Initial(start, stop, capacity, t), es).phase == Returned(true)
    ensures Run(Initial(start, stop, capacity, t), es).tables == Sequential(codec, chain, t, start, Span(start, stop))
  {
    var s := Run(Initial(start, stop, capacity, t), es);
    OverlayOfNothing(codec, chain, t);
    RunIsOverlay(codec, chain, t, Initial(start, stop, capacity, t), es);
    SequentialIsOverlay(codec, chain, t, start, Span(start, stop));
    DispatchedExactlyOnce(codec, start, stop, capacity, t, es);
    assert s.stored == Range(start, Span(start, stop));
  }

  /** Processing a range again, under any schedule of its own, changes nothing. */
  lemma RerunChangesNothing(codec: Codec, chain: Chain, start: nat, stop: nat, capacity: nat, capacity': nat,
    t: Tables, es: seq<Event>, es': seq<Event>)
    requires start <= MAX_HEIGHT && stop < MAX_HEIGHT
    requires IsRun(codec, Initial(start, stop, capacity, t), es)
    requires RunFromChain(codec, chain, Initial(start, stop, capacity, t), es)
    requires Run(Initial(start, stop, capacity, t), es).phase == Returned(true)
    requires var t' := Run(Initial(start, stop, capacity, t), es).tables;
             && IsRun(codec, Initial(start, stop, capacity', t'), es')
             && RunFromChain(codec, chain, Initial(start, stop, capacity', t'), es')
    ensures var t' := Run(Initial(start, stop, capacity, t), es).tables;
            Run(Initial(start, stop, capacity', t'), es').tables == t'
  {
    var t' := Run(Initial(start, stop, capacity, t), es).tables;
    var s' := Run(Initial(start, stop, capacity', t'), es');
    SuccessIsSequential(codec, chain, start, stop, capacity, t, es);
    SequentialIsOverlay(codec, chain, t, start, Span(start, stop));
    OverlayOfNothing(codec, chain, t');
    RunIsOverlay(codec, chain, t', Initial(start, stop, capacity', t'), es');
    DispatchedExactlyOnce(codec, start, stop, capacity', t', es');
    OverlayTwice(codec, chain, t, Range(start, Span(start, stop)), s'.stored);
  }

  lemma OverlayTwice(codec: Codec, chain: Chain, t: Tables, heights: set<nat>, again: set<nat>)
    requires again <= heights
    ensures Overlay(codec, chain, Overlay(codec, chain, t, heights), again) == Overlay(codec, chain, t, heights)
  {
    LaidTwice(t.blocks, heights, again, chain.json);
    assert heights + again == heights;
    LaidTwice(t.transactions, Hashes(codec, chain, heights), Hashes(codec, chain, again), chain.details);
    assert Hashes(codec, chain, heights) + Hashes(codec, chain, again) == Hashes(codec, chain, heights);
  }

  /** Every transaction listed in a stored block has a row. */
  ghost predicate Whole(codec: Codec, t: Tables) {
    match t
    case Tables(blocks, transactions) => forall h :: h in blocks ==> BlockIsWhole(codec, blocks[h], transactions)
  }

  ghost predicate BlockIsWhole(codec: Codec, data: string, transactions: map<string, string>) {
    var entries := Entries(codec, data);
    forall i :: 0 <= i < |entries| ==> HashOf(codec, entries[i]) in transactions
  }

  lemma WriteKeepsWhole(codec: Codec, t: Tables, h: nat, w: Write)
    requires Whole(codec, t) && Possible(codec, h, w)
    ensures Whole(codec, Written(t, w.block, w.records))
  {
    UpsertKeys(t.transactions, w.records);
    var t' := Written(t, w.block, w.records);
    forall k | k in t'.blocks
      ensures BlockIsWhole(codec, t'.blocks[k], t'.transactions)
    {
      if k == w.block.id {
        var entries := Entries(codec, w.block.data);
        forall i | 0 <= i < |entries|
          ensures HashOf(codec, entries[i]) in t'.transactions
        {
          assert w.records[i].hash == HashOf(codec, entries[i]);
        }
      } else {
        assert BlockIsWhole(codec, t.blocks[k], t.transactions);
      }
    }
  }

  lemma WriteEffect(codec: Codec, t: Tables, h: nat, w: Write)
    requires Possible(codec, h, w)
    ensures Written(t, w.block, w.records).blocks.Keys == t.blocks.Keys + {h}
    ensures Whole(codec, t) ==> Whole(codec, Written(t, w.block, w.records))
  {
    if Whole(codec, t) {
      WriteKeepsWhole(codec, t, h, w);
    }
  }

  /** Through interleavings, failures, lost acknowledgements and cancellations alike. */
  lemma {:induction false} RunKeepsWhole(codec: Codec, s: Pool, es: seq<Event>)
    requires Whole(codec, s.tables) && IsRun(codec, s, es)
    ensures Whole(codec, Run(s, es).tables)
    decreases |es|
  {
    if es != [] {
      var e := es[0];
      if e.End? && e.write.Some? {
        WriteKeepsWhole(codec, s.tables, HeightOf(s.start, e.i), e.write.value);
      }
      RunKeepsWhole(codec, Next(s, e), es[1..]);
    }
  }

  /** What holds of the pool when the call returns. */
  lemma ReturnMeans(codec: Codec, chain: Chain, start: nat, stop: nat, capacity: nat, t: Tables, es: seq<Event>,
    s: Pool)
    requires Reached(codec, start, stop, capacity, t, es, s) && Final(s)
    ensures Inv(s) && s.start == start && s.stop == stop
    ensures forall h :: h in s.stored ==> start <= h <= stop
    ensures s.phase.ok ==> forall h :: start <= h <= stop ==> h in s.stored
    ensures !s.phase.ok ==> HasCause(es)
    ensures Whole(codec, t) ==> Whole(codec, s.tables)
    ensures s.phase.ok && RunFromChain(codec, chain, Initial(start, stop, capacity, t), es) ==>
              s.tables == Sequential(codec, chain, t, start, Span(start, stop))
  {
    ReachedInv(codec, start, stop, capacity, t, es, s);
    ReachedHeights(codec, start, stop, capacity, t, es, s);
    if Whole(codec, t) {
      RunKeepsWhole(codec, Initial(start, stop, capacity, t), es);
    }
    if !s.phase.ok {
      FailureHasCause(codec, Initial(start, stop, capacity, t), es);
    } else if RunFromChain(codec, chain, Initial(start, stop, capacity, t), es) {
      SuccessIsSequential(codec, chain, start, stop, capacity, t, es);
    }
  }

  /** Some schedule from `s` returns nil. */
  ghost predicate CanSucceed(codec: Codec, chain: Chain, s: Pool) {
    exists es :: IsRun(codec, s, es) && RunFromChain(codec, chain, s, es) && Run(s, es).phase == Returned(true)
  }

  lemma SucceedsAfter(codec: Codec, chain: Chain, s: Pool, e: Event)
    requires Enabled(codec, s, e) && FromChain(codec, chain, s, e) && CanSucceed(codec, chain, Next(s, e))
    ensures CanSucceed(codec, chain, s)
  {
    var rest :| IsRun(codec, Next(s, e), rest) && RunFromChain(codec, chain, Next(s, e), rest)
             && Run(Next(s, e), rest).phase == Returned(true);
    var es := [e] + rest;
    assert es[1..] == rest;
    assert IsRun(codec, s, es) && RunFromChain(codec, chain, s, es) && Run(s, es).phase == Returned(true);
  }

  /** At the loop head with every worker so far done and nothing gone wrong. */
  ghost predicate AtRest(s: Pool) {
    && Inv(s) && s.phase == Checking && !s.cancelled && !s.failed
    && s.workers == seq(|s.workers|, i => Reported(true))
  }

  ghost predicate Extractable(codec: Codec, chain: Chain, start: nat, stop: nat) {
    forall h :: start <= h <= stop ==> Possible(codec, h, ChainWrite(codec, chain, h))
  }

  lemma {:induction false} NobodyHolds(ws: seq<Stage>)
    requires ws == seq(|ws|, i => Reported(true))
    ensures Holding(ws) == 0
    decreases |ws|
  {
    if ws != [] {
      var front := ws[..|ws| - 1];
      assert front == seq(|front|, i => Reported(true));
      NobodyHolds(front);
    }
  }

  function AfterRound(codec: Codec, chain: Chain, s: Pool): Pool {
    var w := ChainWrite(codec, chain, s.next);
    s.(next := s.next + 1, workers := s.workers + [Reported(true)],
       stored := s.stored + {s.next}, tables := Written(s.tables, w.block, w.records))
  }

  /** The pool while the next height's worker is at `stage`. */
  function DuringRound(s: Pool, stage: Stage, tokens: nat): Pool {
    s.(next := s.next + 1, tokens := tokens, workers := s.workers + [stage])
  }

  /** A worker is dispatched. */
  lemma RoundStarts(codec: Codec, s: Pool)
    requires AtRest(s) && s.capacity >= 1 && s.stop < MAX_HEIGHT && s.next <= s.stop
    ensures Enabled(codec, s, Check) && Next(s, Check) == s.(phase := Acquiring)
    ensures Enabled(codec, s.(phase := Acquiring), Acquire)
    ensures Next(s.(phase := Acquiring), Acquire) == DuringRound(s, Working, 1)
  {
    NoWrap(s);
    NobodyHolds(s.workers);
  }

  /** It commits, gives its token back and is reported. */
  lemma RoundEnds(codec: Codec, chain: Chain, s: Pool)
    requires AtRest(s) && s.stop < MAX_HEIGHT && s.next <= s.stop
    requires Possible(codec, s.next, ChainWrite(codec, chain, s.next))
    ensures var k := |s.workers|;
            var end := End(k, true, Some(ChainWrite(codec, chain, s.next)));
            var b := DuringRound(s, Working, 1);
            var c := Next(b, end);
            var d := Next(c, Release(k));
            && Enabled(codec, b, end) && FromChain(codec, chain, b, end)
            && Enabled(codec, c, Release(k))
            && Enabled(codec, d, Report(k)) && AfterRound(codec, chain, s) == Next(d, Report(k))
  {
    NoWrap(s);
    NobodyHolds(s.workers);
    var k := |s.workers|;
    assert HeightOf(s.start, k) == s.next;
    assert (s.workers + [Working])[k := Ended(true)] == s.workers + [Ended(true)];
    assert (s.workers + [Ended(true)])[k := Released(true)] == s.workers + [Released(true)];
    assert (s.workers + [Released(true)])[k := Reported(true)] == s.workers + [Reported(true)];
  }

  /** One worker, started and finished before the next: five steps. */
  lemma RoundSteps(codec: Codec, chain: Chain, s: Pool) returns (a: Pool, b: Pool, c: Pool, d: Pool)
    requires AtRest(s) && s.capacity >= 1 && s.stop < MAX_HEIGHT && s.next <= s.stop
    requires Possible(codec, s.next, ChainWrite(codec, chain, s.next))
    ensures var k := |s.workers|;
            var end := End(k, true, Some(ChainWrite(codec, chain, s.next)));
            && Enabled(codec, s, Check) && a == Next(s, Check)
            && Enabled(codec, a, Acquire) && b == Next(a, Acquire)
            && Enabled(codec, b, end) && c == Next(b, end) && FromChain(codec, chain, b, end)
            && Enabled(codec, c, Release(k)) && d == Next(c, Release(k))
            && Enabled(codec, d, Report(k)) && AfterRound(codec, chain, s) == Next(d, Report(k))
  {
    RoundStarts(codec, s);
    RoundEnds(codec, chain, s);
    a := s.(phase := Acquiring);
    b := DuringRound(s, Working, 1);
    c := Next(b, End(|s.workers|, true, Some(ChainWrite(codec, chain, s.next))));
    d := Next(c, Release(|s.workers|));
  }

  lemma RoundKeepsRest(codec: Codec, chain: Chain, s: Pool)
    requires AtRest(s) && s.capacity >= 1 && s.stop < MAX_HEIGHT && s.next <= s.stop
    requires Possible(codec, s.next, ChainWrite(codec, chain, s.next))
    ensures AtRest(AfterRound(codec, chain, s))
  {
    var a, b, c, d := RoundSteps(codec, chain, s);
    var k := |s.workers|;
    var s' := AfterRound(codec, chain, s);
    assert Inv(s') by {
      FiveStepsKeepInv(codec, s, a, b, c, d, Check, Acquire, End(k, true, Some(ChainWrite(codec, chain, s.next))),
                       Release(k), Report(k));
    }
    assert s'.workers == seq(|s'.workers|, i => Reported(true));
  }

  lemma FiveStepsKeepInv(codec: Codec, s: Pool, a: Pool, b: Pool, c: Pool, d: Pool, e0: Event, e1: Event, e2: Event,
    e3: Event, e4: Event)
    requires Inv(s)
    requires Enabled(codec, s, e0) && a == Next(s, e0)
    requires Enabled(codec, a, e1) && b == Next(a, e1)
    requires Enabled(codec, b, e2) && c == Next(b, e2)
    requires Enabled(codec, c, e3) && d == Next(c, e3)
    requires Enabled(codec, d, e4)
    ensures Inv(Next(d, e4))
  {
    assert Inv(a) by { StepKeepsInv(codec, s, e0); }
    assert Inv(b) by { StepKeepsInv(codec, a, e1); }
    assert Inv(c) by { StepKeepsInv(codec, b, e2); }
    assert Inv(d) by { StepKeepsInv(codec, c, e3); }
    StepKeepsInv(codec, d, e4);
  }

  lemma RoundCanSucceed(codec: Codec, chain: Chain, s: Pool)
    requires AtRest(s) && s.capacity >= 1 && s.stop < MAX_HEIGHT && s.next <= s.stop
    requires Possible(codec, s.next, ChainWrite(codec, chain, s.next))
    requires CanSucceed(codec, chain, AfterRound(codec, chain, s))
    ensures CanSucceed(codec, chain, s)
  {
    var a, b, c, d := RoundSteps(codec, chain, s);
    var k := |s.workers|;
    SucceedsAfter(codec, chain, d, Report(k));
    SucceedsAfter(codec, chain, c, Release(k));
    SucceedsAfter(codec, chain, b, End(k, true, Some(ChainWrite(codec, chain, s.next))));
    SucceedsAfter(codec, chain, a, Acquire);
    SucceedsAfter(codec, chain, s, Check);
  }

  lemma {:induction false} RestCanSucceed(codec: Codec, chain: Chain, s: Pool)
    requires AtRest(s) && s.capacity >= 1 && s.stop < MAX_HEIGHT && Extractable(codec, chain, s.start, s.stop)
    ensures CanSucceed(codec, chain, s)
    decreases s.stop - s.next
  {
    if s.next > s.stop {
      var waiting := s.(phase := Waiting);
      var done := s.(phase := Returned(true));
      assert IsRun(codec, done, []) && RunFromChain(codec, chain, done, []) && Run(done, []).phase == Returned(true);
      assert Next(waiting, Return) == done;
      SucceedsAfter(codec, chain, waiting, Return);
      assert Next(s, LoopEnds) == waiting;
      SucceedsAfter(codec, chain, s, LoopEnds);
    } else {
      NoWrap(s);
      RoundKeepsRest(codec, chain, s);
      RestCanSucceed(codec, chain, AfterRound(codec, chain, s));
      RoundCanSucceed(codec, chain, s);
    }
  }

  /** A nil return is possible exactly when the range stops short of the last 64-bit height. */
  lemma SuccessIffStopIsNotLast(codec: Codec, chain: Chain, start: nat, stop: nat, capacity: nat, t: Tables)
    requires start <= MAX_HEIGHT && stop <= MAX_HEIGHT && capacity >= 1 && Extractable(codec, chain, start, stop)
    ensures CanSucceed(codec, chain, Initial(start, stop, capacity, t)) <==> stop < MAX_HEIGHT
  {
    var s := Initial(start, stop, capacity, t);
    InitialInv(start, stop, capacity, t);
    if stop < MAX_HEIGHT {
      RestCanSucceed(codec, chain, s);
    } else if CanSucceed(codec, chain, s) {
      var es :| IsRun(codec, s, es) && RunFromChain(codec, chain, s, es) && Run(s, es).phase == Returned(true);
      RunKeepsInv(codec, s, es);
      LastHeightNeverFinishes(Run(s, es));
    }
  }

  /** Some worker has not been reported to the error group. */
  ghost predicate LeftOver(s: Pool) {
    exists i :: 0 <= i < |s.workers| && !s.workers[i].Reported?
  }

  /** A return leaves workers over exactly when it is the exit at the loop head and some are unreported. */
  lemma LeftOverIffLoopHeadExit(codec: Codec, s: Pool, e: Event)
    requires Enabled(codec, s, e) && !Final(s) && Final(Next(s, e))
    ensures LeftOver(Next(s, e)) <==> e == Check && s.cancelled && LeftOver(s)
  {
  }

  /** The run returns an error, and the worker's commit `e` can still follow. */
  ghost predicate ReturnsBefore(codec: Codec, s: Pool, es: seq<Event>, e: Event) {
    && IsRun(codec, s, es)
    && Run(s, es).phase == Returned(false)
    && e.End? && e.write.Some?
    && Enabled(codec, Run(s, es), e)
  }

  /** `cancels` says whether the caller may cancel, or only a worker's own error. */
  ghost predicate CanReturnBefore(codec: Codec, s: Pool, cancels: bool) {
    exists es, e :: ReturnsBefore(codec, s, es, e) && (!cancels ==> Cancel !in es)
  }

  lemma ReturnsBeforeAfter(codec: Codec, s: Pool, first: Event, cancels: bool)
    requires Enabled(codec, s, first) && (first == Cancel ==> cancels)
    requires CanReturnBefore(codec, Next(s, first), cancels)
    ensures CanReturnBefore(codec, s, cancels)
  {
    var rest, e :| ReturnsBefore(codec, Next(s, first), rest, e) && (!cancels ==> Cancel !in rest);
    var es := [first] + rest;
    assert es[1..] == rest;
    assert ReturnsBefore(codec, s, es, e);
  }

  /** Until it has returned early, a pool is short of the end of its range; it is cancelled if it returned an error. */
  ghost predicate EarlyInv(s: Pool) {
    && Inv(s)
    && (s.phase == Returned(false) && LeftOver(s) ==> s.cancelled && s.next <= s.stop)
  }

  lemma StepKeepsEarlyInv(codec: Codec, s: Pool, e: Event)
    requires EarlyInv(s) && Enabled(codec, s, e)
    ensures EarlyInv(Next(s, e))
    ensures e != Cancel && Next(s, e).cancelled ==> s.cancelled || Next(s, e).failed
  {
    StepKeepsInv(codec, s, e);
    if LeftOver(Next(s, e)) && s.phase == Returned(false) {
      var i :| 0 <= i < |Next(s, e).workers| && !Next(s, e).workers[i].Reported?;
      assert !s.workers[i].Reported?;
    }
  }

  lemma {:induction false} RunKeepsEarlyInv(codec: Codec, s: Pool, es: seq<Event>)
    requires EarlyInv(s) && IsRun(codec, s, es)
    ensures EarlyInv(Run(s, es))
    ensures Cancel !in es && (s.cancelled ==> s.failed) && Run(s, es).cancelled ==> Run(s, es).failed
    decreases |es|
  {
    if es != [] {
      StepKeepsEarlyInv(codec, s, es[0]);
      FailedStays(s, es[0]);
      RunKeepsEarlyInv(codec, Next(s, es[0]), es[1..]);
    }
  }

  lemma FailedStays(s: Pool, e: Event)
    ensures s.failed ==> Next(s, e).failed
  {
  }

  /** What it takes to return before some worker: one more height to dispatch, two without the caller's help. */
  lemma LeftOverNeedsHeights(codec: Codec, start: nat, stop: nat, capacity: nat, t: Tables, es: seq<Event>)
    requires start <= MAX_HEIGHT && stop < MAX_HEIGHT && IsRun(codec, Initial(start, stop, capacity, t), es)
    requires var s := Run(Initial(start, stop, capacity, t), es); s.phase == Returned(false) && LeftOver(s)
    ensures capacity >= 1 && start < stop
    ensures Cancel !in es ==> start + 2 <= stop
  {
    var s := Run(Initial(start, stop, capacity, t), es);
    InitialInv(start, stop, capacity, t);
    RunKeepsEarlyInv(codec, Initial(start, stop, capacity, t), es);
    RunKeepsInv(codec, Initial(start, stop, capacity, t), es);
    NoWrap(s);
    var i :| 0 <= i < |s.workers| && !s.workers[i].Reported?;
    if Cancel !in es {
      var k :| 0 <= k < |s.workers| && s.workers[k] == Reported(false);
      assert i != k;
    }
  }

  lemma ReturnBeforeNeedsHeights(codec: Codec, start: nat, stop: nat, capacity: nat, t: Tables, cancels: bool)
    requires start <= MAX_HEIGHT && stop < MAX_HEIGHT
    requires CanReturnBefore(codec, Initial(start, stop, capacity, t), cancels)
    ensures capacity >= 1 && start < stop && (!cancels ==> start + 2 <= stop)
  {
    var s := Initial(start, stop, capacity, t);
    var es, e :| ReturnsBefore(codec, s, es, e) && (!cancels ==> Cancel !in es);
    assert !Run(s, es).workers[e.i].Reported?;
    LeftOverNeedsHeights(codec, start, stop, capacity, t, es);
  }

  /** The caller cancels while the first worker runs. */
  lemma ReturnsAfterCancel(codec: Codec, chain: Chain, start: nat, stop: nat, capacity: nat, t: Tables)
    requires start < stop < MAX_HEIGHT && capacity >= 1 && Extractable(codec, chain, start, stop)
    ensures CanReturnBefore(codec, Initial(start, stop, capacity, t), true)
  {
    var s := Initial(start, stop, capacity, t);
    var a := Next(s, Check);
    var b := Next(a, Acquire);
    var c := Next(b, Cancel);
    assert ReturnsBefore(codec, Next(c, Check), [], End(0, true, Some(ChainWrite(codec, chain, start))));
    ReturnsBeforeAfter(codec, c, Check, true);
    ReturnsBeforeAfter(codec, b, Cancel, true);
    ReturnsBeforeAfter(codec, a, Acquire, true);
    ReturnsBeforeAfter(codec, s, Check, true);
  }

  /** At the loop head with these workers, nothing reported yet and a height left. */
  ghost predicate Calm(s: Pool, start: nat, stop: nat, workers: seq<Stage>, tokens: nat) {
    && s.start == start && s.stop == stop < MAX_HEIGHT && s.capacity >= 1 && s.next == start + |workers| <= stop
    && s.phase == Checking && !s.cancelled && !s.failed && s.workers == workers && s.tokens == tokens
  }

  lemma Dispatches(codec: Codec, s: Pool, stop: nat, workers: seq<Stage>) returns (b: Pool)
    requires Calm(s, s.start, stop, workers, 0) && s.start + |workers| < stop
    ensures Calm(b, s.start, stop, workers + [Working], 1)
    ensures CanReturnBefore(codec, b, false) ==> CanReturnBefore(codec, s, false)
  {
    b := Next(Next(s, Check), Acquire);
    DispatchedIsCalm(s, stop, workers);
    if CanReturnBefore(codec, b, false) {
      var a := Next(s, Check);
      ReturnsBeforeAfter(codec, a, Acquire, false);
      assert Enabled(codec, s, Check);
      ReturnsBeforeAfter(codec, s, Check, false);
    }
  }

  lemma DispatchedIsCalm(s: Pool, stop: nat, workers: seq<Stage>)
    requires Calm(s, s.start, stop, workers, 0) && s.start + |workers| < stop
    ensures Next(s, Check).phase == Acquiring && Next(s, Check).tokens < Next(s, Check).capacity
    ensures Calm(Next(Next(s, Check), Acquire), s.start, stop, workers + [Working], 1)
  {
    var a := Next(s, Check);
    assert a == s.(phase := Acquiring);
    assert (a.next + 1) % TWO_TO_THE_64 == s.next + 1;
  }

  /** A worker that fails gives its token back before its error is reported. */
  lemma FailsFirst(codec: Codec, s: Pool, stop: nat) returns (d: Pool)
    requires Calm(s, s.start, stop, [Working], 1)
    ensures Calm(d, s.start, stop, [Released(false)], 0)
    ensures CanReturnBefore(codec, d, false) ==> CanReturnBefore(codec, s, false)
  {
    var c := Next(s, End(0, false, None));
    d := Next(c, Release(0));
    if CanReturnBefore(codec, d, false) {
      ReturnsBeforeAfter(codec, c, Release(0), false);
      ReturnsBeforeAfter(codec, s, End(0, false, None), false);
    }
  }

  lemma ReportsThenReturns(codec: Codec, chain: Chain, s: Pool, stop: nat)
    requires Calm(s, s.start, stop, [Released(false), Working], 1) && Extractable(codec, chain, s.start, stop)
    ensures CanReturnBefore(codec, s, false)
  {
    var g := Next(s, Report(0));
    assert ReturnsBefore(codec, Next(g, Check), [], End(1, true, Some(ChainWrite(codec, chain, s.start + 1))));
    ReturnsBeforeAfter(codec, g, Check, false);
    ReturnsBeforeAfter(codec, s, Report(0), false);
  }

  /**
   The first worker fails, and before its error is reported the second is dispatched. One token is
   enough for that.
   */
  lemma ReturnsAfterFailure(codec: Codec, chain: Chain, start: nat, stop: nat, capacity: nat, t: Tables)
    requires start + 2 <= stop < MAX_HEIGHT && capacity >= 1 && Extractable(codec, chain, start, stop)
    ensures CanReturnBefore(codec, Initial(start, stop, capacity, t), false)
  {
    var s := Initial(start, stop, capacity, t);
    var b := Dispatches(codec, s, stop, []);
    var d := FailsFirst(codec, b, stop);
    var f := Dispatches(codec, d, stop, [Released(false)]);
    ReportsThenReturns(codec, chain, f, stop);
  }

  /**
   The call can return while a worker is still running and yet to commit exactly if there is a token
   and, with a cancelling caller, a second height; without one, a third.
   */
  lemma EarlyReturnLeavesWorkersIff(codec: Codec, chain: Chain, start: nat, stop: nat, capacity: nat, t: Tables)
    requires start <= MAX_HEIGHT && stop < MAX_HEIGHT && Extractable(codec, chain, start, stop)
    ensures CanReturnBefore(codec, Initial(start, stop, capacity, t), true) <==> capacity >= 1 && start < stop
    ensures CanReturnBefore(codec, Initial(start, stop, capacity, t), false) <==> capacity >= 1 && start + 2 <= stop
  {
    var s := Initial(start, stop, capacity, t);
    if capacity >= 1 && start < stop {
      ReturnsAfterCancel(codec, chain, start, stop, capacity, t);
    }
    if capacity >= 1 && start + 2 <= stop {
      ReturnsAfterFailure(codec, chain, start, stop, capacity, t);
    }
    if CanReturnBefore(codec, s, true) {
      ReturnBeforeNeedsHeights(codec, start, stop, capacity, t, true);
    }
    if CanReturnBefore(codec, s, false) {
      ReturnBeforeNeedsHeights(codec, start, stop, capacity, t, false);
    }
  }
}
