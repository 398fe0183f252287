/** The extractor's methods, up to one whole process. */
module Extraction {
  import opened Decimals
  import opened Environment
  import opened PruningHeight
  import opened Rpc
  import opened Runs
  import opened Store
  import opened Transactions
  import opened WorkerPool
  import opened Recovery
  import opened Refinement
  import opened Wrappers

  class ExtractConfig {
    var blockStart: nat
    var blockStop: nat
    const maxConcurrency: nat
    const maxRetries: nat
    const reIndex: bool
    const liveMonitoring: bool

    constructor (blockStart: nat, blockStop: nat, maxConcurrency: nat, maxRetries: nat, reIndex: bool,
      liveMonitoring: bool)
      ensures this.blockStart == blockStart && this.blockStop == blockStop
      ensures this.maxConcurrency == maxConcurrency && this.maxRetries == maxRetries
      ensures this.reIndex == reIndex && this.liveMonitoring == liveMonitoring
    {
      this.blockStart, this.blockStop := blockStart, blockStop;
      this.maxConcurrency, this.maxRetries := maxConcurrency, maxRetries;
      this.reIndex, this.liveMonitoring := reIndex, liveMonitoring;
    }

    function Chosen(): Settings
      reads this
    {
      Settings(blockStart, blockStop, reIndex, liveMonitoring)
    }

    /** What the extractor can run with; see the worker pool for why. */
    ghost predicate Runnable()
      reads this
    {
      maxConcurrency >= 1 && maxRetries < TWO_TO_THE_64 - 1 && blockStart <= MAX_HEIGHT && blockStop < MAX_HEIGHT
    }
  }

  class Extractor {
    const store: PostgresOutputHandler
    const channel: Channel
    const codec: Codec
    const node: Node
    ghost const chain: Chain  // what the node's answers are compared with
    var ticks: nat            // how often the context has been looked at
    ghost var dispatched: seq<(nat, nat)>  // the ranges handed to the worker pool, in order

    constructor (store: PostgresOutputHandler, channel: Channel, codec: Codec, node: Node, ghost chain: Chain)
      ensures this.store == store && this.channel == channel
      ensures this.codec == codec && this.node == node && this.chain == chain
      ensures ticks == 0 && dispatched == []
    {
      this.store, this.channel, this.codec, this.node, this.chain := store, channel, codec, node, chain;
      ticks := 0;
      dispatched := [];
    }

    ghost function Heights(): set<nat>
      reads store`tables
    {
      store.Heights()
    }

    ghost function W(maxRetries: nat): World {
      World(node, codec, store.outcomes, maxRetries)
    }

    ghost function Now(): Mark
      reads `ticks, store`statements, channel`calls
    {
      Mark(channel.calls, store.statements, ticks)
    }

    /** The counters only grew, and what follows can only have failed because of these heights. */
    twostate predicate Excuses(err: bool, heights: set<nat>, maxRetries: nat)
      reads `ticks, store`statements, channel`calls
    {
      Before(old(Now()), Now()) && (err ==> Trouble(W(maxRetries), old(Now()), Now(), heights))
    }

    /** Statements were made, the last of them without trouble. */
    twostate predicate LastIsFine()
      reads store`statements
    {
      store.statements > old(store.statements) && store.outcomes(store.statements - 1) == Fine
    }

    /**
     Succeeds exactly if the block is storable and the store's last statement is fine. `write` is
     what took effect in the tables, also when the caller sees an error.
     */
    method ProcessSingleBlockWithRetry(height: nat, maxRetries: nat) returns (err: Option<string>, write: Option<Write>)
      requires maxRetries < TWO_TO_THE_64 - 1
      modifies store, channel
      ensures store.statements > old(store.statements) <==>
                Storable(node, codec, height, old(channel.calls), maxRetries)
      ensures err.None? <==> LastIsFine()
      ensures write.Some? ==> store.statements > old(store.statements)
      ensures write.Some? ==> IsWriteAt(node, codec, height, old(channel.calls), maxRetries, write.value)
      ensures write.Some? && Settled(node, codec, chain, maxRetries) ==> write.value == ChainWrite(codec, chain, height)
      ensures err.None? ==> write.Some?
      ensures write.Some? ==> Possible(codec, height, write.value)
      ensures write.Some? ==> store.tables == Written(old(store.tables), write.value.block, write.value.records)
      ensures write.None? ==> store.tables == old(store.tables)
      ensures Heights() == old(Heights()) + (if write.Some? then {height} else {})
      ensures Excuses(err.Some?, {height}, maxRetries)
      ensures Whole(codec, old(store.tables)) ==> Whole(codec, store.tables)
    {
      ghost var a := Now();
      var w := FetchWrite(height, maxRetries);
      ghost var storable := Storable(node, codec, height, a.calls, maxRetries);
      if w.Failure? {
        assert !storable;
        return Some(w.error), None;
      }
      assert storable;
      ghost var b := Now();
      err, write := StoreWrite(height, w.value, maxRetries);
      if err.Some? {
        TroubleWidens(W(maxRetries), b, Now(), {}, a, Now(), {height});
      }
    }

    /** The write itself: all of it or nothing, which the caller cannot always tell. */
    method StoreWrite(height: nat, w: Write, maxRetries: nat) returns (err: Option<string>, write: Option<Write>)
      requires Possible(codec, height, w)
      modifies store
      ensures write == None || write == Some(w)
      ensures err.None? ==> write.Some?
      ensures store.tables == if write.Some? then Written(old(store.tables), w.block, w.records) else old(store.tables)
      ensures store.statements > old(store.statements) && (err.None? <==> LastIsFine())
      ensures err.Some? ==> Trouble(W(maxRetries), old(Now()), Now(), {})
      ensures Heights() == old(Heights()) + (if write.Some? then {height} else {})
      ensures Whole(codec, old(store.tables)) ==> Whole(codec, store.tables)
    {
      ghost var a := Now();
      var before := store.tables;
      err := store.WriteBlockWithTransactions(w.block, w.records);
      write := if err.Some? && store.tables == before then None else Some(w);
      assert err.Some? ==> StatementFailed(W(maxRetries), a, Now());
      WriteEffect(codec, before, height, w);
    }

    /** The part of `ProcessSingleBlockWithRetry` that precedes the write, and what it means for the write. */
    method FetchWrite(height: nat, maxRetries: nat) returns (r: Result<Write, string>)
      requires maxRetries < TWO_TO_THE_64 - 1
      modifies channel
      ensures r.Success? <==> Storable(node, codec, height, old(channel.calls), maxRetries)
      ensures r.Success? ==> IsWriteAt(node, codec, height, old(channel.calls), maxRetries, r.value)
      ensures r.Success? ==> Possible(codec, height, r.value)
      ensures r.Success? && Settled(node, codec, chain, maxRetries) ==> r.value == ChainWrite(codec, chain, height)
      ensures Excuses(r.Failure?, {height}, maxRetries)
    {
      ghost var a := Now();
      r := FetchBlock(height, maxRetries);
      if r.Success? {
        StorableWrite(node, codec, chain, height, a.calls, maxRetries, r.value);
      } else {
        assert BlockFailed(W(maxRetries), a, Now(), {height});
      }
    }

    method FetchBlock(height: nat, maxRetries: nat) returns (r: Result<Write, string>)
      requires maxRetries < TWO_TO_THE_64 - 1
      modifies channel
      ensures r.Success? <==> Storable(node, codec, height, old(channel.calls), maxRetries)
      ensures channel.calls >= old(channel.calls)
      ensures r.Success? ==> IsWriteAt(node, codec, height, old(channel.calls), maxRetries, r.value)
    {
      var json := channel.RetryGRPCCall<string>(node.lookup(BLOCK_METHOD), BlockAt(node, height), maxRetries, "");
      if json.Failure? {
        return Failure(json.error);
      }
      var data := Unmarshalled(codec, json.value);
      if data.None? {
        return Failure("failed to unmarshal block JSON");
      }
      assert Entries(codec, json.value) == StringEntries(TxList(data.value));
      var records := ExtractTransactions(channel, DetailFetchOf(node, codec, maxRetries), data.value);
      if records.Failure? {
        return Failure(records.error);
      }
      return Success(Write(Block(height, json.value), records.value));
    }

    /** Gaps are filled one by one until the first failure. */
    method ProcessMissingBlocks(maxRetries: nat) returns (err: Option<string>)
      requires maxRetries < TWO_TO_THE_64 - 1
      modifies store, channel
      ensures old(Heights()) <= Heights()
      ensures forall h :: h in Heights() ==> h in old(Heights()) || IsGap(old(Heights()), h)
      ensures err.None? ==>
                (AllGapsIn(old(Heights()), Heights()) <==>
                 !CutShort(store.outcomes(old(store.statements)), old(Heights())))
      ensures Before(old(Now()), Now()) && ticks == old(ticks)
      ensures err.Some? ==>
                || StatementFailed(W(maxRetries), old(Now()), Now())
                || BlockFailed(W(maxRetries), old(Now()), Now(), GapSet(old(Heights())))
      ensures Whole(codec, old(store.tables)) ==> Whole(codec, store.tables)
    {
      ghost var a := Now();
      GapSetMembers(Heights());
      var missing := store.GetMissingBlockIds();
      if missing.Failure? {
        assert StatementFailed(W(maxRetries), a, Now());
        return Some(missing.error);
      }
      ghost var tried, b := 0, Now();
      FirstsAreListed(missing.value);
      err, tried := FillAll(missing.value, maxRetries);
      if err.Some? {
        TroubleWidens(W(maxRetries), b, Now(), {missing.value[tried - 1]}, a, Now(), GapSet(old(Heights())));
      }
    }

    /** The heights are stored in order up to the first failure, that of the last one tried. */
    method FillAll(missing: seq<nat>, maxRetries: nat) returns (err: Option<string>, ghost tried: nat)
      requires maxRetries < TWO_TO_THE_64 - 1
      modifies store, channel
      ensures tried <= |missing| && Before(old(Now()), Now())
      ensures err.None? ==> tried == |missing| && Heights() == old(Heights()) + Firsts(missing, tried)
      ensures err.Some? ==>
                && tried > 0
                && old(Heights()) + Firsts(missing, tried - 1) <= Heights() <= old(Heights()) + Firsts(missing, tried)
                && Trouble(W(maxRetries), old(Now()), Now(), {missing[tried - 1]})
      ensures Whole(codec, old(store.tables)) ==> Whole(codec, store.tables)
    {
      ghost var first, a := Heights(), Now();
      tried := 0;
      for i := 0 to |missing|
        invariant Before(a, Now()) && tried == i && Heights() == first + Firsts(missing, i)
        invariant Whole(codec, old(store.tables)) ==> Whole(codec, store.tables)
      {
        ghost var b := Now();
        var e, stored := FillOne(missing[i], maxRetries);
        FirstsGrow(missing, i);
        FirstsBound(first, missing, i, Heights(), stored);
        tried := tried + 1;
        if e.Some? {
          TroubleWidens(W(maxRetries), b, Now(), {missing[i]}, a, Now(), {missing[i]});
          return e, tried;
        }
      }
      return None, tried;
    }

    method FillOne(height: nat, maxRetries: nat) returns (err: Option<string>, stored: bool)
      requires maxRetries < TWO_TO_THE_64 - 1
      modifies store, channel
      ensures err.None? ==> stored
      ensures Heights() == old(Heights()) + (if stored then {height} else {})
      ensures Excuses(err.Some?, {height}, maxRetries)
      ensures Whole(codec, old(store.tables)) ==> Whole(codec, store.tables)
    {
      var e, write := ProcessSingleBlockWithRetry(height, maxRetries);
      return e, write.Some?;
    }

    /** Workers still running when the call has returned: each may or may not finish before the process ends. */
    method LeaveBehind(s: Pool, maxRetries: nat)
      requires Inv(s) && s.stop < MAX_HEIGHT && maxRetries < TWO_TO_THE_64 - 1
      modifies store, channel
      ensures old(Heights()) <= Heights()
      ensures forall h :: h in Heights() ==> h in old(Heights()) || s.start <= h <= s.stop
      ensures Before(old(Now()), Now())
      ensures Whole(codec, old(store.tables)) ==> Whole(codec, store.tables)
    {
      var pending := set i | 0 <= i < |s.workers| && s.workers[i] == Working :: HeightOf(s.start, i);
      NoWrap(s);
      ghost var range := Range(s.start, |s.workers|);
      assert pending <= range;
      while pending != {}
        invariant pending <= range && Before(old(Now()), Now())
        invariant old(Heights()) <= Heights() <= old(Heights()) + range
        invariant Whole(codec, old(store.tables)) ==> Whole(codec, store.tables)
        decreases |pending|
      {
        var h: nat :| h in pending;
        pending := pending - {h};
        var finishes: bool := *;
        if finishes {
          var err, stored := FillOne(h, maxRetries);
        }
      }
    }

    /** A worker's fetch and write, as the event it amounts to. */
    method WorkerEnds(start: nat, i: nat, maxRetries: nat) returns (e: Event)
      requires maxRetries < TWO_TO_THE_64 - 1
      modifies store, channel
      ensures e.End? && e.i == i && (e.ok ==> e.write.Some?)
      ensures e.write.None? ==> store.tables == old(store.tables)
      ensures e.write.Some? ==>
                && Possible(codec, HeightOf(start, i), e.write.value)
                && store.tables == Written(old(store.tables), e.write.value.block, e.write.value.records)
                && (Settled(node, codec, chain, maxRetries) ==>
                      e.write.value == ChainWrite(codec, chain, HeightOf(start, i)))
      ensures Excuses(!e.ok, {HeightOf(start, i)}, maxRetries)
    {
      var err, write := ProcessSingleBlockWithRetry(HeightOf(start, i), maxRetries);
      return End(i, err.None?, write);
    }

    /**
     One step of the pool. The context may be done at any of them; otherwise the choice is arbitrary.
     A worker's fetch and write happen where its commit does.
     */
    method PoolStep(s: Pool, maxRetries: nat) returns (e: Event)
      requires Inv(s) && !Final(s) && s.stop < MAX_HEIGHT && s.capacity >= 1 && s.tables == store.tables
      requires maxRetries < TWO_TO_THE_64 - 1
      modifies `ticks, store, channel
      ensures Enabled(codec, s, e) && Next(s, e).tables == store.tables
      ensures Settled(node, codec, chain, maxRetries) ==> FromChain(codec, chain, s, e)
      ensures Heights() == old(Heights()) + (Next(s, e).stored - s.stored)
      ensures Excuses(IsCause(e), Range(s.start, Span(s.start, s.stop)), maxRetries)
      ensures ticks == old(ticks) + 1 && (node.done(old(ticks)) ==> Next(s, e).cancelled)
    {
      ghost var a := Now();
      ticks := ticks + 1;
      if node.done(ticks - 1) && !s.cancelled {
        assert ContextDone(W(maxRetries), a, Now());
        return Cancel;
      }
      ghost var b, heights := Now(), Range(s.start, Span(s.start, s.stop));
      e := OwnStep(s, maxRetries);
      if IsCause(e) {
        TroubleWidens(W(maxRetries), b, Now(), heights, a, Now(), heights);
      }
    }

    /** A step that is not the context's. */
    method OwnStep(s: Pool, maxRetries: nat) returns (e: Event)
      requires Inv(s) && !Final(s) && s.stop < MAX_HEIGHT && s.capacity >= 1 && s.tables == store.tables
      requires maxRetries < TWO_TO_THE_64 - 1
      modifies store, channel
      ensures Enabled(codec, s, e) && e != Cancel && Next(s, e).tables == store.tables
      ensures s.cancelled ==> Next(s, e).cancelled
      ensures Settled(node, codec, chain, maxRetries) ==> FromChain(codec, chain, s, e)
      ensures Heights() == old(Heights()) + (Next(s, e).stored - s.stored)
      ensures Excuses(IsCause(e), Range(s.start, Span(s.start, s.stop)), maxRetries)
    {
      NeverStuck(codec, s);
      e :| Enabled(codec, s, e) && e != Cancel;
      if e.End? {
        e := WorkerStep(s, e.i, maxRetries, Range(s.start, Span(s.start, s.stop)));
      }
    }

    method WorkerStep(s: Pool, i: nat, maxRetries: nat, ghost heights: set<nat>) returns (e: Event)
      requires Inv(s) && s.stop < MAX_HEIGHT && i < |s.workers| && s.workers[i] == Working && s.tables == store.tables
      requires heights == Range(s.start, Span(s.start, s.stop)) && maxRetries < TWO_TO_THE_64 - 1
      modifies store, channel
      ensures e.End? && Enabled(codec, s, e) && Next(s, e).tables == store.tables
      ensures Settled(node, codec, chain, maxRetries) ==> FromChain(codec, chain, s, e)
      ensures Heights() == old(Heights()) + (Next(s, e).stored - s.stored)
      ensures Excuses(IsCause(e), heights, maxRetries)
    {
      ghost var a := Now();
      WorkerHeight(s, i);
      e := WorkerEnds(s.start, i, maxRetries);
      if !e.ok {
        TroubleWidens(W(maxRetries), a, Now(), {HeightOf(s.start, i)}, a, Now(), heights);
      }
    }

    lemma WorkerHeight(s: Pool, i: nat)
      requires Inv(s) && s.stop < MAX_HEIGHT && i < |s.workers|
      ensures HeightOf(s.start, i) in Range(s.start, Span(s.start, s.stop))
    {
      NoWrap(s);
    }

    /** The one place where a range is handed to the worker pool. */
    method ProcessBlocks(start: nat, stop: nat, maxConcurrency: nat, maxRetries: nat)
      returns (ok: bool, ghost trace: seq<Event>)
      requires start <= MAX_HEIGHT && stop < MAX_HEIGHT && maxConcurrency >= 1 && maxRetries < TWO_TO_THE_64 - 1
      modifies `ticks, `dispatched, store, channel
      ensures dispatched == old(dispatched) + [(start, stop)]
      ensures var s := Initial(start, stop, maxConcurrency, old(store.tables));
              && IsRun(codec, s, trace)
              && Run(s, trace).phase == Returned(ok)
              && (ok ==> store.tables == Run(s, trace).tables)
              && Heeds(node, s, trace, old(ticks)) && ticks == old(ticks) + |trace|
      ensures !ok ==> HasCause(trace)
      ensures Excuses(!ok, Range(start, Span(start, stop)), maxRetries)
      ensures ok && Settled(node, codec, chain, maxRetries) ==>
                store.tables == Sequential(codec, chain, old(store.tables), start, Span(start, stop))
      ensures old(Heights()) <= Heights()
      ensures forall h :: h in Heights() ==> h in old(Heights()) || start <= h <= stop
      ensures ok ==> forall h :: start <= h <= stop ==> h in Heights()
      ensures Whole(codec, old(store.tables)) ==> Whole(codec, store.tables)
    {
      dispatched := dispatched + [(start, stop)];
      ok, trace := RunPool(start, stop, maxConcurrency, maxRetries);
    }

    /**
     The worker pool run to its return. After an early return, workers left behind may still commit
     before the process ends. `trace` is the schedule that was followed up to the return.
     */
    method RunPool(start: nat, stop: nat, maxConcurrency: nat, maxRetries: nat)
      returns (ok: bool, ghost trace: seq<Event>)
      requires start <= MAX_HEIGHT && stop < MAX_HEIGHT && maxConcurrency >= 1 && maxRetries < TWO_TO_THE_64 - 1
      modifies `ticks, store, channel
      ensures var s := Initial(start, stop, maxConcurrency, old(store.tables));
              && IsRun(codec, s, trace)
              && Run(s, trace).phase == Returned(ok)
              && (ok ==> store.tables == Run(s, trace).tables)
              && Heeds(node, s, trace, old(ticks)) && ticks == old(ticks) + |trace|
      ensures !ok ==> HasCause(trace)
      ensures Excuses(!ok, Range(start, Span(start, stop)), maxRetries)
      ensures ok && Settled(node, codec, chain, maxRetries) ==>
                store.tables == Sequential(codec, chain, old(store.tables), start, Span(start, stop))
      ensures old(Heights()) <= Heights()
      ensures forall h :: h in Heights() ==> h in old(Heights()) || start <= h <= stop
      ensures ok ==> forall h :: start <= h <= stop ==> h in Heights()
      ensures Whole(codec, old(store.tables)) ==> Whole(codec, store.tables)
    {
      ghost var t, a, heights := store.tables, Now(), Range(start, Span(start, stop));
      var s;
      s, trace := PoolLoop(start, stop, maxConcurrency, maxRetries);
      ok := s.phase.ok;
      PoolReturns(W(maxRetries), chain, start, stop, maxConcurrency, t, trace, s, a, Now());
      if !ok {
        ghost var b := Now();
        LeaveBehind(s, maxRetries);
        TroubleWidens(W(maxRetries), a, b, heights, a, Now(), heights);
      }
    }

    /** The steps up to the return. */
    method PoolLoop(start: nat, stop: nat, maxConcurrency: nat, maxRetries: nat)
      returns (s: Pool, ghost trace: seq<Event>)
      requires start <= MAX_HEIGHT && stop < MAX_HEIGHT && maxConcurrency >= 1 && maxRetries < TWO_TO_THE_64 - 1
      modifies `ticks, store, channel
      ensures Final(s) && s.tables == store.tables && Heights() == old(Heights()) + s.stored
      ensures var t := old(store.tables);
              PoolSoFar(W(maxRetries), chain, start, stop, maxConcurrency, t, trace, s, old(Now()), Now())
    {
      s, trace := Initial(start, stop, maxConcurrency, store.tables), [];
      ghost var t, a, first := store.tables, Now(), Heights();
      PoolBegins(W(maxRetries), chain, start, stop, maxConcurrency, t, a);
      while !Final(s)
        invariant PoolSoFar(W(maxRetries), chain, start, stop, maxConcurrency, t, trace, s, a, Now())
        invariant s.tables == store.tables && Heights() == first + s.stored
        decreases Measure(s)
      {
        ghost var b, now := Now(), Heights();
        var e := PoolStep(s, maxRetries);
        StoredOnTop(s, e, first, now, Heights());
        PoolAdvances(W(maxRetries), chain, start, stop, maxConcurrency, t, trace, s, e, a, b, Now());
        trace := trace + [e];
        s := Next(s, e);
      }
    }

    /** Fills in the range that is not configured; `r` is the course taken so far. */
    method SetBlockRange(cfg: ExtractConfig) returns (err: Option<string>, ghost r: Course)
      requires cfg.Runnable() && BelowLast(node) && forall h :: h in Heights() ==> h < MAX_HEIGHT
      modifies cfg`blockStart, cfg`blockStop, store`statements, channel
      ensures err.None? ==> cfg.Runnable() && r.start == cfg.blockStart && r.stop == cfg.blockStop
      ensures err.None? ==> RangeChosen(old(cfg.Chosen()), Heights(), r.start, r.stop, r.tip)
      ensures err.None? ==> TrueCourse(W(cfg.maxRetries), old(cfg.Chosen()), Heights(), r, old(Now()), Now())
      ensures err.Some? ==> NoRange(W(cfg.maxRetries), old(cfg.Chosen()), Heights(), r, old(Now()), Now())
      ensures r.tip > 0 ==> LatestAt(W(cfg.maxRetries), r.asked) == Success(r.tip)
      ensures Before(old(Now()), Now())
      ensures !SeeksStart(old(cfg.Chosen())) && !AsksForTip(old(cfg.Chosen())) ==> (err.Some? <==> r.start > r.stop)
      ensures !SeeksStart(old(cfg.Chosen())) ==> store.statements == old(store.statements)
      ensures !cfg.reIndex && old(cfg.blockStart) == 0 ==> store.statements == old(store.statements) + 1
    {
      err := SetStart(cfg);
      r := Course(cfg.blockStart, cfg.blockStop, 0, channel.calls, 0, 0, LiveLog([], [], []));
      if err.Some? {
        return err, r;
      }
      if cfg.blockStop == 0 {
        var reported := LatestHeight(cfg.maxRetries);
        if reported.Failure? {
          return Some(reported.error), r;
        }
        cfg.blockStop := reported.value;
        r := r.(tip := reported.value, stop := reported.value);
      }
      if cfg.blockStart > cfg.blockStop {
        return Some("start block is greater than stop block"), r;
      }
      return None, r;
    }

    /** The start for a run that has none, or that re-indexes: a lowest height of 0 reads as "none". */
    method SetStart(cfg: ExtractConfig) returns (err: Option<string>)
      requires cfg.Runnable() && forall h :: h in Heights() ==> h < MAX_HEIGHT
      modifies cfg`blockStart, cfg`blockStop, store`statements, channel
      ensures Before(old(Now()), Now()) && cfg.Runnable()
      ensures err.None? ==> cfg.blockStop == if cfg.reIndex then 0 else old(cfg.blockStop)
      ensures err.None? ==> StartChosen(old(cfg.Chosen()), Heights(), cfg.blockStart)
      ensures err.None? && Heights() == {} && SeeksStart(old(cfg.Chosen())) ==>
                Earliest(W(cfg.maxRetries), old(channel.calls)) == Some(cfg.blockStart)
      ensures Heights() != {} || !SeeksStart(old(cfg.Chosen())) ==> channel.calls == old(channel.calls)
      ensures err.Some? ==> NoStart(W(cfg.maxRetries), old(cfg.Chosen()), Heights(), old(Now()), Now())
      ensures !SeeksStart(old(cfg.Chosen())) ==> store.statements == old(store.statements)
      ensures !cfg.reIndex && old(cfg.blockStart) == 0 ==> store.statements == old(store.statements) + 1
    {
      err := None;
      ghost var c, a := cfg.Chosen(), Now();
      if cfg.reIndex {
        var first := FirstStored(cfg.maxRetries);
        if first.Failure? {
          return Some(first.error);
        }
        cfg.blockStart := first.value;
        cfg.blockStop := 0;
      }
      if cfg.blockStart == 0 {
        ghost var b := Now();
        var next := AfterLastStored(cfg.maxRetries);
        if next.Failure? {
          if StatementFailed(W(cfg.maxRetries), b, Now()) {
            TroubleWidens(W(cfg.maxRetries), b, Now(), {}, a, Now(), {});
          }
          return Some(next.error);
        }
        cfg.blockStart := next.value;
      }
    }

    /** The lowest stored height, or what the node still has if nothing is stored. */
    method FirstStored(maxRetries: nat) returns (r: Result<nat, string>)
      requires maxRetries < TWO_TO_THE_64 - 1 && forall h :: h in Heights() ==> h < MAX_HEIGHT
      modifies store`statements, channel
      ensures Before(old(Now()), Now()) && (Heights() != {} ==> channel.calls == old(channel.calls))
      ensures r.Success? ==> r.value <= MAX_HEIGHT
      ensures r.Success? && Heights() != {} ==> IsMin(Heights(), r.value)
      ensures r.Success? && Heights() == {} ==>
                r.value > 0 && Earliest(W(maxRetries), old(channel.calls)) == Some(r.value)
      ensures r.Failure? ==>
                || StatementFailed(W(maxRetries), old(Now()), Now())
                || (Heights() == {} && Earliest(W(maxRetries), old(channel.calls)) == None)
    {
      ghost var a := Now();
      var earliest := store.GetEarliestBlock();
      if earliest.Failure? {
        assert StatementFailed(W(maxRetries), a, Now());
        return Failure(earliest.error);
      }
      if earliest.value.Some? {
        assert earliest.value.value in Heights();
        return Success(earliest.value.value);
      }
      r := GetEarliestBlockHeight(channel, node.lookup(PROBE_METHOD), node.probe, maxRetries, node.lower);
    }

    /** The height after the highest stored one, or what the node still has if nothing is stored. */
    method AfterLastStored(maxRetries: nat) returns (r: Result<nat, string>)
      requires maxRetries < TWO_TO_THE_64 - 1 && forall h :: h in Heights() ==> h < MAX_HEIGHT
      modifies store`statements, channel
      ensures Before(old(Now()), Now()) && (Heights() != {} ==> channel.calls == old(channel.calls))
      ensures store.statements == old(store.statements) + 1
      ensures r.Success? ==> 1 <= r.value <= MAX_HEIGHT
      ensures r.Success? && Heights() != {} ==> IsMax(Heights(), r.value - 1)
      ensures r.Success? && Heights() == {} ==> Earliest(W(maxRetries), old(channel.calls)) == Some(r.value)
      ensures r.Failure? ==>
                || StatementFailed(W(maxRetries), old(Now()), Now())
                || (Heights() == {} && Earliest(W(maxRetries), old(channel.calls)) == None)
    {
      ghost var a := Now();
      var latest := store.GetLatestBlock();
      if latest.Failure? {
        assert StatementFailed(W(maxRetries), a, Now());
        return Failure(latest.error);
      }
      if latest.value.Some? {
        assert latest.value.value in Heights();
        return Success((latest.value.value + 1) % TWO_TO_THE_64);
      }
      r := GetEarliestBlockHeight(channel, node.lookup(PROBE_METHOD), node.probe, maxRetries, node.lower);
    }

    method LatestHeight(maxRetries: nat) returns (r: Result<nat, string>)
      requires maxRetries < TWO_TO_THE_64 - 1 && BelowLast(node)
      modifies channel
      ensures r == LatestAt(W(maxRetries), old(channel.calls))
      ensures channel.calls == old(channel.calls) + LatestCalls(W(maxRetries), old(channel.calls))
      ensures r.Success? ==> r.value < MAX_HEIGHT
    {
      LatestHeightIsReported(node.lookup(STATUS_METHOD), node.status, channel.calls, maxRetries);
      r := GetLatestBlockHeightWithRetry(channel, node.lookup(STATUS_METHOD), node.status, maxRetries);
    }

    /**
     The polling loop, for the first `polls` polls. Whatever heights the node reports, it comes to the
     highest so far. It stops for the context, which it looks at before each poll, a failed report, or a
     height up to a report that could not be stored.
     */
    method ExtractLive(start: nat, polls: nat, maxConcurrency: nat, maxRetries: nat)
      returns (err: Option<string>, current: nat, ghost goal: nat, ghost ranges: seq<(nat, nat)>, ghost log: LiveLog)
      requires 1 <= start <= MAX_HEIGHT && maxConcurrency >= 1 && maxRetries < TWO_TO_THE_64 - 1 && BelowLast(node)
      modifies `ticks, `dispatched, store, channel
      ensures LiveOutcome(W(maxRetries), start, current, goal, err.None?, polls, ranges, log, old(Now()), Now(),
                          old(Heights()), Heights(), old(dispatched), dispatched)
      ensures Whole(codec, old(store.tables)) ==> Whole(codec, store.tables)
    {
      ghost var w, a, first, d := W(maxRetries), Now(), Heights(), dispatched;
      ghost var whole := Whole(codec, store.tables);
      current := start - 1;
      ranges, log := [], LiveLog([], [], []);
      LiveBegins(w, start, a, first, d);
      for k := 0 to polls
        invariant current >= 0
        invariant LiveSoFar(w, start, current, ranges, log, k, a, Now(), first, Heights(), d, dispatched)
        invariant whole ==> Whole(codec, store.tables)
      {
        ghost var b, now, sent := Now(), Heights(), dispatched;
        ticks := ticks + 1;
        if node.done(ticks - 1) {
          LiveStops(w, start, current, ranges, log, k, polls, a, b, Now(), first, now, d, sent);
          return None, current, current, ranges, log;
        }
        var e, next, aim, more, longer := LiveTurn(start, current, maxConcurrency, maxRetries, k, polls, ranges, log, a,
                                                   b, first, d, whole);
        if e.Some? {
          return e, current, aim, ranges, log;
        }
        log, ranges, current := longer, more, next;
      }
      LiveStops(w, start, current, ranges, log, polls, polls, a, Now(), Now(), first, Heights(), d, dispatched);
      return None, current, current, ranges, log;
    }

    /** One poll after a look at the context, and what it adds to what is known of the run from `a` to `b`. */
    method LiveTurn(start: nat, current: nat, maxConcurrency: nat, maxRetries: nat, ghost k: nat, ghost polls: nat,
      ghost ranges: seq<(nat, nat)>, ghost log: LiveLog, ghost a: Mark, ghost b: Mark, ghost first: set<nat>,
      ghost d: seq<(nat, nat)>, ghost whole: bool)
      returns (err: Option<string>, next: nat, ghost aim: nat, ghost more: seq<(nat, nat)>, ghost longer: LiveLog)
      requires current <= MAX_HEIGHT && maxConcurrency >= 1 && maxRetries < TWO_TO_THE_64 - 1 && BelowLast(node)
      requires LiveSoFar(W(maxRetries), start, current, ranges, log, k, a, b, first, Heights(), d, dispatched)
      requires Now() == b.(ticks := b.ticks + 1) && !node.done(b.ticks) && Before(a, b) && start > 0
      requires whole ==> Whole(codec, store.tables)
      modifies `ticks, `dispatched, store, channel
      ensures Before(old(Now()), Now()) && next == (if err.None? then aim else current)
      ensures dispatched == WithRange(old(dispatched), current, aim)
      ensures err.None? ==>
                LiveSoFar(W(maxRetries), start, next, more, longer, k + 1, a, Now(), first, Heights(), d, dispatched)
      ensures err.Some? ==>
                LiveOutcome(W(maxRetries), start, current, aim, false, polls, ranges, log, a, Now(), first, Heights(),
                            d, dispatched)
      ensures aim == current || current < aim < MAX_HEIGHT
      ensures whole ==> Whole(codec, store.tables)
    {
      ghost var w, looked, now, sent := W(maxRetries), Now(), Heights(), dispatched;
      longer, more := log, ranges;
      err, next, aim := Poll(current, maxConcurrency, maxRetries);
      if err.Some? {
        LiveStateWidens(w, start, current, ranges, log, a, b, Now());
        LiveEndWidens(w, current, aim, log, polls, looked, Now(), a);
        LiveBreaksOff(w, start, current, aim, ranges, log, k, polls, a, b, Now(), first, now, Heights(), d, sent);
      } else {
        ghost var report := LatestAt(w, b.calls).value;
        LiveStep(w, start, current, ranges, log, a, b, Now(), report);
        longer := LiveLog(log.reports + [report], log.asked + [b.calls], log.looks + [b.ticks]);
        more := WithRange(ranges, current, next);
        LiveGoesOn(w, start, current, ranges, log, k, a, b, first, now, d, sent, next, longer, Now(), Heights());
      }
    }

    /** One turn of the loop: a higher report is caught up with in full; a lower one is ignored. */
    method Poll(current: nat, maxConcurrency: nat, maxRetries: nat)
      returns (err: Option<string>, next: nat, ghost aim: nat)
      requires current <= MAX_HEIGHT && maxConcurrency >= 1 && maxRetries < TWO_TO_THE_64 - 1 && BelowLast(node)
      modifies `ticks, `dispatched, store, channel
      ensures Before(old(Now()), Now())
      ensures aim == Aim(W(maxRetries), old(channel.calls), current) && next == (if err.None? then aim else current)
      ensures aim == current || (current < aim < MAX_HEIGHT && WasTold(W(maxRetries), old(Now()), Now(), aim))
      ensures dispatched == WithRange(old(dispatched), current, aim)
      ensures old(Heights()) <= Heights()
      ensures forall h :: h in Heights() ==> h in old(Heights()) || current < h <= aim
      ensures err.None? ==>
                && LatestAt(W(maxRetries), old(channel.calls)).Success?
                && old(channel.calls) + LatestCalls(W(maxRetries), old(channel.calls)) <= channel.calls
      ensures err.Some? ==> LiveFailed(W(maxRetries), old(Now()), Now(), current)
      ensures err.None? ==> GrewBy(old(Heights()), Heights(), current + 1, next)
      ensures Whole(codec, old(store.tables)) ==> Whole(codec, store.tables)
    {
      ghost var a := Now();
      next, aim := current, current;
      var latest := LatestHeight(maxRetries);
      if latest.Failure? {
        assert LiveFailsAt(W(maxRetries), a, Now(), current, a.calls);
        return Some(latest.error), next, aim;
      }
      if latest.value > current {
        aim := latest.value;
        ghost var b, heights := Now(), Range(current + 1, latest.value - current);
        var ok := CatchUp(current, latest.value, maxConcurrency, maxRetries);
        if !ok {
          TroubleWidens(W(maxRetries), b, Now(), heights, a, Now(), heights);
          assert LiveFailsAt(W(maxRetries), a, Now(), current, a.calls);
          return Some("failed to process blocks and transactions"), next, aim;
        }
        next := latest.value;
      }
      return None, next, aim;
    }

    /** The heights after `current`, up to `height`. */
    method CatchUp(current: nat, height: nat, maxConcurrency: nat, maxRetries: nat) returns (ok: bool)
      requires current < height < MAX_HEIGHT && maxConcurrency >= 1 && maxRetries < TWO_TO_THE_64 - 1
      modifies `ticks, `dispatched, store, channel
      ensures dispatched == old(dispatched) + [(current + 1, height)]
      ensures Excuses(!ok, Range(current + 1, height - current), maxRetries)
      ensures old(Heights()) <= Heights()
      ensures forall h :: h in Heights() ==> h in old(Heights()) || current < h <= height
      ensures ok ==> GrewBy(old(Heights()), Heights(), current + 1, height)
      ensures Whole(codec, old(store.tables)) ==> Whole(codec, store.tables)
    {
      ghost var trace;
      ok, trace := ProcessBlocks(current + 1, height, maxConcurrency, maxRetries);
    }

    /** What has been handed to the worker pool since `before`. */
    ghost function DispatchedSince(before: seq<(nat, nat)>): seq<(nat, nat)>
      reads `dispatched
      requires before <= dispatched
    {
      dispatched[|before|..]
    }

    /** The chosen range alone, at once or as the chain grows. */
    method StoreRange(cfg: ExtractConfig, polls: nat, ghost r: Course) returns (err: Option<string>, ghost r': Course)
      requires cfg.Runnable() && 1 <= cfg.blockStart <= cfg.blockStop && BelowLast(node)
      requires r.start == cfg.blockStart && r.stop == cfg.blockStop
      modifies `ticks, `dispatched, store, channel
      ensures SameChoice(r, r') && Before(old(Now()), Now())
      ensures AimedAt(W(cfg.maxRetries), cfg.liveMonitoring, r', old(Now()), Now())
      ensures r.start - 1 <= r'.goal && (r'.goal == r.start - 1 || r'.goal < MAX_HEIGHT)
      ensures old(Heights()) <= Heights()
      ensures forall h :: h in Heights() ==> h in old(Heights()) || r.start <= h <= r'.goal
      ensures old(dispatched) <= dispatched
      ensures err.None? ==> Partition(DispatchedSince(old(dispatched)), r.start, r'.current)
      ensures err.None? ==> GrewBy(old(Heights()), Heights(), r.start, r'.current) && r'.current == r'.goal
      ensures err.None? && cfg.liveMonitoring ==> LiveCourse(W(cfg.maxRetries), r', polls, old(Now()), Now())
      ensures err.Some? ==> StoreFailed(W(cfg.maxRetries), cfg.liveMonitoring, r', old(Now()), Now())
      ensures Whole(codec, old(store.tables)) ==> Whole(codec, store.tables)
    {
      if cfg.liveMonitoring {
        var current;
        ghost var goal, ranges, log;
        err, current, goal, ranges, log := ExtractLive(cfg.blockStart, polls, cfg.maxConcurrency, cfg.maxRetries);
        r' := r.(current := current, goal := goal, log := log);
        assert err.None? ==> DispatchedSince(old(dispatched)) == ranges;
      } else {
        var ok, trace := ProcessBlocks(cfg.blockStart, cfg.blockStop, cfg.maxConcurrency, cfg.maxRetries);
        err := if ok then None else Some("failed to process blocks and transactions");
        r' := r.(current := r.stop, goal := r.stop);
        SinglePartition(r.start, r.stop);
        assert DispatchedSince(old(dispatched)) == [(r.start, r.stop)];
      }
    }

    /** What follows the choice of the range; `between` is what is stored once the gaps have been dealt with. */
    method RunRange(cfg: ExtractConfig, c: Settings, polls: nat, ghost r: Course)
      returns (err: Option<string>, ghost between: set<nat>, ghost r': Course)
      requires cfg.Runnable() && 1 <= cfg.blockStart <= cfg.blockStop && BelowLast(node) && c.live == cfg.liveMonitoring
      requires r.start == cfg.blockStart && r.stop == cfg.blockStop
      modifies `ticks, `dispatched, store, channel
      ensures SameChoice(r, r') && Before(old(Now()), Now())
      ensures AimedAt(W(cfg.maxRetries), c.live, r', old(Now()), Now())
      ensures r'.goal == r.start - 1 || r'.goal < MAX_HEIGHT
      ensures RangeDone(c, old(Heights()), between, Heights(), r', err.None?)
      ensures old(dispatched) <= dispatched
      ensures err.None? ==> Partition(DispatchedSince(old(dispatched)), r.start, r'.current)
      ensures err.None? && FillsGaps(c) ==>
                (AllGapsIn(old(Heights()), between) <==>
                 !CutShort(store.outcomes(old(store.statements)), old(Heights())))
      ensures err.None? && c.live ==> LiveCourse(W(cfg.maxRetries), r', polls, old(Now()), Now())
      ensures err.Some? ==> RangeFailed(W(cfg.maxRetries), c, old(Heights()), r', old(Now()), Now())
      ensures Whole(codec, old(store.tables)) ==> Whole(codec, store.tables)
    {
      ghost var a := Now();
      between := Heights();
      r' := if c.live then r.(current := r.start - 1, goal := r.start - 1) else r.(goal := r.stop);
      if !ShouldSkipMissingBlockCheck(c) {
        err := ProcessMissingBlocks(cfg.maxRetries);
        between := Heights();
        if err.Some? {
          return err, between, r';
        }
      }
      ghost var b := Now();
      err, r' := StoreRange(cfg, polls, r);
      StoreAfterGaps(W(cfg.maxRetries), c, r', polls, a, b, Now());
    }

    /** What follows the choice of the range, and what the process has achieved by then. */
    method ExtractRange(cfg: ExtractConfig, c: Settings, polls: nat, ghost r: Course, ghost cut: bool)
      returns (err: Option<string>, ghost r': Course)
      requires cfg.Runnable() && BelowLast(node) && c.live == cfg.liveMonitoring
      requires r.start == cfg.blockStart && r.stop == cfg.blockStop && RangeChosen(c, Heights(), r.start, r.stop, r.tip)
      requires !c.reIndex && c.start == 0 ==> cut == CutShort(store.outcomes(store.statements), Heights())
      modifies `ticks, `dispatched, store, channel
      ensures SameChoice(r, r') && Before(old(Now()), Now())
      ensures var w := W(cfg.maxRetries);
              RangeOutcome(w, c, old(Heights()), Heights(), r', polls, err.None?, cut, old(Now()), Now())
      ensures IsFirstRun(c, old(Heights())) ==> FirstRun(Heights(), r.start, r'.goal, err.None?)
      ensures err.None? && !c.reIndex && (c.start == 0 || c.stop == 0) ==>
                !CutShort(store.outcomes(old(store.statements)), old(Heights())) ==>
                AllGapsIn(old(Heights()), Heights())
      ensures c.reIndex || (c.start != 0 && c.stop != 0) ==>
                forall h :: h in Heights() ==> h in old(Heights()) || r.start <= h <= r'.goal
      ensures old(dispatched) <= dispatched
      ensures err.None? ==> Partition(DispatchedSince(old(dispatched)), r.start, r'.current)
      ensures (forall h :: h in old(Heights()) ==> h < MAX_HEIGHT) ==> forall h :: h in Heights() ==> h < MAX_HEIGHT
      ensures Whole(codec, old(store.tables)) ==> Whole(codec, store.tables)
    {
      ghost var before := Heights();
      ghost var between;
      err, between, r' := RunRange(cfg, c, polls, r);
      RunIsAccounted(c, before, between, Heights(), r', err.None?, cut);
    }

    /**
     One process. On success all of the range it chose is stored, dispatched in ranges that partition
     it; an error has its cause in the world. The gap query, if it is made, is the store's second
     statement.
     */
    method Extract(config: ExtractConfig, polls: nat) returns (err: Option<string>, ghost r: Course)
      requires config.Runnable() && BelowLast(node) && forall h :: h in Heights() ==> h < MAX_HEIGHT
      modifies `ticks, `dispatched, store, channel
      ensures TookPlace(W(config.maxRetries), old(config.Chosen()), polls,
                        Process(old(Heights()), Heights(), r, err.None?, old(Now()), Now()))
      ensures !config.reIndex && old(config.blockStart) == 0 ==> store.statements > old(store.statements)
      ensures old(dispatched) <= dispatched
      ensures err.None? ==> Partition(DispatchedSince(old(dispatched)), r.start, r.current)
      ensures err.None? && !config.reIndex && (old(config.blockStart) == 0 || old(config.blockStop) == 0) ==>
                var asked := old(store.statements) + (if old(config.blockStart) == 0 then 1 else 0);
                !CutShort(store.outcomes(asked), old(Heights())) ==> AllGapsIn(old(Heights()), Heights())
      ensures config.reIndex || (old(config.blockStart) != 0 && old(config.blockStop) != 0) ==>
                forall h :: h in Heights() ==> h in old(Heights()) || r.start <= h <= r.goal
      ensures NothingNew(W(config.maxRetries), old(config.Chosen()), old(Heights()), old(channel.calls)) ==>
                err.Some? && store.tables == old(store.tables) && store.statements == old(store.statements) + 1
      ensures IsFirstRun(old(config.Chosen()), old(Heights())) && (err.None? || Heights() != {}) ==>
                && Earliest(W(config.maxRetries), old(channel.calls)) == Some(r.start)
                && FirstRun(Heights(), r.start, r.goal, err.None?)
      ensures r.tip > 0 ==> LatestAt(W(config.maxRetries), r.asked) == Success(r.tip)
      ensures forall h :: h in Heights() ==> h < MAX_HEIGHT
      ensures Whole(codec, old(store.tables)) ==> Whole(codec, store.tables)
    {
      ghost var c, before, a := config.Chosen(), Heights(), Now();
      ghost var cut := CutShort(store.outcomes(store.statements + 1), before);
      var cfg := new ExtractConfig(config.blockStart, config.blockStop, config.maxConcurrency, config.maxRetries,
                                   config.reIndex, config.liveMonitoring);
      err, r := SetBlockRange(cfg);
      if err.Some? {
        NoRangeTookPlace(W(config.maxRetries), c, polls, before, r, a, Now());
        return err, r;
      }
      ghost var chosen, b := r, Now();
      if NothingNew(W(config.maxRetries), c, before, a.calls) {
        NothingNewMeansNoRange(W(config.maxRetries), c, before, chosen, a, b);
        assert false;
      }
      err, r := ExtractRange(cfg, config.Chosen(), polls, chosen, cut);
      ChosenThenDone(W(config.maxRetries), c, before, Heights(), chosen, r, polls, err.None?, cut, a, b, Now());
    }

    /** One process as the history of processes records it. */
    method StartOnce(config: ExtractConfig, polls: nat) returns (ok: bool, ghost p: Process)
      requires config.Runnable() && BelowLast(node) && IsAutomatic(config.Chosen())
      requires forall h :: h in Heights() ==> h < MAX_HEIGHT
      modifies `ticks, `dispatched, store, channel
      ensures p == Process(old(Heights()), Heights(), p.course, ok, old(Now()), Now())
      ensures TookPlace(W(config.maxRetries), old(config.Chosen()), polls, p) && p.a.statements < p.b.statements
      ensures old(Heights()) <= Heights() && forall h :: h in Heights() ==> h < MAX_HEIGHT
    {
      ghost var before, a := Heights(), Now();
      var err, r := Extract(config, polls);
      ok := err.None?;
      p := Process(before, Heights(), r, ok, a, Now());
    }

    /**
     The process started again after every failure, live or not, on a store that is not empty and with
     neither start nor stop configured. However the failures went, the first success leaves no gap
     exactly if the rows of its gap query did not break off.
     */
    method Restart(config: ExtractConfig, attempts: nat, polls: nat) returns (ok: bool, ghost ps: seq<Process>)
      requires config.Runnable() && BelowLast(node) && IsAutomatic(config.Chosen())
      requires Heights() != {} && (forall h :: h in Heights() ==> h < MAX_HEIGHT) && attempts > 0
      modifies `ticks, `dispatched, store, channel
      ensures ps != [] && (!ok ==> |ps| == attempts)
      ensures Restarted(W(config.maxRetries), old(config.Chosen()), polls,
                        Restarts(ps, old(Heights()), Heights(), ok, old(Now()), Now()))
      ensures store.statements >= old(store.statements) + |ps|
      ensures ok ==> forall m :: IsMin(old(Heights()), m) ==>
                var last := ps[|ps| - 1];
                IsInterval(Heights(), m, last.course.goal) <==> !WasCut(W(config.maxRetries), last)
    {
      ok, ps := false, [];
      ghost var w, c, first, a := W(config.maxRetries), config.Chosen(), Heights(), Now();
      var k := 0;
      while k < attempts && !ok
        invariant config.Chosen() == c && config.Runnable()
        invariant |ps| == k <= attempts && (k == 0 ==> !ok)
        invariant Restarted(w, c, polls, Restarts(ps, first, Heights(), ok, a, Now()))
        invariant first <= Heights() && forall h :: h in Heights() ==> h < MAX_HEIGHT
        decreases attempts - k
      {
        ghost var p;
        ok, p := StartOnce(config, polls);
        RestartStep(w, c, polls, ps, first, p, a);
        ps := ps + [p];
        k := k + 1;
      }
      RestartsMakeStatements(w, c, polls, ps, first, Heights(), ok, a, Now());
      if ok {
        forall m: nat | IsMin(first, m)
          ensures IsInterval(Heights(), m, ps[|ps| - 1].course.goal) <==> !WasCut(w, ps[|ps| - 1])
        {
          FirstSuccessRestores(w, c, polls, ps, first, Heights(), a, Now(), m);
        }
      }
    }
  }
}
