/** The world around the extractor, and what in it can make a step fail. */
module Environment {
  import opened Decimals
  import opened PruningHeight
  import opened Rpc
  import opened Store
  import opened Transactions
  import opened WorkerPool
  import opened Refinement
  import opened Wrappers

  const BLOCK_METHOD := "cosmos.tx.v1beta1.Service.GetBlockWithTxs"
  const TX_METHOD := "cosmos.tx.v1beta1.Service.GetTx"
  const STATUS_METHOD := "cosmos.base.node.v1beta1.Service.Status"
  const PROBE_METHOD := "cosmos.base.tendermint.v1beta1.Service.GetBlockByHeight"

  /** The node's answers at each call, and whether a method's descriptor is found. */
  datatype Node = Node(
    lookup: string -> Option<string>,
    block: (nat, nat) -> Result<string, string>,
    details: DetailSource,
    status: nat -> Result<string, string>,
    probe: nat -> Result<string, string>,
    lower: char -> char,
    done: nat -> bool)  // whether the context is done when it is looked at for the n-th time

  function BlockAt(node: Node, height: nat): nat -> Result<string, string> {
    (t: nat) => node.block(height, t)
  }

  /** What fetching a block comes to when its first attempt is call number `calls`. */
  function FetchedBlock(node: Node, height: nat, calls: nat, maxRetries: nat): Result<string, string> {
    CallOutcome(node.lookup(BLOCK_METHOD), BlockAt(node, height), calls, maxRetries, "")
  }

  /** The fetch succeeds, and what it brings parses and has only transactions that decode. */
  predicate Storable(node: Node, codec: Codec, height: nat, calls: nat, maxRetries: nat) {
    match FetchedBlock(node, height, calls, maxRetries)
    case Failure(_) => false
    case Success(json) => Unmarshalled(codec, json).Some? && AllDecode(codec, Entries(codec, json))
  }

  /** The node answers with what the chain holds, at any time at which it answers at all. */
  ghost predicate Settled(node: Node, codec: Codec, chain: Chain, maxRetries: nat) {
    match chain
    case Chain(json, details) =>
      && maxRetries > 0
      && (forall h, t :: node.block(h, t).Success? ==> node.block(h, t).value == json(h))
      && forall bytes, t, after, record ::
           IsRecord(DetailFetchOf(node, codec, maxRetries), bytes, t, after, record) ==>
             record.data == details(codec.digest(bytes))
  }

  function DetailFetchOf(node: Node, codec: Codec, maxRetries: nat): DetailFetch {
    DetailFetch(codec, node.lookup(TX_METHOD), node.details, maxRetries)
  }

  /** `w` is what storing a height would write, if its block is asked for from call number `calls` on. */
  ghost predicate IsWriteAt(node: Node, codec: Codec, height: nat, calls: nat, maxRetries: nat, w: Write) {
    match FetchedBlock(node, height, calls, maxRetries)
    case Failure(_) => false
    case Success(json) =>
      var fetched := calls + CallAttempts(node.lookup(BLOCK_METHOD), BlockAt(node, height), calls, maxRetries);
      && w.block == Block(height, json)
      && w.records == FetchedRecords(DetailFetchOf(node, codec, maxRetries), Entries(codec, json), fetched)
  }

  /** A block's text is an object or null, and of the strings listed in `block.data.txs` all decode. */
  ghost predicate IsBlockText(codec: Codec, text: string) {
    match codec.parse(text)
    case Some(JNull) => true
    case Some(JObject(members)) =>
      (match At(At(At(Some(JObject(members)), "block"), "data"), "txs")
       case Some(JArray(items)) => forall tx :: tx in items && tx.JString? ==> codec.decode(tx.text).Some?
       case _ => true)
    case _ => false
  }

  lemma {:induction false} EntriesAreStrings(items: seq<Json>)
    ensures forall text :: text in StringEntries(items) <==> JString(text) in items
    decreases |items|
  {
    if items != [] {
      var k := |items| - 1;
      EntriesAreStrings(items[..k]);
      assert forall tx :: tx in items <==> tx in items[..k] || tx == items[k];
    }
  }

  lemma BlockTextIff(codec: Codec, text: string)
    ensures IsBlockText(codec, text) <==> Unmarshalled(codec, text).Some? && AllDecode(codec, Entries(codec, text))
  {
    match codec.parse(text) {
      case Some(JObject(members)) =>
        TxListAtPath(members);
        EntriesAreStrings(TxList(members));
        var entries := StringEntries(TxList(members));
        assert AllDecode(codec, entries) <==> forall text :: text in entries ==> codec.decode(text).Some?;
        assert forall tx :: tx in TxList(members) && tx.JString? ==> tx.text in entries;
      case Some(JNull) =>
        TxListAtPath(map[]);
      case _ =>
    }
  }

  /** The block's text is what the node gave at call `t`, the first at which it gave anything. */
  ghost predicate GivenAt(node: Node, height: nat, calls: nat, maxRetries: nat, t: nat, text: string) {
    && node.lookup("cosmos.tx.v1beta1.Service.GetBlockWithTxs").None?
    && calls <= t < calls + maxRetries && node.block(height, t) == Success(text)
    && forall k :: calls <= k < t ==> node.block(height, k).Failure?
  }

  lemma FetchedIsGiven(node: Node, height: nat, calls: nat, maxRetries: nat)
    requires maxRetries > 0 && FetchedBlock(node, height, calls, maxRetries).Success?
    ensures var t := calls + CallAttempts(node.lookup(BLOCK_METHOD), BlockAt(node, height), calls, maxRetries) - 1;
            t >= 0 && GivenAt(node, height, calls, maxRetries, t, FetchedBlock(node, height, calls, maxRetries).value)
  {
    var attempt := BlockAt(node, height);
    CallIs(node.lookup(BLOCK_METHOD), attempt, calls, maxRetries, "");
    var t := calls + CallAttempts(node.lookup(BLOCK_METHOD), attempt, calls, maxRetries) - 1;
    forall k | calls <= k < t
      ensures node.block(height, k).Failure?
    {
      assert attempt(k).Failure?;
    }
  }

  /** A height can be stored exactly if the node gives a text within the retries and the first is a block's. */
  lemma StorableIff(node: Node, codec: Codec, height: nat, calls: nat, maxRetries: nat)
    requires maxRetries > 0
    ensures Storable(node, codec, height, calls, maxRetries) <==>
              exists t: nat, text :: GivenAt(node, height, calls, maxRetries, t, text) && IsBlockText(codec, text)
  {
    if Storable(node, codec, height, calls, maxRetries) {
      FetchedIsGiven(node, height, calls, maxRetries);
      BlockTextIff(codec, FetchedBlock(node, height, calls, maxRetries).value);
    }
    forall t: nat, text | GivenAt(node, height, calls, maxRetries, t, text) && IsBlockText(codec, text)
      ensures Storable(node, codec, height, calls, maxRetries)
    {
      CallIsUnique(node.lookup(BLOCK_METHOD), BlockAt(node, height), calls, maxRetries, "", Success(text), t + 1);
      BlockTextIff(codec, text);
    }
  }

  /** What is written is that text under its height, and one record for each string it lists, fetched after it. */
  lemma WriteIsGiven(node: Node, codec: Codec, height: nat, calls: nat, maxRetries: nat, w: Write) returns (t: nat)
    requires maxRetries > 0 && Storable(node, codec, height, calls, maxRetries)
    requires IsWriteAt(node, codec, height, calls, maxRetries, w)
    ensures GivenAt(node, height, calls, maxRetries, t, w.block.data) && w.block.id == height
    ensures AreRecords(DetailFetch(codec, node.lookup("cosmos.tx.v1beta1.Service.GetTx"), node.details, maxRetries),
                       Entries(codec, w.block.data), t + 1, w.records)
  {
    FetchedIsGiven(node, height, calls, maxRetries);
    t := calls + CallAttempts(node.lookup(BLOCK_METHOD), BlockAt(node, height), calls, maxRetries) - 1;
    var f, entries := DetailFetchOf(node, codec, maxRetries), Entries(codec, w.block.data);
    FetchedAreRecords(f, entries, t + 1);
    assert w.records == FetchedRecords(f, entries, t + 1);
  }

  lemma SettledBlock(node: Node, codec: Codec, chain: Chain, height: nat, calls: nat, maxRetries: nat)
    requires Settled(node, codec, chain, maxRetries) && FetchedBlock(node, height, calls, maxRetries).Success?
    ensures FetchedBlock(node, height, calls, maxRetries).value == chain.json(height)
  {
    RetriedIsFirstSuccess(BlockAt(node, height), calls, maxRetries);
    var last := calls + AttemptsMade(BlockAt(node, height), calls, maxRetries) - 1;
    assert FetchedBlock(node, height, calls, maxRetries) == node.block(height, last);
  }

  /** What a storable height would write is that block with its own extraction; with a settled node, the chain's. */
  lemma StorableWrite(node: Node, codec: Codec, chain: Chain, height: nat, calls: nat, maxRetries: nat, w: Write)
    requires Storable(node, codec, height, calls, maxRetries) && IsWriteAt(node, codec, height, calls, maxRetries, w)
    ensures Possible(codec, height, w)
    ensures Settled(node, codec, chain, maxRetries) ==> w == ChainWrite(codec, chain, height)
  {
    var t := calls + CallAttempts(node.lookup(BLOCK_METHOD), BlockAt(node, height), calls, maxRetries);
    FetchedIsExtraction(DetailFetchOf(node, codec, maxRetries), Entries(codec, w.block.data), t);
    if Settled(node, codec, chain, maxRetries) {
      SettledBlock(node, codec, chain, height, calls, maxRetries);
      SettledRecords(node, codec, chain, maxRetries, EntriesAt(codec, chain, height), t);
    }
  }

  lemma SettledRecords(node: Node, codec: Codec, chain: Chain, maxRetries: nat, entries: seq<string>, t: nat)
    requires Settled(node, codec, chain, maxRetries) && AllDecode(codec, entries)
    ensures FetchedRecords(DetailFetchOf(node, codec, maxRetries), entries, t) == RecordsOf(codec, chain, entries)
  {
    var f := DetailFetchOf(node, codec, maxRetries);
    var records := FetchedRecords(f, entries, t);
    forall i | 0 <= i < |entries|
      ensures records[i] == RecordsOf(codec, chain, entries)[i]
    {
      RecordsAreFetched(f, entries, t, i);
    }
  }

  /** Reported heights stay below the last 64-bit number. */
  ghost predicate BelowLast(node: Node) {
    forall t: nat :: node.status(t).Success? ==> ParseUint64(node.status(t).value) != Some(MAX_HEIGHT)
  }

  /** Everything outside the program, and how often it retries. */
  datatype World = World(node: Node, codec: Codec, outcomes: nat -> Outcome, maxRetries: nat)

  /** How far the counters have come that number the world's answers. */
  datatype Mark = Mark(calls: nat, statements: nat, ticks: nat)

  ghost predicate Before(a: Mark, b: Mark) {
    a.calls <= b.calls && a.statements <= b.statements && a.ticks <= b.ticks
  }

  /** What asking for the latest height comes to, beginning with call number `calls`. */
  function LatestAt(w: World, calls: nat): Result<nat, string> {
    CallOutcome<nat>(w.node.lookup(STATUS_METHOD), Height(w.node.status), calls, w.maxRetries, 0)
  }

  /** Where a live run at `current` goes next: to the latest height, if that is known and higher. */
  function Aim(w: World, calls: nat, current: nat): nat {
    match LatestAt(w, calls)
    case Failure(_) => current
    case Success(h) => if h > current then h else current
  }

  function LatestCalls(w: World, calls: nat): nat {
    CallAttempts<nat>(w.node.lookup(STATUS_METHOD), Height(w.node.status), calls, w.maxRetries)
  }

  /** The latest height is what the first status answer that is a 64-bit number says, within the retries. */
  lemma LatestAtIff(w: World, calls: nat, h: nat)
    requires w.maxRetries > 0
    ensures LatestAt(w, calls) == Success(h) <==>
              && w.node.lookup("cosmos.base.node.v1beta1.Service.Status").None?
              && exists t: nat :: FirstReported(w.node.status, calls, w.maxRetries, t, h)
  {
    var attempt := Height(w.node.status);
    CallIs<nat>(w.node.lookup(STATUS_METHOD), attempt, calls, w.maxRetries, 0);
    if LatestAt(w, calls) == Success(h) {
      var t := calls + LatestCalls(w, calls) - 1;
      forall k, g | calls <= k < t
        ensures !Reports(w.node.status, k, g)
      {
        assert attempt(k).Failure?;
      }
      assert FirstReported(w.node.status, calls, w.maxRetries, t, h);
    }
    if t: nat :| w.node.lookup(STATUS_METHOD).None? && FirstReported(w.node.status, calls, w.maxRetries, t, h) {
      assert attempt(t) == Success(h);
      forall k | calls <= k < t
        ensures attempt(k).Failure?
      {
        assert attempt(k).Success? ==> Reports(w.node.status, k, attempt(k).value);
      }
      CallIsUnique<nat>(w.node.lookup(STATUS_METHOD), attempt, calls, w.maxRetries, 0, Success(h), t + 1);
    }
  }

  ghost predicate FirstReported(status: nat -> Result<string, string>, calls: nat, maxRetries: nat, t: nat, h: nat) {
    && calls <= t < calls + maxRetries && Reports(status, t, h)
    && forall k, g :: calls <= k < t ==> !Reports(status, k, g)
  }

  /** The earliest is looked for by asking for block 1. */
  lemma EarliestByBlock(w: World, calls: nat)
    ensures Earliest(w, calls)
         == EarliestHeight(w.node.lookup("cosmos.base.tendermint.v1beta1.Service.GetBlockByHeight"), w.node.probe,
                           calls, w.maxRetries, w.node.lower)
  {
  }

  /** What looking for the node's earliest height comes to. */
  function Earliest(w: World, calls: nat): Option<nat> {
    EarliestHeight(w.node.lookup(PROBE_METHOD), w.node.probe, calls, w.maxRetries, w.node.lower)
  }

  ghost predicate StatementFailed(w: World, a: Mark, b: Mark) {
    exists k :: a.statements <= k < b.statements && w.outcomes(k) != Fine
  }

  ghost predicate ContextDone(w: World, a: Mark, b: Mark) {
    exists k :: a.ticks <= k < b.ticks && w.node.done(k)
  }

  ghost predicate BlockFailed(w: World, a: Mark, b: Mark, heights: set<nat>) {
    exists h, c :: h in heights && a.calls <= c <= b.calls && !Storable(w.node, w.codec, h, c, w.maxRetries)
  }

  /** Between these two marks something went wrong that these heights depend on. */
  ghost predicate Trouble(w: World, a: Mark, b: Mark, heights: set<nat>) {
    StatementFailed(w, a, b) || ContextDone(w, a, b) || BlockFailed(w, a, b, heights)
  }

  lemma TroubleWidens(w: World, a: Mark, b: Mark, heights: set<nat>, a': Mark, b': Mark, more: set<nat>)
    requires Before(a', a) && Before(b, b') && heights <= more && Trouble(w, a, b, heights)
    ensures Trouble(w, a', b', more)
  {
  }

  /** The reports a live run received, when it asked for each, and its looks at the context before. */
  datatype LiveLog = LiveLog(reports: seq<nat>, asked: seq<nat>, looks: seq<nat>)

  /**
   Report number `i` is what the node said when asked, after the previous answer, and after a look of
   its own that found the context not done.
   */
  ghost predicate IsPoll(w: World, log: LiveLog, a: Mark, b: Mark, i: nat) {
    match log
    case LiveLog(reports, asked, looks) =>
      && i < |reports| == |asked| == |looks|
      && a.ticks <= looks[i] < b.ticks && !w.node.done(looks[i]) && (i > 0 ==> looks[i - 1] < looks[i])
      && a.calls <= asked[i] && asked[i] + LatestCalls(w, asked[i]) <= b.calls
      && (i > 0 ==> asked[i - 1] + LatestCalls(w, asked[i - 1]) <= asked[i])
      && LatestAt(w, asked[i]) == Success(reports[i])
  }

  ghost predicate TrueLog(w: World, log: LiveLog, a: Mark, b: Mark) {
    match log
    case LiveLog(reports, asked, looks) =>
      |asked| == |reports| == |looks| && Before(a, b) && forall i :: 0 <= i < |reports| ==> IsPoll(w, log, a, b, i)
  }

  lemma TrueLogWidens(w: World, log: LiveLog, a: Mark, b: Mark, a': Mark, b': Mark)
    requires TrueLog(w, log, a, b) && Before(a', a) && Before(b, b')
    ensures TrueLog(w, log, a', b')
  {
    forall i | 0 <= i < |log.reports|
      ensures IsPoll(w, log, a', b', i)
    {
      assert IsPoll(w, log, a, b, i);
    }
  }

  lemma TrueLogGrows(w: World, log: LiveLog, a: Mark, b: Mark, c: Mark, report: nat)
    requires TrueLog(w, log, a, b) && Before(b, c) && b.ticks < c.ticks && !w.node.done(b.ticks)
    requires LatestAt(w, b.calls) == Success(report) && b.calls + LatestCalls(w, b.calls) <= c.calls
    ensures TrueLog(w, LiveLog(log.reports + [report], log.asked + [b.calls], log.looks + [b.ticks]), a, c)
  {
    var k, longer := |log.reports|, LiveLog(log.reports + [report], log.asked + [b.calls], log.looks + [b.ticks]);
    if k > 0 {
      assert IsPoll(w, log, a, b, k - 1);
    }
    forall i | 0 <= i < k
      ensures IsPoll(w, longer, a, c, i)
    {
      assert IsPoll(w, log, a, b, i);
    }
  }

  function HighestOf(base: int, reports: seq<nat>): (high: int)
    ensures base <= high && forall r :: r in reports ==> r <= high
    ensures high == base || high in reports
  {
    if reports == [] then base
    else
      var k := |reports| - 1;
      var high := HighestOf(base, reports[..k]);
      assert forall r :: r in reports ==> r in reports[..k] || r == reports[k];
      if reports[k] > high then reports[k] else high
  }

  /** A live run that has come to `current` can fail here: at a report, or at the heights up to it. */
  ghost predicate LiveFailsAt(w: World, a: Mark, b: Mark, current: nat, calls: nat) {
    match LatestAt(w, calls)
    case Failure(_) => true
    case Success(h) => h > current && Trouble(w, a, b, Range(current + 1, h - current))
  }

  ghost predicate LiveFailed(w: World, a: Mark, b: Mark, current: nat) {
    exists calls :: a.calls <= calls <= b.calls && LiveFailsAt(w, a, b, current, calls)
  }

  lemma LiveFailureWidens(w: World, a: Mark, b: Mark, current: nat, a': Mark, b': Mark)
    requires LiveFailed(w, a, b, current) && Before(a', a) && Before(b, b')
    ensures LiveFailed(w, a', b', current)
  {
    var calls :| a.calls <= calls <= b.calls && LiveFailsAt(w, a, b, current, calls);
    if LatestAt(w, calls).Success? {
      var heights := Range(current + 1, LatestAt(w, calls).value - current);
      TroubleWidens(w, a, b, heights, a', b', heights);
    }
    assert LiveFailsAt(w, a', b', current, calls);
  }

  lemma CauseCarries(w: World, trace: seq<Event>, e: Event, a: Mark, b: Mark, c: Mark, heights: set<nat>)
    requires Before(a, b) && Before(b, c)
    requires HasCause(trace) ==> Trouble(w, a, b, heights)
    requires IsCause(e) ==> Trouble(w, b, c, heights)
    ensures HasCause(trace + [e]) ==> Trouble(w, a, c, heights)
  {
    if HasCause(trace + [e]) {
      var k :| 0 <= k < |trace + [e]| && IsCause((trace + [e])[k]);
      if k < |trace| {
        assert IsCause(trace[k]);
        TroubleWidens(w, a, b, heights, a, c, heights);
      } else {
        TroubleWidens(w, b, c, heights, a, c, heights);
      }
    }
  }

  /** One look at the context goes with each step, the first with number `t`; once it is done, the pool is cancelled. */
  ghost predicate Heeds(node: Node, s: Pool, trace: seq<Event>, t: nat) {
    if trace == [] then true
    else
      var k := |trace| - 1;
      Heeds(node, s, trace[..k], t) && (node.done(t + k) ==> Run(s, trace).cancelled)
  }

  lemma StoredOnTop(s: Pool, e: Event, first: set<nat>, now: set<nat>, later: set<nat>)
    requires now == first + s.stored && later == now + (Next(s, e).stored - s.stored)
    ensures later == first + Next(s, e).stored
  {
    assert s.stored <= Next(s, e).stored;
  }

  lemma HeedsOneMore(node: Node, codec: Codec, s: Pool, trace: seq<Event>, e: Event, t: nat)
    requires Heeds(node, s, trace, t) && IsRun(codec, s, trace) && Enabled(codec, Run(s, trace), e)
    requires node.done(t + |trace|) ==> Next(Run(s, trace), e).cancelled
    ensures Heeds(node, s, trace + [e], t)
  {
    assert (trace + [e])[..|trace|] == trace;
    RunThenStep(codec, s, trace, e);
  }

  /** A pool on its way: the schedule so far, from the chain if the node is settled, and its causes of failure. */
  ghost predicate PoolSoFar(w: World, chain: Chain, start: nat, stop: nat, capacity: nat, t: Tables, trace: seq<Event>,
    s: Pool, a: Mark, b: Mark)
  {
    match w
    case World(node, codec, _, maxRetries) =>
      && Reached(codec, start, stop, capacity, t, trace, s) && Before(a, b)
      && b.ticks == a.ticks + |trace| && Heeds(node, Initial(start, stop, capacity, t), trace, a.ticks)
      && Inv(s) && s.start == start && s.stop == stop && s.capacity == capacity
      && (Settled(node, codec, chain, maxRetries) ==>
            RunFromChain(codec, chain, Initial(start, stop, capacity, t), trace))
      && (HasCause(trace) ==> Trouble(w, a, b, Range(start, Span(start, stop))))
  }

  lemma PoolBegins(w: World, chain: Chain, start: nat, stop: nat, capacity: nat, t: Tables, a: Mark)
    requires start <= MAX_HEIGHT && stop < MAX_HEIGHT && capacity >= 1
    ensures PoolSoFar(w, chain, start, stop, capacity, t, [], Initial(start, stop, capacity, t), a, a)
  {
    InitialInv(start, stop, capacity, t);
  }

  /** What holds when the call returns. */
  lemma PoolReturns(w: World, chain: Chain, start: nat, stop: nat, capacity: nat, t: Tables, trace: seq<Event>, s: Pool,
    a: Mark, b: Mark)
    requires PoolSoFar(w, chain, start, stop, capacity, t, trace, s, a, b) && Final(s)
    ensures var first := Initial(start, stop, capacity, t);
            && IsRun(w.codec, first, trace) && Run(first, trace) == s
            && Heeds(w.node, first, trace, a.ticks) && b.ticks == a.ticks + |trace|
    ensures Inv(s) && s.start == start && s.stop == stop
    ensures forall h :: h in s.stored ==> start <= h <= stop
    ensures s.phase.ok ==> forall h :: start <= h <= stop ==> h in s.stored
    ensures !s.phase.ok ==> HasCause(trace) && Trouble(w, a, b, Range(start, Span(start, stop)))
    ensures Whole(w.codec, t) ==> Whole(w.codec, s.tables)
    ensures s.phase.ok && Settled(w.node, w.codec, chain, w.maxRetries) ==>
              s.tables == Sequential(w.codec, chain, t, start, Span(start, stop))
  {
    ReturnMeans(w.codec, chain, start, stop, capacity, t, trace, s);
  }

  lemma PoolAdvances(w: World, chain: Chain, start: nat, stop: nat, capacity: nat, t: Tables, trace: seq<Event>,
    s: Pool, e: Event, a: Mark, b: Mark, c: Mark)
    requires PoolSoFar(w, chain, start, stop, capacity, t, trace, s, a, b) && Before(b, c) && Enabled(w.codec, s, e)
    requires Settled(w.node, w.codec, chain, w.maxRetries) ==> FromChain(w.codec, chain, s, e)
    requires IsCause(e) ==> Trouble(w, b, c, Range(start, Span(start, stop)))
    requires c.ticks == b.ticks + 1 && (w.node.done(b.ticks) ==> Next(s, e).cancelled)
    ensures PoolSoFar(w, chain, start, stop, capacity, t, trace + [e], Next(s, e), a, c)
    ensures 0 <= Measure(Next(s, e)) < Measure(s)
  {
    CauseCarries(w, trace, e, a, b, c, Range(start, Span(start, stop)));
    HeedsOneMore(w.node, w.codec, Initial(start, stop, capacity, t), trace, e, a.ticks);
    ReachedNext(w.codec, start, stop, capacity, t, trace, s, e);
    ReachedInv(w.codec, start, stop, capacity, t, trace + [e], Next(s, e));
    if Settled(w.node, w.codec, chain, w.maxRetries) {
      ChainRunThenStep(w.codec, chain, Initial(start, stop, capacity, t), trace, e);
    }
  }
}
