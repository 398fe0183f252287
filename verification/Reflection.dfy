/** The reflection client: one connection, its requests, and what a well-behaved server answers. */
module Reflection {
  import opened Graphs
  import opened Descriptors
  import opened Wrappers
  import Rpc

  datatype Request =
    | ListServices
    | FileContainingSymbol(symbol: string)
    | FileByFilename(name: string)

  datatype Encoded = Decodable(contents: FileContents) | Corrupt

  datatype Reply =
    | Services(names: seq<string>)
    | Descriptors(files: seq<Encoded>)
    | ErrorReply(message: string)

  /** What comes back from the `t`-th exchange on a connection. */
  type Answers = (nat, Request) -> Result<Reply, string>

  /** The exchange fails, or the server answers with an error. */
  predicate Fails(answers: Answers, t: nat, req: Request) {
    answers(t, req).Failure? || answers(t, req).value.ErrorReply?
  }

  /** One attempt: an error reply counts as a failure. */
  function Attempt(answers: Answers, t: nat, req: Request): Result<Reply, string> {
    match answers(t, req)
    case Success(ErrorReply(message)) => Failure(message)
    case other => other
  }

  /** All files a server knows, and the file that declares each symbol. */
  datatype Universe = Universe(files: map<string, FileContents>, owner: map<string, string>)

  function UniverseGraph(u: Universe): Graph {
    map n | n in u.files :: u.files[n].dependency
  }

  ghost predicate Wants(u: Universe, req: Request, root: string) {
    match req
    case ListServices => false
    case FileContainingSymbol(s) => s in u.owner && u.owner[s] == root
    case FileByFilename(n) => n == root
  }

  /** True files of the universe, all within reach of `root`. */
  ghost predicate Genuine(u: Universe, root: string, batch: seq<FileContents>) {
    forall i :: 0 <= i < |batch| ==>
      && batch[i].name in u.files
      && u.files[batch[i].name] == batch[i]
      && Reaches(UniverseGraph(u), root, batch[i].name)
  }

  ghost predicate Contains(batch: seq<FileContents>, root: string) {
    exists i :: 0 <= i < |batch| && batch[i].name == root
  }

  ghost predicate Decodes(encoded: seq<Encoded>, batch: seq<FileContents>) {
    |encoded| == |batch| && forall i :: 0 <= i < |batch| ==> encoded[i] == Decodable(batch[i])
  }

  /**
   A server that answers a descriptor request, whenever the answer can be decoded, with the
   requested file and otherwise only files it transitively imports. It may fail at any time.
   */
  ghost predicate WellBehaved(u: Universe, answers: Answers) {
    forall t, req, encoded, batch ::
      answers(t, req) == Success(Descriptors(encoded)) && Decodes(encoded, batch) ==>
        exists root :: Wants(u, req, root) && Contains(batch, root) && Genuine(u, root, batch)
  }

  /** The first attempt to succeed, of `n` that begin with exchange `t`. */
  function FirstReply(answers: Answers, t: nat, req: Request, n: nat): Option<Reply>
    decreases n
  {
    if n == 0 then None
    else
      match Attempt(answers, t, req)
      case Success(reply) => Some(reply)
      case Failure(_) => FirstReply(answers, t + 1, req, n - 1)
  }

  lemma {:induction false} FirstReplyAt(answers: Answers, t: nat, req: Request, n: nat, k: nat)
    requires k < n && Attempt(answers, t + k, req).Success?
    requires forall i :: t <= i < t + k ==> Fails(answers, i, req)
    ensures FirstReply(answers, t, req, n) == Some(Attempt(answers, t + k, req).value)
    decreases k
  {
    if k > 0 {
      assert Fails(answers, t, req);
      FirstReplyAt(answers, t + 1, req, n - 1, k - 1);
    }
  }

  lemma {:induction false} NoReply(answers: Answers, t: nat, req: Request, n: nat)
    requires forall i :: t <= i < t + n ==> Fails(answers, i, req)
    ensures FirstReply(answers, t, req, n) == None
    decreases n
  {
    if n > 0 {
      assert Fails(answers, t, req);
      NoReply(answers, t + 1, req, n - 1);
    }
  }

  predicate AllDecodable(encoded: seq<Encoded>) {
    forall i :: 0 <= i < |encoded| ==> encoded[i].Decodable?
  }

  /** A request that begins with exchange `t` is answered in kind, and with nothing corrupt. */
  predicate Usable(answers: Answers, t: nat, req: Request, n: nat) {
    match FirstReply(answers, t, req, n)
    case Some(Services(_)) => req.ListServices?
    case Some(Descriptors(encoded)) => !req.ListServices? && AllDecodable(encoded)
    case _ => false
  }

  /** An answer in kind, with nothing corrupt. */
  predicate Serves(reply: Result<Reply, string>, req: Request) {
    match reply
    case Success(Services(_)) => req.ListServices?
    case Success(Descriptors(encoded)) => !req.ListServices? && forall i :: 0 <= i < |encoded| ==> encoded[i] != Corrupt
    case _ => false
  }

  /** Failures and error replies are gone past; the first other reply within the limit decides. */
  lemma {:induction false} UsableIff(answers: Answers, t: nat, req: Request, n: nat)
    ensures Usable(answers, t, req, n) <==>
              exists k :: t <= k < t + n && Serves(answers(k, req), req) && forall i :: t <= i < k ==>
                answers(i, req).Failure? || answers(i, req).value.ErrorReply?
    decreases n
  {
    if n > 0 {
      UsableIff(answers, t + 1, req, n - 1);
      if Serves(answers(t, req), req) {
        assert FirstReply(answers, t, req, n) == Some(answers(t, req).value);
      }
    }
  }

  /** What the services are, however many failures and error replies came before. */
  lemma ServicesAreFound(answers: Answers, t: nat, n: nat, k: nat, names: seq<string>)
    requires t <= k < t + n && answers(k, ListServices) == Success(Services(names))
    requires forall i :: t <= i < k ==>
               answers(i, ListServices).Failure? || answers(i, ListServices).value.ErrorReply?
    ensures Usable(answers, t, ListServices, n)
    ensures FirstReply(answers, t, ListServices, n) == Some(Services(names))
  {
    FirstReplyAt(answers, t, ListServices, n, k - t);
  }

  /** The request asks for something that exists. */
  predicate HasTarget(u: Universe, req: Request) {
    match req
    case ListServices => true
    case FileContainingSymbol(s) => s in u.owner
    case FileByFilename(n) => n in u.files
  }

  /** Every listed service is declared in a known file, and every import is of a known file. */
  ghost predicate Consistent(u: Universe, answers: Answers) {
    && Closed(UniverseGraph(u), u.files.Keys)
    && (forall s :: s in u.owner ==> u.owner[s] in u.files)
    && forall t: nat, names :: answers(t, ListServices) == Success(Services(names)) ==>
         forall s :: s in names ==> s in u.owner
  }

  /** Whenever something that exists is asked for, `n` attempts are enough for a usable answer. */
  ghost predicate Responsive(u: Universe, answers: Answers, n: nat) {
    && Consistent(u, answers)
    && forall t: nat, req :: HasTarget(u, req) ==> Usable(answers, t, req, n)
  }

  /**
   A request as it was made: what its maker had at the time, and the exchanges it took, from `first`
   up to but not including `next`.
   */
  datatype Asked = Asked(req: Request, known: set<string>, first: nat, next: nat)

  /** Attempts stop at the first that does not fail, or at the limit. */
  ghost predicate Took(answers: Answers, req: Request, n: nat, first: nat, next: nat) {
    && first <= next <= first + n && (n > 0 ==> first < next)
    && (forall t :: first <= t < next - 1 ==> Fails(answers, t, req))
    && (next < first + n ==> !Fails(answers, next - 1, req))
  }

  /** A server, what it knows, and how often it is asked. */
  datatype Peer = Peer(u: Universe, answers: Answers, retries: nat)

  /** How far the talk with a server has come. */
  datatype Talk = Talk(asked: seq<Asked>, exchanges: nat)

  /** The symbols among the requests from number `k` on. */
  function SymbolsFrom(asked: seq<Asked>, k: nat): seq<string> {
    if |asked| <= k then []
    else
      var last := asked[|asked| - 1].req;
      SymbolsFrom(asked[..|asked| - 1], k) + (if last.FileContainingSymbol? then [last.symbol] else [])
  }

  /** A file asked for by name is one of `bound`, and not known at the time; whoever asks has at least `base`. */
  ghost predicate WellAsked(bound: iset<string>, base: set<string>, e: Asked) {
    match e.req
    case ListServices => false
    case FileContainingSymbol(_) => base <= e.known
    case FileByFilename(n) => base <= e.known && n in bound && n !in e.known
  }

  /**
   An inquiry since `from`: the files that may be asked for by name, what was known at its start, and
   the symbols asked for so far.
   */
  datatype Quest = Quest(bound: iset<string>, base: set<string>, symbols: seq<string>, from: Talk)

  /** Request number `i` was in order, began where the one before ended, and took as long as it had to. */
  ghost predicate InOrder(p: Peer, q: Quest, asked: seq<Asked>, i: nat) {
    match q
    case Quest(bound, base, _, Talk(before, exchanges)) =>
      && |before| <= i < |asked|
      && asked[i].first == (if i == |before| then exchanges else asked[i - 1].next)
      && Took(p.answers, asked[i].req, p.retries, asked[i].first, asked[i].next)
      && WellAsked(bound, base, asked[i])
  }

  ghost predicate HadAnswer(p: Peer, asked: seq<Asked>, i: nat) {
    i < |asked| && Usable(p.answers, asked[i].first, asked[i].req, p.retries)
  }

  /** Each request after the first `k` had a usable answer. */
  ghost predicate AllUsable(p: Peer, asked: seq<Asked>, k: nat) {
    forall i :: k <= i < |asked| ==> HadAnswer(p, asked, i)
  }

  /**
   The inquiry's requests were all in order, and account for all the exchanges there were. It went
   well exactly if all of them had usable answers.
   */
  ghost predicate Inquiry(p: Peer, q: Quest, now: Talk, ok: bool) {
    match q
    case Quest(_, _, symbols, Talk(before, exchanges)) =>
      && before <= now.asked && SymbolsFrom(now.asked, |before|) == symbols
      && now.exchanges == (if |before| == |now.asked| then exchanges else now.asked[|now.asked| - 1].next)
      && (forall i :: |before| <= i < |now.asked| ==> InOrder(p, q, now.asked, i))
      && (ok <==> AllUsable(p, now.asked, |before|))
  }

  lemma NothingInquired(p: Peer, bound: iset<string>, base: set<string>, now: Talk)
    ensures Inquiry(p, Quest(bound, base, [], now), now, true)
  {
  }

  /** An inquiry that went well goes on with one more request. */
  lemma InquiryGoesOn(p: Peer, q: Quest, a: Talk, e: Asked, now: Talk)
    requires Inquiry(p, q, a, true) && WellAsked(q.bound, q.base, e)
    requires Took(p.answers, e.req, p.retries, e.first, e.next) && e.first == a.exchanges
    requires now == Talk(a.asked + [e], e.next)
    ensures var symbols := q.symbols + (if e.req.FileContainingSymbol? then [e.req.symbol] else []);
            Inquiry(p, q.(symbols := symbols), now, Usable(p.answers, e.first, e.req, p.retries))
  {
    var k, asked := |q.from.asked|, now.asked;
    assert asked[..|asked| - 1] == a.asked;
    var symbols := q.symbols + (if e.req.FileContainingSymbol? then [e.req.symbol] else []);
    forall i | k <= i < |asked|
      ensures InOrder(p, q.(symbols := symbols), asked, i)
      ensures i < |asked| - 1 ==> HadAnswer(p, asked, i)
    {
      if i < |asked| - 1 {
        assert InOrder(p, q, a.asked, i) && HadAnswer(p, a.asked, i);
        assert asked[i] == a.asked[i] && (i > 0 ==> asked[i - 1] == a.asked[i - 1]);
      }
    }
    assert HadAnswer(p, asked, |asked| - 1) <==> Usable(p.answers, e.first, e.req, p.retries);
  }

  lemma InquiryByName(p: Peer, q: Quest, a: Talk, e: Asked, now: Talk)
    requires Inquiry(p, q, a, true) && WellAsked(q.bound, q.base, e) && e.req.FileByFilename?
    requires Took(p.answers, e.req, p.retries, e.first, e.next) && e.first == a.exchanges
    requires now == Talk(a.asked + [e], e.next)
    ensures Inquiry(p, q, now, Usable(p.answers, e.first, e.req, p.retries))
  {
    InquiryGoesOn(p, q, a, e, now);
    assert q.symbols + [] == q.symbols && q.(symbols := q.symbols) == q;
  }

  lemma AllUsableSplits(p: Peer, asked: seq<Asked>, k: nat, m: nat)
    requires k <= m <= |asked|
    ensures AllUsable(p, asked, k) <==> AllUsable(p, asked[..m], k) && AllUsable(p, asked, m)
  {
    forall i | k <= i < m
      ensures HadAnswer(p, asked, i) <==> HadAnswer(p, asked[..m], i)
    {
    }
  }

  /** If all that may be asked for was known from the start, only symbols were asked for. */
  lemma KnownIsNotAsked(p: Peer, q: Quest, now: Talk, ok: bool)
    requires Inquiry(p, q, now, ok) && forall n :: n in q.bound ==> n in q.base
    ensures |now.asked| == |q.from.asked| + |q.symbols|
    ensures q.symbols == [] ==> ok
    ensures |q.symbols| == 1 ==>
              (ok <==> Usable(p.answers, q.from.exchanges, FileContainingSymbol(q.symbols[0]), p.retries))
  {
    var k := |q.from.asked|;
    forall i | k <= i < |now.asked|
      ensures now.asked[i].req.FileContainingSymbol?
    {
      assert InOrder(p, q, now.asked, i);
    }
    OnlySymbols(now.asked, k);
    if |q.symbols| == 1 {
      assert InOrder(p, q, now.asked, k);
      assert now.asked[..k + 1] == now.asked;
      assert HadAnswer(p, now.asked, k) <==> ok;
    }
  }

  lemma {:induction false} OnlySymbols(asked: seq<Asked>, k: nat)
    requires k <= |asked| && forall i :: k <= i < |asked| ==> asked[i].req.FileContainingSymbol?
    ensures |SymbolsFrom(asked, k)| == |asked| - k
    ensures k < |asked| ==> SymbolsFrom(asked, k)[0] == asked[k].req.symbol
    decreases |asked|
  {
    if k < |asked| {
      OnlySymbols(asked[..|asked| - 1], k);
    }
  }

  /** From `a` to `b` the services were asked for. */
  ghost predicate Listed(p: Peer, a: Talk, b: Talk) {
    match a
    case Talk(asked, exchanges) =>
      && b.asked == asked + [Asked(ListServices, {}, exchanges, b.exchanges)]
      && Took(p.answers, ListServices, p.retries, exchanges, b.exchanges)
  }

  /** If whatever exists can be had, only a request for something that does not exist can fail. */
  lemma ResponsiveMeansUsable(p: Peer, q: Quest, now: Talk, ok: bool)
    requires Inquiry(p, q, now, ok) && Responsive(p.u, p.answers, p.retries)
    requires (forall n :: n in q.bound ==> n in p.u.files) && forall s :: s in q.symbols ==> s in p.u.owner
    ensures ok
  {
    forall i | |q.from.asked| <= i < |now.asked|
      ensures HadAnswer(p, now.asked, i)
    {
      assert InOrder(p, q, now.asked, i);
      if now.asked[i].req.FileContainingSymbol? {
        SymbolIsListed(now.asked, |q.from.asked|, i);
      }
      assert HasTarget(p.u, now.asked[i].req);
    }
  }

  lemma {:induction false} SymbolIsListed(asked: seq<Asked>, k: nat, i: nat)
    requires k <= i < |asked| && asked[i].req.FileContainingSymbol?
    ensures asked[i].req.symbol in SymbolsFrom(asked, k)
    decreases |asked|
  {
    if i < |asked| - 1 {
      SymbolIsListed(asked[..|asked| - 1], k, i);
    }
  }

  class Connection {
    const answers: Answers
    var exchanges: nat
    ghost var slept: nat         // nanoseconds
    ghost var asked: seq<Asked>  // the requests made, in order

    constructor (answers: Answers)
      ensures this.answers == answers && exchanges == 0 && slept == 0 && asked == []
    {
      this.answers := answers;
      exchanges, slept, asked := 0, 0, [];
    }

    ghost function Now(): Talk
      reads `asked, `exchanges
    {
      Talk(asked, exchanges)
    }

    method SendReflectionRequest(req: Request) returns (r: Result<Reply, string>)
      modifies `exchanges
      ensures exchanges == old(exchanges) + 1
      ensures r == Attempt(answers, old(exchanges), req)
    {
      var reply := answers(exchanges, req);
      exchanges := exchanges + 1;
      r := reply;
      match reply {
        case Success(ErrorReply(message)) => r := Failure(message);
        case _ =>
      }
    }

    /** The first successful attempt wins; after `k` failures the caller has slept through `k` back-offs. */
    method SendReflectionRequestWithRetry(req: Request, maxRetries: nat) returns (r: Result<Reply, string>)
      modifies `exchanges, `slept
      ensures FirstReply(answers, old(exchanges), req, maxRetries) == if r.Success? then Some(r.value) else None
      ensures Took(answers, req, maxRetries, old(exchanges), exchanges)
      ensures r.Success? ==> old(exchanges) < exchanges && r == answers(exchanges - 1, req)
      ensures r.Failure? ==> exchanges == old(exchanges) + maxRetries
      ensures var failed := exchanges - old(exchanges) - (if r.Success? then 1 else 0);
              slept == old(slept) + Rpc.TotalBackoff(failed)
    {
      ghost var start := exchanges;
      var attempt := 1;
      while attempt <= maxRetries
        invariant 1 <= attempt <= maxRetries + 1
        invariant exchanges == old(exchanges) + attempt - 1
        invariant slept == old(slept) + Rpc.TotalBackoff(attempt - 1)
        invariant forall t :: old(exchanges) <= t < exchanges ==> Fails(answers, t, req)
      {
        var reply := SendReflectionRequest(req);
        if reply.Success? {
          FirstReplyAt(answers, start, req, maxRetries, attempt - 1);
          return reply;
        }
        slept := slept + Rpc.BackoffNanos(attempt);
        attempt := attempt + 1;
      }
      NoReply(answers, start, req, maxRetries);
      return Failure("failed to send reflection request");
    }

    method ListServiceNames(maxRetries: nat) returns (r: Result<seq<string>, string>)
      modifies `exchanges, `slept, `asked
      ensures asked == old(asked) + [Asked(ListServices, {}, old(exchanges), exchanges)]
      ensures Took(answers, ListServices, maxRetries, old(exchanges), exchanges)
      ensures r.Success? <==> Usable(answers, old(exchanges), ListServices, maxRetries)
      ensures r.Success? ==>
                FirstReply(answers, old(exchanges), ListServices, maxRetries) == Some(Services(r.value))
      ensures r.Success? ==>
                old(exchanges) < exchanges && answers(exchanges - 1, ListServices) == Success(Services(r.value))
    {
      var reply := SendReflectionRequestWithRetry(ListServices, maxRetries);
      asked := asked + [Asked(ListServices, {}, old(exchanges), exchanges)];
      match reply {
        case Success(Services(names)) =>
          return Success(names);
        case _ =>
          return Failure("failed to list services via reflection");
      }
    }

    /** Decoded descriptors are new objects; `batch` are their contents. `known` is what the caller has so far. */
    method FetchFileDescriptors(req: Request, maxRetries: nat, ghost u: Universe, ghost known: set<string>)
      returns (r: Result<seq<FileProto>, string>, ghost root: string, ghost batch: seq<FileContents>)
      requires WellBehaved(u, answers) && !req.ListServices?
      modifies `exchanges, `slept, `asked
      ensures asked == old(asked) + [Asked(req, known, old(exchanges), exchanges)]
      ensures Took(answers, req, maxRetries, old(exchanges), exchanges)
      ensures r.Success? <==> Usable(answers, old(exchanges), req, maxRetries)
      ensures r.Success? ==> Wants(u, req, root) && Contains(batch, root) && Genuine(u, root, batch)
      ensures r.Success? ==> |r.value| == |batch|
      ensures r.Success? ==> forall i :: 0 <= i < |batch| ==> fresh(r.value[i]) && r.value[i].Contents() == batch[i]
    {
      root, batch := "", [];
      var reply := SendReflectionRequestWithRetry(req, maxRetries);
      asked := asked + [Asked(req, known, old(exchanges), exchanges)];
      match reply {
        case Success(Descriptors(encoded)) =>
          var protos;
          protos, batch := Decode(encoded);
          if protos.None? {
            return Failure("failed to unmarshal file descriptor"), root, batch;
          }
          assert answers(exchanges - 1, req) == Success(Descriptors(encoded)) && Decodes(encoded, batch);
          root :| Wants(u, req, root) && Contains(batch, root) && Genuine(u, root, batch);
          return Success(protos.value), root, batch;
        case _ =>
          return Failure("no file descriptors received"), root, batch;
      }
    }
  }

  /** The loop that unmarshals an answer; it stops at the first descriptor that cannot be. */
  method Decode(encoded: seq<Encoded>) returns (r: Option<seq<FileProto>>, ghost batch: seq<FileContents>)
    ensures r.Some? <==> AllDecodable(encoded)
    ensures r.Some? ==> Decodes(encoded, batch) && |r.value| == |batch|
    ensures r.Some? ==> forall i :: 0 <= i < |batch| ==> fresh(r.value[i]) && r.value[i].Contents() == batch[i]
  {
    batch := [];
    var protos: seq<FileProto> := [];
    for i := 0 to |encoded|
      invariant |protos| == |batch| == i
      invariant forall k :: 0 <= k < i ==> encoded[k] == Decodable(batch[k])
      invariant forall k :: 0 <= k < i ==> fresh(protos[k]) && protos[k].Contents() == batch[k]
    {
      match encoded[i] {
        case Corrupt =>
          return None, batch;
        case Decodable(contents) =>
          var proto := new FileProto(contents);
          protos := protos + [proto];
          batch := batch + [contents];
      }
    }
    return Some(protos), batch;
  }
}
