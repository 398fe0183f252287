/**
 The lazily growing resolver, run by one goroutine. The lock is a ghost state of the mutex:
 taking it twice, or releasing it when it is not held, would violate a precondition.
 */
module Resolver {
  import opened Graphs
  import opened Descriptors
  import opened Registry
  import opened Reflection
  import opened Wrappers

  class RWMutex {
    ghost var writing: bool
    ghost var readers: nat

    constructor ()
      ensures Free()
    {
      writing, readers := false, 0;
    }

    ghost predicate Free()
      reads this
    {
      !writing && readers == 0
    }

    ghost predicate Held()
      reads this
    {
      writing && readers == 0
    }

    method Lock()
      requires Free()
      modifies this
      ensures Held()
    {
      writing := true;
    }

    method Unlock()
      requires Held()
      modifies this
      ensures Free()
    {
      writing := false;
    }

    method RLock()
      requires !writing
      modifies this
      ensures !writing && readers == old(readers) + 1
    {
      readers := readers + 1;
    }

    method RUnlock()
      requires !writing && readers > 0
      modifies this
      ensures !writing && readers == old(readers) - 1
    {
      readers := readers - 1;
    }
  }

  /** Every registered file is the universe's, up to the patch applied at start-up. */
  ghost predicate Authentic(u: Universe, files: seq<FileContents>) {
    forall f :: f in files ==>
      f.name in u.files && f.dependency == u.files[f.name].dependency && f.symbols == u.files[f.name].symbols
  }

  ghost predicate Declares(files: seq<FileContents>, symbol: string) {
    exists f :: f in files && symbol in f.symbols
  }

  /** A symbol is declared by the file that owns it and by no other. */
  ghost predicate OwnersAgree(u: Universe) {
    forall n, s :: n in u.files ==> (s in u.files[n].symbols <==> s in u.owner && u.owner[s] == n)
  }

  /** An authentic import-closed registry is closed in the universe's graph. */
  lemma RegistryIsClosed(u: Universe, files: seq<FileContents>)
    requires ImportClosed(files) && Authentic(u, files)
    ensures Closed(UniverseGraph(u), Paths(files))
  {
  }

  /** Nothing below a registered file is on an import cycle. */
  lemma RegisteredMeansNoCycle(u: Universe, files: seq<FileContents>, n: string)
    requires ImportClosed(files) && Authentic(u, files) && n in Paths(files)
    ensures ReachesNoCycle(UniverseGraph(u), n)
  {
    RegistryIsClosed(u, files);
    ImportClosedMeaning(files);
    CutKeepsCycles(UniverseGraph(u), RegisteredGraph(files));
    forall m
      ensures !CycleAt(UniverseGraph(u), n, m)
    {
      if CycleAt(UniverseGraph(u), n, m) {
        ClosedContainsReachable(UniverseGraph(u), Paths(files), n);
        assert false;
      }
    }
  }

  lemma DeclaresIffOwnerRegistered(u: Universe, files: seq<FileContents>, symbol: string)
    requires Authentic(u, files) && OwnersAgree(u)
    ensures Declares(files, symbol) <==> symbol in u.owner && u.owner[symbol] in Paths(files)
  {
  }

  datatype LookupResult = Message(symbol: string) | FetchFailed | NotFoundAfterFetch | NotAMessage

  class CustomResolver {
    const files: Files
    const conn: Connection
    const mu: RWMutex
    const maxRetries: nat
    const isMessage: string -> bool
    ghost const u: Universe
    var seenSymbols: map<string, bool>

    constructor (files: Files, conn: Connection, maxRetries: nat, isMessage: string -> bool, ghost u: Universe)
      ensures this.files == files && this.conn == conn && this.maxRetries == maxRetries && this.u == u
      ensures this.isMessage == isMessage && seenSymbols == map[] && fresh(mu) && mu.Free()
    {
      this.files, this.conn, this.maxRetries, this.isMessage, this.u := files, conn, maxRetries, isMessage, u;
      seenSymbols := map[];
      mu := new RWMutex();
    }

    ghost predicate RefusedForSymbol(symbol: string)
      reads files
    {
      symbol in u.owner && RefusedAmong(Reach(u.owner[symbol]))
    }

    /** It objects to one that is ready to be registered now. */
    ghost predicate RefusedAmong(names: set<string>)
      reads files
    {
      exists n :: n in names && IsRefused(n)
    }

    ghost predicate IsRefused(n: string)
      reads files
    {
      && n in u.files && n !in Registered() && !files.accepts(files.registered, u.files[n])
      && forall d :: d in u.files[n].dependency ==> d in Registered()
    }

    /** An error is due to a request without a usable answer, or to a refusal. */
    ghost predicate Excused(err: Option<string>, answered: bool, names: set<string>)
      reads files
    {
      match err
      case None => answered
      case Some(_) => !answered || RefusedAmong(names)
    }

    ghost function P(): Peer {
      Peer(u, conn.answers, maxRetries)
    }

    /** Whatever exists can be had, within the retries. */
    ghost predicate Answered() {
      Responsive(u, conn.answers, maxRetries)
    }

    /** What `root` needs besides itself. */
    ghost function Under(root: string): iset<string> {
      iset n | Reaches(UniverseGraph(u), root, n) && n != root
    }

    ghost function UnderSymbol(symbol: string): iset<string> {
      iset n | symbol in u.owner && n in Under(u.owner[symbol])
    }

    /** The inquiry `q` has gone well so far, and began with no more than is registered. */
    ghost predicate CanAsk(q: Quest)
      reads files, conn
    {
      q.base <= Registered() && Inquiry(P(), q, conn.Now(), true)
    }

    /**
     No import cycle is within reach. On a cycle the recursion would never end, and no file that
     reaches one can ever be registered.
     */
    ghost predicate Suitable(root: string) {
      WellBehaved(u, conn.answers) && ReachesNoCycle(UniverseGraph(u), root)
    }

    ghost predicate SuitableSymbol(symbol: string) {
      WellBehaved(u, conn.answers) && (symbol in u.owner ==> ReachesNoCycle(UniverseGraph(u), u.owner[symbol]))
    }

    ghost predicate Valid()
      reads files
    {
      ImportClosed(files.registered) && Authentic(u, files.registered)
    }

    ghost function Registered(): set<string>
      reads files
    {
      Paths(files.registered)
    }

    ghost function Reach(name: string): set<string> {
      ReachSet(UniverseGraph(u), name)
    }

    /** The registry only grew, by files within `bound`. */
    twostate predicate GrewWithin(bound: set<string>)
      reads files
    {
      && old(files.registered) <= files.registered
      && old(Registered()) <= Registered() <= old(Registered()) + bound
    }

    predicate IsSeen(symbol: string)
      reads this
    {
      symbol in seenSymbols && seenSymbols[symbol]
    }

    /**
     Fails only for a request without a usable answer or a refusal of the library; on success the
     registry gained exactly what `name` needs. By name it asks for `name` and for unregistered files.
     */
    method FetchDescriptorByName(name: string, ghost q: Quest) returns (err: Option<string>, ghost answered: bool)
      requires Suitable(name) && Valid() && mu.Free()
      requires CanAsk(q) && Under(name) <= q.bound && name in q.bound
      modifies files`registered, conn, mu
      ensures Valid() && mu.Free()
      ensures GrewWithin(Reach(name))
      ensures err.None? ==> Registered() == old(Registered()) + Reach(name) && name in Registered()
      ensures old(conn.asked) <= conn.asked && (answered <==> AllUsable(P(), conn.asked, |q.from.asked|))
      ensures name !in old(Registered()) ==> Inquiry(P(), q, conn.Now(), answered)
      ensures Excused(err, answered, Reach(name))
      decreases Reach(name), 4
    {
      ghost var a, known, k := conn.Now(), Registered(), |q.from.asked|;
      var protos, root, batch := conn.FetchFileDescriptors(FileByFilename(name), maxRetries, u, known);
      ghost var b := conn.Now();
      ghost var rest := Quest(q.bound, known, [], b);
      AllUsableSplits(P(), b.asked, k, |a.asked|);
      assert b.asked[..|a.asked|] == a.asked && (HadAnswer(P(), b.asked, |a.asked|) <==> protos.Success?);
      if name !in known {
        InquiryByName(P(), q, a, b.asked[|a.asked|], b);
        rest := q;
      } else {
        NothingInquired(P(), q.bound, known, b);
      }
      if protos.Failure? {
        return Some(protos.error), false;
      }
      err, answered := ProcessFileDescriptors(protos.value, batch, name, rest);
      AllUsableSplits(P(), conn.asked, k, |b.asked|);
      assert conn.asked[..|b.asked|] == b.asked;
      if err.None? {
        RegistryIsClosed(u, files.registered);
        ClosedContainsReachable(UniverseGraph(u), Registered(), name);
      }
    }

    method ProcessFileDescriptors(fdProtos: seq<FileProto>, ghost batch: seq<FileContents>, ghost root: string,
      ghost q: Quest)
      returns (err: Option<string>, ghost answered: bool)
      requires Suitable(root) && Valid() && mu.Free() && Genuine(u, root, batch)
      requires |fdProtos| == |batch| && forall i :: 0 <= i < |batch| ==> fdProtos[i].Contents() == batch[i]
      requires CanAsk(q) && Under(root) <= q.bound
      modifies files`registered, conn, mu
      ensures Valid() && mu.Free()
      ensures GrewWithin(Reach(root))
      ensures err.None? ==> forall i :: 0 <= i < |batch| ==> batch[i].name in Registered()
      ensures old(conn.asked) <= conn.asked && Inquiry(P(), q, conn.Now(), answered)
      ensures Excused(err, answered, Reach(root))
      decreases Reach(root), 3
    {
      mu.Lock();
      err, answered := None, true;
      var i := 0;
      while i < |fdProtos| && err.None?
        invariant 0 <= i <= |fdProtos|
        invariant Valid() && mu.Held() && GrewWithin(Reach(root)) && old(conn.asked) <= conn.asked
        invariant err.None? ==> forall k :: 0 <= k < i ==> batch[k].name in Registered()
        invariant Inquiry(P(), q, conn.Now(), answered)
        invariant Excused(err, answered, Reach(root))
      {
        err, answered := ProcessFile(fdProtos[i], root, q);
        i := i + 1;
      }
      mu.Unlock();
    }

    /** The loop body of `ProcessFileDescriptors`: a file is registered after its imports. */
    method ProcessFile(fdProto: FileProto, ghost root: string, ghost q: Quest)
      returns (err: Option<string>, ghost answered: bool)
      requires Suitable(root) && Valid() && mu.Held()
      requires fdProto.name in u.files && fdProto.Contents() == u.files[fdProto.name]
      requires Reaches(UniverseGraph(u), root, fdProto.name)
      requires CanAsk(q) && Under(root) <= q.bound
      modifies files`registered, conn, mu
      ensures Valid() && mu.Held()
      ensures GrewWithin(Reach(root))
      ensures err.None? ==> fdProto.name in Registered()
      ensures old(conn.asked) <= conn.asked && Inquiry(P(), q, conn.Now(), answered)
      ensures Excused(err, answered, Reach(root))
      decreases Reach(root), 2
    {
      var found := files.FindFileByPath(fdProto.name);
      if found {
        return None, true;
      }
      ReachNests(root, fdProto.name);
      err, answered := FetchDependencies(fdProto.dependency, fdProto.name, q);
      if err.None? {
        ReachesSelf(UniverseGraph(u), fdProto.name);
        err := RegisterFileDescriptor(fdProto);
        assert err.Some? ==> IsRefused(fdProto.name);
      }
    }

    /** Entered and left holding the lock, which is free during each fetch; registered imports are not asked for. */
    method FetchDependencies(dependencies: seq<string>, ghost importer: string, ghost q: Quest)
      returns (err: Option<string>, ghost answered: bool)
      requires Suitable(importer) && Valid() && mu.Held()
      requires importer in u.files && u.files[importer].dependency == dependencies
      requires CanAsk(q) && Under(importer) <= q.bound
      modifies files`registered, conn, mu
      ensures Valid() && mu.Held()
      ensures GrewWithin(Reach(importer) - {importer})
      ensures err.None? ==> forall d :: d in dependencies ==> d in Registered()
      ensures (forall d :: d in dependencies ==> d in old(Registered())) ==>
                err.None? && conn.Now() == old(conn.Now()) && files.registered == old(files.registered)
      ensures old(conn.asked) <= conn.asked && Inquiry(P(), q, conn.Now(), answered)
      ensures Excused(err, answered, Reach(importer))
      decreases Reach(importer), 1
    {
      answered := true;
      for i := 0 to |dependencies|
        invariant Valid() && mu.Held() && old(conn.asked) <= conn.asked
        invariant GrewWithin(Reach(importer) - {importer})
        invariant forall k :: 0 <= k < i ==> dependencies[k] in Registered()
        invariant (forall d :: d in dependencies ==> d in old(Registered())) ==>
                    conn.Now() == old(conn.Now()) && files.registered == old(files.registered)
        invariant Inquiry(P(), q, conn.Now(), true)
      {
        var dep := dependencies[i];
        var found := files.FindFileByPath(dep);
        if !found {
          err, answered := FetchUnlocked(dep, importer, q);
          if err.Some? {
            return err, answered;
          }
        }
      }
      return None, true;
    }

    /** The window: the lock is free while an import that is not registered is fetched. */
    method FetchUnlocked(dep: string, ghost importer: string, ghost q: Quest)
      returns (err: Option<string>, ghost answered: bool)
      requires Suitable(importer) && Valid() && mu.Held()
      requires importer in u.files && dep in u.files[importer].dependency && dep !in Registered()
      requires CanAsk(q) && Under(importer) <= q.bound
      modifies files`registered, conn, mu
      ensures Valid() && mu.Held()
      ensures GrewWithin(Reach(importer) - {importer})
      ensures err.None? ==> dep in Registered()
      ensures old(conn.asked) <= conn.asked && Inquiry(P(), q, conn.Now(), answered)
      ensures Excused(err, answered, Reach(importer))
      decreases Reach(importer), 0
    {
      ImportReachesLess(importer, dep);
      mu.Unlock();
      err, answered := FetchDescriptorByName(dep, q);
      mu.Lock();
    }

    method RegisterFileDescriptor(fdProto: FileProto) returns (err: Option<string>)
      requires WellBehaved(u, conn.answers) && Valid() && mu.Held()
      requires fdProto.name in u.files && fdProto.Contents() == u.files[fdProto.name]
      requires forall d :: d in fdProto.dependency ==> d in Registered()
      modifies files`registered
      ensures Valid()
      ensures err.None? <==>
                fdProto.name !in old(Registered()) && files.accepts(old(files.registered), fdProto.Contents())
      ensures err.None? ==> files.registered == old(files.registered) + [fdProto.Contents()]
      ensures err.None? ==> Registered() == old(Registered()) + {fdProto.name}
      ensures err.Some? ==> files.registered == old(files.registered)
    {
      var fd := files.NewFile(fdProto);
      if fd.Failure? {
        return Some("failed to create file descriptor");
      }
      var e := files.RegisterFile(fd.value);
      if e.Some? {
        return Some("failed to register file");
      }
      return None;
    }

    lemma ReachNests(root: string, name: string)
      requires Suitable(root) && Reaches(UniverseGraph(u), root, name)
      ensures Suitable(name) && Reach(name) <= Reach(root) && Under(name) <= Under(root)
    {
      NoCycleBelow(UniverseGraph(u), root, name);
      UnderNests(root, name);
      forall n | n in Reach(name)
        ensures n in Reach(root)
      {
        ReachesTransitive(UniverseGraph(u), root, name, n);
      }
    }

    /** What a file needs never includes a file that needs it. */
    lemma UnderNests(root: string, name: string)
      requires Suitable(root) && Reaches(UniverseGraph(u), root, name)
      ensures Under(name) <= Under(root)
    {
      forall n | n in Under(name)
        ensures n in Under(root)
      {
        ReachesTransitive(UniverseGraph(u), root, name, n);
        NoCycleBelow(UniverseGraph(u), root, name);
        if n == root {
          ReachingBackIsCycle(UniverseGraph(u), name, root);
          assert false;
        }
      }
    }

    lemma ImportReachesLess(importer: string, dep: string)
      requires Suitable(importer) && importer in u.files && dep in u.files[importer].dependency
      ensures Suitable(dep) && Reach(dep) < Reach(importer) && importer !in Reach(dep)
      ensures Under(dep) <= Under(importer) && dep in Under(importer)
    {
      ReachesSelf(UniverseGraph(u), importer);
      NoCycleBelow(UniverseGraph(u), importer, importer);
      ReachesSelf(UniverseGraph(u), dep);
      EdgeThenReaches(UniverseGraph(u), importer, dep, dep);
      NoCycleBelow(UniverseGraph(u), importer, dep);
      ReachSetShrinks(UniverseGraph(u), importer, dep);
      if importer in Reach(dep) {
        ReturningEdgeIsCycle(UniverseGraph(u), importer, dep);
        assert false;
      }
      UnderNests(importer, dep);
    }

    /** The inquiry that a lookup of `symbol` amounts to. */
    twostate function Lookup(symbol: string, asks: bool): Quest
      reads files, conn
    {
      Quest(UnderSymbol(symbol), old(Registered()), if asks then [symbol] else [], old(conn.Now()))
    }

    /** A symbol is requested at most once, and is marked before its request can fail. */
    method FetchDescriptorBySymbol(symbol: string) returns (err: Option<string>, ghost answered: bool)
      requires SuitableSymbol(symbol) && Valid() && mu.Free()
      modifies `seenSymbols, files`registered, conn, mu
      ensures Valid() && mu.Free()
      ensures seenSymbols == old(seenSymbols)[symbol := true]
      ensures old(IsSeen(symbol)) ==> err.None? && files.registered == old(files.registered)
      ensures old(IsSeen(symbol)) ==> conn.Now() == old(conn.Now())
      ensures Inquiry(P(), Lookup(symbol, !old(IsSeen(symbol))), conn.Now(), answered)
      ensures if err.None? then answered else !answered || RefusedForSymbol(symbol)
      ensures !old(IsSeen(symbol)) && err.None? ==>
                && symbol in u.owner && u.owner[symbol] in Registered()
                && Registered() == old(Registered()) + Reach(u.owner[symbol])
      ensures old(files.registered) <= files.registered
    {
      mu.RLock();
      var seen := IsSeen(symbol);
      mu.RUnlock();
      ghost var a, known, bound := conn.Now(), Registered(), UnderSymbol(symbol);
      NothingInquired(P(), bound, known, a);
      if seen {
        assert seenSymbols == seenSymbols[symbol := true];
        return None, true;
      }
      mu.Lock();
      seenSymbols := seenSymbols[symbol := true];
      mu.Unlock();
      var protos, root, batch := conn.FetchFileDescriptors(FileContainingSymbol(symbol), maxRetries, u, known);
      ghost var q := Quest(bound, known, [symbol], a);
      InquiryGoesOn(P(), Quest(bound, known, [], a), a, conn.asked[|a.asked|], conn.Now());
      assert [] + [symbol] == [symbol];
      if protos.Failure? {
        return Some(protos.error), false;
      }
      assert Under(root) <= bound;
      err, answered := ProcessFileDescriptors(protos.value, batch, root, q);
      if err.None? {
        RegistryIsClosed(u, files.registered);
        ClosedContainsReachable(UniverseGraph(u), Registered(), root);
      }
    }

    method FindDescriptorByName(symbol: string) returns (found: bool)
      requires mu.Free()
      modifies mu
      ensures mu.Free()
      ensures found <==> Declares(files.registered, symbol)
    {
      mu.RLock();
      found := false;
      for i := 0 to |files.registered|
        invariant !mu.writing && mu.readers == 1
        invariant found <==> exists k :: 0 <= k < i && symbol in files.registered[k].symbols
      {
        if symbol in files.registered[i].symbols {
          found := true;
        }
      }
      mu.RUnlock();
    }

    /**
     Succeeds for every message the server knows unless a request has no usable answer or the library
     refuses a file that is needed. It asks for the symbol, unless it is found or marked, and by name
     for what its file needs and is not registered at the time. Once a fetch for a symbol has failed,
     the symbol stays unresolvable, without another request, until its file is registered for some
     other reason.
     */
    method FindMessageByName(name: string) returns (r: LookupResult, ghost answered: bool)
      requires SuitableSymbol(name) && Valid() && OwnersAgree(u) && mu.Free()
      modifies `seenSymbols, files`registered, conn, mu
      ensures Valid() && mu.Free() && old(files.registered) <= files.registered
      ensures var asks := !old(Declares(files.registered, name)) && !old(IsSeen(name));
              Inquiry(P(), Lookup(name, asks), conn.Now(), answered)
      ensures if r.FetchFailed? then !answered || RefusedForSymbol(name) else answered
      ensures Answered() && name in u.owner ==> answered
      ensures Usable(conn.answers, old(conn.exchanges), FileContainingSymbol(name), maxRetries) ==>
                (forall n :: n in UnderSymbol(name) ==> n in old(Registered())) ==> answered
      ensures !r.FetchFailed? && name in u.owner && !old(IsSeen(name)) ==> Declares(files.registered, name)
      ensures !r.FetchFailed? ==> (r.Message? <==> Declares(files.registered, name) && isMessage(name))
      ensures !r.FetchFailed? ==> (r.NotAMessage? <==> Declares(files.registered, name) && !isMessage(name))
      ensures r.Message? ==> r.symbol == name
      ensures r.FetchFailed? ==> IsSeen(name) && !old(IsSeen(name))
      ensures r.NotFoundAfterFetch? <==> !old(Declares(files.registered, name)) && old(IsSeen(name))
      ensures old(Declares(files.registered, name)) || old(IsSeen(name)) ==>
                conn.Now() == old(conn.Now()) && files.registered == old(files.registered)
    {
      DeclaresIffOwnerRegistered(u, files.registered, name);
      ghost var a, known := conn.Now(), Registered();
      NothingInquired(P(), UnderSymbol(name), known, a);
      var found := FindDescriptorByName(name);
      if found {
        return if isMessage(name) then Message(name) else NotAMessage, true;
      }
      var err;
      err, answered := FetchDescriptorBySymbol(name);
      ghost var symbols := if old(IsSeen(name)) then [] else [name];
      LookupAnswers(name, Quest(UnderSymbol(name), known, symbols, a), conn.Now(), answered);
      if err.Some? {
        return FetchFailed, answered;
      }
      DeclaresIffOwnerRegistered(u, files.registered, name);
      found := FindDescriptorByName(name);
      if !found {
        return NotFoundAfterFetch, true;
      }
      return if isMessage(name) then Message(name) else NotAMessage, true;
    }

    /** When the requests of a lookup are certain to have usable answers. */
    lemma LookupAnswers(symbol: string, q: Quest, now: Talk, ok: bool)
      requires Inquiry(P(), q, now, ok) && q.bound == UnderSymbol(symbol) && (q.symbols == [] || q.symbols == [symbol])
      ensures Answered() && symbol in u.owner ==> ok
      ensures Usable(conn.answers, q.from.exchanges, FileContainingSymbol(symbol), maxRetries) ==>
                (forall n :: n in q.bound ==> n in q.base) ==> ok
    {
      if Answered() && symbol in u.owner {
        forall n | n in q.bound
          ensures n in u.files
        {
          ClosedContainsReachable(UniverseGraph(u), u.files.Keys, u.owner[symbol]);
        }
        ResponsiveMeansUsable(P(), q, now, ok);
      }
      if forall n :: n in q.bound ==> n in q.base {
        KnownIsNotAsked(P(), q, now, ok);
      }
    }
  }
}
