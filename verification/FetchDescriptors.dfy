/** Collecting every descriptor the server's services depend on. */
module FetchDescriptors {
  import opened Graphs
  import opened Descriptors
  import opened Reflection
  import opened Wrappers

  /** The files whose fetch the services call for, and all they import. */
  ghost function ReachableFromServices(u: Universe, services: seq<string>): set<string> {
    set n | n in u.files && exists i ::
      0 <= i < |services| && services[i] in u.owner && Reaches(UniverseGraph(u), u.owner[services[i]], n)
  }

  /**
   What is fetched, service by service. A service whose name is already a key among the fetched
   files is skipped: services and files share one lookup.
   */
  ghost function Fetched(u: Universe, services: seq<string>): set<string> {
    if services == [] then {}
    else
      var done := Fetched(u, services[..|services| - 1]);
      var service := services[|services| - 1];
      if service in done || service !in u.owner then done
      else done + ReachSet(UniverseGraph(u), u.owner[service])
  }

  /** The files a symbol calls for, known to the server or not. */
  ghost function BelowSymbol(u: Universe, symbol: string): iset<string> {
    iset n | symbol in u.owner && Reaches(UniverseGraph(u), u.owner[symbol], n)
  }

  ghost function BelowAll(u: Universe, services: seq<string>): iset<string> {
    iset n, i | 0 <= i < |services| && n in BelowSymbol(u, services[i]) :: n
  }

  /** The services that are asked for: all but those named like a file that is there already. */
  ghost function Called(u: Universe, services: seq<string>): seq<string> {
    if services == [] then []
    else
      var earlier := services[..|services| - 1];
      var service := services[|services| - 1];
      Called(u, earlier) + (if service in Fetched(u, earlier) then [] else [service])
  }

  /** The inquiry that the first `tried` services amount to. */
  ghost function ForServices(u: Universe, services: seq<string>, tried: nat, from: Talk): Quest
    requires tried <= |services|
  {
    Quest(BelowAll(u, services), {}, Called(u, services[..tried]), from)
  }

  class Fetcher {
    const conn: Connection
    const maxRetries: nat
    ghost const u: Universe
    var seen: map<string, FileProto>

    constructor (conn: Connection, maxRetries: nat, ghost u: Universe)
      ensures this.conn == conn && this.maxRetries == maxRetries && this.u == u
      ensures seen == map[] && Valid({})
    {
      this.conn, this.maxRetries, this.u := conn, maxRetries, u;
      seen := map[];
    }

    /** Only files in `open`, those whose imports are still being fetched, may lack a fetched import. */
    ghost predicate Valid(open: set<string>)
      reads this, seen.Values
    {
      && (forall n :: n in seen ==> n in u.files && seen[n].name == n && seen[n].Contents() == u.files[n])
      && (forall n :: n in seen && n !in open ==> forall d :: d in u.files[n].dependency ==> d in seen)
    }

    ghost function P(): Peer {
      Peer(u, conn.answers, maxRetries)
    }

    ghost function Below(root: string): iset<string> {
      iset n | Reaches(UniverseGraph(u), root, n)
    }

    lemma BelowNests(root: string, name: string)
      requires Reaches(UniverseGraph(u), root, name)
      ensures Below(name) <= Below(root)
    {
      forall n | n in Below(name)
        ensures n in Below(root)
      {
        ReachesTransitive(UniverseGraph(u), root, name, n);
      }
    }

    /** The inquiry `q` has gone well so far, may go on to all below `root`, and began with no more than is seen. */
    ghost predicate CanAsk(q: Quest, root: string)
      reads this, conn
    {
      Below(root) <= q.bound && q.base <= seen.Keys && Inquiry(P(), q, conn.Now(), true)
    }

    /** `seen` only gained files that `root` reaches, each as a new object or one of `supplied`. */
    twostate predicate Grew(root: string, supplied: set<FileProto>)
      reads this
    {
      && old(seen.Keys) <= seen.Keys
      && forall n :: n in seen ==>
           if n in old(seen) then seen[n] == old(seen)[n]
           else Reaches(UniverseGraph(u), root, n) && (fresh(seen[n]) || seen[n] in supplied)
    }

    method FetchFileByName(name: string, ghost open: set<string>, ghost q: Quest) returns (err: Option<string>)
      requires WellBehaved(u, conn.answers) && Valid(open) && CanAsk(q, name)
      modifies `seen, conn
      ensures Grew(name, {}) && Inquiry(P(), q, conn.Now(), err.None?)
      ensures err.None? ==> Valid(open) && name in seen
      ensures name in old(seen) ==> err.None? && seen == old(seen) && conn.Now() == old(conn.Now())
      decreases u.files.Keys - seen.Keys, 2
    {
      ReachesSelf(UniverseGraph(u), name);
      if name in seen {
        return None;
      }
      ghost var a := conn.Now();
      var protos, root, batch := conn.FetchFileDescriptors(FileByFilename(name), maxRetries, u, seen.Keys);
      InquiryByName(P(), q, a, conn.asked[|a.asked|], conn.Now());
      if protos.Failure? {
        return Some(protos.error);
      }
      err := ProcessFileDescriptors(protos.value, batch, name, open, (set p | p in protos.value), q);
    }

    method FetchFileDescriptors(symbol: string, ghost q: Quest)
      returns (err: Option<string>, ghost root: string, ghost q': Quest)
      requires WellBehaved(u, conn.answers) && Valid({})
      requires BelowSymbol(u, symbol) <= q.bound && q.base <= seen.Keys && Inquiry(P(), q, conn.Now(), true)
      modifies `seen, conn
      ensures q' == q.(symbols := q.symbols + if symbol in old(seen) then [] else [symbol])
      ensures Inquiry(P(), q', conn.Now(), err.None?)
      ensures err.None? ==> Valid({})
      ensures symbol in old(seen) ==> err.None? && seen == old(seen) && conn.Now() == old(conn.Now())
      ensures err.None? && symbol !in old(seen) ==>
                symbol in u.owner && root == u.owner[symbol] && root in seen && Grew(root, {})
    {
      root, q' := "", q;
      if symbol in seen {
        assert q.symbols + [] == q.symbols;
        return None, root, q';
      }
      ghost var a := conn.Now();
      var protos, owner, batch := conn.FetchFileDescriptors(FileContainingSymbol(symbol), maxRetries, u, seen.Keys);
      InquiryGoesOn(P(), q, a, conn.asked[|a.asked|], conn.Now());
      root, q' := owner, q.(symbols := q.symbols + [symbol]);
      if protos.Failure? {
        return Some(protos.error), root, q';
      }
      assert BelowSymbol(u, symbol) == Below(root);
      err := ProcessFileDescriptors(protos.value, batch, root, {}, (set p | p in protos.value), q');
    }

    method ProcessFileDescriptors(fdProtos: seq<FileProto>, ghost batch: seq<FileContents>, ghost root: string,
      ghost open: set<string>, ghost supplied: set<FileProto>, ghost q: Quest)
      returns (err: Option<string>)
      requires WellBehaved(u, conn.answers) && Valid(open) && Genuine(u, root, batch) && CanAsk(q, root)
      requires |fdProtos| == |batch|
      requires forall i :: 0 <= i < |batch| ==> fdProtos[i].Contents() == batch[i] && fdProtos[i] in supplied
      modifies `seen, conn
      ensures Grew(root, supplied) && Inquiry(P(), q, conn.Now(), err.None?)
      ensures err.None? ==> Valid(open)
      ensures err.None? ==> forall i :: 0 <= i < |batch| ==> batch[i].name in seen
      decreases u.files.Keys - seen.Keys, 1
    {
      for i := 0 to |fdProtos|
        invariant Valid(open) && Grew(root, supplied) && CanAsk(q, root)
        invariant forall k :: 0 <= k < i ==> batch[k].name in seen
      {
        err := ProcessFile(fdProtos[i], root, open, q);
        if err.Some? {
          return err;
        }
      }
      return None;
    }

    /** The loop body of `ProcessFileDescriptors`: a file is marked before its imports are fetched. */
    method ProcessFile(fdProto: FileProto, ghost root: string, ghost open: set<string>, ghost q: Quest)
      returns (err: Option<string>)
      requires WellBehaved(u, conn.answers) && Valid(open) && CanAsk(q, root)
      requires fdProto.name in u.files && fdProto.Contents() == u.files[fdProto.name]
      requires Reaches(UniverseGraph(u), root, fdProto.name)
      modifies `seen, conn
      ensures Grew(root, {fdProto}) && Inquiry(P(), q, conn.Now(), err.None?)
      ensures err.None? ==> Valid(open) && fdProto.name in seen
      decreases u.files.Keys - seen.Keys, 0
    {
      var name := GetName(fdProto);
      if name in seen {
        return None;
      }
      seen := seen[name := fdProto];
      ReachesThroughImports(fdProto, root);
      assert u.files.Keys - seen.Keys < u.files.Keys - old(seen.Keys) by {
        assert name in u.files.Keys - old(seen.Keys);
      }
      err := FetchImports(fdProto, root, open + {name}, q);
    }

    lemma ReachesThroughImports(fdProto: FileProto, root: string)
      requires fdProto.name in u.files && u.files[fdProto.name].dependency == fdProto.dependency
      requires Reaches(UniverseGraph(u), root, fdProto.name)
      ensures forall d :: d in fdProto.dependency ==> Reaches(UniverseGraph(u), root, d)
    {
      forall d | d in fdProto.dependency
        ensures Reaches(UniverseGraph(u), root, d)
      {
        ReachesThenEdge(UniverseGraph(u), root, fdProto.name, d);
      }
    }

    method FetchImports(fdProto: FileProto, ghost root: string, ghost open: set<string>, ghost q: Quest)
      returns (err: Option<string>)
      requires WellBehaved(u, conn.answers) && Valid(open) && CanAsk(q, root)
      requires forall d :: d in fdProto.dependency ==> Reaches(UniverseGraph(u), root, d)
      modifies `seen, conn
      ensures Grew(root, {}) && Inquiry(P(), q, conn.Now(), err.None?)
      ensures err.None? ==> Valid(open)
      ensures err.None? ==> forall d :: d in fdProto.dependency ==> d in seen
      decreases u.files.Keys - seen.Keys, 4
    {
      for j := 0 to |fdProto.dependency|
        invariant Valid(open) && Grew(root, {}) && CanAsk(q, root)
        invariant forall k :: 0 <= k < j ==> fdProto.dependency[k] in seen
      {
        var dep := fdProto.dependency[j];
        if dep !in seen {
          err := FetchImport(dep, root, open, q);
          if err.Some? {
            return err;
          }
        }
      }
      return None;
    }

    /** One that has not been seen. */
    method FetchImport(dep: string, ghost root: string, ghost open: set<string>, ghost q: Quest)
      returns (err: Option<string>)
      requires WellBehaved(u, conn.answers) && Valid(open) && CanAsk(q, root)
      requires dep !in seen && Reaches(UniverseGraph(u), root, dep)
      modifies `seen, conn
      ensures Grew(root, {}) && Inquiry(P(), q, conn.Now(), err.None?)
      ensures err.None? ==> Valid(open) && dep in seen
      decreases u.files.Keys - seen.Keys, 3
    {
      ghost var known := seen.Keys;
      BelowNests(root, dep);
      err := FetchFileByName(dep, open, q);
      assert forall n :: n in seen && n !in known ==> n in Below(dep);
    }
  }

  /** Adding one root's reach to a closed set of fetched files. */
  lemma GrowthIsReach(u: Universe, before: set<string>, after: set<string>, root: string)
    requires before <= after && root in after && after <= u.files.Keys && Closed(UniverseGraph(u), after)
    requires forall n :: n in after && n !in before ==> Reaches(UniverseGraph(u), root, n)
    ensures after == before + ReachSet(UniverseGraph(u), root)
  {
    ClosedContainsReachable(UniverseGraph(u), after, root);
  }

  /**
   From `a` to `b` the services were asked for, and from then to `now` the first `tried` of them and
   what they need. It went well exactly if every request had a usable answer.
   */
  ghost predicate Opened(p: Peer, services: seq<string>, tried: nat, a: Talk, b: Talk, now: Talk, ok: bool) {
    && Listed(p, a, b) && tried <= |services| && (ok ==> tried == |services|)
    && match FirstReply(p.answers, a.exchanges, ListServices, p.retries)
       case Some(Services(names)) => services == names && Inquiry(p, ForServices(p.u, services, tried, b), now, ok)
       case _ => services == [] && !ok && now == b
  }

  /**
   Lists the services, then asks for each that is not skipped and, by name, for files they need that
   are not there yet. Fails exactly when one of these requests has no usable answer, so never with a
   responsive server. Otherwise returns each fetched file once, with the contents the server holds,
   and the fetched files are exactly `Fetched`, closed under imports.
   */
  method FetchAllDescriptors(conn: Connection, maxRetries: nat, ghost u: Universe)
    returns (r: Result<seq<FileProto>, string>, ghost services: seq<string>, ghost tried: nat, ghost b: Talk)
    requires WellBehaved(u, conn.answers)
    modifies conn
    ensures Responsive(u, conn.answers, maxRetries) ==> r.Success?
    ensures Opened(Peer(u, conn.answers, maxRetries), services, tried, old(conn.Now()), b, conn.Now(), r.Success?)
    ensures r.Success? ==> forall i, j :: 0 <= i < j < |r.value| ==> r.value[i].name != r.value[j].name
    ensures r.Success? ==> (set i | 0 <= i < |r.value| :: r.value[i].name) == Fetched(u, services)
    ensures r.Success? ==> Closed(UniverseGraph(u), Fetched(u, services))
    ensures r.Success? ==> forall i :: 0 <= i < |r.value| ==>
              fresh(r.value[i]) && r.value[i].name in u.files && r.value[i].Contents() == u.files[r.value[i].name]
  {
    services, tried := [], 0;
    ghost var p := Peer(u, conn.answers, maxRetries);
    var listed := conn.ListServiceNames(maxRetries);
    b := conn.Now();
    if listed.Failure? {
      return Failure(listed.error), services, tried, b;
    }
    services := listed.value;
    var fetcher := new Fetcher(conn, maxRetries, u);
    var err;
    err, tried := FetchServices(fetcher, listed.value);
    ServicesAnswer(p, services, tried, b, conn.Now(), err.None?);
    if err.Some? {
      return Failure(err.value), services, tried, b;
    }
    assert Closed(UniverseGraph(u), fetcher.seen.Keys);
    var result := CollectValues(fetcher.seen);
    r := Success(result);
  }

  /** The services are asked for in order, up to `tried`, which is all of them if all requests are answered. */
  method FetchServices(fetcher: Fetcher, services: seq<string>) returns (err: Option<string>, ghost tried: nat)
    requires WellBehaved(fetcher.u, fetcher.conn.answers) && fetcher.Valid({}) && fetcher.seen == map[]
    modifies fetcher`seen, fetcher.conn
    ensures tried <= |services| && (err.None? ==> tried == |services|)
    ensures Inquiry(fetcher.P(), ForServices(fetcher.u, services, tried, old(fetcher.conn.Now())), fetcher.conn.Now(),
                    err.None?)
    ensures err.None? ==> fetcher.Valid({}) && fetcher.seen.Keys == Fetched(fetcher.u, services)
    ensures err.None? ==> forall n :: n in fetcher.seen ==> fresh(fetcher.seen[n])
  {
    tried := 0;
    ghost var q := ForServices(fetcher.u, services, 0, fetcher.conn.Now());
    NothingInquired(fetcher.P(), q.bound, {}, q.from);
    for i := 0 to |services|
      invariant fetcher.Valid({}) && tried == i
      invariant q == ForServices(fetcher.u, services, i, old(fetcher.conn.Now()))
      invariant Inquiry(fetcher.P(), q, fetcher.conn.Now(), true)
      invariant fetcher.seen.Keys == Fetched(fetcher.u, services[..i])
      invariant forall n :: n in fetcher.seen ==> fresh(fetcher.seen[n])
    {
      ghost var before := fetcher.seen.Keys;
      assert services[..i + 1][..i] == services[..i];
      var e, root, longer := fetcher.FetchFileDescriptors(services[i], q);
      q := longer;
      tried := tried + 1;
      if e.Some? {
        return e, tried;
      }
      if services[i] !in before {
        assert Closed(UniverseGraph(fetcher.u), fetcher.seen.Keys);
        GrowthIsReach(fetcher.u, before, fetcher.seen.Keys, root);
      }
    }
    assert services[..|services|] == services;
    return None, tried;
  }

  /** With a responsive server, declared services and all they need can be had. */
  lemma ServicesAnswer(p: Peer, services: seq<string>, tried: nat, a: Talk, b: Talk, ok: bool)
    requires tried <= |services|
    requires Inquiry(p, ForServices(p.u, services, tried, a), b, ok)
    ensures Responsive(p.u, p.answers, p.retries) && (forall s :: s in services ==> s in p.u.owner) ==> ok
  {
    if Responsive(p.u, p.answers, p.retries) && forall s :: s in services ==> s in p.u.owner {
      forall n | n in BelowAll(p.u, services)
        ensures n in p.u.files
      {
        var i :| 0 <= i < |services| && n in BelowSymbol(p.u, services[i]);
        ClosedContainsReachable(UniverseGraph(p.u), p.u.files.Keys, p.u.owner[services[i]]);
      }
      CalledAreListed(p.u, services[..tried]);
      ResponsiveMeansUsable(p, ForServices(p.u, services, tried, a), b, ok);
    }
  }

  lemma {:induction false} CalledAreListed(u: Universe, services: seq<string>)
    ensures forall s :: s in Called(u, services) ==> s in services
    decreases |services|
  {
    if services != [] {
      CalledAreListed(u, services[..|services| - 1]);
    }
  }

  /** The values of the map, in whatever order its keys come. */
  method CollectValues(seen: map<string, FileProto>) returns (result: seq<FileProto>)
    requires forall n :: n in seen ==> seen[n].name == n
    ensures forall i, j :: 0 <= i < j < |result| ==> result[i].name != result[j].name
    ensures forall i :: 0 <= i < |result| ==> result[i].name in seen && result[i] == seen[result[i].name]
    ensures (set i | 0 <= i < |result| :: result[i].name) == seen.Keys
  {
    result := [];
    var pending := seen.Keys;
    while pending != {}
      invariant pending <= seen.Keys
      invariant forall i :: 0 <= i < |result| ==>
                result[i].name in seen && result[i].name !in pending && result[i] == seen[result[i].name]
      invariant forall i, j :: 0 <= i < j < |result| ==> result[i].name != result[j].name
      invariant forall n :: n in seen && n !in pending ==> exists i :: 0 <= i < |result| && result[i].name == n
      decreases |pending|
    {
      var n :| n in pending;
      ghost var shorter := result;
      result := result + [seen[n]];
      pending := pending - {n};
      forall m | m in seen && m !in pending
        ensures exists i :: 0 <= i < |result| && result[i].name == m
      {
        if m == n {
          assert result[|shorter|].name == m;
        } else {
          var i :| 0 <= i < |shorter| && shorter[i].name == m;
          assert result[i].name == m;
        }
      }
    }
  }

  /** A service is skipped that is named like a file fetched before it. */
  ghost predicate Skipped(u: Universe, services: seq<string>, i: nat)
    requires i < |services|
  {
    services[i] in Fetched(u, services[..i])
  }

  /** The owner of this service reaches `n`. */
  ghost predicate CallsFor(u: Universe, services: seq<string>, i: nat, n: string)
    requires i < |services|
  {
    services[i] in u.owner && Reaches(UniverseGraph(u), u.owner[services[i]], n)
  }

  /** A file is fetched exactly if some service that is not skipped calls for it. */
  lemma {:induction false} FetchedMeans(u: Universe, services: seq<string>, n: string)
    ensures n in Fetched(u, services) <==>
              n in u.files && exists i :: 0 <= i < |services| && CallsFor(u, services, i, n) && !Skipped(u, services, i)
    decreases |services|
  {
    if services != [] {
      var k := |services| - 1;
      var shorter := services[..k];
      FetchedMeans(u, shorter, n);
      forall i | 0 <= i < k
        ensures CallsFor(u, shorter, i, n) <==> CallsFor(u, services, i, n)
        ensures Skipped(u, shorter, i) <==> Skipped(u, services, i)
      {
        assert shorter[..i] == services[..i];
      }
      if n in Fetched(u, shorter) {
        var i :| 0 <= i < k && CallsFor(u, shorter, i, n) && !Skipped(u, shorter, i);
        assert CallsFor(u, services, i, n) && !Skipped(u, services, i);
      } else if n in Fetched(u, services) {
        assert CallsFor(u, services, k, n) && !Skipped(u, services, k);
      }
    }
  }

  /** No file is lost to this service: if it is skipped, its own file is fetched all the same. */
  ghost predicate NothingLost(u: Universe, services: seq<string>, i: nat)
    requires i < |services|
  {
    services[i] in u.owner && u.owner[services[i]] in u.files && Skipped(u, services, i) ==>
      u.owner[services[i]] in Fetched(u, services)
  }

  /** What is fetched is everything the services reach exactly if no skipped service's file is lost. */
  lemma FetchedIsReachableIff(u: Universe, services: seq<string>)
    ensures Fetched(u, services) == ReachableFromServices(u, services) <==>
              forall i :: 0 <= i < |services| ==> NothingLost(u, services, i)
  {
    var g := UniverseGraph(u);
    forall n | n in Fetched(u, services)
      ensures n in ReachableFromServices(u, services)
    {
      FetchedMeans(u, services, n);
      var i :| 0 <= i < |services| && CallsFor(u, services, i, n) && !Skipped(u, services, i);
    }
    if Fetched(u, services) == ReachableFromServices(u, services) {
      forall i | 0 <= i < |services| && services[i] in u.owner && u.owner[services[i]] in u.files
        ensures u.owner[services[i]] in Fetched(u, services)
      {
        ReachesSelf(g, u.owner[services[i]]);
      }
    }
    if forall i :: 0 <= i < |services| ==> NothingLost(u, services, i) {
      forall n | n in ReachableFromServices(u, services)
        ensures n in Fetched(u, services)
      {
        var i :| 0 <= i < |services| && services[i] in u.owner && Reaches(g, u.owner[services[i]], n);
        ReachedIsFetched(u, services, i, n);
      }
    }
  }

  lemma ReachedIsFetched(u: Universe, services: seq<string>, i: nat, n: string)
    requires i < |services| && n in u.files && CallsFor(u, services, i, n) && NothingLost(u, services, i)
    ensures n in Fetched(u, services)
  {
    var g := UniverseGraph(u);
    var owner := u.owner[services[i]];
    FetchedMeans(u, services, n);
    if Skipped(u, services, i) {
      var p :| Joins(g, p, owner, n);
      assert |p| > 1 ==> Edge(g, p[0], p[1]);
      assert owner in u.files;
      FetchedMeans(u, services, owner);
      var j :| 0 <= j < |services| && CallsFor(u, services, j, owner) && !Skipped(u, services, j);
      ReachesTransitive(g, u.owner[services[j]], owner, n);
      assert CallsFor(u, services, j, n);
    }
  }

  /** In particular when no service is named like a file. */
  lemma FetchedIsReachable(u: Universe, services: seq<string>)
    requires forall i :: 0 <= i < |services| ==> services[i] !in u.files
    ensures Fetched(u, services) == ReachableFromServices(u, services)
  {
    forall i | 0 <= i < |services|
      ensures !Skipped(u, services, i)
    {
      FetchedMeans(u, services[..i], services[i]);
    }
    FetchedIsReachableIff(u, services);
  }

  /** A service named like a file fetched before it is skipped, and its own file is lost. */
  lemma ServiceNamedLikeFileIsSkipped()
    ensures exists u: Universe, services ::
              && (forall i :: 0 <= i < |services| ==> services[i] in u.owner && u.owner[services[i]] in u.files)
              && Fetched(u, services) != ReachableFromServices(u, services)
  {
    var a := FileContents("a", [], [], ["S"]);
    var b := FileContents("b", [], [], ["a"]);
    var u := Universe(map["a" := a, "b" := b], map["S" := "a", "a" := "b"]);
    var services := ["S", "a"];
    var g := UniverseGraph(u);
    ReachesSelf(g, "a");
    ReachesSelf(g, "b");
    assert Closed(g, {"a"});
    ClosedContainsReachable(g, {"a"}, "a");
    assert services[..1] == ["S"] && services[..1][..0] == [];
    assert Fetched(u, services[..1]) == {"a"};
    assert Fetched(u, services) == {"a"};
    assert services[1] in u.owner && "b" in ReachableFromServices(u, services);
  }
}
