/** Start-up of the client: fetch every descriptor, build the registry, hand it to the resolver. */
module Client {
  import opened Graphs
  import opened Descriptors
  import opened Registry
  import opened Reflection
  import opened FetchDescriptors
  import opened DescriptorSet
  import opened Resolver
  import opened Wrappers

  const START_RETRIES: nat := 3

  datatype ClientError = DescriptorsUnavailable(message: string) | BuildFailed(cause: BuildError)

  ghost predicate CycleAmong(u: Universe, names: set<string>) {
    exists n :: n in names && OnCycle(UniverseGraph(u), n)
  }

  /** Distinctly named genuine descriptors form the fetched part of the universe's graph. */
  lemma FetchedGraph(u: Universe, descriptors: seq<FileProto>, fetched: set<string>)
    requires forall i, j :: 0 <= i < j < |descriptors| ==> descriptors[i].name != descriptors[j].name
    requires (set i | 0 <= i < |descriptors| :: descriptors[i].name) == fetched
    requires forall i :: 0 <= i < |descriptors| ==>
               descriptors[i].name in u.files && descriptors[i].dependency == u.files[descriptors[i].name].dependency
    ensures ByName(descriptors).Keys == fetched
    ensures forall n :: n in fetched ==> ByName(descriptors)[n] != null && n in u.files
    ensures forall n :: n in fetched ==> ImportGraph(ByName(descriptors))[n] == UniverseGraph(u)[n]
    ensures forall i :: 0 <= i < |descriptors| ==> ByName(descriptors)[descriptors[i].name] == descriptors[i]
  {
    var fdMap := ByName(descriptors);
    forall n | n in fdMap
      ensures n in fetched && fdMap[n] != null && n in u.files && ImportGraph(fdMap)[n] == UniverseGraph(u)[n]
    {
      var i :| 0 <= i < |descriptors| && descriptors[i] == fdMap[n];
    }
    forall i | 0 <= i < |descriptors|
      ensures descriptors[i].name in fdMap && fdMap[descriptors[i].name] == descriptors[i]
    {
      assert GetName(descriptors[i]) in fdMap;
      var j :| 0 <= j < |descriptors| && descriptors[j] == fdMap[descriptors[i].name];
    }
  }

  /** The fetched files, patched. */
  ghost function PatchedFiles(u: Universe, fetched: set<string>): map<string, FileContents> {
    map n | n in fetched && n in u.files :: Patched(u.files[n])
  }

  /**
   Unless the library refuses a file, start-up succeeds exactly when every request has a usable
   answer, as with a responsive server, and no fetched file is on an import cycle. The resolver then
   starts from precisely the fetched files, patched.
   */
  method NewGRPCClient(conn: Connection, accepts: (seq<FileContents>, FileContents) -> bool,
    isMessage: string -> bool, ghost u: Universe)
    returns (r: Result<CustomResolver, ClientError>, ghost services: seq<string>, ghost tried: nat, ghost b: Talk,
      ghost answered: bool)
    requires WellBehaved(u, conn.answers)
    modifies conn
    ensures Opened(Peer(u, conn.answers, 3), services, tried, old(conn.Now()), b, conn.Now(), answered)
    ensures Responsive(u, conn.answers, 3) ==> answered
    ensures r.Success? ==> answered && !CycleAmong(u, Fetched(u, services))
    ensures r.Failure? ==>
              || !answered || CycleAmong(u, Fetched(u, services))
              || exists earlier, f :: Refuses(PatchedFiles(u, Fetched(u, services)), accepts, earlier, f)
    ensures r.Success? ==>
              fresh(r.value) && r.value.u == u && r.value.conn == conn && r.value.mu.Free() && r.value.Valid()
    ensures r.Success? ==> r.value.Registered() == Fetched(u, services)
    ensures r.Success? ==>
              forall f :: f in r.value.files.registered ==> f.name in u.files && f == Patched(u.files[f.name])
    ensures r.Success? ==> r.value.files.accepts == accepts && r.value.seenSymbols == map[]
    ensures r.Success? ==> r.value.isMessage == isMessage && r.value.maxRetries == 3
  {
    var fetched;
    fetched, services, tried, b := FetchAllDescriptors(conn, START_RETRIES, u);
    answered := fetched.Success?;
    if fetched.Failure? {
      return Failure(DescriptorsUnavailable(fetched.error)), services, tried, b, answered;
    }
    var descriptors := fetched.value;
    var built := BuildFetched(descriptors, accepts, u, Fetched(u, services));
    if built.Failure? {
      return Failure(BuildFailed(built.error)), services, tried, b, answered;
    }
    var resolver := new CustomResolver(built.value, conn, START_RETRIES, isMessage, u);
    return Success(resolver), services, tried, b, answered;
  }

  /** Building the registry, when the descriptors are the fetched files as the server holds them. */
  method BuildFetched(descriptors: seq<FileProto>, accepts: (seq<FileContents>, FileContents) -> bool,
    ghost u: Universe, ghost fetched: set<string>)
    returns (r: Result<Files, BuildError>)
    requires AreFetched(u, descriptors, fetched) && Closed(UniverseGraph(u), fetched)
    modifies descriptors`messages
    ensures r.Success? ==> fresh(r.value) && r.value.accepts == accepts && !CycleAmong(u, fetched)
    ensures r.Success? ==> ImportClosed(r.value.registered) && Authentic(u, r.value.registered)
    ensures r.Success? ==> Paths(r.value.registered) == fetched
    ensures r.Success? ==>
              forall f :: f in r.value.registered ==> f.name in u.files && f == Patched(u.files[f.name])
    ensures r.Failure? ==>
              || CycleAmong(u, fetched)
              || exists earlier, f :: Refuses(PatchedFiles(u, fetched), accepts, earlier, f)
  {
    FetchedFits(u, descriptors, fetched);
    ghost var patched := PatchedFiles(u, fetched);
    r := BuildFileDescriptorSet(descriptors, accepts);
    if r.Success? {
      assert forall n :: n in fetched ==> patched[n] in r.value.registered;
      RegisteredAsFetched(u, fetched, r.value.registered);
    }
  }

  /** Each fetched file once, as the server holds it. */
  ghost predicate AreFetched(u: Universe, descriptors: seq<FileProto>, fetched: set<string>)
    reads descriptors
  {
    && (forall i, j :: 0 <= i < j < |descriptors| ==> descriptors[i].name != descriptors[j].name)
    && (set i | 0 <= i < |descriptors| :: descriptors[i].name) == fetched
    && forall i :: 0 <= i < |descriptors| ==>
         descriptors[i].name in u.files && descriptors[i].Contents() == u.files[descriptors[i].name]
  }

  /** What the build needs to know of them. */
  lemma FetchedFits(u: Universe, descriptors: seq<FileProto>, fetched: set<string>)
    requires AreFetched(u, descriptors, fetched) && Closed(UniverseGraph(u), fetched)
    ensures ByName(descriptors).Keys == fetched && SelfContained(ByName(descriptors))
    ensures Acyclic(ImportGraph(ByName(descriptors))) <==> !CycleAmong(u, fetched)
    ensures PatchedMap(ByName(descriptors)) == PatchedFiles(u, fetched)
    ensures forall n :: n in fetched ==>
              && n in u.files && u.files[n].name == n && ByName(descriptors)[n] != null
              && Patched(ByName(descriptors)[n].Contents()) == PatchedFiles(u, fetched)[n]
  {
    FetchedGraph(u, descriptors, fetched);
    CyclesAreKept(u, fetched, ImportGraph(ByName(descriptors)));
    FetchedContents(u, descriptors, fetched);
  }

  lemma FetchedContents(u: Universe, descriptors: seq<FileProto>, fetched: set<string>)
    requires AreFetched(u, descriptors, fetched) && ByName(descriptors).Keys == fetched
    requires forall i :: 0 <= i < |descriptors| ==> ByName(descriptors)[descriptors[i].name] == descriptors[i]
    ensures PatchedMap(ByName(descriptors)) == PatchedFiles(u, fetched)
    ensures forall n :: n in fetched ==>
              && n in u.files && u.files[n].name == n && ByName(descriptors)[n] != null
              && Patched(ByName(descriptors)[n].Contents()) == PatchedFiles(u, fetched)[n]
  {
    var fdMap := ByName(descriptors);
    forall n | n in fetched
      ensures n in u.files && u.files[n].name == n && fdMap[n] != null && fdMap[n].Contents() == u.files[n]
    {
      var i :| 0 <= i < |descriptors| && descriptors[i].name == n;
      assert fdMap[n] == descriptors[i];
    }
  }

  lemma CyclesAreKept(u: Universe, fetched: set<string>, g: Graph)
    requires Closed(UniverseGraph(u), fetched) && g.Keys == fetched
    requires forall n :: n in fetched ==> n in u.files && g[n] == UniverseGraph(u)[n]
    ensures Closed(g, g.Keys) && (Acyclic(g) <==> !CycleAmong(u, fetched))
  {
    CutKeepsCycles(UniverseGraph(u), g);
  }

  lemma RegisteredAsFetched(u: Universe, fetched: set<string>, files: seq<FileContents>)
    requires ImportClosed(files) && Paths(files) == fetched
    requires forall n :: n in fetched ==> n in u.files && u.files[n].name == n && Patched(u.files[n]) in files
    ensures forall f :: f in files ==> f.name in u.files && f == Patched(u.files[f.name])
    ensures Authentic(u, files)
  {
  }
}
