/** From a list of descriptors to a registry: sort by imports, patch, register. */
module DescriptorSet {
  import opened Graphs
  import opened Descriptors
  import opened Registry
  import opened TopologicalSort
  import opened Wrappers

  datatype BuildError =
    | SortFailed(fault: SortError)
    | CreateFailed(cause: RegistryError)
    | RegisterFailed(cause: RegistryError)

  /** Keyed by name; a later descriptor of the same name replaces an earlier one. */
  function ByName(descriptors: seq<FileProto?>): (fdMap: map<string, FileProto?>)
    ensures forall n :: n in fdMap ==> fdMap[n] in descriptors && GetName(fdMap[n]) == n
    ensures forall d :: d in descriptors ==> GetName(d) in fdMap
  {
    if descriptors == [] then map[]
    else
      var last := descriptors[|descriptors| - 1];
      ByName(descriptors[..|descriptors| - 1])[GetName(last) := last]
  }

  /** Of the descriptors with the same name the last one is kept. */
  lemma {:induction false} ByNameKeepsLast(descriptors: seq<FileProto?>, i: nat)
    requires i < |descriptors|
    requires forall j :: i < j < |descriptors| ==> GetName(descriptors[j]) != GetName(descriptors[i])
    ensures GetName(descriptors[i]) in ByName(descriptors)
    ensures ByName(descriptors)[GetName(descriptors[i])] == descriptors[i]
    decreases |descriptors|
  {
    if i < |descriptors| - 1 {
      ByNameKeepsLast(descriptors[..|descriptors| - 1], i);
    }
  }

  /** The objects a build may patch. */
  ghost function Objects(descriptors: seq<FileProto?>): set<FileProto> {
    set i | 0 <= i < |descriptors| && descriptors[i] != null :: descriptors[i]
  }

  /** Every import named by a descriptor of the map is itself in the map. */
  ghost predicate SelfContained(fdMap: map<string, FileProto?>) {
    Closed(ImportGraph(fdMap), fdMap.Keys)
  }

  /** What the descriptors of the map say once they are patched. */
  ghost function PatchedMap(fdMap: map<string, FileProto?>): map<string, FileContents>
    reads set n | n in fdMap && fdMap[n] != null :: fdMap[n]
  {
    map n | n in fdMap && fdMap[n] != null :: Patched(fdMap[n].Contents())
  }

  /** With some of these files registered another is ready, and the library refuses it. */
  ghost predicate Refuses(patched: map<string, FileContents>, accepts: (seq<FileContents>, FileContents) -> bool,
    earlier: seq<FileContents>, f: FileContents)
  {
    && ImportClosed(earlier) && Fits(earlier, f) && !accepts(earlier, f)
    && forall g :: g in earlier + [f] ==> g.name in patched && g == patched[g.name]
  }

  /** What must be true of the input for a build to end with this error. */
  ghost predicate Accounts(fdMap: map<string, FileProto?>, patched: map<string, FileContents>,
    accepts: (seq<FileContents>, FileContents) -> bool, e: BuildError)
  {
    match e
    case SortFailed(fault) => Explains(fdMap, fault)
    case CreateFailed(UnresolvedImport(_)) => !SelfContained(fdMap)
    case CreateFailed(Refused(path)) =>
      exists earlier, f: FileContents :: f.name == path && Refuses(patched, accepts, earlier, f)
    case CreateFailed(PathTaken(_)) => false
    case RegisterFailed(_) => false
  }

  /** `target` is what registering the files named by `order` should leave behind. */
  ghost predicate Plan(fdMap: map<string, FileProto?>, order: seq<string>, target: seq<FileContents>) {
    && TopologicalOrder(ImportGraph(fdMap), order)
    && |target| == |order|
    && forall i :: 0 <= i < |order| ==>
         target[i].name == order[i] && target[i].dependency == ImportGraph(fdMap)[order[i]]
  }

  /** Before a planned file is registered, its path is free and its listed imports are taken. */
  lemma PlannedFileFits(fdMap: map<string, FileProto?>, order: seq<string>, target: seq<FileContents>, k: nat)
    requires Plan(fdMap, order, target) && k < |target|
    ensures target[k].name !in Paths(target[..k])
    ensures forall d :: d in target[k].dependency && d in fdMap ==> d in Paths(target[..k])
  {
    forall d | d in target[k].dependency && d in fdMap
      ensures d in Paths(target[..k])
    {
      var i := ImportComesEarlier(ImportGraph(fdMap), order, k, d);
      assert target[..k][i].name == d;
    }
  }

  /** The error is due to file number `k`: it imports something not listed, or the library refuses it. */
  ghost predicate Blames(fdMap: map<string, FileProto?>, target: seq<FileContents>, k: nat,
    accepts: (seq<FileContents>, FileContents) -> bool, e: BuildError)
    requires k < |target|
  {
    match e
    case CreateFailed(UnresolvedImport(d)) => d in target[k].dependency && d !in fdMap
    case CreateFailed(Refused(path)) =>
      && path == target[k].name && !accepts(target[..k], target[k])
      && ImportClosed(target[..k]) && Fits(target[..k], target[k])
    case _ => false
  }

  method RegisterNext(files: Files, fdProto: FileProto, ghost fdMap: map<string, FileProto?>)
    returns (err: Option<BuildError>)
    requires ImportClosed(files.registered)
    requires forall d :: d in fdProto.dependency && d in fdMap ==> d in Paths(files.registered)
    modifies files`registered, fdProto`messages
    ensures ImportClosed(files.registered)
    ensures err.None? ==> files.registered == old(files.registered) + [Patched(old(fdProto.Contents()))]
    ensures err.Some? ==>
              match err.value
              case CreateFailed(UnresolvedImport(d)) => d in fdProto.dependency && d !in fdMap
              case CreateFailed(Refused(path)) =>
                && path == fdProto.name && !files.accepts(old(files.registered), Patched(old(fdProto.Contents())))
                && forall d :: d in fdProto.dependency ==> d in Paths(old(files.registered))
              case RegisterFailed(PathTaken(path)) => path == fdProto.name && path in Paths(old(files.registered))
              case _ => false
  {
    PatchABCIDescriptor(fdProto);
    var fd := files.NewFile(fdProto);
    if fd.Failure? {
      return Some(CreateFailed(fd.error));
    }
    var e := files.RegisterFile(fd.value);
    if e.Some? {
      return Some(RegisterFailed(e.value));
    }
    return None;
  }

  method RegisterSorted(files: Files, sorted: seq<FileProto>, ghost fdMap: map<string, FileProto?>,
    ghost order: seq<string>, ghost target: seq<FileContents>)
    returns (err: Option<BuildError>)
    requires files.registered == [] && Plan(fdMap, order, target) && |sorted| == |target|
    requires forall i :: 0 <= i < |sorted| ==> target[i] == Patched(sorted[i].Contents())
    requires forall i, j :: 0 <= i < j < |sorted| ==> sorted[i] != sorted[j]
    modifies files`registered, sorted`messages
    ensures ImportClosed(files.registered)
    ensures err.None? ==> files.registered == target
    ensures err.Some? ==> exists i :: 0 <= i < |target| && Blames(fdMap, target, i, files.accepts, err.value)
  {
    for k := 0 to |sorted|
      invariant ImportClosed(files.registered) && files.registered == target[..k]
      invariant forall i :: k <= i < |sorted| ==> target[i] == Patched(sorted[i].Contents())
    {
      PlannedFileFits(fdMap, order, target, k);
      assert sorted[k].Contents().name == target[k].name && sorted[k].Contents().dependency == target[k].dependency;
      var e := RegisterNext(files, sorted[k], fdMap);
      if e.Some? {
        assert Blames(fdMap, target, k, files.accepts, e.value);
        return e;
      }
      assert target[..k + 1] == target[..k] + [target[k]];
    }
    assert target[..|target|] == target;
    return None;
  }

  lemma PlanFromOrder(fdMap: map<string, FileProto?>, order: seq<string>, sorted: seq<FileProto>)
    requires Lists(fdMap, order, sorted) && TopologicalOrder(ImportGraph(fdMap), order)
    requires forall n :: n in fdMap ==> GetName(fdMap[n]) == n
    ensures Plan(fdMap, order, PatchedContents(sorted))
    ensures forall i, j :: 0 <= i < j < |sorted| ==> sorted[i] != sorted[j]
  {
  }

  lemma PlannedPaths(fdMap: map<string, FileProto?>, order: seq<string>, files: seq<FileContents>, n: string)
    requires Plan(fdMap, order, files)
    ensures n in Paths(files) <==> n in order
  {
    if n in order {
      var i :| 0 <= i < |order| && order[i] == n;
      assert files[i].name == n;
    }
  }

  lemma AllRegistered(fdMap: map<string, FileProto?>, order: seq<string>, files: seq<FileContents>)
    requires Plan(fdMap, order, files) && ImportClosed(files)
    requires forall n :: n in fdMap <==> n in order
    ensures Paths(files) == fdMap.Keys
    ensures SelfContained(fdMap)
  {
    forall n
      ensures n in Paths(files) <==> n in fdMap
    {
      PlannedPaths(fdMap, order, files, n);
    }
    forall n | n in fdMap
      ensures forall d :: d in ImportGraph(fdMap)[n] ==> d in Paths(files)
    {
      var i :| 0 <= i < |order| && order[i] == n;
      ImportsRegistered(files, i);
    }
  }

  method RegisterInOrder(files: Files, sorted: seq<FileProto>, ghost fdMap: map<string, FileProto?>,
    ghost order: seq<string>)
    returns (err: Option<BuildError>)
    requires files.registered == []
    requires Lists(fdMap, order, sorted) && TopologicalOrder(ImportGraph(fdMap), order)
    requires forall n :: n in fdMap <==> n in order
    requires forall n :: n in fdMap ==> GetName(fdMap[n]) == n
    modifies files`registered, sorted`messages
    ensures ImportClosed(files.registered)
    ensures err.None? ==> Paths(files.registered) == fdMap.Keys && SelfContained(fdMap)
    ensures err.None? ==> forall i :: 0 <= i < |sorted| ==> Patched(old(sorted[i].Contents())) in files.registered
    ensures err.Some? ==> Accounts(fdMap, old(PatchedMap(fdMap)), files.accepts, err.value)
  {
    ghost var target, patched := PatchedContents(sorted), PatchedMap(fdMap);
    PlanFromOrder(fdMap, order, sorted);
    err := RegisterSorted(files, sorted, fdMap, order, target);
    if err.None? {
      AllRegistered(fdMap, order, target);
    } else {
      BlameAccounts(fdMap, patched, order, target, files.accepts, err.value);
    }
  }

  ghost function PatchedContents(sorted: seq<FileProto>): (target: seq<FileContents>)
    reads sorted
    ensures |target| == |sorted|
    ensures forall i :: 0 <= i < |sorted| ==> target[i] == Patched(sorted[i].Contents())
  {
    seq(|sorted|, i requires 0 <= i < |sorted| reads sorted => Patched(sorted[i].Contents()))
  }

  lemma BlameAccounts(fdMap: map<string, FileProto?>, patched: map<string, FileContents>, order: seq<string>,
    target: seq<FileContents>, accepts: (seq<FileContents>, FileContents) -> bool, e: BuildError)
    requires Plan(fdMap, order, target)
    requires forall i :: 0 <= i < |order| ==> order[i] in fdMap && order[i] in patched && target[i] == patched[order[i]]
    requires exists i :: 0 <= i < |target| && Blames(fdMap, target, i, accepts, e)
    ensures Accounts(fdMap, patched, accepts, e)
  {
    var k :| 0 <= k < |target| && Blames(fdMap, target, k, accepts, e);
    match e {
      case CreateFailed(UnresolvedImport(d)) =>
        assert d in ImportGraph(fdMap)[order[k]];
      case CreateFailed(Refused(_)) =>
        forall g | g in target[..k] + [target[k]]
          ensures g.name in patched && g == patched[g.name]
        {
          var i :| 0 <= i <= k && g == target[i];
        }
        assert Refuses(patched, accepts, target[..k], target[k]);
      case _ =>
    }
  }

  method CollectByName(descriptors: seq<FileProto?>) returns (fdMap: map<string, FileProto?>)
    ensures fdMap == ByName(descriptors)
  {
    fdMap := map[];
    for i := 0 to |descriptors|
      invariant fdMap == ByName(descriptors[..i])
    {
      assert descriptors[..i + 1][..i] == descriptors[..i];
      fdMap := fdMap[GetName(descriptors[i]) := descriptors[i]];
    }
    assert descriptors[..|descriptors|] == descriptors;
  }

  /**
   Never fails on a repeated path, and on an import only if the list lacks it. On success the
   registry is import-closed and holds each listed name once, with the patched contents.
   */
  method BuildFileDescriptorSet(descriptors: seq<FileProto?>, accepts: (seq<FileContents>, FileContents) -> bool)
    returns (r: Result<Files, BuildError>)
    modifies Objects(descriptors)`messages
    ensures r.Success? ==> fresh(r.value) && r.value.accepts == accepts && ImportClosed(r.value.registered)
    ensures r.Success? ==> Paths(r.value.registered) == ByName(descriptors).Keys
    ensures r.Success? ==> Acyclic(ImportGraph(ByName(descriptors))) && SelfContained(ByName(descriptors))
    ensures r.Success? ==> forall n :: n in ByName(descriptors) ==>
              ByName(descriptors)[n] != null && Patched(old(ByName(descriptors)[n].Contents())) in r.value.registered
    ensures r.Failure? ==> Accounts(ByName(descriptors), old(PatchedMap(ByName(descriptors))), accepts, r.error)
    ensures (forall files, f :: accepts(files, f)) ==>
              (r.Success? <==>
               && (forall n :: n in ByName(descriptors) ==> ByName(descriptors)[n] != null)
               && Acyclic(ImportGraph(ByName(descriptors)))
               && SelfContained(ByName(descriptors)))
  {
    var files := new Files(accepts);
    var fdMap := CollectByName(descriptors);
    var sortResult, order := Sort(fdMap);
    if sortResult.Failure? {
      return Failure(SortFailed(sortResult.error));
    }
    var sorted := sortResult.value;
    var err := RegisterInOrder(files, sorted, fdMap, order);
    if err.Some? {
      return Failure(err.value);
    }
    forall n | n in fdMap
      ensures exists i :: 0 <= i < |sorted| && sorted[i] == fdMap[n]
    {
      var i :| 0 <= i < |order| && order[i] == n;
      assert sorted[i] == fdMap[n];
    }
    r := Success(files);
  }
}
