/** The `protoregistry.Files` contract the program relies on. */
module Registry {
  import opened Graphs
  import opened Descriptors
  import opened Wrappers

  datatype RegistryError =
    | UnresolvedImport(path: string)  // NewFile: an import is not registered
    | PathTaken(path: string)         // RegisterFile: the path is registered already
    | Refused(path: string)           // any other objection of the library

  ghost function Paths(files: seq<FileContents>): set<string> {
    set i | 0 <= i < |files| :: files[i].name
  }

  /** Distinct paths, each registered after all of its imports. */
  ghost predicate ImportClosed(files: seq<FileContents>) {
    forall i :: 0 <= i < |files| ==> Fits(files[..i], files[i])
  }

  /** `f` is new to `files` and finds all its imports there. */
  ghost predicate Fits(files: seq<FileContents>, f: FileContents) {
    f.name !in Paths(files) && forall d :: d in f.dependency ==> d in Paths(files)
  }

  ghost function FileAt(files: seq<FileContents>, path: string): (f: FileContents)
    requires path in Paths(files)
    ensures f in files && f.name == path
  {
    var i :| 0 <= i < |files| && files[i].name == path;
    files[i]
  }

  ghost function RegisteredGraph(files: seq<FileContents>): Graph {
    map n | n in Paths(files) :: FileAt(files, n).dependency
  }

  lemma PathsOfAppend(files: seq<FileContents>, f: FileContents)
    ensures Paths(files + [f]) == Paths(files) + {f.name}
  {
    var longer := files + [f];
    forall n | n in Paths(files) + {f.name}
      ensures n in Paths(longer)
    {
      if n == f.name {
        assert longer[|files|].name == n;
      } else {
        var i :| 0 <= i < |files| && files[i].name == n;
        assert longer[i].name == n;
      }
    }
  }

  lemma AppendKeepsImportClosed(files: seq<FileContents>, f: FileContents)
    requires ImportClosed(files) && Fits(files, f)
    ensures ImportClosed(files + [f])
    ensures Paths(files + [f]) == Paths(files) + {f.name}
  {
    PathsOfAppend(files, f);
    var longer := files + [f];
    forall i | 0 <= i < |longer|
      ensures Fits(longer[..i], longer[i])
    {
      assert longer[..i] == files[..i];
      if i == |files| {
        assert files[..i] == files;
      }
    }
  }

  lemma PathsOfPrefix(files: seq<FileContents>, i: nat)
    requires i <= |files|
    ensures Paths(files[..i]) <= Paths(files)
  {
  }

  lemma ImportsRegistered(files: seq<FileContents>, i: nat)
    requires ImportClosed(files) && i < |files|
    ensures forall d :: d in files[i].dependency ==> d in Paths(files)
  {
    assert Fits(files[..i], files[i]);
    PathsOfPrefix(files, i);
  }

  /** An import-closed registry has no import cycle, no dangling import and no repeated path. */
  lemma ImportClosedMeaning(files: seq<FileContents>)
    requires ImportClosed(files)
    ensures forall i, j :: 0 <= i < j < |files| ==> files[i].name != files[j].name
    ensures Closed(RegisteredGraph(files), Paths(files))
    ensures Acyclic(RegisteredGraph(files))
  {
    var g := RegisteredGraph(files);
    var order := seq(|files|, i requires 0 <= i < |files| => files[i].name);
    forall i, j | 0 <= i < j < |files|
      ensures files[i].name != files[j].name
    {
      assert files[..j][i].name in Paths(files[..j]);
    }
    forall n | n in Paths(files)
      ensures n in g && forall d :: d in g[n] ==> d in Paths(files)
    {
      var i :| 0 <= i < |files| && files[i] == FileAt(files, n);
      assert Fits(files[..i], files[i]);
      PathsOfPrefix(files, i);
    }
    forall i | 0 <= i < |order|
      ensures order[i] in g && forall d :: d in g[order[i]] && d in g ==> d in order[..i]
    {
      assert FileAt(files, files[i].name) == files[i];
      forall d | d in g[order[i]]
        ensures d in order[..i]
      {
        assert d in Paths(files[..i]);
        var k :| 0 <= k < i && files[..i][k].name == d;
        assert order[..i][k] == d;
      }
    }
    assert TopologicalOrder(g, order);
    forall n | n in g
      ensures n in order
    {
      var i :| 0 <= i < |files| && files[i].name == n;
      assert order[i] == n;
    }
    OrderedGraphIsAcyclic(g, order);
  }

  class Files {
    /** Registered files, oldest first. */
    var registered: seq<FileContents>

    /** Everything the library checks beyond imports and paths. */
    const accepts: (seq<FileContents>, FileContents) -> bool

    constructor (accepts: (seq<FileContents>, FileContents) -> bool)
      ensures registered == [] && this.accepts == accepts
    {
      registered := [];
      this.accepts := accepts;
    }

    method FindFileByPath(path: string) returns (found: bool)
      ensures found <==> path in Paths(registered)
    {
      found := false;
      for i := 0 to |registered|
        invariant found <==> path in Paths(registered[..i])
      {
        assert registered[..i + 1] == registered[..i] + [registered[i]];
        PathsOfAppend(registered[..i], registered[i]);
        if registered[i].name == path {
          found := true;
        }
      }
      assert registered[..|registered|] == registered;
    }

    /** protodesc.NewFile against this registry. */
    method NewFile(fdProto: FileProto) returns (fd: Result<FileContents, RegistryError>)
      ensures fd.Success? ==> fd.value == fdProto.Contents() && accepts(registered, fd.value)
      ensures fd.Success? ==> forall d :: d in fdProto.dependency ==> d in Paths(registered)
      ensures fd.Failure? ==>
        || (fd.error.UnresolvedImport? && fd.error.path in fdProto.dependency && fd.error.path !in Paths(registered))
        || (fd.error == Refused(fdProto.name) && !accepts(registered, fdProto.Contents())
            && forall d :: d in fdProto.dependency ==> d in Paths(registered))
    {
      for i := 0 to |fdProto.dependency|
        invariant forall k :: 0 <= k < i ==> fdProto.dependency[k] in Paths(registered)
      {
        var found := FindFileByPath(fdProto.dependency[i]);
        if !found {
          return Failure(UnresolvedImport(fdProto.dependency[i]));
        }
      }
      if !accepts(registered, fdProto.Contents()) {
        return Failure(Refused(fdProto.name));
      }
      return Success(fdProto.Contents());
    }

    method RegisterFile(fd: FileContents) returns (err: Option<RegistryError>)
      requires ImportClosed(registered)
      requires forall d :: d in fd.dependency ==> d in Paths(registered)
      modifies `registered
      ensures ImportClosed(registered)
      ensures err.None? <==> fd.name !in Paths(old(registered))
      ensures err.None? ==>
                registered == old(registered) + [fd] && Paths(registered) == Paths(old(registered)) + {fd.name}
      ensures err.Some? ==> err.value == PathTaken(fd.name) && registered == old(registered)
    {
      var found := FindFileByPath(fd.name);
      if found {
        return Some(PathTaken(fd.name));
      }
      AppendKeepsImportClosed(registered, fd);
      registered := registered + [fd];
      return None;
    }
  }
}
