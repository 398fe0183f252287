/** Runs that exist: off the import cycles a call can always be brought to its end. */
module ResolverRuns {
  import opened Graphs
  import opened Descriptors
  import opened Registry
  import opened ResolverInterleaving
  import opened ResolverCalls
  import opened Wrappers
  import Reflection
  import Resolver

  /** The file that each goroutine asks for, whenever it starts. */
  type Calls = map<nat, FileContents>

  /** True and complete answers, and no goroutine starts on anything but its own file. */
  ghost predicate IsGood(u: Universe, c: Calls, s: State, e: Event) {
    IsGenuine(u, s, e) && Complete(s, e) && (e.Start? ==> e.t in c && e.batch == [c[e.t]])
  }

  ghost predicate RunIsGood(u: Universe, c: Calls, s: State, es: seq<Event>)
    decreases |es|
  {
    es == [] || (IsGood(u, c, s, es[0]) && RunIsGood(u, c, Next(s, es[0]), es[1..]))
  }

  ghost predicate Leads(u: Universe, c: Calls, s: State, s': State) {
    exists es :: IsRun(s, es) && RunIsGood(u, c, s, es) && Run(s, es) == s'
  }

  lemma LeadsToItself(u: Universe, c: Calls, s: State)
    ensures Leads(u, c, s, s)
  {
    assert IsRun(s, []) && RunIsGood(u, c, s, []) && Run(s, []) == s;
  }

  lemma {:induction false} RunThenStep(u: Universe, c: Calls, s: State, es: seq<Event>, e: Event)
    requires IsRun(s, es) && RunIsGood(u, c, s, es) && Enabled(Run(s, es), e) && IsGood(u, c, Run(s, es), e)
    ensures IsRun(s, es + [e]) && RunIsGood(u, c, s, es + [e]) && Run(s, es + [e]) == Next(Run(s, es), e)
    decreases |es|
  {
    var longer := es + [e];
    if es == [] {
      assert longer[1..] == [];
    } else {
      RunThenStep(u, c, Next(s, es[0]), es[1..], e);
      assert longer[0] == es[0] && longer[1..] == es[1..] + [e];
    }
  }

  lemma OneMore(u: Universe, c: Calls, start: State, s: State, e: Event)
    requires Leads(u, c, start, s) && Enabled(s, e) && IsGood(u, c, s, e)
    ensures Leads(u, c, start, Next(s, e))
  {
    var es :| IsRun(start, es) && RunIsGood(u, c, start, es) && Run(start, es) == s;
    RunThenStep(u, c, start, es, e);
  }

  /** The innermost call of `t` is `f`, inside the calls `below`. */
  predicate InFrame(s: State, t: nat, below: seq<Frame>, f: Frame) {
    t in s.threads && s.threads[t].frames == below + [f]
  }

  /** `t` moves on to `f`, and the lock to `holder`. */
  function Moved(s: State, holder: Option<nat>, t: nat, below: seq<Frame>, f: Frame): State
    requires t in s.threads
  {
    State(s.files, holder, s.threads[t := s.threads[t].(frames := below + [f])])
  }

  lemma MovedTwice(s: State, s': State, t: nat, below: seq<Frame>, f: Frame, f': Frame)
    requires t in s.threads && s'.threads == Moved(s, None, t, below, f).threads
    ensures Moved(s', None, t, below, f').threads == Moved(s, None, t, below, f').threads
  {
  }

  lemma GoLock(u: Universe, c: Calls, start: State, s: State, t: nat, below: seq<Frame>, f: Frame)
    requires Leads(u, c, start, s) && InFrame(s, t, below, f) && s.holder.None? && (f.at.Entering? || f.at.Relocking?)
    ensures Leads(u, c, start, Moved(s, Some(t), t, below, AfterLock(f)))
  {
    assert (below + [f])[|below| := AfterLock(f)] == below + [AfterLock(f)];
    OneMore(u, c, start, s, Lock(t));
  }

  lemma GoReplyWith(u: Universe, c: Calls, start: State, s: State, t: nat, below: seq<Frame>, f: Frame,
    batch: seq<FileContents>)
    requires Leads(u, c, start, s) && InFrame(s, t, below, f) && f.at.Fetching? && f.at.left != []
    requires Reflection.Genuine(u, f.at.left[0], batch) && Names(batch, f.at.left[0])
    ensures Leads(u, c, start, Moved(s, s.holder, t, below + [f], Frame([], batch, Entering)))
  {
    OneMore(u, c, start, s, Reply(t, Some(batch)));
  }

  lemma GoReply(u: Universe, c: Calls, start: State, s: State, t: nat, below: seq<Frame>, f: Frame, y: FileContents)
    requires Leads(u, c, start, s) && InFrame(s, t, below, f) && f.at.Fetching? && f.at.left != []
    requires FromUniverse(u, y) && y.name == f.at.left[0]
    ensures Leads(u, c, start, Moved(s, s.holder, t, below + [f], Frame([], [y], Entering)))
  {
    ReachesSelf(Imports(u), y.name);
    assert [y][0].name == y.name;
    assert Names([y], y.name);
    GoReplyWith(u, c, start, s, t, below, f, [y]);
  }

  lemma GoLook(u: Universe, c: Calls, start: State, s: State, t: nat, below: seq<Frame>, f: Frame)
    requires Leads(u, c, start, s) && InFrame(s, t, below, f) && s.holder == Some(t) && f.at == Looking && f.todo != []
    ensures var f' := if Registered(s, f.todo[0].name) then NextFile(f) else f.(at := Depending(f.todo[0].dependency));
            Leads(u, c, start, Moved(s, s.holder, t, below, f'))
  {
    var f' := if Registered(s, f.todo[0].name) then NextFile(f) else f.(at := Depending(f.todo[0].dependency));
    assert (below + [f])[|below| := f'] == below + [f'];
    OneMore(u, c, start, s, Advance(t));
  }

  /** At an import: past it if it is registered, else out of the lock to fetch it. */
  lemma GoWalk(u: Universe, c: Calls, start: State, s: State, t: nat, below: seq<Frame>, f: Frame,
    left: seq<string>)
    requires Leads(u, c, start, s) && InFrame(s, t, below, f)
    requires s.holder == Some(t) && f.at == Depending(left) && left != []
    ensures Leads(u, c, start,
              if Registered(s, left[0]) then Moved(s, s.holder, t, below, f.(at := Depending(left[1..])))
              else Moved(s, None, t, below, f.(at := Fetching(left))))
  {
    var f' := f.(at := if Registered(s, left[0]) then Depending(left[1..]) else Fetching(left));
    assert (below + [f])[|below| := f'] == below + [f'];
    OneMore(u, c, start, s, Advance(t));
  }

  lemma GoRegister(u: Universe, c: Calls, start: State, s: State, t: nat, below: seq<Frame>, f: Frame)
    requires Leads(u, c, start, s) && InFrame(s, t, below, f)
    requires s.holder == Some(t) && f.at == Depending([]) && f.todo != []
    requires (forall d :: d in f.todo[0].dependency ==> d in Paths(s.files)) && f.todo[0].name !in Paths(s.files)
    ensures Leads(u, c, start, State(s.files + [f.todo[0]], Some(t), Moved(s, None, t, below, NextFile(f)).threads))
  {
    RegisteredIsPath(s);
    assert (below + [f])[|below| := NextFile(f)] == below + [NextFile(f)];
    OneMore(u, c, start, s, Advance(t));
  }

  lemma GoClash(u: Universe, c: Calls, start: State, s: State, t: nat, below: seq<Frame>, f: Frame)
    requires Leads(u, c, start, s) && InFrame(s, t, below, f)
    requires s.holder == Some(t) && f.at == Depending([]) && f.todo != []
    requires (forall d :: d in f.todo[0].dependency ==> d in Paths(s.files)) && f.todo[0].name in Paths(s.files)
    ensures Leads(u, c, start, Moved(s, s.holder, t, below, f.(at := Failing(Duplicate))))
  {
    RegisteredIsPath(s);
    assert (below + [f])[|below| := f.(at := Failing(Duplicate))] == below + [f.(at := Failing(Duplicate))];
    OneMore(u, c, start, s, Advance(t));
  }

  lemma GoReturn(u: Universe, c: Calls, start: State, s: State, t: nat, below: seq<Frame>, f: Frame)
    requires Leads(u, c, start, s) && InFrame(s, t, below, f) && s.holder == Some(t)
    requires (f.at == Looking && f.todo == []) || f.at.Failing?
    ensures var fault := if f.at == Looking then None else Some(f.at.fault);
            Leads(u, c, start, State(s.files, None, s.threads[t := Return(s.threads[t], fault)]))
  {
    OneMore(u, c, start, s, Advance(t));
  }

  /** Every import is of a known file, and the registry holds known files, each after its imports. */
  ghost predicate Suited(u: Universe, files: seq<FileContents>) {
    && (forall n :: n in u.files ==> u.files[n].name == n)
    && Closed(Imports(u), u.files.Keys)
    && ImportClosed(files) && Resolver.Authentic(u, files)
  }

  lemma RegistrationSuits(u: Universe, files: seq<FileContents>, y: FileContents)
    requires Suited(u, files) && FromUniverse(u, y) && y.name !in Paths(files)
    requires forall d :: d in y.dependency ==> d in Paths(files)
    ensures Suited(u, files + [y]) && Paths(files + [y]) == Paths(files) + {y.name}
  {
    AppendKeepsImportClosed(files, y);
  }

  ghost function Reach(u: Universe, n: string): set<string> {
    ReachSet(Imports(u), n)
  }

  lemma ImportReachesLess(u: Universe, y: FileContents, d: string)
    requires FromUniverse(u, y) && d in y.dependency && ReachesNoCycle(Imports(u), y.name)
    ensures Reach(u, d) < Reach(u, y.name) && y.name !in Reach(u, d) && ReachesNoCycle(Imports(u), d)
  {
    var g := Imports(u);
    ReachesSelf(g, y.name);
    ReachesSelf(g, d);
    NoCycleBelow(g, y.name, y.name);
    EdgeThenReaches(g, y.name, d, d);
    NoCycleBelow(g, y.name, d);
    ReachSetShrinks(g, y.name, d);
    if y.name in Reach(u, d) {
      ReturningEdgeIsCycle(g, y.name, d);
    }
  }

  /** What a registered file reaches is registered. */
  lemma RegisteredReach(u: Universe, files: seq<FileContents>, n: string)
    requires Suited(u, files) && n in Paths(files)
    ensures Reach(u, n) <= Paths(files)
  {
    Resolver.RegistryIsClosed(u, files);
    ClosedContainsReachable(Imports(u), Paths(files), n);
  }

  /** The imports in `left` are brought in, one nested call after the other. */
  lemma ImportsComplete(u: Universe, c: Calls, start: State, s: State, t: nat, below: seq<Frame>,
    f: Frame, left: seq<string>)
    returns (s': State)
    requires Leads(u, c, start, s) && s.holder == Some(t) && InFrame(s, t, below, f.(at := Depending(left)))
    requires Suited(u, s.files) && f.todo != [] && FromUniverse(u, f.todo[0])
    requires ReachesNoCycle(Imports(u), f.todo[0].name)
    requires forall d :: d in left ==> d in f.todo[0].dependency
    requires forall d :: d in f.todo[0].dependency ==> d in left || d in Paths(s.files)
    ensures Leads(u, c, start, s') && s'.holder == Some(t) && Suited(u, s'.files)
    ensures s'.threads == Moved(s, None, t, below, f.(at := Depending([]))).threads
    ensures forall d :: d in f.todo[0].dependency ==> d in Paths(s'.files)
    ensures Paths(s.files) <= Paths(s'.files) <= Paths(s.files) + (Reach(u, f.todo[0].name) - {f.todo[0].name})
    decreases Reach(u, f.todo[0].name), 0, |left|
  {
    if left == [] {
      s' := s;
      assert s.threads == s.threads[t := s.threads[t].(frames := below + [f.(at := Depending(left))])];
    } else {
      var a := OneImport(u, c, start, s, t, below, f, left);
      OneLess(left, f.todo[0].dependency, Paths(s.files), Paths(a.files));
      s' := ImportsComplete(u, c, start, a, t, below, f, left[1..]);
      MovedTwice(s, a, t, below, f.(at := Depending(left[1..])), f.(at := Depending([])));
    }
  }

  lemma OneLess(left: seq<string>, imports: seq<string>, paths: set<string>, more: set<string>)
    requires left != [] && paths <= more && left[0] in more && forall d :: d in left ==> d in imports
    requires forall d :: d in imports ==> d in left || d in paths
    ensures forall d :: d in left[1..] ==> d in imports
    ensures forall d :: d in imports ==> d in left[1..] || d in more
  {
    assert left == [left[0]] + left[1..];
  }

  lemma OneImport(u: Universe, c: Calls, start: State, s: State, t: nat, below: seq<Frame>, f: Frame,
    left: seq<string>)
    returns (s': State)
    requires Leads(u, c, start, s) && s.holder == Some(t) && InFrame(s, t, below, f.(at := Depending(left)))
    requires Suited(u, s.files) && f.todo != [] && FromUniverse(u, f.todo[0])
    requires ReachesNoCycle(Imports(u), f.todo[0].name)
    requires left != [] && left[0] in f.todo[0].dependency
    ensures Leads(u, c, start, s') && s'.holder == Some(t) && Suited(u, s'.files)
    ensures s'.threads == Moved(s, None, t, below, f.(at := Depending(left[1..]))).threads
    ensures left[0] in Paths(s'.files) && Paths(s'.files) == Paths(s.files) + Reach(u, left[0])
    ensures Paths(s.files) <= Paths(s'.files) <= Paths(s.files) + (Reach(u, f.todo[0].name) - {f.todo[0].name})
    decreases Reach(u, f.todo[0].name), 0, 0
  {
    RegisteredIsPath(s);
    GoWalk(u, c, start, s, t, below, f.(at := Depending(left)), left);
    if Registered(s, left[0]) {
      s' := Moved(s, s.holder, t, below, f.(at := Depending(left[1..])));
      RegisteredReach(u, s.files, left[0]);
    } else {
      var a := Moved(s, None, t, below, f.(at := Fetching(left)));
      ImportReachesLess(u, f.todo[0], left[0]);
      s' := FetchCompletes(u, c, start, a, t, below, f, left);
      assert s'.threads == Moved(s, None, t, below, f.(at := Depending(left[1..]))).threads;
    }
  }

  /** A suspended fetch is answered, and its caller comes back under the lock. */
  lemma FetchCompletes(u: Universe, c: Calls, start: State, s: State, t: nat, below: seq<Frame>,
    f: Frame, left: seq<string>)
    returns (s': State)
    requires Leads(u, c, start, s) && s.holder.None? && InFrame(s, t, below, f.(at := Fetching(left)))
    requires Suited(u, s.files) && f.todo != [] && FromUniverse(u, f.todo[0])
    requires left != [] && left[0] in f.todo[0].dependency
    requires ReachesNoCycle(Imports(u), left[0])
    ensures Leads(u, c, start, s') && s'.holder == Some(t) && Suited(u, s'.files)
    ensures s'.threads == Moved(s, None, t, below, f.(at := Depending(left[1..]))).threads
    ensures Paths(s'.files) == Paths(s.files) + Reach(u, left[0]) && left[0] in Paths(s'.files)
    decreases Reach(u, left[0]), 2
  {
    var g := f.(at := Fetching(left));
    assert Edge(Imports(u), f.todo[0].name, left[0]) && left[0] in u.files;
    GoReply(u, c, start, s, t, below, g, u.files[left[0]]);
    var a := Moved(s, None, t, below + [g], Frame([], [u.files[left[0]]], Entering));
    var b := FileCompletes(u, c, start, a, t, below + [g], u.files[left[0]]);
    var back := f.(at := Relocking(left, None));
    assert a.threads[t].frames[..|below| + 1] == below + [g];
    assert (below + [g])[|below| := back] == below + [back];
    GoLock(u, c, start, b, t, below, back);
    s' := Moved(b, Some(t), t, below, AfterLock(back));
    assert s'.threads == Moved(s, None, t, below, f.(at := Depending(left[1..]))).threads;
    ReachesSelf(Imports(u), left[0]);
  }

  lemma SameReturn(th: Thread, th': Thread, below: seq<Frame>, f: Frame, f': Frame)
    requires th.frames == below + [f] && th'.frames == below + [f'] && th.last == th'.last && th.batch == th'.batch
    ensures Return(th, None) == Return(th', None)
  {
    assert th.frames[..|below|] == below && th'.frames[..|below|] == below;
  }

  /** A call for one file that reaches no cycle returns without fault, all it reaches registered. */
  lemma FileCompletes(u: Universe, c: Calls, start: State, s: State, t: nat, below: seq<Frame>, y: FileContents)
    returns (s': State)
    requires Leads(u, c, start, s) && s.holder.None? && InFrame(s, t, below, Frame([], [y], Entering))
    requires Suited(u, s.files) && FromUniverse(u, y) && ReachesNoCycle(Imports(u), y.name)
    ensures Leads(u, c, start, s') && s'.holder.None? && Suited(u, s'.files)
    ensures s'.threads == s.threads[t := Return(s.threads[t], None)]
    ensures Paths(s'.files) == Paths(s.files) + Reach(u, y.name)
    decreases Reach(u, y.name), 1
  {
    GoLock(u, c, start, s, t, below, Frame([], [y], Entering));
    var a := Moved(s, Some(t), t, below, Frame([], [y], Looking));
    RegisteredIsPath(a);
    GoLook(u, c, start, a, t, below, Frame([], [y], Looking));
    var finished := Frame([y], [], Looking);
    var b: State;
    if Registered(a, y.name) {
      b := Moved(a, Some(t), t, below, finished);
      assert NextFile(Frame([], [y], Looking)) == finished;
      RegisteredReach(u, s.files, y.name);
    } else {
      var d := Moved(a, Some(t), t, below, Frame([], [y], Depending(y.dependency)));
      b := RegistersLast(u, c, start, d, t, below, y);
    }
    GoReturn(u, c, start, b, t, below, finished);
    s' := State(b.files, None, b.threads[t := Return(b.threads[t], None)]);
    SameReturn(b.threads[t], s.threads[t], below, finished, Frame([], [y], Entering));
    assert s'.threads == s.threads[t := Return(s.threads[t], None)];
  }

  /** Between its imports and its own registration nothing is missing and nothing is too much. */
  lemma RegistrationCompletes(u: Universe, before: set<string>, files: seq<FileContents>, y: FileContents)
    requires Suited(u, files) && FromUniverse(u, y) && y.name !in Paths(files)
    requires forall d :: d in y.dependency ==> d in Paths(files)
    requires before <= Paths(files) <= before + (Reach(u, y.name) - {y.name})
    ensures Suited(u, files + [y]) && Paths(files + [y]) == before + Reach(u, y.name)
  {
    RegistrationSuits(u, files, y);
    RegisteredReach(u, files + [y], y.name);
    ReachesSelf(Imports(u), y.name);
  }

  lemma RegistersLast(u: Universe, c: Calls, start: State, s: State, t: nat, below: seq<Frame>, y: FileContents)
    returns (s': State)
    requires Leads(u, c, start, s) && s.holder == Some(t)
    requires InFrame(s, t, below, Frame([], [y], Depending(y.dependency)))
    requires Suited(u, s.files) && FromUniverse(u, y) && ReachesNoCycle(Imports(u), y.name) && y.name !in Paths(s.files)
    ensures Leads(u, c, start, s') && s'.holder == Some(t) && Suited(u, s'.files)
    ensures s'.threads == Moved(s, None, t, below, Frame([y], [], Looking)).threads
    ensures Paths(s'.files) == Paths(s.files) + Reach(u, y.name)
    decreases Reach(u, y.name), 0, |y.dependency| + 1
  {
    var f := Frame([], [y], Depending([]));
    var a := ImportsComplete(u, c, start, s, t, below, f, y.dependency);
    assert InFrame(a, t, below, f);
    GoRegister(u, c, start, a, t, below, f);
    s' := State(a.files + [y], Some(t), Moved(a, None, t, below, NextFile(f)).threads);
    RegistrationCompletes(u, Paths(s.files), a.files, y);
    assert NextFile(f) == Frame([y], [], Looking);
    MovedTwice(s, a, t, below, f, NextFile(f));
  }
}
