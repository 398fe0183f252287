/** What every call in progress is for, and what a call that ended without fault has achieved. */
module ResolverCalls {
  import opened Graphs
  import opened Descriptors
  import opened Registry
  import opened ResolverInterleaving
  import opened Wrappers
  import Reflection
  import Resolver

  type Universe = Reflection.Universe

  function Imports(u: Universe): Graph {
    Reflection.UniverseGraph(u)
  }

  predicate FromUniverse(u: Universe, x: FileContents) {
    x.name in u.files && u.files[x.name] == x
  }

  /** A goroutine starts with true files, and a fetch by name brings true files within reach of that name. */
  ghost predicate IsGenuine(u: Universe, s: State, e: Event) {
    match e
    case Start(_, batch) => forall x :: x in batch ==> FromUniverse(u, x)
    case Reply(t, Some(batch)) =>
      Busy(s, t) && Top(s.threads[t]).at.Fetching? && Top(s.threads[t]).at.left != [] ==>
        Reflection.Genuine(u, Top(s.threads[t]).at.left[0], batch)
    case _ => true
  }

  ghost predicate RunIsGenuine(u: Universe, s: State, es: seq<Event>)
    decreases |es|
  {
    es == [] || (IsGenuine(u, s, es[0]) && RunIsGenuine(u, Next(s, es[0]), es[1..]))
  }

  /** Some file of the batch reaches `n`. */
  ghost predicate NeededBy(u: Universe, batch: seq<FileContents>, n: string) {
    exists b :: b in batch && Reaches(Imports(u), b.name, n)
  }

  function LeftOf(p: Point): seq<string> {
    match p
    case Depending(left) => left
    case Fetching(left) => left
    case Relocking(left, _) => left
    case _ => []
  }

  /** Handled files are registered; the others are true files that the outermost call needs. */
  ghost predicate FrameTidy(u: Universe, paths: set<string>, batch: seq<FileContents>, f: Frame) {
    && (forall x :: x in f.done ==> x.name in paths)
    && (forall x :: x in f.todo ==> FromUniverse(u, x) && NeededBy(u, batch, x.name))
    && (forall d :: d in LeftOf(f.at) ==> f.todo != [] && d in f.todo[0].dependency)
  }

  /** What a nested call still has to do is within reach of the import it was made for. */
  ghost predicate Under(u: Universe, caller: Frame, callee: Frame) {
    caller.at.Fetching? && caller.at.left != [] ==>
      forall x :: x in callee.todo ==> Reaches(Imports(u), caller.at.left[0], x.name)
  }

  ghost predicate ThreadTidy(u: Universe, paths: set<string>, th: Thread) {
    && (forall i :: 0 <= i < |th.frames| ==> FrameTidy(u, paths, th.batch, th.frames[i]))
    && (forall i, j :: 0 <= i < j < |th.frames| ==> Under(u, th.frames[i], th.frames[j]))
    && (th.frames != [] ==> th.frames[0].done + th.frames[0].todo == th.batch)
    && (th.frames == [] && th.last.None? ==> forall x :: x in th.batch ==> x.name in paths)
  }

  ghost predicate Tidy(u: Universe, s: State) {
    && Safe(s) && Resolver.Authentic(u, s.files)
    && forall t :: t in s.threads ==> ThreadTidy(u, Paths(s.files), s.threads[t])
  }

  lemma InitialIsTidy(u: Universe, s: State)
    requires Initial(s) && Resolver.Authentic(u, s.files)
    ensures Tidy(u, s)
  {
    InitialIsSound(s);
  }

  lemma GrowthKeepsTidy(u: Universe, paths: set<string>, more: set<string>, th: Thread)
    requires paths <= more && ThreadTidy(u, paths, th)
    ensures ThreadTidy(u, more, th)
  {
    forall i | 0 <= i < |th.frames|
      ensures FrameTidy(u, more, th.batch, th.frames[i])
    {
      assert FrameTidy(u, paths, th.batch, th.frames[i]);
    }
  }

  lemma ReplaceKeepsTidy(u: Universe, paths: set<string>, th: Thread, f: Frame)
    requires th.frames != [] && ThreadTidy(u, paths, th) && FrameTidy(u, paths, th.batch, f)
    requires f.done + f.todo == Top(th).done + Top(th).todo && forall x :: x in f.todo ==> x in Top(th).todo
    ensures ThreadTidy(u, paths, Replace(th, f))
  {
    var th' := Replace(th, f);
    forall i, j | 0 <= i < j < |th'.frames|
      ensures Under(u, th'.frames[i], th'.frames[j])
    {
      assert Under(u, th.frames[i], th.frames[j]);
    }
  }

  lemma NextFileKeepsTidy(u: Universe, paths: set<string>, th: Thread)
    requires th.frames != [] && ThreadTidy(u, paths, th)
    requires Top(th).todo != [] && Top(th).todo[0].name in paths
    ensures ThreadTidy(u, paths, Replace(th, NextFile(Top(th))))
  {
    var f := Top(th);
    assert FrameTidy(u, paths, th.batch, f);
    assert f.todo == [f.todo[0]] + f.todo[1..];
    ReplaceKeepsTidy(u, paths, th, NextFile(f));
  }

  lemma ReturnKeepsTidy(u: Universe, paths: set<string>, th: Thread, fault: Option<Fault>)
    requires th.frames != [] && ThreadTidy(u, paths, th) && ThreadShape(th)
    requires fault.None? ==> Top(th).todo == []
    ensures ThreadTidy(u, paths, Return(th, fault))
  {
    var below := th.frames[..|th.frames| - 1];
    var th' := Return(th, fault);
    if below == [] {
      assert FrameTidy(u, paths, th.batch, th.frames[0]);
    } else {
      var k := |below| - 1;
      assert FrameTidy(u, paths, th.batch, th.frames[k]) && th.frames[k].at.Fetching?;
      var caller := below[k].(at := Relocking(below[k].at.left, fault));
      assert th'.frames == below[k := caller];
      forall i, j | 0 <= i < j < |th'.frames|
        ensures Under(u, th'.frames[i], th'.frames[j])
      {
        assert Under(u, th.frames[i], th.frames[j]);
      }
    }
  }

  /** The import that a fetch is for is reached from wherever its importer is. */
  lemma ReachedThroughImport(u: Universe, a: string, x: FileContents, d: string, n: string)
    requires FromUniverse(u, x) && d in x.dependency && Reaches(Imports(u), a, x.name) && Reaches(Imports(u), d, n)
    ensures Reaches(Imports(u), a, n)
  {
    ReachesThenEdge(Imports(u), a, x.name, d);
    ReachesTransitive(Imports(u), a, d, n);
  }

  lemma PushKeepsTidy(u: Universe, paths: set<string>, th: Thread, answer: seq<FileContents>)
    requires th.frames != [] && ThreadTidy(u, paths, th) && ThreadShape(th) && Top(th).at.Fetching?
    requires Reflection.Genuine(u, Top(th).at.left[0], answer)
    ensures ThreadTidy(u, paths, th.(frames := th.frames + [Frame([], answer, Entering)]))
  {
    var callee := Frame([], answer, Entering);
    var top := |th.frames| - 1;
    var f := th.frames[top];
    var x, d := f.todo[0], f.at.left[0];
    assert FrameTidy(u, paths, th.batch, f) && FrameShape(f) && d in LeftOf(f.at);
    forall y | y in answer
      ensures FromUniverse(u, y) && NeededBy(u, th.batch, y.name)
      ensures forall i :: 0 <= i <= top && th.frames[i].at.left != [] ==>
                th.frames[i].at.Fetching? ==> Reaches(Imports(u), th.frames[i].at.left[0], y.name)
    {
      var k :| 0 <= k < |answer| && answer[k] == y;
      var b :| b in th.batch && Reaches(Imports(u), b.name, x.name);
      ReachedThroughImport(u, b.name, x, d, y.name);
      forall i | 0 <= i <= top && th.frames[i].at.Fetching? && th.frames[i].at.left != []
        ensures Reaches(Imports(u), th.frames[i].at.left[0], y.name)
      {
        if i < top {
          assert Under(u, th.frames[i], f);
          ReachedThroughImport(u, th.frames[i].at.left[0], x, d, y.name);
        }
      }
    }
    assert FrameTidy(u, paths, th.batch, callee);
    var th' := th.(frames := th.frames + [callee]);
    forall i, j | 0 <= i < j < |th'.frames|
      ensures Under(u, th'.frames[i], th'.frames[j])
    {
      if j <= top {
        assert Under(u, th.frames[i], th.frames[j]);
      }
    }
  }

  lemma UpdateIsTidy(u: Universe, s: State, t: nat, s': State)
    requires Tidy(u, s) && Safe(s') && s.files <= s'.files && Resolver.Authentic(u, s'.files)
    requires t in s.threads && t in s'.threads && s'.threads == s.threads[t := s'.threads[t]]
    requires ThreadTidy(u, Paths(s'.files), s'.threads[t])
    ensures Tidy(u, s')
  {
    assert s'.files[..|s.files|] == s.files;
    PathsOfPrefix(s'.files, |s.files|);
    forall x | x in s'.threads
      ensures ThreadTidy(u, Paths(s'.files), s'.threads[x])
    {
      if x != t {
        GrowthKeepsTidy(u, Paths(s.files), Paths(s'.files), s.threads[x]);
      }
    }
  }

  lemma StepKeepsTidy(u: Universe, s: State, e: Event)
    requires Tidy(u, s) && Enabled(s, e) && IsGenuine(u, s, e)
    ensures Tidy(u, Next(s, e))
  {
    if e.Advance? {
      AdvanceKeepsTidy(u, s, e.t);
    } else {
      StepIsSafe(s, e);
      OtherStepKeepsTidy(u, s, e);
      UpdateIsTidy(u, s, e.t, Next(s, e));
    }
  }

  lemma OtherStepKeepsTidy(u: Universe, s: State, e: Event)
    requires Tidy(u, s) && Enabled(s, e) && IsGenuine(u, s, e) && !e.Advance?
    ensures Next(s, e).files == s.files && Next(s, e).threads == s.threads[e.t := Next(s, e).threads[e.t]]
    ensures ThreadTidy(u, Paths(s.files), Next(s, e).threads[e.t])
  {
    var paths := Paths(s.files);
    var th := s.threads[e.t];
    assert ThreadTidy(u, paths, th) && ThreadShape(th);
    match e {
      case Start(t, batch) =>
        StartIsTidy(u, paths, th.last, batch);
      case Lock(t) =>
        LockKeepsTidy(u, paths, th);
      case Refuse(t) =>
        FailKeepsTidy(u, paths, th, Refusal);
      case Reply(t, None) =>
        FailedFetchKeepsTidy(u, paths, th);
      case Reply(t, Some(answer)) =>
        assert FrameShape(Top(th));
        PushKeepsTidy(u, paths, th, answer);
    }
  }

  lemma LockKeepsTidy(u: Universe, paths: set<string>, th: Thread)
    requires th.frames != [] && ThreadTidy(u, paths, th)
    ensures ThreadTidy(u, paths, Replace(th, AfterLock(Top(th))))
  {
    var f := Top(th);
    assert FrameTidy(u, paths, th.batch, f);
    assert forall d :: d in LeftOf(AfterLock(f).at) ==> d in LeftOf(f.at);
    ReplaceKeepsTidy(u, paths, th, AfterLock(f));
  }

  lemma FailKeepsTidy(u: Universe, paths: set<string>, th: Thread, fault: Fault)
    requires th.frames != [] && ThreadTidy(u, paths, th)
    ensures ThreadTidy(u, paths, Replace(th, Top(th).(at := Failing(fault))))
  {
    var f := Top(th);
    assert FrameTidy(u, paths, th.batch, f);
    ReplaceKeepsTidy(u, paths, th, f.(at := Failing(fault)));
  }

  lemma FailedFetchKeepsTidy(u: Universe, paths: set<string>, th: Thread)
    requires th.frames != [] && ThreadTidy(u, paths, th) && Top(th).at.Fetching?
    ensures ThreadTidy(u, paths, Replace(th, Top(th).(at := Relocking(Top(th).at.left, Some(Network)))))
  {
    var f := Top(th);
    assert FrameTidy(u, paths, th.batch, f);
    assert LeftOf(Relocking(f.at.left, Some(Network))) == LeftOf(f.at);
    ReplaceKeepsTidy(u, paths, th, f.(at := Relocking(f.at.left, Some(Network))));
  }

  lemma StartIsTidy(u: Universe, paths: set<string>, last: Option<Fault>, batch: seq<FileContents>)
    requires forall x :: x in batch ==> FromUniverse(u, x)
    ensures ThreadTidy(u, paths, Thread([Frame([], batch, Entering)], last, batch))
  {
    forall x | x in batch
      ensures NeededBy(u, batch, x.name)
    {
      ReachesSelf(Imports(u), x.name);
    }
  }

  lemma AdvanceKeepsTidy(u: Universe, s: State, t: nat)
    requires Tidy(u, s) && Enabled(s, Advance(t))
    ensures Tidy(u, Next(s, Advance(t)))
  {
    StepIsSafe(s, Advance(t));
    var f := Top(s.threads[t]);
    assert FrameTidy(u, Paths(s.files), s.threads[t].batch, f) && FrameShape(f);
    match f.at {
      case Looking => LookKeepsTidy(u, s, t);
      case Depending(left) =>
        if left == [] {
          RegisterKeepsTidy(u, s, t);
        } else {
          WalkKeepsTidy(u, s, t);
        }
      case Failing(fault) =>
        ReturnKeepsTidy(u, Paths(s.files), s.threads[t], Some(fault));
    }
    UpdateIsTidy(u, s, t, Next(s, Advance(t)));
  }

  lemma LookKeepsTidy(u: Universe, s: State, t: nat)
    requires Tidy(u, s) && Enabled(s, Advance(t)) && Top(s.threads[t]).at.Looking?
    ensures Advanced(s, t).files == s.files && Advanced(s, t).threads == s.threads[t := Advanced(s, t).threads[t]]
    ensures ThreadTidy(u, Paths(s.files), Advanced(s, t).threads[t])
  {
    var th := s.threads[t];
    var f := Top(th);
    var paths := Paths(s.files);
    var th' := Advanced(s, t).threads[t];
    assert FrameTidy(u, paths, th.batch, f) && ThreadTidy(u, paths, th);
    if f.todo == [] {
      assert th' == Return(th, None);
      ReturnKeepsTidy(u, paths, th, None);
    } else if Registered(s, f.todo[0].name) {
      assert th' == Replace(th, NextFile(f));
      RegisteredIsPath(s);
      NextFileKeepsTidy(u, paths, th);
    } else {
      assert th' == Replace(th, f.(at := Depending(f.todo[0].dependency)));
      ReplaceKeepsTidy(u, paths, th, f.(at := Depending(f.todo[0].dependency)));
    }
  }

  lemma WalkKeepsTidy(u: Universe, s: State, t: nat)
    requires Tidy(u, s) && Enabled(s, Advance(t)) && Top(s.threads[t]).at.Depending? && Top(s.threads[t]).at.left != []
    ensures Advanced(s, t).files == s.files && Advanced(s, t).threads == s.threads[t := Advanced(s, t).threads[t]]
    ensures ThreadTidy(u, Paths(s.files), Advanced(s, t).threads[t])
  {
    var th := s.threads[t];
    var f := Top(th);
    var left := f.at.left;
    assert FrameTidy(u, Paths(s.files), th.batch, f) && forall d :: d in left ==> d in LeftOf(f.at);
    if Registered(s, left[0]) {
      ReplaceKeepsTidy(u, Paths(s.files), th, f.(at := Depending(left[1..])));
    } else {
      ReplaceKeepsTidy(u, Paths(s.files), th, f.(at := Fetching(left)));
    }
  }

  /** Where the step that would register a file leads. */
  lemma RegisteringStep(s: State, t: nat)
    requires Enabled(s, Advance(t)) && Top(s.threads[t]).at == Depending([]) && Top(s.threads[t]).todo != []
    ensures var th, f, s' := s.threads[t], Top(s.threads[t]), Advanced(s, t);
            if exists d :: d in f.todo[0].dependency && !Registered(s, d) then
              s' == s.(threads := s.threads[t := Replace(th, f.(at := Failing(MissingImport)))])
            else if Registered(s, f.todo[0].name) then
              s' == s.(threads := s.threads[t := Replace(th, f.(at := Failing(Duplicate)))])
            else
              s' == s.(files := s.files + [f.todo[0]], threads := s.threads[t := Replace(th, NextFile(f))])
  {
  }

  lemma RegisterKeepsTidy(u: Universe, s: State, t: nat)
    requires Tidy(u, s) && Enabled(s, Advance(t)) && Top(s.threads[t]).at == Depending([])
    ensures s.files <= Advanced(s, t).files && Advanced(s, t).threads == s.threads[t := Advanced(s, t).threads[t]]
    ensures Resolver.Authentic(u, Advanced(s, t).files)
    ensures ThreadTidy(u, Paths(Advanced(s, t).files), Advanced(s, t).threads[t])
  {
    var th := s.threads[t];
    var f := Top(th);
    assert ThreadTidy(u, Paths(s.files), th) && ThreadShape(th) && FrameShape(f);
    RegisteringStep(s, t);
    if exists d :: d in f.todo[0].dependency && !Registered(s, d) {
      FailKeepsTidy(u, Paths(s.files), th, MissingImport);
    } else if Registered(s, f.todo[0].name) {
      FailKeepsTidy(u, Paths(s.files), th, Duplicate);
    } else {
      RegisteredFileIsTidy(u, s.files, th);
    }
  }

  lemma RegisteredFileIsTidy(u: Universe, files: seq<FileContents>, th: Thread)
    requires th.frames != [] && ThreadTidy(u, Paths(files), th) && Top(th).todo != [] && Resolver.Authentic(u, files)
    ensures Resolver.Authentic(u, files + [Top(th).todo[0]])
    ensures ThreadTidy(u, Paths(files + [Top(th).todo[0]]), Replace(th, NextFile(Top(th))))
  {
    assert FrameTidy(u, Paths(files), th.batch, Top(th));
    var x := Top(th).todo[0];
    PathsOfAppend(files, x);
    GrowthKeepsTidy(u, Paths(files), Paths(files + [x]), th);
    NextFileKeepsTidy(u, Paths(files + [x]), th);
  }

  lemma {:induction false} RunKeepsTidy(u: Universe, s: State, es: seq<Event>)
    requires Tidy(u, s) && IsRun(s, es) && RunIsGenuine(u, s, es)
    ensures Tidy(u, Run(s, es))
    decreases |es|
  {
    if es != [] {
      StepKeepsTidy(u, s, es[0]);
      RunKeepsTidy(u, Next(s, es[0]), es[1..]);
    }
  }

  /**
   In every reachable state of every interleaving: a call that ended without fault has all its files
   registered, and everything they reach.
   */
  lemma EndedCallIsRegistered(u: Universe, s: State, es: seq<Event>, t: nat, x: FileContents, n: string)
    requires Tidy(u, s) && IsRun(s, es) && RunIsGenuine(u, s, es)
    requires t in Run(s, es).threads && Run(s, es).threads[t].frames == [] && Run(s, es).threads[t].last.None?
    requires x in Run(s, es).threads[t].batch && Reaches(Imports(u), x.name, n)
    ensures n in Paths(Run(s, es).files)
  {
    RunKeepsTidy(u, s, es);
    Resolver.RegistryIsClosed(u, Run(s, es).files);
    ClosedContainsReachable(Imports(u), Paths(Run(s, es).files), x.name);
  }
}
