/** Which calls cannot fail on each other's registrations, whatever the interleaving. */
module ResolverMeet {
  import opened Graphs
  import opened Descriptors
  import opened Registry
  import opened ResolverInterleaving
  import opened ResolverCalls
  import opened ResolverOverlap
  import opened ResolverRuns
  import opened Wrappers
  import Resolver

  ghost function ReachOf(u: Universe, names: seq<string>): set<string> {
    set n | n in u.files && exists i :: 0 <= i < |names| && Reaches(Imports(u), names[i], n)
  }

  /** What is registered at least when a call for `x` comes to its import number `k`. */
  ghost function UpTo(u: Universe, before: set<string>, x: FileContents, k: nat): set<string>
    requires k <= |x.dependency|
  {
    before + ReachOf(u, x.dependency[..k])
  }

  ghost predicate LacksImport(u: Universe, paths: set<string>, n: string) {
    n in u.files && exists d :: d in u.files[n].dependency && d !in paths
  }

  /** Import number `k` of `x` reaches `n`, and earlier ones bring in neither `n` nor all of its imports. */
  ghost predicate ExposesAt(u: Universe, before: set<string>, x: FileContents, k: nat, n: string) {
    && k < |x.dependency| && n in Reach(u, x.dependency[k])
    && n !in UpTo(u, before, x, k) && LacksImport(u, UpTo(u, before, x, k), n)
  }

  /** A call for `x` can come to release the lock over `n`. */
  ghost predicate Exposes(u: Universe, before: set<string>, x: FileContents, n: string) {
    && x.name !in before
    && ((n == x.name && LacksImport(u, before, n)) || exists k :: ExposesAt(u, before, x, k, n))
  }

  /** And a call for `y` needs that file too. */
  ghost predicate MayMeet(u: Universe, before: set<string>, x: FileContents, y: FileContents) {
    exists n :: Exposes(u, before, x, n) && n in Reach(u, y.name)
  }

  /** `left` are the last of the imports, and the others are registered. */
  ghost predicate PassedUpTo(paths: set<string>, imports: seq<string>, left: seq<string>, k: nat) {
    k <= |imports| && left == imports[k..] && forall i :: 0 <= i < k ==> imports[i] in paths
  }

  ghost predicate FramePassed(paths: set<string>, f: Frame) {
    f.at.Depending? || f.at.Fetching? || f.at.Relocking? ==>
      f.todo != [] && exists k :: PassedUpTo(paths, f.todo[0].dependency, LeftOf(f.at), k)
  }

  ghost predicate ThreadPassed(paths: set<string>, th: Thread) {
    forall i :: 0 <= i < |th.frames| ==> FramePassed(paths, th.frames[i])
  }

  /** What is suspended in a call for `x` is exposed by it. */
  ghost predicate ThreadExposed(u: Universe, before: set<string>, x: FileContents, th: Thread) {
    forall n :: SuspendedIn(th, n) ==> Exposes(u, before, x, n)
  }

  ghost predicate ThreadWatched(u: Universe, before: set<string>, c: Calls, paths: set<string>, t: nat, th: Thread) {
    match th
    case Thread(frames, _, batch) =>
      && ThreadApart(paths, th) && ThreadPassed(paths, th)
      && (frames != [] ==> t in c && batch == [c[t]] && ThreadExposed(u, before, c[t], th))
  }

  ghost predicate Watched(u: Universe, before: set<string>, c: Calls, s: State) {
    match s
    case State(files, _, threads) =>
      && Tidy(u, s) && Sound(s) && before <= Paths(files)
      && forall t :: t in threads ==> ThreadWatched(u, before, c, Paths(files), t, threads[t])
  }

  ghost predicate NoneMeet(u: Universe, before: set<string>, c: Calls) {
    forall t, t' :: t in c && t' in c && t != t' ==> !MayMeet(u, before, c[t], c[t'])
  }

  lemma GrowthKeepsPassed(paths: set<string>, more: set<string>, th: Thread)
    requires paths <= more && ThreadPassed(paths, th)
    ensures ThreadPassed(more, th)
  {
    forall i | 0 <= i < |th.frames|
      ensures FramePassed(more, th.frames[i])
    {
      var f := th.frames[i];
      assert FramePassed(paths, f);
      if f.at.Depending? || f.at.Fetching? || f.at.Relocking? {
        var k: nat :| PassedUpTo(paths, f.todo[0].dependency, LeftOf(f.at), k);
        assert PassedUpTo(more, f.todo[0].dependency, LeftOf(f.at), k);
      }
    }
  }

  lemma ReplaceKeepsPassed(paths: set<string>, th: Thread, f: Frame)
    requires th.frames != [] && ThreadPassed(paths, th) && FramePassed(paths, f)
    ensures ThreadPassed(paths, Replace(th, f))
  {
  }

  lemma ReturnKeepsPassed(paths: set<string>, th: Thread, fault: Option<Fault>)
    requires th.frames != [] && ThreadPassed(paths, th) && ThreadShape(th)
    ensures ThreadPassed(paths, Return(th, fault))
  {
    if |th.frames| > 1 {
      var k := |th.frames| - 2;
      assert th.frames[..k + 1][k] == th.frames[k] && FramePassed(paths, th.frames[k]);
      var caller := th.frames[k].(at := Relocking(th.frames[k].at.left, fault));
      assert LeftOf(caller.at) == LeftOf(th.frames[k].at);
      assert Return(th, fault).frames == th.frames[..k + 1][k := caller];
    }
  }

  lemma OneMorePassed(paths: set<string>, f: Frame)
    requires FramePassed(paths, f) && f.todo != [] && (f.at.Depending? || f.at.Relocking?)
    requires LeftOf(f.at) != [] && LeftOf(f.at)[0] in paths
    ensures FramePassed(paths, f.(at := Depending(LeftOf(f.at)[1..])))
  {
    var imports, left := f.todo[0].dependency, LeftOf(f.at);
    var k: nat :| PassedUpTo(paths, imports, left, k);
    var f' := f.(at := Depending(left[1..]));
    assert imports[k..][1..] == imports[k + 1..] && LeftOf(f'.at) == left[1..];
    assert PassedUpTo(paths, f'.todo[0].dependency, LeftOf(f'.at), k + 1);
  }

  lemma LockKeepsPassed(paths: set<string>, th: Thread)
    requires th.frames != [] && ThreadPassed(paths, th) && ThreadRelies(paths, th) && ThreadShape(th)
    requires Top(th).at.Entering? || Top(th).at.Relocking?
    ensures ThreadPassed(paths, Replace(th, AfterLock(Top(th))))
  {
    var f := Top(th);
    assert FramePassed(paths, f) && Relies(paths, f) && FrameShape(f);
    if f.at.Relocking? && f.at.fetch.None? {
      OneMorePassed(paths, f);
    }
    ReplaceKeepsPassed(paths, th, AfterLock(f));
  }

  /** Whoever releases the lock over a file exposes it. */
  lemma WindowIsExposed(u: Universe, before: set<string>, files: seq<FileContents>, th: Thread, x: FileContents,
    n: string)
    requires th.frames != [] && th.batch == [x] && FromUniverse(u, x) && before <= Paths(files)
    requires ImportClosed(files) && Resolver.Authentic(u, files) && ThreadShape(th)
    requires ThreadTidy(u, Paths(files), th) && ThreadApart(Paths(files), th) && ThreadPassed(Paths(files), th)
    requires Top(th).at.Depending? && Top(th).at.left != []
    requires Top(th).at.left[0] !in Paths(files) && HasOpen(Top(th), n)
    ensures Exposes(u, before, x, n)
  {
    var paths := Paths(files);
    var top := |th.frames| - 1;
    var d := th.frames[top].at.left[0];
    OpenIsNeeded(u, paths, th, top, n);
    ImportLeft(u, paths, th, n, d);
    BottomIsOwn(u, paths, th, x);
    if top > 0 {
      var k := ReachedThroughPassed(u, paths, th, x);
      assert th.frames[top].todo[0] in th.frames[top].todo;
      NestedIsExposed(u, before, files, x, k, n, d);
    } else {
      assert n == x.name && LacksImport(u, before, n);
    }
  }

  lemma ImportLeft(u: Universe, paths: set<string>, th: Thread, n: string, d: string)
    requires th.frames != [] && ThreadTidy(u, paths, th) && ThreadApart(paths, th) && HasOpen(Top(th), n)
    requires Top(th).at.Depending? && Top(th).at.left != [] && Top(th).at.left[0] == d
    ensures d in Top(th).todo[0].dependency && n !in paths
  {
    var f := th.frames[|th.frames| - 1];
    assert FrameTidy(u, paths, th.batch, f) && FrameApart(paths, f) && d in LeftOf(f.at);
  }

  /** Everything a nested call has to do is reached through the import at which the outermost stands. */
  lemma ReachedThroughPassed(u: Universe, paths: set<string>, th: Thread, x: FileContents) returns (k: nat)
    requires |th.frames| > 1 && ThreadTidy(u, paths, th) && ThreadPassed(paths, th)
    requires th.frames[0].todo == [x] && th.frames[0].at.Fetching? && th.frames[0].at.left != []
    ensures k < |x.dependency| && forall i :: 0 <= i < k ==> x.dependency[i] in paths
    ensures forall y :: y in Top(th).todo ==> Reaches(Imports(u), x.dependency[k], y.name)
  {
    var f := th.frames[0];
    assert FramePassed(paths, f) && Under(u, f, th.frames[|th.frames| - 1]);
    k :| PassedUpTo(paths, x.dependency, LeftOf(f.at), k);
    assert x.dependency[k] == f.at.left[0];
  }

  lemma NestedIsExposed(u: Universe, before: set<string>, files: seq<FileContents>, x: FileContents, k: nat, n: string,
    d: string)
    requires before <= Paths(files) && ImportClosed(files) && Resolver.Authentic(u, files)
    requires k < |x.dependency| && (forall i :: 0 <= i < k ==> x.dependency[i] in Paths(files))
    requires n in u.files && d in u.files[n].dependency && n !in Paths(files) && d !in Paths(files)
    requires Reaches(Imports(u), x.dependency[k], n) && x.name !in before
    ensures Exposes(u, before, x, n)
  {
    PassedReach(u, before, files, x, k);
    assert LacksImport(u, UpTo(u, before, x, k), n);
    assert ExposesAt(u, before, x, k, n);
  }

  /** The outermost call has its own file open, which is not registered. */
  lemma BottomIsOwn(u: Universe, paths: set<string>, th: Thread, x: FileContents)
    requires th.frames != [] && th.batch == [x] && ThreadTidy(u, paths, th) && ThreadApart(paths, th) && ThreadShape(th)
    requires Top(th).at.Depending? && Top(th).todo != []
    ensures th.frames[0].todo == [x] && x.name !in paths
    ensures |th.frames| > 1 ==> th.frames[0].at.Fetching? && th.frames[0].at.left != []
  {
    var f := th.frames[0];
    assert FrameTidy(u, paths, th.batch, f) && FrameShape(f) && FrameApart(paths, f);
    assert f.done + f.todo == [x] && f.todo != [];
    assert |f.done| + |f.todo| == 1;
    assert f.done == [] && f.todo == [x];
    assert HasOpen(f, x.name);
  }

  lemma PassedReach(u: Universe, before: set<string>, files: seq<FileContents>, x: FileContents, k: nat)
    requires before <= Paths(files) && ImportClosed(files) && Resolver.Authentic(u, files)
    requires k <= |x.dependency| && forall i :: 0 <= i < k ==> x.dependency[i] in Paths(files)
    ensures UpTo(u, before, x, k) <= Paths(files)
  {
    Resolver.RegistryIsClosed(u, files);
    forall n | n in ReachOf(u, x.dependency[..k])
      ensures n in Paths(files)
    {
      var i :| 0 <= i < k && Reaches(Imports(u), x.dependency[..k][i], n);
      ClosedContainsReachable(Imports(u), Paths(files), x.dependency[i]);
    }
  }

  /** A step of `t` after which all is well with `t`, and others are as they were. */
  lemma StepIsWatched(u: Universe, before: set<string>, c: Calls, s: State, t: nat, s': State)
    requires Watched(u, before, c, s) && Tidy(u, s') && Sound(s') && t in s.threads && t in s'.threads
    requires s'.files == s.files && s'.threads == s.threads[t := s'.threads[t]]
    requires ThreadWatched(u, before, c, Paths(s.files), t, s'.threads[t])
    ensures Watched(u, before, c, s')
  {
  }

  lemma CalmerIsWatched(u: Universe, before: set<string>, c: Calls, paths: set<string>, t: nat, th: Thread, th': Thread)
    requires ThreadWatched(u, before, c, paths, t, th) && Calmer(th, th')
    requires ThreadApart(paths, th') && ThreadPassed(paths, th')
    ensures ThreadWatched(u, before, c, paths, t, th')
  {
  }

  lemma OtherStepIsWatched(u: Universe, before: set<string>, c: Calls, s: State, e: Event)
    requires Watched(u, before, c, s) && Enabled(s, e) && IsGood(u, c, s, e) && !e.Advance?
    requires Tidy(u, Next(s, e)) && Sound(Next(s, e))
    ensures Watched(u, before, c, Next(s, e))
  {
    var paths := Paths(s.files);
    var th := s.threads[e.t];
    assert ThreadWatched(u, before, c, paths, e.t, th);
    if e.Start? {
      StartIsWatched(u, before, c, paths, e.t, th);
    } else {
      OtherStepIsCalm(u, s, e);
      CalmerIsWatched(u, before, c, paths, e.t, th, Next(s, e).threads[e.t]);
    }
    StepIsWatched(u, before, c, s, e.t, Next(s, e));
  }

  lemma StartIsWatched(u: Universe, before: set<string>, c: Calls, paths: set<string>, t: nat, th: Thread)
    requires ThreadWatched(u, before, c, paths, t, th) && t in c
    ensures ThreadWatched(u, before, c, paths, t, Thread([Frame([], [c[t]], Entering)], th.last, [c[t]]))
  {
  }

  lemma OtherStepIsCalm(u: Universe, s: State, e: Event)
    requires Sound(s) && Enabled(s, e) && !e.Start? && !e.Advance?
    requires ThreadApart(Paths(s.files), s.threads[e.t]) && ThreadPassed(Paths(s.files), s.threads[e.t])
    ensures var th' := Next(s, e).threads[e.t];
            ThreadApart(Paths(s.files), th') && ThreadPassed(Paths(s.files), th') && Calmer(s.threads[e.t], th')
  {
    var paths := Paths(s.files);
    var th := s.threads[e.t];
    assert ThreadShape(th) && ThreadRelies(paths, th);
    match e {
      case Lock(t) =>
        LockKeepsApart(paths, th);
        LockKeepsPassed(paths, th);
      case Refuse(t) =>
        FailKeepsApart(paths, th, Refusal);
        ReplaceKeepsPassed(paths, th, Top(th).(at := Failing(Refusal)));
      case Reply(t, None) =>
        FailedFetchKeepsApart(paths, th);
        FailedFetchKeepsPassed(paths, th);
      case Reply(t, Some(answer)) =>
        PushKeepsApart(paths, th, answer);
    }
  }

  lemma FailedFetchKeepsPassed(paths: set<string>, th: Thread)
    requires th.frames != [] && ThreadPassed(paths, th) && Top(th).at.Fetching?
    ensures ThreadPassed(paths, Replace(th, Top(th).(at := Relocking(Top(th).at.left, Some(Network)))))
  {
    var f := Top(th).(at := Relocking(Top(th).at.left, Some(Network)));
    assert FramePassed(paths, Top(th)) && LeftOf(f.at) == LeftOf(Top(th).at);
    ReplaceKeepsPassed(paths, th, f);
  }

  lemma OpeningIsApart(paths: set<string>, th: Thread)
    requires th.frames != [] && ThreadApart(paths, th) && ThreadPassed(paths, th)
    requires Top(th).at.Looking? && Top(th).todo != [] && Top(th).todo[0].name !in paths
    ensures var th' := Replace(th, Top(th).(at := Depending(Top(th).todo[0].dependency)));
            ThreadApart(paths, th') && ThreadPassed(paths, th') && Calmer(th, th')
  {
    var f := Top(th);
    var f' := f.(at := Depending(f.todo[0].dependency));
    ReplaceKeepsApart(paths, th, f');
    assert LeftOf(f'.at) == f.todo[0].dependency && f.todo[0].dependency[0..] == f.todo[0].dependency;
    assert PassedUpTo(paths, f'.todo[0].dependency, LeftOf(f'.at), 0);
    ReplaceKeepsPassed(paths, th, f');
  }

  lemma LookIsWatched(u: Universe, before: set<string>, c: Calls, s: State, t: nat)
    requires Watched(u, before, c, s) && Enabled(s, Advance(t)) && Top(s.threads[t]).at.Looking?
    requires Tidy(u, Advanced(s, t)) && Sound(Advanced(s, t))
    ensures Watched(u, before, c, Advanced(s, t))
  {
    var paths := Paths(s.files);
    var th := s.threads[t];
    var f := Top(th);
    assert ThreadWatched(u, before, c, paths, t, th) && ThreadShape(th);
    RegisteredIsPath(s);
    if f.todo == [] {
      ReturnKeepsApart(paths, th, None);
      ReturnKeepsPassed(paths, th, None);
    } else if Registered(s, f.todo[0].name) {
      ReplaceKeepsApart(paths, th, NextFile(f));
      ReplaceKeepsPassed(paths, th, NextFile(f));
    } else {
      OpeningIsApart(paths, th);
    }
    CalmerIsWatched(u, before, c, paths, t, th, Advanced(s, t).threads[t]);
    StepIsWatched(u, before, c, s, t, Advanced(s, t));
  }

  lemma WalkIsWatched(u: Universe, before: set<string>, c: Calls, s: State, t: nat)
    requires Watched(u, before, c, s) && Enabled(s, Advance(t)) && Tidy(u, Advanced(s, t)) && Sound(Advanced(s, t))
    requires Top(s.threads[t]).at.Depending? && Top(s.threads[t]).at.left != []
    ensures Watched(u, before, c, Advanced(s, t))
  {
    var paths := Paths(s.files);
    var th := s.threads[t];
    var f := Top(th);
    var left := f.at.left;
    assert ThreadWatched(u, before, c, paths, t, th) && ThreadShape(th);
    assert FrameApart(paths, f) && FramePassed(paths, f);
    RegisteredIsPath(s);
    if Registered(s, left[0]) {
      var f' := f.(at := Depending(left[1..]));
      assert forall n :: HasOpen(f', n) ==> HasOpen(f, n);
      ReplaceKeepsApart(paths, th, f');
      OneMorePassed(paths, f);
      ReplaceKeepsPassed(paths, th, f');
      CalmerIsWatched(u, before, c, paths, t, th, Replace(th, f'));
    } else {
      WindowIsWatched(u, before, c, s, t);
    }
    StepIsWatched(u, before, c, s, t, Advanced(s, t));
  }

  lemma WindowIsWatched(u: Universe, before: set<string>, c: Calls, s: State, t: nat)
    requires Watched(u, before, c, s) && Busy(s, t) && Top(s.threads[t]).at.Depending?
    requires Top(s.threads[t]).at.left != [] && Top(s.threads[t]).at.left[0] !in Paths(s.files)
    ensures var f := Top(s.threads[t]).(at := Fetching(Top(s.threads[t]).at.left));
            ThreadWatched(u, before, c, Paths(s.files), t, Replace(s.threads[t], f))
  {
    var paths := Paths(s.files);
    var th := s.threads[t];
    var f := Top(th).(at := Fetching(Top(th).at.left));
    assert ThreadWatched(u, before, c, paths, t, th) && ThreadShape(th) && FramePassed(paths, Top(th));
    assert LeftOf(f.at) == LeftOf(Top(th).at);
    WindowThread(u, paths, th);
    ReplaceKeepsPassed(paths, th, f);
    var x := c[t];
    OwnFileIsTrue(u, s, t);
    forall n | SuspendedIn(Replace(th, f), n)
      ensures Exposes(u, before, x, n)
    {
      if HasOpen(Top(th), n) {
        WindowIsExposed(u, before, s.files, th, x, n);
      }
    }
  }

  /** A goroutine's own file is one of the universe as long as its call has it open. */
  lemma OwnFileIsTrue(u: Universe, s: State, t: nat)
    requires Tidy(u, s) && Busy(s, t) && Top(s.threads[t]).at.Depending? && |s.threads[t].batch| == 1
    ensures FromUniverse(u, s.threads[t].batch[0])
  {
    var th := s.threads[t];
    assert ThreadTidy(u, Paths(s.files), th) && ThreadShape(th);
    assert FrameTidy(u, Paths(s.files), th.batch, th.frames[0]) && FrameShape(th.frames[0]);
    assert th.frames[0].todo[0] in th.frames[0].done + th.frames[0].todo;
  }

  lemma RegisterIsWatched(u: Universe, before: set<string>, c: Calls, s: State, t: nat)
    requires Watched(u, before, c, s) && NoneMeet(u, before, c) && Enabled(s, Advance(t))
    requires Top(s.threads[t]).at == Depending([]) && Tidy(u, Advanced(s, t)) && Sound(Advanced(s, t))
    ensures Watched(u, before, c, Advanced(s, t))
  {
    var th := s.threads[t];
    var f := Top(th);
    var paths := Paths(s.files);
    assert ThreadWatched(u, before, c, paths, t, th) && ThreadShape(th) && FrameShape(f) && FrameApart(paths, f);
    assert HasOpen(f, f.todo[0].name);
    RegisteringStep(s, t);
    RegisteredIsPath(s);
    if exists d :: d in f.todo[0].dependency && !Registered(s, d) {
      assert false;
    } else {
      PathsOfAppend(s.files, f.todo[0]);
      forall a | a in s.threads
        ensures ThreadWatched(u, before, c, Paths(Advanced(s, t).files), a, Advanced(s, t).threads[a])
      {
        RegistrationIsWatched(u, before, c, s, t, a);
      }
    }
  }

  lemma RegistrationIsWatched(u: Universe, before: set<string>, c: Calls, s: State, t: nat, a: nat)
    requires Watched(u, before, c, s) && NoneMeet(u, before, c) && Enabled(s, Advance(t)) && a in s.threads
    requires Top(s.threads[t]).at == Depending([]) && Top(s.threads[t]).todo != []
    requires forall d :: d in Top(s.threads[t]).todo[0].dependency ==> d in Paths(s.files)
    requires Top(s.threads[t]).todo[0].name !in Paths(s.files)
    ensures var th := if a == t then Replace(s.threads[t], NextFile(Top(s.threads[t]))) else s.threads[a];
            ThreadWatched(u, before, c, Paths(s.files) + {Top(s.threads[t]).todo[0].name}, a, th)
  {
    var n := Top(s.threads[t]).todo[0].name;
    var more := Paths(s.files) + {n};
    var th := if a == t then Replace(s.threads[t], NextFile(Top(s.threads[t]))) else s.threads[a];
    assert ThreadWatched(u, before, c, Paths(s.files), a, s.threads[a]);
    RegistrationIsApart(u, before, c, s, t, a);
    GrowthKeepsPassed(Paths(s.files), more, s.threads[a]);
    if a == t {
      NextFileIsCalmer(s.threads[t]);
      ReplaceKeepsPassed(more, s.threads[t], NextFile(Top(s.threads[t])));
    }
  }

  /** A thread that has not got `n` open is untouched by the registration of it. */
  lemma OpensNoneIsApart(paths: set<string>, th: Thread, n: string)
    requires ThreadApart(paths, th) && forall i :: 0 <= i < |th.frames| ==> !HasOpen(th.frames[i], n)
    ensures ThreadApart(paths + {n}, th)
  {
    forall i | 0 <= i < |th.frames|
      ensures FrameApart(paths + {n}, th.frames[i])
    {
      assert FrameApart(paths, th.frames[i]);
    }
  }

  /** Nor is one that goes on to its next file, if no lower frame has it open. */
  lemma NextFileIsApart(paths: set<string>, th: Thread, n: string)
    requires th.frames != [] && Top(th).todo != [] && ThreadApart(paths, th)
    requires forall i :: 0 <= i < |th.frames| - 1 ==> !HasOpen(th.frames[i], n)
    ensures ThreadApart(paths + {n}, Replace(th, NextFile(Top(th))))
  {
    var th' := Replace(th, NextFile(Top(th)));
    forall i | 0 <= i < |th'.frames|
      ensures FrameApart(paths + {n}, th'.frames[i])
    {
      assert FrameApart(paths, th.frames[i]);
    }
  }

  lemma RegistrationIsApart(u: Universe, before: set<string>, c: Calls, s: State, t: nat, a: nat)
    requires Watched(u, before, c, s) && NoneMeet(u, before, c) && Enabled(s, Advance(t)) && a in s.threads
    requires Top(s.threads[t]).at == Depending([]) && Top(s.threads[t]).todo != []
    requires forall d :: d in Top(s.threads[t]).todo[0].dependency ==> d in Paths(s.files)
    requires Top(s.threads[t]).todo[0].name !in Paths(s.files)
    ensures var th := if a == t then Replace(s.threads[t], NextFile(Top(s.threads[t]))) else s.threads[a];
            ThreadApart(Paths(s.files) + {Top(s.threads[t]).todo[0].name}, th)
  {
    var th, n := s.threads[a], Top(s.threads[t]).todo[0].name;
    assert ThreadWatched(u, before, c, Paths(s.files), a, th);
    forall i | 0 <= i < |th.frames| && (a == t ==> i < |th.frames| - 1)
      ensures !HasOpen(th.frames[i], n)
    {
      NobodyElseHasItOpen(u, before, c, s, t, a, i);
    }
    if a == t {
      NextFileIsApart(Paths(s.files), th, n);
    } else {
      OpensNoneIsApart(Paths(s.files), th, n);
    }
  }

  /** The file being registered is open in no other call: there it would be suspended, and exposed to meet this one. */
  lemma NobodyElseHasItOpen(u: Universe, before: set<string>, c: Calls, s: State, t: nat, a: nat, i: nat)
    requires Watched(u, before, c, s) && NoneMeet(u, before, c) && Enabled(s, Advance(t)) && a in s.threads
    requires Top(s.threads[t]).at == Depending([]) && Top(s.threads[t]).todo != []
    requires forall d :: d in Top(s.threads[t]).todo[0].dependency ==> d in Paths(s.files)
    requires Top(s.threads[t]).todo[0].name !in Paths(s.files)
    requires i < |s.threads[a].frames| && (a == t ==> i < |s.threads[t].frames| - 1)
    ensures !HasOpen(s.threads[a].frames[i], Top(s.threads[t]).todo[0].name)
  {
    var n := Top(s.threads[t]).todo[0].name;
    if HasOpen(s.threads[a].frames[i], n) {
      if a == t {
        LowerFrameIsOther(u, s, t, i, n);
      } else {
        HolderSuspendsNothingOpen(s, t, a, i, n);
        SuspendedMeets(u, before, c, s, t, a, n);
        assert false;
      }
    }
  }

  lemma OpenIsReached(u: Universe, paths: set<string>, th: Thread, x: FileContents, n: string)
    requires ThreadTidy(u, paths, th) && th.frames != [] && th.batch == [x] && HasOpen(Top(th), n)
    ensures n in Reach(u, x.name)
  {
    OpenIsNeeded(u, paths, th, |th.frames| - 1, n);
  }

  /** Its own file is known for a call in progress, and what it has suspended is exposed. */
  lemma WatchedCall(u: Universe, before: set<string>, c: Calls, s: State, t: nat)
    requires Watched(u, before, c, s) && Busy(s, t)
    ensures t in c && s.threads[t].batch == [c[t]] && ThreadExposed(u, before, c[t], s.threads[t])
    ensures ThreadTidy(u, Paths(s.files), s.threads[t])
  {
    assert ThreadWatched(u, before, c, Paths(s.files), t, s.threads[t]);
  }

  /** A file that one goroutine has suspended and another has open makes their calls meet. */
  lemma SuspendedMeets(u: Universe, before: set<string>, c: Calls, s: State, t: nat, a: nat, n: string)
    requires Watched(u, before, c, s) && Busy(s, t) && Busy(s, a) && SuspendedIn(s.threads[a], n)
    requires HasOpen(Top(s.threads[t]), n)
    ensures t in c && a in c && MayMeet(u, before, c[a], c[t])
  {
    WatchedCall(u, before, c, s, t);
    WatchedCall(u, before, c, s, a);
    OpenIsReached(u, Paths(s.files), s.threads[t], c[t], n);
    assert Exposes(u, before, c[a], n);
  }

  lemma GoodStepIsWatched(u: Universe, before: set<string>, c: Calls, s: State, e: Event)
    requires Watched(u, before, c, s) && NoneMeet(u, before, c) && Enabled(s, e) && IsGood(u, c, s, e)
    ensures Watched(u, before, c, Next(s, e))
  {
    StepKeepsTidy(u, s, e);
    StepIsSound(s, e);
    if !e.Advance? {
      OtherStepIsWatched(u, before, c, s, e);
    } else {
      var th := s.threads[e.t];
      match Top(th).at {
        case Looking => LookIsWatched(u, before, c, s, e.t);
        case Depending(left) =>
          if left == [] {
            RegisterIsWatched(u, before, c, s, e.t);
          } else {
            WalkIsWatched(u, before, c, s, e.t);
          }
        case Failing(fault) =>
          FailureIsWatched(u, before, c, s, e.t);
      }
    }
  }

  lemma FailureIsWatched(u: Universe, before: set<string>, c: Calls, s: State, t: nat)
    requires Watched(u, before, c, s) && Enabled(s, Advance(t)) && Top(s.threads[t]).at.Failing?
    requires Tidy(u, Advanced(s, t)) && Sound(Advanced(s, t))
    ensures Watched(u, before, c, Advanced(s, t))
  {
    var paths := Paths(s.files);
    var th := s.threads[t];
    assert ThreadWatched(u, before, c, paths, t, th) && FrameApart(paths, Top(th)) && ThreadShape(th);
    ReturnKeepsApart(paths, th, Some(Top(th).at.fault));
    ReturnKeepsPassed(paths, th, Some(Top(th).at.fault));
    CalmerIsWatched(u, before, c, paths, t, th, Advanced(s, t).threads[t]);
    StepIsWatched(u, before, c, s, t, Advanced(s, t));
  }

  lemma InitialIsWatched(u: Universe, c: Calls, s: State)
    requires Initial(s) && Resolver.Authentic(u, s.files)
    ensures Watched(u, Paths(s.files), c, s)
  {
    InitialIsTidy(u, s);
    InitialIsSound(s);
  }

  /** Calls of which no two may meet never end in a duplicate, however often and in whatever order they are made. */
  lemma {:induction false} NoMeetingNoDuplicate(u: Universe, before: set<string>, c: Calls, s: State, es: seq<Event>)
    requires Watched(u, before, c, s) && NoneMeet(u, before, c) && IsRun(s, es) && RunIsGood(u, c, s, es)
    ensures forall t :: t in Run(s, es).threads ==> Run(s, es).threads[t].last != Some(Duplicate)
    decreases |es|
  {
    if es == [] {
      assert forall t :: t in s.threads ==> ThreadWatched(u, before, c, Paths(s.files), t, s.threads[t]);
    } else {
      GoodStepIsWatched(u, before, c, s, es[0]);
      NoMeetingNoDuplicate(u, before, c, Next(s, es[0]), es[1..]);
    }
  }
}
