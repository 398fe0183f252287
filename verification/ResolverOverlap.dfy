/**
 When calls that overlap cannot fail on each other's registrations: as long as none has released the
 lock over a file that another needs too.
 */
module ResolverOverlap {
  import opened Graphs
  import opened Descriptors
  import opened Registry
  import opened ResolverInterleaving
  import opened ResolverCalls
  import opened Wrappers
  import Resolver

  /** The file a call is about to register, between looking it up and registering it. */
  predicate HasOpen(f: Frame, n: string) {
    (f.at.Depending? || f.at.Fetching? || f.at.Relocking?) && f.todo != [] && f.todo[0].name == n
  }

  /** Its call has released the lock, or waits to get it back. */
  predicate Suspends(f: Frame, n: string) {
    HasOpen(f, n) && !f.at.Depending?
  }

  ghost predicate SuspendedIn(th: Thread, n: string) {
    exists i :: 0 <= i < |th.frames| && Suspends(th.frames[i], n)
  }

  ghost predicate ImportsIn(u: Universe, paths: set<string>, n: string) {
    n in u.files && forall d :: d in u.files[n].dependency ==> d in paths
  }

  /** Two calls may both need `n`: it is registered, or can be without a release of the lock. */
  ghost predicate Harmless(u: Universe, paths: set<string>, n: string, th: Thread) {
    n in paths || (ImportsIn(u, paths, n) && !SuspendedIn(th, n))
  }

  /** What is checked when a goroutine starts, against the calls in progress. */
  ghost predicate StartsApart(u: Universe, s: State, e: Event) {
    e.Start? ==>
      forall t, n :: Busy(s, t) && t != e.t && NeededBy(u, e.batch, n) && NeededBy(u, s.threads[t].batch, n) ==>
        Harmless(u, Paths(s.files), n, s.threads[t])
  }

  ghost predicate RunStartsApart(u: Universe, s: State, es: seq<Event>)
    decreases |es|
  {
    es == [] || (StartsApart(u, s, es[0]) && RunStartsApart(u, Next(s, es[0]), es[1..]))
  }

  /** A file that is open is not registered yet, and no failure is on its way for a file that was. */
  ghost predicate FrameApart(paths: set<string>, f: Frame) {
    && (forall n :: HasOpen(f, n) ==> n !in paths)
    && f.at != Failing(Duplicate) && (f.at.Relocking? ==> f.at.fetch != Some(Duplicate))
  }

  ghost predicate ThreadApart(paths: set<string>, th: Thread) {
    && (forall i :: 0 <= i < |th.frames| ==> FrameApart(paths, th.frames[i]))
    && th.last != Some(Duplicate)
  }

  ghost predicate PairApart(u: Universe, paths: set<string>, a: Thread, b: Thread) {
    a.frames != [] && b.frames != [] ==>
      forall n :: NeededBy(u, a.batch, n) && NeededBy(u, b.batch, n) ==> Harmless(u, paths, n, a)
  }

  ghost predicate Apart(u: Universe, s: State) {
    && Tidy(u, s)
    && (forall t :: t in s.threads ==> ThreadApart(Paths(s.files), s.threads[t]))
    && forall t, t' :: t in s.threads && t' in s.threads && t != t' ==>
         PairApart(u, Paths(s.files), s.threads[t], s.threads[t'])
  }

  /** The call that is under the lock does not suspend its file. */
  lemma HolderSuspendsNothingOpen(s: State, t: nat, t': nat, i: nat, n: string)
    requires Safe(s) && s.holder == Some(t) && t' != t && Busy(s, t') && i < |s.threads[t'].frames|
    requires HasOpen(s.threads[t'].frames[i], n)
    ensures SuspendedIn(s.threads[t'], n)
  {
    assert ThreadShape(s.threads[t']);
    assert Suspends(s.threads[t'].frames[i], n);
  }

  /** An open file is needed, and its imports are the universe's. */
  lemma OpenIsNeeded(u: Universe, paths: set<string>, th: Thread, i: nat, n: string)
    requires ThreadTidy(u, paths, th) && i < |th.frames| && HasOpen(th.frames[i], n)
    ensures NeededBy(u, th.batch, n) && n in u.files && u.files[n] == th.frames[i].todo[0]
  {
    assert FrameTidy(u, paths, th.batch, th.frames[i]);
  }

  /** A file that is open under the lock is open in no other goroutine, where it would be suspended. */
  lemma OpenUnderLockIsOwn(u: Universe, s: State, t: nat, t': nat, i: nat, n: string)
    requires Apart(u, s) && Enabled(s, Advance(t)) && HasOpen(Top(s.threads[t]), n)
    requires t' in s.threads && t' != t && i < |s.threads[t'].frames|
    ensures !HasOpen(s.threads[t'].frames[i], n)
  {
    if HasOpen(s.threads[t'].frames[i], n) {
      var paths := Paths(s.files);
      HolderSuspendsNothingOpen(s, t, t', i, n);
      OpenIsNeeded(u, paths, s.threads[t], |s.threads[t].frames| - 1, n);
      OpenIsNeeded(u, paths, s.threads[t'], i, n);
      SharedIsHarmless(u, s, t', t, n);
      OpenIsUnregistered(u, s, t, n);
      assert false;
    }
  }

  lemma SharedIsHarmless(u: Universe, s: State, a: nat, b: nat, n: string)
    requires Apart(u, s) && Busy(s, a) && Busy(s, b) && a != b
    requires NeededBy(u, s.threads[a].batch, n) && NeededBy(u, s.threads[b].batch, n)
    ensures Harmless(u, Paths(s.files), n, s.threads[a])
  {
    assert PairApart(u, Paths(s.files), s.threads[a], s.threads[b]);
  }

  lemma OpenIsUnregistered(u: Universe, s: State, t: nat, n: string)
    requires Apart(u, s) && Busy(s, t) && HasOpen(Top(s.threads[t]), n)
    ensures n !in Paths(s.files)
  {
    assert ThreadApart(Paths(s.files), s.threads[t]);
    assert FrameApart(Paths(s.files), s.threads[t].frames[|s.threads[t].frames| - 1]);
  }

  /** The file registered by `t` is open in no other call, of its own or of another goroutine. */
  lemma RegisteredFileIsNotOpen(u: Universe, s: State, t: nat, t': nat, i: nat)
    requires Apart(u, s) && Enabled(s, Advance(t))
    requires Top(s.threads[t]).at == Depending([]) && Top(s.threads[t]).todo != []
    requires forall d :: d in Top(s.threads[t]).todo[0].dependency ==> d in Paths(s.files)
    requires Top(s.threads[t]).todo[0].name !in Paths(s.files)
    requires t' in s.threads && i < |s.threads[t'].frames| && (t' == t ==> i < |s.threads[t].frames| - 1)
    ensures !HasOpen(s.threads[t'].frames[i], Top(s.threads[t]).todo[0].name)
  {
    var n := Top(s.threads[t]).todo[0].name;
    if HasOpen(s.threads[t'].frames[i], n) {
      if t' != t {
        OpenUnderLockIsOwn(u, s, t, t', i, n);
      } else {
        LowerFrameIsOther(u, s, t, i, n);
      }
    }
  }

  /** A file open twice in one goroutine is on a cycle, and its imports cannot all be registered before it. */
  lemma LowerFrameIsOther(u: Universe, s: State, t: nat, i: nat, n: string)
    requires Tidy(u, s) && Busy(s, t) && i < |s.threads[t].frames| - 1
    requires HasOpen(Top(s.threads[t]), n) && HasOpen(s.threads[t].frames[i], n)
    requires forall d :: d in Top(s.threads[t]).todo[0].dependency ==> d in Paths(s.files)
    ensures n in Paths(s.files)
  {
    var th := s.threads[t];
    var k := |th.frames| - 1;
    assert ThreadTidy(u, Paths(s.files), th) && ThreadShape(th);
    assert FrameTidy(u, Paths(s.files), th.batch, th.frames[i]) && FrameShape(th.frames[i]);
    OpenIsNeeded(u, Paths(s.files), th, i, n);
    OpenIsNeeded(u, Paths(s.files), th, k, n);
    var d := th.frames[i].at.left[0];
    assert d in LeftOf(th.frames[i].at);
    assert Under(u, th.frames[i], th.frames[k]);
    Resolver.RegistryIsClosed(u, s.files);
    ClosedContainsReachable(Imports(u), Paths(s.files), d);
  }

  lemma MoreIsHarmless(u: Universe, paths: set<string>, more: set<string>, a: Thread, b: Thread)
    requires paths <= more && PairApart(u, paths, a, b)
    ensures PairApart(u, more, a, b)
  {
  }

  /** `th'` comes from `th` without suspending anything new. */
  ghost predicate Calmer(th: Thread, th': Thread) {
    && th'.batch == th.batch && (th'.frames != [] ==> th.frames != [])
    && forall n :: SuspendedIn(th', n) ==> SuspendedIn(th, n)
  }

  lemma CalmerKeepsPairs(u: Universe, paths: set<string>, th: Thread, th': Thread, other: Thread)
    requires Calmer(th, th') && PairApart(u, paths, th, other) && PairApart(u, paths, other, th)
    ensures PairApart(u, paths, th', other) && PairApart(u, paths, other, th')
  {
  }

  lemma ReplaceKeepsApart(paths: set<string>, th: Thread, f: Frame)
    requires th.frames != [] && ThreadApart(paths, th) && FrameApart(paths, f)
    requires forall n :: Suspends(f, n) ==> Suspends(Top(th), n)
    ensures ThreadApart(paths, Replace(th, f)) && Calmer(th, Replace(th, f))
  {
    var th' := Replace(th, f);
    forall n | SuspendedIn(th', n)
      ensures SuspendedIn(th, n)
    {
      var i :| 0 <= i < |th'.frames| && Suspends(th'.frames[i], n);
      assert Suspends(th.frames[i], n);
    }
  }

  lemma ReturnKeepsApart(paths: set<string>, th: Thread, fault: Option<Fault>)
    requires th.frames != [] && ThreadApart(paths, th) && ThreadShape(th) && fault != Some(Duplicate)
    ensures ThreadApart(paths, Return(th, fault)) && Calmer(th, Return(th, fault))
  {
    var th' := Return(th, fault);
    if |th.frames| > 1 {
      var k := |th.frames| - 2;
      assert th.frames[..k + 1][k] == th.frames[k] && th.frames[k].at.Fetching?;
      var caller := th.frames[k].(at := Relocking(th.frames[k].at.left, fault));
      assert th'.frames == th.frames[..k + 1][k := caller];
      assert FrameApart(paths, th.frames[k]) && forall n :: HasOpen(caller, n) ==> HasOpen(th.frames[k], n);
      forall n | SuspendedIn(th', n)
        ensures SuspendedIn(th, n)
      {
        var i :| 0 <= i < |th'.frames| && Suspends(th'.frames[i], n);
        assert Suspends(th.frames[i], n);
      }
    }
  }

  lemma PushKeepsApart(paths: set<string>, th: Thread, answer: seq<FileContents>)
    requires th.frames != [] && ThreadApart(paths, th)
    ensures var th' := th.(frames := th.frames + [Frame([], answer, Entering)]);
            ThreadApart(paths, th') && Calmer(th, th')
  {
    var th' := th.(frames := th.frames + [Frame([], answer, Entering)]);
    forall n | SuspendedIn(th', n)
      ensures SuspendedIn(th, n)
    {
      var i :| 0 <= i < |th'.frames| && Suspends(th'.frames[i], n);
      assert Suspends(th.frames[i], n);
    }
  }

  /** A step of `t` that registers nothing and suspends nothing new. */
  lemma CalmStepKeepsApart(u: Universe, s: State, t: nat, s': State)
    requires Apart(u, s) && Tidy(u, s') && t in s.threads && t in s'.threads
    requires s'.files == s.files && s'.threads == s.threads[t := s'.threads[t]]
    requires ThreadApart(Paths(s.files), s'.threads[t]) && Calmer(s.threads[t], s'.threads[t])
    ensures Apart(u, s')
  {
    var paths := Paths(s.files);
    forall a, b | a in s'.threads && b in s'.threads && a != b
      ensures PairApart(u, paths, s'.threads[a], s'.threads[b])
    {
      assert PairApart(u, paths, s.threads[a], s.threads[b]) && PairApart(u, paths, s.threads[b], s.threads[a]);
      if a == t {
        CalmerKeepsPairs(u, paths, s.threads[t], s'.threads[t], s.threads[b]);
      } else if b == t {
        CalmerKeepsPairs(u, paths, s.threads[t], s'.threads[t], s.threads[a]);
      }
    }
  }

  lemma NewPair(u: Universe, paths: set<string>, other: Thread, last: Option<Fault>, batch: seq<FileContents>)
    requires forall n :: NeededBy(u, batch, n) && NeededBy(u, other.batch, n) ==> Harmless(u, paths, n, other)
    ensures var th := Thread([Frame([], batch, Entering)], last, batch);
            PairApart(u, paths, other, th) && PairApart(u, paths, th, other)
  {
  }

  lemma StartKeepsApart(u: Universe, s: State, e: Event)
    requires Apart(u, s) && Enabled(s, e) && e.Start? && StartsApart(u, s, e) && Tidy(u, Next(s, e))
    ensures Apart(u, Next(s, e))
  {
    var paths := Paths(s.files);
    var s' := Next(s, e);
    assert ThreadApart(paths, s.threads[e.t]) && s'.files == s.files;
    assert ThreadApart(paths, s'.threads[e.t]);
    forall a | a in s.threads && a != e.t
      ensures PairApart(u, paths, s'.threads[a], s'.threads[e.t]) && PairApart(u, paths, s'.threads[e.t], s'.threads[a])
    {
      assert s'.threads[e.t] == Thread([Frame([], e.batch, Entering)], s.threads[e.t].last, e.batch);
      if Busy(s, a) {
        NewPair(u, paths, s.threads[a], s.threads[e.t].last, e.batch);
      }
    }
    forall a, b | a in s'.threads && b in s'.threads && a != b
      ensures PairApart(u, paths, s'.threads[a], s'.threads[b])
    {
      assert PairApart(u, paths, s.threads[a], s.threads[b]);
    }
  }

  lemma LockKeepsApart(paths: set<string>, th: Thread)
    requires th.frames != [] && ThreadApart(paths, th) && (Top(th).at.Entering? || Top(th).at.Relocking?)
    ensures ThreadApart(paths, Replace(th, AfterLock(Top(th)))) && Calmer(th, Replace(th, AfterLock(Top(th))))
  {
    var f := Top(th);
    assert FrameApart(paths, f) && forall n :: HasOpen(AfterLock(f), n) ==> HasOpen(f, n);
    ReplaceKeepsApart(paths, th, AfterLock(f));
  }

  lemma FailKeepsApart(paths: set<string>, th: Thread, fault: Fault)
    requires th.frames != [] && ThreadApart(paths, th) && fault != Duplicate
    ensures ThreadApart(paths, Replace(th, Top(th).(at := Failing(fault))))
    ensures Calmer(th, Replace(th, Top(th).(at := Failing(fault))))
  {
    ReplaceKeepsApart(paths, th, Top(th).(at := Failing(fault)));
  }

  lemma FailedFetchKeepsApart(paths: set<string>, th: Thread)
    requires th.frames != [] && ThreadApart(paths, th) && Top(th).at.Fetching?
    ensures var f := Top(th).(at := Relocking(Top(th).at.left, Some(Network)));
            ThreadApart(paths, Replace(th, f)) && Calmer(th, Replace(th, f))
  {
    var f := Top(th).(at := Relocking(Top(th).at.left, Some(Network)));
    assert FrameApart(paths, Top(th)) && forall n :: HasOpen(f, n) ==> HasOpen(Top(th), n);
    ReplaceKeepsApart(paths, th, f);
  }

  lemma OtherStepKeepsApart(u: Universe, s: State, e: Event)
    requires Apart(u, s) && Enabled(s, e) && !e.Start? && !e.Advance? && Tidy(u, Next(s, e))
    ensures Apart(u, Next(s, e))
  {
    var paths := Paths(s.files);
    var th := s.threads[e.t];
    assert ThreadApart(paths, th);
    match e {
      case Lock(t) => LockKeepsApart(paths, th);
      case Refuse(t) => FailKeepsApart(paths, th, Refusal);
      case Reply(t, None) => FailedFetchKeepsApart(paths, th);
      case Reply(t, Some(answer)) => PushKeepsApart(paths, th, answer);
    }
    CalmStepKeepsApart(u, s, e.t, Next(s, e));
  }

  lemma LookKeepsApart(u: Universe, s: State, t: nat)
    requires Apart(u, s) && Enabled(s, Advance(t)) && Top(s.threads[t]).at.Looking? && Tidy(u, Advanced(s, t))
    ensures Apart(u, Advanced(s, t))
  {
    var th := s.threads[t];
    var f := Top(th);
    assert ThreadApart(Paths(s.files), th) && ThreadShape(th);
    RegisteredIsPath(s);
    if f.todo == [] {
      ReturnKeepsApart(Paths(s.files), th, None);
    } else if Registered(s, f.todo[0].name) {
      ReplaceKeepsApart(Paths(s.files), th, NextFile(f));
    } else {
      ReplaceKeepsApart(Paths(s.files), th, f.(at := Depending(f.todo[0].dependency)));
    }
    CalmStepKeepsApart(u, s, t, Advanced(s, t));
  }

  /** Whoever opens a window over a file does not share it. */
  lemma WindowKeepsApart(u: Universe, s: State, t: nat)
    requires Apart(u, s) && Enabled(s, Advance(t)) && Top(s.threads[t]).at.Depending? && Top(s.threads[t]).at.left != []
    requires Tidy(u, Advanced(s, t))
    ensures Apart(u, Advanced(s, t))
  {
    var th := s.threads[t];
    var f := Top(th);
    var left := f.at.left;
    var paths := Paths(s.files);
    assert ThreadApart(paths, th) && ThreadShape(th) && FrameShape(f) && FrameApart(paths, f);
    RegisteredIsPath(s);
    if Registered(s, left[0]) {
      var f' := f.(at := Depending(left[1..]));
      assert forall n :: HasOpen(f', n) ==> HasOpen(f, n);
      ReplaceKeepsApart(paths, th, f');
      CalmStepKeepsApart(u, s, t, Advanced(s, t));
    } else {
      var f' := f.(at := Fetching(left));
      assert forall n :: HasOpen(f', n) ==> HasOpen(f, n);
      WindowThread(u, paths, th);
      WindowPairs(u, s, t);
    }
  }

  lemma WindowThread(u: Universe, paths: set<string>, th: Thread)
    requires th.frames != [] && ThreadApart(paths, th) && Top(th).at.Depending?
    ensures var f := Top(th).(at := Fetching(Top(th).at.left));
            ThreadApart(paths, Replace(th, f))
            && forall n :: SuspendedIn(Replace(th, f), n) ==> SuspendedIn(th, n) || HasOpen(Top(th), n)
  {
    var f := Top(th).(at := Fetching(Top(th).at.left));
    assert FrameApart(paths, Top(th)) && forall n :: HasOpen(f, n) ==> HasOpen(Top(th), n);
    forall n | SuspendedIn(Replace(th, f), n)
      ensures SuspendedIn(th, n) || HasOpen(Top(th), n)
    {
      var i :| 0 <= i < |th.frames| && Suspends(Replace(th, f).frames[i], n);
      if i < |th.frames| - 1 {
        assert Suspends(th.frames[i], n);
      }
    }
  }

  /** A window over a file with a missing import: whoever shares that file would have it harmless. */
  lemma WindowPair(u: Universe, paths: set<string>, th: Thread, other: Thread)
    requires th.frames != [] && ThreadTidy(u, paths, th) && ThreadApart(paths, th) && Top(th).at.Depending?
    requires Top(th).at.left != [] && Top(th).at.left[0] !in paths && PairApart(u, paths, th, other)
    ensures PairApart(u, paths, Replace(th, Top(th).(at := Fetching(Top(th).at.left))), other)
  {
    var f := Top(th);
    var th' := Replace(th, f.(at := Fetching(f.at.left)));
    assert FrameTidy(u, paths, th.batch, f) && f.at.left[0] in LeftOf(f.at) && FrameApart(paths, f);
    WindowThread(u, paths, th);
    forall n | other.frames != [] && NeededBy(u, th.batch, n) && NeededBy(u, other.batch, n)
      ensures Harmless(u, paths, n, th')
    {
      assert Harmless(u, paths, n, th);
      if HasOpen(f, n) {
        OpenIsNeeded(u, paths, th, |th.frames| - 1, n);
      }
    }
  }

  lemma WindowPairs(u: Universe, s: State, t: nat)
    requires Apart(u, s) && Enabled(s, Advance(t)) && Top(s.threads[t]).at.Depending? && Tidy(u, Advanced(s, t))
    requires var left := Top(s.threads[t]).at.left; left != [] && left[0] !in Paths(s.files)
    ensures Apart(u, Advanced(s, t))
  {
    var paths := Paths(s.files);
    var th := s.threads[t];
    var f := Top(th);
    var s' := Advanced(s, t);
    RegisteredIsPath(s);
    assert ThreadTidy(u, paths, th) && ThreadApart(paths, th);
    WindowThread(u, paths, th);
    assert s'.threads == s.threads[t := Replace(th, f.(at := Fetching(f.at.left)))];
    forall a, b | a in s'.threads && b in s'.threads && a != b
      ensures PairApart(u, paths, s'.threads[a], s'.threads[b])
    {
      assert PairApart(u, paths, s.threads[a], s.threads[b]);
      if a == t {
        WindowPair(u, paths, th, s.threads[b]);
      }
    }
  }

  lemma RegisterKeepsApart(u: Universe, s: State, t: nat)
    requires Apart(u, s) && Enabled(s, Advance(t)) && Top(s.threads[t]).at == Depending([]) && Tidy(u, Advanced(s, t))
    ensures Apart(u, Advanced(s, t))
  {
    var th := s.threads[t];
    var f := Top(th);
    var paths := Paths(s.files);
    assert ThreadApart(paths, th) && ThreadShape(th) && FrameShape(f) && FrameApart(paths, f);
    assert HasOpen(f, f.todo[0].name);
    RegisteredIsPath(s);
    if exists d :: d in f.todo[0].dependency && !Registered(s, d) {
      FailKeepsApart(paths, th, MissingImport);
      CalmStepKeepsApart(u, s, t, Advanced(s, t));
    } else {
      RegistrationKeepsApart(u, s, t);
    }
  }

  lemma RegistrationKeepsApart(u: Universe, s: State, t: nat)
    requires Apart(u, s) && Enabled(s, Advance(t))
    requires Top(s.threads[t]).at == Depending([]) && Top(s.threads[t]).todo != []
    requires forall d :: d in Top(s.threads[t]).todo[0].dependency ==> d in Paths(s.files)
    requires Top(s.threads[t]).todo[0].name !in Paths(s.files)
    requires var s' := Advanced(s, t);
             && s'.files == s.files + [Top(s.threads[t]).todo[0]] && Tidy(u, s')
             && s'.threads == s.threads[t := Replace(s.threads[t], NextFile(Top(s.threads[t])))]
    ensures Apart(u, Advanced(s, t))
  {
    var s' := Advanced(s, t);
    var x := Top(s.threads[t]).todo[0];
    PathsOfAppend(s.files, x);
    forall a | a in s'.threads
      ensures ThreadApart(Paths(s'.files), s'.threads[a])
    {
      RegistrationKeepsThread(u, s, t, a);
    }
    var th' := s'.threads[t];
    NextFileIsCalmer(s.threads[t]);
    forall a, b | a in s'.threads && b in s'.threads && a != b
      ensures PairApart(u, Paths(s'.files), s'.threads[a], s'.threads[b])
    {
      assert PairApart(u, Paths(s.files), s.threads[a], s.threads[b]);
      assert PairApart(u, Paths(s.files), s.threads[b], s.threads[a]);
      if a == t {
        CalmerKeepsPairs(u, Paths(s.files), s.threads[t], th', s.threads[b]);
      } else if b == t {
        CalmerKeepsPairs(u, Paths(s.files), s.threads[t], th', s.threads[a]);
      }
      MoreIsHarmless(u, Paths(s.files), Paths(s'.files), s'.threads[a], s'.threads[b]);
    }
  }

  lemma NextFileIsCalmer(th: Thread)
    requires th.frames != [] && Top(th).todo != []
    ensures Calmer(th, Replace(th, NextFile(Top(th))))
  {
    var th' := Replace(th, NextFile(Top(th)));
    forall n | SuspendedIn(th', n)
      ensures SuspendedIn(th, n)
    {
      var i :| 0 <= i < |th'.frames| && Suspends(th'.frames[i], n);
      assert Suspends(th.frames[i], n);
    }
  }

  lemma RegistrationKeepsThread(u: Universe, s: State, t: nat, a: nat)
    requires Apart(u, s) && Enabled(s, Advance(t))
    requires Top(s.threads[t]).at == Depending([]) && Top(s.threads[t]).todo != []
    requires forall d :: d in Top(s.threads[t]).todo[0].dependency ==> d in Paths(s.files)
    requires a in s.threads && Top(s.threads[t]).todo[0].name !in Paths(s.files)
    ensures var th := if a == t then Replace(s.threads[t], NextFile(Top(s.threads[t]))) else s.threads[a];
            ThreadApart(Paths(s.files) + {Top(s.threads[t]).todo[0].name}, th)
  {
    var th := if a == t then Replace(s.threads[t], NextFile(Top(s.threads[t]))) else s.threads[a];
    var paths := Paths(s.files) + {Top(s.threads[t]).todo[0].name};
    assert ThreadApart(Paths(s.files), s.threads[a]);
    forall i | 0 <= i < |th.frames|
      ensures FrameApart(paths, th.frames[i])
    {
      assert FrameApart(Paths(s.files), s.threads[a].frames[i]);
      if a != t || i < |th.frames| - 1 {
        RegisteredFileIsNotOpen(u, s, t, a, i);
      }
    }
  }

  lemma StepKeepsApart(u: Universe, s: State, e: Event)
    requires Apart(u, s) && Enabled(s, e) && IsGenuine(u, s, e) && StartsApart(u, s, e)
    ensures Apart(u, Next(s, e))
  {
    StepKeepsTidy(u, s, e);
    if e.Start? {
      StartKeepsApart(u, s, e);
    } else if !e.Advance? {
      OtherStepKeepsApart(u, s, e);
    } else {
      var th := s.threads[e.t];
      match Top(th).at {
        case Looking => LookKeepsApart(u, s, e.t);
        case Depending(left) =>
          if left == [] {
            RegisterKeepsApart(u, s, e.t);
          } else {
            WindowKeepsApart(u, s, e.t);
          }
        case Failing(fault) =>
          assert ThreadApart(Paths(s.files), th) && FrameApart(Paths(s.files), Top(th)) && ThreadShape(th);
          ReturnKeepsApart(Paths(s.files), th, Some(fault));
          CalmStepKeepsApart(u, s, e.t, Next(s, e));
      }
    }
  }

  lemma InitialIsApart(u: Universe, s: State)
    requires Initial(s) && Resolver.Authentic(u, s.files)
    ensures Apart(u, s)
  {
    InitialIsTidy(u, s);
  }

  /**
   If, whenever a goroutine starts, what it shares with a call in progress is registered, or has its
   imports registered and is not suspended there, then no call ever ends in a duplicate.
   */
  lemma {:induction false} NoCallEndsInDuplicate(u: Universe, s: State, es: seq<Event>)
    requires Apart(u, s) && IsRun(s, es) && RunIsGenuine(u, s, es) && RunStartsApart(u, s, es)
    ensures Apart(u, Run(s, es))
    ensures forall t :: t in Run(s, es).threads ==> Run(s, es).threads[t].last != Some(Duplicate)
    decreases |es|
  {
    if es == [] {
      assert forall t :: t in s.threads ==> ThreadApart(Paths(s.files), s.threads[t]);
    } else {
      StepKeepsApart(u, s, es[0]);
      NoCallEndsInDuplicate(u, Next(s, es[0]), es[1..]);
    }
  }

  /** No goroutine starts while another is busy. */
  ghost predicate OneAtATime(s: State, es: seq<Event>)
    decreases |es|
  {
    es == [] || ((es[0].Start? ==> forall t :: t != es[0].t ==> !Busy(s, t)) && OneAtATime(Next(s, es[0]), es[1..]))
  }

  /** In particular a goroutine that is alone never meets a duplicate, whatever the imports. */
  lemma {:induction false} AloneIsApart(u: Universe, s: State, es: seq<Event>)
    requires OneAtATime(s, es)
    ensures RunStartsApart(u, s, es)
    decreases |es|
  {
    if es != [] {
      AloneIsApart(u, Next(s, es[0]), es[1..]);
    }
  }
}
