/** The call stack is bounded off the import cycles, and on them it is not. */
module ResolverCycle {
  import opened Graphs
  import opened Descriptors
  import opened Registry
  import opened ResolverInterleaving
  import opened ResolverCalls
  import opened ResolverRuns
  import opened Wrappers
  import Resolver

  /** A file that reaches a cycle imports one that does. */
  lemma DoomedImport(u: Universe, y: FileContents) returns (d: string)
    requires FromUniverse(u, y) && !ReachesNoCycle(Imports(u), y.name)
    ensures d in y.dependency && !ReachesNoCycle(Imports(u), d)
  {
    var g := Imports(u);
    var n :| CycleAt(g, y.name, n);
    var p :| Joins(g, p, y.name, n);
    if |p| > 1 {
      PathTail(g, p);
      d := p[1];
      assert Joins(g, p[1..], d, n) && CycleAt(g, d, n);
    } else {
      var c :| Joins(g, c, n, n) && |c| >= 2;
      PathTail(g, c);
      d := c[1];
      assert Joins(g, c[1..], d, n) && CycleAt(g, d, n);
    }
  }

  /** `t` is about to begin a call for a file that reaches a cycle, with `depth` calls below it. */
  ghost predicate IsDeep(u: Universe, s: State, t: nat, depth: nat) {
    && s.holder.None? && Suited(u, s.files) && t in s.threads && |s.threads[t].frames| == depth + 1
    && exists y :: Doomed(u, y) && Top(s.threads[t]) == Frame([], [y], Entering)
  }

  ghost predicate Doomed(u: Universe, y: FileContents) {
    FromUniverse(u, y) && !ReachesNoCycle(Imports(u), y.name)
  }

  /** Imports off the cycles are brought in; at the first that reaches one, the next call begins. */
  lemma WalksDeeper(u: Universe, c: Calls, start: State, s: State, t: nat, below: seq<Frame>, y: FileContents,
    left: seq<string>)
    returns (s': State)
    requires Leads(u, c, start, s) && s.holder == Some(t) && InFrame(s, t, below, Frame([], [y], Depending(left)))
    requires Suited(u, s.files) && Doomed(u, y) && forall d :: d in left ==> d in y.dependency
    requires exists d :: d in left && !ReachesNoCycle(Imports(u), d)
    ensures Leads(u, c, start, s') && IsDeep(u, s', t, |below| + 1)
    decreases |left|
  {
    RegisteredIsPath(s);
    var f := Frame([], [y], Depending(left));
    GoWalk(u, c, start, s, t, below, f, left);
    if Registered(s, left[0]) {
      Resolver.RegisteredMeansNoCycle(u, s.files, left[0]);
      var a := Moved(s, s.holder, t, below, Frame([], [y], Depending(left[1..])));
      s' := WalksDeeper(u, c, start, a, t, below, y, left[1..]);
    } else {
      var a := Moved(s, None, t, below, Frame([], [y], Fetching(left)));
      assert Edge(Imports(u), y.name, left[0]) && left[0] in u.files;
      if ReachesNoCycle(Imports(u), left[0]) {
        var g := Frame([], [y], Looking);
        assert g.(at := Fetching(left)) == Frame([], [y], Fetching(left));
        var b := FetchCompletes(u, c, start, a, t, below, g, left);
        s' := WalksDeeper(u, c, start, b, t, below, y, left[1..]);
      } else {
        var f' := Frame([], [y], Fetching(left));
        GoReply(u, c, start, a, t, below, f', u.files[left[0]]);
        s' := Moved(a, None, t, below + [f'], Frame([], [u.files[left[0]]], Entering));
        assert Doomed(u, u.files[left[0]]);
      }
    }
  }

  lemma GoesDeeper(u: Universe, c: Calls, start: State, s: State, t: nat, depth: nat) returns (s': State)
    requires Leads(u, c, start, s) && IsDeep(u, s, t, depth)
    ensures Leads(u, c, start, s') && IsDeep(u, s', t, depth + 1)
  {
    var y :| Doomed(u, y) && Top(s.threads[t]) == Frame([], [y], Entering);
    var below := s.threads[t].frames[..depth];
    assert s.threads[t].frames == below + [Frame([], [y], Entering)];
    GoLock(u, c, start, s, t, below, Frame([], [y], Entering));
    var a := Moved(s, Some(t), t, below, Frame([], [y], Looking));
    RegisteredIsPath(a);
    if y.name in Paths(s.files) {
      Resolver.RegisteredMeansNoCycle(u, s.files, y.name);
      assert false;
    }
    GoLook(u, c, start, a, t, below, Frame([], [y], Looking));
    var d := DoomedImport(u, y);
    var b := Moved(a, Some(t), t, below, Frame([], [y], Depending(y.dependency)));
    s' := WalksDeeper(u, c, start, b, t, below, y, y.dependency);
  }

  /** On any file that reaches an import cycle, a goroutine with true and complete answers can be at any depth. */
  lemma {:induction false} RecursionIsUnbounded(u: Universe, c: Calls, s: State, t: nat, depth: nat)
    requires Initial(s) && Suited(u, s.files) && t in s.threads && t in c && Doomed(u, c[t])
    ensures exists s' :: Leads(u, c, s, s') && IsDeep(u, s', t, depth)
  {
    LeadsToItself(u, c, s);
    OneMore(u, c, s, s, Start(t, [c[t]]));
    var s' := Next(s, Start(t, [c[t]]));
    for k := 0 to depth
      invariant Leads(u, c, s, s') && IsDeep(u, s', t, k)
    {
      s' := GoesDeeper(u, c, s, s', t, k);
    }
  }

  /** The imports being fetched, from the outermost call inwards, reach less and less. */
  lemma {:induction false} StackDescends(u: Universe, paths: set<string>, th: Thread, k: nat)
    requires ThreadTidy(u, paths, th) && ThreadShape(th) && k < |th.frames| - 1
    requires forall b :: b in th.batch ==> ReachesNoCycle(Imports(u), b.name)
    ensures |Reach(u, th.frames[k].at.left[0])| + k <= |Reach(u, th.frames[0].at.left[0])|
    decreases k
  {
    if k > 0 {
      StackDescends(u, paths, th, k - 1);
      var caller, f := th.frames[k - 1], th.frames[k];
      assert FrameTidy(u, paths, th.batch, f) && FrameShape(f) && FrameShape(caller) && Under(u, caller, f);
      var y, d := f.todo[0], f.at.left[0];
      assert d in LeftOf(f.at) && y in f.todo;
      var b :| b in th.batch && Reaches(Imports(u), b.name, y.name);
      NoCycleBelow(Imports(u), b.name, y.name);
      ImportReachesLess(u, y, d);
      ReachNests(u, caller.at.left[0], y.name);
      SmallerSet(Reach(u, d), Reach(u, caller.at.left[0]));
    }
  }

  lemma ReachNests(u: Universe, a: string, b: string)
    requires Reaches(Imports(u), a, b)
    ensures Reach(u, b) <= Reach(u, a)
  {
    forall n | n in Reach(u, b)
      ensures n in Reach(u, a)
    {
      ReachesTransitive(Imports(u), a, b, n);
    }
  }

  lemma SmallerSet(a: set<string>, b: set<string>)
    requires a < b
    ensures |a| < |b|
  {
    var x :| x in b && x !in a;
    assert a <= b - {x};
    SubsetSize(a, b - {x});
  }

  lemma {:induction false} SubsetSize(a: set<string>, b: set<string>)
    requires a <= b
    ensures |a| <= |b|
    decreases |a|
  {
    if a != {} {
      var x :| x in a;
      SubsetSize(a - {x}, b - {x});
    }
  }

  /** A call that needs no file on a cycle never nests deeper than there are files. */
  lemma DepthIsBounded(u: Universe, s: State, t: nat)
    requires Tidy(u, s) && Busy(s, t) && forall b :: b in s.threads[t].batch ==> ReachesNoCycle(Imports(u), b.name)
    ensures |s.threads[t].frames| <= |u.files| + 2
  {
    var th := s.threads[t];
    assert ThreadTidy(u, Paths(s.files), th) && ThreadShape(th);
    if |th.frames| > 1 {
      StackDescends(u, Paths(s.files), th, |th.frames| - 2);
      SubsetSize(Reach(u, th.frames[0].at.left[0]), u.files.Keys);
    }
  }

  /** The calls of `t` nest no deeper than this, in any run with true and complete answers. */
  ghost predicate StaysWithin(u: Universe, c: Calls, s: State, t: nat, bound: nat) {
    forall s' :: Leads(u, c, s, s') && Busy(s', t) ==> |s'.threads[t].frames| <= bound
  }

  /** The recursion of a goroutine is bounded exactly if its file reaches no import cycle. */
  lemma BoundedIffNoCycle(u: Universe, c: Calls, s: State, t: nat)
    requires Initial(s) && Suited(u, s.files) && t in s.threads && t in c && FromUniverse(u, c[t])
    ensures (exists bound :: StaysWithin(u, c, s, t, bound)) <==> ReachesNoCycle(Imports(u), c[t].name)
  {
    if ReachesNoCycle(Imports(u), c[t].name) {
      forall s' | Leads(u, c, s, s') && Busy(s', t)
        ensures |s'.threads[t].frames| <= |u.files| + 2
      {
        var es :| IsRun(s, es) && RunIsGood(u, c, s, es) && Run(s, es) == s';
        InitialIsTidy(u, s);
        GoodRunIsTidy(u, c, s, es);
        DepthIsBounded(u, s', t);
      }
      assert StaysWithin(u, c, s, t, |u.files| + 2);
    } else if bound :| StaysWithin(u, c, s, t, bound) {
      RecursionIsUnbounded(u, c, s, t, bound);
    }
  }

  /** In such a run every call is for the goroutine's own file. */
  lemma {:induction false} GoodRunIsTidy(u: Universe, c: Calls, s: State, es: seq<Event>)
    requires Tidy(u, s) && IsRun(s, es) && RunIsGood(u, c, s, es)
    requires forall t :: Busy(s, t) ==> t in c && s.threads[t].batch == [c[t]]
    ensures Tidy(u, Run(s, es))
    ensures forall t :: Busy(Run(s, es), t) ==> t in c && Run(s, es).threads[t].batch == [c[t]]
    decreases |es|
  {
    if es != [] {
      StepKeepsTidy(u, s, es[0]);
      StepKeepsBatches(c, s, es[0]);
      GoodRunIsTidy(u, c, Next(s, es[0]), es[1..]);
    }
  }

  lemma StepKeepsBatches(c: Calls, s: State, e: Event)
    requires Enabled(s, e) && (e.Start? ==> e.t in c && e.batch == [c[e.t]])
    requires forall t :: Busy(s, t) ==> t in c && s.threads[t].batch == [c[t]]
    ensures forall t :: Busy(Next(s, e), t) ==> t in c && Next(s, e).threads[t].batch == [c[t]]
  {
    var s' := Next(s, e);
    assert s'.threads == s.threads[e.t := s'.threads[e.t]];
    assert e.Start? || (Busy(s, e.t) && s'.threads[e.t].batch == s.threads[e.t].batch);
  }
}
