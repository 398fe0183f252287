/**
 Goroutines that meet: one releases the lock over a file for the sake of an import, another registers
 that file meanwhile, and the first then finds its path taken.
 */
module ResolverRace {
  import opened Graphs
  import opened Descriptors
  import opened Registry
  import opened ResolverInterleaving
  import opened ResolverCalls
  import opened ResolverOverlap
  import opened ResolverRuns
  import opened ResolverMeet
  import opened Wrappers
  import Reflection
  import Resolver

  /** `t` has released the lock over the file at hand in `f` to fetch the first of `left`. */
  ghost predicate IsWaiting(s: State, t: nat, below: seq<Frame>, f: Frame, left: seq<string>) {
    && InFrame(s, t, below, f.(at := Fetching(left))) && f.todo != []
    && left != [] && (forall d :: d in left ==> d in f.todo[0].dependency)
    && forall d :: d in f.todo[0].dependency ==> d in left || d in Paths(s.files)
  }

  /** Under the lock, imports that are registered are passed; the lock is released at the first that is not. */
  lemma WalksToWindow(u: Universe, c: Calls, start: State, s: State, t: nat, below: seq<Frame>, f: Frame,
    left: seq<string>)
    returns (s': State, rest: seq<string>)
    requires Leads(u, c, start, s) && s.holder == Some(t) && InFrame(s, t, below, f.(at := Depending(left)))
    requires f.todo != [] && forall d :: d in left ==> d in f.todo[0].dependency
    requires forall d :: d in f.todo[0].dependency ==> d in left || d in Paths(s.files)
    requires exists d :: d in f.todo[0].dependency && d !in Paths(s.files)
    ensures Leads(u, c, start, s') && s'.holder.None? && s'.files == s.files && IsWaiting(s', t, below, f, rest)
    ensures s'.threads == Moved(s, None, t, below, f.(at := Fetching(rest))).threads
    decreases |left|
  {
    RegisteredIsPath(s);
    GoWalk(u, c, start, s, t, below, f.(at := Depending(left)), left);
    if Registered(s, left[0]) {
      var a := Moved(s, s.holder, t, below, f.(at := Depending(left[1..])));
      s', rest := WalksToWindow(u, c, start, a, t, below, f, left[1..]);
      assert s'.threads == Moved(s, None, t, below, f.(at := Fetching(rest))).threads;
    } else {
      s', rest := Moved(s, None, t, below, f.(at := Fetching(left))), left;
    }
  }

  /** An idle goroutine starts on its file and, finding it unregistered, turns to its imports. */
  lemma BeginsCall(u: Universe, c: Calls, start: State, s: State, t: nat) returns (s': State)
    requires Leads(u, c, start, s) && s.holder.None? && t in s.threads && s.threads[t].frames == [] && t in c
    requires FromUniverse(u, c[t]) && c[t].name !in Paths(s.files)
    ensures Leads(u, c, start, s') && s'.holder == Some(t) && s'.files == s.files
    ensures InFrame(s', t, [], Frame([], [c[t]], Depending(c[t].dependency)))
    ensures s'.threads == s.threads[t := s'.threads[t]]
  {
    var x := c[t];
    OneMore(u, c, start, s, Start(t, [x]));
    var a := Next(s, Start(t, [x]));
    assert a.threads[t].frames == [] + [Frame([], [x], Entering)];
    GoLock(u, c, start, a, t, [], Frame([], [x], Entering));
    var b := Moved(a, Some(t), t, [], Frame([], [x], Looking));
    RegisteredIsPath(b);
    GoLook(u, c, start, b, t, [], Frame([], [x], Looking));
    s' := Moved(b, Some(t), t, [], Frame([], [x], Depending(x.dependency)));
    assert s'.threads == s.threads[t := s'.threads[t]];
  }

  lemma ReachOfNext(u: Universe, names: seq<string>, k: nat)
    requires k < |names|
    ensures ReachOf(u, names[..k + 1]) == ReachOf(u, names[..k]) + Reach(u, names[k])
  {
    var longer, shorter := names[..k + 1], names[..k];
    forall n | n in ReachOf(u, longer)
      ensures n in ReachOf(u, shorter) + Reach(u, names[k])
    {
      var i :| 0 <= i < |longer| && Reaches(Imports(u), longer[i], n);
      assert i < k ==> shorter[i] == longer[i];
    }
    forall n | n in ReachOf(u, shorter) + Reach(u, names[k])
      ensures n in ReachOf(u, longer)
    {
      if n in ReachOf(u, shorter) {
        var i :| 0 <= i < |shorter| && Reaches(Imports(u), shorter[i], n);
        assert longer[i] == shorter[i];
      } else {
        assert longer[k] == names[k];
      }
    }
  }

  /** The first `k` imports are brought in, and nothing else. */
  lemma PassesImports(u: Universe, c: Calls, start: State, s: State, t: nat, f: Frame, k: nat) returns (s': State)
    requires Leads(u, c, start, s) && s.holder == Some(t) && Suited(u, s.files) && f.todo != []
    requires InFrame(s, t, [], f.(at := Depending(f.todo[0].dependency))) && k <= |f.todo[0].dependency|
    requires FromUniverse(u, f.todo[0]) && ReachesNoCycle(Imports(u), f.todo[0].name)
    ensures Leads(u, c, start, s') && s'.holder == Some(t) && Suited(u, s'.files)
    ensures s'.threads == Moved(s, None, t, [], f.(at := Depending(f.todo[0].dependency[k..]))).threads
    ensures Paths(s'.files) == UpTo(u, Paths(s.files), f.todo[0], k)
    decreases k
  {
    var imports := f.todo[0].dependency;
    if k == 0 {
      s' := s;
      assert imports[0..] == imports && imports[..0] == [];
      assert s.threads == s.threads[t := s.threads[t].(frames := [] + [f.(at := Depending(imports))])];
    } else {
      var a := PassesImports(u, c, start, s, t, f, k - 1);
      s' := OneImport(u, c, start, a, t, [], f, imports[k - 1..]);
      assert imports[k - 1..][1..] == imports[k..];
      ReachOfNext(u, imports, k - 1);
      MovedTwice(s, a, t, [], f.(at := Depending(imports[k - 1..])), f.(at := Depending(imports[k..])));
    }
  }

  /** `t` has released the lock over `n`; its outermost call may be waiting for the call that did. */
  ghost predicate HasReleased(u: Universe, s: State, t: nat, below: seq<Frame>, f: Frame, left: seq<string>,
    n: string)
  {
    && IsWaiting(s, t, below, f, left) && s.holder.None? && Suited(u, s.files)
    && f.todo[0].name == n && FromUniverse(u, f.todo[0]) && ReachesNoCycle(Imports(u), n) && n !in Paths(s.files)
    && (below == [] || (|below| == 1 && below[0].at.Fetching?))
  }

  lemma ReleasesOverOwn(u: Universe, c: Calls, start: State, s: State, t: nat)
    returns (s': State, f: Frame, left: seq<string>)
    requires Leads(u, c, start, s) && s.holder.None? && t in s.threads && s.threads[t].frames == [] && t in c
    requires FromUniverse(u, c[t]) && ReachesNoCycle(Imports(u), c[t].name) && Suited(u, s.files)
    requires c[t].name !in Paths(s.files) && LacksImport(u, Paths(s.files), c[t].name)
    ensures Leads(u, c, start, s') && HasReleased(u, s', t, [], f, left, c[t].name)
    ensures s'.threads == s.threads[t := s'.threads[t]]
  {
    var a := BeginsCall(u, c, start, s, t);
    f := Frame([], [c[t]], Looking);
    assert f.(at := Depending(c[t].dependency)) == Frame([], [c[t]], Depending(c[t].dependency));
    s', left := WalksToWindow(u, c, start, a, t, [], f, c[t].dependency);
    assert s'.threads == s.threads[t := s'.threads[t]];
  }

  /** The earlier imports are brought in, and import number `k` is asked for. */
  lemma WaitsForImport(u: Universe, c: Calls, start: State, s: State, t: nat, k: nat, n: string) returns (s': State)
    requires Leads(u, c, start, s) && s.holder.None? && t in s.threads && s.threads[t].frames == [] && t in c
    requires FromUniverse(u, c[t]) && ReachesNoCycle(Imports(u), c[t].name) && Suited(u, s.files)
    requires c[t].name !in Paths(s.files) && ExposesAt(u, Paths(s.files), c[t], k, n)
    ensures Leads(u, c, start, s') && s'.holder.None? && Suited(u, s'.files)
    ensures InFrame(s', t, [], Frame([], [c[t]], Fetching(c[t].dependency[k..])))
    ensures s'.threads == s.threads[t := s'.threads[t]] && Paths(s'.files) == UpTo(u, Paths(s.files), c[t], k)
  {
    var x := c[t];
    var fx := Frame([], [x], Looking);
    var a := BeginsCall(u, c, start, s, t);
    assert fx.(at := Depending(x.dependency)) == Frame([], [x], Depending(x.dependency));
    var b := PassesImports(u, c, start, a, t, fx, k);
    var rest := x.dependency[k..];
    UnregisteredAbove(u, b.files, x.dependency[k], n);
    RegisteredIsPath(b);
    GoWalk(u, c, start, b, t, [], fx.(at := Depending(rest)), rest);
    s' := Moved(b, None, t, [], fx.(at := Fetching(rest)));
    assert s'.threads == s.threads[t := s'.threads[t]];
  }

  /** The answer for import number `k` begins with `n`, whose imports are then fetched one by one. */
  lemma ReleasesOverReached(u: Universe, c: Calls, start: State, s: State, t: nat, k: nat, n: string)
    returns (s': State, below: seq<Frame>, f: Frame, left: seq<string>)
    requires Leads(u, c, start, s) && s.holder.None? && t in s.threads && s.threads[t].frames == [] && t in c
    requires FromUniverse(u, c[t]) && ReachesNoCycle(Imports(u), c[t].name) && Suited(u, s.files)
    requires c[t].name !in Paths(s.files) && ExposesAt(u, Paths(s.files), c[t], k, n)
    ensures Leads(u, c, start, s') && HasReleased(u, s', t, below, f, left, n)
    ensures s'.threads == s.threads[t := s'.threads[t]]
  {
    var x := c[t];
    var waiting := Frame([], [x], Fetching(x.dependency[k..]));
    var d := WaitsForImport(u, c, start, s, t, k, n);
    var answer := AnswerWith(u, x, k, n);
    below := [waiting];
    f := Frame([], answer, Looking);
    var h := TakesUpAnswer(u, c, start, d, t, waiting, answer);
    s', left := WalksToWindow(u, c, start, h, t, below, f, u.files[n].dependency);
    ReachedOffCycles(u, x, k, n);
    assert s'.threads == s.threads[t := s'.threads[t]];
  }

  /** The first file of an answer is not registered; its imports come next. */
  lemma TakesUpAnswer(u: Universe, c: Calls, start: State, s: State, t: nat, waiting: Frame, answer: seq<FileContents>)
    returns (s': State)
    requires Leads(u, c, start, s) && s.holder.None? && InFrame(s, t, [], waiting)
    requires waiting.at.Fetching? && waiting.at.left != [] && answer != [] && answer[0].name !in Paths(s.files)
    requires Reflection.Genuine(u, waiting.at.left[0], answer) && Names(answer, waiting.at.left[0])
    ensures Leads(u, c, start, s') && s'.holder == Some(t) && s'.files == s.files
    ensures s'.threads == Moved(s, None, t, [waiting], Frame([], answer, Depending(answer[0].dependency))).threads
  {
    GoReplyWith(u, c, start, s, t, [], waiting, answer);
    var below := [waiting];
    assert [] + [waiting] == below;
    var e := Moved(s, None, t, below, Frame([], answer, Entering));
    var f := Frame([], answer, Looking);
    GoLock(u, c, start, e, t, below, Frame([], answer, Entering));
    var g := Moved(e, Some(t), t, below, f);
    RegisteredIsPath(g);
    GoLook(u, c, start, g, t, below, f);
    s' := Moved(g, Some(t), t, below, f.(at := Depending(answer[0].dependency)));
  }

  /** A registered file's reach is registered, so what reaches an unregistered file is not. */
  lemma UnregisteredAbove(u: Universe, files: seq<FileContents>, d: string, n: string)
    requires Suited(u, files) && n in Reach(u, d) && n !in Paths(files)
    ensures d !in Paths(files)
  {
    if d in Paths(files) {
      RegisteredReach(u, files, d);
    }
  }

  lemma AnswerWith(u: Universe, x: FileContents, k: nat, n: string) returns (answer: seq<FileContents>)
    requires k < |x.dependency| && n in Reach(u, x.dependency[k]) && FromUniverse(u, x)
    requires (forall m :: m in u.files ==> u.files[m].name == m) && Closed(Imports(u), u.files.Keys)
    ensures answer == [u.files[n], u.files[x.dependency[k]]]
    ensures Reflection.Genuine(u, x.dependency[k], answer) && Names(answer, x.dependency[k])
  {
    assert Edge(Imports(u), x.name, x.dependency[k]);
    answer := [u.files[n], u.files[x.dependency[k]]];
    ReachesSelf(Imports(u), x.dependency[k]);
    assert answer[1].name == x.dependency[k];
  }

  lemma ReachedOffCycles(u: Universe, x: FileContents, k: nat, n: string)
    requires k < |x.dependency| && n in Reach(u, x.dependency[k]) && FromUniverse(u, x)
    requires ReachesNoCycle(Imports(u), x.name)
    ensures ReachesNoCycle(Imports(u), n)
  {
    ReachesSelf(Imports(u), x.name);
    ReachedThroughImport(u, x.name, x, x.dependency[k], n);
    NoCycleBelow(Imports(u), x.name, n);
  }

  /** The fetch ends and the rest of the imports come in; `t` is about to register the file at hand. */
  lemma ClosesWindow(u: Universe, c: Calls, start: State, s: State, t: nat, below: seq<Frame>, f: Frame,
    left: seq<string>)
    returns (s': State)
    requires Leads(u, c, start, s) && s.holder.None? && IsWaiting(s, t, below, f, left) && Suited(u, s.files)
    requires FromUniverse(u, f.todo[0]) && ReachesNoCycle(Imports(u), f.todo[0].name)
    ensures Leads(u, c, start, s') && s'.holder == Some(t) && Suited(u, s'.files)
    ensures s'.threads == Moved(s, None, t, below, f.(at := Depending([]))).threads
    ensures forall d :: d in f.todo[0].dependency ==> d in Paths(s'.files)
    ensures Paths(s.files) <= Paths(s'.files)
  {
    ImportReachesLess(u, f.todo[0], left[0]);
    var a := FetchCompletes(u, c, start, s, t, below, f, left);
    forall d | d in f.todo[0].dependency
      ensures d in left[1..] || d in Paths(a.files)
    {
      assert d in left ==> d == left[0] || d in left[1..];
    }
    s' := ImportsComplete(u, c, start, a, t, below, f, left[1..]);
    MovedTwice(s, a, t, below, f.(at := Depending(left[1..])), f.(at := Depending([])));
  }

  /** Back under the lock with the file registered by another, the call fails, and so does the one it was made for. */
  lemma EndsInDuplicate(u: Universe, c: Calls, start: State, s: State, t: nat, below: seq<Frame>, f: Frame,
    left: seq<string>)
    returns (s': State)
    requires Leads(u, c, start, s) && s.holder.None? && IsWaiting(s, t, below, f, left) && Suited(u, s.files)
    requires FromUniverse(u, f.todo[0]) && ReachesNoCycle(Imports(u), f.todo[0].name)
    requires f.todo[0].name in Paths(s.files)
    requires below == [] || (|below| == 1 && below[0].at.Fetching?)
    ensures Leads(u, c, start, s') && t in s'.threads && s'.threads[t].last == Some(Duplicate)
  {
    var a := ClosesWindow(u, c, start, s, t, below, f, left);
    var g := f.(at := Failing(Duplicate));
    GoClash(u, c, start, a, t, below, f.(at := Depending([])));
    var b := Moved(a, a.holder, t, below, g);
    GoReturn(u, c, start, b, t, below, g);
    s' := State(b.files, None, b.threads[t := Return(b.threads[t], Some(Duplicate))]);
    var back := ReturnsTo(b.threads[t], below, g);
    if below != [] {
      CallerFailsToo(u, c, start, s', t, back);
      s' := State(s'.files, None, s'.threads[t := Return(Failed(s'.threads[t], back), Some(Duplicate))]);
    }
  }

  lemma ReturnsTo(th: Thread, below: seq<Frame>, f: Frame) returns (back: Frame)
    requires th.frames == below + [f] && (below == [] || (|below| == 1 && below[0].at.Fetching?))
    ensures below == [] ==> Return(th, Some(Duplicate)).last == Some(Duplicate)
    ensures below != [] ==>
              && Return(th, Some(Duplicate)).frames == [] + [back]
              && back.at.Relocking? && back.at.fetch == Some(Duplicate)
  {
    back := f;
    assert th.frames[..|below|] == below;
    if below != [] {
      back := below[0].(at := Relocking(below[0].at.left, Some(Duplicate)));
      assert below[|below| - 1 := back] == [] + [back];
    }
  }

  function Failed(th: Thread, back: Frame): Thread {
    th.(frames := [] + [AfterLock(back)])
  }

  lemma CallerFailsToo(u: Universe, c: Calls, start: State, s: State, t: nat, back: Frame)
    requires Leads(u, c, start, s) && s.holder.None? && InFrame(s, t, [], back)
    requires back.at.Relocking? && back.at.fetch == Some(Duplicate)
    ensures var th := Return(Failed(s.threads[t], back), Some(Duplicate));
            Leads(u, c, start, State(s.files, None, s.threads[t := th]))
    ensures Return(Failed(s.threads[t], back), Some(Duplicate)).last == Some(Duplicate)
  {
    GoLock(u, c, start, s, t, [], back);
    var a := Moved(s, Some(t), t, [], AfterLock(back));
    GoReturn(u, c, start, a, t, [], AfterLock(back));
    assert Failed(s.threads[t], back).frames[..0] == [];
    assert a.threads[t := Return(a.threads[t], Some(Duplicate))]
        == s.threads[t := Return(Failed(s.threads[t], back), Some(Duplicate))];
  }

  /** An idle goroutine runs its call to the end while the others stay where they are. */
  lemma CompletesCall(u: Universe, c: Calls, start: State, s: State, t: nat) returns (s': State)
    requires Leads(u, c, start, s) && s.holder.None? && t in s.threads && s.threads[t].frames == [] && t in c
    requires FromUniverse(u, c[t]) && ReachesNoCycle(Imports(u), c[t].name) && Suited(u, s.files)
    ensures Leads(u, c, start, s') && s'.holder.None? && Suited(u, s'.files) && t in s'.threads
    ensures Paths(s'.files) == Paths(s.files) + Reach(u, c[t].name) && s'.threads == s.threads[t := s'.threads[t]]
  {
    OneMore(u, c, start, s, Start(t, [c[t]]));
    var a := Next(s, Start(t, [c[t]]));
    assert a.threads[t].frames == [] + [Frame([], [c[t]], Entering)];
    s' := FileCompletes(u, c, start, a, t, [], c[t]);
    assert s'.threads == s.threads[t := s'.threads[t]];
  }

  /** Some run with true and complete answers ends a call in a duplicate. */
  ghost predicate CanClash(u: Universe, c: Calls, s: State) {
    exists s', t :: Leads(u, c, s, s') && t in s'.threads && s'.threads[t].last == Some(Duplicate)
  }

  /** Calls for true files that reach no cycle, by goroutines that are there. */
  ghost predicate WellMade(u: Universe, c: Calls, s: State) {
    && Initial(s) && Suited(u, s.files) && c.Keys <= s.threads.Keys
    && forall t :: t in c ==> FromUniverse(u, c[t]) && ReachesNoCycle(Imports(u), c[t].name)
  }

  lemma MeetingMeansClash(u: Universe, c: Calls, s: State, t: nat, t': nat)
    requires WellMade(u, c, s) && t in c && t' in c && t != t' && MayMeet(u, Paths(s.files), c[t], c[t'])
    ensures CanClash(u, c, s)
  {
    LeadsToItself(u, c, s);
    var n :| Exposes(u, Paths(s.files), c[t], n) && n in Reach(u, c[t'].name);
    var a, below, f, left := s, [], Frame([], [], Looking), [];
    if n == c[t].name && LacksImport(u, Paths(s.files), n) {
      a, f, left := ReleasesOverOwn(u, c, s, s, t);
    } else {
      var k: nat :| ExposesAt(u, Paths(s.files), c[t], k, n);
      a, below, f, left := ReleasesOverReached(u, c, s, s, t, k, n);
    }
    assert a.threads[t'] == s.threads[t'];
    var b := CompletesCall(u, c, s, a, t');
    assert b.threads[t] == a.threads[t];
    assert IsWaiting(b, t, below, f, left);
    var d := EndsInDuplicate(u, c, s, b, t, below, f, left);
  }

  /**
   Calls, each goroutine's for a file of its own, can end in a duplicate exactly if one of them can
   come to release the lock over a file that another needs.
   */
  lemma ClashIffMeeting(u: Universe, c: Calls, s: State)
    requires WellMade(u, c, s)
    ensures CanClash(u, c, s) <==> !NoneMeet(u, Paths(s.files), c)
  {
    if !NoneMeet(u, Paths(s.files), c) {
      var t, t' :| t in c && t' in c && t != t' && MayMeet(u, Paths(s.files), c[t], c[t']);
      MeetingMeansClash(u, c, s, t, t');
    } else if CanClash(u, c, s) {
      var s', w :| Leads(u, c, s, s') && w in s'.threads && s'.threads[w].last == Some(Duplicate);
      var es :| IsRun(s, es) && RunIsGood(u, c, s, es) && Run(s, es) == s';
      InitialIsWatched(u, c, s);
      NoMeetingNoDuplicate(u, Paths(s.files), c, s, es);
    }
  }

  /** All goroutines ask for `x`. */
  function AllFor(x: FileContents, s: State): Calls {
    map t | t in s.threads :: x
  }

  /** In particular for calls that are all for one file: exactly if one of its imports is not registered either. */
  lemma ClashIffImportMissing(u: Universe, x: FileContents, s: State, t: nat, t': nat)
    requires Initial(s) && Suited(u, s.files) && t in s.threads && t' in s.threads && t != t'
    requires FromUniverse(u, x) && ReachesNoCycle(Imports(u), x.name) && x.name !in Paths(s.files)
    ensures CanClash(u, AllFor(x, s), s) <==> exists d :: d in x.dependency && d !in Paths(s.files)
  {
    var before := Paths(s.files);
    var c := AllFor(x, s);
    ClashIffMeeting(u, c, s);
    ReachesSelf(Imports(u), x.name);
    if exists d :: d in x.dependency && d !in before {
      assert Exposes(u, before, x, x.name);
      assert MayMeet(u, before, c[t], c[t']);
    } else {
      forall n | Exposes(u, before, x, n)
        ensures false
      {
        var k: nat :| ExposesAt(u, before, x, k, n);
        RegisteredReach(u, s.files, x.dependency[k]);
      }
    }
  }

  /** A file that both need is not registered, nor are all of its imports. */
  ghost predicate ShareUnregistered(u: Universe, before: set<string>, x: FileContents, y: FileContents) {
    exists n :: n in Reach(u, x.name) && n in Reach(u, y.name) && n !in before && LacksImport(u, before, n)
  }

  /**
   That is not enough for a clash: if both import first what the shared file lacks, neither ever
   releases the lock over the shared file.
   */
  lemma SharingIsNotMeeting() returns (u: Universe, c: Calls, s: State)
    ensures WellMade(u, c, s) && 0 in c && 1 in c && c[0] != c[1]
    ensures ShareUnregistered(u, Paths(s.files), c[0], c[1]) && !CanClash(u, c, s)
  {
    u := Example();
    c := map[0 := u.files["x"], 1 := u.files["y"]];
    s := State([], None, map[0 := Thread([], None, []), 1 := Thread([], None, [])]);
    assert Paths(s.files) == {};
    ExampleHasNoCycle(u);
    SharedInExample(u);
    NoneMeetInExample(u, c);
    ClashIffMeeting(u, c, s);
  }

  lemma Example() returns (u: Universe)
    ensures IsExample(u)
  {
    var d := FileContents("d", [], [], []);
    var n := FileContents("n", ["d"], [], []);
    var x := FileContents("x", ["d", "n"], [], []);
    var y := FileContents("y", ["d", "n"], [], []);
    u := Reflection.Universe(map["d" := d, "n" := n, "x" := x, "y" := y], map[]);
  }

  lemma ExampleHasNoCycle(u: Universe)
    requires IsExample(u)
    ensures Closed(Imports(u), u.files.Keys)
    ensures ReachesNoCycle(Imports(u), "x") && ReachesNoCycle(Imports(u), "y")
  {
    TwoOverTwoIsAcyclic(Imports(u), "d", "n", "x", "y");
  }

  lemma TwoOverTwoIsAcyclic(g: Graph, d: string, n: string, x: string, y: string)
    requires d != n && d != x && d != y && n != x && n != y && x != y && g.Keys == {d, n, x, y}
    requires g[d] == [] && g[n] == [d] && g[x] == [d, n] && g[y] == [d, n]
    ensures Acyclic(g)
  {
    var order := [d, n, x, y];
    assert order[..1] == [d] && order[..2] == [d, n] && order[..3] == [d, n, x];
    OrderedGraphIsAcyclic(g, order);
  }

  lemma NoneMeetInExample(u: Universe, c: Calls)
    requires IsExample(u) && c == map[0 := u.files["x"], 1 := u.files["y"]]
    ensures NoneMeet(u, {}, c)
  {
    NothingExposed(u, u.files["x"], "y");
    NothingExposed(u, u.files["y"], "x");
  }

  lemma SharedInExample(u: Universe)
    requires IsExample(u)
    ensures ShareUnregistered(u, {}, u.files["x"], u.files["y"])
  {
    ReachOfImports(u, u.files["x"]);
    ReachOfImports(u, u.files["y"]);
    assert "n" in Reach(u, "x") && "n" in Reach(u, "y") && "d" in u.files["n"].dependency;
    assert LacksImport(u, {}, "n");
  }

  /** The four files of the example. */
  ghost predicate IsExample(u: Universe) {
    && u.files.Keys == {"d", "n", "x", "y"} && (forall n :: n in u.files ==> u.files[n].name == n)
    && u.files["d"].dependency == [] && u.files["n"].dependency == ["d"]
    && u.files["x"].dependency == ["d", "n"] && u.files["y"].dependency == ["d", "n"]
  }

  lemma ReachOfImports(u: Universe, x: FileContents)
    requires IsExample(u) && FromUniverse(u, x) && (x.name == "x" || x.name == "y")
    ensures Reach(u, "d") == {"d"} && Reach(u, "n") == {"n", "d"} && Reach(u, x.name) == {x.name, "n", "d"}
  {
    var g := Imports(u);
    ReachesSelf(g, "d");
    ReachesSelf(g, "n");
    ReachesSelf(g, x.name);
    assert x.dependency[1] == "n" && u.files["n"].dependency[0] == "d";
    EdgeThenReaches(g, "n", "d", "d");
    EdgeThenReaches(g, x.name, "n", "n");
    EdgeThenReaches(g, x.name, "n", "d");
    assert Closed(g, {"d"}) && Closed(g, {"n", "d"}) && Closed(g, {x.name, "n", "d"});
    ClosedContainsReachable(g, {"d"}, "d");
    ClosedContainsReachable(g, {"n", "d"}, "n");
    ClosedContainsReachable(g, {x.name, "n", "d"}, x.name);
  }

  lemma NothingExposed(u: Universe, x: FileContents, other: string)
    requires IsExample(u) && FromUniverse(u, x) && x.name in {"x", "y"} && other in {"x", "y"} && other != x.name
    ensures !MayMeet(u, {}, x, u.files[other])
  {
    ReachOfImports(u, x);
    ReachOfImports(u, u.files[other]);
    forall n | n in Reach(u, other)
      ensures !Exposes(u, {}, x, n)
    {
      forall k: nat
        ensures !ExposesAt(u, {}, x, k, n)
      {
        if k == 1 {
          assert x.dependency[..1][0] == "d";
          assert "d" in ReachOf(u, x.dependency[..1]);
        }
      }
    }
  }
}
