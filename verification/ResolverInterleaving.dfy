/**
 Any number of goroutines inside `processFileDescriptors` and `fetchDependencies` of one resolver.
 Each has a stack of frames, one per nested call; the write lock is released around every fetch,
 so steps of different goroutines interleave there.
 */
module ResolverInterleaving {
  import opened Graphs
  import opened Descriptors
  import opened Registry
  import opened Wrappers

  datatype Fault = Network | MissingImport | Duplicate | Refusal

  /** Where a frame stands. `left` are the imports of the current file not yet dealt with. */
  datatype Point =
    | Entering                                             // wants the lock, at the top
    | Looking                                              // holds it, between files
    | Depending(left: seq<string>)                         // holds it, walking imports
    | Failing(fault: Fault)                                // holds it, about to return an error
    | Fetching(left: seq<string>)                          // released it to fetch left[0]
    | Relocking(left: seq<string>, fetch: Option<Fault>)   // wants it back after that fetch

  /** One call: the files of its batch already handled, and those still to come. */
  datatype Frame = Frame(done: seq<FileContents>, todo: seq<FileContents>, at: Point)

  /**
   `frames` is the call stack, innermost last; `last` is how the latest outermost call ended, and
   `batch` are the files it was for.
   */
  datatype Thread = Thread(frames: seq<Frame>, last: Option<Fault>, batch: seq<FileContents>)

  datatype State = State(files: seq<FileContents>, holder: Option<nat>, threads: map<nat, Thread>)

  datatype Event =
    | Start(t: nat, batch: seq<FileContents>)           // an idle goroutine receives a symbol's files
    | Lock(t: nat)
    | Advance(t: nat)                                   // the next step under the lock
    | Refuse(t: nat)                                    // the library rejects the file for a reason of its own
    | Reply(t: nat, answer: Option<seq<FileContents>>)   // a fetch by name ends, with files or in error

  predicate Registered(s: State, path: string) {
    exists i :: 0 <= i < |s.files| && s.files[i].name == path
  }

  function Top(th: Thread): Frame
    requires th.frames != []
  {
    th.frames[|th.frames| - 1]
  }

  predicate Busy(s: State, t: nat) {
    t in s.threads && s.threads[t].frames != []
  }

  function Replace(th: Thread, f: Frame): Thread
    requires th.frames != []
  {
    th.(frames := th.frames[|th.frames| - 1 := f])
  }

  /** Return from the innermost call; the caller below it then wants its lock back. */
  function Return(th: Thread, fault: Option<Fault>): Thread
    requires th.frames != []
  {
    var below := th.frames[..|th.frames| - 1];
    if below == [] then th.(frames := [], last := fault)
    else
      var caller := below[|below| - 1];
      match caller.at
      case Fetching(left) => th.(frames := below[|below| - 1 := caller.(at := Relocking(left, fault))])
      case _ => th.(frames := below)
  }

  predicate HasLock(p: Point) {
    p.Looking? || p.Depending? || p.Failing?
  }

  predicate Enabled(s: State, e: Event) {
    match e
    case Start(t, _) => t in s.threads && s.threads[t].frames == []
    case Lock(t) => s.holder.None? && Busy(s, t) && (Top(s.threads[t]).at.Entering? || Top(s.threads[t]).at.Relocking?)
    case Advance(t) => s.holder == Some(t) && Busy(s, t) && HasLock(Top(s.threads[t]).at)
    case Refuse(t) => s.holder == Some(t) && Busy(s, t) && Top(s.threads[t]).at == Depending([])
    case Reply(t, _) => Busy(s, t) && Top(s.threads[t]).at.Fetching?
  }

  function AfterLock(f: Frame): Frame {
    match f.at
    case Relocking(left, None) => f.(at := Depending(if left == [] then [] else left[1..]))
    case Relocking(left, Some(fault)) => f.(at := Failing(fault))
    case _ => f.(at := Looking)
  }

  function NextFile(f: Frame): Frame {
    if f.todo == [] then f else Frame(f.done + [f.todo[0]], f.todo[1..], Looking)
  }

  /** One step of the goroutine that holds the lock. */
  function Advanced(s: State, t: nat): State
    requires Busy(s, t)
  {
    var th := s.threads[t];
    var f := Top(th);
    match f.at
    case Looking =>
      if f.todo == [] then s.(holder := None, threads := s.threads[t := Return(th, None)])
      else if Registered(s, f.todo[0].name) then s.(threads := s.threads[t := Replace(th, NextFile(f))])
      else s.(threads := s.threads[t := Replace(th, f.(at := Depending(f.todo[0].dependency)))])
    case Depending(left) =>
      if left != [] && Registered(s, left[0]) then
        s.(threads := s.threads[t := Replace(th, f.(at := Depending(left[1..])))])
      else if left != [] then
        s.(holder := None, threads := s.threads[t := Replace(th, f.(at := Fetching(left)))])
      else if f.todo == [] then s
      else if exists d :: d in f.todo[0].dependency && !Registered(s, d) then
        s.(threads := s.threads[t := Replace(th, f.(at := Failing(MissingImport)))])
      else if Registered(s, f.todo[0].name) then
        s.(threads := s.threads[t := Replace(th, f.(at := Failing(Duplicate)))])
      else
        s.(files := s.files + [f.todo[0]], threads := s.threads[t := Replace(th, NextFile(f))])
    case Failing(fault) => s.(holder := None, threads := s.threads[t := Return(th, Some(fault))])
    case _ => s
  }

  function Next(s: State, e: Event): State {
    if !Enabled(s, e) then s
    else
      match e
      case Start(t, batch) =>
        s.(threads := s.threads[t := Thread([Frame([], batch, Entering)], s.threads[t].last, batch)])
      case Lock(t) =>
        s.(holder := Some(t), threads := s.threads[t := Replace(s.threads[t], AfterLock(Top(s.threads[t])))])
      case Advance(t) => Advanced(s, t)
      case Refuse(t) => s.(threads := s.threads[t := Replace(s.threads[t], Top(s.threads[t]).(at := Failing(Refusal)))])
      case Reply(t, None) =>
        var f := Top(s.threads[t]);
        s.(threads := s.threads[t := Replace(s.threads[t], f.(at := Relocking(f.at.left, Some(Network))))])
      case Reply(t, Some(batch)) =>
        s.(threads := s.threads[t := s.threads[t].(frames := s.threads[t].frames + [Frame([], batch, Entering)])])
  }

  function Run(s: State, es: seq<Event>): State
    decreases |es|
  {
    if es == [] then s else Run(Next(s, es[0]), es[1..])
  }

  ghost predicate IsRun(s: State, es: seq<Event>)
    decreases |es|
  {
    es == [] || (Enabled(s, es[0]) && IsRun(Next(s, es[0]), es[1..]))
  }

  /** No goroutine has started, and the start-up registry is import-closed. */
  ghost predicate Initial(s: State) {
    && ImportClosed(s.files)
    && s.holder.None?
    && forall t :: t in s.threads ==> s.threads[t] == Thread([], None, [])
  }

  ghost predicate FrameShape(f: Frame) {
    && (f.at.Depending? ==> f.todo != [])
    && (f.at.Fetching? || f.at.Relocking? ==> f.todo != [] && f.at.left != [])
  }

  /** Only the innermost call of a goroutine can be anywhere but in a fetch. */
  ghost predicate ThreadShape(th: Thread) {
    && (forall i :: 0 <= i < |th.frames| ==> FrameShape(th.frames[i]))
    && (forall i :: 0 <= i < |th.frames| - 1 ==> th.frames[i].at.Fetching?)
  }

  /** The lock is held by exactly the goroutine whose innermost call is under it. */
  ghost predicate LockDiscipline(s: State) {
    && (s.holder.Some? ==> Busy(s, s.holder.value))
    && forall t :: Busy(s, t) ==> (HasLock(Top(s.threads[t]).at) <==> s.holder == Some(t))
  }

  ghost predicate Safe(s: State) {
    && ImportClosed(s.files)
    && LockDiscipline(s)
    && forall t :: t in s.threads ==> ThreadShape(s.threads[t])
  }

  lemma RegisteredIsPath(s: State)
    ensures forall n :: Registered(s, n) <==> n in Paths(s.files)
  {
  }

  lemma ReplaceKeepsShape(th: Thread, f: Frame)
    requires th.frames != [] && ThreadShape(th) && FrameShape(f)
    ensures ThreadShape(Replace(th, f))
    ensures Top(Replace(th, f)) == f
  {
  }

  predicate Holds(th: Thread) {
    th.frames != [] && HasLock(Top(th).at)
  }

  /** A step that changes one goroutine, and the lock only from or to that goroutine. */
  lemma UpdateIsSafe(s: State, t: nat, th: Thread, holder: Option<nat>, files: seq<FileContents>)
    requires Safe(s) && t in s.threads && ThreadShape(th) && ImportClosed(files)
    requires s.holder == None || s.holder == Some(t) || holder == s.holder
    requires holder == None || holder == Some(t) || holder == s.holder
    requires Holds(th) <==> holder == Some(t)
    ensures Safe(State(files, holder, s.threads[t := th]))
  {
  }

  /** Every step of every goroutine keeps the registry import-closed and the lock well used. */
  lemma StepIsSafe(s: State, e: Event)
    requires Safe(s) && Enabled(s, e)
    ensures Safe(Next(s, e))
    ensures s.files <= Next(s, e).files
    ensures Next(s, e).files != s.files ==> e.Advance? && s.holder == Some(e.t) && Next(s, e).holder == Some(e.t)
  {
    var th := s.threads[e.t];
    match e {
      case Start(t, batch) =>
        UpdateIsSafe(s, t, Thread([Frame([], batch, Entering)], th.last, batch), s.holder, s.files);
      case Lock(t) =>
        ReplaceKeepsShape(th, AfterLock(Top(th)));
        UpdateIsSafe(s, t, Replace(th, AfterLock(Top(th))), Some(t), s.files);
      case Refuse(t) =>
        ReplaceKeepsShape(th, Top(th).(at := Failing(Refusal)));
        UpdateIsSafe(s, t, Replace(th, Top(th).(at := Failing(Refusal))), s.holder, s.files);
      case Reply(t, None) =>
        var f := Top(th).(at := Relocking(Top(th).at.left, Some(Network)));
        ReplaceKeepsShape(th, f);
        UpdateIsSafe(s, t, Replace(th, f), s.holder, s.files);
      case Reply(t, Some(batch)) =>
        UpdateIsSafe(s, t, th.(frames := th.frames + [Frame([], batch, Entering)]), s.holder, s.files);
      case Advance(t) =>
        AdvanceIsSafe(s, t);
    }
  }

  lemma AdvanceIsSafe(s: State, t: nat)
    requires Safe(s) && Enabled(s, Advance(t))
    ensures Safe(Advanced(s, t))
    ensures s.files <= Advanced(s, t).files
    ensures Advanced(s, t).files != s.files ==> Advanced(s, t).holder == Some(t)
  {
    var th := s.threads[t];
    var f := Top(th);
    match f.at {
      case Looking =>
        if f.todo == [] {
          ReturnIsSafe(s, t, None);
        } else if Registered(s, f.todo[0].name) {
          StayIsSafe(s, t, NextFile(f));
        } else {
          StayIsSafe(s, t, f.(at := Depending(f.todo[0].dependency)));
        }
      case Depending(left) =>
        if left != [] && Registered(s, left[0]) {
          StayIsSafe(s, t, f.(at := Depending(left[1..])));
        } else if left != [] {
          ReplaceKeepsShape(th, f.(at := Fetching(left)));
          UpdateIsSafe(s, t, Replace(th, f.(at := Fetching(left))), None, s.files);
        } else {
          RegisterIsSafe(s, t);
        }
      case Failing(fault) =>
        ReturnIsSafe(s, t, Some(fault));
    }
  }

  lemma StayIsSafe(s: State, t: nat, f: Frame)
    requires Safe(s) && Busy(s, t) && s.holder == Some(t) && FrameShape(f) && HasLock(f.at)
    ensures Safe(s.(threads := s.threads[t := Replace(s.threads[t], f)]))
  {
  }

  lemma ReturnIsSafe(s: State, t: nat, fault: Option<Fault>)
    requires Safe(s) && Busy(s, t) && s.holder == Some(t)
    ensures Safe(s.(holder := None, threads := s.threads[t := Return(s.threads[t], fault)]))
  {
  }

  lemma RegisterIsSafe(s: State, t: nat)
    requires Safe(s) && Busy(s, t) && s.holder == Some(t) && Top(s.threads[t]).at == Depending([])
    ensures Safe(Advanced(s, t)) && s.files <= Advanced(s, t).files && Advanced(s, t).holder == Some(t)
  {
    var f := Top(s.threads[t]);
    RegisteredIsPath(s);
    if exists d :: d in f.todo[0].dependency && !Registered(s, d) {
      StayIsSafe(s, t, f.(at := Failing(MissingImport)));
    } else if Registered(s, f.todo[0].name) {
      StayIsSafe(s, t, f.(at := Failing(Duplicate)));
    } else {
      AppendKeepsImportClosed(s.files, f.todo[0]);
      ReplaceKeepsShape(s.threads[t], NextFile(f));
      UpdateIsSafe(s, t, Replace(s.threads[t], NextFile(f)), s.holder, s.files + [f.todo[0]]);
    }
  }

  /** In every reachable state of every interleaving, whatever the server answers. */
  lemma {:induction false} RunIsSafe(s: State, es: seq<Event>)
    requires Safe(s) && IsRun(s, es)
    ensures Safe(Run(s, es)) && s.files <= Run(s, es).files
    decreases |es|
  {
    if es != [] {
      StepIsSafe(s, es[0]);
      RunIsSafe(Next(s, es[0]), es[1..]);
    }
  }

  /** As long as a call is in progress, some call in progress can take a step. */
  lemma SomeCallCanStep(s: State, t: nat)
    requires Safe(s) && Busy(s, t)
    ensures exists e :: Enabled(s, e) && !e.Start? && Busy(s, e.t)
  {
    if s.holder.Some? {
      assert Enabled(s, Advance(s.holder.value));
    } else if Top(s.threads[t]).at.Fetching? {
      assert Enabled(s, Reply(t, None));
    } else {
      assert Enabled(s, Lock(t));
    }
  }

  lemma InitialIsSound(s: State)
    requires Initial(s)
    ensures Sound(s)
  {
  }

  ghost predicate Names(files: seq<FileContents>, n: string) {
    exists i :: 0 <= i < |files| && files[i].name == n
  }

  /** Every fetch by name that succeeds brings the requested file. */
  ghost predicate Complete(s: State, e: Event) {
    e.Reply? && e.answer.Some? && Enabled(s, e) ==>
      var left := Top(s.threads[e.t]).at.left;
      left != [] ==> Names(e.answer.value, left[0])
  }

  ghost predicate RunIsComplete(s: State, es: seq<Event>)
    decreases |es|
  {
    es == [] || (Complete(s, es[0]) && RunIsComplete(Next(s, es[0]), es[1..]))
  }

  /** What the frame may rely on: handled files, and imports found before a window, stay registered. */
  ghost predicate Relies(paths: set<string>, f: Frame) {
    && (forall n :: Names(f.done, n) ==> n in paths)
    && match f.at
       case Depending(left) => f.todo != [] && forall d :: d in f.todo[0].dependency && d !in left ==> d in paths
       case Fetching(left) => f.todo != [] && forall d :: d in f.todo[0].dependency && d !in left ==> d in paths
       case Relocking(left, fetch) =>
         && f.todo != [] && left != []
         && (forall d :: d in f.todo[0].dependency && d !in left ==> d in paths)
         && (if fetch.None? then left[0] in paths else fetch.value != MissingImport)
       case Failing(fault) => fault != MissingImport
       case _ => true
  }

  ghost predicate Covers(f: Frame, n: string) {
    Names(f.done, n) || Names(f.todo, n)
  }

  /** A call made for an import works on a batch that contains it. */
  ghost predicate Linked(caller: Frame, callee: Frame) {
    caller.at.Fetching? && caller.at.left != [] ==> Covers(callee, caller.at.left[0])
  }

  ghost predicate ThreadRelies(paths: set<string>, th: Thread) {
    && (forall i :: 0 <= i < |th.frames| ==> Relies(paths, th.frames[i]))
    && (forall i, j :: 0 <= i < j < |th.frames| && j == i + 1 ==> Linked(th.frames[i], th.frames[j]))
    && th.last != Some(MissingImport)
  }

  ghost predicate Sound(s: State) {
    Safe(s) && forall t :: t in s.threads ==> ThreadRelies(Paths(s.files), s.threads[t])
  }

  lemma GrowthKeepsReliance(paths: set<string>, more: set<string>, th: Thread)
    requires paths <= more && ThreadRelies(paths, th)
    ensures ThreadRelies(more, th)
  {
  }

  lemma ReplaceKeepsReliance(paths: set<string>, th: Thread, f: Frame)
    requires th.frames != [] && ThreadRelies(paths, th) && Relies(paths, f)
    requires forall n :: Covers(Top(th), n) ==> Covers(f, n)
    ensures ThreadRelies(paths, Replace(th, f))
  {
  }

  lemma NextFileCovers(f: Frame, n: string)
    requires f.todo != []
    ensures Names(NextFile(f).done, n) <==> Names(f.done, n) || n == f.todo[0].name
    ensures Covers(f, n) <==> Covers(NextFile(f), n)
  {
    var f' := NextFile(f);
    if Names(f.done, n) {
      var i :| 0 <= i < |f.done| && f.done[i].name == n;
      assert f'.done[i].name == n;
    }
    assert f'.done[|f.done|] == f.todo[0];
    if Names(f.todo, n) && n != f.todo[0].name {
      var i :| 0 <= i < |f.todo| && f.todo[i].name == n;
      assert f'.todo[i - 1].name == n;
    }
    if Names(f'.todo, n) {
      var i :| 0 <= i < |f'.todo| && f'.todo[i].name == n;
      assert f.todo[i + 1].name == n;
    }
  }

  lemma NextFileKeepsReliance(paths: set<string>, th: Thread)
    requires th.frames != [] && ThreadRelies(paths, th)
    requires Top(th).todo != [] && Top(th).todo[0].name in paths
    ensures ThreadRelies(paths, Replace(th, NextFile(Top(th))))
  {
    var f := Top(th);
    assert Relies(paths, f);
    forall n
      ensures Names(NextFile(f).done, n) ==> n in paths
      ensures Covers(f, n) ==> Covers(NextFile(f), n)
    {
      NextFileCovers(f, n);
    }
    ReplaceKeepsReliance(paths, th, NextFile(f));
  }

  lemma ReturnKeepsReliance(paths: set<string>, th: Thread, fault: Option<Fault>)
    requires th.frames != [] && ThreadRelies(paths, th) && ThreadShape(th)
    requires fault.None? ==> Top(th).todo == []
    requires fault != Some(MissingImport)
    ensures ThreadRelies(paths, Return(th, fault))
  {
    var below := th.frames[..|th.frames| - 1];
    if below != [] {
      var k := |below| - 1;
      assert below[k] == th.frames[k] && Top(th) == th.frames[k + 1];
      assert FrameShape(th.frames[k]) && th.frames[k].at.Fetching?;
      assert Relies(paths, th.frames[k]) && Relies(paths, th.frames[k + 1]) && Linked(th.frames[k], th.frames[k + 1]);
      var caller := below[k].(at := Relocking(below[k].at.left, fault));
      assert Relies(paths, caller);
      var th' := Return(th, fault);
      assert th'.frames == below[k := caller];
      forall i, j | 0 <= i < j < |th'.frames| && j == i + 1
        ensures Linked(th'.frames[i], th'.frames[j])
      {
        assert Linked(th.frames[i], th.frames[j]);
      }
    }
  }

  lemma UpdateIsSound(s: State, t: nat, th: Thread, s': State)
    requires Sound(s) && Safe(s') && s.files <= s'.files && s'.threads == s.threads[t := th]
    requires ThreadRelies(Paths(s'.files), th)
    ensures Sound(s')
  {
    assert s'.files[..|s.files|] == s.files;
    PathsOfPrefix(s'.files, |s.files|);
    forall x | x in s'.threads
      ensures ThreadRelies(Paths(s'.files), s'.threads[x])
    {
      if x != t {
        GrowthKeepsReliance(Paths(s.files), Paths(s'.files), s.threads[x]);
      }
    }
  }

  /** When every by-name answer contains the requested file, no step finds an import missing. */
  lemma StepIsSound(s: State, e: Event)
    requires Sound(s) && Enabled(s, e) && Complete(s, e)
    ensures Sound(Next(s, e))
  {
    StepIsSafe(s, e);
    var paths := Paths(s.files);
    var th := s.threads[e.t];
    match e {
      case Start(t, batch) =>
        UpdateIsSound(s, t, Next(s, e).threads[t], Next(s, e));
      case Lock(t) =>
        var f := Top(th);
        assert Relies(paths, f);
        ReplaceKeepsReliance(paths, th, AfterLock(f));
        UpdateIsSound(s, t, Next(s, e).threads[t], Next(s, e));
      case Refuse(t) =>
        ReplaceKeepsReliance(paths, th, Top(th).(at := Failing(Refusal)));
        UpdateIsSound(s, t, Next(s, e).threads[t], Next(s, e));
      case Reply(t, None) =>
        assert Relies(paths, Top(th)) && FrameShape(Top(th));
        ReplaceKeepsReliance(paths, th, Top(th).(at := Relocking(Top(th).at.left, Some(Network))));
        UpdateIsSound(s, t, Next(s, e).threads[t], Next(s, e));
      case Reply(t, Some(batch)) =>
        PushKeepsReliance(paths, th, batch);
        UpdateIsSound(s, t, Next(s, e).threads[t], Next(s, e));
      case Advance(t) =>
        AdvanceIsSound(s, t);
    }
  }

  lemma PushKeepsReliance(paths: set<string>, th: Thread, batch: seq<FileContents>)
    requires th.frames != [] && ThreadRelies(paths, th)
    requires Top(th).at.Fetching? && (Top(th).at.left != [] ==> Names(batch, Top(th).at.left[0]))
    ensures ThreadRelies(paths, th.(frames := th.frames + [Frame([], batch, Entering)]))
  {
  }

  lemma AdvanceIsSound(s: State, t: nat)
    requires Sound(s) && Enabled(s, Advance(t))
    ensures Sound(Next(s, Advance(t)))
  {
    StepIsSafe(s, Advance(t));
    RegisteredIsPath(s);
    var paths := Paths(s.files);
    var th := s.threads[t];
    var f := Top(th);
    var s' := Next(s, Advance(t));
    assert Relies(paths, f) && FrameShape(f);
    match f.at {
      case Looking =>
        if f.todo == [] {
          ReturnKeepsReliance(paths, th, None);
        } else if Registered(s, f.todo[0].name) {
          NextFileKeepsReliance(paths, th);
        } else {
          ReplaceKeepsReliance(paths, th, f.(at := Depending(f.todo[0].dependency)));
        }
      case Depending(left) =>
        if left != [] && Registered(s, left[0]) {
          ReplaceKeepsReliance(paths, th, f.(at := Depending(left[1..])));
        } else if left != [] {
          ReplaceKeepsReliance(paths, th, f.(at := Fetching(left)));
        } else if Registered(s, f.todo[0].name) {
          ReplaceKeepsReliance(paths, th, f.(at := Failing(Duplicate)));
        } else {
          AppendKeepsImportClosed(s.files, f.todo[0]);
          GrowthKeepsReliance(paths, Paths(s'.files), th);
          NextFileKeepsReliance(Paths(s'.files), th);
        }
      case Failing(fault) =>
        ReturnKeepsReliance(paths, th, Some(fault));
    }
    UpdateIsSound(s, t, s'.threads[t], s');
  }

  /** So no interleaving with complete answers ever ends a call for want of an import. */
  lemma {:induction false} ImportsAreNeverMissing(s: State, es: seq<Event>)
    requires Sound(s) && IsRun(s, es) && RunIsComplete(s, es)
    ensures Sound(Run(s, es))
    ensures forall t :: t in Run(s, es).threads ==> Run(s, es).threads[t].last != Some(MissingImport)
    decreases |es|
  {
    if es != [] {
      StepIsSound(s, es[0]);
      ImportsAreNeverMissing(Next(s, es[0]), es[1..]);
    }
  }
}
