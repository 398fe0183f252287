/** Ordering descriptors by their imports and registering them in that order. */
module TopologicalSort {
  import opened Graphs
  import opened Descriptors
  import opened Registry
  import opened Wrappers

  datatype SortError = Circular(name: string) | NotFound(name: string)

  predicate IsTrue(m: map<string, bool>, n: string) {
    n in m && m[n]
  }

  ghost function Marked(m: map<string, bool>): set<string> {
    set n | n in m && m[n]
  }

  lemma MarkChanges(m: map<string, bool>, n: string)
    ensures Marked(m[n := true]) == Marked(m) + {n}
    ensures Marked(m[n := false]) == Marked(m) - {n}
  {
  }

  ghost function Elements(s: seq<string>): set<string> {
    set n | n in s
  }

  lemma ElementsOfAppend(s: seq<string>, n: string)
    ensures Elements(s + [n]) == Elements(s) + {n}
  {
  }

  /** `files` lists the descriptors of `fdMap` named by `order`, in that order. */
  ghost predicate Lists(fdMap: map<string, FileProto?>, order: seq<string>, files: seq<FileProto>) {
    && |files| == |order|
    && forall i :: 0 <= i < |order| ==> order[i] in fdMap && files[i] == fdMap[order[i]]
  }

  /** A cause for which the sort may give up: a cycle through the name, or a nil entry. */
  ghost predicate Explains(fdMap: map<string, FileProto?>, e: SortError) {
    match e
    case Circular(n) => OnCycle(ImportGraph(fdMap), n)
    case NotFound(n) => n in fdMap && fdMap[n] == null
  }

  /** The names on the search stack form a walk that could be extended by `next`. */
  ghost predicate StackLeadsTo(g: Graph, stack: seq<string>, next: string) {
    |stack| > 0 ==> IsPath(g, stack) && Edge(g, stack[|stack| - 1], next)
  }

  lemma ReenteringStackIsCycle(g: Graph, stack: seq<string>, next: string)
    requires StackLeadsTo(g, stack, next) && next in stack
    ensures OnCycle(g, next)
  {
    var i :| 0 <= i < |stack| && stack[i] == next;
    var p := stack[i..] + [next];
    forall a, b | 0 <= a < b < |p| && b == a + 1
      ensures Edge(g, p[a], p[b])
    {
      if b < |p| - 1 {
        assert Edge(g, stack[i + a], stack[i + b]);
      }
    }
    assert Joins(g, p, next, next);
  }

  lemma PushKeepsPath(g: Graph, stack: seq<string>, next: string)
    requires StackLeadsTo(g, stack, next)
    ensures IsPath(g, stack + [next])
  {
  }

  lemma AppendKeepsOrder(g: Graph, order: seq<string>, n: string)
    requires TopologicalOrder(g, order) && n in g && n !in order
    requires forall d :: d in g[n] && d in g ==> d in order
    ensures TopologicalOrder(g, order + [n])
  {
    var longer := order + [n];
    forall i | 0 <= i < |longer|
      ensures longer[i] in g && forall d :: d in g[longer[i]] && d in g ==> d in longer[..i]
    {
      assert longer[..i] == order[..i];
      if i == |order| {
        assert order[..i] == order;
      }
    }
  }

  /** What the search has marked and sorted; `order` are the names of `sorted`. */
  datatype Progress = Progress(
    visited: map<string, bool>, tempMarked: map<string, bool>, sorted: seq<FileProto>, order: seq<string>)

  /** The search state between calls; `stack` holds the names being visited, outermost first. */
  ghost predicate Consistent(fdMap: map<string, FileProto?>, stack: seq<string>, p: Progress) {
    match p
    case Progress(visited, tempMarked, sorted, order) =>
      && Marked(visited) == Elements(order)
      && Marked(tempMarked) == Elements(stack)
      && (forall n :: n in stack ==> n in fdMap && n !in order)
      && TopologicalOrder(ImportGraph(fdMap), order)
      && Lists(fdMap, order, sorted)
  }

  lemma EnterKeepsConsistent(fdMap: map<string, FileProto?>, stack: seq<string>, p: Progress, name: string)
    requires Consistent(fdMap, stack, p) && name in fdMap && name !in p.order && name !in stack
    ensures Consistent(fdMap, stack + [name], p.(tempMarked := p.tempMarked[name := true]))
    ensures Marked(p.tempMarked[name := true]) == Marked(p.tempMarked) + {name}
  {
    MarkChanges(p.tempMarked, name);
    ElementsOfAppend(stack, name);
  }

  lemma LeaveKeepsConsistent(fdMap: map<string, FileProto?>, stack: seq<string>, p: Progress, name: string)
    requires name !in stack && name in fdMap && fdMap[name] != null
    requires Consistent(fdMap, stack + [name], p)
    requires forall d :: d in fdMap[name].dependency && d in fdMap ==> d in p.order
    ensures Consistent(fdMap, stack, Progress(p.visited[name := true], p.tempMarked[name := false],
                                              p.sorted + [fdMap[name]], p.order + [name]))
  {
    var order := p.order;
    MarkChanges(p.tempMarked, name);
    MarkChanges(p.visited, name);
    ElementsOfAppend(stack, name);
    ElementsOfAppend(order, name);
    assert name in stack + [name];
    AppendKeepsOrder(ImportGraph(fdMap), order, name);
    forall n | n in stack
      ensures n in fdMap && n !in order + [name]
    {
      assert n in stack + [name];
    }
  }

  class Sorter {
    const fdMap: map<string, FileProto?>
    var visited: map<string, bool>
    var tempMarked: map<string, bool>
    var sortedDescriptors: seq<FileProto>
    ghost var order: seq<string>

    constructor (fdMap: map<string, FileProto?>)
      ensures this.fdMap == fdMap && Valid([]) && order == []
    {
      this.fdMap := fdMap;
      visited, tempMarked, sortedDescriptors := map[], map[], [];
      order := [];
    }

    ghost predicate Valid(stack: seq<string>)
      reads this
    {
      Consistent(fdMap, stack, Progress(visited, tempMarked, sortedDescriptors, order))
    }

    method Visit(name: string, ghost stack: seq<string>) returns (err: Option<SortError>)
      requires Valid(stack) && StackLeadsTo(ImportGraph(fdMap), stack, name)
      modifies this
      ensures old(order) <= order
      ensures err.None? ==> Valid(stack) && name in order
      ensures err.Some? ==> Explains(fdMap, err.value) || (err.value == NotFound(name) && name !in fdMap)
      decreases fdMap.Keys - Marked(tempMarked), 3
    {
      assert IsTrue(tempMarked, name) <==> name in Marked(tempMarked);
      assert IsTrue(visited, name) <==> name in Marked(visited);
      if IsTrue(tempMarked, name) {
        ReenteringStackIsCycle(ImportGraph(fdMap), stack, name);
        return Some(Circular(name));
      }
      if !IsTrue(visited, name) {
        err := VisitNew(name, stack);
        return err;
      }
      return None;
    }

    /** The body of `Visit` for a name that carries no mark. */
    method VisitNew(name: string, ghost stack: seq<string>) returns (err: Option<SortError>)
      requires Valid(stack) && StackLeadsTo(ImportGraph(fdMap), stack, name)
      requires name !in stack && name !in order && name !in Marked(tempMarked)
      modifies this
      ensures old(order) <= order
      ensures err.None? ==> Valid(stack) && name in order
      ensures err.Some? ==> Explains(fdMap, err.value) || (err.value == NotFound(name) && name !in fdMap)
      decreases fdMap.Keys - Marked(tempMarked), 2
    {
      ghost var before := Progress(visited, tempMarked, sortedDescriptors, order);
      tempMarked := tempMarked[name := true];
      if name !in fdMap || fdMap[name] == null {
        tempMarked := tempMarked[name := false];
        return Some(NotFound(name));
      }
      var fdProto: FileProto := fdMap[name];
      EnterKeepsConsistent(fdMap, stack, before, name);
      PushKeepsPath(ImportGraph(fdMap), stack, name);
      err := VisitImports(fdProto, stack + [name]);
      if err.Some? {
        return err;
      }
      LeaveKeepsConsistent(fdMap, stack, Progress(visited, tempMarked, sortedDescriptors, order), name);
      visited := visited[name := true];
      tempMarked := tempMarked[name := false];
      sortedDescriptors := sortedDescriptors + [fdProto];
      order := order + [name];
      return None;
    }

    /** The loop of `Visit` over the imports of the name on top of the stack. */
    method VisitImports(fdProto: FileProto, ghost stack: seq<string>) returns (err: Option<SortError>)
      requires Valid(stack) && IsPath(ImportGraph(fdMap), stack)
      requires var top := stack[|stack| - 1]; top in fdMap && fdMap[top] == fdProto
      modifies this
      ensures old(order) <= order
      ensures err.None? ==> Valid(stack)
      ensures err.None? ==> forall d :: d in fdProto.dependency && d in fdMap ==> d in order
      ensures err.Some? ==> Explains(fdMap, err.value)
      decreases fdMap.Keys - Marked(tempMarked), 4
    {
      for i := 0 to |fdProto.dependency|
        invariant Valid(stack) && old(order) <= order
        invariant forall k :: 0 <= k < i && fdProto.dependency[k] in fdMap ==> fdProto.dependency[k] in order
      {
        var dep := fdProto.dependency[i];
        if dep in fdMap {
          assert Edge(ImportGraph(fdMap), stack[|stack| - 1], dep);
          var e := Visit(dep, stack);
          if e.Some? {
            return e;
          }
        }
      }
      return None;
    }
  }

  lemma CompleteOrderHasNoFault(fdMap: map<string, FileProto?>, order: seq<string>, files: seq<FileProto>)
    requires TopologicalOrder(ImportGraph(fdMap), order) && Lists(fdMap, order, files)
    requires forall n :: n in fdMap ==> n in order
    ensures Acyclic(ImportGraph(fdMap))
    ensures forall n :: n in fdMap ==> fdMap[n] != null
  {
    OrderedGraphIsAcyclic(ImportGraph(fdMap), order);
    forall n | n in fdMap
      ensures fdMap[n] != null
    {
      var i :| 0 <= i < |order| && order[i] == n;
      assert files[i] == fdMap[n];
    }
  }

  /**
   Fails exactly on a cycle or a nil entry; otherwise every descriptor appears once,
   each import that is in the map strictly before its importer. The loop's choice of the
   next name is arbitrary, as Go's map iteration order is.
   */
  method Sort(fdMap: map<string, FileProto?>) returns (r: Result<seq<FileProto>, SortError>, ghost order: seq<string>)
    ensures r.Success? <==> Acyclic(ImportGraph(fdMap)) && forall n :: n in fdMap ==> fdMap[n] != null
    ensures r.Success? ==> Lists(fdMap, order, r.value) && TopologicalOrder(ImportGraph(fdMap), order)
    ensures r.Success? ==> forall n :: n in fdMap <==> n in order
    ensures r.Failure? ==> Explains(fdMap, r.error)
  {
    order := [];
    ghost var g := ImportGraph(fdMap);
    var sorter := new Sorter(fdMap);
    var pending := fdMap.Keys;
    while pending != {}
      invariant sorter.Valid([]) && sorter.fdMap == fdMap
      invariant pending <= fdMap.Keys
      invariant forall n :: n in fdMap && n !in pending ==> n in sorter.order
      decreases |pending|
    {
      var name :| name in pending;
      if !IsTrue(sorter.visited, name) {
        var err := sorter.Visit(name, []);
        if err.Some? {
          return Failure(err.value), [];
        }
      } else {
        assert name in Marked(sorter.visited);
      }
      pending := pending - {name};
    }
    order := sorter.order;
    CompleteOrderHasNoFault(fdMap, order, sorter.sortedDescriptors);
    r := Success(sorter.sortedDescriptors);
  }
}
