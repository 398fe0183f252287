/** Which heights are stored after a sequence of runs that each may fail half-way. */
module Recovery {
  import opened Store

  /**
   One process: the heights stored before and after it, the node's height when it asked, and how far
   it reached: a batch run to that height, a live run to the highest it went on to aim at.
   */
  datatype RunReport = RunReport(before: set<nat>, after: set<nat>, tip: nat, reach: nat, ok: bool)

  /** Above everything stored, and not above `tip`. */
  ghost predicate IsNew(stored: set<nat>, tip: nat, h: nat) {
    h <= tip && forall s :: s in stored ==> s < h
  }

  ghost predicate AnyNew(stored: set<nat>, tip: nat) {
    exists h :: IsNew(stored, tip, h)
  }

  /**
   What a run with automatic start and stop does to a non-empty store. A failing run may have
   committed any subset of the gaps and new heights. Without a new height it fails at once.
   */
  ghost predicate AutomaticRun(r: RunReport) {
    && r.before != {} && r.before <= r.after
    && (forall h :: h in r.after ==> h in r.before || IsGap(r.before, h) || IsNew(r.before, r.reach, h))
    && (r.ok ==> (forall h :: h in r.before ==> h <= r.reach)
                 && forall h :: IsNew(r.before, r.reach, h) ==> h in r.after)
    && (!AnyNew(r.before, r.tip) ==> r.after == r.before && !r.ok)
  }

  ghost predicate GapsFilled(r: RunReport) {
    forall h :: IsGap(r.before, h) ==> h in r.after
  }

  /** Runs that follow one another on the same store. */
  ghost predicate History(runs: seq<RunReport>) {
    && runs != []
    && (forall i :: 0 <= i < |runs| ==> AutomaticRun(runs[i]))
    && (forall i, j :: 0 <= i < j < |runs| && j == i + 1 ==> runs[i].after == runs[j].before)
  }

  ghost predicate IsInterval(stored: set<nat>, low: nat, high: nat) {
    forall h :: h in stored <==> low <= h <= high
  }

  lemma RunKeepsMin(r: RunReport, m: nat)
    requires AutomaticRun(r) && IsMin(r.before, m)
    ensures IsMin(r.after, m)
  {
  }

  lemma {:induction false} HistoryKeepsMin(runs: seq<RunReport>, m: nat)
    requires History(runs) && IsMin(runs[0].before, m)
    ensures IsMin(runs[|runs| - 1].before, m) && IsMin(runs[|runs| - 1].after, m)
    decreases |runs|
  {
    RunKeepsMin(runs[0], m);
    if |runs| > 1 {
      assert runs[0].after == runs[1].before;
      HistoryKeepsMin(runs[1..], m);
    }
  }

  /**
   However many runs failed before, and wherever, a run that succeeds leaves every height from the
   lowest ever stored up to where it reached, provided, and only if, it was told of all gaps.
   */
  lemma SuccessRestoresContiguity(runs: seq<RunReport>, m: nat)
    requires History(runs) && IsMin(runs[0].before, m)
    requires runs[|runs| - 1].ok
    ensures var last := runs[|runs| - 1];
            IsInterval(last.after, m, last.reach) <==> GapsFilled(last)
  {
    HistoryKeepsMin(runs, m);
    var last := runs[|runs| - 1];
    var top := Highest(last.before);
    if GapsFilled(last) {
      forall h: nat | m <= h <= last.reach
        ensures h in last.after
      {
        if h > top {
          assert IsNew(last.before, last.reach, h);
        } else if h !in last.before {
          assert IsGap(last.before, h);
        }
      }
    }
    if IsInterval(last.after, m, last.reach) {
      forall h: nat | IsGap(last.before, h)
        ensures h in last.after
      {
        assert m <= h <= last.reach;
      }
    }
  }

  lemma {:induction false} Highest(s: set<nat>) returns (high: nat)
    requires s != {}
    ensures IsMax(s, high)
    decreases |s|
  {
    var x :| x in s;
    if s == {x} {
      high := x;
    } else {
      var rest := Highest(s - {x});
      high := if x > rest then x else rest;
      assert forall h :: h in s ==> h == x || h in s - {x};
    }
  }

  /** Runs for which the node never has anything above what was stored at first leave every gap as it was. */
  lemma {:induction false} GapsWaitForNewHeights(runs: seq<RunReport>, s: nat)
    requires History(runs) && s in runs[0].before && forall i :: 0 <= i < |runs| ==> runs[i].tip <= s
    ensures runs[|runs| - 1].after == runs[0].before && forall i :: 0 <= i < |runs| ==> !runs[i].ok
    decreases |runs|
  {
    assert !AnyNew(runs[0].before, runs[0].tip);
    if |runs| > 1 {
      assert runs[0].after == runs[1].before;
      GapsWaitForNewHeights(runs[1..], s);
    }
  }

  /**
   When the first run on an empty store aims at `earliest` and fails, what it leaves decides for good:
   later runs restore the whole chain from `earliest` exactly if that very block was stored.
   */
  lemma FirstBlockDecides(runs: seq<RunReport>, earliest: nat)
    requires History(runs) && runs[|runs| - 1].ok && GapsFilled(runs[|runs| - 1])
    requires forall h :: h in runs[0].before ==> earliest <= h
    ensures var last := runs[|runs| - 1];
            (forall h :: earliest <= h <= last.reach ==> h in last.after) <==> earliest in runs[0].before
  {
    var last := runs[|runs| - 1];
    var m := Lowest(runs[0].before);
    HistoryKeepsMin(runs, m);
    SuccessRestoresContiguity(runs, m);
    var n :| n in last.after;
    assert m <= n <= last.reach;
    if forall h :: earliest <= h <= last.reach ==> h in last.after {
      assert earliest in last.after;
    }
  }

  lemma {:induction false} Lowest(s: set<nat>) returns (low: nat)
    requires s != {}
    ensures IsMin(s, low)
    decreases |s|
  {
    var x :| x in s;
    if s == {x} {
      low := x;
    } else {
      var rest := Lowest(s - {x});
      low := if x < rest then x else rest;
      assert forall h :: h in s ==> h == x || h in s - {x};
    }
  }
}
