/** The two raw tables and the four operations the extractor performs on them. */
module Store {
  import opened Decimals
  import opened Wrappers

  datatype Block = Block(id: nat, data: string)

  datatype Record = Record(hash: string, data: string)

  /** `api.blocks_raw` by height and `api.transactions_raw` by hash. */
  datatype Tables = Tables(blocks: map<nat, string>, transactions: map<string, string>)

  function UpsertAll(rows: map<string, string>, records: seq<Record>): map<string, string>
    decreases |records|
  {
    if records == [] then rows
    else UpsertAll(rows[records[0].hash := records[0].data], records[1..])
  }

  /** The effect of one committed `WriteBlockWithTransactions`. */
  function Written(t: Tables, block: Block, records: seq<Record>): Tables {
    Tables(t.blocks[block.id := block.data], UpsertAll(t.transactions, records))
  }

  ghost predicate IsMin(s: set<nat>, m: nat) {
    m in s && forall h :: h in s ==> m <= h
  }

  ghost predicate IsMax(s: set<nat>, m: nat) {
    m in s && forall h :: h in s ==> h <= m
  }

  /** The heights strictly between the lowest and the highest stored one that are not stored. */
  ghost predicate IsGap(s: set<nat>, h: nat) {
    h !in s && (exists a :: a in s && a < h) && (exists b :: b in s && h < b)
  }

  ghost function GapSet(s: set<nat>): set<nat> {
    set b, h | b in s && 0 <= h < b && IsGap(s, h) :: h
  }

  lemma GapSetMembers(s: set<nat>)
    ensures forall h :: h in GapSet(s) <==> IsGap(s, h)
  {
  }

  lemma {:induction false} CountOfDistinct(rows: seq<nat>, s: set<nat>)
    requires forall i, j :: 0 <= i < j < |rows| ==> rows[i] != rows[j]
    requires forall h :: h in s <==> h in rows
    ensures |rows| == |s|
    decreases |rows|
  {
    if rows == [] {
      assert s == {};
    } else {
      var k := |rows| - 1;
      forall h
        ensures h in s - {rows[k]} <==> h in rows[..k]
      {
      }
      CountOfDistinct(rows[..k], s - {rows[k]});
    }
  }

  /** The row stream of the gap query breaks off before its last row. */
  ghost predicate CutShort(outcome: Outcome, stored: set<nat>) {
    outcome.RowsEnd? && outcome.after < |GapSet(stored)|
  }

  ghost predicate ScanBroke(outcome: Outcome, stored: set<nat>) {
    outcome.ScanFails? && outcome.at < |GapSet(stored)|
  }

  /** How one statement goes. A commit can take effect although its acknowledgement is lost. */
  datatype Outcome =
    | Fine
    | Fails
    | AcknowledgementLost
    | RowsEnd(after: nat)     // the row stream breaks off after this many rows
    | ScanFails(at: nat)

  lemma UpsertLast(rows: map<string, string>, records: seq<Record>, last: Record)
    ensures UpsertAll(rows, records + [last]) == UpsertAll(rows, records)[last.hash := last.data]
    decreases |records|
  {
    var longer := records + [last];
    if records == [] {
      assert longer[1..] == [];
    } else {
      assert longer[1..] == records[1..] + [last];
      UpsertLast(rows[records[0].hash := records[0].data], records[1..], last);
    }
  }

  /** Upserts keep every row's key and add exactly the keys of the records. */
  lemma {:induction false} UpsertKeys(rows: map<string, string>, records: seq<Record>)
    ensures forall x :: x in UpsertAll(rows, records) <==>
              x in rows || exists i :: 0 <= i < |records| && records[i].hash == x
    decreases |records|
  {
    if records != [] {
      var rows' := rows[records[0].hash := records[0].data];
      UpsertKeys(rows', records[1..]);
      forall x
        ensures x in UpsertAll(rows, records) <==> x in rows || exists i :: 0 <= i < |records| && records[i].hash == x
      {
        if exists i :: 0 <= i < |records| && records[i].hash == x {
          var i :| 0 <= i < |records| && records[i].hash == x;
          assert i > 0 ==> records[1..][i - 1].hash == x;
        }
        if x in UpsertAll(rows, records) && x !in rows' {
          var i :| 0 <= i < |records[1..]| && records[1..][i].hash == x;
          assert records[i + 1].hash == x;
        }
      }
    }
  }

  /** No later record has the same key. */
  predicate IsLast(records: seq<Record>, i: nat) {
    i < |records| && forall j :: i < j < |records| ==> records[j].hash != records[i].hash
  }

  /** The last record with a key gives its row. */
  lemma {:induction false} LastRecordStays(rows: map<string, string>, records: seq<Record>, i: nat)
    requires IsLast(records, i)
    ensures records[i].hash in UpsertAll(rows, records)
    ensures UpsertAll(rows, records)[records[i].hash] == records[i].data
    decreases |records|
  {
    var k := |records| - 1;
    assert records[..k] + [records[k]] == records;
    UpsertLast(rows, records[..k], records[k]);
    if i < k {
      assert IsLast(records[..k], i);
      LastRecordStays(rows, records[..k], i);
    }
  }

  /** A key without a record keeps its row. */
  lemma {:induction false} OtherRowStays(rows: map<string, string>, records: seq<Record>, x: string)
    requires forall i :: 0 <= i < |records| ==> records[i].hash != x
    ensures if x in rows then x in UpsertAll(rows, records) && UpsertAll(rows, records)[x] == rows[x]
            else x !in UpsertAll(rows, records)
    decreases |records|
  {
    if records != [] {
      OtherRowStays(rows[records[0].hash := records[0].data], records[1..], x);
    }
  }

  /** A committed write replaces the block's row and its transactions' rows, and leaves all others. */
  lemma WrittenRows(t: Tables, block: Block, records: seq<Record>)
    ensures Written(t, block, records).blocks == t.blocks[block.id := block.data]
    ensures forall x :: x in t.transactions && (forall i :: 0 <= i < |records| ==> records[i].hash != x) ==>
              x in Written(t, block, records).transactions
              && Written(t, block, records).transactions[x] == t.transactions[x]
    ensures forall i: nat :: IsLast(records, i) ==>
              && records[i].hash in Written(t, block, records).transactions
              && Written(t, block, records).transactions[records[i].hash] == records[i].data
  {
    forall x | x in t.transactions && forall i :: 0 <= i < |records| ==> records[i].hash != x
      ensures x in Written(t, block, records).transactions
      ensures Written(t, block, records).transactions[x] == t.transactions[x]
    {
      OtherRowStays(t.transactions, records, x);
    }
    forall i: nat | IsLast(records, i)
      ensures records[i].hash in Written(t, block, records).transactions
      ensures Written(t, block, records).transactions[records[i].hash] == records[i].data
    {
      LastRecordStays(t.transactions, records, i);
    }
  }

  class PostgresOutputHandler {
    var tables: Tables
    const outcomes: nat -> Outcome
    var statements: nat

    constructor (tables: Tables, outcomes: nat -> Outcome)
      ensures this.tables == tables && this.outcomes == outcomes && statements == 0
    {
      this.tables, this.outcomes := tables, outcomes;
      statements := 0;
    }

    ghost function Heights(): set<nat>
      reads `tables
    {
      tables.blocks.Keys
    }

    method Execute() returns (outcome: Outcome)
      modifies `statements
      ensures outcome == outcomes(old(statements)) && statements == old(statements) + 1
    {
      outcome := outcomes(statements);
      statements := statements + 1;
    }

    method GetLatestBlock() returns (r: Result<Option<nat>, string>)
      modifies `statements
      ensures statements == old(statements) + 1
      ensures r.Failure? <==> outcomes(old(statements)) == Fails
      ensures r.Success? ==> (r.value.None? <==> Heights() == {})
      ensures r.Success? && r.value.Some? ==> IsMax(Heights(), r.value.value)
    {
      var outcome := Execute();
      if outcome == Fails {
        return Failure("failed to get the latest block");
      }
      if tables.blocks.Keys == {} {
        return Success(None);
      }
      var low, high := Bounds(tables.blocks.Keys);
      return Success(Some(high));
    }

    method GetEarliestBlock() returns (r: Result<Option<nat>, string>)
      modifies `statements
      ensures statements == old(statements) + 1
      ensures r.Failure? <==> outcomes(old(statements)) == Fails
      ensures r.Success? ==> (r.value.None? <==> Heights() == {})
      ensures r.Success? && r.value.Some? ==> IsMin(Heights(), r.value.value)
    {
      var outcome := Execute();
      if outcome == Fails {
        return Failure("failed to get the earliest block");
      }
      if tables.blocks.Keys == {} {
        return Success(None);
      }
      var low, high := Bounds(tables.blocks.Keys);
      return Success(Some(low));
    }

    /**
     The gaps, in no particular order. The row error is never asked for after the loop, so a stream
     that breaks off early is taken for a complete one.
     */
    method GetMissingBlockIds() returns (r: Result<seq<nat>, string>)
      modifies `statements
      ensures statements == old(statements) + 1
      ensures r.Failure? <==> outcomes(old(statements)) == Fails || ScanBroke(outcomes(old(statements)), Heights())
      ensures r.Success? ==> forall i :: 0 <= i < |r.value| ==> IsGap(Heights(), r.value[i])
      ensures r.Success? ==>
                ((forall h :: IsGap(Heights(), h) ==> h in r.value) <==>
                 !CutShort(outcomes(old(statements)), Heights()))
    {
      var outcome := Execute();
      if outcome == Fails {
        return Failure("failed to get missing block IDs");
      }
      var rows := QueryGaps();
      GapSetMembers(Heights());
      CountOfDistinct(rows, GapSet(Heights()));
      var missing := [];
      var i := 0;
      while i < |rows| && outcome != RowsEnd(i)
        invariant 0 <= i <= |rows| && missing == rows[..i]
        invariant forall j :: 0 <= j < i ==> outcome != RowsEnd(j) && outcome != ScanFails(j)
      {
        if outcome == ScanFails(i) {
          return Failure("failed to scan missing block ID");
        }
        missing := missing + [rows[i]];
        i := i + 1;
      }
      if i < |rows| {
        assert IsGap(Heights(), rows[i]) && rows[i] !in missing;
      }
      return Success(missing);
    }

    /** The query's result set: the series from MIN to MAX, less what is stored. */
    method QueryGaps() returns (rows: seq<nat>)
      ensures forall i :: 0 <= i < |rows| ==> IsGap(Heights(), rows[i])
      ensures forall i, j :: 0 <= i < j < |rows| ==> rows[i] != rows[j]
      ensures forall h :: IsGap(Heights(), h) ==> h in rows
    {
      rows := [];
      var stored := tables.blocks.Keys;
      if stored == {} {
        return;
      }
      var low, high := Bounds(stored);
      for h: nat := low to high + 1
        invariant forall i :: 0 <= i < |rows| ==> IsGap(stored, rows[i]) && rows[i] < h
        invariant forall i, j :: 0 <= i < j < |rows| ==> rows[i] != rows[j]
        invariant forall g: nat :: g < h && IsGap(stored, g) ==> g in rows
      {
        if h !in stored {
          assert low < h < high;
          rows := rows + [h];
        }
      }
    }

    /**
     All or nothing: the block and its records are committed together, or the tables are as before.
     After an error the commit took effect only if its acknowledgement was lost.
     */
    method WriteBlockWithTransactions(block: Block, transactions: seq<Record>) returns (err: Option<string>)
      modifies this
      ensures old(statements) < statements <= old(statements) + |transactions| + 3
      ensures err.None? ==> tables == Written(old(tables), block, transactions)
      ensures err.None? <==> outcomes(statements - 1) == Fine
      ensures err.None? ==> statements == old(statements) + |transactions| + 3
      ensures err.Some? ==>
                if statements == old(statements) + |transactions| + 3 && outcomes(statements - 1) == AcknowledgementLost
                then tables == Written(old(tables), block, transactions)
                else tables == old(tables)
      ensures forall k :: old(statements) <= k < statements - 1 ==> outcomes(k) == Fine
    {
      var outcome := Execute();
      if outcome != Fine {
        return Some("failed to begin transaction");
      }
      outcome := Execute();
      if outcome != Fine {
        return Some("failed to write blockchain block");
      }
      var working := tables.(blocks := tables.blocks[block.id := block.data]);
      for i := 0 to |transactions|
        invariant tables == old(tables) && statements == old(statements) + i + 2
        invariant forall k :: old(statements) <= k < statements ==> outcomes(k) == Fine
        invariant working == Written(tables, block, transactions[..i])
      {
        outcome := Execute();
        if outcome != Fine {
          return Some("failed to write blockchain transaction");
        }
        assert transactions[..i + 1] == transactions[..i] + [transactions[i]];
        UpsertLast(tables.transactions, transactions[..i], transactions[i]);
        working := working.(transactions := working.transactions[transactions[i].hash := transactions[i].data]);
      }
      assert transactions[..|transactions|] == transactions;
      outcome := Execute();
      if outcome == AcknowledgementLost {
        tables := working;
        return Some("failed to commit transaction");
      }
      if outcome != Fine {
        return Some("failed to commit transaction");
      }
      tables := working;
      return None;
    }
  }

  method Bounds(s: set<nat>) returns (low: nat, high: nat)
    requires s != {}
    ensures IsMin(s, low) && IsMax(s, high)
  {
    low :| low in s;
    high := low;
    var pending := s - {low};
    while pending != {}
      invariant pending <= s && low in s && high in s
      invariant forall h :: h in s && h !in pending ==> low <= h <= high
      decreases |pending|
    {
      var h :| h in pending;
      low := if h < low then h else low;
      high := if h > high then h else high;
      pending := pending - {h};
    }
  }
}
