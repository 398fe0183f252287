/** Turning a block's list of encoded transactions into records. */
module Transactions {
  import opened Decimals
  import opened Rpc
  import opened Store
  import opened Wrappers

  datatype Json =
    | JNull
    | JBool(value: bool)
    | JNumber(text: string)
    | JString(text: string)
    | JArray(items: seq<Json>)
    | JObject(members: map<string, Json>)

  /** JSON parsing, base64 decoding, hashing, and the text stored for a failed detail fetch. */
  datatype Codec = Codec(
    parse: string -> Option<Json>,
    decode: string -> Option<string>,
    digest: string -> string,
    errorText: (string, string) -> string)

  /** Fetching a transaction's details by hash, at a given time. */
  type DetailSource = (string, nat) -> Result<string, string>

  /** A member that is itself an object, if there is one. */
  function ObjectAt(members: map<string, Json>, key: string): Option<map<string, Json>> {
    if key in members && members[key].JObject? then Some(members[key].members) else None
  }

  /** `block.data.txs`, when the path exists and ends in an array; otherwise no transactions. */
  function TxList(data: map<string, Json>): seq<Json> {
    match ObjectAt(data, "block")
    case None => []
    case Some(block) =>
      match ObjectAt(block, "data")
      case None => []
      case Some(inner) =>
        if "txs" in inner && inner["txs"].JArray? then inner["txs"].items else []
  }

  /** `json.Unmarshal` into a map: objects and null are accepted, null as the empty map. */
  function Unmarshalled(codec: Codec, data: string): Option<map<string, Json>> {
    match codec.parse(data)
    case Some(JObject(members)) => Some(members)
    case Some(JNull) => Some(map[])
    case _ => None
  }

  /** The list at that path, for whatever else the objects hold. */
  lemma TxListAtPath(data: map<string, Json>)
    ensures match At(At(At(Some(JObject(data)), "block"), "data"), "txs")
            case Some(JArray(items)) => TxList(data) == items
            case _ => TxList(data) == []
  {
  }

  /** What a value holds under a key, if it is an object that has it. */
  function At(value: Option<Json>, key: string): Option<Json> {
    match value
    case Some(JObject(members)) => if key in members then Some(members[key]) else None
    case _ => None
  }

  function StringEntries(txs: seq<Json>): seq<string> {
    if txs == [] then []
    else StringEntries(txs[..|txs| - 1]) + (if txs[|txs| - 1].JString? then [txs[|txs| - 1].text] else [])
  }

  /** The strings of a list, in order, and nothing else. */
  lemma {:induction false} StringEntriesOfConcat(first: seq<Json>, second: seq<Json>)
    ensures StringEntries(first + second) == StringEntries(first) + StringEntries(second)
    ensures forall text :: StringEntries([JString(text)]) == [text]
    ensures forall tx: Json :: !tx.JString? ==> StringEntries([tx]) == []
    decreases |second|
  {
    assert forall tx: Json :: [tx][..0] == [];
    var both := first + second;
    if second == [] {
      assert both == first;
    } else {
      assert both[..|both| - 1] == first + second[..|second| - 1];
      StringEntriesOfConcat(first, second[..|second| - 1]);
    }
  }

  /** The encoded transactions of a stored block. */
  function Entries(codec: Codec, data: string): seq<string> {
    match Unmarshalled(codec, data)
    case None => []
    case Some(members) => StringEntries(TxList(members))
  }

  predicate AllDecode(codec: Codec, entries: seq<string>) {
    forall i :: 0 <= i < |entries| ==> codec.decode(entries[i]).Some?
  }

  function HashOf(codec: Codec, entry: string): string {
    match codec.decode(entry)
    case Some(bytes) => codec.digest(bytes)
    case None => ""
  }

  /** One record per entry, in order, under the entry's hash. */
  predicate IsExtraction(codec: Codec, entries: seq<string>, records: seq<Record>) {
    && AllDecode(codec, entries)
    && |records| == |entries|
    && forall i :: 0 <= i < |entries| ==> records[i].hash == HashOf(codec, entries[i])
  }

  /** How details are asked for. */
  datatype DetailFetch = DetailFetch(codec: Codec, lookup: Option<string>, details: DetailSource, maxRetries: nat)

  function DetailsOf(f: DetailFetch, entry: string): nat -> Result<string, string> {
    (n: nat) => f.details(HashOf(f.codec, entry), n)
  }

  function DetailCalls(f: DetailFetch, entry: string, t: nat): nat {
    CallAttempts(f.lookup, DetailsOf(f, entry), t, f.maxRetries)
  }

  /** An entry's record, asked for from call number `t` on: its details, or the error's description. */
  function RecordAt(f: DetailFetch, entry: string, t: nat): Record {
    var hash := HashOf(f.codec, entry);
    match CallOutcome(f.lookup, DetailsOf(f, entry), t, f.maxRetries, "")
    case Success(text) => Record(hash, text)
    case Failure(e) => Record(hash, f.codec.errorText(hash, e))
  }

  /** The call number reached when the details of all entries have been asked for, one after the other. */
  function CallsAfter(f: DetailFetch, entries: seq<string>, t: nat): (after: nat)
    ensures t <= after
  {
    if entries == [] then t
    else
      var k := |entries| - 1;
      var calls := CallsAfter(f, entries[..k], t);
      calls + DetailCalls(f, entries[k], calls)
  }

  function FetchedRecords(f: DetailFetch, entries: seq<string>, t: nat): (records: seq<Record>)
    ensures |records| == |entries|
  {
    if entries == [] then []
    else
      var k := |entries| - 1;
      FetchedRecords(f, entries[..k], t) + [RecordAt(f, entries[k], CallsAfter(f, entries[..k], t))]
  }

  /** Each entry's record, in order, asked for when the one before has been answered. */
  lemma {:induction false} FetchedInOrder(f: DetailFetch, entries: seq<string>, t: nat, i: nat)
    requires i < |entries|
    ensures FetchedRecords(f, entries, t)[i] == RecordAt(f, entries[i], CallsAfter(f, entries[..i], t))
    decreases |entries|
  {
    var k := |entries| - 1;
    if i < k {
      FetchedInOrder(f, entries[..k], t, i);
      assert entries[..k][..i] == entries[..i];
    }
  }

  /**
   What the record of an entry that decodes to `bytes` must be, if its details are asked for from call
   `t` on and the answer is there at call `after`: under the hash, the text of the first call that
   succeeds, or else the description of the last error, or of the missing method.
   */
  ghost predicate IsRecord(f: DetailFetch, bytes: string, t: nat, after: nat, record: Record) {
    match f
    case DetailFetch(codec, lookup, details, maxRetries) =>
      var hash := codec.digest(bytes);
      && record.hash == hash
      && match lookup
         case Some(message) => after == t && record.data == codec.errorText(hash, message)
         case None =>
           if maxRetries == 0 then after == t && record.data == ""
           else
             && t < after <= t + maxRetries
             && (forall k :: t <= k < after - 1 ==> details(hash, k).Failure?)
             && match details(hash, after - 1)
                case Success(text) => record.data == text
                case Failure(e) =>
                  && after == t + maxRetries
                  && record.data == codec.errorText(hash, "Failed after " + Decimal(maxRetries) + " retries: " + e)
  }

  lemma RecordIs(f: DetailFetch, entry: string, t: nat)
    requires f.codec.decode(entry).Some?
    ensures IsRecord(f, f.codec.decode(entry).value, t, t + DetailCalls(f, entry, t), RecordAt(f, entry, t))
  {
    CallIs(f.lookup, DetailsOf(f, entry), t, f.maxRetries, "");
    forall k | t <= k < t + DetailCalls(f, entry, t) - 1
      ensures f.details(HashOf(f.codec, entry), k).Failure?
    {
      assert DetailsOf(f, entry)(k).Failure?;
    }
  }

  /** Each record is that of its entry, and the calls for one begin where those for the one before end. */
  lemma RecordsAreFetched(f: DetailFetch, entries: seq<string>, t: nat, i: nat)
    requires i < |entries| && f.codec.decode(entries[i]).Some?
    ensures CallsAfter(f, entries[..0], t) == t
    ensures IsRecord(f, f.codec.decode(entries[i]).value, CallsAfter(f, entries[..i], t),
                     CallsAfter(f, entries[..i + 1], t), FetchedRecords(f, entries, t)[i])
  {
    FetchedInOrder(f, entries, t, i);
    RecordIs(f, entries[i], CallsAfter(f, entries[..i], t));
    assert entries[..i + 1][..i] == entries[..i];
  }

  /** A record for every entry, in order. */
  ghost predicate AreRecords(f: DetailFetch, entries: seq<string>, t: nat, records: seq<Record>) {
    match f
    case DetailFetch(codec, _, _, _) =>
      && |records| == |entries| && AllDecode(codec, entries)
      && forall i :: 0 <= i < |entries| ==>
           IsRecord(f, codec.decode(entries[i]).value, CallsAfter(f, entries[..i], t),
                    CallsAfter(f, entries[..i + 1], t), records[i])
  }

  lemma FetchedAreRecords(f: DetailFetch, entries: seq<string>, t: nat)
    requires AllDecode(f.codec, entries)
    ensures AreRecords(f, entries, t, FetchedRecords(f, entries, t))
  {
    var records := FetchedRecords(f, entries, t);
    forall i | 0 <= i < |entries|
      ensures IsRecord(f, f.codec.decode(entries[i]).value, CallsAfter(f, entries[..i], t),
                       CallsAfter(f, entries[..i + 1], t), records[i])
    {
      RecordsAreFetched(f, entries, t, i);
    }
  }

  lemma FetchOneMore(f: DetailFetch, entries: seq<string>, entry: string, t: nat)
    ensures var calls := CallsAfter(f, entries, t);
            && FetchedRecords(f, entries + [entry], t) == FetchedRecords(f, entries, t) + [RecordAt(f, entry, calls)]
            && CallsAfter(f, entries + [entry], t) == calls + DetailCalls(f, entry, calls)
  {
    assert (entries + [entry])[..|entries|] == entries;
  }

  lemma FetchedIsExtraction(f: DetailFetch, entries: seq<string>, t: nat)
    requires AllDecode(f.codec, entries)
    ensures IsExtraction(f.codec, entries, FetchedRecords(f, entries, t))
  {
    forall i | 0 <= i < |entries|
      ensures FetchedRecords(f, entries, t)[i].hash == HashOf(f.codec, entries[i])
    {
      FetchedInOrder(f, entries, t, i);
    }
  }

  method FetchRecord(channel: Channel, f: DetailFetch, entry: string, hash: string) returns (record: Record)
    requires f.maxRetries < TWO_TO_THE_64 - 1 && hash == HashOf(f.codec, entry)
    modifies channel
    ensures record == RecordAt(f, entry, old(channel.calls))
    ensures channel.calls == old(channel.calls) + DetailCalls(f, entry, old(channel.calls))
  {
    var fetched := channel.RetryGRPCCall<string>(f.lookup, DetailsOf(f, entry), f.maxRetries, "");
    match fetched {
      case Success(text) => return Record(hash, text);
      case Failure(e) => return Record(hash, f.codec.errorText(hash, e));
    }
  }

  /**
   Fails only on an entry that does not decode; a failed detail fetch becomes an error record. The
   calls made are those for the records, in order.
   */
  method ExtractTransactions(channel: Channel, f: DetailFetch, data: map<string, Json>)
    returns (r: Result<seq<Record>, string>)
    requires f.maxRetries < TWO_TO_THE_64 - 1
    modifies channel
    ensures channel.calls >= old(channel.calls)
    ensures r.Success? <==> AllDecode(f.codec, StringEntries(TxList(data)))
    ensures r.Success? ==> IsExtraction(f.codec, StringEntries(TxList(data)), r.value)
    ensures r.Success? ==>
              var entries := StringEntries(TxList(data));
              && r.value == FetchedRecords(f, entries, old(channel.calls))
              && channel.calls == CallsAfter(f, entries, old(channel.calls))
  {
    var txs := TxList(data);
    var transactions: seq<Record> := [];
    ghost var t, entries := channel.calls, [];
    for i := 0 to |txs|
      invariant entries == StringEntries(txs[..i]) && AllDecode(f.codec, entries)
      invariant transactions == FetchedRecords(f, entries, t) && channel.calls == CallsAfter(f, entries, t)
    {
      NextEntry(txs, i);
      if txs[i].JString? {
        var decoded := f.codec.decode(txs[i].text);
        if decoded.None? {
          EntryStays(txs, i);
          return Failure("failed to decode tx");
        }
        FetchOneMore(f, entries, txs[i].text, t);
        var record := FetchRecord(channel, f, txs[i].text, f.codec.digest(decoded.value));
        transactions := transactions + [record];
        entries := entries + [txs[i].text];
      }
    }
    assert txs[..|txs|] == txs;
    FetchedIsExtraction(f, entries, t);
    return Success(transactions);
  }

  lemma NextEntry(txs: seq<Json>, i: nat)
    requires i < |txs|
    ensures StringEntries(txs[..i + 1]) == StringEntries(txs[..i]) + (if txs[i].JString? then [txs[i].text] else [])
  {
    assert txs[..i + 1][..i] == txs[..i];
  }

  lemma {:induction false} EntryStays(txs: seq<Json>, i: nat)
    requires i < |txs| && txs[i].JString?
    ensures txs[i].text in StringEntries(txs)
    decreases |txs|
  {
    if i < |txs| - 1 {
      EntryStays(txs[..|txs| - 1], i);
    }
  }
}
