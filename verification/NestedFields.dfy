/** Following a dotted path through nested protobuf messages. */
module NestedFields {
  import opened Wrappers

  /** A message in memory. Reading a message field that is not set gives an empty message, without end. */
  type MessageId = nat

  datatype Value =
    | Scalar(text: string)
    | Single(message: MessageId)         // a singular message field
    | Repeated(messageKind: bool)        // a list, of messages or not, or a map, whose kind is always message
    | Invalid                            // no value at all

  /** What reading a field of a message gives; None when its descriptor has no such field. */
  type Memory = (MessageId, string) -> Option<Value>

  /** `Panics` is the run-time failure of asking a list or a map for a message. */
  datatype Outcome =
    | Found(value: Value)
    | FieldNotFound(name: string)
    | FieldHasNoValue(name: string)
    | NotAMessage(name: string)
    | Panics(name: string)

  /** The declared kind, which for a list is that of its elements. */
  predicate HasMessageKind(v: Value) {
    v.Single? || (v.Repeated? && v.messageKind)
  }

  /** `strings.Split(path, ".")`. */
  function Split(path: string): (parts: seq<string>)
    ensures parts != []
  {
    if path == [] then [""]
    else
      var front := Split(path[..|path| - 1]);
      var c := path[|path| - 1];
      if c == '.' then front + [""]
      else front[|front| - 1 := front[|front| - 1] + [c]]
  }

  function Join(parts: seq<string>): string
    requires parts != []
  {
    if |parts| == 1 then parts[0]
    else Join(parts[..|parts| - 1]) + "." + parts[|parts| - 1]
  }

  /** Splitting loses nothing, and no part holds a dot. */
  lemma {:induction false} SplitThenJoin(path: string)
    ensures Join(Split(path)) == path
    ensures forall i :: 0 <= i < |Split(path)| ==> '.' !in Split(path)[i]
  {
    if path != [] {
      var front := path[..|path| - 1];
      SplitThenJoin(front);
      var parts := Split(path);
      assert path == front + [path[|path| - 1]];
      if path[|path| - 1] == '.' {
        assert parts[..|parts| - 1] == Split(front);
      } else {
        assert parts[..|parts| - 1] == Split(front)[..|parts| - 1];
      }
    }
  }

  /** One field of a message. */
  function Get(memory: Memory, m: MessageId, name: string): Outcome {
    match memory(m, name)
    case None => FieldNotFound(name)
    case Some(Invalid) => FieldHasNoValue(name)
    case Some(v) => Found(v)
  }

  /** Going on from a value that is not the last on the path. */
  function Enter(memory: Memory, v: Value, name: string, rest: seq<string>): Outcome
    requires rest != []
    decreases |rest|, 1
  {
    if !HasMessageKind(v) then NotAMessage(name)
    else if v.Repeated? then Panics(name)
    else Resolve(memory, v.message, rest)
  }

  function Resolve(memory: Memory, m: MessageId, fields: seq<string>): Outcome
    requires fields != []
    decreases |fields|, 0
  {
    match Get(memory, m, fields[0])
    case Found(v) => if |fields| == 1 then Found(v) else Enter(memory, v, fields[0], fields[1..])
    case failure => failure
  }

  method GetNestedField(memory: Memory, msg: MessageId, fieldPath: string) returns (r: Outcome)
    ensures r == Resolve(memory, msg, Split(fieldPath))
  {
    var fields := Split(fieldPath);
    var currentMsg := msg;
    var currentValue := Invalid;
    for i := 0 to |fields|
      invariant i < |fields| ==> Resolve(memory, msg, fields) == Resolve(memory, currentMsg, fields[i..])
      invariant i == |fields| ==> Resolve(memory, msg, fields) == Found(currentValue)
    {
      var fieldName := fields[i];
      assert fields[i..][1..] == fields[i + 1..];
      var field := memory(currentMsg, fieldName);
      if field.None? {
        return FieldNotFound(fieldName);
      }
      currentValue := field.value;
      if currentValue == Invalid {
        return FieldHasNoValue(fieldName);
      }
      if i < |fields| - 1 {
        if !HasMessageKind(currentValue) {
          return NotAMessage(fieldName);
        }
        if currentValue.Repeated? {
          return Panics(fieldName);
        }
        currentMsg := currentValue.message;
      }
    }
    return Found(currentValue);
  }

  /** From message `ms[0]`, each field up to the last of `ms` is a singular message: the next one. */
  ghost predicate IsChain(memory: Memory, ms: seq<MessageId>, fields: seq<string>) {
    && 0 < |ms| <= |fields|
    && forall i, j :: 0 <= i < j < |ms| && j == i + 1 ==> memory(ms[i], fields[i]) == Some(Single(ms[j]))
  }

  /** What comes of the field at which a chain ends. */
  ghost predicate EndsIn(memory: Memory, ms: seq<MessageId>, fields: seq<string>, r: Outcome)
    requires IsChain(memory, ms, fields)
  {
    var k := |ms| - 1;
    match memory(ms[k], fields[k])
    case None => r == FieldNotFound(fields[k])
    case Some(Invalid) => r == FieldHasNoValue(fields[k])
    case Some(v) =>
      if |ms| == |fields| then r == Found(v)
      else
        match v
        case Single(_) => false
        case Repeated(true) => r == Panics(fields[k])
        case _ => r == NotAMessage(fields[k])
  }

  /** A path is followed from message to message, and its outcome is that of the field where this ends. */
  lemma {:induction false} ResolveFollowsChain(memory: Memory, m: MessageId, fields: seq<string>)
    returns (ms: seq<MessageId>)
    requires fields != []
    ensures IsChain(memory, ms, fields) && ms[0] == m && EndsIn(memory, ms, fields, Resolve(memory, m, fields))
    decreases |fields|
  {
    ms := [m];
    match memory(m, fields[0]) {
      case Some(Single(next)) =>
        if |fields| > 1 {
          var rest := ResolveFollowsChain(memory, next, fields[1..]);
          ms := [m] + rest;
          forall i, j | 0 <= i < j < |ms| && j == i + 1
            ensures memory(ms[i], fields[i]) == Some(Single(ms[j]))
          {
            if i > 0 {
              assert fields[i] == fields[1..][i - 1];
              assert memory(rest[i - 1], fields[1..][i - 1]) == Some(Single(rest[i]));
            }
          }
        }
      case _ =>
    }
  }

  /** And a chain to its end determines the outcome. */
  lemma {:induction false} ChainDetermines(memory: Memory, ms: seq<MessageId>, fields: seq<string>, r: Outcome)
    requires IsChain(memory, ms, fields) && EndsIn(memory, ms, fields, r)
    ensures Resolve(memory, ms[0], fields) == r
    decreases |ms|
  {
    if |ms| > 1 {
      assert memory(ms[0], fields[0]) == Some(Single(ms[1]));
      var rest, tail := ms[1..], fields[1..];
      forall i, j | 0 <= i < j < |rest| && j == i + 1
        ensures memory(rest[i], tail[i]) == Some(Single(rest[j]))
      {
        assert memory(ms[i + 1], fields[i + 1]) == Some(Single(ms[j + 1]));
      }
      ChainDetermines(memory, rest, tail, r);
    }
  }

  /** Resolving a longer path is resolving its rest in what its beginning resolves to; a failure stands. */
  lemma {:induction false} ResolveSplits(memory: Memory, m: MessageId, p: seq<string>, q: seq<string>)
    requires p != [] && q != []
    ensures Resolve(memory, m, p + q) ==
            match Resolve(memory, m, p)
            case Found(v) => Enter(memory, v, p[|p| - 1], q)
            case failure => failure
    decreases |p|
  {
    var both := p + q;
    if |p| == 1 {
      assert both[1..] == q;
    } else {
      assert both[1..] == p[1..] + q;
      match Get(memory, m, p[0]) {
        case Found(v) =>
          if v.Single? {
            ResolveSplits(memory, v.message, p[1..], q);
          }
        case _ =>
      }
    }
  }

  lemma {:induction false} SplitOfConcat(p: string, q: string)
    ensures Split(p + "." + q) == Split(p) + Split(q)
    decreases |q|
  {
    var whole := p + "." + q;
    if q == [] {
      assert whole[..|whole| - 1] == p;
    } else {
      var shorter := q[..|q| - 1];
      assert whole[..|whole| - 1] == p + "." + shorter;
      SplitOfConcat(p, shorter);
    }
  }

  /** Paths compose with the dot, when the first leads to a singular message. */
  lemma PathsCompose(memory: Memory, m: MessageId, p: string, q: string, inner: MessageId)
    requires Resolve(memory, m, Split(p)) == Found(Single(inner))
    ensures Resolve(memory, m, Split(p + "." + q)) == Resolve(memory, inner, Split(q))
  {
    SplitOfConcat(p, q);
    ResolveSplits(memory, m, Split(p), Split(q));
  }

  /** And a path that fails makes every extension of it fail in the same way. */
  lemma FailuresStand(memory: Memory, m: MessageId, p: string, q: string)
    requires !Resolve(memory, m, Split(p)).Found?
    ensures Resolve(memory, m, Split(p + "." + q)) == Resolve(memory, m, Split(p))
  {
    SplitOfConcat(p, q);
    ResolveSplits(memory, m, Split(p), Split(q));
  }

  /** A proper beginning of the path leads to a list of messages or any map. */
  ghost predicate CrossesRepeated(memory: Memory, m: MessageId, fields: seq<string>, k: nat) {
    0 < k < |fields| && Resolve(memory, m, fields[..k]) == Found(Repeated(true))
  }

  /** The run-time failure happens exactly when the path tries to go through a repeated message field. */
  lemma {:induction false} PanicsIffRepeated(memory: Memory, m: MessageId, fields: seq<string>)
    requires fields != []
    ensures Resolve(memory, m, fields).Panics? <==> exists k: nat :: CrossesRepeated(memory, m, fields, k)
    decreases |fields|
  {
    if exists k: nat :: CrossesRepeated(memory, m, fields, k) {
      var k: nat :| CrossesRepeated(memory, m, fields, k);
      assert fields == fields[..k] + fields[k..];
      ResolveSplits(memory, m, fields[..k], fields[k..]);
    }
    if Resolve(memory, m, fields).Panics? {
      var front := fields[..|fields| - 1];
      if front != [] {
        assert fields == front + fields[|front|..];
        ResolveSplits(memory, m, front, fields[|front|..]);
        if Resolve(memory, m, front).Panics? {
          PanicsIffRepeated(memory, m, front);
          var k: nat :| CrossesRepeated(memory, m, front, k);
          assert fields[..k] == front[..k];
          assert CrossesRepeated(memory, m, fields, k);
        } else {
          assert CrossesRepeated(memory, m, fields, |front|);
        }
      }
    }
  }
}
