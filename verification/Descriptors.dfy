/** File descriptors as they arrive from the server and as the program holds and patches them. */
module Descriptors {
  import opened Graphs

  datatype FieldKind = StringKind | BytesKind | OtherKind(number: nat)

  datatype Field = Field(name: string, kind: FieldKind)

  /** What one serialized descriptor says; `symbols` are the full names it declares. */
  datatype FileContents = FileContents(
    name: string, dependency: seq<string>, messages: seq<seq<Field>>, symbols: seq<string>)

  /** A decoded descriptor; only its fields' kinds are ever changed. */
  class FileProto {
    const name: string
    const dependency: seq<string>
    const symbols: seq<string>
    var messages: seq<seq<Field>>

    constructor (contents: FileContents)
      ensures Contents() == contents
    {
      name := contents.name;
      dependency := contents.dependency;
      symbols := contents.symbols;
      messages := contents.messages;
    }

    function Contents(): FileContents
      reads this
    {
      FileContents(name, dependency, messages, symbols)
    }
  }

  /** The generated getter: a nil descriptor has the empty name. */
  function GetName(fd: FileProto?): string {
    if fd == null then "" else fd.name
  }

  /** The import graph of a descriptor map; a nil entry imports nothing. */
  function ImportGraph(fdMap: map<string, FileProto?>): Graph {
    map n | n in fdMap :: if fdMap[n] == null then [] else fdMap[n].dependency
  }

  const ABCI_PATH := "cosmos/base/abci/v1beta1/abci.proto"

  predicate NeedsPatch(f: Field) {
    f.name == "raw_log" && f.kind == StringKind
  }

  function PatchedField(f: Field): Field {
    if NeedsPatch(f) then f.(kind := BytesKind) else f
  }

  function PatchedMessage(fields: seq<Field>): seq<Field> {
    seq(|fields|, j requires 0 <= j < |fields| => PatchedField(fields[j]))
  }

  function PatchedMessages(messages: seq<seq<Field>>): seq<seq<Field>> {
    seq(|messages|, i requires 0 <= i < |messages| => PatchedMessage(messages[i]))
  }

  function Patched(c: FileContents): FileContents {
    if c.name == ABCI_PATH then c.(messages := PatchedMessages(c.messages)) else c
  }

  method PatchABCIDescriptor(descriptor: FileProto)
    modifies descriptor`messages
    ensures descriptor.Contents() == Patched(old(descriptor.Contents()))
  {
    if descriptor.name == ABCI_PATH {
      ghost var before := descriptor.messages;
      for i := 0 to |descriptor.messages|
        invariant |descriptor.messages| == |before|
        invariant forall k :: 0 <= k < i ==> descriptor.messages[k] == PatchedMessage(before[k])
        invariant forall k :: i <= k < |before| ==> descriptor.messages[k] == before[k]
      {
        for j := 0 to |descriptor.messages[i]|
          invariant |descriptor.messages| == |before|
          invariant forall k :: 0 <= k < i ==> descriptor.messages[k] == PatchedMessage(before[k])
          invariant forall k :: i < k < |before| ==> descriptor.messages[k] == before[k]
          invariant |descriptor.messages[i]| == |before[i]|
          invariant forall k :: 0 <= k < j ==> descriptor.messages[i][k] == PatchedField(before[i][k])
          invariant forall k :: j <= k < |before[i]| ==> descriptor.messages[i][k] == before[i][k]
        {
          var field := descriptor.messages[i][j];
          if field.name == "raw_log" && field.kind == StringKind {
            descriptor.messages :=
              descriptor.messages[i := descriptor.messages[i][j := field.(kind := BytesKind)]];
          }
        }
        assert descriptor.messages[i] == PatchedMessage(before[i]);
      }
      assert descriptor.messages == PatchedMessages(before);
    }
  }

  /** The patch settles in one application and touches neither names, imports nor symbols. */
  lemma PatchIsIdempotent(c: FileContents)
    ensures Patched(Patched(c)) == Patched(c)
    ensures Patched(c).name == c.name && Patched(c).dependency == c.dependency && Patched(c).symbols == c.symbols
  {
    if c.name == ABCI_PATH {
      var once := PatchedMessages(c.messages);
      forall i | 0 <= i < |once|
        ensures PatchedMessage(once[i]) == once[i]
      {
      }
      assert PatchedMessages(once) == once;
    }
  }

  /** The patch changes the type of text fields named raw_log in one file, and nothing else in any file. */
  lemma PatchRemovesTextRawLog(c: FileContents, i: nat, j: nat)
    requires i < |c.messages| && j < |c.messages[i]|
    ensures |Patched(c).messages| == |c.messages| && |Patched(c).messages[i]| == |c.messages[i]|
    ensures var f, f' := c.messages[i][j], Patched(c).messages[i][j];
            && f'.name == f.name
            && f'.kind == (if c.name == "cosmos/base/abci/v1beta1/abci.proto" && f.name == "raw_log"
                           && f.kind.StringKind? then BytesKind else f.kind)
    ensures c.name != "cosmos/base/abci/v1beta1/abci.proto" ==> Patched(c) == c
  {
  }
}
