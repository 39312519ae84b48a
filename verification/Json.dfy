/**
 * JSON values as trees. Field names and enumerated words are constructors of
 * their own, so an object with free names is a dictionary.
 */
module JsonTrees {
  import opened Base
  import Outcomes

  datatype Word =
    | StartWord | SessionEndedWord
    | LiveServerWord | ProcessExitWord
    | FileWord | DirectoryWord
    | WorkspaceWord | AddressWord | LogSpoolWord
    | TriggerWord(trigger: Outcomes.Trigger)
    | CodeWord(code: Outcomes.Code)
    | ChildDisposalWord(child: Outcomes.ChildDisposal)
    | WorkspaceDisposalWord(workspace: Outcomes.WorkspaceDisposal)
    | ResidualWord(residual: Outcomes.Residual)

  datatype Key =
    | Version | Type
    | Argv | Environment | RequiredPaths | Services | ReadinessEvidence | ReadinessTimeoutKey
    | LiteralPrefix | ArgvTemplates | PreferredAddress | CompletionPolicyKey
    | Index | Parts | SessionKey | TclWordKey | Kind | PathKey | NameKey | RemotePort
    | TriggerKey | PrimaryFailure | Diagnostics | ChildResultKey | Cleanup | LogKey
    | CodeKey | Message | Returncode | TerminationRequested
    | ChildDisposalKey | WorkspaceDisposalKey | ResidualResources
    | ByteCount | Complete | DiagnosticKey

  datatype Json =
    | Null
    | Bool(flag: bool)
    | Int(number: int)
    | Float(value: real)
    | Text(text: string)
    | Named(word: Word)
    | Ipv4(address: nat)
    | List(items: seq<Json>)
    | Object(fields: map<Key, Json>)
    | Dictionary(entries: map<string, Json>)

  /** An object with exactly the given fields. */
  predicate Exact(j: Json, keys: set<Key>) {
    j.Object? && j.fields.Keys == keys
  }

  /** Parse every item, or nothing. */
  function ParseAll<T>(parse: Json -> Option<T>, items: seq<Json>): Option<seq<T>>
    decreases |items|
  {
    if |items| == 0 then Some([])
    else
      var first := parse(items[0]);
      var rest := ParseAll(parse, items[1..]);
      if first.None? || rest.None? then None else Some([first.value] + rest.value)
  }

  function PrintAll<T(!new)>(print_: T -> Json, xs: seq<T>): seq<Json> {
    seq(|xs|, i requires 0 <= i < |xs| => print_(xs[i]))
  }

  /** Parsing a printed list gives it back when parsing each printed item does. */
  lemma {:induction false} ParseAllPrinted<T(!new)>(parse: Json -> Option<T>, print_: T -> Json, xs: seq<T>)
    requires forall i | 0 <= i < |xs| :: parse(print_(xs[i])) == Some(xs[i])
    ensures ParseAll(parse, PrintAll(print_, xs)) == Some(xs)
    decreases |xs|
  {
    if |xs| > 0 {
      assert forall i | 0 <= i < |xs[1..]| :: xs[1..][i] == xs[i + 1];
      ParseAllPrinted(parse, print_, xs[1..]);
      assert PrintAll(print_, xs)[1..] == PrintAll(print_, xs[1..]);
      assert [xs[0]] + xs[1..] == xs;
    }
  }

  /** What a parsed list is: each item's parse, in order. */
  lemma {:induction false} ParseAllExactly<T>(parse: Json -> Option<T>, items: seq<Json>)
    ensures ParseAll(parse, items).Some? <==> forall i | 0 <= i < |items| :: parse(items[i]).Some?
    ensures ParseAll(parse, items).Some? ==>
              && |ParseAll(parse, items).value| == |items|
              && forall i | 0 <= i < |items| :: Some(ParseAll(parse, items).value[i]) == parse(items[i])
    decreases |items|
  {
    if |items| > 0 {
      ParseAllExactly(parse, items[1..]);
      assert forall i | 0 <= i < |items[1..]| :: items[1..][i] == items[i + 1];
      if exists i | 0 <= i < |items| :: parse(items[i]).None? {
        var i :| 0 <= i < |items| && parse(items[i]).None?;
        assert i > 0 ==> parse(items[1..][i - 1]).None?;
      }
    }
  }
}
