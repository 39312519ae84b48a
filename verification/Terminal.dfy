/** The terminal snapshot on the wire: terminal_fields and decode_terminal (protocol/wire.py). */
module Terminals {
  import opened Base
  import opened Outcomes
  import opened JsonTrees
  import Events

  // Printing.

  function PrintCode(c: Code): Json {
    if c.Other? then Text(c.text) else Named(CodeWord(c))
  }

  function DiagnosticObject(code: Json, message: Json, diagnostics: Json): Json {
    Object(map[CodeKey := code, Message := message, Diagnostics := diagnostics])
  }

  function PrintDiagnostic(d: Diagnostic): Json
    decreases d, 0
  {
    DiagnosticObject(PrintCode(d.code), Text(d.message), List(PrintDiagnostics(d.diagnostics)))
  }

  function PrintDiagnostics(ds: seq<Diagnostic>): seq<Json>
    decreases ds, 1
  {
    if |ds| == 0 then [] else [PrintDiagnostic(ds[0])] + PrintDiagnostics(ds[1..])
  }

  function PrintOptional(d: Option<Diagnostic>): Json {
    if d.None? then Null else PrintDiagnostic(d.value)
  }

  function PrintChildResult(r: Option<ChildResult>): Json {
    if r.None? then Null
    else Object(map[Returncode := Int(r.value.returncode), TerminationRequested := Bool(r.value.terminationRequested)])
  }

  function PrintResidual(r: Residual): Json {
    Named(ResidualWord(r))
  }

  function PrintCleanup(c: CleanupReport): Json {
    Object(map[
      ChildDisposalKey := Named(ChildDisposalWord(c.child)),
      WorkspaceDisposalKey := Named(WorkspaceDisposalWord(c.workspace)),
      ResidualResources := List(PrintAll(PrintResidual, c.residuals))])
  }

  function PrintLog(l: Option<LogReport>): Json {
    if l.None? then Null
    else Object(map[ByteCount := Int(l.value.byteCount), Complete := Bool(l.value.complete),
                    DiagnosticKey := PrintOptional(l.value.diagnostic)])
  }

  function PrintTerminal(s: TerminalSnapshot): Json {
    Object(map[
      Version := Int(1),
      Type := Named(SessionEndedWord),
      TriggerKey := Named(TriggerWord(s.outcome.trigger)),
      PrimaryFailure := PrintOptional(s.outcome.primary),
      Diagnostics := List(PrintDiagnostics(s.outcome.diagnostics)),
      ChildResultKey := PrintChildResult(s.outcome.childResult),
      Cleanup := PrintCleanup(s.cleanup),
      LogKey := PrintLog(s.log)])
  }

  // Parsing.

  function ParseCode(j: Json): Option<Code> {
    if j.Text? && j.text != [] then Some(Other(j.text))
    else if j.Named? && j.word.CodeWord? && !j.word.code.Other? then Some(j.word.code)
    else None
  }

  function ParseDiagnostic(j: Json): Option<Diagnostic>
    decreases j, 0
  {
    if !Exact(j, {CodeKey, Message, Diagnostics}) || !j.fields[Message].Text? || !j.fields[Diagnostics].List? then None
    else
      var code := ParseCode(j.fields[CodeKey]);
      var inner := ParseDiagnostics(j.fields[Diagnostics].items);
      if code.None? || inner.None? then None
      else Some(Diagnostic(code.value, j.fields[Message].text, inner.value))
  }

  function ParseDiagnostics(items: seq<Json>): Option<seq<Diagnostic>>
    decreases items, 1
  {
    if |items| == 0 then Some([])
    else
      var first := ParseDiagnostic(items[0]);
      var rest := ParseDiagnostics(items[1..]);
      if first.None? || rest.None? then None else Some([first.value] + rest.value)
  }

  /** The outer option is the parse; the inner one the value or null. */
  function ParseOptional(j: Json): Option<Option<Diagnostic>> {
    if j.Null? then Some(None)
    else
      var d := ParseDiagnostic(j);
      if d.None? then None else Some(Some(d.value))
  }

  function ParseChildResult(j: Json): Option<Option<ChildResult>> {
    if j.Null? then Some(None)
    else if !Exact(j, {Returncode, TerminationRequested}) || !j.fields[Returncode].Int?
            || !j.fields[TerminationRequested].Bool? then None
    else Some(Some(ChildResult(j.fields[Returncode].number, j.fields[TerminationRequested].flag)))
  }

  function ParseResidual(j: Json): Option<Residual> {
    if j.Named? && j.word.ResidualWord? then Some(j.word.residual) else None
  }

  /** The cleanup report; its constructor checks that its parts agree. */
  function ParseCleanup(j: Json): Option<CleanupReport> {
    if !Exact(j, {ChildDisposalKey, WorkspaceDisposalKey, ResidualResources}) then None
    else
      var child, workspace, residuals :=
        j.fields[ChildDisposalKey], j.fields[WorkspaceDisposalKey], j.fields[ResidualResources];
      if !child.Named? || !child.word.ChildDisposalWord? || !workspace.Named?
         || !workspace.word.WorkspaceDisposalWord? || !residuals.List? then None
      else
        var all := ParseAll(ParseResidual, residuals.items);
        if all.None? then None
        else
          var report := CleanupReport(child.word.child, workspace.word.workspace, all.value);
          if report.Valid() then Some(report) else None
  }

  function ParseLog(j: Json): Option<Option<LogReport>> {
    if j.Null? then Some(None)
    else if !Exact(j, {ByteCount, Complete, DiagnosticKey}) || !j.fields[ByteCount].Int?
            || !j.fields[Complete].Bool? then None
    else
      var diagnostic := ParseOptional(j.fields[DiagnosticKey]);
      if diagnostic.None? then None
      else
        var report := LogReport(j.fields[ByteCount].number, j.fields[Complete].flag, diagnostic.value);
        if report.Valid() then Some(Some(report)) else None
  }

  const TERMINAL_FIELDS := {Version, Type, TriggerKey, PrimaryFailure, Diagnostics, ChildResultKey, Cleanup, LogKey}

  function ParseOutcome(trigger: Json, primary: Json, diagnostics: Json, child: Json): Option<Outcome> {
    var primary := ParseOptional(primary);
    var child := ParseChildResult(child);
    if !trigger.Named? || !trigger.word.TriggerWord? || primary.None? || child.None? || !diagnostics.List? then None
    else
      var all := ParseDiagnostics(diagnostics.items);
      if all.None? then None
      else
        var outcome := Outcome(trigger.word.trigger, primary.value, all.value, child.value);
        if outcome.Valid() then Some(outcome) else None
  }

  /** decode_terminal, on a decoded frame; None is any of its refusals. */
  function DecodeTerminal(j: Json): Option<TerminalSnapshot> {
    if !Exact(j, TERMINAL_FIELDS) || j.fields[Version] != Int(1) || j.fields[Type] != Named(SessionEndedWord) then None
    else
      var m := j.fields;
      var outcome := ParseOutcome(m[TriggerKey], m[PrimaryFailure], m[Diagnostics], m[ChildResultKey]);
      var cleanup := ParseCleanup(m[Cleanup]);
      var log := ParseLog(m[LogKey]);
      if outcome.None? || cleanup.None? || log.None? then None
      else
        var snapshot := TerminalSnapshot(outcome.value, cleanup.value, log.value);
        if snapshot.Coherent() then Some(snapshot) else None
  }

  /** terminal_fields: the message, checked by decoding it before it is admitted. */
  function TerminalFields(s: TerminalSnapshot): Option<Json> {
    var j := PrintTerminal(s);
    if DecodeTerminal(j).Some? then Some(j) else None
  }

  // The round trip.

  lemma DiagnosticObjectFields(code: Json, message: Json, diagnostics: Json)
    ensures
      var j := DiagnosticObject(code, message, diagnostics);
      && Exact(j, {CodeKey, Message, Diagnostics})
      && j.fields[CodeKey] == code && j.fields[Message] == message && j.fields[Diagnostics] == diagnostics
  {
  }

  /** A diagnostic tree reads back exactly when no code in it is empty, at any depth. */
  lemma {:induction false} DiagnosticRoundTrip(d: Diagnostic)
    ensures ParseDiagnostic(PrintDiagnostic(d)) == if Events.CodePresent(d) then Some(d) else None
    decreases d, 0
  {
    DiagnosticsRoundTrip(d.diagnostics);
    DiagnosticObjectFields(PrintCode(d.code), Text(d.message), List(PrintDiagnostics(d.diagnostics)));
    assert (forall x | x in d.diagnostics :: Events.CodePresent(x)) <==>
           forall i | 0 <= i < |d.diagnostics| :: Events.CodePresent(d.diagnostics[i]);
  }

  lemma {:induction false} DiagnosticsRoundTrip(ds: seq<Diagnostic>)
    ensures ParseDiagnostics(PrintDiagnostics(ds)) ==
            if forall i | 0 <= i < |ds| :: Events.CodePresent(ds[i]) then Some(ds) else None
    decreases ds, 1
  {
    if |ds| > 0 {
      DiagnosticRoundTrip(ds[0]);
      DiagnosticsRoundTrip(ds[1..]);
      assert PrintDiagnostics(ds)[1..] == PrintDiagnostics(ds[1..]);
      assert forall i | 0 <= i < |ds[1..]| :: ds[1..][i] == ds[i + 1];
      assert (forall i | 0 <= i < |ds| :: Events.CodePresent(ds[i])) <==>
             Events.CodePresent(ds[0]) && forall i | 0 <= i < |ds[1..]| :: Events.CodePresent(ds[1..][i]);
      assert [ds[0]] + ds[1..] == ds;
    }
  }

  lemma OptionalRoundTrip(d: Option<Diagnostic>)
    ensures ParseOptional(PrintOptional(d)) ==
            if d.Some? && !Events.CodePresent(d.value) then None else Some(d)
  {
    if d.Some? {
      DiagnosticRoundTrip(d.value);
    }
  }

  lemma CleanupRoundTrip(c: CleanupReport)
    requires c.Valid()
    ensures ParseCleanup(PrintCleanup(c)) == Some(c)
  {
    ParseAllPrinted(ParseResidual, PrintResidual, c.residuals);
  }

  lemma LogRoundTrip(l: Option<LogReport>)
    requires l.Some? ==> l.value.Valid()
    ensures ParseLog(PrintLog(l)) ==
            if l.Some? && l.value.diagnostic.Some? && !Events.CodePresent(l.value.diagnostic.value) then None else Some(l)
  {
    if l.Some? {
      OptionalRoundTrip(l.value.diagnostic);
    }
  }

  lemma ChildResultRoundTrip(r: Option<ChildResult>)
    ensures ParseChildResult(PrintChildResult(r)) == Some(r)
  {
  }

  predicate OutcomeCodes(o: Outcome) {
    && (o.primary.Some? ==> Events.CodePresent(o.primary.value))
    && (forall i | 0 <= i < |o.diagnostics| :: Events.CodePresent(o.diagnostics[i]))
  }

  lemma OutcomeRoundTrip(o: Outcome)
    requires o.Valid()
    ensures ParseOutcome(Named(TriggerWord(o.trigger)), PrintOptional(o.primary), List(PrintDiagnostics(o.diagnostics)),
                         PrintChildResult(o.childResult)) ==
            if OutcomeCodes(o) then Some(o) else None
  {
    OptionalRoundTrip(o.primary);
    DiagnosticsRoundTrip(o.diagnostics);
    ChildResultRoundTrip(o.childResult);
  }

  lemma PrintedFields(s: TerminalSnapshot)
    ensures
      var j := PrintTerminal(s);
      && Exact(j, TERMINAL_FIELDS)
      && j.fields[Version] == Int(1) && j.fields[Type] == Named(SessionEndedWord)
      && j.fields[TriggerKey] == Named(TriggerWord(s.outcome.trigger))
      && j.fields[PrimaryFailure] == PrintOptional(s.outcome.primary)
      && j.fields[Diagnostics] == List(PrintDiagnostics(s.outcome.diagnostics))
      && j.fields[ChildResultKey] == PrintChildResult(s.outcome.childResult)
      && j.fields[Cleanup] == PrintCleanup(s.cleanup) && j.fields[LogKey] == PrintLog(s.log)
  {
  }

  /**
   * Decoding inverts printing on every valid snapshot whose diagnostic codes
   * are all non-empty, over unboundedly nested diagnostics, and refuses every
   * other one: the helper admits a terminal exactly then.
   */
  lemma TerminalRoundTrip(s: TerminalSnapshot)
    requires s.Valid()
    ensures DecodeTerminal(PrintTerminal(s)) == if Events.CodesPresent(s) then Some(s) else None
    ensures TerminalFields(s).Some? <==> Events.CodesPresent(s)
  {
    PrintedFields(s);
    OutcomeRoundTrip(s.outcome);
    CleanupRoundTrip(s.cleanup);
    LogRoundTrip(s.log);
    assert Events.CodesPresent(s) <==>
           OutcomeCodes(s.outcome) &&
           (s.log.Some? && s.log.value.diagnostic.Some? ==> Events.CodePresent(s.log.value.diagnostic.value)) by {
      assert forall i | 0 <= i < |s.outcome.diagnostics| :: s.outcome.diagnostics[i] in s.outcome.diagnostics;
    }
  }

  /** Whatever decodes is a snapshot every constructor accepted, with no empty code. */
  lemma {:induction false} DecodedDiagnosticHasCodes(j: Json)
    ensures ParseDiagnostic(j).Some? ==> Events.CodePresent(ParseDiagnostic(j).value)
    decreases j, 0
  {
    if ParseDiagnostic(j).Some? {
      DecodedDiagnosticsHaveCodes(j.fields[Diagnostics].items);
    }
  }

  lemma {:induction false} DecodedDiagnosticsHaveCodes(items: seq<Json>)
    ensures ParseDiagnostics(items).Some? ==>
              forall i | 0 <= i < |ParseDiagnostics(items).value| :: Events.CodePresent(ParseDiagnostics(items).value[i])
    decreases items, 1
  {
    if |items| > 0 && ParseDiagnostics(items).Some? {
      DecodedDiagnosticHasCodes(items[0]);
      DecodedDiagnosticsHaveCodes(items[1..]);
    }
  }

  lemma DecodedIsValid(j: Json)
    ensures DecodeTerminal(j).Some? ==> DecodeTerminal(j).value.Valid() && Events.CodesPresent(DecodeTerminal(j).value)
  {
    if DecodeTerminal(j).Some? {
      var m := j.fields;
      DecodedDiagnosticHasCodes(m[PrimaryFailure]);
      DecodedDiagnosticsHaveCodes(m[Diagnostics].items);
      if m[LogKey].Object? {
        DecodedDiagnosticHasCodes(m[LogKey].fields[DiagnosticKey]);
      }
    }
  }
}
