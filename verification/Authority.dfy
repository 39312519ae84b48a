/** The session authority shared by the reader and dependent work (controller/authority.py). */
module Authorities {
  import opened Base
  import opened Outcomes
  import opened Admissions

  /** An exception object, by identity: a SessionEndingError or any other. */
  datatype Error = SessionEnding(id: int) | Plain(id: int)

  datatype FailureCode =
    | TerminalFailure
    | ReaderFailure
    | ControlEndedFailure
    | ControlProcessFailure
    | OperationFailure
    | Coded(number: nat)

  /** A log fact attached to a primary failure. */
  datatype Note = Note(primary: Error, fact: Error)

  /** Log facts, each attached to one primary. */
  function Attached(primary: Error, facts: seq<Error>): seq<Note> {
    seq(|facts|, i requires 0 <= i < |facts| => Note(primary, facts[i]))
  }

  function Facts(notes: seq<Note>): seq<Error> {
    seq(|notes|, i requires 0 <= i < |notes| => notes[i].fact)
  }

  lemma FactsAppend(notes: seq<Note>, primary: Error, facts: seq<Error>)
    ensures Facts(notes + Attached(primary, facts)) == Facts(notes) + facts
  {
  }

  /** The identity a failure is recorded under. */
  datatype Key = ByError(code: FailureCode, error: Error) | TerminalKey | ReaderKey | ControlEndedKey | ControlStatusKey
               | Named(name: nat)

  datatype Failed = Failed(key: Key, code: FailureCode, error: Error)

  /**
   * The authority's fields. Errors it creates itself take the identities
   * below zero, one after another; `noted` lists the log facts attached so
   * far, each with the primary it was attached to.
   */
  datatype Authority = Authority(
    terminal: Option<TerminalSnapshot>,
    failures: seq<Failed>,
    closing: bool,
    reported: bool,
    policy: CompletionPolicy,
    gate: Gate,
    controlEnded: bool,
    pending: bool,
    deferred: seq<Failed>,
    logFailures: seq<Error>,
    projected: nat,
    noted: seq<Note>,
    made: nat)

  function NewAuthority(): Authority {
    Authority(None, [], false, false, LiveServer, NewGate(), false, false, [], [], 0, [], 0)
  }

  function Primary(a: Authority): Option<Error> {
    if a.failures == [] then None else Some(a.failures[0].error)
  }

  predicate HasKey(fs: seq<Failed>, key: Key) {
    exists i | 0 <= i < |fs| :: fs[i].key == key
  }

  predicate HasError(fs: seq<Failed>, error: Error) {
    exists i | 0 <= i < |fs| :: fs[i].error == error
  }

  /** A failure already known by its identity or its exception object. */
  predicate Known(fs: seq<Failed>, f: Failed) {
    HasKey(fs, f.key) || HasError(fs, f.error)
  }

  function Identified(code: FailureCode, error: Error, key: Option<Key>): Failed {
    Failed(if key.Some? then key.value else ByError(code, error), code, error)
  }

  /** record_failure. */
  function Noticed(a: Authority, f: Failed): Authority {
    if Known(a.failures, f) then a
    else if a.pending && f.error.SessionEnding? then
      if HasError(a.deferred, f.error) then a else a.(deferred := a.deferred + [f])
    else
      a.(failures := a.failures + [f], reported := false, gate := FailedGate(a.gate, |a.failures|))
  }

  function NoticedAll(a: Authority, fs: seq<Failed>): Authority
    decreases |fs|
  {
    if |fs| == 0 then a else NoticedAll(Noticed(a, fs[0]), fs[1..])
  }

  /** An error the authority creates now. */
  function Made(a: Authority): Error {
    Plain(-1 - a.made)
  }

  /** Record a failure the authority itself words. */
  function NoticedOwn(a: Authority, code: FailureCode, key: Key): Authority {
    Noticed(a.(made := a.made + 1), Failed(key, code, Made(a)))
  }

  function Published(a: Authority): Authority {
    if a.failures == [] then a else a.(reported := true)
  }

  function LogNoticed(a: Authority, e: Error): Authority {
    if e in a.logFailures then a else a.(logFailures := a.logFailures + [e])
  }

  /** The terminal snapshot published, and the log fact it carries. */
  function Terminated(a: Authority, s: TerminalSnapshot): Authority {
    var held := a.(terminal := Some(s));
    if s.log.Some? && s.log.value.diagnostic.Some?
    then LogNoticed(held.(made := held.made + 1), Made(held))
    else held
  }

  /** record_terminal. */
  function Ended(a: Authority, s: TerminalSnapshot): Authority {
    var logged := Terminated(a, s);
    var judged :=
      if s.outcome.ChildFailureIsPrimary() || s.OperationFailed(a.policy)
      then NoticedOwn(logged, TerminalFailure, TerminalKey)
      else logged;
    judged.(gate := judged.gate.(phase := Over))
  }

  /** finish_control_exit. */
  function Finished(a: Authority): Authority {
    var judged := if a.terminal.None? then NoticedOwn(a, ControlEndedFailure, ControlEndedKey) else a;
    NoticedAll(judged.(pending := false, deferred := []), judged.deferred)
  }

  /** project_result: the authority and the operation failure. */
  function Projected(a: Authority): (r: (Authority, Option<Error>)) {
    var p := Published(a);
    var byLog := Primary(p).None? && p.logFailures != [];
    var primary := if byLog then Some(p.logFailures[0]) else Primary(p);
    var first := if byLog && p.projected == 0 then 1 else p.projected;
    if primary.None? then (p, None)
    else
      var more := if first <= |p.logFailures| then p.logFailures[first..] else [];
      (p.(noted := p.noted + Attached(primary.value, more), projected := |p.logFailures|), primary)
  }

  /** What a call answered: its exception or its value. */
  datatype Answer =
    | Returned
    | Value(status: Option<int>)
    | Result(failure: Option<Error>)
    | Raised(error: Error)
    | RaisedEnding(error: Error)
    | RaisedClosed
    | RaisedDenied
    | RaisedNotReady
    | Refused
    | Deferred
    | Granted(ticket: nat)

  datatype Call =
    | SetPolicy(policy: CompletionPolicy)
    | RecordReady
    | RecordFailure(code: FailureCode, error: Error, key: Option<Key>)
    | RecordLogFailure(error: Error)
    | RecordTerminal(snapshot: TerminalSnapshot)
    | Cancel
    | RecordReaderFailure
    | BeginControlExit
    | FinishControlExit
    | RecordControlStatus(status: Option<int>)
    | ProjectResult
    | OperationStatus
    | ResolveEffect(error: Error)
    | ResolveOptional(error: Error)
    | TakeUnreported
    | AdmitWork(required: set<Forward>, forwarded: set<Forward>, finalRefuses: bool)
    | AdmitHelperEffect(finalRefuses: bool)
    | AdmitStartWrite

  function WorkAdmitted(a: Authority, required: set<Forward>, forwarded: set<Forward>, finalRefuses: bool)
    : (Authority, Answer)
  {
    if a.failures != [] then (Published(a), Raised(a.failures[0].error))
    else if a.closing then (a, RaisedClosed)
    else if a.pending then (a.(made := a.made + 1), RaisedEnding(SessionEnding(-1 - a.made)))
    else if a.terminal.Some? || a.controlEnded then (a, RaisedClosed)
    else
      var prepared := PreparedGate(a.gate, required);
      if prepared.None? then (a, RaisedDenied)
      else
        var ticket := NextTicket(a.gate);
        var ready := a.(gate := prepared.value.(forwarded := forwarded));
        if finalRefuses then (ready, Refused)
        else if !ready.gate.Eligible(ticket) then (ready, RaisedNotReady)
        else (ready.(gate := ready.gate.(phase := Launched)), Granted(ticket))
  }

  /** One call of the authority, as a function of its state. */
  function Do(a: Authority, c: Call): (Authority, Answer) {
    match c
    case SetPolicy(policy) => (a.(policy := policy), Returned)
    case RecordReady => (a.(gate := a.gate.(remoteReady := true)), Returned)
    case RecordFailure(code, error, key) => (Noticed(a, Identified(code, error, key)), Returned)
    case RecordLogFailure(error) => (LogNoticed(a, error), Returned)
    case RecordTerminal(s) => (Ended(a, s), Returned)
    case Cancel => (a.(closing := true, gate := CancelledGate(a.gate)), Returned)
    case RecordReaderFailure => (NoticedOwn(a, ReaderFailure, ReaderKey), Returned)
    case BeginControlExit => (a.(controlEnded := true, pending := true), Returned)
    case FinishControlExit => (Finished(a), Returned)
    case RecordControlStatus(status) =>
      (if status.Some? && status.value != 0 then NoticedOwn(a, ControlProcessFailure, ControlStatusKey) else a,
       Returned)
    case ProjectResult => (Projected(a).0, Result(Projected(a).1))
    case OperationStatus =>
      if a.failures != [] then (Published(a), Raised(a.failures[0].error))
      else if a.pending then (a, Value(None))
      else
        (a, Value(if a.terminal.None? || a.terminal.value.outcome.childResult.None? then None
                  else Some(a.terminal.value.outcome.childResult.value.returncode)))
    case ResolveEffect(error) =>
      var next := Noticed(a, Identified(OperationFailure, error, None));
      (Published(next), Result(Some(if next.failures == [] then error else next.failures[0].error)))
    case ResolveOptional(error) =>
      if a.failures == [] then (a, Result(None))
      else
        var next := Noticed(a, Identified(OperationFailure, error, None));
        (Published(next), Result(Primary(next)))
    case TakeUnreported =>
      if a.reported then (a, Result(None)) else (Published(a), Result(Primary(a)))
    case AdmitWork(required, forwarded, finalRefuses) => WorkAdmitted(a, required, forwarded, finalRefuses)
    case AdmitHelperEffect(finalRefuses) =>
      if a.failures != [] then (Published(a), Raised(a.failures[0].error))
      else if a.pending then (a.(made := a.made + 1), RaisedEnding(SessionEnding(-1 - a.made)))
      else if a.terminal.Some? || a.controlEnded then (a, RaisedClosed)
      else if finalRefuses then (a, Refused)
      else (a, Returned)
    case AdmitStartWrite =>
      if a.failures != [] then (Published(a), Raised(a.failures[0].error))
      else if a.pending then (a, Deferred)
      else if a.terminal.Some? || a.controlEnded then (a, RaisedClosed)
      else (a, Returned)
  }

  function Run(a: Authority, calls: seq<Call>): Authority
    decreases |calls|
  {
    if |calls| == 0 then a else Run(Do(a, calls[0]).0, calls[1..])
  }

  /** Identities and exception objects are recorded once each. */
  predicate Unrepeated(fs: seq<Failed>) {
    forall i, j | 0 <= i < j < |fs| :: fs[i].key != fs[j].key && fs[i].error != fs[j].error
  }

  predicate DistinctErrors(fs: seq<Failed>) {
    forall i, j | 0 <= i < j < |fs| :: fs[i].error != fs[j].error
  }

  /** Every recorded exception object exists: the authority's own ones were made. */
  predicate AllExist(fs: seq<Failed>, made: nat) {
    forall i | 0 <= i < |fs| :: fs[i].error.id + made >= 0
  }

  /** Dependent work is over for good. */
  predicate Stopped(a: Authority) {
    a.failures != [] || a.closing || a.terminal.Some? || a.controlEnded
  }

  /** Refusals wait only for a pending observation, and are not recorded yet. */
  predicate DeferredInv(a: Authority) {
    && DistinctErrors(a.deferred)
    && (a.deferred != [] ==> a.pending)
    && AllExist(a.deferred, a.made)
    && (forall i | 0 <= i < |a.deferred| ::
          a.deferred[i].error.SessionEnding? && !HasError(a.failures, a.deferred[i].error))
  }

  /** Each log fact is attached to a primary at most once, in order; the first may be the primary. */
  predicate LogFactsInv(a: Authority) {
    && Distinct(a.logFailures)
    && (forall i | 0 <= i < |a.logFailures| :: a.logFailures[i].id + a.made >= 0)
    && a.projected <= |a.logFailures|
    && (Facts(a.noted) == a.logFailures[..a.projected] ||
        (a.projected > 0 && Facts(a.noted) == a.logFailures[1..a.projected]))
  }

  /** What every reachable state satisfies. */
  predicate AuthorityInv(a: Authority) {
    && Unrepeated(a.failures)
    && AllExist(a.failures, a.made)
    && (a.gate.Denies() ==> Stopped(a))
    && (a.pending ==> a.controlEnded)
    && DeferredInv(a)
    && LogFactsInv(a)
  }

  /** A call passes exception objects that exist. */
  predicate CallOk(a: Authority, c: Call) {
    match c
    case RecordFailure(_, error, _) => error.id + a.made >= 0
    case RecordLogFailure(error) => error.id + a.made >= 0
    case ResolveEffect(error) => error.id + a.made >= 0
    case ResolveOptional(error) => error.id + a.made >= 0
    case _ => true
  }

  predicate AllOk(a: Authority, calls: seq<Call>)
    decreases |calls|
  {
    |calls| == 0 || (CallOk(a, calls[0]) && AllOk(Do(a, calls[0]).0, calls[1..]))
  }

  /** The gate refuses nothing that the authority's own checks have passed. */
  lemma LaunchDeniedNeverEscapes(a: Authority, required: set<Forward>, forwarded: set<Forward>, finalRefuses: bool)
    requires AuthorityInv(a)
    ensures Do(a, AdmitWork(required, forwarded, finalRefuses)).1 != RaisedDenied
  {
  }

  /** Entry, exactly: nothing stopped the session, READY was seen and every required forward is up. */
  lemma EntryExactly(a: Authority, required: set<Forward>, forwarded: set<Forward>, finalRefuses: bool)
    requires AuthorityInv(a)
    ensures
      var (next, answer) := Do(a, AdmitWork(required, forwarded, finalRefuses));
      && (answer.Granted? <==> !Stopped(a) && !finalRefuses && a.gate.remoteReady && required <= forwarded)
      && (answer.Granted? ==>
            && answer.ticket == NextTicket(a.gate)
            && next.gate.ticket == Some(answer.ticket)
            && next.gate.phase.Launched?)
      && (Stopped(a) ==> next.gate == a.gate)
  {
  }

  /** What no call undoes. */
  predicate Onward(a: Authority, b: Authority) {
    && a.failures <= b.failures
    && (Stopped(a) ==> Stopped(b))
    && (a.gate.remoteReady ==> b.gate.remoteReady)
    && NextTicket(a.gate) <= NextTicket(b.gate)
    && a.logFailures <= b.logFailures
    && a.made <= b.made
  }

  lemma NoticedKeeps(a: Authority, f: Failed)
    requires AuthorityInv(a) && f.error.id + a.made >= 0
    ensures AuthorityInv(Noticed(a, f)) && Onward(a, Noticed(a, f))
    ensures Noticed(a, f) == a.(failures := Noticed(a, f).failures, deferred := Noticed(a, f).deferred,
                                reported := Noticed(a, f).reported, gate := Noticed(a, f).gate)
  {
    var b := Noticed(a, f);
    if Known(a.failures, f) {
    } else if a.pending && f.error.SessionEnding? {
    } else {
      forall i | 0 <= i < |a.deferred|
        ensures !HasError(b.failures, a.deferred[i].error)
      {
        assert a.deferred[i].error != f.error;
      }
    }
  }

  /** An error the authority makes is not recorded yet. */
  lemma MadeIsNew(a: Authority)
    requires AuthorityInv(a)
    ensures !HasError(a.failures, Made(a)) && !HasError(a.deferred, Made(a))
  {
  }

  /** A failure in the authority's own words is recorded unless its key already is. */
  lemma OwnExactly(a: Authority, code: FailureCode, key: Key)
    requires AuthorityInv(a)
    ensures AuthorityInv(NoticedOwn(a, code, key)) && Onward(a, NoticedOwn(a, code, key))
    ensures NoticedOwn(a, code, key).failures ==
            a.failures + if HasKey(a.failures, key) then [] else [Failed(key, code, Made(a))]
    ensures NoticedOwn(a, code, key).deferred == a.deferred && NoticedOwn(a, code, key).pending == a.pending
    ensures NoticedOwn(a, code, key).terminal == a.terminal && NoticedOwn(a, code, key).policy == a.policy
  {
    MadeIsNew(a);
    MoreKeeps(a, a.(made := a.made + 1));
    NoticedKeeps(a.(made := a.made + 1), Failed(key, code, Made(a)));
    OnwardSteps(a, a.(made := a.made + 1), NoticedOwn(a, code, key));
  }

  lemma LogKeeps(a: Authority, e: Error)
    requires AuthorityInv(a) && e.id + a.made >= 0
    ensures AuthorityInv(LogNoticed(a, e)) && Onward(a, LogNoticed(a, e))
    ensures LogNoticed(a, e) == a.(logFailures := LogNoticed(a, e).logFailures)
    ensures e in LogNoticed(a, e).logFailures
  {
    var b := LogNoticed(a, e);
    if e !in a.logFailures {
      assert a.logFailures[..a.projected] == b.logFailures[..a.projected];
      assert a.projected > 0 ==> a.logFailures[1..a.projected] == b.logFailures[1..a.projected];
    }
  }

  /** A terminal, and errors made, change nothing else. */
  lemma MoreKeeps(a: Authority, b: Authority)
    requires AuthorityInv(a) && b == a.(terminal := b.terminal, made := b.made)
    requires a.made <= b.made && (a.terminal.Some? ==> b.terminal.Some?)
    ensures AuthorityInv(b) && Onward(a, b)
  {
  }

  lemma TerminatedKeeps(a: Authority, s: TerminalSnapshot)
    requires AuthorityInv(a)
    ensures AuthorityInv(Terminated(a, s)) && Onward(a, Terminated(a, s))
    ensures Terminated(a, s) == a.(terminal := Some(s), logFailures := Terminated(a, s).logFailures,
                                   made := Terminated(a, s).made)
  {
    var held := a.(terminal := Some(s));
    MoreKeeps(a, held);
    if s.log.Some? && s.log.value.diagnostic.Some? {
      MoreKeeps(a, held.(made := held.made + 1));
      LogKeeps(held.(made := held.made + 1), Made(held));
      OnwardSteps(a, held.(made := held.made + 1), Terminated(a, s));
    }
  }

  lemma OverKeeps(a: Authority)
    requires AuthorityInv(a) && a.terminal.Some?
    ensures AuthorityInv(a.(gate := a.gate.(phase := Over))) && Onward(a, a.(gate := a.gate.(phase := Over)))
  {
  }

  lemma OnwardSteps(a: Authority, b: Authority, c: Authority)
    requires Onward(a, b) && Onward(b, c)
    ensures Onward(a, c)
  {
  }

  /**
   * The terminal snapshot records a failure exactly when the operation failed
   * under the policy in force, unless one is recorded under its key already.
   */
  lemma TerminalExactly(a: Authority, s: TerminalSnapshot)
    requires AuthorityInv(a)
    ensures AuthorityInv(Ended(a, s)) && Onward(a, Ended(a, s))
    ensures Ended(a, s).terminal == Some(s) && Ended(a, s).policy == a.policy && Ended(a, s).gate.phase.Over?
    ensures Ended(a, s).failures ==
            a.failures +
            if s.OperationFailed(a.policy) && !HasKey(a.failures, TerminalKey)
            then [Failed(TerminalKey, TerminalFailure, Made(Terminated(a, s)))] else []
  {
    TerminatedKeeps(a, s);
    var logged := Terminated(a, s);
    OwnExactly(logged, TerminalFailure, TerminalKey);
    var judged :=
      if s.outcome.ChildFailureIsPrimary() || s.OperationFailed(a.policy)
      then NoticedOwn(logged, TerminalFailure, TerminalKey)
      else logged;
    assert Onward(logged, judged);
    OverKeeps(judged);
    OnwardSteps(a, logged, judged);
    OnwardSteps(a, judged, Ended(a, s));
    assert a.failures + [] == a.failures;
  }

  /** The deferred refusals that join the record: those whose identity is new, in order. */
  function Joined(fs: seq<Failed>, ds: seq<Failed>): seq<Failed>
    decreases |ds|
  {
    if |ds| == 0 then []
    else if HasKey(fs, ds[0].key) then Joined(fs, ds[1..])
    else [ds[0]] + Joined(fs + [ds[0]], ds[1..])
  }

  /** Outside a pending observation, failures with new exception objects join by identity alone. */
  lemma {:induction false} NoticedAllExactly(a: Authority, ds: seq<Failed>)
    requires AuthorityInv(a) && !a.pending && DistinctErrors(ds) && AllExist(ds, a.made)
    requires forall i | 0 <= i < |ds| :: !HasError(a.failures, ds[i].error)
    ensures AuthorityInv(NoticedAll(a, ds)) && Onward(a, NoticedAll(a, ds))
    ensures NoticedAll(a, ds).failures == a.failures + Joined(a.failures, ds)
    ensures NoticedAll(a, ds).deferred == [] && NoticedAll(a, ds).terminal == a.terminal
    ensures NoticedAll(a, ds).policy == a.policy
    decreases |ds|
  {
    if |ds| == 0 {
      assert a.failures + [] == a.failures;
    } else {
      var b := Noticed(a, ds[0]);
      NoticedKeeps(a, ds[0]);
      assert b.failures == if HasKey(a.failures, ds[0].key) then a.failures else a.failures + [ds[0]];
      forall i | 0 <= i < |ds[1..]|
        ensures !HasError(b.failures, ds[1..][i].error)
      {
        assert ds[1..][i] == ds[i + 1];
      }
      NoticedAllExactly(b, ds[1..]);
      OnwardSteps(a, b, NoticedAll(a, ds));
      Assoc(a.failures, [ds[0]], Joined(b.failures, ds[1..]));
    }
  }

  /** The first of the deferred refusals. */
  lemma JoinedFirst(fs: seq<Failed>, ds: seq<Failed>)
    requires |ds| > 0
    ensures HasKey(fs + Joined(fs, ds), ds[0].key)
    ensures DistinctErrors(ds) ==> (ds[0] in Joined(fs, ds) <==> !HasKey(fs, ds[0].key))
  {
    if HasKey(fs, ds[0].key) {
      JoinedOnlyThese(fs, ds[1..]);
      var k :| 0 <= k < |fs| && fs[k].key == ds[0].key;
      assert (fs + Joined(fs, ds))[k].key == ds[0].key;
    } else {
      assert Joined(fs, ds)[0] == ds[0];
      assert (fs + Joined(fs, ds))[|fs|].key == ds[0].key;
    }
  }

  /** What joins: no identity is lost, and a refusal is left out only behind its own identity. */
  lemma {:induction false} JoinedExactly(fs: seq<Failed>, ds: seq<Failed>, i: nat)
    requires i < |ds|
    ensures HasKey(fs + Joined(fs, ds), ds[i].key)
    ensures DistinctErrors(ds) ==>
              (ds[i] in Joined(fs, ds) <==> !HasKey(fs, ds[i].key) && !HasKey(ds[..i], ds[i].key))
    decreases |ds|
  {
    if i == 0 {
      JoinedFirst(fs, ds);
    } else {
      JoinedLater(fs, ds, i);
      var more := if HasKey(fs, ds[0].key) then fs else fs + [ds[0]];
      JoinedExactly(more, ds[1..], i - 1);
      assert ds[1..][i - 1] == ds[i];
      assert DistinctErrors(ds) ==> DistinctErrors(ds[1..]);
    }
  }

  /** Past the first refusal, the rest joins a record that has its key. */
  lemma JoinedLater(fs: seq<Failed>, ds: seq<Failed>, i: nat)
    requires 0 < i < |ds|
    ensures
      var more := if HasKey(fs, ds[0].key) then fs else fs + [ds[0]];
      && fs + Joined(fs, ds) == more + Joined(more, ds[1..])
      && (DistinctErrors(ds) ==> (ds[i] in Joined(fs, ds) <==> ds[i] in Joined(more, ds[1..])))
      && (!HasKey(more, ds[i].key) && !HasKey(ds[1..][..i - 1], ds[i].key) <==>
            !HasKey(fs, ds[i].key) && !HasKey(ds[..i], ds[i].key))
  {
    var first := ds[0];
    assert ds[..i] == [first] + ds[1..][..i - 1];
    KeyOfCons(first, ds[1..][..i - 1], ds[i].key);
    KeyOfSnoc(fs, first, ds[i].key);
    if HasKey(fs, first.key) && first.key == ds[i].key {
      var k :| 0 <= k < |fs| && fs[k].key == first.key;
      assert HasKey(fs, ds[i].key);
    }
    Assoc(fs, [first], Joined(fs + [first], ds[1..]));
  }

  /** One failure stands before another. */
  predicate Before(fs: seq<Failed>, f: Failed, g: Failed) {
    exists p, q | 0 <= p < q < |fs| :: fs[p] == f && fs[q] == g
  }

  lemma BeforeCons(first: Failed, rest: seq<Failed>, f: Failed, g: Failed)
    requires Before(rest, f, g) || (first == f && g in rest)
    ensures Before([first] + rest, f, g)
  {
    var all := [first] + rest;
    if Before(rest, f, g) {
      var p, q :| 0 <= p < q < |rest| && rest[p] == f && rest[q] == g;
      assert all[p + 1] == f && all[q + 1] == g;
    } else {
      var q :| 0 <= q < |rest| && rest[q] == g;
      assert all[0] == f && all[q + 1] == g;
    }
  }

  /** What joins keeps the order it had. */
  lemma {:induction false} JoinedInOrder(fs: seq<Failed>, ds: seq<Failed>, i: nat, j: nat)
    requires i < j < |ds| && DistinctErrors(ds) && ds[i] in Joined(fs, ds) && ds[j] in Joined(fs, ds)
    ensures Before(Joined(fs, ds), ds[i], ds[j])
    decreases |ds|
  {
    var joins := !HasKey(fs, ds[0].key);
    var more := if joins then fs + [ds[0]] else fs;
    var rest := Joined(more, ds[1..]);
    assert ds[1..][j - 1] == ds[j] && DistinctErrors(ds[1..]);
    assert ds[j] in rest;
    if i > 0 {
      assert ds[1..][i - 1] == ds[i];
      JoinedInOrder(more, ds[1..], i - 1, j - 1);
    } else {
      JoinedOnlyThese(fs, ds[1..]);
    }
    if joins {
      BeforeCons(ds[0], rest, ds[i], ds[j]);
    }
  }

  lemma {:induction false} JoinedOnlyThese(fs: seq<Failed>, ds: seq<Failed>)
    ensures forall x | x in Joined(fs, ds) :: x in ds
    decreases |ds|
  {
    if |ds| > 0 {
      JoinedOnlyThese(fs, ds[1..]);
      JoinedOnlyThese(fs + [ds[0]], ds[1..]);
    }
  }

  lemma KeyOfCons(f: Failed, fs: seq<Failed>, key: Key)
    ensures HasKey([f] + fs, key) <==> f.key == key || HasKey(fs, key)
  {
    if HasKey(fs, key) {
      var k :| 0 <= k < |fs| && fs[k].key == key;
      assert ([f] + fs)[k + 1].key == key;
    }
    if f.key == key {
      assert ([f] + fs)[0].key == key;
    }
  }

  lemma KeyOfSnoc(fs: seq<Failed>, f: Failed, key: Key)
    ensures HasKey(fs + [f], key) <==> HasKey(fs, key) || f.key == key
  {
    if HasKey(fs, key) {
      var k :| 0 <= k < |fs| && fs[k].key == key;
      assert (fs + [f])[k].key == key;
    }
    if f.key == key {
      assert (fs + [f])[|fs|].key == key;
    }
  }

  /** The record as final accounting leaves it, before the deferred refusals. */
  function Accounted(a: Authority): Authority {
    if a.terminal.None? then NoticedOwn(a, ControlEndedFailure, ControlEndedKey) else a
  }

  lemma AccountedKeeps(a: Authority)
    requires AuthorityInv(a)
    ensures AuthorityInv(Accounted(a)) && Onward(a, Accounted(a)) && Accounted(a).deferred == a.deferred
    ensures Accounted(a).terminal == a.terminal && Accounted(a).policy == a.policy
    ensures Accounted(a).failures ==
            a.failures +
            if a.terminal.None? && !HasKey(a.failures, ControlEndedKey)
            then [Failed(ControlEndedKey, ControlEndedFailure, Made(a))] else []
  {
    OwnExactly(a, ControlEndedFailure, ControlEndedKey);
    assert a.failures + [] == a.failures;
  }

  /**
   * The end of final observation: after whatever accounting recorded, every
   * deferred refusal whose identity is new joins the record, once and in
   * order, and none stays deferred.
   */
  lemma FinishExactly(a: Authority)
    requires AuthorityInv(a)
    ensures AuthorityInv(Finished(a)) && Onward(a, Finished(a))
    ensures Finished(a).failures == Accounted(a).failures + Joined(Accounted(a).failures, a.deferred)
    ensures Finished(a).deferred == [] && Finished(a).terminal == a.terminal && Finished(a).policy == a.policy
  {
    AccountedKeeps(a);
    var judged := Accounted(a);
    var open := judged.(pending := false, deferred := []);
    assert AuthorityInv(open) && Onward(judged, open);
    NoticedAllExactly(open, a.deferred);
    OnwardSteps(a, judged, open);
    OnwardSteps(a, open, Finished(a));
  }

  /**
   * A deferred refusal becomes primary exactly when nothing else was recorded
   * before the window closed and the terminal was seen; it is then the first
   * one issued.
   */
  lemma RefusalIsPrimaryOnlyLast(a: Authority)
    requires AuthorityInv(a) && a.deferred != []
    ensures Primary(Finished(a)).Some?
    ensures Primary(Finished(a)).value.SessionEnding? && !HasError(a.failures, Primary(Finished(a)).value) <==>
              a.failures == [] && a.terminal.Some?
    ensures a.failures == [] && a.terminal.Some? ==> Primary(Finished(a)) == Some(a.deferred[0].error)
  {
    FinishExactly(a);
    AccountedKeeps(a);
    var fs := Accounted(a).failures;
    if a.failures != [] {
      assert Finished(a).failures[0] == a.failures[0];
      assert HasError(a.failures, a.failures[0].error);
    } else if a.terminal.None? {
      assert !HasKey(a.failures, ControlEndedKey);
      assert Finished(a).failures[0] == fs[0];
    } else {
      assert !HasKey(fs, a.deferred[0].key);
      assert Joined(fs, a.deferred)[0] == a.deferred[0];
    }
  }

  /** What a call asks to record, if it asks for that. */
  function Asked(a: Authority, c: Call): Option<Failed> {
    match c
    case RecordFailure(code, error, key) => Some(Identified(code, error, key))
    case ResolveEffect(error) => Some(Identified(OperationFailure, error, None))
    case ResolveOptional(error) => if a.failures == [] then None else Some(Identified(OperationFailure, error, None))
    case _ => None
  }

  /** A call issues a refusal: a session-ending error, under an identity, neither of them recorded yet. */
  predicate Issues(a: Authority, c: Call) {
    Asked(a, c).Some? && Asked(a, c).value.error.SessionEnding? && !Known(a.failures, Asked(a, c).value)
  }

  /** The refusals issued by some calls, in order. */
  function Issued(a: Authority, calls: seq<Call>): seq<Failed>
    decreases |calls|
  {
    if |calls| == 0 then []
    else (if Issues(a, calls[0]) then [Asked(a, calls[0]).value] else []) + Issued(Do(a, calls[0]).0, calls[1..])
  }

  /** The first of them for each exception object, but for those seen before. */
  function Firsts(seen: seq<Failed>, fs: seq<Failed>): seq<Failed>
    decreases |fs|
  {
    if |fs| == 0 then []
    else if HasError(seen, fs[0].error) then Firsts(seen, fs[1..])
    else [fs[0]] + Firsts(seen + [fs[0]], fs[1..])
  }

  lemma {:induction false} FirstsAppend(seen: seq<Failed>, fs: seq<Failed>, gs: seq<Failed>)
    ensures Firsts(seen, fs + gs) == Firsts(seen, fs) + Firsts(seen + Firsts(seen, fs), gs)
    decreases |fs|
  {
    if |fs| == 0 {
      assert fs + gs == gs && seen + [] == seen;
    } else {
      assert (fs + gs)[1..] == fs[1..] + gs;
      if HasError(seen, fs[0].error) {
        FirstsAppend(seen, fs[1..], gs);
      } else {
        FirstsAppend(seen + [fs[0]], fs[1..], gs);
        Assoc(seen, [fs[0]], Firsts(seen + [fs[0]], fs[1..]));
      }
    }
  }

  /** While the observation is pending, a call defers the refusal it issues, once for each exception object. */
  lemma StepDefers(a: Authority, c: Call)
    requires AuthorityInv(a) && CallOk(a, c) && a.pending && !c.FinishControlExit?
    ensures Do(a, c).0.pending
    ensures Do(a, c).0.deferred ==
            a.deferred + Firsts(a.deferred, if Issues(a, c) then [Asked(a, c).value] else [])
  {
    assert a.deferred + [] == a.deferred;
    if c.RecordTerminal? {
      EndedDefersNothing(a, c.snapshot);
    } else if Asked(a, c).None? {
      OtherDefersNothing(a, c);
    }
  }

  lemma EndedDefersNothing(a: Authority, s: TerminalSnapshot)
    requires AuthorityInv(a)
    ensures Ended(a, s).deferred == a.deferred && Ended(a, s).pending == a.pending
  {
    TerminatedKeeps(a, s);
    OwnExactly(Terminated(a, s), TerminalFailure, TerminalKey);
  }

  lemma OtherDefersNothing(a: Authority, c: Call)
    requires AuthorityInv(a) && a.pending && Asked(a, c).None? && !c.FinishControlExit? && !c.RecordTerminal?
    ensures Do(a, c).0.deferred == a.deferred && Do(a, c).0.pending
  {
    if c.RecordReaderFailure? {
      OwnExactly(a, ReaderFailure, ReaderKey);
    } else if c.RecordControlStatus? {
      OwnExactly(a, ControlProcessFailure, ControlStatusKey);
    }
  }

  lemma {:induction false} RunDefers(a: Authority, calls: seq<Call>)
    requires AuthorityInv(a) && AllOk(a, calls) && a.pending
    requires forall c | c in calls :: !c.FinishControlExit?
    ensures Run(a, calls).pending
    ensures Run(a, calls).deferred == a.deferred + Firsts(a.deferred, Issued(a, calls))
    decreases |calls|
  {
    if |calls| == 0 {
      assert a.deferred + [] == a.deferred;
    } else {
      var c := calls[0];
      var b := Do(a, c).0;
      var first := if Issues(a, c) then [Asked(a, c).value] else [];
      assert c in calls;
      StepKeeps(a, c);
      StepDefers(a, c);
      assert forall x | x in calls[1..] :: x in calls;
      RunDefers(b, calls[1..]);
      FirstsAppend(a.deferred, first, Issued(b, calls[1..]));
      Assoc(a.deferred, Firsts(a.deferred, first), Firsts(b.deferred, Issued(b, calls[1..])));
    }
  }

  /** Final observation: what the reader does between the end of control and the end of its accounting. */
  predicate Window(a: Authority, calls: seq<Call>) {
    && AuthorityInv(a) && !a.pending
    && AllOk(Run(a, [BeginControlExit]), calls)
    && forall c | c in calls :: !c.FinishControlExit?
  }

  /** The window just before it closes. */
  function Observed(a: Authority, calls: seq<Call>): Authority {
    Run(Run(a, [BeginControlExit]), calls)
  }

  /** The record as accounting leaves it, but for refusals: a missing terminal is a failure of its own. */
  function Settled(b: Authority): seq<Failed> {
    b.failures +
    if b.terminal.None? && !HasKey(b.failures, ControlEndedKey)
    then [Failed(ControlEndedKey, ControlEndedFailure, Made(b))] else []
  }

  lemma RunOne(a: Authority, c: Call)
    ensures Run(a, [c]) == Do(a, c).0
  {
  }

  lemma BeginOpens(a: Authority)
    requires AuthorityInv(a) && !a.pending
    ensures
      var open := Run(a, [BeginControlExit]);
      open == Do(a, BeginControlExit).0 && AuthorityInv(open) && open.pending && open.deferred == []
  {
    StepKeeps(a, BeginControlExit);
  }

  lemma WindowOpens(a: Authority, calls: seq<Call>)
    requires Window(a, calls)
    ensures
      var open := Run(a, [BeginControlExit]);
      && open == Do(a, BeginControlExit).0 && AuthorityInv(open) && open.deferred == []
      && Run(Observed(a, calls), [FinishControlExit]) == Finished(Observed(a, calls))
      && AuthorityInv(Observed(a, calls))
      && Observed(a, calls).deferred == Firsts([], Issued(open, calls))
  {
    var open := Run(a, [BeginControlExit]);
    BeginOpens(a);
    EveryRun(open, calls);
    RunDefers(open, calls);
    RunOne(Observed(a, calls), FinishControlExit);
    assert [] + Firsts([], Issued(open, calls)) == Firsts([], Issued(open, calls));
  }

  /**
   * Refusals issued while final accounting was pending are recorded last: the
   * record then is what accounting left, and behind it, once and in the order
   * of issue, the first refusal of each exception object whose identity is new.
   */
  lemma RefusalsAreRecorded(a: Authority, calls: seq<Call>)
    requires Window(a, calls)
    ensures
      var b := Observed(a, calls);
      var end := Run(b, [FinishControlExit]);
      && end.failures == Settled(b) + Joined(Settled(b), Firsts([], Issued(Run(a, [BeginControlExit]), calls)))
      && Unrepeated(end.failures) && !end.pending
  {
    WindowOpens(a, calls);
    FinishExactly(Observed(a, calls));
    AccountedKeeps(Observed(a, calls));
    FinishOpens(Observed(a, calls));
  }

  lemma FinishOpens(a: Authority)
    ensures !Finished(a).pending
  {
    var judged := Accounted(a);
    NoticedAllPending(judged.(pending := false, deferred := []), judged.deferred);
  }

  lemma {:induction false} NoticedAllPending(a: Authority, fs: seq<Failed>)
    ensures NoticedAll(a, fs).pending == a.pending
    decreases |fs|
  {
    if |fs| > 0 {
      NoticedAllPending(Noticed(a, fs[0]), fs[1..]);
    }
  }

  lemma {:induction false} IssuedAppend(a: Authority, before: seq<Call>, after: seq<Call>)
    ensures Run(a, before + after) == Run(Run(a, before), after)
    ensures Issued(a, before + after) == Issued(a, before) + Issued(Run(a, before), after)
    decreases |before|
  {
    if |before| == 0 {
      assert before + after == after;
      assert [] + Issued(a, after) == Issued(a, after);
    } else {
      assert (before + after)[1..] == before[1..] + after;
      var first := if Issues(a, before[0]) then [Asked(a, before[0]).value] else [];
      IssuedAppend(Do(a, before[0]).0, before[1..], after);
      Assoc(first, Issued(Do(a, before[0]).0, before[1..]), Issued(Run(a, before), after));
    }
  }

  lemma {:induction false} FirstsAreSome(seen: seq<Failed>, fs: seq<Failed>)
    ensures forall x | x in Firsts(seen, fs) :: x in fs
    ensures DistinctErrors(Firsts(seen, fs))
    ensures forall x | x in Firsts(seen, fs) :: !HasError(seen, x.error)
    decreases |fs|
  {
    if |fs| > 0 {
      FirstsAreSome(seen, fs[1..]);
      if !HasError(seen, fs[0].error) {
        var rest := Firsts(seen + [fs[0]], fs[1..]);
        FirstsAreSome(seen + [fs[0]], fs[1..]);
        assert (seen + [fs[0]])[|seen|] == fs[0];
        forall x | x in rest
          ensures x.error != fs[0].error && !HasError(seen, x.error)
        {
          assert forall k | 0 <= k < |seen| :: (seen + [fs[0]])[k] == seen[k];
        }
        assert forall j | 0 <= j < |rest| :: rest[j] in rest;
      }
    }
  }

  /**
   * One refusal of a window, followed to the record. Unless its exception
   * object was issued before, its identity is recorded; and it is itself on
   * record exactly when no other failure took that identity: neither
   * accounting nor an earlier refusal.
   */
  lemma RefusalIsKept(a: Authority, before: seq<Call>, c: Call, after: seq<Call>)
    requires Window(a, before + [c] + after)
    requires Issues(Observed(a, before), c)
    requires !HasError(Issued(Run(a, [BeginControlExit]), before), Asked(Observed(a, before), c).value.error)
    ensures
      var open := Run(a, [BeginControlExit]);
      var b := Observed(a, before + [c] + after);
      var end := Run(b, [FinishControlExit]);
      var f := Asked(Observed(a, before), c).value;
      && HasKey(end.failures, f.key)
      && (f in end.failures <==> !HasKey(Settled(b), f.key) && !HasKey(Firsts([], Issued(open, before)), f.key))
  {
    var calls := before + [c] + after;
    var f := Asked(Observed(a, before), c).value;
    var earlier := Firsts([], Issued(Run(a, [BeginControlExit]), before));
    RefusalsAreRecorded(a, calls);
    var all := RefusalPlace(a, before, c, after);
    FirstsAreSome([], Issued(Run(a, [BeginControlExit]), calls));
    JoinedExactly(Settled(Observed(a, calls)), all, |earlier|);
    NotSettled(Observed(a, calls), f);
  }

  /** A failure with a new exception object comes right behind the first ones before it. */
  lemma FirstsPlace(fs: seq<Failed>, f: Failed, gs: seq<Failed>)
    requires !HasError(fs, f.error)
    ensures
      var all, earlier := Firsts([], fs + ([f] + gs)), Firsts([], fs);
      |earlier| < |all| && all[|earlier|] == f && all[..|earlier|] == earlier
  {
    var earlier := Firsts([], fs);
    FirstsAppend([], fs, [f] + gs);
    FirstsAreSome([], fs);
    assert [] + earlier == earlier;
    assert forall k | 0 <= k < |earlier| :: earlier[k] in fs;
    assert ([f] + gs)[1..] == gs;
    assert Firsts(earlier, [f] + gs) == [f] + Firsts(earlier + [f], gs);
  }

  /** Where a window keeps the refusal of one of its calls. */
  lemma RefusalPlace(a: Authority, before: seq<Call>, c: Call, after: seq<Call>) returns (all: seq<Failed>)
    requires Window(a, before + [c] + after)
    requires Issues(Observed(a, before), c)
    requires !HasError(Issued(Run(a, [BeginControlExit]), before), Asked(Observed(a, before), c).value.error)
    ensures
      var earlier := Firsts([], Issued(Run(a, [BeginControlExit]), before));
      && all == Firsts([], Issued(Run(a, [BeginControlExit]), before + [c] + after))
      && all == Observed(a, before + [c] + after).deferred && AuthorityInv(Observed(a, before + [c] + after))
      && |earlier| < |all| && all[|earlier|] == Asked(Observed(a, before), c).value && all[..|earlier|] == earlier
  {
    var calls := before + [c] + after;
    var open := Run(a, [BeginControlExit]);
    WindowOpens(a, calls);
    assert calls == before + ([c] + after);
    IssuedAppend(open, before, [c] + after);
    assert ([c] + after)[1..] == after;
    FirstsPlace(Issued(open, before), Asked(Observed(a, before), c).value, Issued(Do(Observed(a, before), c).0, after));
    all := Firsts([], Issued(open, calls));
  }

  /** No deferred refusal is on record before the window closes. */
  lemma NotSettled(b: Authority, f: Failed)
    requires AuthorityInv(b) && f in b.deferred
    ensures f !in Settled(b)
  {
    var i :| 0 <= i < |b.deferred| && b.deferred[i] == f;
    assert !HasError(b.failures, f.error);
    assert f in b.failures ==> HasError(b.failures, f.error);
  }

  /**
   * The first refusal of a window is the primary failure exactly when nothing
   * else was recorded and the terminal was seen; no other refusal ever is.
   */
  lemma FirstRefusalIsPrimary(a: Authority, calls: seq<Call>)
    requires Window(a, calls) && Issued(Run(a, [BeginControlExit]), calls) != []
    ensures
      var b := Observed(a, calls);
      var primary := Primary(Run(b, [FinishControlExit]));
      var first := Issued(Run(a, [BeginControlExit]), calls)[0];
      && primary.Some?
      && (primary == Some(first.error) <==> b.failures == [] && b.terminal.Some?)
      && (primary.value.SessionEnding? && !HasError(b.failures, primary.value) ==> primary == Some(first.error))
  {
    var b := Observed(a, calls);
    WindowOpens(a, calls);
    RefusalIsPrimaryOnlyLast(b);
    assert b.deferred[0] == Issued(Run(a, [BeginControlExit]), calls)[0];
    assert !HasError(b.failures, b.deferred[0].error);
  }

  /**
   * An exception object refused twice can be lost: its first identity is taken
   * by another failure, and the second refusal was never kept.
   */
  lemma ReissuedRefusalIsLost()
    ensures
      var window := [Call.RecordFailure(OperationFailure, SessionEnding(7), Some(Named(0))),
                     Call.RecordFailure(OperationFailure, Plain(8), Some(Named(0))),
                     Call.RecordFailure(OperationFailure, SessionEnding(7), Some(Named(1)))];
      var end := Run(Observed(NewAuthority(), window), [FinishControlExit]);
      && Window(NewAuthority(), window)
      && !HasError(end.failures, SessionEnding(7)) && !HasKey(end.failures, Named(1))
  {
    var c0 := Call.RecordFailure(OperationFailure, SessionEnding(7), Some(Named(0)));
    var c1 := Call.RecordFailure(OperationFailure, Plain(8), Some(Named(0)));
    var c2 := Call.RecordFailure(OperationFailure, SessionEnding(7), Some(Named(1)));
    var open := Run(NewAuthority(), [BeginControlExit]);
    RunOne(NewAuthority(), BeginControlExit);
    BeginOpens(NewAuthority());
    var b := ReissuedLeaves(open);
    assert AllOk(open, [c0, c1, c2]) && Run(open, [c0, c1, c2]) == b by {
      RunThree(open, c0, c1, c2);
    }
    assert AuthorityInv(b) by {
      EveryRun(open, [c0, c1, c2]);
    }
    TakenIsLost(b, Failed(Named(0), OperationFailure, SessionEnding(7)));
  }

  /** The refusal is deferred, its identity taken, and its second issue ignored. */
  lemma ReissuedLeaves(open: Authority) returns (b: Authority)
    requires open.pending && open.failures == [] && open.deferred == []
    ensures
      var c0 := Call.RecordFailure(OperationFailure, SessionEnding(7), Some(Named(0)));
      var c1 := Call.RecordFailure(OperationFailure, Plain(8), Some(Named(0)));
      var c2 := Call.RecordFailure(OperationFailure, SessionEnding(7), Some(Named(1)));
      && Do(Do(open, c0).0, c1).0 == b && Do(b, c2).0 == b
      && b.deferred == [Failed(Named(0), OperationFailure, SessionEnding(7))]
      && HasKey(b.failures, Named(0)) && !HasKey(b.failures, Named(1))
  {
    var refused := Failed(Named(0), OperationFailure, SessionEnding(7));
    var a := open.(deferred := [refused]);
    b := a.(failures := [Failed(Named(0), OperationFailure, Plain(8))], reported := false,
            gate := FailedGate(a.gate, 0));
    assert [] + [refused] == [refused];
    assert Noticed(open, refused) == a;
    assert b.deferred[0] == refused && b.failures[0].key == Named(0);
  }

  lemma RunThree(a: Authority, x: Call, y: Call, z: Call)
    requires CallOk(a, x) && CallOk(Do(a, x).0, y) && CallOk(Do(Do(a, x).0, y).0, z)
    ensures Run(a, [x, y, z]) == Do(Do(Do(a, x).0, y).0, z).0 && AllOk(a, [x, y, z])
  {
    assert [x, y, z][1..] == [y, z] && [y, z][1..] == [z];
    RunOne(Do(Do(a, x).0, y).0, z);
    assert AllOk(Do(Do(a, x).0, y).0, [z]) && AllOk(Do(a, x).0, [y, z]);
  }

  /** The only refusal of a window, with its identity taken. */
  lemma TakenIsLost(b: Authority, f: Failed)
    requires AuthorityInv(b) && b.deferred == [f] && HasKey(b.failures, f.key)
    ensures
      var end := Run(b, [FinishControlExit]);
      && (f.error.SessionEnding? ==> !HasError(end.failures, f.error))
      && forall key | HasKey(end.failures, key) :: key == ControlEndedKey || HasKey(b.failures, key)
  {
    RunOne(b, FinishControlExit);
    FinishExactly(b);
    AccountedKeeps(b);
    var fs := Accounted(b).failures;
    var k :| 0 <= k < |b.failures| && b.failures[k].key == f.key;
    assert fs[k].key == f.key && b.deferred[1..] == [];
    assert Joined(fs, b.deferred) == [];
    assert Finished(b).failures == fs;
    assert !HasError(b.failures, b.deferred[0].error);
  }

  /** Outside a window, or for any other error, what a call asks to record is recorded at once, last and unreported. */
  lemma RecordedAtOnce(a: Authority, c: Call)
    requires Asked(a, c).Some? && !(a.pending && Asked(a, c).value.error.SessionEnding?)
    ensures
      var f := Asked(a, c).value;
      && Do(a, c).0.failures == a.failures + (if Known(a.failures, f) then [] else [f])
      && Do(a, c).0.deferred == a.deferred
  {
    NoticedAtOnce(a, Asked(a, c).value);
  }

  lemma NoticedAtOnce(a: Authority, f: Failed)
    requires !(a.pending && f.error.SessionEnding?)
    ensures Noticed(a, f).failures == a.failures + if Known(a.failures, f) then [] else [f]
    ensures Noticed(a, f).deferred == a.deferred
  {
  }

  /** Each primary failure is taken once: again only after another failure was recorded. */
  lemma TakenOnce(a: Authority, c: Call)
    requires AuthorityInv(a) && c.RecordFailure? && !Known(a.failures, Asked(a, c).value)
    requires !(a.pending && c.error.SessionEnding?)
    ensures
      var b := Do(a, c).0;
      && Do(b, TakeUnreported).1 == Result(Some(if a.failures == [] then c.error else a.failures[0].error))
      && Do(Do(b, TakeUnreported).0, TakeUnreported).1 == Result(None)
  {
  }

  /** A failed effect raises the failure the session already has, or itself. */
  lemma EffectFailureExactly(a: Authority, error: Error)
    ensures Do(a, ResolveEffect(error)).1 ==
            Result(Some(if a.failures == [] then error else a.failures[0].error))
    ensures Do(a, ResolveOptional(error)).1 ==
            Result(if a.failures == [] then None else Some(a.failures[0].error))
  {
  }

  /** An incomplete log is a log fact, once for each terminal; any other log fact joins once for each object. */
  lemma LogFactsExactly(a: Authority, s: TerminalSnapshot, e: Error)
    requires AuthorityInv(a)
    ensures |Do(a, RecordTerminal(s)).0.logFailures| ==
            |a.logFailures| + if s.log.Some? && s.log.value.diagnostic.Some? then 1 else 0
    ensures Do(a, Call.RecordLogFailure(e)).0.logFailures == a.logFailures + if e in a.logFailures then [] else [e]
    ensures Do(a, Call.RecordLogFailure(e)).0.failures == a.failures
  {
    TerminatedKeeps(a, s);
    OwnKeepsLog(Terminated(a, s), TerminalFailure, TerminalKey);
    assert Made(a.(terminal := Some(s))) !in a.logFailures;
  }

  lemma OwnKeepsLog(a: Authority, code: FailureCode, key: Key)
    ensures NoticedOwn(a, code, key).logFailures == a.logFailures
  {
  }

  /**
   * Effects on the helper, exactly: one is admitted if and only if nothing
   * failed, no terminal was seen, control is open and the caller's own last
   * condition holds. START goes on being written under the same conditions,
   * and waits while the end of control is being accounted for.
   */
  lemma EffectExactly(a: Authority, finalRefuses: bool)
    requires AuthorityInv(a)
    ensures Do(a, AdmitHelperEffect(finalRefuses)).1 == Returned <==>
            a.failures == [] && a.terminal.None? && !a.controlEnded && !finalRefuses
    ensures Do(a, AdmitStartWrite).1 == Returned <==> a.failures == [] && a.terminal.None? && !a.controlEnded
    ensures Do(a, AdmitStartWrite).1 == Deferred <==> a.failures == [] && a.pending
    ensures a.failures != [] ==>
              Do(a, AdmitHelperEffect(finalRefuses)).1 == Answer.Raised(a.failures[0].error) == Do(a, AdmitStartWrite).1
  {
  }

  /** How the attached log facts grow: from none, from all but the first, or from all so far. */
  lemma NotedGrows(logs: seq<Error>, noted: seq<Error>, p: nat, byLog: bool)
    requires p <= |logs| && (byLog ==> logs != [])
    requires noted == logs[..p] || (p > 0 && noted == logs[1..p])
    ensures
      var first := if byLog && p == 0 then 1 else p;
      var more := noted + logs[first..];
      more == logs || (|logs| > 0 && more == logs[1..])
  {
    if p == 0 {
      assert noted == [];
      assert noted + logs[0..] == logs;
      assert |logs| > 0 ==> noted + logs[1..] == logs[1..];
    } else if noted == logs[..p] {
      assert noted + logs[p..] == logs;
    } else {
      assert noted + logs[p..] == logs[1..];
    }
  }

  lemma WholeSlices(logs: seq<Error>)
    ensures logs[..|logs|] == logs
    ensures |logs| > 0 ==> logs[1..|logs|] == logs[1..]
    ensures Distinct(logs) && |logs| > 0 ==> Distinct(logs[1..])
  {
  }

  lemma ProjectedKeeps(a: Authority)
    requires AuthorityInv(a)
    ensures AuthorityInv(Projected(a).0) && Onward(a, Projected(a).0)
  {
    ProjectedNotes(a);
    NotedGrows(a.logFailures, Facts(a.noted), a.projected, a.failures == [] && a.logFailures != []);
    WholeSlices(a.logFailures);
  }

  /** What one projection attaches, and to which failure: the one it returns. */
  lemma ProjectedNotes(a: Authority)
    requires AuthorityInv(a)
    ensures
      var (b, primary) := Projected(a);
      if primary.None? then b.noted == a.noted && b.projected == a.projected
      else
        var first := if a.failures == [] && a.projected == 0 then 1 else a.projected;
        && first <= |a.logFailures|
        && b.noted == a.noted + Attached(primary.value, a.logFailures[first..])
        && Facts(b.noted) == Facts(a.noted) + a.logFailures[first..]
        && b.projected == |a.logFailures|
  {
    var (b, primary) := Projected(a);
    if primary.Some? {
      var first := if a.failures == [] && a.projected == 0 then 1 else a.projected;
      FactsAppend(a.noted, primary.value, a.logFailures[first..]);
    }
  }

  /**
   * One final result: an established failure is it, otherwise the first log
   * fact. The first projection that has a log fact attaches all of them to the
   * established failure it returns, or all but the first to that first one;
   * a later one attaches the facts that are new since.
   */
  lemma ProjectionExactly(a: Authority)
    requires AuthorityInv(a)
    ensures
      var (b, primary) := Projected(a);
      && primary == (if a.failures != [] then Some(a.failures[0].error)
                     else if a.logFailures != [] then Some(a.logFailures[0])
                     else None)
      && (primary.None? ==> b.noted == [])
      && (a.projected == 0 && a.failures != [] ==> b.noted == Attached(primary.value, a.logFailures))
      && (a.projected == 0 && a.failures == [] && primary.Some? ==>
            b.noted == Attached(primary.value, a.logFailures[1..]))
      && (a.projected > 0 ==> b.noted == a.noted + Attached(primary.value, a.logFailures[a.projected..]))
      && Distinct(Facts(b.noted))
  {
    ProjectedNotes(a);
    ProjectedKeeps(a);
    NotesAreDistinct(Projected(a).0);
    assert a.logFailures[0..] == a.logFailures;
    assert a.projected == 0 ==> |Facts(a.noted)| == 0;
  }

  lemma NotesAreDistinct(a: Authority)
    requires LogFactsInv(a)
    ensures Distinct(Facts(a.noted))
  {
    assert forall i | 0 <= i < a.projected :: a.logFailures[..a.projected][i] == a.logFailures[i];
    assert forall i | 0 <= i < a.projected - 1 :: a.logFailures[1..a.projected][i] == a.logFailures[i + 1];
  }

  lemma WorkKeeps(a: Authority, required: set<Forward>, forwarded: set<Forward>, finalRefuses: bool)
    requires AuthorityInv(a)
    ensures
      var b := WorkAdmitted(a, required, forwarded, finalRefuses).0;
      && AuthorityInv(b) && Onward(a, b)
  {
    var b := WorkAdmitted(a, required, forwarded, finalRefuses).0;
    assert b == a.(reported := b.reported, made := b.made, gate := b.gate);
  }

  /** Admission changes the gate alone, or publishes a failure, or makes a refusal. */
  lemma AdmissionKeeps(a: Authority, c: Call)
    requires AuthorityInv(a) && (c.AdmitWork? || c.AdmitHelperEffect? || c.AdmitStartWrite?)
    ensures AuthorityInv(Do(a, c).0) && Onward(a, Do(a, c).0)
  {
    if c.AdmitWork? {
      WorkKeeps(a, c.required, c.forwarded, c.finalRefuses);
    }
  }

  /** The failure a call adds to the record comes last, and nothing the record holds is lost. */
  lemma StepKeeps(a: Authority, c: Call)
    requires AuthorityInv(a) && CallOk(a, c)
    ensures AuthorityInv(Do(a, c).0) && Onward(a, Do(a, c).0)
  {
    if c.AdmitWork? || c.AdmitHelperEffect? || c.AdmitStartWrite? {
      AdmissionKeeps(a, c);
    } else if c.RecordFailure? || c.ResolveEffect? || c.ResolveOptional? {
      AskedKeeps(a, c);
    } else {
      ReportKeeps(a, c);
    }
  }

  /** A failure reported from outside. */
  lemma AskedKeeps(a: Authority, c: Call)
    requires AuthorityInv(a) && CallOk(a, c) && (c.RecordFailure? || c.ResolveEffect? || c.ResolveOptional?)
    ensures AuthorityInv(Do(a, c).0) && Onward(a, Do(a, c).0)
  {
    match c
    case RecordFailure(code, error, key) => NoticedKeeps(a, Identified(code, error, key));
    case ResolveEffect(error) => NoticedKeeps(a, Identified(OperationFailure, error, None));
    case ResolveOptional(error) => NoticedKeeps(a, Identified(OperationFailure, error, None));
  }

  /** A call that records nothing: only the gate and the flags change. */
  lemma FlagsKeep(a: Authority, b: Authority)
    requires AuthorityInv(a)
    requires b == a.(policy := b.policy, gate := b.gate, closing := b.closing, reported := b.reported,
                     controlEnded := b.controlEnded, pending := b.pending)
    requires (b.gate.Denies() ==> Stopped(b)) && (Stopped(a) ==> Stopped(b))
    requires (b.pending ==> b.controlEnded) && (a.pending ==> b.pending)
    requires (a.gate.remoteReady ==> b.gate.remoteReady) && NextTicket(a.gate) <= NextTicket(b.gate)
    ensures AuthorityInv(b) && Onward(a, b)
  {
  }

  /** Failures in the authority's own words. */
  lemma OwnKeeps(a: Authority, c: Call)
    requires AuthorityInv(a)
    requires c.RecordTerminal? || c.RecordReaderFailure? || c.FinishControlExit? || c.RecordControlStatus?
    ensures AuthorityInv(Do(a, c).0) && Onward(a, Do(a, c).0)
  {
    match c
    case RecordTerminal(s) => TerminalExactly(a, s);
    case RecordReaderFailure => OwnExactly(a, ReaderFailure, ReaderKey);
    case FinishControlExit => FinishExactly(a);
    case RecordControlStatus(status) => OwnExactly(a, ControlProcessFailure, ControlStatusKey);
  }

  /** What the session reports of itself, and what it is asked. */
  lemma ReportKeeps(a: Authority, c: Call)
    requires AuthorityInv(a) && CallOk(a, c)
    requires !c.AdmitWork? && !c.AdmitHelperEffect? && !c.AdmitStartWrite?
    requires !c.RecordFailure? && !c.ResolveEffect? && !c.ResolveOptional?
    ensures AuthorityInv(Do(a, c).0) && Onward(a, Do(a, c).0)
  {
    if c.RecordTerminal? || c.RecordReaderFailure? || c.FinishControlExit? || c.RecordControlStatus? {
      OwnKeeps(a, c);
    } else if c.RecordLogFailure? {
      LogKeeps(a, c.error);
    } else if c.ProjectResult? {
      ProjectedKeeps(a);
    } else {
      FlagsKeep(a, Do(a, c).0);
    }
  }

  /** Every sequence of calls keeps the invariant and undoes nothing. */
  lemma {:induction false} EveryRun(a: Authority, calls: seq<Call>)
    requires AuthorityInv(a) && AllOk(a, calls)
    ensures AuthorityInv(Run(a, calls)) && Onward(a, Run(a, calls))
    decreases |calls|
  {
    if |calls| > 0 {
      var b := Do(a, calls[0]).0;
      StepKeeps(a, calls[0]);
      EveryRun(b, calls[1..]);
      OnwardSteps(a, b, Run(b, calls[1..]));
    }
  }

  /** Whether the first projection that had a log fact found a recorded failure; None before any such one. */
  function FirstProjection(a: Authority, calls: seq<Call>): Option<bool>
    decreases |calls|
  {
    if |calls| == 0 then None
    else if calls[0].ProjectResult? && a.logFailures != [] then Some(a.failures != [])
    else FirstProjection(Do(a, calls[0]).0, calls[1..])
  }

  /** The log facts from the k-th on are attached, up to those projected. */
  predicate NotedFrom(a: Authority, k: nat) {
    k <= 1 && 0 < a.projected <= |a.logFailures| && Facts(a.noted) == a.logFailures[k..a.projected]
  }

  lemma NoticedNotesNothing(a: Authority, f: Failed)
    ensures Noticed(a, f).noted == a.noted && Noticed(a, f).projected == a.projected
  {
  }

  lemma EndedNotesNothing(a: Authority, s: TerminalSnapshot)
    ensures Ended(a, s).noted == a.noted && Ended(a, s).projected == a.projected
  {
    var logged := Terminated(a, s);
    NoticedNotesNothing(logged.(made := logged.made + 1), Failed(TerminalKey, TerminalFailure, Made(logged)));
  }

  /** Admitting work or an effect attaches nothing either. */
  lemma AdmissionNotesNothing(a: Authority, c: Call)
    requires c.AdmitWork? || c.AdmitHelperEffect? || c.AdmitStartWrite?
    ensures Do(a, c).0.noted == a.noted && Do(a, c).0.projected == a.projected
  {
  }

  /** Only projecting attaches log facts. */
  lemma OthersNoteNothing(a: Authority, c: Call)
    requires AuthorityInv(a) && CallOk(a, c) && !c.ProjectResult?
    ensures Do(a, c).0.noted == a.noted && Do(a, c).0.projected == a.projected
  {
    match c
    case RecordFailure(code, error, key) => NoticedNotesNothing(a, Identified(code, error, key));
    case ResolveEffect(error) => NoticedNotesNothing(a, Identified(OperationFailure, error, None));
    case ResolveOptional(error) => NoticedNotesNothing(a, Identified(OperationFailure, error, None));
    case RecordTerminal(s) => EndedNotesNothing(a, s);
    case FinishControlExit => FinishNotesNothing(a);
    case AdmitWork(_, _, _) => AdmissionNotesNothing(a, c);
    case AdmitHelperEffect(_) => AdmissionNotesNothing(a, c);
    case AdmitStartWrite => AdmissionNotesNothing(a, c);
    case _ =>
  }

  lemma FinishNotesNothing(a: Authority)
    ensures Finished(a).noted == a.noted && Finished(a).projected == a.projected
  {
    var judged := Accounted(a);
    NoticedAllNotesNothing(judged.(pending := false, deferred := []), judged.deferred);
  }

  lemma {:induction false} NoticedAllNotesNothing(a: Authority, fs: seq<Failed>)
    ensures NoticedAll(a, fs).noted == a.noted && NoticedAll(a, fs).projected == a.projected
    decreases |fs|
  {
    if |fs| > 0 {
      NoticedAllNotesNothing(Noticed(a, fs[0]), fs[1..]);
    }
  }

  lemma StepNotes(a: Authority, c: Call, k: nat)
    requires AuthorityInv(a) && CallOk(a, c) && NotedFrom(a, k)
    ensures NotedFrom(Do(a, c).0, k)
  {
    StepKeeps(a, c);
    var b := Do(a, c).0;
    if c.ProjectResult? {
      ProjectedNotes(a);
      assert a.logFailures[k..a.projected] + a.logFailures[a.projected..] == a.logFailures[k..|a.logFailures|];
    } else {
      OthersNoteNothing(a, c);
      assert b.logFailures[..|a.logFailures|] == a.logFailures;
      assert b.logFailures[k..a.projected] == a.logFailures[k..a.projected];
    }
  }

  lemma {:induction false} NotesGoOn(a: Authority, calls: seq<Call>, k: nat)
    requires AuthorityInv(a) && AllOk(a, calls) && NotedFrom(a, k)
    ensures NotedFrom(Run(a, calls), k)
    decreases |calls|
  {
    if |calls| > 0 {
      StepKeeps(a, calls[0]);
      StepNotes(a, calls[0], k);
      NotesGoOn(Do(a, calls[0]).0, calls[1..], k);
    }
  }

  /**
   * Over every run, each log fact projected so far is attached exactly once,
   * in order, except the first: that one is attached if and only if the first
   * projection that had a log fact found a recorded failure.
   */
  lemma {:induction false} NotesOfARun(a: Authority, calls: seq<Call>)
    requires AuthorityInv(a) && AllOk(a, calls) && a.projected == 0
    ensures
      var b := Run(a, calls);
      match FirstProjection(a, calls)
      case None => b.noted == [] && b.projected == 0
      case Some(found) => NotedFrom(b, if found then 0 else 1)
    decreases |calls|
  {
    assert |Facts(a.noted)| == 0;
    if |calls| > 0 {
      var b := Do(a, calls[0]).0;
      StepKeeps(a, calls[0]);
      if calls[0].ProjectResult? && a.logFailures != [] {
        ProjectionExactly(a);
        ProjectedNotes(a);
        NotesGoOn(b, calls[1..], if a.failures != [] then 0 else 1);
      } else {
        if !calls[0].ProjectResult? {
          OthersNoteNothing(a, calls[0]);
        } else {
          ProjectedNotes(a);
          assert a.noted + [] == a.noted;
        }
        NotesOfARun(b, calls[1..]);
      }
    }
  }

  /** The first log fact ends up attached exactly when a failure was recorded before the first projection with one. */
  lemma FirstLogFactIsAttached(calls: seq<Call>)
    requires AllOk(NewAuthority(), calls) && Run(NewAuthority(), calls).logFailures != []
    ensures
      var b := Run(NewAuthority(), calls);
      b.logFailures[0] in Facts(b.noted) <==> FirstProjection(NewAuthority(), calls) == Some(true)
  {
    var b := Run(NewAuthority(), calls);
    EveryRun(NewAuthority(), calls);
    NotesOfARun(NewAuthority(), calls);
    if FirstProjection(NewAuthority(), calls) == Some(true) {
      assert Facts(b.noted)[0] == b.logFailures[0];
    } else if FirstProjection(NewAuthority(), calls) == Some(false) {
      forall i | 0 <= i < |Facts(b.noted)|
        ensures Facts(b.noted)[i] != b.logFailures[0]
      {
        assert Facts(b.noted)[i] == b.logFailures[i + 1];
      }
    } else {
      assert |Facts(b.noted)| == 0;
    }
  }

  /**
   * Projecting twice can leave the first log fact unattached: returned as the
   * operation failure first, it is no diagnostic of the failure recorded later.
   */
  lemma EarlyProjectionLosesALogFact()
    ensures
      var calls := [Call.RecordLogFailure(Plain(0)), Call.ProjectResult,
                    Call.RecordFailure(Coded(0), Plain(1), None)];
      var a := Run(NewAuthority(), calls);
      && AllOk(NewAuthority(), calls)
      && a.logFailures == [Plain(0)]
      && Projected(a).1 == Some(Plain(1))
      && Projected(a).0.noted == []
  {
    var calls := [Call.RecordLogFailure(Plain(0)), Call.ProjectResult, Call.RecordFailure(Coded(0), Plain(1), None)];
    var b := Do(NewAuthority(), calls[0]).0;
    var c := Do(b, calls[1..][0]).0;
    assert calls[1..][1..] == [calls[2]];
    assert Run(b, calls[1..]) == Run(c, [calls[2]]) == Do(c, calls[2]).0;
    assert AllOk(c, [calls[2]]) && AllOk(b, calls[1..]);
  }

  lemma StatusRaises(a: Authority)
    requires a.failures != []
    ensures Do(a, OperationStatus).1 == Answer.Raised(a.failures[0].error)
  {
  }

  /** The first recorded failure is primary for ever. */
  lemma FirstFailureStays(a: Authority, calls: seq<Call>)
    requires AuthorityInv(a) && AllOk(a, calls) && a.failures != []
    ensures Primary(Run(a, calls)) == Primary(a)
    ensures Do(Run(a, calls), OperationStatus).1 == Answer.Raised(a.failures[0].error)
  {
    EveryRun(a, calls);
    StatusRaises(Run(a, calls));
  }

  /**
   * A failure, a cancellation, a terminal or the end of control stops
   * dependent work for good; and before that every entry has a new ticket.
   */
  lemma StoppedForGood(a: Authority, calls: seq<Call>, required: set<Forward>, forwarded: set<Forward>,
                       finalRefuses: bool)
    requires AuthorityInv(a) && AllOk(a, calls)
    ensures
      var answer := Do(Run(a, calls), AdmitWork(required, forwarded, finalRefuses)).1;
      && (Stopped(a) ==> !answer.Granted?)
      && (answer.Granted? ==> a.gate.ticket.None? || answer.ticket > a.gate.ticket.value)
  {
    EveryRun(a, calls);
    EntryExactly(Run(a, calls), required, forwarded, finalRefuses);
  }

  /** A failed remote operation is on record. */
  predicate Judged(a: Authority) {
    a.terminal.Some? && a.terminal.value.OperationFailed(a.policy) ==> a.failures != []
  }

  /** Every call keeps that, a change of policy exactly when the new one does not fail an unrecorded operation. */
  lemma StepJudges(a: Authority, c: Call)
    requires AuthorityInv(a) && CallOk(a, c) && Judged(a)
    ensures Judged(Do(a, c).0) <==>
            !(&& c.SetPolicy?
              && a.terminal.Some? && a.terminal.value.OperationFailed(c.policy) && a.failures == [])
  {
    StepKeeps(a, c);
    match c
    case RecordTerminal(s) =>
      TerminalExactly(a, s);
      assert HasKey(a.failures, TerminalKey) ==> a.failures != [];
    case FinishControlExit => FinishExactly(a);
    case RecordReaderFailure => OwnExactly(a, ReaderFailure, ReaderKey);
    case RecordControlStatus(status) => OwnExactly(a, ControlProcessFailure, ControlStatusKey);
    case RecordFailure(code, error, key) => NoticedKeeps(a, Identified(code, error, key));
    case ResolveEffect(error) => NoticedKeeps(a, Identified(OperationFailure, error, None));
    case ResolveOptional(error) => NoticedKeeps(a, Identified(OperationFailure, error, None));
    case _ =>
  }

  /** The policy is set before the terminal snapshot arrives. */
  predicate PolicyFirst(a: Authority, calls: seq<Call>)
    decreases |calls|
  {
    |calls| == 0 ||
    ((calls[0].SetPolicy? ==> a.terminal.None?) && PolicyFirst(Do(a, calls[0]).0, calls[1..]))
  }

  lemma {:induction false} EveryRunJudges(a: Authority, calls: seq<Call>)
    requires AuthorityInv(a) && AllOk(a, calls) && PolicyFirst(a, calls) && Judged(a)
    ensures Judged(Run(a, calls))
    decreases |calls|
  {
    if |calls| > 0 {
      StepKeeps(a, calls[0]);
      StepJudges(a, calls[0]);
      EveryRunJudges(Do(a, calls[0]).0, calls[1..]);
    }
  }

  /**
   * The status of an operation is never that of a failed child: over every
   * sequence of calls that sets the policy before the terminal arrives, a
   * status is returned only for a terminal whose operation succeeded.
   */
  lemma StatusIsNeverAFailedChild(calls: seq<Call>)
    requires AllOk(NewAuthority(), calls) && PolicyFirst(NewAuthority(), calls)
    ensures
      var a := Run(NewAuthority(), calls);
      var answer := Do(a, OperationStatus).1;
      answer.Value? && answer.status.Some? ==>
        && a.terminal.Some? && !a.terminal.value.OperationFailed(a.policy)
        && a.terminal.value.cleanup.IsConfirmed()
        && (answer.status.value == 0 ||
            (a.policy.LiveServer? && a.terminal.value.outcome.childResult.value.terminationRequested))
  {
    EveryRunJudges(NewAuthority(), calls);
  }

  /** A policy set after the terminal can hide a failure: the order of the two calls matters. */
  lemma LatePolicyHidesAFailure()
    ensures
      var result := ChildResult(1, true);
      var terminal := TerminalSnapshot(Outcome(ControllerEof, None, [], Some(result)),
                                       CleanupReport(ChildConfirmed, WorkspaceConfirmed, []), None);
      var a := Run(NewAuthority(), [RecordTerminal(terminal), SetPolicy(ProcessExit)]);
      && terminal.Valid()
      && a.terminal.Some? && a.terminal.value.OperationFailed(a.policy)
      && Do(a, OperationStatus).1 == Value(Some(1))
  {
    var result := ChildResult(1, true);
    var terminal := TerminalSnapshot(Outcome(ControllerEof, None, [], Some(result)),
                                     CleanupReport(ChildConfirmed, WorkspaceConfirmed, []), None);
    var calls := [RecordTerminal(terminal), SetPolicy(ProcessExit)];
    var b := Do(NewAuthority(), calls[0]).0;
    assert Run(NewAuthority(), calls) == Run(b, calls[1..]);
    assert Run(b, calls[1..]) == Run(Do(b, calls[1]).0, calls[1..][1..]);
    assert Elements<Residual>([]) == {};
  }

  /** controller/authority.py SessionAuthority. */
  class SessionAuthority {
    var terminal: Option<TerminalSnapshot>
    var failures: seq<Failed>
    var closing: bool
    var errorReported: bool
    var policy: CompletionPolicy
    const gate: AdmissionGate
    var controlEnded: bool
    var observationPending: bool
    var deferredRefusals: seq<Failed>
    var logFailures: seq<Error>
    var logFailuresProjected: nat
    ghost var noted: seq<Note>
    ghost var made: nat

    ghost function State(): Authority
      reads this, gate
    {
      Authority(terminal, failures, closing, errorReported, policy, gate.State(), controlEnded,
                observationPending, deferredRefusals, logFailures, logFailuresProjected, noted, made)
    }

    constructor ()
      ensures State() == NewAuthority() && fresh(gate)
    {
      terminal, failures, closing, errorReported, policy := None, [], false, false, LiveServer;
      gate := new AdmissionGate();
      controlEnded, observationPending, deferredRefusals := false, false, [];
      logFailures, logFailuresProjected, noted, made := [], 0, [], 0;
    }

    /** Record a fatal fact once; a refusal waits for a pending observation. */
    method RecordFailure(code: FailureCode, error: Error, key: Option<Key>)
      modifies this, gate
      ensures State() == Do(old(State()), Call.RecordFailure(code, error, key)).0
    {
      var identity := if key.Some? then key.value else ByError(code, error);
      if HasKey(failures, identity) || HasError(failures, error) {
        return;
      }
      if observationPending && error.SessionEnding? {
        if !HasError(deferredRefusals, error) {
          deferredRefusals := deferredRefusals + [Failed(identity, code, error)];
        }
        return;
      }
      var number := |failures|;
      failures := failures + [Failed(identity, code, error)];
      errorReported := false;
      gate.Fail(number);
    }

    /** Record a failure in the authority's own words, with the next error it makes. */
    method RecordOwn(code: FailureCode, error: Error, key: Key)
      requires error == Made(State())
      modifies this, gate
      ensures State() == NoticedOwn(old(State()), code, key)
    {
      made := made + 1;
      RecordFailure(code, error, Some(key));
    }

    method RecordLogFailure(error: Error)
      modifies this`logFailures
      ensures State() == LogNoticed(old(State()), error)
    {
      if error !in logFailures {
        logFailures := logFailures + [error];
      }
    }

    /** Publish the snapshot, and recognise an incomplete log. */
    method PublishTerminal(snapshot: TerminalSnapshot, logError: Error)
      requires logError == Made(State().(terminal := Some(snapshot)))
      modifies this`terminal, this`logFailures, this`made
      ensures State() == Terminated(old(State()), snapshot)
    {
      terminal := Some(snapshot);
      if snapshot.log.Some? && snapshot.log.value.diagnostic.Some? {
        made := made + 1;
        RecordLogFailure(logError);
      }
    }

    method RecordTerminal(snapshot: TerminalSnapshot, logError: Error, error: Error)
      requires logError == Made(State().(terminal := Some(snapshot)))
      requires error == Made(Terminated(State(), snapshot))
      modifies this, gate
      ensures State() == Do(old(State()), Call.RecordTerminal(snapshot)).0
    {
      PublishTerminal(snapshot, logError);
      if snapshot.outcome.childResult.Some? && snapshot.outcome.ChildFailureIsPrimary() {
        RecordOwn(TerminalFailure, error, TerminalKey);
      } else if snapshot.OperationFailed(policy) {
        RecordOwn(TerminalFailure, error, TerminalKey);
      }
      gate.End();
    }

    method Cancel()
      modifies this, gate
      ensures State() == Do(old(State()), Call.Cancel).0
    {
      closing := true;
      gate.Cancel();
    }

    method BeginControlExit()
      modifies this
      ensures State() == Do(old(State()), Call.BeginControlExit).0
    {
      controlEnded := true;
      observationPending := true;
    }

    /** Final accounting, then the refusals issued while it was pending. */
    method FinishControlExit(error: Error)
      requires error == Made(State())
      modifies this, gate
      ensures State() == Do(old(State()), Call.FinishControlExit).0
    {
      if terminal.None? {
        RecordOwn(ControlEndedFailure, error, ControlEndedKey);
      }
      observationPending := false;
      var refusals := deferredRefusals;
      deferredRefusals := [];
      ghost var open := State();
      for i := 0 to |refusals|
        invariant NoticedAll(State(), refusals[i..]) == NoticedAll(open, refusals)
      {
        RecordFailure(refusals[i].code, refusals[i].error, Some(refusals[i].key));
      }
    }

    method RecordControlStatus(status: Option<int>, error: Error)
      requires error == Made(State())
      modifies this, gate
      ensures State() == Do(old(State()), Call.RecordControlStatus(status)).0
    {
      if status.Some? && status.value != 0 {
        RecordOwn(ControlProcessFailure, error, ControlStatusKey);
      }
    }

    method PublishFailure() returns (error: Option<Error>)
      modifies this`errorReported
      ensures error == Primary(old(State())) && State() == Published(old(State()))
    {
      if failures == [] {
        return None;
      }
      errorReported := true;
      return Some(failures[0].error);
    }

    /** The final operation failure, with the log facts applied. */
    method ProjectResult() returns (primary: Option<Error>)
      requires LogFactsInv(State())
      modifies this
      ensures (State(), primary) == Projected(old(State()))
    {
      primary := PublishFailure();
      var first := logFailuresProjected;
      if primary.None? && logFailures != [] {
        primary := Some(logFailures[0]);
        first := if first == 0 then 1 else first;
      }
      if primary.Some? {
        noted := noted + Attached(primary.value, logFailures[first..]);
        logFailuresProjected := |logFailures|;
      }
    }

    method OperationStatus() returns (answer: Answer)
      modifies this`errorReported
      ensures (State(), answer) == Do(old(State()), Call.OperationStatus)
    {
      var error := PublishFailure();
      if error.Some? {
        return Answer.Raised(error.value);
      }
      if observationPending {
        return Value(None);
      }
      if terminal.None? || terminal.value.outcome.childResult.None? {
        return Value(None);
      }
      return Value(Some(terminal.value.outcome.childResult.value.returncode));
    }

    method ResolveEffectFailure(error: Error) returns (selected: Error)
      modifies this, gate
      ensures (State(), Result(Some(selected))) == Do(old(State()), ResolveEffect(error))
    {
      RecordFailure(OperationFailure, error, None);
      var primary := PublishFailure();
      return if primary.Some? then primary.value else error;
    }

    /** Commit dependent-work entry at one point, after every session condition. */
    method AdmitWork(required: set<Forward>, forwarded: set<Forward>, finalRefuses: bool, error: Error)
      returns (answer: Answer)
      requires error == SessionEnding(Made(State()).id)
      modifies this, gate
      ensures (State(), answer) == Do(old(State()), Call.AdmitWork(required, forwarded, finalRefuses))
    {
      var primary := PublishFailure();
      if primary.Some? {
        return Answer.Raised(primary.value);
      }
      if closing {
        return RaisedClosed;
      }
      if observationPending {
        made := made + 1;
        return RaisedEnding(error);
      }
      if terminal.Some? || controlEnded {
        return RaisedClosed;
      }
      var ticket, denied := gate.Prepare(required);
      if denied {
        return RaisedDenied;
      }
      gate.ObserveForwarded(forwarded);
      if finalRefuses {
        return Refused;
      }
      var entered := gate.Enter(ticket);
      return if entered then Granted(ticket) else RaisedNotReady;
    }

    method AdmitHelperEffect(finalRefuses: bool, error: Error) returns (answer: Answer)
      requires error == SessionEnding(Made(State()).id)
      modifies this
      ensures (State(), answer) == Do(old(State()), Call.AdmitHelperEffect(finalRefuses))
    {
      var primary := PublishFailure();
      if primary.Some? {
        return Answer.Raised(primary.value);
      }
      if observationPending {
        made := made + 1;
        return RaisedEnding(error);
      }
      if terminal.Some? || controlEnded {
        return RaisedClosed;
      }
      return if finalRefuses then Refused else Returned;
    }

    /** Further START bytes, or a wait for final accounting. */
    method AdmitStartWrite() returns (answer: Answer)
      modifies this`errorReported
      ensures (State(), answer) == Do(old(State()), Call.AdmitStartWrite)
    {
      var primary := PublishFailure();
      if primary.Some? {
        return Answer.Raised(primary.value);
      }
      if observationPending {
        return Deferred;
      }
      if terminal.Some? || controlEnded {
        return RaisedClosed;
      }
      return Returned;
    }
  }
}
