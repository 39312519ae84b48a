/**
 * START on both sides: the encoder's process specification
 * (protocol/process.py, protocol/listeners.py) and its strict decoding
 * (protocol/commands.py).
 */
module Commands {
  import opened Base
  import opened Outcomes
  import opened Arguments
  import opened JsonTrees
  import Events

  datatype PathKind = FileKind | DirectoryKind

  /** A required path as the controller specifies it, and as the helper decodes it. */
  datatype RequiredPathSpec = RequiredPathSpec(path: string, kind: PathKind, template: Option<Template>)

  datatype PathValue = PlainPath(path: string) | PathTemplate(template: Template)

  datatype RequiredPath = RequiredPath(kind: PathKind, value: PathValue)

  datatype Listener = Listener(name: string, remotePort: int)

  /** A timeout on the wire: a JSON integer or fraction. */
  datatype Timeout = Whole(number: int) | Fraction(value: real)

  datatype ProcessSpec = ProcessSpec(
    argv: seq<string>,
    environment: seq<(string, string)>,
    requiredPaths: seq<RequiredPathSpec>,
    readinessEvidence: seq<string>,
    readinessTimeout: Timeout,
    literalPrefix: int,
    argvTemplates: seq<(int, Template)>,
    completionPolicy: CompletionPolicy)

  datatype StartRequest = StartRequest(
    completionPolicy: CompletionPolicy,
    argv: seq<string>,
    environment: map<string, string>,
    requiredPaths: seq<RequiredPath>,
    listeners: seq<Listener>,
    readinessEvidence: seq<string>,
    readinessTimeout: real,
    literalPrefix: int,
    argvTemplates: seq<(int, Template)>,
    preferredAddress: Option<nat>)

  /** Conversion of an integer to a finite float; None overflows. */
  type ToFloat = int -> Option<real>

  function Seconds(f: ToFloat, t: Timeout): Option<real> {
    match t
    case Whole(n) => f(n)
    case Fraction(x) => Some(x)
  }

  predicate ValidTimeout(f: ToFloat, t: Timeout) {
    Seconds(f, t).Some? && Seconds(f, t).value > 0.0
  }

  predicate ValidVariable(name: string, value: string) {
    name != [] && '=' !in name && '\0' !in name && '\0' !in value
  }

  predicate EvidenceChar(c: char) {
    ('A' <= c <= 'Z') || ('a' <= c <= 'z') || ('0' <= c <= '9') || c == '_'
  }

  predicate ValidEvidence(names: seq<string>) {
    && (forall i | 0 <= i < |names| :: names[i] != [] && forall k | 0 <= k < |names[i]| :: EvidenceChar(names[i][k]))
    && Distinct(names)
  }

  predicate ValidPreferred(address: Option<nat>) {
    address.Some? ==> Events.UsableAddress(address.value)
  }

  predicate ValidListeners(ls: seq<Listener>) {
    && (forall i | 0 <= i < |ls| :: ls[i].name != [] && 1 <= ls[i].remotePort <= 65535)
    && (forall i, j | 0 <= i < j < |ls| :: ls[i].name != ls[j].name && ls[i].remotePort != ls[j].remotePort)
  }

  predicate NoWords(t: Template) {
    forall i | 0 <= i < |t| :: t[i].One?
  }

  predicate ValidPathSpec(p: RequiredPathSpec) {
    && p.path != [] && '\0' !in p.path
    && (p.template.Some? ==> ValidTemplate(p.template.value) && NoWords(p.template.value))
  }

  predicate ValidTemplates(ts: seq<(int, Template)>, argvLength: int, prefix: int) {
    && (forall i | 0 <= i < |ts| :: prefix <= ts[i].0 < argvLength && ValidTemplate(ts[i].1))
    && (forall i, j | 0 <= i < j < |ts| :: ts[i].0 != ts[j].0)
  }

  function PathTemplates(ps: seq<RequiredPathSpec>): seq<Template> {
    if |ps| == 0 then []
    else (if ps[0].template.Some? then [ps[0].template.value] else []) + PathTemplates(ps[1..])
  }

  function RequestTemplates(ps: seq<RequiredPath>): seq<Template> {
    if |ps| == 0 then []
    else (if ps[0].value.PathTemplate? then [ps[0].value.template] else []) + RequestTemplates(ps[1..])
  }

  /** What the ProcessSpec constructor accepts. */
  predicate ValidSpec(f: ToFloat, p: ProcessSpec) {
    && Events.ValidArgv(p.argv)
    && (forall i | 0 <= i < |p.environment| :: ValidVariable(p.environment[i].0, p.environment[i].1))
    && (forall i, j | 0 <= i < j < |p.environment| :: p.environment[i].0 != p.environment[j].0)
    && (forall i | 0 <= i < |p.requiredPaths| :: ValidPathSpec(p.requiredPaths[i]))
    && ValidEvidence(p.readinessEvidence)
    && ValidTimeout(f, p.readinessTimeout)
    && 0 <= p.literalPrefix <= |p.argv|
    && ValidTemplates(p.argvTemplates, |p.argv|, p.literalPrefix)
    && LogSpoolRequested(Templates(p.argvTemplates), PathTemplates(p.requiredPaths)).Some?
  }

  // Printing.

  function PrintValue(v: SessionValue): Json {
    Named(match v case Workspace => WorkspaceWord case Address => AddressWord case LogSpool => LogSpoolWord)
  }

  function PrintPlain(p: Plain): Json {
    match p
    case Literal(text) => Text(text)
    case Session(v) => Object(map[SessionKey := PrintValue(v)])
  }

  /** wire_parts on one part. */
  function PrintPart(p: Part): Json {
    match p
    case One(plain) => PrintPlain(plain)
    case TclWord(parts) => Object(map[TclWordKey := List(PrintAll(PrintPlain, parts))])
  }

  function PrintTemplate(t: Template): Json {
    List(PrintAll(PrintPart, t))
  }

  function PrintPath(p: RequiredPathSpec): Json {
    Object(map[
      Kind := Named(if p.kind.FileKind? then FileWord else DirectoryWord),
      PathKey := if p.template.None? then Text(p.path) else Object(map[Parts := PrintTemplate(p.template.value)])])
  }

  function PrintIndexed(t: (int, Template)): Json {
    Object(map[Index := Int(t.0), Parts := PrintTemplate(t.1)])
  }

  function PrintListener(l: Listener): Json {
    Object(map[NameKey := Text(l.name), RemotePort := Int(l.remotePort)])
  }

  function PrintText(s: string): Json {
    Text(s)
  }

  /** dict(environment): a later value replaces an earlier one. */
  function Variables(env: seq<(string, string)>): map<string, string>
    decreases |env|
  {
    if |env| == 0 then map[]
    else Variables(env[..|env| - 1])[env[|env| - 1].0 := env[|env| - 1].1]
  }

  function PrintEnvironment(env: map<string, string>): Json {
    Dictionary(map name | name in env :: Text(env[name]))
  }

  function PrintPolicy(p: CompletionPolicy): Json {
    Named(if p.LiveServer? then LiveServerWord else ProcessExitWord)
  }

  function Hint(preferred: Option<nat>): Json {
    if preferred.None? then Null else Ipv4(preferred.value)
  }

  function PrintTimeout(t: Timeout): Json {
    match t case Whole(n) => Int(n) case Fraction(x) => Float(x)
  }

  predicate StartField(k: Key) {
    || k.Version? || k.Type? || k.Argv? || k.Environment? || k.RequiredPaths? || k.Services?
    || k.ReadinessEvidence? || k.ReadinessTimeoutKey? || k.LiteralPrefix? || k.ArgvTemplates?
    || k.PreferredAddress? || k.CompletionPolicyKey?
  }

  /** Exactly the fields of START. */
  predicate ExactStart(m: map<Key, Json>) {
    && (forall k | k in m :: StartField(k))
    && Version in m && Type in m && Argv in m && Environment in m && RequiredPaths in m && Services in m
    && ReadinessEvidence in m && ReadinessTimeoutKey in m && LiteralPrefix in m && ArgvTemplates in m
    && PreferredAddress in m && CompletionPolicyKey in m
  }

  /** encode_start, up to JSON text; None is a refused preferred address. */
  function EncodeStart(p: ProcessSpec, listeners: seq<Listener>, preferred: Option<nat>): Option<Json> {
    if !ValidPreferred(preferred) then None
    else
      Some(Object(map[
        Version := Int(1),
        Type := Named(StartWord),
        CompletionPolicyKey := PrintPolicy(p.completionPolicy),
        PreferredAddress := Hint(preferred),
        Argv := List(PrintAll(PrintText, p.argv)),
        Environment := PrintEnvironment(Variables(p.environment)),
        RequiredPaths := List(PrintAll(PrintPath, p.requiredPaths)),
        Services := List(PrintAll(PrintListener, listeners)),
        ReadinessEvidence := List(PrintAll(PrintText, p.readinessEvidence)),
        ReadinessTimeoutKey := PrintTimeout(p.readinessTimeout),
        LiteralPrefix := Int(p.literalPrefix),
        ArgvTemplates := List(PrintAll(PrintIndexed, p.argvTemplates))]))
  }

  // Parsing.

  function ParseValue(j: Json): Option<SessionValue> {
    if j == Named(WorkspaceWord) then Some(Workspace)
    else if j == Named(AddressWord) then Some(Address)
    else if j == Named(LogSpoolWord) then Some(LogSpool)
    else None
  }

  function ParsePlain(j: Json): Option<Plain> {
    if j.Text? then Some(Literal(j.text))
    else if Exact(j, {SessionKey}) then
      var v := ParseValue(j.fields[SessionKey]);
      if v.None? then None else Some(Session(v.value))
    else None
  }

  /** Plain parts, and the constructor's check of their literals. */
  function ParsePlains(j: Json): Option<seq<Plain>> {
    if !j.List? || j.items == [] then None
    else
      var parts := ParseAll(ParsePlain, j.items);
      if parts.None? || !ValidPlains(parts.value) then None else parts
  }

  function ParsePart(j: Json): Option<Part> {
    if Exact(j, {TclWordKey}) then
      var parts := ParsePlains(j.fields[TclWordKey]);
      if parts.None? then None else Some(TclWord(parts.value))
    else
      var plain := ParsePlain(j);
      if plain.None? then None else Some(One(plain.value))
  }

  function ParseTemplate(j: Json): Option<Template> {
    if !j.List? || j.items == [] then None
    else
      var parts := ParseAll(ParsePart, j.items);
      if parts.None? || !ValidTemplate(parts.value) then None else parts
  }

  function ParsePathTemplate(j: Json): Option<Template> {
    var parts := ParsePlains(j);
    if parts.None? then None else Some(seq(|parts.value|, i requires 0 <= i < |parts.value| => One(parts.value[i])))
  }

  function ParseKind(j: Json): Option<PathKind> {
    if j == Named(FileWord) then Some(FileKind)
    else if j == Named(DirectoryWord) then Some(DirectoryKind)
    else None
  }

  function ParsePathValue(j: Json): Option<PathValue> {
    if j.Text? then (if j.text == [] || '\0' in j.text then None else Some(PlainPath(j.text)))
    else if Exact(j, {Parts}) then
      var t := ParsePathTemplate(j.fields[Parts]);
      if t.None? then None else Some(PathTemplate(t.value))
    else None
  }

  function ParsePath(j: Json): Option<RequiredPath> {
    if !Exact(j, {Kind, PathKey}) then None
    else
      var kind := ParseKind(j.fields[Kind]);
      var value := ParsePathValue(j.fields[PathKey]);
      if kind.None? || value.None? then None else Some(RequiredPath(kind.value, value.value))
  }

  /** One indexed template: its index in range, its parts well formed. */
  function ParseIndexed(j: Json, argvLength: int, prefix: int): Option<(int, Template)> {
    if !Exact(j, {Index, Parts}) || !j.fields[Index].Int? || !(prefix <= j.fields[Index].number < argvLength) then None
    else
      var t := ParseTemplate(j.fields[Parts]);
      if t.None? then None else Some((j.fields[Index].number, t.value))
  }

  predicate DistinctIndexes(ts: seq<(int, Template)>) {
    forall i, j | 0 <= i < j < |ts| :: ts[i].0 != ts[j].0
  }

  function ParseTemplates(j: Json, argvLength: int, prefix: int): Option<seq<(int, Template)>> {
    if !j.List? then None
    else
      var ts := ParseAll(x => ParseIndexed(x, argvLength, prefix), j.items);
      if ts.None? || !DistinctIndexes(ts.value) then None else ts
  }

  /** _parse_argv_templates: one pass, with the indexes seen so far. */
  method ParseArgvTemplates(j: Json, argvLength: int, prefix: int) returns (result: Option<seq<(int, Template)>>)
    ensures result == ParseTemplates(j, argvLength, prefix)
  {
    if !j.List? {
      return None;
    }
    var parse := x => ParseIndexed(x, argvLength, prefix);
    ParseAllExactly(parse, j.items);
    var templates: seq<(int, Template)> := [];
    var seen: set<int> := {};
    for i := 0 to |j.items|
      invariant |templates| == i
      invariant forall k | 0 <= k < i :: Some(templates[k]) == parse(j.items[k])
      invariant DistinctIndexes(templates)
      invariant forall x :: x in seen <==> exists k | 0 <= k < i :: templates[k].0 == x
    {
      var next := ParseIndexed(j.items[i], argvLength, prefix);
      assert next == parse(j.items[i]);
      if next.None? {
        return None;
      }
      if next.value.0 in seen {
        ghost var k :| 0 <= k < i && templates[k].0 == next.value.0;
        return None;
      }
      seen := seen + {next.value.0};
      templates := templates + [next.value];
      assert templates[i].0 == next.value.0;
    }
    assert ParseAll(parse, j.items).value == templates;
    return Some(templates);
  }

  function ParseText(j: Json): Option<string> {
    if j.Text? then Some(j.text) else None
  }

  function ParseStrings(j: Json): Option<seq<string>> {
    if j.List? then ParseAll(ParseText, j.items) else None
  }

  /** An environment: every value a string, every name and value valid. */
  function ParseEnvironment(j: Json): Option<map<string, string>> {
    if !j.Dictionary? || exists name :: name in j.entries && !j.entries[name].Text? then None
    else
      var env := map name | name in j.entries :: j.entries[name].text;
      if exists name :: name in env && !ValidVariable(name, env[name]) then None else Some(env)
  }

  function ParseTimeout(f: ToFloat, j: Json): Option<real> {
    var seconds := match j case Int(n) => f(n) case Float(x) => Some(x) case _ => None;
    if seconds.Some? && seconds.value > 0.0 then seconds else None
  }

  function ParseListener(j: Json): Option<Listener> {
    if !Exact(j, {NameKey, RemotePort}) || !j.fields[NameKey].Text? || !j.fields[RemotePort].Int? then None
    else Some(Listener(j.fields[NameKey].text, j.fields[RemotePort].number))
  }

  function ParseListeners(j: Json): Option<seq<Listener>> {
    if !j.List? then None
    else
      var ls := ParseAll(ParseListener, j.items);
      if ls.None? || !ValidListeners(ls.value) then None else ls
  }

  function ParsePaths(j: Json): Option<seq<RequiredPath>> {
    if j.List? then ParseAll(ParsePath, j.items) else None
  }

  /** The outer option is the parse; the inner one the hint. */
  function ParsePreferred(j: Json): Option<Option<nat>> {
    if j.Null? then Some(None)
    else if j.Ipv4? && ValidPreferred(Some(j.address)) then Some(Some(j.address))
    else None
  }

  function ParsePolicy(j: Json): Option<CompletionPolicy> {
    if j == Named(LiveServerWord) then Some(LiveServer)
    else if j == Named(ProcessExitWord) then Some(ProcessExit)
    else None
  }

  /** The parts of a START message that do not depend on its argv. */
  datatype Independent = Independent(
    policy: CompletionPolicy,
    environment: map<string, string>,
    paths: seq<RequiredPath>,
    listeners: seq<Listener>,
    evidence: seq<string>,
    timeout: real,
    preferred: Option<nat>)

  function ParseIndependent(f: ToFloat, policy: Json, environment: Json, paths: Json, listeners: Json,
                            evidence: Json, timeout: Json, preferred: Json)
    : Option<Independent>
  {
    var policy := ParsePolicy(policy);
    var environment := ParseEnvironment(environment);
    var paths := ParsePaths(paths);
    var listeners := ParseListeners(listeners);
    var evidence := ParseStrings(evidence);
    var timeout := ParseTimeout(f, timeout);
    var preferred := ParsePreferred(preferred);
    if policy.None? || environment.None? || paths.None? || listeners.None? || evidence.None?
       || !ValidEvidence(evidence.value) || timeout.None? || preferred.None? then None
    else
      Some(Independent(policy.value, environment.value, paths.value, listeners.value, evidence.value,
                       timeout.value, preferred.value))
  }

  /** _decode_start, on a decoded frame; None is any of its refusals. */
  function DecodeStart(f: ToFloat, j: Json): Option<StartRequest> {
    if !j.Object? || !ExactStart(j.fields) || j.fields[Version] != Int(1) || j.fields[Type] != Named(StartWord)
    then None
    else
      var m := j.fields;
      var rest := ParseIndependent(f, m[CompletionPolicyKey], m[Environment], m[RequiredPaths], m[Services],
                                   m[ReadinessEvidence], m[ReadinessTimeoutKey], m[PreferredAddress]);
      if rest.None? then None else DecodeArguments(m[Argv], m[LiteralPrefix], m[ArgvTemplates], rest.value)
  }

  /** The argv, what is templated in it, and the placement of the log channel. */
  function DecodeArguments(argv: Json, literalPrefix: Json, argvTemplates: Json, rest: Independent)
    : Option<StartRequest>
  {
    var argv := ParseStrings(argv);
    if argv.None? || !Events.ValidArgv(argv.value) then None
    else if !literalPrefix.Int? || !(0 <= literalPrefix.number <= |argv.value|) then None
    else
      var templates := ParseTemplates(argvTemplates, |argv.value|, literalPrefix.number);
      if templates.None? then None
      else if LogSpoolRequested(Templates(templates.value), RequestTemplates(rest.paths)).None? then None
      else
        Some(StartRequest(rest.policy, argv.value, rest.environment, rest.paths, rest.listeners, rest.evidence,
                          rest.timeout, literalPrefix.number, templates.value, rest.preferred))
  }

  // The round trip.

  lemma PlainRoundTrip(p: Plain)
    ensures ParsePlain(PrintPlain(p)) == Some(p)
  {
  }

  lemma PlainsRoundTrip(ps: seq<Plain>)
    requires ValidPlains(ps)
    ensures ParsePlains(List(PrintAll(PrintPlain, ps))) == Some(ps)
  {
    forall i | 0 <= i < |ps|
      ensures ParsePlain(PrintPlain(ps[i])) == Some(ps[i])
    {
      PlainRoundTrip(ps[i]);
    }
    ParseAllPrinted(ParsePlain, PrintPlain, ps);
  }

  lemma PartRoundTrip(p: Part)
    requires ValidPart(p)
    ensures ParsePart(PrintPart(p)) == Some(p)
  {
    match p
    case One(plain) =>
      PlainRoundTrip(plain);
      assert SessionKey != TclWordKey;
      if plain.Session? {
        assert SessionKey in PrintPlain(plain).fields && SessionKey !in {TclWordKey};
      }
    case TclWord(parts) => PlainsRoundTrip(parts);
  }

  lemma TemplateRoundTrip(t: Template)
    requires ValidTemplate(t)
    ensures ParseTemplate(PrintTemplate(t)) == Some(t)
  {
    forall i | 0 <= i < |t|
      ensures ParsePart(PrintPart(t[i])) == Some(t[i])
    {
      PartRoundTrip(t[i]);
    }
    ParseAllPrinted(ParsePart, PrintPart, t);
  }

  /** A path template has no words, so it reads back as plain parts. */
  lemma PathTemplateRoundTrip(t: Template)
    requires ValidTemplate(t) && NoWords(t)
    ensures ParsePathTemplate(PrintTemplate(t)) == Some(t)
  {
    var plains := seq(|t|, i requires 0 <= i < |t| => t[i].plain);
    forall i | 0 <= i < |t|
      ensures PrintAll(PrintPart, t)[i] == PrintAll(PrintPlain, plains)[i] && ValidPlain(plains[i])
    {
      assert ValidPart(t[i]) && t[i] == One(plains[i]);
      assert PrintPart(t[i]) == PrintPlain(plains[i]);
    }
    assert PrintAll(PrintPart, t) == PrintAll(PrintPlain, plains);
    PlainsRoundTrip(plains);
    var back := ParsePathTemplate(PrintTemplate(t)).value;
    assert |back| == |t| && forall i | 0 <= i < |t| :: back[i] == One(plains[i]);
    assert back == t;
  }

  /** What the helper decodes of a required path. */
  function Decoded(p: RequiredPathSpec): RequiredPath {
    RequiredPath(p.kind, if p.template.None? then PlainPath(p.path) else PathTemplate(p.template.value))
  }

  lemma PathRoundTrip(p: RequiredPathSpec)
    requires ValidPathSpec(p)
    ensures ParsePath(PrintPath(p)) == Some(Decoded(p))
  {
    if p.template.Some? {
      PathTemplateRoundTrip(p.template.value);
    }
  }

  function DecodedPaths(ps: seq<RequiredPathSpec>): seq<RequiredPath> {
    seq(|ps|, i requires 0 <= i < |ps| => Decoded(ps[i]))
  }

  lemma {:induction false} PathsRoundTrip(ps: seq<RequiredPathSpec>)
    requires forall i | 0 <= i < |ps| :: ValidPathSpec(ps[i])
    ensures ParseAll(ParsePath, PrintAll(PrintPath, ps)) == Some(DecodedPaths(ps))
    ensures RequestTemplates(DecodedPaths(ps)) == PathTemplates(ps)
    decreases |ps|
  {
    if |ps| > 0 {
      PathRoundTrip(ps[0]);
      PathsRoundTrip(ps[1..]);
      assert PrintAll(PrintPath, ps)[1..] == PrintAll(PrintPath, ps[1..]);
      assert DecodedPaths(ps)[1..] == DecodedPaths(ps[1..]);
      assert [Decoded(ps[0])] + DecodedPaths(ps[1..]) == DecodedPaths(ps);
    }
  }

  lemma TemplatesRoundTrip(ts: seq<(int, Template)>, argvLength: int, prefix: int)
    requires ValidTemplates(ts, argvLength, prefix)
    ensures ParseTemplates(List(PrintAll(PrintIndexed, ts)), argvLength, prefix) == Some(ts)
  {
    var parse := (x: Json) => ParseIndexed(x, argvLength, prefix);
    forall i | 0 <= i < |ts|
      ensures parse(PrintIndexed(ts[i])) == Some(ts[i])
    {
      TemplateRoundTrip(ts[i].1);
    }
    ParseAllPrinted(parse, PrintIndexed, ts);
  }

  lemma StringsRoundTrip(ss: seq<string>)
    ensures ParseStrings(List(PrintAll(PrintText, ss))) == Some(ss)
  {
    ParseAllPrinted(ParseText, PrintText, ss);
  }

  lemma ListenersRoundTrip(ls: seq<Listener>)
    requires ValidListeners(ls)
    ensures ParseListeners(List(PrintAll(PrintListener, ls))) == Some(ls)
  {
    ParseAllPrinted(ParseListener, PrintListener, ls);
  }

  /** With unique names, the environment on the wire is exactly the specified pairs. */
  lemma {:induction false} VariablesExactly(env: seq<(string, string)>)
    requires forall i, j | 0 <= i < j < |env| :: env[i].0 != env[j].0
    ensures forall i | 0 <= i < |env| :: env[i].0 in Variables(env) && Variables(env)[env[i].0] == env[i].1
    ensures forall name | name in Variables(env) :: (name, Variables(env)[name]) in env
    decreases |env|
  {
    if |env| > 0 {
      var n := |env| - 1;
      VariablesExactly(env[..n]);
      assert forall i | 0 <= i < n :: env[..n][i] == env[i];
      assert env[n] in env;
      forall name | name in Variables(env)
        ensures (name, Variables(env)[name]) in env
      {
        if name != env[n].0 {
          assert (name, Variables(env[..n])[name]) in env[..n];
        }
      }
    }
  }

  lemma EnvironmentRoundTrip(env: map<string, string>)
    requires forall name | name in env :: ValidVariable(name, env[name])
    ensures ParseEnvironment(PrintEnvironment(env)) == Some(env)
  {
    var entries := PrintEnvironment(env).entries;
    var back := map name | name in entries :: entries[name].text;
    assert back == env;
  }

  /** The request a valid specification stands for. */
  function RequestOf(f: ToFloat, p: ProcessSpec, listeners: seq<Listener>, preferred: Option<nat>): StartRequest
    requires Seconds(f, p.readinessTimeout).Some?
  {
    StartRequest(p.completionPolicy, p.argv, Variables(p.environment), DecodedPaths(p.requiredPaths), listeners,
                 p.readinessEvidence, Seconds(f, p.readinessTimeout).value, p.literalPrefix, p.argvTemplates, preferred)
  }

  lemma SpecEnvironmentRoundTrip(f: ToFloat, p: ProcessSpec)
    requires ValidSpec(f, p)
    ensures ParseEnvironment(PrintEnvironment(Variables(p.environment))) == Some(Variables(p.environment))
  {
    VariablesExactly(p.environment);
    forall name | name in Variables(p.environment)
      ensures ValidVariable(name, Variables(p.environment)[name])
    {
      var i :| 0 <= i < |p.environment| && p.environment[i] == (name, Variables(p.environment)[name]);
    }
    EnvironmentRoundTrip(Variables(p.environment));
  }

  /** Fields that parse one by one parse together. */
  lemma IndependentParts(f: ToFloat, policy: Json, environment: Json, paths: Json, listeners: Json, evidence: Json,
                         timeout: Json, preferred: Json, parts: Independent)
    requires ParsePolicy(policy) == Some(parts.policy) && ParseEnvironment(environment) == Some(parts.environment)
    requires ParsePaths(paths) == Some(parts.paths) && ParseListeners(listeners) == Some(parts.listeners)
    requires ParseStrings(evidence) == Some(parts.evidence) && ValidEvidence(parts.evidence)
    requires ParseTimeout(f, timeout) == Some(parts.timeout) && ParsePreferred(preferred) == Some(parts.preferred)
    ensures ParseIndependent(f, policy, environment, paths, listeners, evidence, timeout, preferred) == Some(parts)
  {
  }

  lemma IndependentRoundTrip(f: ToFloat, p: ProcessSpec, listeners: seq<Listener>, preferred: Option<nat>)
    requires ValidSpec(f, p) && ValidListeners(listeners) && ValidPreferred(preferred)
    ensures ParseIndependent(f, PrintPolicy(p.completionPolicy), PrintEnvironment(Variables(p.environment)),
                             List(PrintAll(PrintPath, p.requiredPaths)), List(PrintAll(PrintListener, listeners)),
                             List(PrintAll(PrintText, p.readinessEvidence)), PrintTimeout(p.readinessTimeout),
                             Hint(preferred)) ==
            Some(Independent(p.completionPolicy, Variables(p.environment), DecodedPaths(p.requiredPaths), listeners,
                             p.readinessEvidence, Seconds(f, p.readinessTimeout).value, preferred))
  {
    SpecEnvironmentRoundTrip(f, p);
    PathsRoundTrip(p.requiredPaths);
    ListenersRoundTrip(listeners);
    StringsRoundTrip(p.readinessEvidence);
    IndependentParts(f, PrintPolicy(p.completionPolicy), PrintEnvironment(Variables(p.environment)),
                     List(PrintAll(PrintPath, p.requiredPaths)), List(PrintAll(PrintListener, listeners)),
                     List(PrintAll(PrintText, p.readinessEvidence)), PrintTimeout(p.readinessTimeout), Hint(preferred),
                     Independent(p.completionPolicy, Variables(p.environment), DecodedPaths(p.requiredPaths),
                                 listeners, p.readinessEvidence, Seconds(f, p.readinessTimeout).value, preferred));
  }

  lemma ArgumentsRoundTrip(f: ToFloat, p: ProcessSpec, rest: Independent)
    requires ValidSpec(f, p) && rest.paths == DecodedPaths(p.requiredPaths)
    ensures DecodeArguments(List(PrintAll(PrintText, p.argv)), Int(p.literalPrefix),
                            List(PrintAll(PrintIndexed, p.argvTemplates)), rest) ==
            Some(StartRequest(rest.policy, p.argv, rest.environment, rest.paths, rest.listeners, rest.evidence,
                              rest.timeout, p.literalPrefix, p.argvTemplates, rest.preferred))
  {
    StringsRoundTrip(p.argv);
    TemplatesRoundTrip(p.argvTemplates, |p.argv|, p.literalPrefix);
    PathsRoundTrip(p.requiredPaths);
  }

  /** What an encoded START message says, field by field. */
  lemma EncodedFields(p: ProcessSpec, listeners: seq<Listener>, preferred: Option<nat>)
    requires ValidPreferred(preferred)
    ensures EncodeStart(p, listeners, preferred).Some? && EncodeStart(p, listeners, preferred).value.Object?
    ensures
      var m := EncodeStart(p, listeners, preferred).value.fields;
      && ExactStart(m)
      && m[Version] == Int(1) && m[Type] == Named(StartWord)
      && m[CompletionPolicyKey] == PrintPolicy(p.completionPolicy)
      && m[PreferredAddress] == Hint(preferred)
      && m[Argv] == List(PrintAll(PrintText, p.argv))
      && m[Environment] == PrintEnvironment(Variables(p.environment))
      && m[RequiredPaths] == List(PrintAll(PrintPath, p.requiredPaths))
      && m[Services] == List(PrintAll(PrintListener, listeners))
      && m[ReadinessEvidence] == List(PrintAll(PrintText, p.readinessEvidence))
      && m[ReadinessTimeoutKey] == PrintTimeout(p.readinessTimeout)
      && m[LiteralPrefix] == Int(p.literalPrefix)
      && m[ArgvTemplates] == List(PrintAll(PrintIndexed, p.argvTemplates))
  {
    FieldsAsGiven(Int(1), Named(StartWord), PrintPolicy(p.completionPolicy), Hint(preferred),
                  List(PrintAll(PrintText, p.argv)), PrintEnvironment(Variables(p.environment)),
                  List(PrintAll(PrintPath, p.requiredPaths)), List(PrintAll(PrintListener, listeners)),
                  List(PrintAll(PrintText, p.readinessEvidence)), PrintTimeout(p.readinessTimeout),
                  Int(p.literalPrefix), List(PrintAll(PrintIndexed, p.argvTemplates)));
  }

  /** A START object with the given fields. */
  function StartObject(version: Json, kind: Json, policy: Json, hint: Json, argv: Json, environment: Json, paths: Json,
                       listeners: Json, evidence: Json, timeout: Json, prefix: Json, templates: Json): map<Key, Json>
  {
    map[Version := version, Type := kind, CompletionPolicyKey := policy, PreferredAddress := hint, Argv := argv,
        Environment := environment, RequiredPaths := paths, Services := listeners, ReadinessEvidence := evidence,
        ReadinessTimeoutKey := timeout, LiteralPrefix := prefix, ArgvTemplates := templates]
  }

  lemma ExactAsGiven(version: Json, kind: Json, policy: Json, hint: Json, argv: Json, environment: Json, paths: Json,
                     listeners: Json, evidence: Json, timeout: Json, prefix: Json, templates: Json)
    ensures ExactStart(StartObject(version, kind, policy, hint, argv, environment, paths, listeners, evidence,
                                   timeout, prefix, templates))
  {
  }

  /** It has exactly those, each with its own value. */
  lemma FieldsAsGiven(version: Json, kind: Json, policy: Json, hint: Json, argv: Json, environment: Json, paths: Json,
                      listeners: Json, evidence: Json, timeout: Json, prefix: Json, templates: Json)
    ensures
      var m := StartObject(version, kind, policy, hint, argv, environment, paths, listeners, evidence, timeout,
                           prefix, templates);
      && ExactStart(m)
      && m[Version] == version && m[Type] == kind && m[CompletionPolicyKey] == policy && m[PreferredAddress] == hint
      && m[Argv] == argv && m[Environment] == environment && m[RequiredPaths] == paths && m[Services] == listeners
      && m[ReadinessEvidence] == evidence && m[ReadinessTimeoutKey] == timeout && m[LiteralPrefix] == prefix
      && m[ArgvTemplates] == templates
  {
    ExactAsGiven(version, kind, policy, hint, argv, environment, paths, listeners, evidence, timeout, prefix,
                 templates);
  }

  /** Decoding a message of which every field is known to parse. */
  lemma DecodeKnown(f: ToFloat, m: map<Key, Json>, rest: Independent, request: StartRequest)
    requires ExactStart(m) && m[Version] == Int(1) && m[Type] == Named(StartWord)
    requires ParseIndependent(f, m[CompletionPolicyKey], m[Environment], m[RequiredPaths], m[Services],
                              m[ReadinessEvidence], m[ReadinessTimeoutKey], m[PreferredAddress]) == Some(rest)
    requires DecodeArguments(m[Argv], m[LiteralPrefix], m[ArgvTemplates], rest) == Some(request)
    ensures DecodeStart(f, Object(m)) == Some(request)
  {
  }

  /** The arguments' fields, decoded with the rest. */
  lemma ArgumentsDecode(f: ToFloat, p: ProcessSpec, listeners: seq<Listener>, preferred: Option<nat>,
                        m: map<Key, Json>, rest: Independent)
    requires ValidSpec(f, p) && ExactStart(m)
    requires rest == Independent(p.completionPolicy, Variables(p.environment), DecodedPaths(p.requiredPaths),
                                 listeners, p.readinessEvidence, Seconds(f, p.readinessTimeout).value, preferred)
    requires m[Argv] == List(PrintAll(PrintText, p.argv)) && m[LiteralPrefix] == Int(p.literalPrefix)
    requires m[ArgvTemplates] == List(PrintAll(PrintIndexed, p.argvTemplates))
    ensures DecodeArguments(m[Argv], m[LiteralPrefix], m[ArgvTemplates], rest) ==
            Some(RequestOf(f, p, listeners, preferred))
  {
    ArgumentsRoundTrip(f, p, rest);
  }

  /** Fields that print a specification decode to the request it stands for. */
  lemma FieldsDecode(f: ToFloat, p: ProcessSpec, listeners: seq<Listener>, preferred: Option<nat>, m: map<Key, Json>)
    requires ValidSpec(f, p) && ValidListeners(listeners) && ValidPreferred(preferred) && ExactStart(m)
    requires m[Version] == Int(1) && m[Type] == Named(StartWord)
    requires m[CompletionPolicyKey] == PrintPolicy(p.completionPolicy)
    requires m[PreferredAddress] == Hint(preferred)
    requires m[Argv] == List(PrintAll(PrintText, p.argv))
    requires m[Environment] == PrintEnvironment(Variables(p.environment))
    requires m[RequiredPaths] == List(PrintAll(PrintPath, p.requiredPaths))
    requires m[Services] == List(PrintAll(PrintListener, listeners))
    requires m[ReadinessEvidence] == List(PrintAll(PrintText, p.readinessEvidence))
    requires m[ReadinessTimeoutKey] == PrintTimeout(p.readinessTimeout)
    requires m[LiteralPrefix] == Int(p.literalPrefix)
    requires m[ArgvTemplates] == List(PrintAll(PrintIndexed, p.argvTemplates))
    ensures DecodeStart(f, Object(m)) == Some(RequestOf(f, p, listeners, preferred))
  {
    var rest := Independent(p.completionPolicy, Variables(p.environment), DecodedPaths(p.requiredPaths), listeners,
                            p.readinessEvidence, Seconds(f, p.readinessTimeout).value, preferred);
    IndependentRoundTrip(f, p, listeners, preferred);
    ArgumentsDecode(f, p, listeners, preferred, m, rest);
    DecodeKnown(f, m, rest, RequestOf(f, p, listeners, preferred));
  }

  /**
   * The round trip of START. Every valid specification, with valid listeners
   * and a valid or absent preferred address, encodes, and decodes to the
   * request it stands for: template trees, indexes, literal prefix, required
   * paths and log-channel placement all survive, the environment as a map.
   */
  lemma StartRoundTrip(f: ToFloat, p: ProcessSpec, listeners: seq<Listener>, preferred: Option<nat>)
    requires ValidSpec(f, p) && ValidListeners(listeners) && ValidPreferred(preferred)
    ensures EncodeStart(p, listeners, preferred).Some?
    ensures DecodeStart(f, EncodeStart(p, listeners, preferred).value) ==
            Some(RequestOf(f, p, listeners, preferred))
  {
    EncodedFields(p, listeners, preferred);
    FieldsDecode(f, p, listeners, preferred, EncodeStart(p, listeners, preferred).value.fields);
  }

  /** What the helper may rely on in a decoded request. */
  predicate WellFormed(r: StartRequest) {
    && Events.ValidArgv(r.argv)
    && (forall name | name in r.environment :: ValidVariable(name, r.environment[name]))
    && ValidListeners(r.listeners)
    && ValidEvidence(r.readinessEvidence)
    && r.readinessTimeout > 0.0
    && 0 <= r.literalPrefix <= |r.argv|
    && ValidTemplates(r.argvTemplates, |r.argv|, r.literalPrefix)
    && ValidPreferred(r.preferredAddress)
    && LogSpoolRequested(Templates(r.argvTemplates), RequestTemplates(r.requiredPaths)).Some?
  }

  lemma ParsedTemplatesAreValid(j: Json, argvLength: int, prefix: int)
    ensures
      var ts := ParseTemplates(j, argvLength, prefix);
      ts.Some? ==> ValidTemplates(ts.value, argvLength, prefix)
  {
    if j.List? {
      ParseAllExactly((x: Json) => ParseIndexed(x, argvLength, prefix), j.items);
    }
  }

  /** Whatever decodes is well formed, whoever sent it. */
  lemma DecodedIsWellFormed(f: ToFloat, j: Json)
    ensures DecodeStart(f, j).Some? ==> WellFormed(DecodeStart(f, j).value)
  {
    if DecodeStart(f, j).Some? {
      var m := j.fields;
      ParsedTemplatesAreValid(m[ArgvTemplates], |ParseStrings(m[Argv]).value|, m[LiteralPrefix].number);
    }
  }

  /**
   * A decoded request always materialises, when the session supplies the log
   * channel exactly if the request asks for it.
   */
  lemma DecodedMaterializes(f: ToFloat, j: Json, r: Replacements)
    requires DecodeStart(f, j).Some?
    requires
      var q := DecodeStart(f, j).value;
      LogSpoolRequested(Templates(q.argvTemplates), RequestTemplates(q.requiredPaths)) == Some(r.logSpool.Some?)
    ensures
      var q := DecodeStart(f, j).value;
      forall i | 0 <= i < |q.argv| :: Argument(r, q.literalPrefix, q.argvTemplates, q.argv[i], i).Some?
  {
    var q := DecodeStart(f, j).value;
    ValidPlacementMaterializes(q.argv, r, q.literalPrefix, q.argvTemplates, RequestTemplates(q.requiredPaths));
  }
}
