/** Argument templates and their materialisation (protocol/arguments.py). */
module Arguments {
  import opened Base
  import opened TclWords

  datatype SessionValue = Workspace | Address | LogSpool

  datatype Plain = Literal(text: string) | Session(value: SessionValue)

  /** A template part: plain text or value, or a Tcl word of them; words do not nest. */
  datatype Part = One(plain: Plain) | TclWord(parts: seq<Plain>)

  type Template = seq<Part>

  predicate ValidPlain(p: Plain) {
    p.Literal? ==> '\0' !in p.text
  }

  predicate ValidPlains(ps: seq<Plain>) {
    ps != [] && forall i | 0 <= i < |ps| :: ValidPlain(ps[i])
  }

  predicate ValidPart(p: Part) {
    match p
    case One(plain) => ValidPlain(plain)
    case TclWord(parts) => ValidPlains(parts)
  }

  predicate ValidTemplate(t: Template) {
    t != [] && forall i | 0 <= i < |t| :: ValidPart(t[i])
  }

  const LOG_SPOOL_TEMPLATE: Template := [TclWord([Session(LogSpool)])]

  predicate PartRefers(p: Part) {
    match p
    case One(plain) => plain == Session(LogSpool)
    case TclWord(parts) => Session(LogSpool) in parts
  }

  /** Whether a template mentions the log channel. */
  predicate Refers(t: Template) {
    exists i | 0 <= i < |t| :: PartRefers(t[i])
  }

  /** The templates that mention the log channel. */
  function References(ts: seq<Template>): seq<Template> {
    if |ts| == 0 then [] else (if Refers(ts[0]) then [ts[0]] else []) + References(ts[1..])
  }

  /** log_spool_requested; None is an invalid placement. */
  function LogSpoolRequested(argv: seq<Template>, paths: seq<Template>): Option<bool> {
    var references := References(argv);
    if exists i | 0 <= i < |paths| :: Refers(paths[i]) then None
    else if exists i | 0 <= i < |references| :: references[i] != LOG_SPOOL_TEMPLATE then None
    else if |references| > 1 then None
    else Some(|references| > 0)
  }

  /** Where the log channel may be mentioned. */
  predicate ProperPlacement(argv: seq<Template>, paths: seq<Template>) {
    && (forall i | 0 <= i < |paths| :: !Refers(paths[i]))
    && (forall i | 0 <= i < |argv| :: Refers(argv[i]) ==> argv[i] == LOG_SPOOL_TEMPLATE)
    && (forall i, j | 0 <= i < j < |argv| :: !(Refers(argv[i]) && Refers(argv[j])))
  }

  lemma {:induction false} ReferencesMembers(ts: seq<Template>)
    ensures forall i | 0 <= i < |References(ts)| :: References(ts)[i] in ts && Refers(References(ts)[i])
    ensures forall i | 0 <= i < |ts| && Refers(ts[i]) :: ts[i] in References(ts)
    ensures References(ts) == [] <==> forall i | 0 <= i < |ts| :: !Refers(ts[i])
    ensures |References(ts)| <= 1 <==> forall i, j | 0 <= i < j < |ts| :: !(Refers(ts[i]) && Refers(ts[j]))
    decreases |ts|
  {
    if |ts| > 0 {
      ReferencesMembers(ts[1..]);
      var rest := References(ts[1..]);
      assert forall i | 1 <= i < |ts| :: ts[1..][i - 1] == ts[i];
      if Refers(ts[0]) && rest != [] {
        assert rest[0] in ts[1..];
        var j :| 0 <= j < |ts[1..]| && ts[1..][j] == rest[0];
        assert Refers(ts[0]) && Refers(ts[j + 1]);
      }
    }
  }

  /**
   * The channel is requested by exactly one argument that is one complete Tcl
   * word naming it; every other mention, anywhere, is refused.
   */
  lemma PlacementExactly(argv: seq<Template>, paths: seq<Template>)
    ensures LogSpoolRequested(argv, paths).Some? <==> ProperPlacement(argv, paths)
    ensures LogSpoolRequested(argv, paths) == Some(true) <==>
            ProperPlacement(argv, paths) && LOG_SPOOL_TEMPLATE in argv
  {
    ReferencesMembers(argv);
    var references := References(argv);
    assert PartRefers(LOG_SPOOL_TEMPLATE[0]);
    if exists i | 0 <= i < |references| :: references[i] != LOG_SPOOL_TEMPLATE {
      var i :| 0 <= i < |references| && references[i] != LOG_SPOOL_TEMPLATE;
      assert references[i] in argv;
    }
  }

  datatype Replacements = Replacements(workspace: string, address: string, logSpool: Option<string>)

  function Value(r: Replacements, v: SessionValue): Option<string> {
    match v
    case Workspace => Some(r.workspace)
    case Address => Some(r.address)
    case LogSpool => r.logSpool
  }

  function RenderPlain(r: Replacements, p: Plain): Option<string> {
    match p
    case Literal(text) => Some(text)
    case Session(v) => Value(r, v)
  }

  /** Concatenation, or the missing replacement of any piece. */
  function Joined(a: Option<string>, b: Option<string>): Option<string> {
    if a.Some? && b.Some? then Some(a.value + b.value) else None
  }

  function RenderPlains(r: Replacements, ps: seq<Plain>): Option<string> {
    if |ps| == 0 then Some([]) else Joined(RenderPlain(r, ps[0]), RenderPlains(r, ps[1..]))
  }

  function RenderPart(r: Replacements, p: Part): Option<string> {
    match p
    case One(plain) => RenderPlain(r, plain)
    case TclWord(parts) =>
      var text := RenderPlains(r, parts);
      if text.None? then None else Some(Quoted(text.value, true))
  }

  function Render(r: Replacements, t: Template): Option<string> {
    if |t| == 0 then Some([]) else Joined(RenderPart(r, t[0]), Render(r, t[1..]))
  }

  lemma {:induction false} RenderSnoc(r: Replacements, t: Template, p: Part)
    ensures Render(r, t + [p]) == Joined(Render(r, t), RenderPart(r, p))
    decreases |t|
  {
    if |t| == 0 {
      assert t + [p] == [p];
      assert Render(r, [p][1..]) == Some([]);
      if RenderPart(r, p).Some? {
        assert RenderPart(r, p).value + [] == [] + RenderPart(r, p).value;
      }
    } else {
      RenderSnoc(r, t[1..], p);
      assert (t + [p])[1..] == t[1..] + [p];
      if RenderPart(r, t[0]).Some? && Render(r, t[1..]).Some? && RenderPart(r, p).Some? {
        Assoc(RenderPart(r, t[0]).value, Render(r, t[1..]).value, RenderPart(r, p).value);
      }
    }
  }

  /** _render_parts on a whole template; None is a missing replacement. */
  method RenderParts(r: Replacements, t: Template) returns (text: Option<string>)
    ensures text == Render(r, t)
  {
    var result: string := [];
    for i := 0 to |t|
      invariant Render(r, t[..i]) == Some(result)
    {
      assert t[..i + 1] == t[..i] + [t[i]];
      RenderSnoc(r, t[..i], t[i]);
      var part := RenderPart(r, t[i]);
      if part.None? {
        RenderStuck(r, t, i + 1);
        return None;
      }
      result := result + part.value;
    }
    assert t[..|t|] == t;
    return Some(result);
  }

  /** A missing replacement is never made up for. */
  lemma {:induction false} RenderStuck(r: Replacements, t: Template, n: nat)
    requires n <= |t| && Render(r, t[..n]).None?
    ensures Render(r, t).None?
    decreases |t| - n
  {
    if n < |t| {
      assert t[..n + 1] == t[..n] + [t[n]];
      RenderSnoc(r, t[..n], t[n]);
      RenderStuck(r, t, n + 1);
    } else {
      assert t[..n] == t;
    }
  }

  lemma {:induction false} PlainsRender(r: Replacements, ps: seq<Plain>)
    requires r.logSpool.Some? || Session(LogSpool) !in ps
    ensures RenderPlains(r, ps).Some?
  {
    if |ps| > 0 {
      assert ps[0] in ps;
      assert forall x | x in ps[1..] :: x in ps;
      PlainsRender(r, ps[1..]);
    }
  }

  /** A template renders whenever the channel it may mention is there. */
  lemma {:induction false} TemplateRenders(r: Replacements, t: Template)
    requires r.logSpool.Some? || !Refers(t)
    ensures Render(r, t).Some?
    decreases |t|
  {
    if |t| > 0 {
      assert !Refers(t) ==> !PartRefers(t[0]);
      if t[0].TclWord? {
        PlainsRender(r, t[0].parts);
      }
      assert forall i | 0 <= i < |t[1..]| :: t[1..][i] == t[i + 1];
      TemplateRenders(r, t[1..]);
    }
  }

  /** An indexed template list, as a dictionary. */
  function TemplateAt(templates: seq<(int, Template)>, index: int): Option<Template>
    decreases |templates|
  {
    if |templates| == 0 then None
    else
      var later := TemplateAt(templates[1..], index);
      if later.Some? then later else if templates[0].0 == index then Some(templates[0].1) else None
  }

  /** What one argument becomes. */
  function Argument(r: Replacements, prefix: int, templates: seq<(int, Template)>, arg: string, index: int)
    : Option<string>
  {
    if index >= prefix && TemplateAt(templates, index).Some?
    then Render(r, TemplateAt(templates, index).value) else Some(arg)
  }

  /**
   * Materialise an argv. Every argument is kept literally unless it is
   * templated at or after the literal prefix, and then it is the rendering of
   * its template; the result is missing only when such a rendering is.
   */
  method MaterializeArgv(argv: seq<string>, r: Replacements, prefix: int, templates: seq<(int, Template)>)
    returns (result: Option<seq<string>>)
    ensures result.None? <==>
            exists i | 0 <= i < |argv| :: Argument(r, prefix, templates, argv[i], i).None?
    ensures result.Some? ==>
              && |result.value| == |argv|
              && forall i | 0 <= i < |argv| ::
                   Some(result.value[i]) == Argument(r, prefix, templates, argv[i], i)
  {
    var out: seq<string> := [];
    for i := 0 to |argv|
      invariant |out| == i
      invariant forall k | 0 <= k < i :: Some(out[k]) == Argument(r, prefix, templates, argv[k], k)
    {
      var text := Some(argv[i]);
      if i >= prefix {
        var template := TemplateAt(templates, i);
        if template.Some? {
          text := RenderParts(r, template.value);
        }
      }
      if text.None? {
        return None;
      }
      out := out + [text.value];
    }
    return Some(out);
  }

  /** The indexes of an indexed template list, in order. */
  function Templates(templates: seq<(int, Template)>): seq<Template> {
    seq(|templates|, i requires 0 <= i < |templates| => templates[i].1)
  }

  lemma {:induction false} TemplateAtMember(templates: seq<(int, Template)>, index: int)
    requires TemplateAt(templates, index).Some?
    ensures TemplateAt(templates, index).value in Templates(templates)
    decreases |templates|
  {
    var later := TemplateAt(templates[1..], index);
    if later.Some? {
      TemplateAtMember(templates[1..], index);
      var k :| 0 <= k < |Templates(templates[1..])| && Templates(templates[1..])[k] == later.value;
      assert Templates(templates)[k + 1] == later.value;
    } else {
      assert Templates(templates)[0] == templates[0].1;
    }
  }

  /**
   * A request whose placement is valid always materialises, when the log
   * channel is supplied exactly if it is requested.
   */
  lemma ValidPlacementMaterializes(argv: seq<string>, r: Replacements, prefix: int,
                                   templates: seq<(int, Template)>, paths: seq<Template>)
    requires LogSpoolRequested(Templates(templates), paths) == Some(r.logSpool.Some?)
    ensures forall i | 0 <= i < |argv| :: Argument(r, prefix, templates, argv[i], i).Some?
  {
    PlacementExactly(Templates(templates), paths);
    forall i | 0 <= i < |argv|
      ensures Argument(r, prefix, templates, argv[i], i).Some?
    {
      var t := TemplateAt(templates, i);
      if t.Some? {
        TemplateAtMember(templates, i);
        if Refers(t.value) {
          assert t.value == LOG_SPOOL_TEMPLATE;
        }
        TemplateRenders(r, t.value);
      }
    }
  }

  /** A rendered Tcl word stays one word, separable from the parts after it. */
  lemma RenderedWordIsSeparable(r: Replacements, ps: seq<Plain>, t: Template)
    requires RenderPlains(r, ps).Some? && Render(r, t).Some?
    ensures Render(r, [TclWord(ps)] + t).Some?
    ensures ParseWord(Render(r, [TclWord(ps)] + t).value) ==
            Word(RenderPlains(r, ps).value, Render(r, t).value)
  {
    assert ([TclWord(ps)] + t)[1..] == t;
    QuotedParses(RenderPlains(r, ps).value, true, Render(r, t).value);
  }
}
