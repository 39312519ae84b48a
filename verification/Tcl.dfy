/** Tcl-word quoting (protocol/tcl.py). */
module TclWords {
  import opened Base

  /** One pass over the value, escaping the characters of a set. */
  function Escape(s: string, special: set<char>): string {
    if s == [] then [] else (if s[0] in special then ['\\', s[0]] else [s[0]]) + Escape(s[1..], special)
  }

  /** str.replace with a one-character pattern. */
  function Replace(s: string, c: char, replacement: string): string {
    if s == [] then [] else (if s[0] == c then replacement else [s[0]]) + Replace(s[1..], c, replacement)
  }

  lemma {:induction false} ReplaceAppend(a: string, b: string, c: char, replacement: string)
    ensures Replace(a + b, c, replacement) == Replace(a, c, replacement) + Replace(b, c, replacement)
  {
    if a == [] {
      assert a + b == b;
    } else {
      ReplaceAppend(a[1..], b, c, replacement);
      assert (a + b)[1..] == a[1..] + b;
      Assoc(if a[0] == c then replacement else [a[0]], Replace(a[1..], c, replacement), Replace(b, c, replacement));
    }
  }

  /** Replacing one more character extends the escaped set, once backslashes are escaped. */
  lemma {:induction false} ReplaceExtends(s: string, special: set<char>, c: char)
    requires '\\' in special && c !in special
    ensures Replace(Escape(s, special), c, ['\\', c]) == Escape(s, special + {c})
  {
    if s != [] {
      ReplaceExtends(s[1..], special, c);
      var head := if s[0] in special then ['\\', s[0]] else [s[0]];
      ReplaceAppend(head, Escape(s[1..], special), c, ['\\', c]);
      ReplaceHead(s[0], special, c);
    }
  }

  lemma ReplaceHead(x: char, special: set<char>, c: char)
    requires '\\' in special && c !in special
    ensures Replace(if x in special then ['\\', x] else [x], c, ['\\', c]) ==
            if x in special + {c} then ['\\', x] else [x]
  {
    ReplaceOne(x, c);
    if x in special {
      ReplaceAppend(['\\'], [x], c, ['\\', c]);
      ReplaceOne('\\', c);
      assert ['\\', x] == ['\\'] + [x];
    }
  }

  lemma ReplaceOne(x: char, c: char)
    ensures Replace([x], c, ['\\', c]) == if x == c then ['\\', c] else [x]
  {
    assert Replace([x][1..], c, ['\\', c]) == [];
    assert (if x == c then ['\\', c] else [x]) + [] == if x == c then ['\\', c] else [x];
  }

  /** The first replacement of the chain escapes backslashes alone. */
  lemma {:induction false} BackslashesFirst(s: string)
    ensures Replace(s, '\\', ['\\', '\\']) == Escape(s, {'\\'})
  {
    if s != [] {
      BackslashesFirst(s[1..]);
    }
  }

  /** The characters a double-quoted word escapes; braces only when placeholders are shielded. */
  function Specials(shield: bool): set<char> {
    {'\\', '"', '$', '[', ']'} + if shield then {'{', '}'} else {}
  }

  /** The quoted word. */
  function Quoted(s: string, shield: bool): string {
    ['"'] + (Escape(s, Specials(shield)) + ['"'])
  }

  /** The characters escaped after the backslash and the quote, in the order of the replacements. */
  function Characters(shield: bool): seq<char> {
    ['$', '[', ']'] + if shield then ['{', '}'] else []
  }

  lemma CharactersDistinct(shield: bool)
    ensures forall i | 0 <= i < |Characters(shield)| ::
              Characters(shield)[i] !in {'\\', '"'} + Elements(Characters(shield)[..i])
  {
  }

  lemma SpecialsListed(shield: bool)
    ensures {'\\', '"'} + Elements(Characters(shield)) == Specials(shield)
  {
    assert Characters(false) == ['$', '[', ']'];
    assert Characters(true) == ['$', '[', ']', '{', '}'];
  }

  lemma ElementsSnoc(s: seq<char>, i: nat)
    requires i < |s|
    ensures Elements(s[..i + 1]) == Elements(s[..i]) + {s[i]}
  {
    assert s[..i + 1] == s[..i] + [s[i]];
  }

  /** The chain of whole-string replacements computes the one-pass escape. */
  method TclQuote(value: string, shield: bool) returns (word: string)
    ensures word == Quoted(value, shield)
  {
    var escaped := Replace(value, '\\', ['\\', '\\']);
    BackslashesFirst(value);
    escaped := Replace(escaped, '"', ['\\', '"']);
    ReplaceExtends(value, {'\\'}, '"');
    ghost var special := {'\\'} + {'"'};
    var characters := Characters(shield);
    CharactersDistinct(shield);
    for i := 0 to |characters|
      invariant special == {'\\', '"'} + Elements(characters[..i])
      invariant escaped == Escape(value, special)
    {
      assert characters[i] !in special;
      ReplaceExtends(value, special, characters[i]);
      escaped := Replace(escaped, characters[i], ['\\', characters[i]]);
      special := special + {characters[i]};
      ElementsSnoc(characters, i);
    }
    SpecialsListed(shield);
    assert characters[..|characters|] == characters;
    word := ['"'] + (escaped + ['"']);
  }

  /** What Tcl makes of the rest of a double-quoted word. */
  datatype Word = Word(value: string, rest: string) | Unterminated | Substitutes

  /**
   * The body of a double-quoted word: it ends at an unescaped quote; a
   * backslash before one of the escaped characters stands for that character;
   * an unescaped dollar or bracket, or any other backslash sequence, would
   * make Tcl substitute.
   */
  function ParseBody(s: string): Word {
    if s == [] then Unterminated
    else if s[0] == '"' then Word([], s[1..])
    else if s[0] == '$' || s[0] == '[' then Substitutes
    else if s[0] == '\\' then
      if |s| == 1 then Unterminated
      else if s[1] !in Specials(true) then Substitutes
      else Prefixed(s[1], ParseBody(s[2..]))
    else Prefixed(s[0], ParseBody(s[1..]))
  }

  function Prefixed(c: char, w: Word): Word {
    if w.Word? then Word([c] + w.value, w.rest) else w
  }

  function ParseWord(s: string): Word {
    if s == [] || s[0] != '"' then Unterminated else ParseBody(s[1..])
  }

  /** One escaped character reads back as itself. */
  lemma HeadParses(c: char, shield: bool, tail: string)
    ensures ParseBody((if c in Specials(shield) then ['\\', c] else [c]) + tail) == Prefixed(c, ParseBody(tail))
  {
    if c in Specials(shield) {
      assert c in Specials(true);
      assert (['\\', c] + tail)[2..] == tail;
    } else {
      assert c !in Specials(false);
      assert ([c] + tail)[1..] == tail;
    }
  }

  lemma {:induction false} BodyParses(s: string, shield: bool, rest: string)
    ensures ParseBody(Escape(s, Specials(shield)) + (['"'] + rest)) == Word(s, rest)
  {
    if s == [] {
      assert Escape(s, Specials(shield)) + (['"'] + rest) == ['"'] + rest;
      assert (['"'] + rest)[1..] == rest;
    } else {
      BodyParses(s[1..], shield, rest);
      var head := if s[0] in Specials(shield) then ['\\', s[0]] else [s[0]];
      Assoc(head, Escape(s[1..], Specials(shield)), ['"'] + rest);
      HeadParses(s[0], shield, Escape(s[1..], Specials(shield)) + (['"'] + rest));
      assert [s[0]] + s[1..] == s;
    }
  }

  /**
   * Tcl reads a quoted word, whatever follows it, as exactly the original
   * value: all of the word and no more is consumed, and nothing substituted.
   */
  lemma QuotedParses(s: string, shield: bool, rest: string)
    ensures ParseWord(Quoted(s, shield) + rest) == Word(s, rest)
  {
    BodyParses(s, shield, rest);
    var body := Escape(s, Specials(shield));
    assert Quoted(s, shield) + rest == ['"'] + (body + (['"'] + rest));
    assert (['"'] + (body + (['"'] + rest)))[1..] == body + (['"'] + rest);
  }

  /** Quoting is injective, and quoted words stay separable from what follows them. */
  lemma QuotedIsPrefixFree(s: string, t: string, a: bool, b: bool, x: string, y: string)
    requires Quoted(s, a) + x == Quoted(t, b) + y
    ensures s == t && x == y
  {
    QuotedParses(s, a, x);
    QuotedParses(t, b, y);
  }
}
