/** The concrete texts of the type language (wfe-yaml/src/types.rs:25-95): its keywords, its three constructions and
    the whitespace it ignores. */
module SchemaTexts {
  import opened Prelude
  import opened SchemaTypes

  lemma {:induction false} Keywords()
    ensures Parse("string") == Ok(String) && Parse("number") == Ok(Number) && Parse("integer") == Ok(Integer)
    ensures Parse("bool") == Ok(Bool) && Parse("any") == Ok(Any)
  {
    ParsePrint(String);
    ParsePrint(Number);
    ParsePrint(Integer);
    ParsePrint(Bool);
    ParsePrint(Any);
  }

  lemma {:induction false} TrimSolid(s: string)
    requires s != [] && !IsSpace(s[0]) && !IsSpace(s[|s| - 1])
    ensures Trim(s) == s
  {
  }

  lemma {:induction false} GenericText(container: string, open: string, text: string)
    requires container != [] && Spaceless(container) && '<' !in container && open == container + ['<']
    ensures Parse(open + text + ">") == MakeGeneric(container, Parse(text))
  {
    var s, k := open + text + ">", |container|;
    assert s[0] == container[0] && s[|s| - 1] == '>';
    TrimSolid(s);
    assert s[..k] == container && s[k + 1..|s| - 1] == text;
    FirstOpen(s, k);
    ReadGeneric(s, k);
  }

  /** The constructions, around any text that denotes a type. */
  lemma {:induction false} Constructions(text: string)
    requires Parse(text).Ok?
    ensures Parse("list<" + text + ">") == Ok(List(Parse(text).value))
    ensures Parse("map<" + text + ">") == Ok(Map(Parse(text).value))
    ensures Parse(text + "?") == Ok(Optional(Parse(text).value))
  {
    ListText(text);
    MapText(text);
    OptionalText(text);
  }

  /** What is known of the word in front of a construction. */
  ghost predicate IsOpening(container: string, open: string) {
    container != [] && Spaceless(container) && '<' !in container && open == container + ['<']
  }

  lemma {:induction false} Openings()
    ensures IsOpening("list", "list<") && IsOpening("map", "map<")
  {
    assert "list<" == "list" + ['<'];
    assert "map<" == "map" + ['<'];
  }

  lemma {:induction false} MadeGeneric(container: string, open: string, text: string)
    requires IsOpening(container, open) && Parse(text).Ok?
    ensures container == "list" ==> Parse(open + text + ">") == Ok(List(Parse(text).value))
    ensures container == "map" ==> Parse(open + text + ">") == Ok(Map(Parse(text).value))
  {
    GenericText(container, open, text);
  }

  lemma {:induction false} ListText(text: string)
    requires Parse(text).Ok?
    ensures Parse("list<" + text + ">") == Ok(List(Parse(text).value))
  {
    Openings();
    MadeGeneric("list", "list<", text);
  }

  lemma {:induction false} MapText(text: string)
    requires Parse(text).Ok?
    ensures Parse("map<" + text + ">") == Ok(Map(Parse(text).value))
  {
    Openings();
    MadeGeneric("map", "map<", text);
  }

  /** Parsing looks at the trimmed text only. */
  lemma {:induction false} ParseTrimmed(a: string, b: string)
    requires Trim(a) == Trim(b)
    ensures Parse(a) == Parse(b)
  {
  }

  lemma {:induction false} TrimStartTwice(s: string)
    ensures TrimStart(TrimStart(s)) == TrimStart(s)
  {
    if s != [] && IsSpace(s[0]) { TrimStartTwice(s[1..]); }
  }

  lemma {:induction false} TrimStartThen(s: string, c: char)
    ensures TrimStart(s + [c]) == if TrimStart(s) == [] then TrimStart([c]) else TrimStart(s) + [c]
  {
    if s == [] {
      assert s + [c] == [c];
    } else {
      assert (s + [c])[1..] == s[1..] + [c];
      if IsSpace(s[0]) { TrimStartThen(s[1..], c); }
    }
  }

  lemma {:induction false} OptionalText(text: string)
    requires Parse(text).Ok?
    ensures Parse(text + "?") == Ok(Optional(Parse(text).value))
  {
    var start := TrimStart(text);
    assert Trim(text) == TrimEnd(start);
    TrimStartThen(text, '?');
    assert text + "?" == text + ['?'];
    var s := start + ['?'];
    assert s[|s| - 1] == '?' && TrimStart(text + "?") == s;
    assert Trim(text + "?") == s && s[..|s| - 1] == start;
    ReadOptional(text + "?");
    TrimStartTwice(text);
    ParseTrimmed(start, text);
  }

  /** Unicode White_Space. */
  predicate IsWhitespace(c: char) {
    c in {' ', '\t', '\n', '\r', '\U{B}', '\U{C}', '\U{85}', '\U{A0}', '\U{1680}', '\U{2000}', '\U{2001}', '\U{2002}',
          '\U{2003}', '\U{2004}', '\U{2005}', '\U{2006}', '\U{2007}', '\U{2008}', '\U{2009}', '\U{200A}', '\U{2028}',
          '\U{2029}', '\U{202F}', '\U{205F}', '\U{3000}'}
  }

  lemma {:induction false} WhitespaceExactly(c: char)
    ensures IsWhitespace(c) <==> IsSpace(c)
  {
    if 0x2000 <= c as int <= 0x200A { Spaces(c); }
    if 9 <= c as int <= 13 { Controls(c); }
  }

  lemma {:induction false} Spaces(c: char)
    requires 0x2000 <= c as int <= 0x200A
    ensures IsWhitespace(c)
  {
    var n := c as int;
    assert n == 0x2000 || n == 0x2001 || n == 0x2002 || n == 0x2003 || n == 0x2004 || n == 0x2005 || n == 0x2006
        || n == 0x2007 || n == 0x2008 || n == 0x2009 || n == 0x200A;
  }

  lemma {:induction false} Controls(c: char)
    requires 9 <= c as int <= 13
    ensures IsWhitespace(c)
  {
    var n := c as int;
    assert n == 9 || n == 10 || n == 11 || n == 12 || n == 13;
  }

  /** Whitespace around a text changes nothing. */
  lemma {:induction false} WhitespaceAround(text: string, c: char)
    requires IsWhitespace(c)
    ensures Parse([c] + text) == Parse(text) && Parse(text + [c]) == Parse(text)
  {
    WhitespaceExactly(c);
    TrimDropsFirst(text, c);
    TrimDropsLast(text, c);
    ParseTrimmed([c] + text, text);
    ParseTrimmed(text + [c], text);
  }

  lemma {:induction false} TrimDropsFirst(text: string, c: char)
    requires IsSpace(c)
    ensures Trim([c] + text) == Trim(text)
  {
    assert ([c] + text)[1..] == text;
  }

  lemma {:induction false} TrimDropsLast(text: string, c: char)
    requires IsSpace(c)
    ensures Trim(text + [c]) == Trim(text)
  {
    TrimStartThen(text, c);
    var start := TrimStart(text);
    if start == [] {
      assert TrimStart([c]) == [] by { assert [c][1..] == []; }
    } else {
      assert (start + [c])[..|start|] == start;
    }
  }

  lemma {:induction false} StripKeeps(s: string, i: nat)
    requires i < |s| && !IsSpace(s[i])
    ensures s[i] in Strip(s)
  {
    if i > 0 { StripKeeps(s[1..], i - 1); }
  }

  /** An accepted text has nothing but whitespace and the characters of its type's printed form. */
  lemma {:induction false} AcceptedCharacters(text: string, i: nat)
    requires Parse(text).Ok? && i < |text|
    ensures IsWhitespace(text[i]) || text[i] in Print(Parse(text).value)
  {
    WhitespaceExactly(text[i]);
    PrintParse(text);
    if !IsSpace(text[i]) { StripKeeps(text, i); }
  }

  // ----- exactly the accepted texts -----

  ghost predicate IsBlank(s: string) { forall i :: 0 <= i < |s| ==> IsWhitespace(s[i]) }

  /** A text of a type: its words in order, with whitespace only around the whole and around the inner type. */
  ghost predicate IsTextOf(text: string, t: SchemaType)
    decreases t, 1
  {
    exists before, core, after :: IsPadded(text, before, core, after) && IsCoreOf(core, t)
  }

  ghost predicate IsPadded(text: string, before: string, core: string, after: string) {
    text == before + core + after && IsBlank(before) && IsBlank(after)
  }

  predicate IsAround(core: string, open: string, body: string, close: string) { core == open + body + close }

  ghost predicate IsCoreOf(core: string, t: SchemaType)
    decreases t, 0
  {
    match t
    case String => core == "string"
    case Number => core == "number"
    case Integer => core == "integer"
    case Bool => core == "bool"
    case Any => core == "any"
    case Optional(u) => exists body :: IsAround(core, "", body, "?") && IsTextOf(body, u)
    case List(u) => exists body :: IsAround(core, "list<", body, ">") && IsTextOf(body, u)
    case Map(u) => exists body :: IsAround(core, "map<", body, ">") && IsTextOf(body, u)
  }

  lemma {:induction false} BlankBefore(before: string, text: string)
    requires IsBlank(before)
    ensures Parse(before + text) == Parse(text)
    decreases |before|
  {
    if before == [] {
      assert before + text == text;
    } else {
      assert before + text == [before[0]] + (before[1..] + text);
      WhitespaceAround(before[1..] + text, before[0]);
      BlankBefore(before[1..], text);
    }
  }

  lemma {:induction false} BlankAfter(text: string, after: string)
    requires IsBlank(after)
    ensures Parse(text + after) == Parse(text)
    decreases |after|
  {
    if after == [] {
      assert text + after == text;
    } else {
      var init, last := after[..|after| - 1], after[|after| - 1];
      assert text + after == (text + init) + [last];
      WhitespaceAround(text + init, last);
      BlankAfter(text, init);
    }
  }

  lemma {:induction false} TextIsAccepted(text: string, t: SchemaType)
    requires IsTextOf(text, t)
    ensures Parse(text) == Ok(t)
    decreases t, 1
  {
    var before, core, after :| IsPadded(text, before, core, after) && IsCoreOf(core, t);
    CoreIsAccepted(core, t);
    BlankAfter(before + core, after);
    BlankBefore(before, core);
  }

  lemma {:induction false} CoreIsAccepted(core: string, t: SchemaType)
    requires IsCoreOf(core, t)
    ensures Parse(core) == Ok(t)
    decreases t, 0
  {
    if t.Optional? {
      var body :| IsAround(core, "", body, "?") && IsTextOf(body, t.inner);
      assert "" + body == body;
      TextIsAccepted(body, t.inner);
      OptionalText(body);
    } else if t.List? {
      var body :| IsAround(core, "list<", body, ">") && IsTextOf(body, t.inner);
      TextIsAccepted(body, t.inner);
      ListText(body);
    } else if t.Map? {
      var body :| IsAround(core, "map<", body, ">") && IsTextOf(body, t.inner);
      TextIsAccepted(body, t.inner);
      MapText(body);
    } else {
      Keywords();
    }
  }

  lemma {:induction false} TrimStartSplits(s: string) returns (before: string)
    ensures s == before + TrimStart(s) && IsBlank(before)
  {
    if s != [] && IsSpace(s[0]) {
      WhitespaceExactly(s[0]);
      var rest := TrimStartSplits(s[1..]);
      before := [s[0]] + rest;
      assert s == [s[0]] + s[1..];
    } else {
      before := [];
    }
  }

  lemma {:induction false} TrimEndSplits(s: string) returns (after: string)
    ensures s == TrimEnd(s) + after && IsBlank(after)
  {
    if s != [] && IsSpace(s[|s| - 1]) {
      var init, last := s[..|s| - 1], s[|s| - 1];
      WhitespaceExactly(last);
      var rest := TrimEndSplits(init);
      after := rest + [last];
      assert s == init + [last];
    } else {
      after := [];
    }
  }

  /** A core with blanks around it is a text. */
  lemma {:induction false} CoreIsText(text: string, t: SchemaType)
    requires IsCoreOf(Trim(text), t)
    ensures IsTextOf(text, t)
  {
    var before := TrimStartSplits(text);
    var after := TrimEndSplits(TrimStart(text));
    Associative(before, Trim(text), after);
    assert IsPadded(text, before, Trim(text), after);
  }

  /** The inner text of an accepted text, if it has one. */
  function Inner(s: string): (r: Option<string>)
    ensures r.Some? ==> |r.value| < |s|
  {
    if s == [] then None
    else if s[|s| - 1] == '?' then Some(s[..|s| - 1])
    else match FindOpen(s)
      case Some(k) => if s[|s| - 1] == '>' then Some(s[k + 1..|s| - 1]) else None
      case None => None
  }

  lemma {:induction false} InnerIsAccepted(text: string)
    requires Parse(text).Ok?
    ensures Inner(Trim(text)).Some? ==> Parse(Inner(Trim(text)).value).Ok?
  {
    var s := Trim(text);
    if s[|s| - 1] == '?' {
      ReadOptional(text);
    } else if FindOpen(s).Some? && s[|s| - 1] == '>' {
      ReadGeneric(text, FindOpen(s).value);
    }
  }

  lemma {:induction false} SplitGeneric(s: string, k: nat)
    requires k + 1 < |s| && s[k] == '<' && s[|s| - 1] == '>'
    ensures s == s[..k] + "<" + s[k + 1..|s| - 1] + ">"
  {
  }

  lemma {:induction false} GenericIsCore(text: string, k: nat)
    requires Parse(text).Ok? && FindOpen(Trim(text)) == Some(k) && Trim(text)[|Trim(text)| - 1] == '>'
    requires var body := Trim(text)[k + 1..|Trim(text)| - 1]; Parse(body).Ok? && IsTextOf(body, Parse(body).value)
    ensures IsCoreOf(Trim(text), Parse(text).value)
  {
    var s := Trim(text);
    ReadGeneric(text, k);
    SplitGeneric(s, k);
    GenericCore(s, s[..k], s[k + 1..|s| - 1], Parse(text).value);
  }

  lemma {:induction false} OptionalIsCore(text: string)
    requires Parse(text).Ok? && Trim(text)[|Trim(text)| - 1] == '?'
    requires var body := Trim(text)[..|Trim(text)| - 1]; Parse(body).Ok? && IsTextOf(body, Parse(body).value)
    ensures IsCoreOf(Trim(text), Parse(text).value)
  {
    ReadOptional(text);
    OptionalCore(Trim(text), Trim(text)[..|Trim(text)| - 1], Parse(text).value);
  }

  lemma {:induction false} PrimitiveIsCore(text: string)
    requires Parse(text).Ok? && Inner(Trim(text)).None?
    ensures IsCoreOf(Trim(text), Parse(text).value)
  {
    if FindOpen(Trim(text)).Some? { ReadMalformed(text); } else { ReadPrimitive(text); }
    PrimitiveCore(Trim(text), Parse(text).value);
  }

  lemma {:induction false} AcceptedIsCore(text: string)
    requires Parse(text).Ok?
    requires Inner(Trim(text)).Some? ==>
               var body := Inner(Trim(text)).value; Parse(body).Ok? && IsTextOf(body, Parse(body).value)
    ensures IsCoreOf(Trim(text), Parse(text).value)
  {
    var s := Trim(text);
    if Inner(s).None? {
      PrimitiveIsCore(text);
    } else if s[|s| - 1] == '?' {
      assert Inner(s).value == s[..|s| - 1];
      OptionalIsCore(text);
    } else {
      var k := FindOpen(s).value;
      assert Inner(s).value == s[k + 1..|s| - 1];
      GenericIsCore(text, k);
    }
  }

  lemma {:induction false} AcceptedIsText(text: string)
    requires Parse(text).Ok?
    ensures IsTextOf(text, Parse(text).value)
    decreases |text|
  {
    InnerIsAccepted(text);
    if Inner(Trim(text)).Some? { AcceptedIsText(Inner(Trim(text)).value); }
    AcceptedIsCore(text);
    CoreIsText(text, Parse(text).value);
  }

  lemma {:induction false} PrimitiveCore(s: string, t: SchemaType)
    requires ParsePrimitive(s) == Ok(t)
    ensures IsCoreOf(s, t)
  {
  }

  lemma {:induction false} OptionalCore(s: string, body: string, t: SchemaType)
    requires s != [] && s[|s| - 1] == '?' && body == s[..|s| - 1]
    requires Parse(body).Ok? && IsTextOf(body, Parse(body).value) && MakeOptional(Parse(body)) == Ok(t)
    ensures IsCoreOf(s, t)
  {
    assert "" + body == body && s == body + "?";
    assert IsAround(s, "", body, "?");
  }

  lemma {:induction false} GenericCore(s: string, container: string, body: string, t: SchemaType)
    requires s == container + "<" + body + ">" && Parse(body).Ok? && IsTextOf(body, Parse(body).value)
    requires MakeGeneric(container, Parse(body)) == Ok(t)
    ensures IsCoreOf(s, t)
  {
    if t.List? {
      assert container + "<" == "list<";
      assert IsAround(s, "list<", body, ">");
    } else {
      assert container + "<" == "map<";
      assert IsAround(s, "map<", body, ">");
    }
  }

  /** A text is accepted as a type if and only if it is a text of that type. */
  lemma {:induction false} AcceptedExactly(text: string, t: SchemaType)
    ensures Parse(text) == Ok(t) <==> IsTextOf(text, t)
  {
    if Parse(text) == Ok(t) { AcceptedIsText(text); }
    if IsTextOf(text, t) { TextIsAccepted(text, t); }
  }
}
