/** The type language of workflow inputs and outputs (wfe-yaml/src/types.rs):
    its printer, its parser, and the two round trips between them. */
module SchemaTypes {
  import opened Prelude

  datatype SchemaType =
    | String | Number | Integer | Bool | Any
    | Optional(inner: SchemaType)
    | List(inner: SchemaType)
    | Map(inner: SchemaType)

  datatype TypeError =
    | EmptyType
    | MalformedGeneric(text: string)
    | UnknownGeneric(name: string)
    | UnknownType(name: string)

  /** Unicode White_Space, the class that trimming strips. */
  predicate IsSpace(c: char) {
    '\t' <= c <= '\r' || c == ' ' || c == '\U{85}' || c == '\U{A0}' || c == '\U{1680}' ||
    '\U{2000}' <= c <= '\U{200A}' || c == '\U{2028}' || c == '\U{2029}' || c == '\U{202F}' ||
    c == '\U{205F}' || c == '\U{3000}'
  }

  function TrimStart(s: string): (r: string)
    ensures |r| <= |s|
  {
    if s != [] && IsSpace(s[0]) then TrimStart(s[1..]) else s
  }

  function TrimEnd(s: string): (r: string)
    ensures |r| <= |s|
  {
    if s != [] && IsSpace(s[|s| - 1]) then TrimEnd(s[..|s| - 1]) else s
  }

  function Trim(s: string): (r: string)
    ensures |r| <= |s|
  {
    TrimEnd(TrimStart(s))
  }

  /** The text without any of its whitespace. */
  function Strip(s: string): string {
    if s == [] then [] else (if IsSpace(s[0]) then [] else [s[0]]) + Strip(s[1..])
  }

  /** Position of the first '<', if any. */
  function FindOpen(s: string): (r: Option<nat>)
    ensures r.None? ==> forall j :: 0 <= j < |s| ==> s[j] != '<'
    ensures r.Some? ==> r.value < |s| && s[r.value] == '<' && forall j :: 0 <= j < r.value ==> s[j] != '<'
  {
    if s == [] then None
    else if s[0] == '<' then Some(0)
    else match FindOpen(s[1..])
      case None => None
      case Some(k) => Some(k + 1)
  }

  function Print(t: SchemaType): string {
    match t
    case String => "string"
    case Number => "number"
    case Integer => "integer"
    case Bool => "bool"
    case Any => "any"
    case Optional(u) => Print(u) + "?"
    case List(u) => "list<" + Print(u) + ">"
    case Map(u) => "map<" + Print(u) + ">"
  }

  predicate EndsWith(s: string, suffix: string) {
    |suffix| <= |s| && s[|s| - |suffix|..] == suffix
  }

  function ParsePrimitive(s: string): Result<SchemaType, TypeError> {
    if s == "string" then Ok(String)
    else if s == "number" then Ok(Number)
    else if s == "integer" then Ok(Integer)
    else if s == "bool" then Ok(Bool)
    else if s == "any" then Ok(Any)
    else Err(UnknownType(s))
  }

  function Parse(text: string): Result<SchemaType, TypeError>
    decreases |text|
  {
    var s := Trim(text);
    if s == [] then Err(EmptyType)
    else if EndsWith(s, "?") && !EndsWith(s, ">?") then
      MakeOptional(Parse(s[..|s| - 1]))
    else if EndsWith(s, ">?") then
      MakeOptional(Parse(s[..|s| - 1]))
    else match FindOpen(s)
      case None => ParsePrimitive(s)
      case Some(k) =>
        if !EndsWith(s, ">") then Err(MalformedGeneric(s))
        else
          assert s[|s| - 1] == '>' by { assert s[|s| - 1..] == ">"; }
          MakeGeneric(s[..k], Parse(s[k + 1..|s| - 1]))
  }

  function MakeOptional(r: Result<SchemaType, TypeError>): Result<SchemaType, TypeError> {
    match r
    case Ok(u) => Ok(Optional(u))
    case Err(e) => Err(e)
  }

  function MakeGeneric(container: string, r: Result<SchemaType, TypeError>): Result<SchemaType, TypeError> {
    match r
    case Err(e) => Err(e)
    case Ok(u) =>
      if container == "list" then Ok(List(u))
      else if container == "map" then Ok(Map(u))
      else Err(UnknownGeneric(container))
  }

  // ----- whitespace -----

  lemma {:induction false} StripConcat(a: string, b: string)
    ensures Strip(a + b) == Strip(a) + Strip(b)
  {
    if a == [] {
      assert a + b == b;
    } else {
      assert (a + b)[1..] == a[1..] + b;
      StripConcat(a[1..], b);
    }
  }

  lemma {:induction false} StripTrimStart(s: string)
    ensures Strip(TrimStart(s)) == Strip(s)
  {
    if s != [] && IsSpace(s[0]) { StripTrimStart(s[1..]); }
  }

  lemma {:induction false} StripTrimEnd(s: string)
    ensures Strip(TrimEnd(s)) == Strip(s)
  {
    if s != [] && IsSpace(s[|s| - 1]) {
      var init := s[..|s| - 1];
      assert s == init + [s[|s| - 1]];
      StripConcat(init, [s[|s| - 1]]);
      StripTrimEnd(init);
    }
  }

  lemma {:induction false} StripTrim(s: string)
    ensures Strip(Trim(s)) == Strip(s)
  {
    StripTrimStart(s);
    StripTrimEnd(TrimStart(s));
  }

  ghost predicate Spaceless(s: string) {
    forall i :: 0 <= i < |s| ==> !IsSpace(s[i])
  }

  lemma {:induction false} StripSpaceless(s: string)
    requires Spaceless(s)
    ensures Strip(s) == s && Trim(s) == s
  {
    if s != [] { StripSpaceless(s[1..]); }
  }

  lemma {:induction false} PrintSpaceless(t: SchemaType)
    ensures Spaceless(Print(t)) && Print(t) != []
  {
    if t.Optional? || t.List? || t.Map? { PrintSpaceless(t.inner); }
  }

  // ----- how each form of text is read -----

  lemma {:induction false} LastChar(s: string, c: char)
    requires s != []
    ensures EndsWith(s, [c]) <==> s[|s| - 1] == c
    ensures EndsWith(s, [c, '?']) ==> s[|s| - 1] == '?'
  {
    assert s[|s| - 1..] == [s[|s| - 1]];
    if EndsWith(s, [c, '?']) { assert s[|s| - 2..][1] == s[|s| - 1]; }
  }

  lemma {:induction false} FirstOpen(s: string, k: nat)
    requires k < |s| && s[k] == '<' && '<' !in s[..k]
    ensures FindOpen(s) == Some(k)
  {
    assert forall j :: 0 <= j < k ==> s[j] == s[..k][j];
  }

  lemma {:induction false} ReadOptional(text: string)
    requires Trim(text) != [] && Trim(text)[|Trim(text)| - 1] == '?'
    ensures Parse(text) == MakeOptional(Parse(Trim(text)[..|Trim(text)| - 1]))
  {
    LastChar(Trim(text), '?');
  }

  lemma {:induction false} ReadGeneric(text: string, k: nat)
    requires FindOpen(Trim(text)) == Some(k) && Trim(text)[|Trim(text)| - 1] == '>'
    ensures Parse(text) == MakeGeneric(Trim(text)[..k], Parse(Trim(text)[k + 1..|Trim(text)| - 1]))
  {
    LastChar(Trim(text), '?');
    LastChar(Trim(text), '>');
  }

  lemma {:induction false} ReadPrimitive(text: string)
    requires Trim(text) != [] && Trim(text)[|Trim(text)| - 1] != '?' && FindOpen(Trim(text)).None?
    ensures Parse(text) == ParsePrimitive(Trim(text))
  {
    LastChar(Trim(text), '?');
    LastChar(Trim(text), '>');
  }

  lemma {:induction false} ReadMalformed(text: string)
    requires Trim(text) != [] && Trim(text)[|Trim(text)| - 1] !in "?>" && FindOpen(Trim(text)).Some?
    ensures Parse(text) == Err(MalformedGeneric(Trim(text)))
  {
    LastChar(Trim(text), '?');
    LastChar(Trim(text), '>');
  }

  // ----- the two round trips -----

  lemma {:induction false} ReadPrintedGeneric(container: string, body: string)
    requires Spaceless(container) && '<' !in container
    requires Spaceless(body)
    ensures Parse(container + "<" + body + ">") == MakeGeneric(container, Parse(body))
  {
    var s, k := container + "<" + body + ">", |container|;
    StripSpaceless(s);
    assert s[..k] == container && s[k + 1..|s| - 1] == body;
    FirstOpen(s, k);
    ReadGeneric(s, k);
  }

  lemma {:induction false} ReadPrintedOptional(body: string)
    requires Spaceless(body)
    ensures Parse(body + "?") == MakeOptional(Parse(body))
  {
    StripSpaceless(body + "?");
    assert (body + "?")[..|body|] == body;
    ReadOptional(body + "?");
  }

  lemma {:induction false} PrintedList(body: string)
    requires Spaceless(body)
    ensures Parse("list<" + body + ">") == MakeGeneric("list", Parse(body))
  {
    var name := "list";
    assert "list<" == name + "<";
    ReadPrintedGeneric(name, body);
  }

  lemma {:induction false} PrintedMap(body: string)
    requires Spaceless(body)
    ensures Parse("map<" + body + ">") == MakeGeneric("map", Parse(body))
  {
    var name := "map";
    assert "map<" == name + "<";
    ReadPrintedGeneric(name, body);
  }

  lemma {:induction false} PrimitiveShape(t: SchemaType)
    requires !t.Optional? && !t.List? && !t.Map?
    ensures ParsePrimitive(Print(t)) == Ok(t) && FindOpen(Print(t)).None?
    ensures |Print(t)| > 0 && Print(t)[|Print(t)| - 1] != '?'
  {
    assert forall i :: 0 <= i < |Print(t)| ==> Print(t)[i] != '<';
  }

  lemma {:induction false} PrintedPrimitive(t: SchemaType)
    requires !t.Optional? && !t.List? && !t.Map?
    ensures Parse(Print(t)) == Ok(t)
  {
    PrintSpaceless(t);
    PrimitiveShape(t);
    var s := Print(t);
    StripSpaceless(s);
    ReadPrimitive(s);
  }

  /** Printing and then parsing gives the type back, for every type. */
  lemma {:induction false} ParsePrint(t: SchemaType)
    ensures Parse(Print(t)) == Ok(t)
  {
    match t
    case Optional(u) =>
      PrintSpaceless(u);
      ParsePrint(u);
      ReadPrintedOptional(Print(u));
    case List(u) =>
      PrintSpaceless(u);
      ParsePrint(u);
      PrintedList(Print(u));
    case Map(u) =>
      PrintSpaceless(u);
      ParsePrint(u);
      PrintedMap(Print(u));
    case _ =>
      PrintedPrimitive(t);
  }

  lemma {:induction false} StripAround(head: string, body: string, tail: string)
    requires Spaceless(head) && Spaceless(tail)
    ensures Strip(head + body + tail) == head + Strip(body) + tail
  {
    StripConcat(head + body, tail);
    StripConcat(head, body);
    StripSpaceless(head);
    StripSpaceless(tail);
  }

  lemma {:induction false} PrimitiveName(s: string)
    requires ParsePrimitive(s).Ok?
    ensures Print(ParsePrimitive(s).value) == s && Spaceless(s)
  {
    PrintSpaceless(ParsePrimitive(s).value);
  }

  lemma {:induction false} PrintGeneric(container: string, r: Result<SchemaType, TypeError>)
    requires MakeGeneric(container, r).Ok?
    ensures r.Ok? && Spaceless(container + "<")
    ensures Print(MakeGeneric(container, r).value) == container + "<" + Print(r.value) + ">"
  {
    assert container == "list" || container == "map";
    assert "list<" == "list" + "<" && "map<" == "map" + "<";
  }

  lemma {:induction false} PrintMatchesGeneric(s: string, k: nat, r: Result<SchemaType, TypeError>)
    requires k + 1 < |s| && s[k] == '<' && s[|s| - 1] == '>'
    requires MakeGeneric(s[..k], r).Ok? && Print(r.value) == Strip(s[k + 1..|s| - 1])
    ensures Print(MakeGeneric(s[..k], r).value) == Strip(s)
  {
    var body := s[k + 1..|s| - 1];
    PrintGeneric(s[..k], r);
    assert s == (s[..k] + "<") + body + ">";
    StripAround(s[..k] + "<", body, ">");
  }

  lemma {:induction false} PrintMatchesOptional(s: string, r: Result<SchemaType, TypeError>)
    requires s != [] && s[|s| - 1] == '?'
    requires r.Ok? && Print(r.value) == Strip(s[..|s| - 1])
    ensures Print(MakeOptional(r).value) == Strip(s)
  {
    var init := s[..|s| - 1];
    assert s == [] + init + "?";
    StripAround([], init, "?");
  }

  /** Whatever text parses, the printed result is that text without its whitespace. */
  lemma {:induction false} PrintParse(text: string)
    requires Parse(text).Ok?
    ensures Print(Parse(text).value) == Strip(text)
    decreases |text|
  {
    var s := Trim(text);
    StripTrim(text);
    if s[|s| - 1] == '?' {
      var init := s[..|s| - 1];
      ReadOptional(text);
      PrintParse(init);
      PrintMatchesOptional(s, Parse(init));
    } else if FindOpen(s).None? {
      ReadPrimitive(text);
      PrimitiveName(s);
      StripSpaceless(s);
    } else {
      if s[|s| - 1] != '>' { ReadMalformed(text); }
      var k := FindOpen(s).value;
      var body := s[k + 1..|s| - 1];
      ReadGeneric(text, k);
      PrintParse(body);
      PrintMatchesGeneric(s, k, Parse(body));
    }
  }

  /** Hence two texts denote the same type exactly when they agree up to whitespace. */
  lemma {:induction false} SameTypeIffSameLetters(a: string, b: string)
    requires Parse(a).Ok? && Parse(b).Ok?
    ensures Parse(a) == Parse(b) <==> Strip(a) == Strip(b)
  {
    PrintParse(a);
    PrintParse(b);
    ParsePrint(Parse(a).value);
    ParsePrint(Parse(b).value);
  }

  /** Parsing is insensitive to the whitespace it accepts: the stripped text parses to the same type. */
  lemma {:induction false} StripParses(text: string)
    requires Parse(text).Ok?
    ensures Parse(Strip(text)) == Parse(text)
  {
    PrintParse(text);
    ParsePrint(Parse(text).value);
  }
}
