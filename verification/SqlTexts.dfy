/** What the identifier rewriter of wfe-postgres/src/lib.rs does to SQL text, said of the text alone: a comment or a
    literal at the front comes out as it is, an identifier comes out prefixed if it is listed, any other character as
    it is, and the rewriting goes on behind it. Every text starts with one of these. */
module SqlTexts {
  import opened Prelude
  import opened SqlRewrite

  /** The first token of a text, when its kind and its length are known. */
  lemma {:induction false} FirstToken(a: string, c: string, prefix: string, names: seq<string>)
    requires a != [] && HeadLen(a + c) == |a|
    ensures Substituted(a + c, prefix, names)
         == RewriteToken(Token(HeadKind(a + c), a), prefix, names).text + Substituted(c, prefix, names)
  {
    var s := a + c;
    SubstitutedStep(s, prefix, names);
    assert s[..|a|] == a && s[|a|..] == c;
  }

  lemma {:induction false} LineExact(a: string, c: string)
    requires '\n' !in a && (c == [] || c[0] == '\n')
    ensures LineRest(a + c) == |a|
  {
    if a == [] {
      assert a + c == c;
    } else {
      assert (a + c)[1..] == a[1..] + c;
      LineExact(a[1..], c);
    }
  }

  lemma {:induction false} LineToken(a: string, rest: string, prefix: string, names: seq<string>)
    requires |a| >= 2 && a[0] == '-' && a[1] == '-' && '\n' !in a && (rest == [] || rest[0] == '\n')
    ensures Substituted(a + rest, prefix, names) == a + Substituted(rest, prefix, names)
  {
    LineExact(a, rest);
    FirstToken(a, rest, prefix, names);
  }

  /** A line comment runs to its newline, or to the end. */
  lemma {:induction false} LineCommentKept(a: string, c: string, prefix: string, names: seq<string>)
    requires |a| >= 2 && a[0] == '-' && a[1] == '-' && '\n' !in a
    ensures Substituted(a + "\n" + c, prefix, names) == a + "\n" + Substituted(c, prefix, names)
    ensures Substituted(a, prefix, names) == a
  {
    var r := Substituted(c, prefix, names);
    OtherKept('\n', c, prefix, names);
    LineToken(a, ['\n'] + c, prefix, names);
    assert a + "\n" + c == a + (['\n'] + c) && a + "\n" + r == a + (['\n'] + r);
    LineToken(a, [], prefix, names);
    assert a + [] == a;
  }

  lemma {:induction false} BlockExact(body: string, c: string)
    requires forall i :: 0 <= i < |body| - 1 ==> !(body[i] == '*' && body[i + 1] == '/')
    requires c == [] || (|c| >= 2 && c[0] == '*' && c[1] == '/')
    ensures BlockRest(body + c) == |body| + if c == [] then 0 else 2
  {
    if body == [] {
      assert body + c == c;
    } else {
      var rest := body[1..];
      assert (body + c)[1..] == rest + c;
      forall i | 0 <= i < |rest| - 1 ensures !(rest[i] == '*' && rest[i + 1] == '/') {
        assert rest[i] == body[i + 1] && rest[i + 1] == body[i + 2];
      }
      BlockExact(rest, c);
    }
  }

  /** A block comment runs to its first closing marker, or to the end. */
  lemma {:induction false} BlockCommentKept(body: string, c: string, prefix: string, names: seq<string>)
    requires forall i :: 0 <= i < |body| - 1 ==> !(body[i] == '*' && body[i + 1] == '/')
    ensures Substituted("/*" + body + "*/" + c, prefix, names) == "/*" + body + "*/" + Substituted(c, prefix, names)
    ensures Substituted("/*" + body, prefix, names) == "/*" + body
  {
    var a := "/*" + body + "*/";
    assert (a + c)[2..] == body + ("*/" + c);
    BlockExact(body, "*/" + c);
    FirstToken(a, c, prefix, names);
    var open := "/*" + body;
    assert open + [] == open && open[2..] == body + [];
    BlockExact(body, []);
    FirstToken(open, [], prefix, names);
  }

  /** A text with every quote doubled, as it stands in a literal. */
  function Escape(text: string): string {
    if text == [] then [] else (if text[0] == '\'' then "''" else [text[0]]) + Escape(text[1..])
  }

  lemma {:induction false} QuotePair(rest: string)
    ensures LiteralRest("''" + rest) == 2 + LiteralRest(rest)
  {
    assert ("''" + rest)[2..] == rest;
  }

  lemma {:induction false} PlainCharacter(x: char, rest: string)
    requires x != '\''
    ensures LiteralRest([x] + rest) == 1 + LiteralRest(rest)
  {
    assert ([x] + rest)[1..] == rest;
  }

  lemma {:induction false} LiteralExact(text: string, c: string)
    requires c == [] || (c[0] == '\'' && (|c| > 1 ==> c[1] != '\''))
    ensures LiteralRest(Escape(text) + c) == |Escape(text)| + if c == [] then 0 else 1
  {
    if text == [] {
      assert Escape(text) + c == c;
    } else {
      var rest := Escape(text[1..]);
      LiteralExact(text[1..], c);
      if text[0] == '\'' {
        assert Escape(text) == "''" + rest;
        assert ("''" + rest) + c == "''" + (rest + c);
        QuotePair(rest + c);
      } else {
        assert Escape(text) == [text[0]] + rest;
        assert ([text[0]] + rest) + c == [text[0]] + (rest + c);
        PlainCharacter(text[0], rest + c);
      }
    }
  }

  /** A literal runs to its first quote that is not doubled, or to the end. */
  lemma {:induction false} LiteralKept(text: string, c: string, prefix: string, names: seq<string>)
    requires c == [] || c[0] != '\''
    ensures Substituted("'" + Escape(text) + "'" + c, prefix, names)
         == "'" + Escape(text) + "'" + Substituted(c, prefix, names)
    ensures Substituted("'" + Escape(text), prefix, names) == "'" + Escape(text)
  {
    var a := "'" + Escape(text) + "'";
    assert (a + c)[1..] == Escape(text) + ("'" + c);
    LiteralExact(text, "'" + c);
    FirstToken(a, c, prefix, names);
    var open := "'" + Escape(text);
    assert open + [] == open && open[1..] == Escape(text) + [];
    LiteralExact(text, []);
    FirstToken(open, [], prefix, names);
  }

  /** An identifier is a letter or underscore and all letters, digits and underscores behind it; it comes out prefixed
      if and only if it is listed. */
  lemma {:induction false} IdentifierRewritten(w: string, c: string, prefix: string, names: seq<string>)
    requires w != [] && ('a' <= w[0] <= 'z' || 'A' <= w[0] <= 'Z' || w[0] == '_')
    requires forall i :: 0 <= i < |w| ==>
               'a' <= w[i] <= 'z' || 'A' <= w[i] <= 'Z' || '0' <= w[i] <= '9' || w[i] == '_'
    requires c != [] ==> !('a' <= c[0] <= 'z' || 'A' <= c[0] <= 'Z' || '0' <= c[0] <= '9' || c[0] == '_')
    ensures Substituted(w + c, prefix, names)
         == (if w in names then prefix + w else w) + Substituted(c, prefix, names)
  {
    assert AllIdentParts(w);
    IdentExact(w, c);
    FirstToken(w, c, prefix, names);
  }

  /** Any other character, if it does not open a literal or a comment. */
  lemma {:induction false} OtherKept(x: char, c: string, prefix: string, names: seq<string>)
    requires !('a' <= x <= 'z' || 'A' <= x <= 'Z' || x == '_') && x != '\''
    requires c != [] ==> !(x == '-' && c[0] == '-') && !(x == '/' && c[0] == '*')
    ensures Substituted([x] + c, prefix, names) == [x] + Substituted(c, prefix, names)
  {
    FirstToken([x], c, prefix, names);
  }

  // ----- every text starts with one of these -----

  /** `s` is an escaped text, then a quote that nothing doubles and the rest; or it is an escaped text to its end. */
  lemma {:induction false} LiteralForm(s: string) returns (text: string, closed: bool, c: string)
    ensures s == Escape(text) + (if closed then "'" + c else [])
    ensures c == [] || c[0] != '\''
  {
    if s == [] {
      text, closed, c := [], false, [];
    } else if s[0] != '\'' {
      text, closed, c := LiteralForm(s[1..]);
      text := [s[0]] + text;
      assert Escape(text) == [s[0]] + Escape(text[1..]);
      assert s == [s[0]] + s[1..];
    } else if |s| > 1 && s[1] == '\'' {
      text, closed, c := LiteralForm(s[2..]);
      text := ['\''] + text;
      assert Escape(text) == "''" + Escape(text[1..]);
      assert s == "''" + s[2..];
    } else {
      text, closed, c := [], true, s[1..];
      assert s == "'" + c;
    }
  }

  /** `s` has a first closing marker, or none. */
  lemma {:induction false} BlockForm(s: string) returns (body: string, closed: bool, c: string)
    ensures s == body + (if closed then "*/" + c else [])
    ensures forall i :: 0 <= i < |body| - 1 ==> !(body[i] == '*' && body[i + 1] == '/')
  {
    if s == [] {
      body, closed, c := [], false, [];
    } else if |s| > 1 && s[0] == '*' && s[1] == '/' {
      body, closed, c := [], true, s[2..];
      assert s == "*/" + c;
    } else {
      var rest;
      rest, closed, c := BlockForm(s[1..]);
      body := [s[0]] + rest;
      assert s == [s[0]] + s[1..];
      forall i | 0 <= i < |body| - 1 ensures !(body[i] == '*' && body[i + 1] == '/') {
        if i > 0 { assert body[i] == rest[i - 1] && body[i + 1] == rest[i]; }
        else { assert body[1] == s[1]; }
      }
    }
  }

  /** The longest initial part of letters, digits and underscores. */
  lemma {:induction false} WordForm(s: string) returns (w: string, c: string)
    ensures s == w + c
    ensures forall i :: 0 <= i < |w| ==>
              'a' <= w[i] <= 'z' || 'A' <= w[i] <= 'Z' || '0' <= w[i] <= '9' || w[i] == '_'
    ensures c != [] ==> !('a' <= c[0] <= 'z' || 'A' <= c[0] <= 'Z' || '0' <= c[0] <= '9' || c[0] == '_')
  {
    if s == [] || !('a' <= s[0] <= 'z' || 'A' <= s[0] <= 'Z' || '0' <= s[0] <= '9' || s[0] == '_') {
      w, c := [], s;
    } else {
      w, c := WordForm(s[1..]);
      assert s == ([s[0]] + w) + c;
      w := [s[0]] + w;
    }
  }

  lemma {:induction false} LineForm(s: string) returns (a: string, c: string)
    ensures s == a + c && '\n' !in a && (c == [] || c[0] == '\n')
  {
    if s == [] || s[0] == '\n' {
      a, c := [], s;
    } else {
      a, c := LineForm(s[1..]);
      assert s == ([s[0]] + a) + c;
      a := [s[0]] + a;
    }
  }

  /** `a` is a whole literal in front of `c`. */
  ghost predicate IsLiteral(a: string, c: string) {
    exists text :: || (a == "'" + Escape(text) + "'" && (c == [] || c[0] != '\''))
                   || (a == "'" + Escape(text) && c == [])
  }

  /** `a` is a whole block comment in front of `c`. */
  ghost predicate IsBlockComment(a: string, c: string) {
    exists body: string ::
      && (forall i :: 0 <= i < |body| - 1 ==> !(body[i] == '*' && body[i + 1] == '/'))
      && (a == "/*" + body + "*/" || (a == "/*" + body && c == []))
  }

  predicate IsWordCharacter(x: char) { 'a' <= x <= 'z' || 'A' <= x <= 'Z' || '0' <= x <= '9' || x == '_' }

  /** `a` is the front piece of the text `a + c`. */
  ghost predicate IsFront(a: string, c: string)
    requires a != []
  {
    var s := a + c;
    if s[0] == '\'' then IsLiteral(a, c)
    else if |s| > 1 && s[0] == '-' && s[1] == '-' then '\n' !in a && (c == [] || c[0] == '\n')
    else if |s| > 1 && s[0] == '/' && s[1] == '*' then IsBlockComment(a, c)
    else if IsWordCharacter(s[0]) && !('0' <= s[0] <= '9') then
      (forall i :: 0 <= i < |a| ==> IsWordCharacter(a[i])) && (c == [] || !IsWordCharacter(c[0]))
    else |a| == 1
  }

  /** The front piece of every text, and what becomes of it: an identifier is prefixed if it is listed, every other
      piece stays. With `a` removed, the same holds of the rest, so this determines the whole output. */
  lemma {:induction false} EveryTextCovered(s: string, prefix: string, names: seq<string>)
    returns (a: string, c: string)
    requires s != []
    ensures s == a + c && a != [] && IsFront(a, c)
    ensures Substituted(s, prefix, names) == Piece(s, a, prefix, names) + Substituted(c, prefix, names)
  {
    if s[0] == '\'' {
      a, c := LiteralFront(s, prefix, names);
    } else if |s| > 1 && s[0] == '-' && s[1] == '-' {
      a, c := LineForm(s);
      assert |a| >= 2 by { assert s[0] != '\n' && s[1] != '\n'; }
      LineToken(a, c, prefix, names);
    } else if |s| > 1 && s[0] == '/' && s[1] == '*' {
      a, c := BlockFront(s, prefix, names);
    } else if 'a' <= s[0] <= 'z' || 'A' <= s[0] <= 'Z' || s[0] == '_' {
      a, c := WordForm(s);
      IdentifierRewritten(a, c, prefix, names);
    } else {
      a, c := [s[0]], s[1..];
      OtherKept(s[0], c, prefix, names);
    }
  }

  /** The output of a front piece, told by how the text begins. */
  function Piece(s: string, a: string, prefix: string, names: seq<string>): string
    requires s != []
  {
    if ('a' <= s[0] <= 'z' || 'A' <= s[0] <= 'Z' || s[0] == '_') && a in names then prefix + a else a
  }

  lemma {:induction false} LiteralFront(s: string, prefix: string, names: seq<string>) returns (a: string, c: string)
    requires s != [] && s[0] == '\''
    ensures s == a + c && a != [] && IsLiteral(a, c)
    ensures Substituted(s, prefix, names) == a + Substituted(c, prefix, names)
  {
    var text, closed, rest := LiteralForm(s[1..]);
    assert s == "'" + s[1..];
    if closed {
      a, c := LiteralClosed(s, text, rest, prefix, names);
    } else {
      a, c := LiteralOpen(s, text, prefix, names);
    }
  }

  lemma {:induction false} LiteralClosed(s: string, text: string, rest: string, prefix: string, names: seq<string>)
    returns (a: string, c: string)
    requires s == "'" + (Escape(text) + ("'" + rest)) && (rest == [] || rest[0] != '\'')
    ensures s == a + c && a != [] && IsLiteral(a, c)
    ensures Substituted(s, prefix, names) == a + Substituted(c, prefix, names)
  {
    a, c := "'" + Escape(text) + "'", rest;
    Associative("'", Escape(text), "'" + rest);
    Associative("'" + Escape(text), "'", rest);
    LiteralKept(text, rest, prefix, names);
  }

  lemma {:induction false} LiteralOpen(s: string, text: string, prefix: string, names: seq<string>)
    returns (a: string, c: string)
    requires s == "'" + (Escape(text) + [])
    ensures s == a + c && a != [] && IsLiteral(a, c)
    ensures Substituted(s, prefix, names) == a + Substituted(c, prefix, names)
  {
    a, c := s, [];
    assert Escape(text) + [] == Escape(text) && s + [] == s;
    LiteralKept(text, [], prefix, names);
    assert Substituted([], prefix, names) == [];
  }

  lemma {:induction false} BlockFront(s: string, prefix: string, names: seq<string>) returns (a: string, c: string)
    requires |s| > 1 && s[0] == '/' && s[1] == '*'
    ensures s == a + c && a != [] && IsBlockComment(a, c)
    ensures Substituted(s, prefix, names) == a + Substituted(c, prefix, names)
  {
    var body, closed, rest := BlockForm(s[2..]);
    assert s == "/*" + s[2..];
    BlockCommentKept(body, rest, prefix, names);
    if closed {
      a, c := "/*" + body + "*/", rest;
      Associative("/*", body, "*/" + rest);
      Associative("/*" + body, "*/", rest);
    } else {
      a, c := s, [];
      assert body + [] == body && s + [] == s;
      assert Substituted([], prefix, names) == [];
    }
  }
}
