/** The identifier rewriter behind PostgreSQL's table-prefix mode (wfe-postgres/src/lib.rs):
    a token-level reading of SQL text, the index loop that rewrites it, and the laws tying the two. */
module SqlRewrite {

  predicate IsIdentStart(c: char) { 'a' <= c <= 'z' || 'A' <= c <= 'Z' || c == '_' }

  predicate IsIdentPart(c: char) { IsIdentStart(c) || '0' <= c <= '9' }

  predicate AllIdentParts(s: string) { forall i :: 0 <= i < |s| ==> IsIdentPart(s[i]) }

  /** [A-Za-z_][A-Za-z0-9_]* */
  predicate IsIdentifier(s: string) { s != [] && IsIdentStart(s[0]) && AllIdentParts(s) }

  predicate ValidPrefix(p: string) { p == [] || IsIdentifier(p) }

  // ----- tokens -----

  datatype Kind = Literal | LineComment | BlockComment | Ident | Other

  datatype Token = Token(kind: Kind, text: string)

  /** Length of a string literal after its opening quote, closing quote included;
      a doubled quote does not close it, and neither does the end of the text. */
  function LiteralRest(s: string): (n: nat)
    ensures n <= |s|
  {
    if s == [] then 0
    else if s[0] != '\'' then 1 + LiteralRest(s[1..])
    else if |s| > 1 && s[1] == '\'' then 2 + LiteralRest(s[2..])
    else 1
  }

  function LineRest(s: string): (n: nat)
    ensures n <= |s|
  {
    if s == [] || s[0] == '\n' then 0 else 1 + LineRest(s[1..])
  }

  /** Length of a block comment after its opening, closing marker included. */
  function BlockRest(s: string): (n: nat)
    ensures n <= |s|
  {
    if s == [] then 0
    else if s[0] == '*' && |s| > 1 && s[1] == '/' then 2
    else 1 + BlockRest(s[1..])
  }

  function IdentRest(s: string): (n: nat)
    ensures n <= |s|
    ensures AllIdentParts(s[..n])
    ensures n < |s| ==> !IsIdentPart(s[n])
  {
    if s == [] || !IsIdentPart(s[0]) then 0 else 1 + IdentRest(s[1..])
  }

  function HeadKind(s: string): Kind
    requires s != []
  {
    if s[0] == '\'' then Literal
    else if s[0] == '-' && |s| > 1 && s[1] == '-' then LineComment
    else if s[0] == '/' && |s| > 1 && s[1] == '*' then BlockComment
    else if IsIdentStart(s[0]) then Ident
    else Other
  }

  function HeadLen(s: string): (n: nat)
    requires s != []
    ensures 1 <= n <= |s|
  {
    match HeadKind(s)
    case Literal => 1 + LiteralRest(s[1..])
    case LineComment => LineRest(s)
    case BlockComment => 2 + BlockRest(s[2..])
    case Ident => IdentRest(s)
    case Other => 1
  }

  function Head(s: string): Token
    requires s != []
  {
    Token(HeadKind(s), s[..HeadLen(s)])
  }

  function Lex(s: string): seq<Token> {
    if s == [] then [] else [Head(s)] + Lex(s[HeadLen(s)..])
  }

  function Render(ts: seq<Token>): string {
    if ts == [] then [] else ts[0].text + Render(ts[1..])
  }

  /** An identifier token whose text is one of the names to be prefixed. */
  predicate Listed(t: Token, names: seq<string>) { t.kind.Ident? && t.text in names }

  function RewriteToken(t: Token, prefix: string, names: seq<string>): Token {
    if Listed(t, names) then Token(Ident, prefix + t.text) else t
  }

  function RewriteTokens(ts: seq<Token>, prefix: string, names: seq<string>): (r: seq<Token>)
    ensures |r| == |ts|
    ensures forall i :: 0 <= i < |ts| ==> r[i] == RewriteToken(ts[i], prefix, names)
  {
    if ts == [] then [] else [RewriteToken(ts[0], prefix, names)] + RewriteTokens(ts[1..], prefix, names)
  }

  /** The rewritten text: read as tokens, prefix the listed identifiers, print. */
  function Substituted(s: string, prefix: string, names: seq<string>): string {
    Render(RewriteTokens(Lex(s), prefix, names))
  }

  // ----- the index loop -----

  lemma {:induction false} SubstitutedStep(s: string, prefix: string, names: seq<string>)
    requires s != []
    ensures Substituted(s, prefix, names)
         == RewriteToken(Head(s), prefix, names).text + Substituted(s[HeadLen(s)..], prefix, names)
  {
    var ts := RewriteTokens(Lex(s), prefix, names);
    assert Lex(s)[1..] == Lex(s[HeadLen(s)..]);
    assert ts[1..] == RewriteTokens(Lex(s[HeadLen(s)..]), prefix, names);
  }

  lemma {:induction false} AppendOne(sql: string, start: nat, i: nat, out0: string)
    requires start <= i < |sql|
    ensures (out0 + sql[start..i]) + [sql[i]] == out0 + sql[start..i + 1]
  {
    assert sql[start..i] + [sql[i]] == sql[start..i + 1];
  }

  lemma {:induction false} LiteralStep(sql: string, i: nat)
    requires i < |sql|
    ensures sql[i] != '\'' ==> LiteralRest(sql[i..]) == 1 + LiteralRest(sql[i + 1..])
    ensures sql[i] == '\'' && i + 1 < |sql| && sql[i + 1] == '\'' ==>
              LiteralRest(sql[i..]) == 2 + LiteralRest(sql[i + 2..])
    ensures sql[i] == '\'' && (i + 1 < |sql| ==> sql[i + 1] != '\'') ==> LiteralRest(sql[i..]) == 1
  {
    assert sql[i..][1..] == sql[i + 1..];
    if i + 1 < |sql| { assert sql[i..][2..] == sql[i + 2..]; }
  }

  method CopyLiteral(sql: string, start: nat, out0: string) returns (i: nat, out: string)
    requires start < |sql| && sql[start] == '\''
    ensures i == start + 1 + LiteralRest(sql[start + 1..])
    ensures out == out0 + sql[start..i]
  {
    out := out0 + [sql[start]];
    i := start + 1;
    assert sql[start..i] == [sql[start]];
    ghost var n := LiteralRest(sql[start + 1..]);
    while i < |sql|
      invariant start < i <= |sql|
      invariant out == out0 + sql[start..i]
      invariant n == (i - start - 1) + LiteralRest(sql[i..])
      decreases |sql| - i
    {
      LiteralStep(sql, i);
      AppendOne(sql, start, i, out0);
      out := out + [sql[i]];
      if sql[i] == '\'' {
        if i + 1 < |sql| && sql[i + 1] == '\'' {
          AppendOne(sql, start, i + 1, out0);
          out := out + [sql[i + 1]];
          i := i + 2;
          continue;
        }
        i := i + 1;
        return;
      }
      i := i + 1;
    }
  }

  method CopyLineComment(sql: string, start: nat, out0: string) returns (i: nat, out: string)
    requires start <= |sql|
    ensures i == start + LineRest(sql[start..])
    ensures out == out0 + sql[start..i]
  {
    i, out := start, out0;
    while i < |sql| && sql[i] != '\n'
      invariant start <= i <= |sql|
      invariant out == out0 + sql[start..i]
      invariant LineRest(sql[start..]) == (i - start) + LineRest(sql[i..])
    {
      out := out + [sql[i]];
      assert sql[i..][1..] == sql[i + 1..];
      i := i + 1;
    }
  }

  method CopyBlockComment(sql: string, start: nat, out0: string) returns (i: nat, out: string)
    requires start + 1 < |sql| && sql[start] == '/' && sql[start + 1] == '*'
    ensures i == start + 2 + BlockRest(sql[start + 2..])
    ensures out == out0 + sql[start..i]
  {
    out := out0 + ['/'] + ['*'];
    i := start + 2;
    while i < |sql|
      invariant start + 2 <= i <= |sql|
      invariant out == out0 + sql[start..i]
      invariant BlockRest(sql[start + 2..]) == (i - start - 2) + BlockRest(sql[i..])
    {
      out := out + [sql[i]];
      if sql[i] == '*' && i + 1 < |sql| && sql[i + 1] == '/' {
        out := out + [sql[i + 1]];
        i := i + 2;
        return;
      }
      assert sql[i..][1..] == sql[i + 1..];
      i := i + 1;
    }
  }

  method ScanIdentifier(sql: string, start: nat) returns (i: nat)
    requires start <= |sql|
    ensures i == start + IdentRest(sql[start..])
  {
    i := start;
    while i < |sql| && IsIdentPart(sql[i])
      invariant start <= i <= |sql|
      invariant IdentRest(sql[start..]) == (i - start) + IdentRest(sql[i..])
    {
      assert sql[i..][1..] == sql[i + 1..];
      i := i + 1;
    }
  }

  /** One turn of the rewriting loop: the token starting at `start`. */
  method RewriteOne(sql: string, start: nat, prefix: string, names: seq<string>, out0: string)
    returns (i: nat, out: string)
    requires start < |sql|
    ensures i == start + HeadLen(sql[start..])
    ensures out == out0 + RewriteToken(Head(sql[start..]), prefix, names).text
  {
    var c := sql[start];
    ghost var rest := sql[start..];
    if c == '\'' {
      assert rest[1..] == sql[start + 1..];
      i, out := CopyLiteral(sql, start, out0);
    } else if c == '-' && start + 1 < |sql| && sql[start + 1] == '-' {
      i, out := CopyLineComment(sql, start, out0);
    } else if c == '/' && start + 1 < |sql| && sql[start + 1] == '*' {
      assert rest[2..] == sql[start + 2..];
      i, out := CopyBlockComment(sql, start, out0);
    } else if IsIdentStart(c) {
      i := ScanIdentifier(sql, start);
      out := out0;
      var ident := sql[start..i];
      if ident in names {
        out := out + prefix;
      }
      out := out + ident;
    } else {
      i, out := start + 1, out0 + [c];
    }
    assert Head(rest).text == sql[start..i];
  }

  lemma {:induction false} SubstitutedAt(sql: string, i: nat, prefix: string, names: seq<string>, out: string)
    requires i < |sql|
    ensures out + Substituted(sql[i..], prefix, names)
         == (out + RewriteToken(Head(sql[i..]), prefix, names).text)
            + Substituted(sql[i + HeadLen(sql[i..])..], prefix, names)
  {
    SubstitutedStep(sql[i..], prefix, names);
    assert sql[i..][HeadLen(sql[i..])..] == sql[i + HeadLen(sql[i..])..];
  }

  /** The rewriting loop computes exactly the token-level substitution. */
  method SubstituteIdentifiers(sql: string, prefix: string, names: seq<string>) returns (out: string)
    ensures out == Substituted(sql, prefix, names)
  {
    out := [];
    var i := 0;
    assert sql[0..] == sql;
    while i < |sql|
      invariant 0 <= i <= |sql|
      invariant out + Substituted(sql[i..], prefix, names) == Substituted(sql, prefix, names)
      decreases |sql| - i
    {
      SubstitutedAt(sql, i, prefix, names, out);
      i, out := RewriteOne(sql, i, prefix, names, out);
    }
    assert sql[i..] == [];
  }

  // ----- the laws -----

  /** Two continuations that every token scanner treats alike: both end, or both start with
      the same character, or both start an identifier. */
  ghost predicate SameHead(a: string, b: string) {
    (a == [] <==> b == []) && (a != [] ==> a[0] == b[0] || (IsIdentStart(a[0]) && IsIdentStart(b[0])))
  }

  lemma {:induction false} LiteralStable(s: string, r: string)
    requires SameHead(s[LiteralRest(s)..], r)
    ensures LiteralRest(s[..LiteralRest(s)] + r) == LiteralRest(s)
  {
    var n := LiteralRest(s);
    var t := s[..n] + r;
    if s == [] {
      assert t == [];
    } else if s[0] != '\'' {
      assert s[n..] == s[1..][n - 1..] && t[1..] == s[1..][..n - 1] + r;
      LiteralStable(s[1..], r);
    } else if |s| > 1 && s[1] == '\'' {
      assert s[n..] == s[2..][n - 2..] && t[2..] == s[2..][..n - 2] + r;
      LiteralStable(s[2..], r);
    }
  }

  lemma {:induction false} LineStable(s: string, r: string)
    requires SameHead(s[LineRest(s)..], r)
    ensures LineRest(s[..LineRest(s)] + r) == LineRest(s)
  {
    var n := LineRest(s);
    if n == 0 {
      assert s[..n] + r == r && s[n..] == s;
    } else {
      assert s[n..] == s[1..][n - 1..] && (s[..n] + r)[1..] == s[1..][..n - 1] + r;
      LineStable(s[1..], r);
    }
  }

  lemma {:induction false} BlockStable(s: string, r: string)
    requires SameHead(s[BlockRest(s)..], r)
    ensures BlockRest(s[..BlockRest(s)] + r) == BlockRest(s)
  {
    var n := BlockRest(s);
    var t := s[..n] + r;
    if s == [] {
      assert t == [];
    } else if s[0] == '*' && |s| > 1 && s[1] == '/' {
      assert t[0] == '*' && t[1] == '/';
    } else {
      assert s[n..] == s[1..][n - 1..] && t[1..] == s[1..][..n - 1] + r;
      BlockStable(s[1..], r);
    }
  }

  lemma {:induction false} IdentExact(a: string, r: string)
    requires AllIdentParts(a) && (r != [] ==> !IsIdentPart(r[0]))
    ensures IdentRest(a + r) == |a|
  {
    if a == [] {
      assert a + r == r;
    } else {
      assert (a + r)[1..] == a[1..] + r;
      IdentExact(a[1..], r);
    }
  }

  /** Replacing what follows a token by something that starts alike does not change the token. */
  lemma {:induction false} HeadStable(s: string, r: string)
    requires s != [] && SameHead(s[HeadLen(s)..], r)
    ensures var t := s[..HeadLen(s)] + r;
            HeadKind(t) == HeadKind(s) && HeadLen(t) == HeadLen(s)
  {
    var n := HeadLen(s);
    var t := s[..n] + r;
    match HeadKind(s)
    case Literal =>
      assert s[1..][n - 1..] == s[n..] && t[1..] == s[1..][..n - 1] + r;
      LiteralStable(s[1..], r);
    case LineComment =>
      LineStable(s, r);
      assert n >= 2 by { assert s[1..][0] == '-'; }
    case BlockComment =>
      assert s[2..][n - 2..] == s[n..] && t[2..] == s[2..][..n - 2] + r;
      BlockStable(s[2..], r);
    case Ident =>
      IdentExact(s[..n], r);
    case Other =>
  }

  lemma {:induction false} SubstitutedHead(s: string, prefix: string, names: seq<string>)
    requires ValidPrefix(prefix)
    ensures SameHead(s, Substituted(s, prefix, names))
  {
    if s != [] { SubstitutedStep(s, prefix, names); }
  }

  /** Lexing the rewritten text gives the input's tokens with exactly the listed identifiers prefixed:
      literals, comments and every other token come through unchanged. */
  lemma {:induction false} LexCommutes(s: string, prefix: string, names: seq<string>)
    requires ValidPrefix(prefix)
    ensures Lex(Substituted(s, prefix, names)) == RewriteTokens(Lex(s), prefix, names)
    decreases |s|
  {
    if s != [] {
      var n := HeadLen(s);
      var rest := s[n..];
      var r := Substituted(rest, prefix, names);
      LexCommutes(rest, prefix, names);
      SubstitutedHead(rest, prefix, names);
      SubstitutedStep(s, prefix, names);
      var head := RewriteToken(Head(s), prefix, names);
      HeadRewritten(s, r, prefix, names);
      var t := head.text + r;
      assert t[..|head.text|] == head.text && t[|head.text|..] == r;
      assert Lex(t) == [head] + Lex(r);
      assert Lex(s)[1..] == Lex(rest);
    }
  }

  lemma {:induction false} HeadRewritten(s: string, r: string, prefix: string, names: seq<string>)
    requires ValidPrefix(prefix) && s != [] && SameHead(s[HeadLen(s)..], r)
    ensures var head := RewriteToken(Head(s), prefix, names);
            head.text + r != [] && HeadKind(head.text + r) == head.kind && HeadLen(head.text + r) == |head.text|
  {
    if Listed(Head(s), names) {
      var ident := s[..HeadLen(s)];
      IdentExact(prefix + ident, r);
    } else {
      HeadStable(s, r);
    }
  }

  lemma {:induction false} RenderLex(s: string)
    ensures Render(Lex(s)) == s
    decreases |s|
  {
    if s != [] {
      RenderLex(s[HeadLen(s)..]);
      assert Lex(s)[1..] == Lex(s[HeadLen(s)..]);
    }
  }

  /** An empty prefix is the identity. */
  lemma {:induction false} EmptyPrefixIsIdentity(s: string, names: seq<string>)
    ensures Substituted(s, [], names) == s
  {
    RenderLex(s);
    forall i | 0 <= i < |Lex(s)| ensures RewriteToken(Lex(s)[i], [], names) == Lex(s)[i] {
      assert [] + Lex(s)[i].text == Lex(s)[i].text;
    }
    assert RewriteTokens(Lex(s), [], names) == Lex(s);
  }

  /** From a rewritten text that mentions a listed name, the prefix can be read off. */
  lemma {:induction false} PrefixRecoverable(s: string, p: string, q: string, names: seq<string>)
    requires ValidPrefix(p) && ValidPrefix(q) && Mentions(s, names)
    requires Substituted(s, p, names) == Substituted(s, q, names)
    ensures p == q
  {
    LexCommutes(s, p, names);
    LexCommutes(s, q, names);
    var ts := Lex(s);
    var i :| 0 <= i < |ts| && Listed(ts[i], names);
    var x := ts[i].text;
    assert RewriteTokens(ts, p, names)[i].text == p + x && RewriteTokens(ts, q, names)[i].text == q + x;
    assert p == (p + x)[..|p|] && q == (q + x)[..|q|];
  }

  /** Two prefixes give the same text exactly when the text mentions no listed name. */
  lemma {:induction false} PrefixShowsExactlyInMentions(s: string, p: string, q: string, names: seq<string>)
    requires ValidPrefix(p) && ValidPrefix(q) && p != q
    ensures Substituted(s, p, names) == Substituted(s, q, names) <==> !Mentions(s, names)
  {
    var ts := Lex(s);
    if !Mentions(s, names) {
      assert RewriteTokens(ts, p, names) == ts == RewriteTokens(ts, q, names);
    } else if Substituted(s, p, names) == Substituted(s, q, names) {
      PrefixRecoverable(s, p, q, names);
    }
  }

  ghost predicate Mentions(s: string, names: seq<string>) {
    exists i :: 0 <= i < |Lex(s)| && Listed(Lex(s)[i], names)
  }

  /** No name of the list is another name with something in front. */
  ghost predicate SuffixFree(names: seq<string>) {
    forall p: string, x: string :: x in names && p != [] ==> p + x !in names
  }

  /** A second pass with the same non-empty prefix changes nothing. */
  lemma {:induction false} SecondPassChangesNothing(s: string, prefix: string, names: seq<string>)
    requires IsIdentifier(prefix) && SuffixFree(names)
    ensures Substituted(Substituted(s, prefix, names), prefix, names) == Substituted(s, prefix, names)
  {
    LexCommutes(s, prefix, names);
    var ts := RewriteTokens(Lex(s), prefix, names);
    assert RewriteTokens(ts, prefix, names) == ts;
  }
}
