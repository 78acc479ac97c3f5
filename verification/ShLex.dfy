/** The shell's lexer: where tokens lie in a line of characters. */
module ShLex {
  import opened Wrappers
  import opened ShGrammar

  datatype Span = Span(lo: nat, hi: nat)

  predicate IsSpace(c: char) { c == ' ' || c == '\t' || c == '\r' || c == '\n' || c == '\U{000B}' }

  predicate IsSymbol(c: char) { c == '<' || c == '|' || c == '>' || c == '&' || c == ';' || c == '(' || c == ')' }

  predicate IsWordChar(c: char) { !IsSpace(c) && !IsSymbol(c) }

  /** The first position from i on that is not white space. */
  function Skip(s: string, i: nat): (j: nat)
    requires i <= |s|
    ensures i <= j <= |s| && (j < |s| ==> !IsSpace(s[j])) && forall k :: i <= k < j ==> IsSpace(s[k])
    decreases |s| - i
  {
    if i < |s| && IsSpace(s[i]) then Skip(s, i + 1) else i
  }

  function WordEnd(s: string, i: nat): (j: nat)
    requires i <= |s|
    ensures i <= j <= |s| && (j < |s| ==> !IsWordChar(s[j])) && forall k :: i <= k < j ==> IsWordChar(s[k])
    decreases |s| - i
  {
    if i < |s| && IsWordChar(s[i]) then WordEnd(s, i + 1) else i
  }

  function SymbolOf(c: char): Symbol
    requires IsSymbol(c)
  {
    if c == '|' then Bar else if c == '(' then Open else if c == ')' then Close else if c == ';' then Semi
    else if c == '&' then Amp else if c == '<' then Less else Greater
  }

  predicate IsAppend(s: string, j: nat)
    requires j < |s|
  {
    s[j] == '>' && j + 1 < |s| && s[j + 1] == '>'
  }

  function TokenAt(s: string, j: nat): Token<Span>
    requires j < |s| && !IsSpace(s[j])
  {
    if IsAppend(s, j) then Sym(Append) else if IsSymbol(s[j]) then Sym(SymbolOf(s[j])) else Word(Span(j, WordEnd(s, j)))
  }

  function TokenEnd(s: string, j: nat): (e: nat)
    requires j < |s| && !IsSpace(s[j])
    ensures j < e <= |s|
  {
    if IsAppend(s, j) then j + 2 else if IsSymbol(s[j]) then j + 1 else WordEnd(s, j)
  }

  /** The tokens of a line from position i on. */
  function Toks(s: string, i: nat): seq<Token<Span>>
    requires i <= |s|
    decreases |s| - i
  {
    var j := Skip(s, i);
    if j == |s| then [] else [TokenAt(s, j)] + Toks(s, TokenEnd(s, j))
  }

  lemma SkipFixes(s: string, i: nat, j: nat)
    requires i <= j <= |s| && (j < |s| ==> !IsSpace(s[j])) && forall k :: i <= k < j ==> IsSpace(s[k])
    ensures Skip(s, i) == j
    decreases j - i
  {
    if i < j { SkipFixes(s, i + 1, j); }
  }

  lemma ToksSkip(s: string, i: nat)
    requires i <= |s|
    ensures Skip(s, Skip(s, i)) == Skip(s, i) && Toks(s, Skip(s, i)) == Toks(s, i)
  {
    SkipFixes(s, Skip(s, i), Skip(s, i));
  }

  lemma WordEndFixes(s: string, i: nat, j: nat)
    requires i <= j <= |s| && (j < |s| ==> !IsWordChar(s[j])) && forall k :: i <= k < j ==> IsWordChar(s[k])
    ensures WordEnd(s, i) == j
    decreases j - i
  {
    if i < j { WordEndFixes(s, i + 1, j); }
  }

  method SkipSpace(s: string, i: nat) returns (j: nat)
    requires i <= |s|
    ensures j == Skip(s, i)
  {
    j := i;
    while j < |s| && IsSpace(s[j])
      invariant i <= j <= |s| && forall k :: i <= k < j ==> IsSpace(s[k])
    {
      j := j + 1;
    }
    SkipFixes(s, i, j);
  }

  /** gettoken: the next token, None at the end, and the position behind it and the white space after it. */
  method Gettoken(s: string, ps: nat) returns (tok: Option<Token<Span>>, next: nat)
    requires ps <= |s|
    ensures ps <= next <= |s|
    ensures tok.None? <==> Toks(s, ps) == []
    ensures tok.None? ==> Toks(s, next) == []
    ensures tok.Some? ==> ps < next && tok.value == Toks(s, ps)[0] && Toks(s, next) == Toks(s, ps)[1..]
  {
    hide Skip, IsSpace, IsSymbol, WordEnd;
    var q := SkipSpace(s, ps);
    ToksSkip(s, ps);
    if q == |s| { return None, q; }
    SymbolChars(s[q]);
    var e := q;
    if IsSymbol(s[q]) {
      if s[q] == '>' && q + 1 < |s| && s[q + 1] == '>' {
        tok, e := Some(Sym(Append)), q + 2;
      } else {
        tok, e := Some(Sym(SymbolOf(s[q]))), q + 1;
      }
    } else {
      while e < |s| && IsWordChar(s[e])
        invariant q <= e <= |s| && forall k :: q <= k < e ==> IsWordChar(s[k])
      {
        e := e + 1;
      }
      WordEndFixes(s, q, e);
      tok := Some(Word(Span(q, e)));
    }
    assert tok.value == TokenAt(s, q) && e == TokenEnd(s, q);
    next := SkipSpace(s, e);
    ToksSkip(s, e);
  }

  lemma SymbolChars(c: char)
    ensures c == '>' ==> IsSymbol(c)
  {
  }

  /** peek: whether the next character is one of toks, white space skipped. */
  method Peek(s: string, ps: nat, toks: string) returns (r: bool, next: nat)
    requires ps <= |s|
    ensures ps <= next <= |s| && next == Skip(s, ps) && Toks(s, next) == Toks(s, ps)
    ensures r <==> next < |s| && s[next] in toks
  {
    next := SkipSpace(s, ps);
    ToksSkip(s, ps);
    r := next < |s| && s[next] in toks;
  }

  /** What the next character says about the next token. */
  lemma NextChar(s: string, i: nat)
    requires i <= |s|
    ensures var j := Skip(s, i);
            if j == |s| then Toks(s, i) == []
            else
              && Toks(s, i) != [] && Toks(s, i)[0] == TokenAt(s, j)
              && (s[j] == '(' <==> At(Toks(s, i), Open)) && (s[j] == ')' <==> At(Toks(s, i), Close))
              && (s[j] == '|' <==> At(Toks(s, i), Bar)) && (s[j] == '&' <==> At(Toks(s, i), Amp))
              && (s[j] == ';' <==> At(Toks(s, i), Semi))
              && (s[j] in "<>" <==> AtRedirect(Toks(s, i)))
              && (s[j] in "|)&;" <==> AtEnd(Toks(s, i)))
  {
  }

  // ----- the tokens cover the line -----

  ghost function SymbolText(c: Symbol): string {
    match c
    case Bar => "|" case Open => "(" case Close => ")" case Semi => ";"
    case Amp => "&" case Less => "<" case Greater => ">" case Append => ">>"
  }

  /** A token's words lie in the line. */
  ghost predicate Within(s: string, t: Token<Span>) { t.Word? ==> t.w.lo < t.w.hi <= |s| }

  /** The characters of a list of tokens, one after the other. */
  ghost function Texts(s: string, ts: seq<Token<Span>>): string
    requires forall i :: 0 <= i < |ts| ==> Within(s, ts[i])
  {
    if ts == [] then ""
    else
      assert Within(s, ts[0]);
      (if ts[0].Word? then s[ts[0].w.lo..ts[0].w.hi] else SymbolText(ts[0].c)) + Texts(s, ts[1..])
  }

  /** A string without its white space. */
  ghost function Solid(s: string): string {
    if s == "" then "" else (if IsSpace(s[0]) then "" else [s[0]]) + Solid(s[1..])
  }

  lemma {:induction false} SolidJoin(a: string, b: string)
    ensures Solid(a + b) == Solid(a) + Solid(b)
  {
    if a == "" {
      assert a + b == b;
    } else {
      assert (a + b)[1..] == a[1..] + b;
      SolidJoin(a[1..], b);
    }
  }

  lemma {:induction false} AllSpace(a: string)
    requires forall k :: 0 <= k < |a| ==> IsSpace(a[k])
    ensures Solid(a) == ""
  {
    if a != "" { AllSpace(a[1..]); }
  }

  lemma {:induction false} NoSpace(a: string)
    requires forall k :: 0 <= k < |a| ==> !IsSpace(a[k])
    ensures Solid(a) == a
  {
    if a != "" { NoSpace(a[1..]); }
  }

  lemma SymbolSpelled(c: char)
    requires IsSymbol(c)
    ensures SymbolText(SymbolOf(c)) == [c] && !IsSpace(c)
  {
  }

  lemma OneText(s: string, t: Token<Span>)
    requires Within(s, t)
    ensures Texts(s, [t]) == if t.Word? then s[t.w.lo..t.w.hi] else SymbolText(t.c)
  {
    assert [t][1..] == [] && Texts(s, []) == "";
  }

  lemma TokenText(s: string, j: nat)
    requires j < |s| && !IsSpace(s[j])
    ensures Within(s, TokenAt(s, j)) && Texts(s, [TokenAt(s, j)]) == s[j..TokenEnd(s, j)]
    ensures Solid(s[j..TokenEnd(s, j)]) == s[j..TokenEnd(s, j)]
  {
    hide Solid, SymbolOf, Texts, WordEnd, IsSpace, IsSymbol;
    var e := TokenEnd(s, j);
    OneText(s, TokenAt(s, j));
    if IsAppend(s, j) {
      AppendSpelled();
      assert s[j..e] == ">>";
    } else if IsSymbol(s[j]) {
      SymbolSpelled(s[j]);
      assert s[j..e] == [s[j]];
    }
    NoSpace(s[j..e]);
  }

  lemma AppendSpelled()
    ensures SymbolText(Append) == ">>" && !IsSpace('>')
  {
  }

  /** The tokens of a line spell its characters other than white space, each once and in order. */
  lemma {:induction false} Covered(s: string, i: nat)
    requires i <= |s|
    ensures forall k :: 0 <= k < |Toks(s, i)| ==> Within(s, Toks(s, i)[k])
    ensures Texts(s, Toks(s, i)) == Solid(s[i..])
    decreases |s| - i
  {
    hide IsSpace, IsSymbol, TokenAt, TokenEnd, Skip, Solid, SymbolText;
    var j := Skip(s, i);
    AllSpace(s[i..j]);
    SolidJoin(s[i..j], s[j..]);
    assert s[i..] == s[i..j] + s[j..];
    if j == |s| {
      AllSpace(s[j..]);
    } else {
      var e := TokenEnd(s, j);
      TokenText(s, j);
      Covered(s, e);
      SolidJoin(s[j..e], s[e..]);
      assert s[j..] == s[j..e] + s[e..];
      var t, ts := TokenAt(s, j), Toks(s, e);
      assert Toks(s, i) == [t] + ts && ([t] + ts)[1..] == ts && [t][1..] == [];
    }
  }

  /** Two words with a bar between them and no white space are three tokens. */
  lemma TouchingTokens()
    ensures Toks("ls|wc", 0) == [Word(Span(0, 2)), Sym(Bar), Word(Span(3, 5))]
  {
    var s := "ls|wc";
    SkipFixes(s, 0, 0);
    WordEndFixes(s, 0, 2);
    SkipFixes(s, 2, 2);
    SkipFixes(s, 3, 3);
    WordEndFixes(s, 3, 5);
    SkipFixes(s, 5, 5);
    assert Toks(s, 5) == [];
    assert Toks(s, 3) == [Word(Span(3, 5))];
    assert Toks(s, 2) == [Sym(Bar), Word(Span(3, 5))];
  }
}
