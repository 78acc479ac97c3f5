/** Printing a command as text and parsing that text gives the command back. */
module ShPrint {
  import opened Wrappers
  import opened ShGrammar
  import opened ShTheorems
  import opened ShLex
  import opened ShText

  // ----- the parser does not look into words -----

  function MapTok<W, V>(f: W -> V, t: Token<W>): Token<V> { if t.Word? then Word(f(t.w)) else Sym(t.c) }

  function MapToks<W, V>(f: W -> V, ts: seq<Token<W>>): (r: seq<Token<V>>)
    ensures |r| == |ts|
  {
    seq(|ts|, i requires 0 <= i < |ts| => MapTok(f, ts[i]))
  }

  function MapRedirect<W, V>(f: W -> V, r: Redirect<W>): Redirect<V> { Redirect(r.mode, f(r.file)) }

  function MapRedirects<W, V>(f: W -> V, rs: seq<Redirect<W>>): (r: seq<Redirect<V>>)
    ensures |r| == |rs|
  {
    seq(|rs|, i requires 0 <= i < |rs| => MapRedirect(f, rs[i]))
  }

  function MapWords<W, V>(f: W -> V, ws: seq<W>): (r: seq<V>)
    ensures |r| == |ws|
  {
    seq(|ws|, i requires 0 <= i < |ws| => f(ws[i]))
  }

  function MapCmd<W, V>(f: W -> V, c: Cmd<W>): Cmd<V> {
    match c
    case Exec(argv) => Exec(MapWords(f, argv))
    case Redir(d, r) => Redir(MapCmd(f, d), MapRedirect(f, r))
    case Pipe(l, r) => Pipe(MapCmd(f, l), MapCmd(f, r))
    case List(l, r) => List(MapCmd(f, l), MapCmd(f, r))
    case Back(d) => Back(MapCmd(f, d))
  }

  function MapParsed<W, V>(f: W -> V, r: Parsed<W>): Parsed<V> {
    if r.Bad? then Bad else Parsed(MapCmd(f, r.cmd), MapToks(f, r.rest))
  }

  lemma MapDrop<W, V>(f: W -> V, ts: seq<Token<W>>, k: nat)
    requires k <= |ts|
    ensures MapToks(f, ts)[k..] == MapToks(f, ts[k..])
  {
  }

  lemma {:induction false} MapWrap<W, V>(f: W -> V, c: Cmd<W>, rs: seq<Redirect<W>>)
    ensures MapCmd(f, Wrap(c, rs)) == Wrap(MapCmd(f, c), MapRedirects(f, rs))
  {
    if rs != [] {
      MapWrap(f, c, rs[..|rs| - 1]);
      assert MapRedirects(f, rs)[..|rs| - 1] == MapRedirects(f, rs[..|rs| - 1]);
    }
  }

  lemma {:induction false} RedirsNatural<W, V>(f: W -> V, ts: seq<Token<W>>)
    ensures var r := ParseRedirs(ts);
            ParseRedirs(MapToks(f, ts)) == if r.NoFile? then NoFile
                else Redirs(MapRedirects(f, r.rs), MapToks(f, r.rest))
    decreases |ts|
  {
    if AtRedirect(ts) && |ts| >= 2 && ts[1].Word? {
      RedirsNatural(f, ts[2..]);
      MapDrop(f, ts, 2);
      var r, more := Redirect(ts[0].c, ts[1].w), ParseRedirs(ts[2..]);
      if more.Redirs? { assert MapRedirects(f, [r] + more.rs) == [MapRedirect(f, r)] + MapRedirects(f, more.rs); }
    }
  }

  lemma {:induction false} WordsNatural<W, V>(f: W -> V, ts: seq<Token<W>>, argc: nat)
    ensures var r := ParseWords(ts, argc);
            ParseWords(MapToks(f, ts), argc) ==
            if r.BadWords? then BadWords else Words(MapWords(f, r.argv), MapRedirects(f, r.rs), MapToks(f, r.rest))
    decreases |ts|
  {
    if AtEnd(ts) {
    } else if ts[0].Word? {
      if argc + 1 < MAXARGS {
        WordsNatural(f, ts[1..], argc + 1);
        MapDrop(f, ts, 1);
        var more := ParseWords(ts[1..], argc + 1);
        if more.Words? { assert MapWords(f, [ts[0].w] + more.argv) == [f(ts[0].w)] + MapWords(f, more.argv); }
      }
    } else if AtRedirect(ts) && |ts| >= 2 && ts[1].Word? {
      WordsNatural(f, ts[2..], argc);
      MapDrop(f, ts, 2);
      var r, more := Redirect(ts[0].c, ts[1].w), ParseWords(ts[2..], argc);
      if more.Words? { assert MapRedirects(f, [r] + more.rs) == [MapRedirect(f, r)] + MapRedirects(f, more.rs); }
    }
  }

  lemma AtNatural<W, V>(f: W -> V, ts: seq<Token<W>>, c: Symbol)
    ensures At(MapToks(f, ts), c) == At(ts, c)
  {
  }

  lemma {:induction false} ExecNatural<W, V>(f: W -> V, ts: seq<Token<W>>)
    ensures ParseExec(MapToks(f, ts)) == MapParsed(f, ParseExec(ts))
    decreases |ts|, 0
  {
    hide ParseWords, ParseRedirs, ParseLine, MapToks, At, Wrap;
    AtNatural(f, ts, Open);
    if At(ts, Open) {
      OpenSome(ts, Open);
      LineNatural(f, ts[1..]);
      MapDrop(f, ts, 1);
      var inner := ParseLine(ts[1..]);
      if inner.Parsed? {
        AtNatural(f, inner.rest, Close);
        if At(inner.rest, Close) {
          OpenSome(inner.rest, Close);
          RedirsNatural(f, inner.rest[1..]);
          MapDrop(f, inner.rest, 1);
          var tail := ParseRedirs(inner.rest[1..]);
          if tail.Redirs? { MapWrap(f, inner.cmd, tail.rs); }
        }
      }
    } else {
      WordsNatural(f, ts, 0);
      var words := ParseWords(ts, 0);
      if words.Words? { MapWrap(f, Exec(words.argv), words.rs); }
    }
  }

  lemma OpenSome<W>(ts: seq<Token<W>>, c: Symbol)
    requires At(ts, c)
    ensures |ts| > 0
  {
  }

  lemma {:induction false} PipeNatural<W, V>(f: W -> V, ts: seq<Token<W>>)
    ensures ParsePipe(MapToks(f, ts)) == MapParsed(f, ParsePipe(ts))
    decreases |ts|, 1
  {
    hide ParseExec, MapToks, At;
    ExecNatural(f, ts);
    var left := ParseExec(ts);
    if left.Parsed? {
      AtNatural(f, left.rest, Bar);
      if At(left.rest, Bar) {
        OpenSome(left.rest, Bar);
        PipeNatural(f, left.rest[1..]);
        MapDrop(f, left.rest, 1);
      }
    }
  }

  lemma {:induction false} BacksNatural<W, V>(f: W -> V, c: Cmd<W>, ts: seq<Token<W>>)
    ensures ParseBacks(MapCmd(f, c), MapToks(f, ts)) == MapParsed(f, ParseBacks(c, ts))
    decreases |ts|
  {
    hide MapToks;
    AtNatural(f, ts, Amp);
    if At(ts, Amp) {
      BacksNatural(f, Back(c), ts[1..]);
      MapDrop(f, ts, 1);
    }
  }

  lemma {:induction false} LineNatural<W, V>(f: W -> V, ts: seq<Token<W>>)
    ensures ParseLine(MapToks(f, ts)) == MapParsed(f, ParseLine(ts))
    decreases |ts|, 2
  {
    hide ParsePipe, ParseBacks, MapToks, At;
    PipeNatural(f, ts);
    var first := ParsePipe(ts);
    if first.Parsed? {
      BacksNatural(f, first.cmd, first.rest);
      var backs := ParseBacks(first.cmd, first.rest);
      AtNatural(f, backs.rest, Semi);
      if At(backs.rest, Semi) {
        OpenSome(backs.rest, Semi);
        LineNatural(f, backs.rest[1..]);
        MapDrop(f, backs.rest, 1);
      }
    }
  }

  // ----- text -----

  function Chars(t: Token<string>): string {
    if t.Word? then t.w
    else match t.c
         case Bar => "|" case Open => "(" case Close => ")" case Semi => ";"
         case Amp => "&" case Less => "<" case Greater => ">" case Append => ">>"
  }

  /** Tokens written with a space behind each. */
  function Text(ts: seq<Token<string>>): string {
    if ts == [] then "" else Chars(ts[0]) + " " + Text(ts[1..])
  }

  predicate ValidWord(w: string) { |w| > 0 && forall k :: 0 <= k < |w| ==> IsWordChar(w[k]) }

  ghost function Slice(s: string): Span -> string {
    (w: Span) => if w.lo <= w.hi <= |s| then s[w.lo..w.hi] else ""
  }

  /** One written token is read back, with the position behind it. */
  lemma LexOne(pre: string, t: Token<string>, post: string)
    requires t.Word? ==> ValidWord(t.w)
    ensures var s, i := pre + Chars(t) + " " + post, |pre|;
            && i < |s| && !IsSpace(s[i]) && MapTok(Slice(s), TokenAt(s, i)) == t && TokenEnd(s, i) == i + |Chars(t)|
  {
    var s, i := pre + Chars(t) + " " + post, |pre|;
    var e := i + |Chars(t)|;
    assert s[i..e] == Chars(t) && s[e] == ' ';
    if t.Word? {
      forall k | i <= k < e ensures IsWordChar(s[k]) { assert s[k] == t.w[k - i]; }
      WordEndFixes(s, i, e);
      assert s[i] == t.w[0];
    } else {
      assert s[i] == Chars(t)[0];
      if t.c.Append? { assert s[i + 1] == Chars(t)[1]; }
    }
  }

  lemma ToksAt(s: string, i: nat)
    requires i < |s| && !IsSpace(s[i])
    ensures Toks(s, i) == [TokenAt(s, i)] + Toks(s, TokenEnd(s, i))
  {
  }

  lemma ToksOverSpace(s: string, i: nat)
    requires i < |s| && IsSpace(s[i])
    ensures Toks(s, i) == Toks(s, i + 1)
  {
  }

  /** Written tokens are read back. */
  lemma {:induction false} LexText(pre: string, ts: seq<Token<string>>, s: string)
    requires s == pre + Text(ts) && forall i :: 0 <= i < |ts| && ts[i].Word? ==> ValidWord(ts[i].w)
    ensures MapToks(Slice(s), Toks(s, |pre|)) == ts
    decreases |ts|
  {
    hide Toks, TokenAt, TokenEnd, IsSpace, Chars;
    if ts == [] {
      ToksNone(s);
    } else {
      var t, post, i := ts[0], Text(ts[1..]), |pre|;
      var pre' := pre + Chars(t) + " ";
      assert s == pre + Chars(t) + " " + post && s == pre' + post;
      LexOne(pre, t, post);
      ToksAt(s, i);
      SpaceIs();
      ToksOverSpace(s, i + |Chars(t)|);
      LexText(pre', ts[1..], s);
      assert Toks(s, i) == [TokenAt(s, i)] + Toks(s, |pre'|);
      assert ts == [t] + ts[1..];
    }
  }

  lemma ToksNone(s: string)
    ensures Toks(s, |s|) == []
  {
  }

  lemma SpaceIs()
    ensures IsSpace(' ')
  {
  }

  ghost predicate ValidText(c: Cmd<string>) {
    ValidCmd(c) && forall w :: w in CmdWords(c) ==> ValidWord(w)
  }

  lemma {:induction false} ArgTokens(argv: seq<string>, t: Token<string>)
    requires t in ItemsTokens(ArgItems(argv)) && t.Word?
    ensures t.w in argv
  {
    if argv != [] {
      assert ArgItems(argv)[1..] == ArgItems(argv[1..]);
      if t != Word(argv[0]) { ArgTokens(argv[1..], t); }
    }
  }

  /** A printed command has no words but its own. */
  lemma {:induction false} PrintWords(c: Cmd<string>, t: Token<string>)
    requires t in Print(c) && t.Word?
    ensures t.w in CmdWords(c)
  {
    hide ArgItems, ItemsTokens, LineTokens, PipeTokens, RedirsTokens;
    match c
    case Exec(argv) =>
      LineIs(Single(Plain(ArgItems(argv))), 0);
      SingleTokens(Plain(ArgItems(argv)));
      ArgTokens(argv, t);
    case Redir(d, r) =>
      OneRedir(r);
      LineIs(Single(Block(ToLine(d), [r])), 0);
      SingleTokens(Block(ToLine(d), [r]));
      if t in Print(d) { PrintWords(d, t); }
    case Pipe(l, r) =>
      LineIs(ToLine(c).pipe, 0);
      BlockTokens(ToLine(l));
      BlockTokens(ToLine(r));
      SingleTokens(Block(ToLine(r), []));
      PipedTokens(Block(ToLine(l), []), Single(Block(ToLine(r), [])));
      if t in Print(l) { PrintWords(l, t); } else { PrintWords(r, t); }
    case List(l, r) =>
      BlockTokens(ToLine(l));
      BlockTokens(ToLine(r));
      SingleTokens(Block(ToLine(l), []));
      SingleTokens(Block(ToLine(r), []));
      LineIs(Single(Block(ToLine(r), [])), 0);
      ListedTokens(Single(Block(ToLine(l), [])), ToLine(c).more.value);
      if t in Print(l) { PrintWords(l, t); } else { PrintWords(r, t); }
    case Back(d) =>
      BlockTokens(ToLine(d));
      SingleTokens(Block(ToLine(d), []));
      LineIs(Single(Block(ToLine(d), [])), 1);
      PrintWords(d, t);
  }

  lemma SingleTokens<W>(s: Simple<W>)
    ensures PipeTokens(Single(s)) == SimpleTokens(s)
  {
  }

  lemma PipedTokens<W>(s: Simple<W>, p: PipeLine<W>)
    ensures PipeTokens(PipeLine(s, Some(p))) == SimpleTokens(s) + ([Sym(Bar)] + PipeTokens(p))
  {
  }

  lemma BlockTokens<W>(l: Line<W>)
    ensures SimpleTokens(Block(l, [])) == [Sym(Open)] + LineTokens(l) + [Sym(Close)]
  {
    assert RedirsTokens<W>([]) == [];
  }

  lemma LineIs<W>(p: PipeLine<W>, n: nat)
    requires n <= 1
    ensures LineTokens(Line(p, n, None)) == PipeTokens(p) + if n == 0 then [] else [Sym(Amp)]
  {
    if n == 1 { assert Amps<W>(1) == [Sym(Amp)] + Amps(0); }
  }

  lemma ListedTokens<W>(p: PipeLine<W>, l: Line<W>)
    ensures LineTokens(Line(p, 0, Some(l))) == PipeTokens(p) + ([Sym(Semi)] + LineTokens(l))
  {
    assert Amps<W>(0) == [];
  }

  lemma OneRedir<W>(r: Redirect<W>)
    ensures RedirsTokens([r]) == RedirectTokens(r)
  {
    assert [r][1..] == [];
  }

  /** Parsing the text of a command gives the command back: same shape, and the same strings in the line. */
  lemma TextRoundTrip(c: Cmd<string>)
    requires ValidText(c)
    ensures var s := Text(Print(c));
            var r := ParseCmd(Toks(s, 0));
            r.Parsed? && r.rest == [] && MapCmd(Slice(s), r.cmd) == c
  {
    hide ParseLine, Toks, Print, Text, CmdWords, MapToks, MapCmd, Slice, ValidCmd;
    var ts := Print(c);
    var s := Text(ts);
    forall i | 0 <= i < |ts| && ts[i].Word? ensures ValidWord(ts[i].w) { PrintWords(c, ts[i]); }
    assert s == "" + s;
    LexText("", ts, s);
    PrintedParses(c);
    LineNatural(Slice(s), Toks(s, 0));
  }
}
