/** The shell parser accepts exactly its grammar, and inverts a printer. */
module ShTheorems {
  import opened Wrappers
  import opened ShGrammar

  lemma Rejoined<T>(ts: seq<T>, k: nat, a: seq<T>, b: seq<T>)
    requires k <= |ts| && a + b == ts[k..]
    ensures (ts[..k] + a) + b == ts
  {
    assert ts == ts[..k] + ts[k..];
  }

  lemma {:induction false} RedirsSound<W>(ts: seq<Token<W>>)
    requires ParseRedirs(ts).Redirs?
    ensures var r := ParseRedirs(ts); RedirsTokens(r.rs) + r.rest == ts && forall i :: 0 <= i < |r.rs| ==>
              ValidRedirect(r.rs[i])
    decreases |ts|
  {
    hide RedirsTokens;
    ConsRedir<W>([]);
    if AtRedirect(ts) {
      RedirsSound(ts[2..]);
      var r, more := ParseRedirs(ts), ParseRedirs(ts[2..]);
      ConsRedir(r.rs);
      assert r.rs[1..] == more.rs && ts[..2] == RedirectTokens(r.rs[0]);
      Rejoined(ts, 2, RedirsTokens(more.rs), more.rest);
    }
  }

  lemma ConsRedir<W>(rs: seq<Redirect<W>>)
    ensures RedirsTokens(rs) == if rs == [] then [] else RedirectTokens(rs[0]) + RedirsTokens(rs[1..])
  {
  }

  lemma {:induction false} WordsSound<W>(ts: seq<Token<W>>, argc: nat) returns (items: seq<Item<W>>)
    requires ParseWords(ts, argc).Words? && argc < MAXARGS
    ensures var r := ParseWords(ts, argc);
            && ItemsTokens(items) + r.rest == ts && Args(items) == r.argv && Targets(items) == r.rs
            && |r.argv| + argc < MAXARGS && AtEnd(r.rest)
            && forall i :: 0 <= i < |items| && items[i].To? ==> ValidRedirect(items[i].r)
    decreases |ts|
  {
    hide ItemsTokens, Args, Targets;
    NoItems<W>();
    if AtEnd(ts) {
      items := [];
    } else if ts[0].Word? {
      var more := WordsSound(ts[1..], argc + 1);
      items := [Arg(ts[0].w)] + more;
      ConsItem(Arg(ts[0].w), more);
      assert ts[..1] == [Word(ts[0].w)];
      Rejoined(ts, 1, ItemsTokens(more), ParseWords(ts[1..], argc + 1).rest);
    } else {
      var more := WordsSound(ts[2..], argc);
      items := [To(Redirect(ts[0].c, ts[1].w))] + more;
      ConsItem(To(Redirect(ts[0].c, ts[1].w)), more);
      assert ts[..2] == RedirectTokens(Redirect(ts[0].c, ts[1].w));
      Rejoined(ts, 2, ItemsTokens(more), ParseWords(ts[2..], argc).rest);
    }
  }

  lemma NoItems<W>()
    ensures ItemsTokens<W>([]) == [] && Args<W>([]) == [] && Targets<W>([]) == []
  {
  }

  lemma ConsItem<W>(it: Item<W>, items: seq<Item<W>>)
    ensures ItemsTokens([it] + items) == (if it.Arg? then [Word(it.w)] else RedirectTokens(it.r)) + ItemsTokens(items)
    ensures Args([it] + items) == (if it.Arg? then [it.w] else []) + Args(items)
    ensures Targets([it] + items) == (if it.To? then [it.r] else []) + Targets(items)
  {
    assert ([it] + items)[1..] == items;
  }

  lemma {:induction false} BacksSound<W>(c: Cmd<W>, ts: seq<Token<W>>) returns (n: nat)
    ensures var r := ParseBacks(c, ts); Amps(n) + r.rest == ts && r.cmd == Backs(c, n) && !At(r.rest, Amp)
    decreases |ts|
  {
    if At(ts, Amp) {
      var k := BacksSound(Back(c), ts[1..]);
      n := k + 1;
      assert ts == [ts[0]] + ts[1..];
    } else {
      n := 0;
    }
  }

  lemma {:induction false} ExecSound<W>(ts: seq<Token<W>>) returns (s: Simple<W>)
    requires ParseExec(ts).Parsed?
    ensures ValidSimple(s) && SimpleTokens(s) + ParseExec(ts).rest == ts && SimpleCmd(s) == ParseExec(ts).cmd
    decreases |ts|, 0
  {
    hide ParseWords, ParseLine, ParseRedirs, LineTokens, RedirsTokens, ItemsTokens, Args, Targets, Wrap;
    if At(ts, Open) {
      var inner := ParseLine(ts[1..]);
      var line := LineSound(ts[1..]);
      RedirsSound(inner.rest[1..]);
      var tail := ParseRedirs(inner.rest[1..]);
      s := Block(line, tail.rs);
      assert ts == [ts[0]] + ts[1..] && inner.rest == [inner.rest[0]] + inner.rest[1..];
    } else {
      var items := WordsSound(ts, 0);
      s := Plain(items);
    }
  }

  lemma {:induction false} PipeSound<W>(ts: seq<Token<W>>) returns (p: PipeLine<W>)
    requires ParsePipe(ts).Parsed?
    ensures ValidPipe(p) && PipeTokens(p) + ParsePipe(ts).rest == ts && PipeCmd(p) == ParsePipe(ts).cmd
    decreases |ts|, 1
  {
    hide ParseExec, SimpleTokens, SimpleCmd, ValidSimple;
    var head := ExecSound(ts);
    var left := ParseExec(ts);
    if At(left.rest, Bar) {
      var more := PipeSound(left.rest[1..]);
      p := PipeLine(head, Some(more));
      assert left.rest == [left.rest[0]] + left.rest[1..];
    } else {
      p := PipeLine(head, None);
    }
  }

  lemma {:induction false} LineSound<W>(ts: seq<Token<W>>) returns (l: Line<W>)
    requires ParseLine(ts).Parsed?
    ensures ValidLine(l) && LineTokens(l) + ParseLine(ts).rest == ts && LineCmd(l) == ParseLine(ts).cmd
    decreases |ts|, 2
  {
    hide ParsePipe, ParseBacks, PipeTokens, Amps, PipeCmd, Backs, ValidPipe;
    var first := ParsePipe(ts);
    var pipe := PipeSound(ts);
    var n := BacksSound(first.cmd, first.rest);
    var backs := ParseBacks(first.cmd, first.rest);
    if At(backs.rest, Semi) {
      var more := LineSound(backs.rest[1..]);
      l := Line(pipe, n, Some(more));
      assert backs.rest == [backs.rest[0]] + backs.rest[1..];
    } else {
      l := Line(pipe, n, None);
    }
  }

  ghost predicate Derives<W(!new)>(ts: seq<Token<W>>, c: Cmd<W>) {
    exists l: Line<W> :: DerivesBy(ts, c, l)
  }

  ghost predicate DerivesBy<W>(ts: seq<Token<W>>, c: Cmd<W>, l: Line<W>) {
    ValidLine(l) && LineTokens(l) == ts && LineCmd(l) == c
  }

  /** The parser accepts exactly the token sequences the grammar derives, with the command of the derivation. */
  lemma AcceptsExactly<W(!new)>(ts: seq<Token<W>>, c: Cmd<W>)
    ensures ParseCmd(ts) == Parsed(c, []) <==> Derives(ts, c)
  {
    hide ParseLine, LineTokens, LineCmd, ValidLine;
    if ParseCmd(ts) == Parsed(c, []) {
      var l := LineSound(ts);
      assert LineTokens(l) + [] == LineTokens(l);
      assert DerivesBy(ts, c, l);
    }
    if Derives(ts, c) {
      var l: Line<W> :| DerivesBy(ts, c, l);
      LineComplete(l, []);
      assert LineTokens(l) + [] == LineTokens(l);
    }
  }

  // ----- printing -----

  ghost predicate ValidCmd<W>(c: Cmd<W>) {
    match c
    case Exec(argv) => |argv| < MAXARGS
    case Redir(d, r) => ValidCmd(d) && ValidRedirect(r)
    case Pipe(l, r) => ValidCmd(l) && ValidCmd(r)
    case List(l, r) => ValidCmd(l) && ValidCmd(r)
    case Back(d) => ValidCmd(d)
  }

  function ArgItems<W>(argv: seq<W>): seq<Item<W>> {
    if argv == [] then [] else [Arg(argv[0])] + ArgItems(argv[1..])
  }

  function Single<W>(s: Simple<W>): PipeLine<W> { PipeLine(s, None) }

  /** Every part of a command that is not a word is put in parentheses. */
  function ToLine<W>(c: Cmd<W>): Line<W> {
    match c
    case Exec(argv) => Line(Single(Plain(ArgItems(argv))), 0, None)
    case Redir(d, r) => Line(Single(Block(ToLine(d), [r])), 0, None)
    case Pipe(l, r) => Line(PipeLine(Block(ToLine(l), []), Some(Single(Block(ToLine(r), [])))), 0, None)
    case List(l, r) => Line(Single(Block(ToLine(l), [])), 0, Some(Line(Single(Block(ToLine(r), [])), 0, None)))
    case Back(d) => Line(Single(Block(ToLine(d), [])), 1, None)
  }

  function Print<W>(c: Cmd<W>): seq<Token<W>> { LineTokens(ToLine(c)) }

  lemma {:induction false} ArgItemsAre<W>(argv: seq<W>)
    ensures Args(ArgItems(argv)) == argv && Targets(ArgItems(argv)) == []
    ensures forall i :: 0 <= i < |ArgItems(argv)| ==> ArgItems(argv)[i].Arg?
  {
    if argv != [] {
      ArgItemsAre(argv[1..]);
      assert ArgItems(argv)[1..] == ArgItems(argv[1..]);
    }
  }

  lemma {:induction false} ToLineOk<W>(c: Cmd<W>)
    requires ValidCmd(c)
    ensures ValidLine(ToLine(c)) && LineCmd(ToLine(c)) == c
  {
    match c
    case Exec(argv) =>
      ArgItemsAre(argv);
      SingleIs(Plain(ArgItems(argv)));
    case Redir(d, r) =>
      ToLineOk(d);
      WrapOne(LineCmd(ToLine(d)), r);
      SingleIs(Block(ToLine(d), [r]));
    case Pipe(l, r) =>
      ToLineOk(l);
      ToLineOk(r);
      SingleIs(Block(ToLine(r), []));
      PipedIs(Block(ToLine(l), []), Single(Block(ToLine(r), [])));
    case List(l, r) =>
      ToLineOk(l);
      ToLineOk(r);
      SingleIs(Block(ToLine(l), []));
      SingleIs(Block(ToLine(r), []));
    case Back(d) =>
      ToLineOk(d);
      SingleIs(Block(ToLine(d), []));
  }

  lemma WrapOne<W>(c: Cmd<W>, r: Redirect<W>)
    ensures Wrap(c, [r]) == Redir(c, r)
  {
    assert [r][..0] == [];
  }

  lemma PipedIs<W>(s: Simple<W>, p: PipeLine<W>)
    requires ValidSimple(s) && ValidPipe(p)
    ensures ValidPipe(PipeLine(s, Some(p))) && PipeCmd(PipeLine(s, Some(p))) == Pipe(SimpleCmd(s), PipeCmd(p))
  {
  }

  lemma SingleIs<W>(s: Simple<W>)
    requires ValidSimple(s)
    ensures ValidPipe(Single(s)) && PipeCmd(Single(s)) == SimpleCmd(s)
  {
  }

  /** Parsing a printed command gives it back. */
  lemma PrintedParses<W(!new)>(c: Cmd<W>)
    requires ValidCmd(c)
    ensures ParseCmd(Print(c)) == Parsed(c, [])
  {
    hide ParseCmd, LineTokens, LineCmd, ToLine, ValidLine;
    ToLineOk(c);
    assert DerivesBy(Print(c), c, ToLine(c));
    AcceptsExactly(Print(c), c);
  }

  /** Commands that come out of the parser can be printed, so parsing, printing and parsing again changes nothing. */
  lemma {:induction false} ParsedValid<W>(l: Line<W>)
    requires ValidLine(l)
    ensures ValidCmd(LineCmd(l))
    decreases l
  {
    PipeValid(l.pipe);
    BacksValid(PipeCmd(l.pipe), l.backs);
    if l.more.Some? { ParsedValid(l.more.value); }
  }

  lemma {:induction false} PipeValid<W>(p: PipeLine<W>)
    requires ValidPipe(p)
    ensures ValidCmd(PipeCmd(p))
    decreases p
  {
    match p.head {
      case Plain(items) =>
        TargetsValid(items);
        WrapValid(Exec(Args(items)), Targets(items));
      case Block(line, rs) =>
        ParsedValid(line);
        WrapValid(LineCmd(line), rs);
    }
    if p.more.Some? { PipeValid(p.more.value); }
  }

  lemma {:induction false} TargetsValid<W>(items: seq<Item<W>>)
    requires forall i :: 0 <= i < |items| && items[i].To? ==> ValidRedirect(items[i].r)
    ensures forall i :: 0 <= i < |Targets(items)| ==> ValidRedirect(Targets(items)[i])
  {
    if items != [] { TargetsValid(items[1..]); }
  }

  lemma {:induction false} WrapValid<W>(c: Cmd<W>, rs: seq<Redirect<W>>)
    requires ValidCmd(c) && forall i :: 0 <= i < |rs| ==> ValidRedirect(rs[i])
    ensures ValidCmd(Wrap(c, rs))
  {
    if rs != [] { WrapValid(c, rs[..|rs| - 1]); }
  }

  lemma {:induction false} BacksValid<W>(c: Cmd<W>, n: nat)
    requires ValidCmd(c)
    ensures ValidCmd(Backs(c, n))
    decreases n
  {
    if n > 0 { BacksValid(Back(c), n - 1); }
  }

  lemma ReparsePrinted<W(!new)>(ts: seq<Token<W>>, c: Cmd<W>)
    requires ParseCmd(ts) == Parsed(c, [])
    ensures ValidCmd(c) && ParseCmd(Print(c)) == ParseCmd(ts)
  {
    var l := LineSound(ts);
    ParsedValid(l);
    PrintedParses(c);
  }
}
