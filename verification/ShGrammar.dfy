/**
 The shell's grammar: tokens, command trees, the recursive-descent parser as functions on
 tokens, and concrete syntax trees to judge it by.
 */
module ShGrammar {
  import opened Wrappers

  const MAXARGS: nat := 10

  /** | ( ) ; & < > and >> */
  datatype Symbol = Bar | Open | Close | Semi | Amp | Less | Greater | Append

  datatype Token<W> = Word(w: W) | Sym(c: Symbol)

  datatype Redirect<W> = Redirect(mode: Symbol, file: W)

  datatype Cmd<W> =
    | Exec(argv: seq<W>)
    | Redir(cmd: Cmd<W>, r: Redirect<W>)
    | Pipe(left: Cmd<W>, right: Cmd<W>)
    | List(left: Cmd<W>, right: Cmd<W>)
    | Back(cmd: Cmd<W>)

  predicate At<W>(ts: seq<Token<W>>, c: Symbol) { ts != [] && ts[0] == Sym(c) }

  predicate IsMode(c: Symbol) { c.Less? || c.Greater? || c.Append? }

  /** A redirection comes next. */
  predicate AtRedirect<W>(ts: seq<Token<W>>) { ts != [] && ts[0].Sym? && IsMode(ts[0].c) }

  /** A simple command ends here. */
  predicate AtEnd<W>(ts: seq<Token<W>>) { ts == [] || (ts[0].Sym? && (ts[0].c.Bar? || ts[0].c.Close? || ts[0].c.Amp?
      || ts[0].c.Semi?)) }

  /** Redirections are wrapped around a command, the first innermost. */
  function Wrap<W>(c: Cmd<W>, rs: seq<Redirect<W>>): Cmd<W> {
    if rs == [] then c else Redir(Wrap(c, rs[..|rs| - 1]), rs[|rs| - 1])
  }

  // ----- the parser on tokens; Bad stands for the shell's panic on a syntax error -----

  datatype Redirs<W> = Redirs(rs: seq<Redirect<W>>, rest: seq<Token<W>>) | NoFile
  datatype Words<W> = Words(argv: seq<W>, rs: seq<Redirect<W>>, rest: seq<Token<W>>) | BadWords
  datatype Parsed<W> = Parsed(cmd: Cmd<W>, rest: seq<Token<W>>) | Bad

  function ParseRedirs<W>(ts: seq<Token<W>>): (r: Redirs<W>)
    ensures r.Redirs? ==> |r.rest| <= |ts|
  {
    if !AtRedirect(ts) then Redirs([], ts)
    else if |ts| < 2 || !ts[1].Word? then NoFile
    else
      var more := ParseRedirs(ts[2..]);
      if more.NoFile? then NoFile else Redirs([Redirect(ts[0].c, ts[1].w)] + more.rs, more.rest)
  }

  /** Words and redirections in any order, up to a token that ends a command; argc words came before. */
  function ParseWords<W>(ts: seq<Token<W>>, argc: nat): (r: Words<W>)
    ensures r.Words? ==> |r.rest| <= |ts|
  {
    if AtEnd(ts) then Words([], [], ts)
    else if ts[0].Word? then
      if argc + 1 >= MAXARGS then BadWords
      else
        var more := ParseWords(ts[1..], argc + 1);
        if more.BadWords? then BadWords else more.(argv := [ts[0].w] + more.argv)
    else if AtRedirect(ts) && |ts| >= 2 && ts[1].Word? then
      var more := ParseWords(ts[2..], argc);
      if more.BadWords? then BadWords else more.(rs := [Redirect(ts[0].c, ts[1].w)] + more.rs)
    else BadWords
  }

  function ParseExec<W>(ts: seq<Token<W>>): (r: Parsed<W>)
    ensures r.Parsed? ==> |r.rest| <= |ts|
    decreases |ts|, 0
  {
    if At(ts, Open) then
      var inner := ParseLine(ts[1..]);
      if inner.Bad? || !At(inner.rest, Close) then Bad
      else
        var tail := ParseRedirs(inner.rest[1..]);
        if tail.NoFile? then Bad else Parsed(Wrap(inner.cmd, tail.rs), tail.rest)
    else
      var words := ParseWords(ts, 0);
      if words.BadWords? then Bad else Parsed(Wrap(Exec(words.argv), words.rs), words.rest)
  }

  function ParsePipe<W>(ts: seq<Token<W>>): (r: Parsed<W>)
    ensures r.Parsed? ==> |r.rest| <= |ts|
    decreases |ts|, 1
  {
    var left := ParseExec(ts);
    if left.Bad? || !At(left.rest, Bar) then left
    else
      var right := ParsePipe(left.rest[1..]);
      if right.Bad? then Bad else Parsed(Pipe(left.cmd, right.cmd), right.rest)
  }

  function ParseBacks<W>(c: Cmd<W>, ts: seq<Token<W>>): (r: Parsed<W>)
    ensures r.Parsed? && |r.rest| <= |ts|
    decreases |ts|
  {
    if At(ts, Amp) then ParseBacks(Back(c), ts[1..]) else Parsed(c, ts)
  }

  function ParseLine<W>(ts: seq<Token<W>>): (r: Parsed<W>)
    ensures r.Parsed? ==> |r.rest| <= |ts|
    decreases |ts|, 2
  {
    var first := ParsePipe(ts);
    if first.Bad? then Bad
    else
      var backs := ParseBacks(first.cmd, first.rest);
      if !At(backs.rest, Semi) then backs
      else
        var more := ParseLine(backs.rest[1..]);
        if more.Bad? then Bad else Parsed(List(backs.cmd, more.cmd), more.rest)
  }

  function ParseCmd<W>(ts: seq<Token<W>>): (r: Parsed<W>) {
    var line := ParseLine(ts);
    if line.Bad? || line.rest != [] then Bad else line
  }

  // ----- concrete syntax trees -----

  datatype Item<W> = Arg(w: W) | To(r: Redirect<W>)
  datatype Line<W> = Line(pipe: PipeLine<W>, backs: nat, more: Option<Line<W>>)
  datatype PipeLine<W> = PipeLine(head: Simple<W>, more: Option<PipeLine<W>>)
  datatype Simple<W> = Plain(items: seq<Item<W>>) | Block(line: Line<W>, rs: seq<Redirect<W>>)
  predicate ValidRedirect<W>(r: Redirect<W>) { IsMode(r.mode) }

  function Args<W>(items: seq<Item<W>>): seq<W> {
    if items == [] then [] else (if items[0].Arg? then [items[0].w] else []) + Args(items[1..])
  }

  function Targets<W>(items: seq<Item<W>>): seq<Redirect<W>> {
    if items == [] then [] else (if items[0].To? then [items[0].r] else []) + Targets(items[1..])
  }

  ghost predicate ValidSimple<W>(s: Simple<W>)
  {
    match s
    case Plain(items) => |Args(items)| < MAXARGS && forall i :: 0 <= i < |items| && items[i].To? ==>
        ValidRedirect(items[i].r)
    case Block(line, rs) => ValidLine(line) && forall i :: 0 <= i < |rs| ==> ValidRedirect(rs[i])
  }

  ghost predicate ValidPipe<W>(p: PipeLine<W>)
  {
    ValidSimple(p.head) && (p.more.Some? ==> ValidPipe(p.more.value))
  }

  ghost predicate ValidLine<W>(l: Line<W>)
  {
    ValidPipe(l.pipe) && (l.more.Some? ==> ValidLine(l.more.value))
  }

  function RedirectTokens<W>(r: Redirect<W>): seq<Token<W>> { [Sym(r.mode), Word(r.file)] }

  function RedirsTokens<W>(rs: seq<Redirect<W>>): seq<Token<W>> {
    if rs == [] then [] else RedirectTokens(rs[0]) + RedirsTokens(rs[1..])
  }

  function ItemsTokens<W>(items: seq<Item<W>>): seq<Token<W>> {
    if items == [] then []
    else (if items[0].Arg? then [Word(items[0].w)] else RedirectTokens(items[0].r)) + ItemsTokens(items[1..])
  }

  function Amps<W>(n: nat): seq<Token<W>> { if n == 0 then [] else [Sym(Amp)] + Amps(n - 1) }

  /** The tokens a tree derives. */
  function SimpleTokens<W>(s: Simple<W>): seq<Token<W>> {
    match s
    case Plain(items) => ItemsTokens(items)
    case Block(line, rs) => [Sym(Open)] + LineTokens(line) + [Sym(Close)] + RedirsTokens(rs)
  }

  function PipeTokens<W>(p: PipeLine<W>): seq<Token<W>> {
    SimpleTokens(p.head) + if p.more.Some? then [Sym(Bar)] + PipeTokens(p.more.value) else []
  }

  function LineTokens<W>(l: Line<W>): seq<Token<W>> {
    PipeTokens(l.pipe) + Amps(l.backs) + if l.more.Some? then [Sym(Semi)] + LineTokens(l.more.value) else []
  }

  /** The command a tree stands for. */
  function SimpleCmd<W>(s: Simple<W>): Cmd<W> {
    match s
    case Plain(items) => Wrap(Exec(Args(items)), Targets(items))
    case Block(line, rs) => Wrap(LineCmd(line), rs)
  }

  function PipeCmd<W>(p: PipeLine<W>): Cmd<W> {
    if p.more.Some? then Pipe(SimpleCmd(p.head), PipeCmd(p.more.value)) else SimpleCmd(p.head)
  }

  function Backs<W>(c: Cmd<W>, n: nat): Cmd<W>
    decreases n
  {
    if n == 0 then c else Backs(Back(c), n - 1)
  }

  function LineCmd<W>(l: Line<W>): Cmd<W> {
    var c := Backs(PipeCmd(l.pipe), l.backs);
    if l.more.Some? then List(c, LineCmd(l.more.value)) else c
  }

  // ----- every derivable token sequence is parsed to its command -----

  lemma Joined<T>(x: seq<T>, a: seq<T>, b: seq<T>, ts: seq<T>)
    requires ts == (x + a) + b
    ensures |ts| >= |x| && ts[|x|..] == a + b && forall i :: 0 <= i < |x| ==> ts[i] == x[i]
  {
  }

  lemma {:induction false} RedirsComplete<W>(rs: seq<Redirect<W>>, rest: seq<Token<W>>)
    requires (forall i :: 0 <= i < |rs| ==> ValidRedirect(rs[i])) && !AtRedirect(rest)
    ensures ParseRedirs(RedirsTokens(rs) + rest) == Redirs(rs, rest)
  {
    var ts := RedirsTokens(rs) + rest;
    if rs == [] {
      assert ts == rest;
    } else {
      RedirsComplete(rs[1..], rest);
      Joined(RedirectTokens(rs[0]), RedirsTokens(rs[1..]), rest, ts);
    }
  }

  lemma {:induction false} WordsComplete<W>(items: seq<Item<W>>, argc: nat, rest: seq<Token<W>>)
    requires |Args(items)| + argc < MAXARGS && AtEnd(rest)
    requires forall i :: 0 <= i < |items| && items[i].To? ==> ValidRedirect(items[i].r)
    ensures ParseWords(ItemsTokens(items) + rest, argc) == Words(Args(items), Targets(items), rest)
  {
    var ts := ItemsTokens(items) + rest;
    if items == [] {
      assert ts == rest;
    } else if items[0].Arg? {
      WordsComplete(items[1..], argc + 1, rest);
      Joined([Word(items[0].w)], ItemsTokens(items[1..]), rest, ts);
    } else {
      WordsComplete(items[1..], argc, rest);
      assert ValidRedirect(items[0].r);
      Joined(RedirectTokens(items[0].r), ItemsTokens(items[1..]), rest, ts);
    }
  }

  lemma {:induction false} BacksComplete<W>(c: Cmd<W>, n: nat, rest: seq<Token<W>>)
    requires !At(rest, Amp)
    ensures ParseBacks(c, Amps(n) + rest) == Parsed(Backs(c, n), rest)
    decreases n
  {
    var ts: seq<Token<W>> := Amps(n) + rest;
    if n == 0 {
      assert ts == rest;
    } else {
      BacksComplete(Back(c), n - 1, rest);
      Joined([Sym(Amp)], Amps(n - 1), rest, ts);
    }
  }

  lemma {:induction false} SimpleComplete<W>(s: Simple<W>, rest: seq<Token<W>>)
    requires ValidSimple(s) && AtEnd(rest)
    ensures ParseExec(SimpleTokens(s) + rest) == Parsed(SimpleCmd(s), rest)
    decreases s
  {
    hide ParseLine, ParseWords, ParseRedirs, ItemsTokens, LineTokens, RedirsTokens, LineCmd, Args, Targets, AtEnd, Wrap;
    var ts := SimpleTokens(s) + rest;
    match s
    case Plain(items) =>
      WordsComplete(items, 0, rest);
      FirstItem(items, rest);
    case Block(line, rs) =>
      var behind := [Sym(Close)] + (RedirsTokens(rs) + rest);
      LineComplete(line, behind);
      NotRedirect(rest);
      assert ts == [Sym(Open)] + (LineTokens(line) + behind);
      assert ts[1..] == LineTokens(line) + behind;
      RedirsComplete(rs, rest);
      assert behind[1..] == RedirsTokens(rs) + rest;
  }

  lemma NotRedirect<W>(ts: seq<Token<W>>)
    requires AtEnd(ts)
    ensures !AtRedirect(ts)
  {
  }

  lemma FirstItem<W>(items: seq<Item<W>>, rest: seq<Token<W>>)
    requires AtEnd(rest) && forall i :: 0 <= i < |items| && items[i].To? ==> ValidRedirect(items[i].r)
    ensures !At(ItemsTokens(items) + rest, Open)
  {
    if items == [] { assert ItemsTokens(items) + rest == rest; }
  }

  lemma {:induction false} PipeComplete<W>(p: PipeLine<W>, rest: seq<Token<W>>)
    requires ValidPipe(p) && AtEnd(rest) && !At(rest, Bar)
    ensures ParsePipe(PipeTokens(p) + rest) == Parsed(PipeCmd(p), rest)
    decreases p
  {
    hide ParseExec, SimpleTokens, SimpleCmd, ValidSimple;
    var ts := PipeTokens(p) + rest;
    if p.more.None? {
      SimpleComplete(p.head, rest);
      assert ts == SimpleTokens(p.head) + rest;
    } else {
      var behind := [Sym(Bar)] + (PipeTokens(p.more.value) + rest);
      SimpleComplete(p.head, behind);
      assert ts == SimpleTokens(p.head) + behind;
      PipeComplete(p.more.value, rest);
      assert behind[1..] == PipeTokens(p.more.value) + rest;
    }
  }

  lemma {:induction false} LineComplete<W>(l: Line<W>, rest: seq<Token<W>>)
    requires ValidLine(l) && (rest == [] || At(rest, Close))
    ensures ParseLine(LineTokens(l) + rest) == Parsed(LineCmd(l), rest)
    decreases l
  {
    hide ParsePipe, ParseBacks, PipeTokens, Amps, PipeCmd, Backs, ValidPipe, AtEnd;
    var ts := LineTokens(l) + rest;
    var behind := (if l.more.Some? then [Sym(Semi)] + LineTokens(l.more.value) else []) + rest;
    var amps := Amps(l.backs) + behind;
    EndOf(behind);
    AmpsStart(l.backs, behind);
    PipeComplete(l.pipe, amps);
    assert ts == PipeTokens(l.pipe) + amps;
    BacksComplete(PipeCmd(l.pipe), l.backs, behind);
    if l.more.Some? {
      LineComplete(l.more.value, rest);
      assert behind[1..] == LineTokens(l.more.value) + rest;
    }
  }

  lemma EndOf<W>(ts: seq<Token<W>>)
    ensures ts == [] || At(ts, Close) || At(ts, Semi) ==> AtEnd(ts) && !At(ts, Bar) && !At(ts, Amp)
  {
  }

  lemma AmpsStart<W>(n: nat, rest: seq<Token<W>>)
    requires AtEnd(rest) && !At(rest, Bar) && !At(rest, Amp)
    ensures AtEnd(Amps(n) + rest) && !At(Amps(n) + rest, Bar)
  {
    if n == 0 { assert Amps(n) + rest == rest; }
  }
}
