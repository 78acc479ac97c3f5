/** The shell's parse functions on a character buffer. */
module Sh {
  import opened Wrappers
  import opened ShGrammar
  import opened ShLex

  /** A parse from position ps did what the parser on tokens says. */
  ghost predicate Did(s: string, ps: nat, want: Parsed<Span>, ok: bool, cmd: Cmd<Span>, next: nat) {
    ps <= |s| && ok == want.Parsed? && (ok ==> ps <= next <= |s| && cmd == want.cmd && Toks(s, next) == want.rest)
  }

  /** parseredirs, without the command it wraps. */
  method Redirections(s: string, ps: nat) returns (ok: bool, rs: seq<Redirect<Span>>, next: nat)
    requires ps <= |s|
    ensures ok == ParseRedirs(Toks(s, ps)).Redirs?
    ensures ok ==>
              ps <= next <= |s| && ParseRedirs(Toks(s, ps)) == Redirs(rs, Toks(s, next)) && !AtRedirect(Toks(s, next))
  {
    hide Toks, Skip;
    rs, next := [], ps;
    while true
      invariant ps <= next <= |s|
      invariant Prepend(rs, ParseRedirs(Toks(s, next))) == ParseRedirs(Toks(s, ps))
      decreases |s| - next
    {
      var more, at := Peek(s, next, "<>");
      NextChar(s, next);
      if !more { next := at; return true, rs, next; }
      ghost var ts := Toks(s, at);
      var tok, mid := Gettoken(s, at);
      var file, end := Gettoken(s, mid);
      if file.None? || !file.value.Word? { return false, rs, next; }
      PrependMore(rs, Redirect(tok.value.c, file.value.w), ts);
      rs := rs + [Redirect(tok.value.c, file.value.w)];
      next := end;
    }
  }

  ghost function Prepend<W>(rs: seq<Redirect<W>>, r: Redirs<W>): Redirs<W> {
    if r.NoFile? then r else Redirs(rs + r.rs, r.rest)
  }

  lemma PrependMore<W>(rs: seq<Redirect<W>>, r: Redirect<W>, ts: seq<Token<W>>)
    requires AtRedirect(ts) && |ts| >= 2 && ts[1].Word? && r == Redirect(ts[0].c, ts[1].w)
    ensures Prepend(rs, ParseRedirs(ts)) == Prepend(rs + [r], ParseRedirs(ts[2..]))
  {
    var more := ParseRedirs(ts[2..]);
    if more.Redirs? { assert rs + ([r] + more.rs) == rs + [r] + more.rs; }
  }

  method Parseredirs(cmd: Cmd<Span>, s: string, ps: nat) returns (ok: bool, r: Cmd<Span>, next: nat)
    requires ps <= |s|
    ensures ok == ParseRedirs(Toks(s, ps)).Redirs?
    ensures ok ==>
              && ps <= next <= |s| && ParseRedirs(Toks(s, ps)).rest == Toks(s, next)
              && r == Wrap(cmd, ParseRedirs(Toks(s, ps)).rs)
  {
    var rs;
    ok, rs, next := Redirections(s, ps);
    r := Wrap(cmd, rs);
  }

  ghost function Add<W>(argv: seq<W>, rs: seq<Redirect<W>>, r: Words<W>): Words<W> {
    if r.BadWords? then r else Words(argv + r.argv, rs + r.rs, r.rest)
  }

  /** Redirections in front of words. */
  lemma {:induction false} RedirsThenWords<W>(ts: seq<Token<W>>, argc: nat)
    ensures var r := ParseRedirs(ts);
            ParseWords(ts, argc) == if r.NoFile? then BadWords else Add([], r.rs, ParseWords(r.rest, argc))
    decreases |ts|
  {
    var r := ParseRedirs(ts);
    if AtRedirect(ts) && |ts| >= 2 && ts[1].Word? {
      RedirsThenWords(ts[2..], argc);
      var more, words := ParseRedirs(ts[2..]), ParseWords(ts[2..], argc);
      if more.Redirs? && words.Words? {
        var end := ParseWords(more.rest, argc);
        assert [Redirect(ts[0].c, ts[1].w)] + (more.rs + end.rs) == r.rs + end.rs;
      }
    } else if !AtRedirect(ts) {
      var words := ParseWords(ts, argc);
      if words.Words? { assert [] + words.rs == words.rs && [] + words.argv == words.argv; }
    }
  }

  lemma AddMore<W>(argv: seq<W>, rs: seq<Redirect<W>>, ts: seq<Token<W>>, more: seq<Redirect<W>>)
    requires ts != [] && ts[0].Word? && |argv| + 1 < MAXARGS
    requires ParseRedirs(ts[1..]).NoFile? || more == ParseRedirs(ts[1..]).rs
    ensures var r := ParseRedirs(ts[1..]);
            Add(argv, rs, ParseWords(ts, |argv|)) ==
            if r.NoFile? then BadWords else Add(argv + [ts[0].w], rs + more, ParseWords(r.rest, |argv| + 1))
  {
    hide ParseWords, ParseRedirs, Add;
    var r := ParseRedirs(ts[1..]);
    RedirsThenWords(ts[1..], |argv| + 1);
    WordStep(ts, |argv|);
    AddNested(argv, rs, ts[0].w, more, if r.Redirs? then ParseWords(r.rest, |argv| + 1) else BadWords);
  }

  lemma AddNested<W>(argv: seq<W>, rs: seq<Redirect<W>>, w: W, more: seq<Redirect<W>>, r: Words<W>)
    ensures Add(argv, rs, Add([w], [], Add([], more, r))) == Add(argv + [w], rs + more, r)
    ensures Add(argv, rs, Add([w], [], BadWords)) == BadWords
  {
    if r.Words? {
      assert [w] + ([] + r.argv) == [w] + r.argv && [] + (more + r.rs) == more + r.rs;
      assert argv + ([w] + r.argv) == (argv + [w]) + r.argv && rs + (more + r.rs) == (rs + more) + r.rs;
    }
  }

  lemma WordStep<W>(ts: seq<Token<W>>, argc: nat)
    requires ts != [] && ts[0].Word? && argc + 1 < MAXARGS
    ensures ParseWords(ts, argc) == Add([ts[0].w], [], ParseWords(ts[1..], argc + 1))
  {
    var more := ParseWords(ts[1..], argc + 1);
    if more.Words? { assert [] + more.rs == more.rs; }
  }

  /** parseexec on a command that does not start with a parenthesis. */
  method Plainexec(s: string, ps: nat) returns (ok: bool, cmd: Cmd<Span>, next: nat)
    requires ps <= |s| && !At(Toks(s, ps), Open)
    ensures Did(s, ps, ParseExec(Toks(s, ps)), ok, cmd, next)
  {
    hide Toks, Skip, ParseWords, ParseRedirs;
    ghost var want := ParseWords(Toks(s, ps), 0);
    var argv: seq<Span> := [];
    cmd := Exec([]);
    var rs;
    ok, rs, next := Redirections(s, ps);
    RedirsThenWords(Toks(s, ps), 0);
    if !ok { return; }
    while true
      invariant ps <= next <= |s| && |argv| < MAXARGS && Add(argv, rs, ParseWords(Toks(s, next), |argv|)) == want
      invariant !AtRedirect(Toks(s, next)) && ok
      decreases |s| - next
    {
      var stop, at := Peek(s, next, "|)&;");
      NextChar(s, next);
      WordsStop(Toks(s, next), |argv|);
      ghost var ts := Toks(s, at);
      if stop { next := at; break; }
      var tok, mid := Gettoken(s, at);
      if tok.None? { next := mid; break; }
      if !tok.value.Word? { return false, cmd, next; }
      if |argv| + 1 >= MAXARGS { return false, cmd, next; }
      var more;
      ok, more, next := Redirections(s, mid);
      AddMore(argv, rs, ts, if ok then more else []);
      if !ok { return; }
      argv, rs := argv + [tok.value.w], rs + more;
    }
    assert argv + [] == argv && rs + [] == rs;
    cmd := Wrap(Exec(argv), rs);
  }

  /** Where the words of a command end, and what else cannot continue it. */
  lemma WordsStop<W>(ts: seq<Token<W>>, argc: nat)
    ensures AtEnd(ts) ==> ParseWords(ts, argc) == Words([], [], ts)
    ensures !AtEnd(ts) && ts[0].Word? && argc + 1 >= MAXARGS ==> ParseWords(ts, argc) == BadWords
    ensures !AtEnd(ts) && !ts[0].Word? && !AtRedirect(ts) ==> ParseWords(ts, argc) == BadWords
  {
  }

  method Parseexec(s: string, ps: nat) returns (ok: bool, cmd: Cmd<Span>, next: nat)
    requires ps <= |s|
    ensures Did(s, ps, ParseExec(Toks(s, ps)), ok, cmd, next)
    decreases |s| - ps, 0
  {
    hide Toks, Skip, ParseWords, ParseRedirs, ParseLine, Wrap;
    var block, at := Peek(s, ps, "(");
    NextChar(s, ps);
    if !block {
      ok, cmd, next := Plainexec(s, at);
      return;
    }
    // parseblock
    var open, from := Gettoken(s, at);
    ok, cmd, next := Parseline(s, from);
    if !ok { return; }
    var close, end := Peek(s, next, ")");
    NextChar(s, next);
    if !close { return false, cmd, next; }
    var tok, after := Gettoken(s, end);
    ok, cmd, next := Parseredirs(cmd, s, after);
  }

  method Parsepipe(s: string, ps: nat) returns (ok: bool, cmd: Cmd<Span>, next: nat)
    requires ps <= |s|
    ensures Did(s, ps, ParsePipe(Toks(s, ps)), ok, cmd, next)
    decreases |s| - ps, 1
  {
    hide Toks, Skip, ParseExec;
    ok, cmd, next := Parseexec(s, ps);
    if !ok { return; }
    var bar, at := Peek(s, next, "|");
    NextChar(s, next);
    next := at;
    if bar {
      var tok, from := Gettoken(s, at);
      var right;
      ok, right, next := Parsepipe(s, from);
      cmd := Pipe(cmd, right);
    }
  }

  method Parseline(s: string, ps: nat) returns (ok: bool, cmd: Cmd<Span>, next: nat)
    requires ps <= |s|
    ensures Did(s, ps, ParseLine(Toks(s, ps)), ok, cmd, next)
    decreases |s| - ps, 2
  {
    hide Toks, Skip, ParsePipe;
    ok, cmd, next := Parsepipe(s, ps);
    if !ok { return; }
    ghost var want := ParseBacks(cmd, Toks(s, next));
    var amp, at := Peek(s, next, "&");
    NextChar(s, next);
    while amp
      invariant ps <= at <= |s| && ParseBacks(cmd, Toks(s, at)) == want && amp == At(Toks(s, at), Amp)
      decreases |s| - at
    {
      var tok, from := Gettoken(s, at);
      cmd := Back(cmd);
      amp, at := Peek(s, from, "&");
      NextChar(s, from);
    }
    var semi;
    semi, next := Peek(s, at, ";");
    NextChar(s, at);
    if semi {
      var tok, from := Gettoken(s, next);
      var right;
      ok, right, next := Parseline(s, from);
      cmd := List(cmd, right);
    }
  }

  /** parsecmd: the whole line is one command, or it is a syntax error. */
  method Parsecmd(s: string) returns (ok: bool, cmd: Cmd<Span>)
    ensures ok == ParseCmd(Toks(s, 0)).Parsed?
    ensures ok ==> ParseCmd(Toks(s, 0)) == Parsed(cmd, [])
  {
    hide Toks, Skip, ParseLine;
    var next;
    ok, cmd, next := Parseline(s, 0);
    if !ok { return; }
    var dummy, end := Peek(s, next, "");
    NextChar(s, next);
    ok := end == |s|;
  }
}
