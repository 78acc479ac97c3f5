/** Command lines as text: strings after nulterminate, and printing and parsing whole lines. */
module ShText {
  import opened ShGrammar
  import opened ShTheorems
  import opened ShLex
  import Sh

  const NUL: char := '\0'

  // ----- the words of a parsed command are tokens of the line -----

  function CmdWords<W>(c: Cmd<W>): set<W> {
    match c
    case Exec(argv) => set w | w in argv
    case Redir(d, r) => CmdWords(d) + {r.file}
    case Pipe(l, r) => CmdWords(l) + CmdWords(r)
    case List(l, r) => CmdWords(l) + CmdWords(r)
    case Back(d) => CmdWords(d)
  }

  ghost predicate Among<W>(c: Cmd<W>, ts: seq<Token<W>>) {
    forall w :: w in CmdWords(c) ==> Word(w) in ts
  }

  lemma {:induction false} WrapAmong<W>(c: Cmd<W>, rs: seq<Redirect<W>>, ts: seq<Token<W>>)
    requires Among(c, ts) && forall i :: 0 <= i < |rs| ==> Word(rs[i].file) in ts
    ensures Among(Wrap(c, rs), ts)
  {
    if rs != [] { WrapAmong(c, rs[..|rs| - 1], ts); }
  }

  lemma {:induction false} RedirsAmong<W>(rs: seq<Redirect<W>>)
    ensures forall i :: 0 <= i < |rs| ==> Word(rs[i].file) in RedirsTokens(rs)
  {
    if rs != [] {
      RedirsAmong(rs[1..]);
      assert RedirsTokens(rs)[1] == Word(rs[0].file);
    }
  }

  lemma {:induction false} ItemsAmong<W>(items: seq<Item<W>>)
    ensures forall i :: 0 <= i < |Args(items)| ==> Word(Args(items)[i]) in ItemsTokens(items)
    ensures forall i :: 0 <= i < |Targets(items)| ==> Word(Targets(items)[i].file) in ItemsTokens(items)
  {
    if items != [] {
      ItemsAmong(items[1..]);
      if items[0].Arg? {
        assert ItemsTokens(items)[0] == Word(items[0].w);
      } else {
        assert ItemsTokens(items)[1] == Word(items[0].r.file);
      }
    }
  }

  lemma {:induction false} BacksAmong<W>(c: Cmd<W>, n: nat, ts: seq<Token<W>>)
    requires Among(c, ts)
    ensures Among(Backs(c, n), ts)
    decreases n
  {
    if n > 0 { BacksAmong(Back(c), n - 1, ts); }
  }

  lemma Wider<W>(c: Cmd<W>, ts: seq<Token<W>>, all: seq<Token<W>>)
    requires Among(c, ts) && forall t :: t in ts ==> t in all
    ensures Among(c, all)
  {
  }

  lemma {:induction false} SimpleAmong<W>(s: Simple<W>)
    ensures Among(SimpleCmd(s), SimpleTokens(s))
    decreases s
  {
    match s
    case Plain(items) =>
      ItemsAmong(items);
      WrapAmong(Exec(Args(items)), Targets(items), ItemsTokens(items));
    case Block(line, rs) =>
      LineAmong(line);
      RedirsAmong(rs);
      Wider(LineCmd(line), LineTokens(line), SimpleTokens(s));
      WrapAmong(LineCmd(line), rs, SimpleTokens(s));
  }

  lemma {:induction false} PipeAmong<W>(p: PipeLine<W>)
    ensures Among(PipeCmd(p), PipeTokens(p))
    decreases p
  {
    SimpleAmong(p.head);
    Wider(SimpleCmd(p.head), SimpleTokens(p.head), PipeTokens(p));
    if p.more.Some? {
      PipeAmong(p.more.value);
      Wider(PipeCmd(p.more.value), PipeTokens(p.more.value), PipeTokens(p));
    }
  }

  lemma {:induction false} LineAmong<W>(l: Line<W>)
    ensures Among(LineCmd(l), LineTokens(l))
    decreases l
  {
    PipeAmong(l.pipe);
    Wider(PipeCmd(l.pipe), PipeTokens(l.pipe), LineTokens(l));
    BacksAmong(PipeCmd(l.pipe), l.backs, LineTokens(l));
    if l.more.Some? {
      LineAmong(l.more.value);
      Wider(LineCmd(l.more.value), LineTokens(l.more.value), LineTokens(l));
    }
  }

  /** A maximal run of word characters. */
  ghost predicate WordSpan(s: string, w: Span) {
    && w.lo < w.hi <= |s| && (forall k :: w.lo <= k < w.hi ==> IsWordChar(s[k]))
    && (w.hi < |s| ==> !IsWordChar(s[w.hi]))
  }

  lemma {:induction false} ToksSpans(s: string, i: nat, w: Span)
    requires i <= |s| && Word(w) in Toks(s, i)
    ensures WordSpan(s, w)
    decreases |s| - i
  {
    var j := Skip(s, i);
    if j < |s| && Word(w) != TokenAt(s, j) { ToksSpans(s, TokenEnd(s, j), w); }
  }

  /** Every word of a parsed line is a maximal run of word characters of it. */
  lemma ParsedSpans(s: string, c: Cmd<Span>, w: Span)
    requires ParseCmd(Toks(s, 0)) == Parsed(c, []) && w in CmdWords(c)
    ensures WordSpan(s, w)
  {
    hide ParseLine, LineTokens, LineCmd, Toks, CmdWords;
    var l := LineSound(Toks(s, 0));
    LineAmong(l);
    assert LineTokens(l) + [] == LineTokens(l);
    ToksSpans(s, 0, w);
  }

  // ----- nulterminate -----

  ghost predicate IsEnd(c: Cmd<Span>, k: nat) { exists w :: w in CmdWords(c) && w.hi == k }

  /** nulterminate: a NUL at the end of every word of the command, and no other change. */
  method Nulterminate(buf: array<char>, c: Cmd<Span>)
    requires forall w :: w in CmdWords(c) ==> w.hi < buf.Length
    modifies buf
    ensures forall k :: 0 <= k < buf.Length ==> buf[k] == if IsEnd(c, k) then NUL else old(buf[k])
    decreases c
  {
    match c
    case Exec(argv) =>
      var i := 0;
      while i < |argv|
        invariant 0 <= i <= |argv|
        invariant forall k :: 0 <= k < buf.Length ==> buf[k] == if Cut(argv, i, k) then NUL else old(buf[k])
      {
        assert argv[i] in CmdWords(c);
        buf[argv[i].hi] := NUL;
        i := i + 1;
      }
      ExecEnds(argv);
    case Redir(d, r) =>
      Nulterminate(buf, d);
      buf[r.file.hi] := NUL;
    case Pipe(l, r) =>
      Nulterminate(buf, l);
      Nulterminate(buf, r);
    case List(l, r) =>
      Nulterminate(buf, l);
      Nulterminate(buf, r);
    case Back(d) =>
      Nulterminate(buf, d);
  }

  ghost predicate Cut(argv: seq<Span>, n: nat, k: nat) { exists j :: 0 <= j < n && j < |argv| && argv[j].hi == k }

  lemma ExecEnds(argv: seq<Span>)
    ensures forall k: nat :: IsEnd(Exec(argv), k) <==> Cut(argv, |argv|, k)
  {
    forall k: nat ensures IsEnd(Exec(argv), k) <==> Cut(argv, |argv|, k) {
      if IsEnd(Exec(argv), k) {
        var w :| w in CmdWords(Exec(argv)) && w.hi == k;
        var j :| 0 <= j < |argv| && argv[j] == w;
      }
      if Cut(argv, |argv|, k) {
        var j :| 0 <= j < |argv| && argv[j].hi == k;
        assert argv[j] in CmdWords(Exec(argv));
      }
    }
  }

  /** The C string at p of a buffer is t. */
  ghost predicate CString(buf: seq<char>, p: nat, t: string) {
    p + |t| < |buf| && buf[p..p + |t|] == t && buf[p + |t|] == NUL && NUL !in t
  }

  /**
   parsecmd on the shell's line buffer, which holds s and its NUL: every argument and file
   name is then the C string of exactly its token, since no token's end lies on or inside another.
   */
  method ParseInPlace(buf: array<char>, s: string) returns (ok: bool, c: Cmd<Span>)
    requires buf.Length > |s| && buf[..|s|] == s && buf[|s|] == NUL && NUL !in s
    modifies buf
    ensures ok == ParseCmd(Toks(s, 0)).Parsed? && (ok ==> ParseCmd(Toks(s, 0)) == Parsed(c, []))
    ensures !ok ==> buf[..] == old(buf[..])
    ensures ok ==> forall w :: w in CmdWords(c) ==> WordSpan(s, w) && CString(buf[..], w.lo, s[w.lo..w.hi])
  {
    hide ParseCmd, Toks, CmdWords;
    ok, c := Sh.Parsecmd(s);
    if ok {
      forall w | w in CmdWords(c) ensures WordSpan(s, w) { ParsedSpans(s, c, w); }
      Nulterminate(buf, c);
      forall w | w in CmdWords(c) ensures CString(buf[..], w.lo, s[w.lo..w.hi]) {
        assert IsEnd(c, w.hi);
        forall k | w.lo <= k < w.hi ensures !IsEnd(c, k) && buf[k] == s[k] && s[k] != NUL {
          NotInside(s, c, w, k);
          assert s[k] in s;
        }
        assert buf[w.lo..w.hi] == s[w.lo..w.hi];
      }
    }
  }

  lemma NotInside(s: string, c: Cmd<Span>, w: Span, k: nat)
    requires WordSpan(s, w) && w.lo <= k < w.hi && forall x :: x in CmdWords(c) ==> WordSpan(s, x)
    ensures !IsEnd(c, k)
  {
  }
}
