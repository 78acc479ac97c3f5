/**
 The order of redirections, judged by the tokens alone: a command's redirections nest in the order
 they are written, the first innermost, whether they stand among the words of a simple command or
 behind a block.
 */
module ShLayers {
  import opened Wrappers
  import opened ShGrammar
  import opened ShTheorems

  /** The redirections around a command, from the innermost out. */
  ghost function Layers<W>(c: Cmd<W>): seq<Redirect<W>> {
    if c.Redir? then Layers(c.cmd) + [c.r] else []
  }

  /** What they are around. */
  ghost function Core<W>(c: Cmd<W>): Cmd<W> { if c.Redir? then Core(c.cmd) else c }

  lemma {:induction false} WrapLayers<W>(c: Cmd<W>, rs: seq<Redirect<W>>)
    ensures Layers(Wrap(c, rs)) == Layers(c) + rs && Core(Wrap(c, rs)) == Core(c)
  {
    if rs != [] { WrapLayers(c, rs[..|rs| - 1]); }
  }

  // ----- a simple command -----

  /** Words and redirection symbols only. */
  ghost predicate IsSimple<W>(ts: seq<Token<W>>) {
    forall i :: 0 <= i < |ts| && ts[i].Sym? ==> IsMode(ts[i].c)
  }

  /** Every redirection symbol has its file. */
  ghost predicate HasFiles<W>(ts: seq<Token<W>>) {
    forall i :: 0 <= i < |ts| && ts[i].Sym? ==> i + 1 < |ts| && ts[i + 1].Word?
  }

  /** Token i names a redirection's file. */
  ghost predicate IsFile<W>(ts: seq<Token<W>>, i: nat)
    requires i < |ts|
  {
    ts[i].Word? && i > 0 && ts[i - 1].Sym?
  }

  /** The redirections among the first n tokens, as written. */
  ghost function Written<W>(ts: seq<Token<W>>, n: nat): seq<Redirect<W>>
    requires n <= |ts|
  {
    if n == 0 then []
    else Written(ts, n - 1) + if IsFile(ts, n - 1) then [Redirect(ts[n - 2].c, ts[n - 1].w)] else []
  }

  /** The other words among the first n tokens, as written. */
  ghost function Arguments<W>(ts: seq<Token<W>>, n: nat): seq<W>
    requires n <= |ts|
  {
    if n == 0 then []
    else Arguments(ts, n - 1) + if ts[n - 1].Word? && !IsFile(ts, n - 1) then [ts[n - 1].w] else []
  }

  lemma {:induction false} WrittenFirst<W>(a: seq<Token<W>>, ts: seq<Token<W>>, n: nat)
    requires n <= |ts| && (a == [] || a[|a| - 1].Word?)
    ensures Written(a + ts, |a| + n) == Written(a, |a|) + Written(ts, n)
    ensures Arguments(a + ts, |a| + n) == Arguments(a, |a|) + Arguments(ts, n)
    decreases |a| + n
  {
    if n > 0 {
      WrittenFirst(a, ts, n - 1);
      assert IsFile(a + ts, |a| + n - 1) <==> IsFile(ts, n - 1);
    } else if a != [] {
      WrittenSame(a, ts, |a|);
    }
  }

  lemma {:induction false} WrittenSame<W>(a: seq<Token<W>>, ts: seq<Token<W>>, n: nat)
    requires n <= |a|
    ensures Written(a + ts, n) == Written(a, n) && Arguments(a + ts, n) == Arguments(a, n)
  {
    if n > 0 { WrittenSame(a, ts, n - 1); }
  }

  /** ParseWords finds arguments and redirections as written, and fails exactly on a missing file or too many words. */
  lemma {:induction false} WordsAsWritten<W>(ts: seq<Token<W>>, argc: nat)
    requires IsSimple(ts) && argc < MAXARGS
    ensures var args := Arguments(ts, |ts|);
            ParseWords(ts, argc) ==
            if HasFiles(ts) && argc + |args| < MAXARGS then Words(args, Written(ts, |ts|), []) else BadWords
    decreases |ts|
  {
    hide Written, Arguments, HasFiles;
    if ts == [] {
      NothingWritten<W>();
    } else if ts[0].Word? {
      FirstWord(ts);
      if argc + 1 < MAXARGS { WordsAsWritten(ts[1..], argc + 1); }
    } else if |ts| >= 2 && ts[1].Word? {
      FirstRedirect(ts);
      WordsAsWritten(ts[2..], argc);
    } else {
      FileMissing(ts);
    }
  }

  lemma NothingWritten<W>()
    ensures var none: seq<Token<W>> := []; Written(none, 0) == [] && Arguments(none, 0) == [] && HasFiles(none)
  {
  }

  lemma FileMissing<W>(ts: seq<Token<W>>)
    requires ts != [] && ts[0].Sym? && (|ts| < 2 || ts[1].Sym?)
    ensures !HasFiles(ts)
  {
  }

  lemma FirstWord<W>(ts: seq<Token<W>>)
    requires IsSimple(ts) && ts != [] && ts[0].Word?
    ensures IsSimple(ts[1..]) && (HasFiles(ts) <==> HasFiles(ts[1..]))
    ensures Written(ts, |ts|) == Written(ts[1..], |ts| - 1)
    ensures Arguments(ts, |ts|) == [ts[0].w] + Arguments(ts[1..], |ts| - 1)
  {
    hide Written, Arguments, HasFiles;
    Split(ts, 1);
    OneWord(ts[..1]);
  }

  lemma OneWord<W>(ts: seq<Token<W>>)
    requires |ts| == 1 && ts[0].Word?
    ensures Arguments(ts, 1) == [ts[0].w] && Written(ts, 1) == []
  {
    assert Arguments(ts, 0) == [] && Written(ts, 0) == [];
  }

  lemma FirstRedirect<W>(ts: seq<Token<W>>)
    requires IsSimple(ts) && |ts| >= 2 && ts[0].Sym? && ts[1].Word?
    ensures IsSimple(ts[2..]) && (HasFiles(ts) <==> HasFiles(ts[2..]))
    ensures Written(ts, |ts|) == [Redirect(ts[0].c, ts[1].w)] + Written(ts[2..], |ts| - 2)
    ensures Arguments(ts, |ts|) == Arguments(ts[2..], |ts| - 2)
  {
    Split(ts, 2);
    assert Arguments(ts[..2], 1) == [] && Written(ts[..2], 1) == [];
    assert Arguments(ts[..2], 2) == [] && Written(ts[..2], 2) == [Redirect(ts[0].c, ts[1].w)];
  }

  lemma FilesOf<W>(ts: seq<Token<W>>, k: nat)
    requires 0 < k <= |ts| && k <= 2 && ts[k - 1].Word? && (k == 2 ==> ts[0].Sym?)
    ensures HasFiles(ts) <==> HasFiles(ts[k..])
  {
    if HasFiles(ts[k..]) {
      forall i | 0 <= i < |ts| && ts[i].Sym? ensures i + 1 < |ts| && ts[i + 1].Word? {
        if i >= k { assert ts[k..][i - k] == ts[i]; }
      }
    }
    if HasFiles(ts) {
      forall i | 0 <= i < |ts[k..]| && ts[k..][i].Sym? ensures i + 1 < |ts[k..]| && ts[k..][i + 1].Word? {
        assert ts[k..][i] == ts[i + k];
      }
    }
  }

  lemma Split<W>(ts: seq<Token<W>>, k: nat)
    requires 0 < k <= |ts| && k <= 2 && ts[k - 1].Word? && (k == 2 ==> ts[0].Sym?) && IsSimple(ts)
    ensures IsSimple(ts[k..]) && (HasFiles(ts) <==> HasFiles(ts[k..]))
    ensures Written(ts, |ts|) == Written(ts[..k], k) + Written(ts[k..], |ts| - k)
    ensures Arguments(ts, |ts|) == Arguments(ts[..k], k) + Arguments(ts[k..], |ts| - k)
  {
    hide Written, Arguments, HasFiles;
    FilesOf(ts, k);
    WrittenFirst(ts[..k], ts[k..], |ts| - k);
    assert ts[..k] + ts[k..] == ts;
  }

  /**
   A line of words and redirections is a command exactly if every redirection has its file and
   there are fewer words than MAXARGS: the program with the words as written, inside the
   redirections as written, the first innermost.
   */
  lemma SimpleAsWritten<W>(ts: seq<Token<W>>)
    requires IsSimple(ts)
    ensures ParseCmd(ts).Parsed? <==> HasFiles(ts) && |Arguments(ts, |ts|)| < MAXARGS
    ensures ParseCmd(ts).Parsed? ==>
              var c := ParseCmd(ts).cmd; Layers(c) == Written(ts, |ts|) && Core(c) == Exec(Arguments(ts, |ts|))
  {
    hide Written, Arguments, ParseWords, HasFiles;
    WordsAsWritten(ts, 0);
    WrapLayers(Exec(Arguments(ts, |ts|)), Written(ts, |ts|));
    assert !At(ts, Open);
    assert ParsePipe(ts) == ParseExec(ts);
    assert ParseLine(ts) == ParseExec(ts);
  }

  // ----- a block -----

  /** The redirections behind a block, pairs of a symbol and a file. */
  ghost predicate IsPairs<W>(ts: seq<Token<W>>) {
    |ts| % 2 == 0 && forall k :: 0 <= k < |ts| ==> if k % 2 == 0 then ts[k].Sym? && IsMode(ts[k].c) else ts[k].Word?
  }

  ghost function Pair<W>(ts: seq<Token<W>>, k: nat): Redirect<W>
    requires IsPairs(ts) && k < |ts| / 2
  {
    Redirect(ts[2 * k].c, ts[2 * k + 1].w)
  }

  lemma {:induction false} PairsTokens<W>(ts: seq<Token<W>>, rs: seq<Redirect<W>>)
    requires IsPairs(ts) && |rs| == |ts| / 2 && forall k :: 0 <= k < |rs| ==> rs[k] == Pair(ts, k)
    ensures RedirsTokens(rs) == ts
    decreases |rs|
  {
    if rs != [] {
      var more := ts[2..];
      forall k | 0 <= k < |rs[1..]| ensures rs[1..][k] == Pair(more, k) { assert rs[k + 1] == Pair(ts, k + 1); }
      PairsTokens(more, rs[1..]);
      assert rs[0] == Pair(ts, 0);
      assert ts == ts[..2] + more;
    }
  }

  /** A block's redirections go around its command in the order they are written, outside those it has. */
  lemma BlockAsWritten<W(!new)>(inner: seq<Token<W>>, pairs: seq<Token<W>>)
    requires ParseCmd(inner).Parsed? && IsPairs(pairs)
    ensures var r, c := ParseCmd([Sym(Open)] + inner + [Sym(Close)] + pairs), ParseCmd(inner).cmd;
            && r.Parsed? && Core(r.cmd) == Core(c) && |Layers(r.cmd)| == |Layers(c)| + |pairs| / 2
            && Layers(r.cmd)[..|Layers(c)|] == Layers(c)
            && forall k :: 0 <= k < |pairs| / 2 ==> Layers(r.cmd)[|Layers(c)| + k] == Pair(pairs, k)
  {
    hide ParseLine, LineTokens, LineCmd, ValidLine, RedirsTokens, Wrap;
    var l := LineSound(inner);
    assert LineTokens(l) + [] == LineTokens(l);
    var rs := seq(|pairs| / 2, k requires 0 <= k < |pairs| / 2 => Pair(pairs, k));
    PairsTokens(pairs, rs);
    WrapLayers(LineCmd(l), rs);
    BlockParses(l, rs);
  }

  lemma BlockParses<W>(l: Line<W>, rs: seq<Redirect<W>>)
    requires ValidLine(l) && forall k :: 0 <= k < |rs| ==> ValidRedirect(rs[k])
    ensures ParseCmd([Sym(Open)] + LineTokens(l) + [Sym(Close)] + RedirsTokens(rs)) == Parsed(Wrap(LineCmd(l), rs), [])
  {
    hide ParseLine, Wrap, RedirsTokens;
    var simple := Block(l, rs);
    var pipe := PipeLine(simple, None);
    var block := Line(pipe, 0, None);
    assert ValidSimple(simple) && ValidPipe(pipe) && ValidLine(block);
    LineComplete(block, []);
    assert PipeTokens(pipe) == SimpleTokens(simple) && PipeCmd(pipe) == SimpleCmd(simple);
    assert LineTokens(block) == PipeTokens(pipe) && LineCmd(block) == PipeCmd(pipe);
    assert LineTokens(block) + [] == LineTokens(block);
  }
}
