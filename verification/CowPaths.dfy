/**
 What fork achieves, step by step: in every reachable state it can be carried through to a child
 with all of its parent's pages, and a fork that fails at any page can be undone to the counts and
 free frames there were before.
 */
module CowPaths {
  import opened CowMachine
  import opened CowInvariant
  import opened CowSteps
  import opened CowTheorems

  /** How often the first n pages of p map frame f. */
  ghost function Uses(s: State, p: nat, n: nat, f: nat): nat {
    if n == 0 then 0
    else Uses(s, p, n - 1, f) + if Maps(s, Key(p, n - 1), f) then 1 else 0
  }

  ghost predicate Maps(s: State, k: Key, f: nat) { k in s.ptes && s.ptes[k].frame == f }

  /** k's entry once pages `from` to `to` of the parent p have been given to c; p's are marked below `marked`. */
  ghost predicate EntryIs(s0: State, s: State, p: nat, c: nat, from: nat, to: nat, marked: nat, k: Key) {
    if k.p == c then
      && (k in s.ptes <==> from <= k.v < to && Key(p, k.v) in s0.ptes)
      && (k in s.ptes ==> Key(p, k.v) in s0.ptes && s.ptes[k] == Shared(s0.ptes[Key(p, k.v)]))
    else
      && (k in s.ptes <==> k in s0.ptes)
      && (k in s.ptes && k in s0.ptes ==>
           s.ptes[k] == if k.p == p && k.v < marked then Shared(s0.ptes[k]) else s0.ptes[k])
  }

  ghost predicate CountIs(s0: State, s: State, p: nat, from: nat, to: nat, f: nat) {
    f in s0.cnt ==> f in s.cnt && s.cnt[f] == s0.cnt[f] + Uses(s0, p, to, f) - Uses(s0, p, from, f)
  }

  /** From s0 to s only p's fork into c has gone on: c has p's pages `from` to `to`. */
  ghost predicate Given(s0: State, s: State, p: nat, c: nat, from: nat, to: nat, marked: nat) {
    && s.frames == s0.frames && s.free == s0.free && s.limbo == s0.limbo && s.content == s0.content
    && s.held == s0.held && s.cnt.Keys == s0.cnt.Keys && p in s0.size && s.size == s0.size[c := s0.size[p]]
    && (forall k :: EntryIs(s0, s, p, c, from, to, marked, k))
    && (forall f: nat :: CountIs(s0, s, p, from, to, f))
  }

  /** p may fork into c. */
  ghost predicate CanFork(s: State, p: nat, c: nat) {
    && IsIdle(s, p) && c !in s.pcs && p in s.size
    && (forall v: nat :: Key(c, v) !in s.ptes)
    && (forall v: nat :: Key(p, v) in s.ptes ==> v < s.size[p] && Counts(s, Key(p, v)))
  }

  /** The frame is counted at least once. */
  ghost predicate Counts(s: State, k: Key) { k in s.ptes && Frame(s, k) in s.cnt && s.cnt[Frame(s, k)] >= 1 }

  lemma ReadyToFork(s: State, e: Eager, p: nat, c: nat)
    requires Inv(s, e) && IsIdle(s, p) && c !in s.pcs
    ensures CanFork(s, p, c)
  {
    assert ProcShape(s, p) && ProcShape(s, c);
    forall v: nat ensures Key(c, v) !in s.ptes { assert LeafShape(s, Key(c, v)); }
    forall v: nat | Key(p, v) in s.ptes ensures v < s.size[p] && Counts(s, Key(p, v)) {
      assert LeafShape(s, Key(p, v));
      CountedLeaf(s, Key(p, v));
      Referenced(s, Leaf(Key(p, v)), Frame(s, Key(p, v)));
    }
  }

  // ----- going forward -----

  /** p has forked its first i pages into c. */
  ghost predicate Forked(s0: State, s: State, p: nat, c: nat, i: nat) {
    Given(s0, s, p, c, 0, i, i) && s.pcs == s0.pcs[p := Forking(c, i)][c := Embryo(p, -1)]
  }

  lemma StartStep(s: State, p: nat, c: nat)
    requires CanFork(s, p, c)
    ensures Enabled(s, ForkStart(p, c)) && Forked(s, Next(s, ForkStart(p, c)), p, c, 0)
  {
  }

  lemma PageEntry(s0: State, s: State, p: nat, c: nat, i: nat, t: State, k: Key)
    requires CanFork(s0, p, c) && EntryIs(s0, s, p, c, 0, i, i, k) && EntryIs(s0, s, p, c, 0, i, i, Key(p, i))
    requires Key(p, i) in s0.ptes && Key(p, i) in s.ptes
    requires t.ptes == s.ptes[Key(p, i) := Shared(s.ptes[Key(p, i)])][Key(c, i) := Shared(s.ptes[Key(p, i)])]
    ensures EntryIs(s0, t, p, c, 0, i + 1, i + 1, k)
  {
  }

  /** Page i mapped for the child and counted. */
  ghost function PageGiven(s: State, p: nat, c: nat, i: nat): State
    requires Key(p, i) in s.ptes && Frame(s, Key(p, i)) in s.cnt
  {
    var e := Shared(s.ptes[Key(p, i)]);
    s.(ptes := s.ptes[Key(p, i) := e][Key(c, i) := e], cnt := s.cnt[e.frame := s.cnt[e.frame] + 1],
       pcs := s.pcs[p := ForkCount(c, i)][c := Embryo(p, i)][p := Forking(c, i + 1)][c := Embryo(p, -1)])
  }

  lemma PageEnabled(s0: State, s: State, p: nat, c: nat, i: nat)
    requires CanFork(s0, p, c) && Forked(s0, s, p, c, i) && Key(p, i) in s0.ptes
    ensures Key(p, i) in s.ptes && Frame(s, Key(p, i)) == Frame(s0, Key(p, i)) && Frame(s, Key(p, i)) in s.cnt
    ensures Enabled(s, ForkPage(p)) && Enabled(Next(s, ForkPage(p)), ForkAdd(p))
    ensures Next(Next(s, ForkPage(p)), ForkAdd(p)) == PageGiven(s, p, c, i)
  {
    assert EntryIs(s0, s, p, c, 0, i, i, Key(p, i));
    assert Counts(s0, Key(p, i));
    hide CanFork, Uses;
  }

  lemma PageStep(s0: State, s: State, p: nat, c: nat, i: nat)
    requires CanFork(s0, p, c) && Forked(s0, s, p, c, i) && Key(p, i) in s0.ptes
    ensures Enabled(s, ForkPage(p)) && Enabled(Next(s, ForkPage(p)), ForkAdd(p))
    ensures Forked(s0, Next(Next(s, ForkPage(p)), ForkAdd(p)), p, c, i + 1)
  {
    hide Enabled, Next, EntryIs, Uses;
    PageEnabled(s0, s, p, c, i);
    var t, j := PageGiven(s, p, c, i), i + 1;
    assert EntryIs(s0, s, p, c, 0, i, i, Key(p, i));
    forall k ensures EntryIs(s0, t, p, c, 0, j, j, k) {
      assert EntryIs(s0, s, p, c, 0, i, i, k);
      PageEntry(s0, s, p, c, i, t, k);
    }
    forall f: nat ensures CountIs(s0, t, p, 0, j, f) {
      assert CountIs(s0, s, p, 0, i, f);
      UsesNext(s0, p, i, f);
    }
  }

  lemma UsesNext(s: State, p: nat, i: nat, f: nat)
    ensures Uses(s, p, i + 1, f) == Uses(s, p, i, f) + if Maps(s, Key(p, i), f) then 1 else 0
    ensures Uses(s, p, 0, f) == 0
  {
  }

  lemma SkipStep(s0: State, s: State, p: nat, c: nat, i: nat)
    requires CanFork(s0, p, c) && Forked(s0, s, p, c, i) && Key(p, i) !in s0.ptes && i < s0.size[p]
    ensures Enabled(s, ForkSkip(p)) && Forked(s0, Next(s, ForkSkip(p)), p, c, i + 1)
  {
    assert EntryIs(s0, s, p, c, 0, i, i, Key(p, i));
    hide CanFork, Uses;
    var t, j := Next(s, ForkSkip(p)), i + 1;
    forall k ensures EntryIs(s0, t, p, c, 0, j, j, k) { assert EntryIs(s0, s, p, c, 0, i, i, k); }
    forall f: nat ensures CountIs(s0, t, p, 0, j, f) {
      assert CountIs(s0, s, p, 0, i, f);
      UsesNext(s0, p, i, f);
    }
  }

  /** From page i to page n. */
  lemma {:induction false} ForkPath(s0: State, s: State, p: nat, c: nat, i: nat, n: nat) returns (path: seq<Action>)
    requires CanFork(s0, p, c) && Forked(s0, s, p, c, i) && i <= n <= s0.size[p]
    ensures CanRun(s, path) && Forked(s0, Run(s, path), p, c, n)
    decreases n - i
  {
    hide CanFork, Forked, Enabled, Next;
    if i == n { return []; }
    if Key(p, i) in s0.ptes {
      PageStep(s0, s, p, c, i);
      var t := Next(s, ForkPage(p));
      var rest := ForkPath(s0, Next(t, ForkAdd(p)), p, c, i + 1, n);
      Prepend(t, ForkAdd(p), rest);
      Prepend(s, ForkPage(p), [ForkAdd(p)] + rest);
      path := [ForkPage(p)] + ([ForkAdd(p)] + rest);
    } else {
      SkipStep(s0, s, p, c, i);
      var rest := ForkPath(s0, Next(s, ForkSkip(p)), p, c, i + 1, n);
      Prepend(s, ForkSkip(p), rest);
      path := [ForkSkip(p)] + rest;
    }
  }

  lemma DoneStep(s0: State, s: State, p: nat, c: nat)
    requires CanFork(s0, p, c) && Forked(s0, s, p, c, s0.size[p])
    ensures Enabled(s, ForkDone(p))
    ensures var t := Next(s, ForkDone(p));
            t.pcs == s0.pcs[c := Idle] && Given(s0, t, p, c, 0, s0.size[p], s0.size[p])
  {
    var t := Next(s, ForkDone(p));
    forall k ensures EntryIs(s0, t, p, c, 0, s0.size[p], s0.size[p], k) {
      assert EntryIs(s0, s, p, c, 0, s0.size[p], s0.size[p], k);
    }
    forall f: nat ensures CountIs(s0, t, p, 0, s0.size[p], f) {
      assert CountIs(s0, s, p, 0, s0.size[p], f);
    }
    assert t.pcs == s0.pcs[c := Idle];
  }

  // ----- and back -----

  /** A fork that failed at page n; the child's pages below i have been unmapped again. */
  ghost predicate Undoing(s0: State, s: State, p: nat, c: nat, i: nat, n: nat) {
    Given(s0, s, p, c, i, n, n + 1) && s.pcs == s0.pcs[p := ForkUndo(c, i, n)][c := Doomed(p)]
  }

  lemma FailStep(s0: State, s: State, p: nat, c: nat, n: nat)
    requires CanFork(s0, p, c) && Forked(s0, s, p, c, n) && Key(p, n) in s0.ptes
    ensures Enabled(s, ForkFail(p)) && Undoing(s0, Next(s, ForkFail(p)), p, c, 0, n)
  {
    assert EntryIs(s0, s, p, c, 0, n, n, Key(p, n));
    var m := n + 1;
    hide Uses;
    var t := Next(s, ForkFail(p));
    forall k ensures EntryIs(s0, t, p, c, 0, n, m, k) { assert EntryIs(s0, s, p, c, 0, n, n, k); }
    forall f: nat ensures CountIs(s0, t, p, 0, n, f) { assert CountIs(s0, s, p, 0, n, f); }
  }

  lemma {:induction false} UsesGrow(s: State, p: nat, i: nat, n: nat, f: nat)
    requires i <= n
    ensures Uses(s, p, i, f) <= Uses(s, p, n, f)
    decreases n
  {
    if i < n { UsesGrow(s, p, i, n - 1, f); }
  }

  /** Page i unmapped and its reference given back. */
  ghost function PageBack(s: State, p: nat, c: nat, i: nat, n: nat): State
    requires Key(c, i) in s.ptes && Frame(s, Key(c, i)) in s.cnt
  {
    var g := Frame(s, Key(c, i));
    s.(ptes := s.ptes - {Key(c, i)}, cnt := s.cnt[g := s.cnt[g] - 1], pcs := s.pcs[p := ForkUndo(c, i + 1, n)])
  }

  lemma UndoEnabled(s0: State, s: State, p: nat, c: nat, i: nat, n: nat)
    requires CanFork(s0, p, c) && Undoing(s0, s, p, c, i, n) && i < n && Key(p, i) in s0.ptes
    ensures Key(c, i) in s.ptes && Frame(s, Key(c, i)) == Frame(s0, Key(p, i)) && Frame(s, Key(c, i)) in s.cnt
    ensures Enabled(s, UndoPage(p)) && Next(s, UndoPage(p)) == PageBack(s, p, c, i, n)
  {
    var g, m := Frame(s0, Key(p, i)), n + 1;
    assert EntryIs(s0, s, p, c, i, n, m, Key(c, i));
    assert CountIs(s0, s, p, i, n, g) && Counts(s0, Key(p, i));
    UsesNext(s0, p, i, g);
    UsesGrow(s0, p, i + 1, n, g);
    hide CanFork, Uses, EntryIs;
    assert s.cnt[g] >= 2;
  }

  lemma BackEntry(s0: State, s: State, p: nat, c: nat, i: nat, n: nat, t: State, k: Key)
    requires CanFork(s0, p, c) && i < n && EntryIs(s0, s, p, c, i, n, n + 1, k)
    requires t.ptes == s.ptes - {Key(c, i)} || (t.ptes == s.ptes && Key(p, i) !in s0.ptes)
    ensures EntryIs(s0, t, p, c, i + 1, n, n + 1, k)
  {
  }

  lemma UndoStep(s0: State, s: State, p: nat, c: nat, i: nat, n: nat)
    requires CanFork(s0, p, c) && Undoing(s0, s, p, c, i, n) && i < n && Key(p, i) in s0.ptes
    ensures Enabled(s, UndoPage(p)) && Undoing(s0, Next(s, UndoPage(p)), p, c, i + 1, n)
  {
    hide Enabled, Next, EntryIs, Uses;
    UndoEnabled(s0, s, p, c, i, n);
    var t, j, m := PageBack(s, p, c, i, n), i + 1, n + 1;
    forall k ensures EntryIs(s0, t, p, c, j, n, m, k) {
      assert EntryIs(s0, s, p, c, i, n, m, k);
      BackEntry(s0, s, p, c, i, n, t, k);
    }
    forall f: nat ensures CountIs(s0, t, p, j, n, f) {
      assert CountIs(s0, s, p, i, n, f);
      UsesNext(s0, p, i, f);
    }
    assert t.pcs == s0.pcs[p := ForkUndo(c, j, n)][c := Doomed(p)];
  }

  lemma UndoSkipStep(s0: State, s: State, p: nat, c: nat, i: nat, n: nat)
    requires CanFork(s0, p, c) && Undoing(s0, s, p, c, i, n) && i < n && Key(p, i) !in s0.ptes
    ensures Enabled(s, UndoSkip(p)) && Undoing(s0, Next(s, UndoSkip(p)), p, c, i + 1, n)
  {
    var j, m := i + 1, n + 1;
    assert EntryIs(s0, s, p, c, i, n, m, Key(c, i));
    hide Uses, EntryIs;
    var t := Next(s, UndoSkip(p));
    forall k ensures EntryIs(s0, t, p, c, j, n, m, k) {
      assert EntryIs(s0, s, p, c, i, n, m, k);
      BackEntry(s0, s, p, c, i, n, t, k);
    }
    forall f: nat ensures CountIs(s0, t, p, j, n, f) {
      assert CountIs(s0, s, p, i, n, f);
      UsesNext(s0, p, i, f);
    }
    assert t.pcs == s0.pcs[p := ForkUndo(c, j, n)][c := Doomed(p)];
  }

  lemma UndoneStep(s0: State, s: State, p: nat, c: nat, n: nat)
    requires CanFork(s0, p, c) && Undoing(s0, s, p, c, n, n)
    ensures Enabled(s, UndoDone(p))
    ensures var t := Next(s, UndoDone(p)); t.pcs == s0.pcs && Given(s0, t, p, c, n, n, n + 1)
  {
    var t, m := Next(s, UndoDone(p)), n + 1;
    hide Uses;
    forall k ensures EntryIs(s0, t, p, c, n, n, m, k) { assert EntryIs(s0, s, p, c, n, n, m, k); }
    forall f: nat ensures CountIs(s0, t, p, n, n, f) { assert CountIs(s0, s, p, n, n, f); }
    assert t.pcs == s0.pcs;
  }

  lemma {:induction false} UndoPath(s0: State, s: State, p: nat, c: nat, i: nat, n: nat) returns (path: seq<Action>)
    requires CanFork(s0, p, c) && Undoing(s0, s, p, c, i, n) && i <= n
    ensures CanRun(s, path)
    ensures var t := Run(s, path); t.pcs == s0.pcs && Given(s0, t, p, c, n, n, n + 1)
    decreases n - i
  {
    hide CanFork, Undoing, Enabled, Next, Given;
    if i == n {
      UndoneStep(s0, s, p, c, n);
      Prepend(s, UndoDone(p), []);
      path := [UndoDone(p)] + [];
    } else if Key(p, i) in s0.ptes {
      UndoStep(s0, s, p, c, i, n);
      var rest := UndoPath(s0, Next(s, UndoPage(p)), p, c, i + 1, n);
      Prepend(s, UndoPage(p), rest);
      path := [UndoPage(p)] + rest;
    } else {
      UndoSkipStep(s0, s, p, c, i, n);
      var rest := UndoPath(s0, Next(s, UndoSkip(p)), p, c, i + 1, n);
      Prepend(s, UndoSkip(p), rest);
      path := [UndoSkip(p)] + rest;
    }
  }

  // ----- from every reachable state -----

  lemma {:induction false} Onward(s: State, a: seq<Action>, b: seq<Action>)
    requires CanRun(s, a) && CanRun(Run(s, a), b)
    ensures CanRun(s, a + b) && Run(s, a + b) == Run(Run(s, a), b)
    decreases |a|
  {
    hide Enabled, Next;
    if a == [] {
      assert a + b == b;
    } else {
      Onward(Next(s, a[0]), a[1..], b);
      assert (a + b)[1..] == a[1..] + b;
    }
  }

  /**
   In every reachable state an idle process can fork into any free slot: both end idle, the child
   with exactly the parent's pages, the same frames, PTE_W traded for PTE_F on both sides, and every
   frame counted once more for each page that maps it; nothing else changes.
   */
  lemma ForkSucceeds(s: State, run: seq<Action>, p: nat, c: nat) returns (path: seq<Action>)
    requires Boot(s) && CanRun(s, run) && IsIdle(Run(s, run), p) && c !in Run(s, run).pcs
    ensures var u := Run(s, run);
            && p in u.size && CanRun(u, path)
            && var t := Run(u, path); t.pcs == u.pcs[c := Idle] && Given(u, t, p, c, 0, u.size[p], u.size[p])
  {
    hide Enabled, Next, Given, Forked, CanFork, IsIdle;
    var u := Run(s, run);
    BootInv(s);
    RunInv(s, map[], run);
    ReadyToFork(u, EagerRun(map[], s, run), p, c);
    Sized(u, p, c);
    StartStep(u, p, c);
    var v := Next(u, ForkStart(p, c));
    var pages := ForkPath(u, v, p, c, 0, u.size[p]);
    var w := Run(v, pages);
    DoneStep(u, w, p, c);
    Prepend(w, ForkDone(p), []);
    Onward(v, pages, [ForkDone(p)] + []);
    Prepend(u, ForkStart(p, c), pages + ([ForkDone(p)] + []));
    path := [ForkStart(p, c)] + (pages + ([ForkDone(p)] + []));
  }

  lemma Sized(s: State, p: nat, c: nat)
    requires CanFork(s, p, c)
    ensures p in s.size && forall v: nat :: Key(p, v) in s.ptes ==> v < s.size[p]
  {
  }

  /**
   In every reachable state a fork that fails at any page n of the parent can be undone: the child
   is gone, every count, free list and frame is as before, and the parent's pages up to n have
   traded PTE_W for PTE_F.
   */
  lemma FailedForkUndone(s: State, run: seq<Action>, p: nat, c: nat, n: nat) returns (path: seq<Action>)
    requires Boot(s) && CanRun(s, run) && IsIdle(Run(s, run), p) && c !in Run(s, run).pcs
    requires Key(p, n) in Run(s, run).ptes
    ensures var u := Run(s, run);
            CanRun(u, path) && ForkFail(p) in path
            && var t := Run(u, path); t.pcs == u.pcs && t.cnt == u.cnt && Given(u, t, p, c, n, n, n + 1)
  {
    hide Enabled, Next, Given, Forked, CanFork, Undoing, IsIdle;
    var u := Run(s, run);
    BootInv(s);
    RunInv(s, map[], run);
    ReadyToFork(u, EagerRun(map[], s, run), p, c);
    Sized(u, p, c);
    StartStep(u, p, c);
    var v := Next(u, ForkStart(p, c));
    var pages := ForkPath(u, v, p, c, 0, n);
    var w := Run(v, pages);
    FailStep(u, w, p, c, n);
    var back := UndoPath(u, Next(w, ForkFail(p)), p, c, 0, n);
    Prepend(w, ForkFail(p), back);
    Onward(v, pages, [ForkFail(p)] + back);
    Prepend(u, ForkStart(p, c), pages + ([ForkFail(p)] + back));
    path := [ForkStart(p, c)] + (pages + ([ForkFail(p)] + back));
    SameCounts(u, Run(u, path), p, c, n);
  }

  lemma SameCounts(s0: State, s: State, p: nat, c: nat, n: nat)
    requires Given(s0, s, p, c, n, n, n + 1)
    ensures s.cnt == s0.cnt
  {
    forall f: nat | f in s0.cnt ensures s.cnt[f] == s0.cnt[f] { assert CountIs(s0, s, p, n, n, f); }
  }

  // ----- pages and frames come and go -----

  /** The page is gone; its frame has one reference fewer, and with its last one goes back to a free list. */
  ghost predicate PageGone(s: State, t: State, k: Key)
    requires k in s.ptes && Frame(s, k) in s.cnt
  {
    var f := Frame(s, k);
    && t.ptes == s.ptes - {k} && t.pcs == s.pcs && t.size == s.size && t.held == s.held && t.limbo == s.limbo
    && t.cnt == s.cnt[f := s.cnt[f] - 1] && t.free == if s.cnt[f] == 1 then s.free + {f} else s.free
  }

  ghost function UnmapSteps(s: State, p: nat, v: nat): seq<Action>
    requires Key(p, v) in s.ptes && Frame(s, Key(p, v)) in s.cnt
  {
    var f := Frame(s, Key(p, v));
    [Unmap(p, v)] + if s.cnt[f] == 1 then [Push(f)] + [] else []
  }

  /** In every reachable state an idle process can give up any of its pages. */
  lemma PageGivenUp(s: State, run: seq<Action>, p: nat, v: nat)
    requires Boot(s) && CanRun(s, run) && IsIdle(Run(s, run), p) && Key(p, v) in Run(s, run).ptes
    ensures var u := Run(s, run);
            && Frame(u, Key(p, v)) in u.cnt && CanRun(u, UnmapSteps(u, p, v))
            && PageGone(u, Run(u, UnmapSteps(u, p, v)), Key(p, v))
  {
    var u := Run(s, run);
    BootInv(s);
    RunInv(s, map[], run);
    hide Boot, CanRun, Run;
    UnmapPath(u, EagerRun(map[], s, run), p, v);
  }

  lemma UnmapPath(u: State, e: Eager, p: nat, v: nat)
    requires Inv(u, e) && IsIdle(u, p) && Key(p, v) in u.ptes
    ensures Frame(u, Key(p, v)) in u.cnt && CanRun(u, UnmapSteps(u, p, v))
    ensures PageGone(u, Run(u, UnmapSteps(u, p, v)), Key(p, v))
  {
    var k := Key(p, v);
    CountedLeaf(u, k);
    var f := Frame(u, k);
    assert ProcShape(u, p) && LeafShape(u, k);
    Referenced(u, Leaf(k), f);
    UnmapStep(u, p, v);
    hide Inv, Enabled, Next;
    var t := Next(u, Unmap(p, v));
    if u.cnt[f] == 1 {
      Prepend(t, Push(f), []);
      Prepend(u, Unmap(p, v), [Push(f)] + []);
    } else {
      Prepend(u, Unmap(p, v), []);
    }
  }

  lemma UnmapStep(u: State, p: nat, v: nat)
    requires IsIdle(u, p) && Key(p, v) in u.ptes && Frame(u, Key(p, v)) in u.cnt && Frame(u, Key(p, v)) !in u.limbo
    ensures Enabled(u, Unmap(p, v))
    ensures var t, f := Next(u, Unmap(p, v)), Frame(u, Key(p, v));
            if u.cnt[f] == 1 then Enabled(t, Push(f)) && PageGone(u, Next(t, Push(f)), Key(p, v))
            else PageGone(u, t, Key(p, v))
  {
    var f := Frame(u, Key(p, v));
    if u.cnt[f] == 1 {
      var t := Next(u, Unmap(p, v));
      assert t.limbo - {f} == u.limbo;
    }
  }

  /** In every state an idle process can grow and then map a free frame at any of its new pages. */
  lemma GrownPageMapped(s: State, p: nat, n: nat, v: nat, f: nat, data: Page, w: bool)
    requires IsIdle(s, p) && p in s.size && s.size[p] <= n && v < n && Key(p, v) !in s.ptes && f in s.free
    ensures var path := [Grow(p, n)] + ([Populate(p, v, f, data, w)] + []);
            && CanRun(s, path)
            && var t := Run(s, path);
               && t.size == s.size[p := n] && t.ptes == s.ptes[Key(p, v) := Pte(f, w, false, true)]
               && t.free == s.free - {f} && t.cnt == s.cnt[f := 1] && t.content == s.content[f := data]
               && t.pcs == s.pcs && t.held == s.held && t.limbo == s.limbo
  {
    var t := Next(s, Grow(p, n));
    Prepend(t, Populate(p, v, f, data, w), []);
    Prepend(s, Grow(p, n), [Populate(p, v, f, data, w)] + []);
  }

  /** A free frame the kernel takes for itself and gives back is free again, and nothing else has changed. */
  lemma HeldFrameReturned(s: State, k: nat, f: nat)
    requires k !in s.held && f in s.free && f !in s.limbo
    ensures var path := [Hold(k, f)] + ([Drop(k)] + ([Push(f)] + []));
            CanRun(s, path) && Run(s, path) == s.(cnt := s.cnt[f := 0], content := s.content[f := FreedPage()])
  {
    HoldStep(s, k, f);
    DropStep(s, k, f);
    hide Enabled, Next;
    var t := Next(s, Hold(k, f));
    var u := Next(t, Drop(k));
    Prepend(u, Push(f), []);
    Prepend(t, Drop(k), [Push(f)] + []);
    Prepend(s, Hold(k, f), [Drop(k)] + ([Push(f)] + []));
  }

  lemma HoldStep(s: State, k: nat, f: nat)
    requires k !in s.held && f in s.free
    ensures Enabled(s, Hold(k, f))
    ensures Next(s, Hold(k, f)) == s.(free := s.free - {f}, cnt := s.cnt[f := 1], held := s.held[k := f])
  {
  }

  lemma DropStep(s: State, k: nat, f: nat)
    requires k !in s.held && f in s.free && f !in s.limbo
    ensures var t := s.(free := s.free - {f}, cnt := s.cnt[f := 1], held := s.held[k := f]);
            && Enabled(t, Drop(k)) && Enabled(Next(t, Drop(k)), Push(f))
            && Next(Next(t, Drop(k)), Push(f)) == s.(cnt := s.cnt[f := 0], content := s.content[f := FreedPage()])
  {
    var t := s.(free := s.free - {f}, cnt := s.cnt[f := 1], held := s.held[k := f]);
    var u := Next(t, Drop(k));
    assert t.cnt[f := 0] == s.cnt[f := 0];
    assert u == s.(free := s.free - {f}, cnt := s.cnt[f := 0], limbo := s.limbo + {f}) by {
      assert t.held - {k} == s.held;
    }
    assert s.free - {f} + {f} == s.free && s.limbo + {f} - {f} == s.limbo;
  }

  /** An idle process without pages can go, and its slot be used for a fork again. */
  lemma ExitFreesSlot(s: State, p: nat, q: nat)
    requires IsIdle(s, p) && IsIdle(s, q) && p != q && q in s.size && forall v :: Key(p, v) !in s.ptes
    ensures Enabled(s, Exit(p)) && Next(s, Exit(p)) == s.(pcs := s.pcs - {p})
    ensures Enabled(Next(s, Exit(p)), ForkStart(q, p))
  {
  }
}
