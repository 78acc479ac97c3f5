/**
 What the steps of Sleeplock achieve: in every reachable state in which the locks it needs are
 free, acquiresleep takes a free lock or goes to sleep on a held one, releasesleep wakes every
 sleeper, and a sleeper that was woken asks again.
 */
module SleepPaths {
  import opened Wrappers
  import opened Sleeplock

  /** k steps of process p, one after another. */
  function Steps(p: nat, k: nat): seq<Action> { seq(k, _ => Step(p)) }

  lemma {:induction false} Onward(b: State, run: seq<Action>, path: seq<Action>)
    requires Shape(b) && After(b, run).Some? && After(After(b, run).value, path).Some?
    ensures After(b, run + path) == After(After(b, run).value, path)
    decreases |path|
  {
    hide Enabled, Next;
    if path == [] {
      assert run + path == run;
    } else {
      var n := |path| - 1;
      Onward(b, run, path[..n]);
      assert (run + path)[..|run + path| - 1] == run + path[..n];
    }
  }

  lemma One(s: State, a: Action)
    requires Shape(s) && Enabled(s, a)
    ensures After(s, [a]) == Some(Next(s, a))
  {
    assert [a][..0] == [];
    assert After(s, []) == Some(s);
  }

  lemma First(s: State, a: Action, t: State, path: seq<Action>)
    requires Shape(s) && Enabled(s, a) && t == Next(s, a) && Shape(t) && After(t, path).Some?
    ensures After(s, [a] + path) == After(t, path)
  {
    hide Enabled, Next, After;
    One(s, a);
    Onward(s, [a], path);
  }

  lemma Walk(s: State, p: nat, t: State, k: nat)
    requires Shape(s) && Enabled(s, Step(p)) && t == Next(s, Step(p)) && Shape(t) && After(t, Steps(p, k)).Some?
    ensures After(s, Steps(p, k + 1)) == After(t, Steps(p, k))
  {
    hide Enabled, Next, After;
    First(s, Step(p), t, Steps(p, k));
    assert [Step(p)] + Steps(p, k) == Steps(p, k + 1);
  }

  lemma Nowhere(s: State, p: nat)
    requires Shape(s)
    ensures After(s, Steps(p, 0)) == Some(s)
  {
  }

  /** The state s of some run from boot, after some more steps. */
  ghost function Then(n: nat, run: seq<Action>, path: seq<Action>): Option<State> { After(Boot(n), run + path) }

  lemma Reached(n: nat, run: seq<Action>, s: State, path: seq<Action>)
    requires After(Boot(n), run) == Some(s) && Shape(s) && After(s, path).Some?
    ensures Then(n, run, path) == After(s, path)
  {
    hide After;
    Onward(Boot(n), run, path);
  }

  // ----- acquiresleep -----

  lemma TakePath(s: State, p: nat)
    requires Shape(s) && p < |s.pc| && s.pc[p].Wait? && s.lk.None? && !s.locked
    ensures After(s, Steps(p, 3)) == Some(s.(locked := true, pid := p, pc := s.pc[p := Hold]))
  {
    hide After;
    var a := Next(s, Step(p));
    var b := Next(a, Step(p));
    var c := Next(b, Step(p));
    assert c == s.(locked := true, pid := p, pc := s.pc[p := Hold]);
    Nowhere(c, p);
    Walk(b, p, c, 0);
    Walk(a, p, b, 1);
    Walk(s, p, a, 2);
  }

  /** acquiresleep of a free lock takes it, and names the process. */
  lemma FreeLockTaken(n: nat, run: seq<Action>, s: State, p: nat)
    requires After(Boot(n), run) == Some(s) && p < |s.pc| && s.pc[p].Idle? && s.lk.None? && !s.locked
    ensures Then(n, run, [Want(p)] + Steps(p, 3)) == Some(s.(locked := true, pid := p, pc := s.pc[p := Hold]))
  {
    hide After;
    RunInv(n, run);
    var t := Next(s, Want(p));
    TakePath(t, p);
    First(s, Want(p), t, Steps(p, 3));
    assert t.pc[p := Hold] == s.pc[p := Hold];
    Reached(n, run, s, [Want(p)] + Steps(p, 3));
  }

  /** The second half of going to sleep, from the point of no return. */
  lemma CommitPath(s: State, p: nat)
    requires Shape(s) && p < |s.pc| && s.pc[p].Commit? && s.plock[p] == Some(p)
    ensures After(s, Steps(p, 2)) ==
            Some(s.(plock := s.plock[p := None], sleeping := s.sleeping[p := true], pc := s.pc[p := Asleep]))
  {
    hide After;
    var a := Next(s, Step(p));
    var b := Next(a, Step(p));
    Nowhere(b, p);
    Walk(a, p, b, 0);
    Walk(s, p, a, 1);
    assert b.pc == s.pc[p := Asleep];
  }

  lemma DozePath(s: State, p: nat)
    requires Shape(s) && p < |s.pc| && s.pc[p].Doze? && s.plock[p].None?
    ensures After(s, Steps(p, 4)) == Some(s.(lk := None, sleeping := s.sleeping[p := true], pc := s.pc[p := Asleep]))
  {
    hide After;
    var a := Next(s, Step(p));
    var b := Next(a, Step(p));
    CommitPath(b, p);
    Walk(a, p, b, 2);
    Walk(s, p, a, 3);
    assert b.plock[p := None] == s.plock && b.pc[p := Asleep] == s.pc[p := Asleep];
  }

  lemma SleepPath(s: State, p: nat)
    requires Shape(s) && p < |s.pc| && s.pc[p].Wait? && s.lk.None? && s.locked && s.plock[p].None?
    ensures After(s, Steps(p, 6)) == Some(s.(sleeping := s.sleeping[p := true], pc := s.pc[p := Asleep]))
  {
    hide After;
    var a := Next(s, Step(p));
    var b := Next(a, Step(p));
    DozePath(b, p);
    Walk(a, p, b, 4);
    Walk(s, p, a, 5);
    assert b.pc[p := Asleep] == s.pc[p := Asleep];
  }

  /** acquiresleep of a held lock puts the process to sleep and leaves every lock as it was. */
  lemma HeldLockSleeps(n: nat, run: seq<Action>, s: State, p: nat)
    requires After(Boot(n), run) == Some(s) && Shape(s) && p < |s.pc| && s.pc[p].Idle? && s.lk.None? && s.locked
    requires s.plock[p].None?
    ensures Then(n, run, [Want(p)] + Steps(p, 6)) ==
            Some(s.(sleeping := s.sleeping[p := true], pc := s.pc[p := Asleep]))
  {
    hide After;
    var t := Next(s, Want(p));
    SleepPath(t, p);
    First(s, Want(p), t, Steps(p, 6));
    assert t.pc[p := Asleep] == s.pc[p := Asleep];
    Reached(n, run, s, [Want(p)] + Steps(p, 6));
  }

  /** A sleeper that was woken, by releasesleep or by kill, is about to ask for the lock again. */
  lemma WokenAsksAgain(n: nat, run: seq<Action>, s: State, p: nat)
    requires After(Boot(n), run) == Some(s) && Shape(s) && p < |s.pc| && s.pc[p].Asleep? && !s.sleeping[p]
    requires s.plock[p].None?
    ensures Then(n, run, Steps(p, 2)) == Some(s.(pc := s.pc[p := Wait]))
  {
    hide After;
    var a := Next(s, Step(p));
    var b := Next(a, Step(p));
    Nowhere(b, p);
    Walk(a, p, b, 0);
    Walk(s, p, a, 1);
    assert b.pc == s.pc[p := Wait] && b.plock == s.plock;
    Reached(n, run, s, Steps(p, 2));
  }

  /** kill wakes a sleeper. */
  lemma KillWakes(n: nat, run: seq<Action>, s: State, q: nat)
    requires After(Boot(n), run) == Some(s) && Shape(s) && q < |s.pc| && s.sleeping[q] && s.plock[q].None?
    ensures Then(n, run, [Kill(q)]) == Some(s.(sleeping := s.sleeping[q := false]))
  {
    hide After;
    One(s, Kill(q));
    Reached(n, run, s, [Kill(q)]);
  }

  // ----- releasesleep -----

  ghost predicate NoneLocked(s: State) { forall i :: 0 <= i < |s.plock| ==> s.plock[i].None? }

  /** The sleepers after a scan of the processes from i on. */
  function Awake(sleeping: seq<bool>, i: nat): seq<bool> {
    seq(|sleeping|, k requires 0 <= k < |sleeping| => sleeping[k] && k < i)
  }

  lemma VisitStep(s: State, p: nat, i: nat)
    requires Shape(s) && p < |s.pc| && s.pc[p] == Scan(i) && i < |s.pc| && NoneLocked(s)
    ensures var a := Next(s, Step(p));
            && Enabled(s, Step(p)) && Shape(a) && Enabled(a, Step(p))
            && Next(a, Step(p)) == s.(sleeping := s.sleeping[i := false], pc := s.pc[p := Scan(i + 1)])
  {
    var a := Next(s, Step(p));
    assert a.plock[i := None] == s.plock && a.pc[p := Scan(i + 1)] == s.pc[p := Scan(i + 1)];
  }

  lemma {:induction false} ScanPath(s: State, p: nat, i: nat)
    requires Shape(s) && p < |s.pc| && s.pc[p] == Scan(i) && i <= |s.pc| && s.lk == Some(p) && NoneLocked(s)
    ensures After(s, Steps(p, 2 * (|s.pc| - i) + 2)) ==
            Some(s.(lk := None, sleeping := Awake(s.sleeping, i), pc := s.pc[p := Idle]))
    decreases |s.pc| - i
  {
    hide After;
    if i == |s.pc| {
      var a := Next(s, Step(p));
      var b := Next(a, Step(p));
      Nowhere(b, p);
      Walk(a, p, b, 0);
      Walk(s, p, a, 1);
      assert b.pc == s.pc[p := Idle] && Awake(s.sleeping, i) == s.sleeping;
    } else {
      VisitStep(s, p, i);
      var a := Next(s, Step(p));
      var b := Next(a, Step(p));
      ScanPath(b, p, i + 1);
      hide Enabled, Next;
      Walk(a, p, b, 2 * (|s.pc| - i - 1) + 2);
      Walk(s, p, a, 2 * (|s.pc| - i - 1) + 3);
      assert Awake(b.sleeping, i + 1) == Awake(s.sleeping, i) && b.pc[p := Idle] == s.pc[p := Idle];
    }
  }

  /** releasesleep frees the lock and wakes everyone who sleeps on it. */
  lemma ReleaseWakesAll(n: nat, run: seq<Action>, s: State, p: nat)
    requires After(Boot(n), run) == Some(s) && Shape(s) && p < |s.pc| && s.pc[p].Hold? && s.lk.None? && NoneLocked(s)
    ensures Then(n, run, [Give(p)] + Steps(p, 2 * |s.pc| + 4)) ==
            Some(s.(locked := false, pid := 0, sleeping := seq(|s.pc|, _ => false), pc := s.pc[p := Idle]))
  {
    hide After;
    var t := Next(s, Give(p));
    var a := Next(t, Step(p));
    var b := Next(a, Step(p));
    ScanPath(b, p, 0);
    assert Awake(b.sleeping, 0) == seq(|s.pc|, _ => false) && b.pc[p := Idle] == s.pc[p := Idle];
    Walk(a, p, b, 2 * |s.pc| + 2);
    Walk(t, p, a, 2 * |s.pc| + 3);
    First(s, Give(p), t, Steps(p, 2 * |s.pc| + 4));
    Reached(n, run, s, [Give(p)] + Steps(p, 2 * |s.pc| + 4));
  }
}
