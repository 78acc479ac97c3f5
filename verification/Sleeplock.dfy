/**
 One sleep lock under any number of processes, step by step: acquiresleep, releasesleep and
 the sleep and wakeup they rest on, with kill waking sleepers at any time.
 */
module Sleeplock {
  import opened Wrappers

  /** Where a process is. "lk" is the inner spinlock, "p.lock" the process's own. */
  datatype Pc =
    | Idle
    | Wait              // acquiresleep: about to acquire lk (at first, or again after sleep)
    | Test              // holds lk, about to test locked
    | Doze              // sleep: holds lk, about to acquire p.lock
    | Drop              // holds lk and p.lock, about to release lk
    | Commit            // holds p.lock, about to become SLEEPING
    | Off               // SLEEPING set, its CPU still holds p.lock
    | Asleep            // switched away
    | Tidy              // running again with p.lock held
    | Got               // took the sleep lock, about to release lk
    | Hold
    | Free              // releasesleep: about to acquire lk
    | Clear             // holds lk, about to clear locked
    | Scan(i: nat)      // wakeup: holds lk, about to lock process i
    | Visit(i: nat)     // wakeup: holds lk and process i's lock
    | Done              // holds lk, about to release it

  datatype State = State(
    locked: bool, pid: nat, lk: Option<nat>,
    pc: seq<Pc>, plock: seq<Option<nat>>, sleeping: seq<bool>)   // sleeping: SLEEPING on this lock

  datatype Action = Step(p: nat) | Want(p: nat) | Give(p: nat) | Kill(q: nat)

  predicate Shape(s: State) { |s.plock| == |s.pc| && |s.sleeping| == |s.pc| }

  ghost predicate Enabled(s: State, a: Action)
    requires Shape(s)
  {
    match a
    case Want(p) => p < |s.pc| && s.pc[p].Idle?
    case Give(p) => p < |s.pc| && s.pc[p].Hold?
    case Kill(q) => q < |s.pc| && s.plock[q].None? && s.sleeping[q]
    case Step(p) =>
      && p < |s.pc|
      && match s.pc[p]
         case Idle => false
         case Hold => false
         case Wait => s.lk.None?
         case Free => s.lk.None?
         case Doze => s.plock[p].None?
         case Asleep => !s.sleeping[p] && s.plock[p].None?
         case Scan(i) => i < |s.pc| ==> s.plock[i].None?
         case _ => true
  }

  ghost function Next(s: State, a: Action): State
    requires Shape(s) && Enabled(s, a)
  {
    match a
    case Want(p) => s.(pc := s.pc[p := Wait])
    case Give(p) => s.(pc := s.pc[p := Free])
    case Kill(q) => s.(sleeping := s.sleeping[q := false])
    case Step(p) =>
      match s.pc[p]
      case Idle => s
      case Hold => s
      case Wait => s.(lk := Some(p), pc := s.pc[p := Test])
      case Test => if s.locked then s.(pc := s.pc[p := Doze]) else s.(locked := true, pid := p, pc := s.pc[p := Got])
      case Doze => s.(plock := s.plock[p := Some(p)], pc := s.pc[p := Drop])
      case Drop => s.(lk := None, pc := s.pc[p := Commit])
      case Commit => s.(sleeping := s.sleeping[p := true], pc := s.pc[p := Off])
      case Off => s.(plock := s.plock[p := None], pc := s.pc[p := Asleep])
      case Asleep => s.(plock := s.plock[p := Some(p)], pc := s.pc[p := Tidy])
      case Tidy => s.(plock := s.plock[p := None], pc := s.pc[p := Wait])
      case Got => s.(lk := None, pc := s.pc[p := Hold])
      case Free => s.(lk := Some(p), pc := s.pc[p := Clear])
      case Clear => s.(locked := false, pid := 0, pc := s.pc[p := Scan(0)])
      case Scan(i) =>
        if i >= |s.pc| then s.(pc := s.pc[p := Done])
        else s.(plock := s.plock[i := Some(p)], pc := s.pc[p := Visit(i)])
      case Visit(i) =>
        if i >= |s.pc| then s
        else s.(plock := s.plock[i := None], sleeping := s.sleeping[i := false], pc := s.pc[p := Scan(i + 1)])
      case Done => s.(lk := None, pc := s.pc[p := Idle])
  }

  function Boot(n: nat): State {
    State(false, 0, None, seq(n, _ => Idle), seq(n, _ => None), seq(n, _ => false))
  }

  // ----- the invariant -----

  /** The process has the sleep lock. */
  predicate Holds(pc: Pc) { pc.Got? || pc.Hold? || pc.Free? || pc.Clear? }

  /** The process has the inner spinlock. */
  predicate HoldsInner(pc: Pc) {
    pc.Test? || pc.Doze? || pc.Drop? || pc.Got? || pc.Clear? || pc.Scan? || pc.Visit? || pc.Done?
  }

  predicate HoldsOwn(pc: Pc) { pc.Drop? || pc.Commit? || pc.Off? || pc.Tidy? }

  /** Asleep on the lock, or past the point where it can still notice that it was released. */
  ghost predicate Committed(s: State, q: nat)
    requires Shape(s) && q < |s.pc|
  {
    s.pc[q].Commit? || s.sleeping[q]
  }

  ghost predicate HolderOk(s: State, p: nat)
    requires Shape(s)
  {
    p < |s.pc| ==>
      && (Holds(s.pc[p]) ==> s.locked && s.pid == p)
      && (HoldsInner(s.pc[p]) <==> s.lk == Some(p))
      && (s.pc[p].Doze? || s.pc[p].Drop? ==> s.locked)
      && (s.pc[p].Scan? || s.pc[p].Visit? || s.pc[p].Done? ==> !s.locked)
  }

  /** The holder of lk is visiting p in its wakeup. */
  ghost predicate Visited(s: State, p: nat) {
    s.lk.Some? && s.lk.value < |s.pc| && s.pc[s.lk.value] == Visit(p)
  }

  ghost predicate OwnLockOk(s: State, p: nat)
    requires Shape(s)
  {
    p < |s.pc| ==>
      && s.plock[p] == (if HoldsOwn(s.pc[p]) then Some(p) else if Visited(s, p) then s.lk else None)
      && !(HoldsOwn(s.pc[p]) && Visited(s, p))
  }

  ghost predicate SleepOk(s: State, p: nat)
    requires Shape(s)
  {
    p < |s.pc| ==> (s.sleeping[p] ==> s.pc[p].Off? || s.pc[p].Asleep?) && (s.pc[p].Visit? ==> s.pc[p].i < |s.pc|)
  }

  /** A committed sleeper on an unlocked lock has the releaser's scan still ahead of it. */
  ghost predicate WakeOk(s: State, q: nat)
    requires Shape(s)
  {
    q < |s.pc| && !s.locked && Committed(s, q) ==>
      && s.lk.Some? && s.lk.value < |s.pc|
      && (s.pc[s.lk.value].Scan? || s.pc[s.lk.value].Visit?) && s.pc[s.lk.value].i <= q
  }

  ghost predicate Inv(s: State) {
    && Shape(s) && (s.locked ==> s.pid < |s.pc| && Holds(s.pc[s.pid])) && (s.lk.Some? ==> s.lk.value < |s.pc|)
    && (forall p: nat :: HolderOk(s, p)) && (forall p: nat :: OwnLockOk(s, p)) && (forall p: nat :: SleepOk(s, p))
    && (forall q: nat :: WakeOk(s, q))
  }

  lemma StepHolder(s: State, a: Action, p: nat)
    requires Inv(s) && Enabled(s, a)
    ensures HolderOk(Next(s, a), p)
  {
    hide WakeOk, OwnLockOk, SleepOk;
    assert HolderOk(s, p);
    if !a.Kill? { assert HolderOk(s, a.p); }
  }

  lemma StepOwnSelf(s: State, a: Action, p: nat)
    requires Inv(s) && Enabled(s, a) && a == Step(p)
    ensures OwnLockOk(Next(s, a), p)
  {
    hide WakeOk, Holds, Committed;
    assert OwnLockOk(s, p) && HolderOk(s, p) && SleepOk(s, p);
  }

  lemma StepOwnOther(s: State, a: Action, p: nat)
    requires Inv(s) && Enabled(s, a) && a != Step(p)
    ensures OwnLockOk(Next(s, a), p)
  {
    hide WakeOk, Holds, Committed;
    assert OwnLockOk(s, p) && HolderOk(s, p);
    if a.Step? { assert HolderOk(s, a.p); }
  }

  lemma StepSleep(s: State, a: Action, p: nat)
    requires Inv(s) && Enabled(s, a)
    ensures SleepOk(Next(s, a), p)
  {
    hide WakeOk, HolderOk, OwnLockOk, Holds, HoldsInner;
    assert SleepOk(s, p);
    if a.Step? { assert SleepOk(s, a.p); }
  }

  lemma StepWake(s: State, a: Action, q: nat)
    requires Inv(s) && Enabled(s, a)
    ensures WakeOk(Next(s, a), q)
  {
    assert WakeOk(s, q) && HolderOk(s, q) && OwnLockOk(s, q) && SleepOk(s, q);
    if s.lk.Some? { assert HolderOk(s, s.lk.value); }
    if a.Step? { assert HolderOk(s, a.p) && OwnLockOk(s, a.p); }
  }

  lemma StepInv(s: State, a: Action)
    requires Inv(s) && Enabled(s, a)
    ensures Inv(Next(s, a))
  {
    hide WakeOk, OwnLockOk, SleepOk;
    forall p: nat ensures HolderOk(Next(s, a), p) { StepHolder(s, a, p); }
    forall p: nat ensures OwnLockOk(Next(s, a), p) {
      if a == Step(p) { StepOwnSelf(s, a, p); } else { StepOwnOther(s, a, p); }
    }
    forall p: nat ensures SleepOk(Next(s, a), p) { StepSleep(s, a, p); }
    forall q: nat ensures WakeOk(Next(s, a), q) { StepWake(s, a, q); }
    if !a.Kill? { assert HolderOk(s, a.p); }
  }

  // ----- all runs -----

  ghost function After(s: State, run: seq<Action>): (r: Option<State>)
    requires Shape(s)
    ensures r.Some? ==> Shape(r.value)
  {
    if run == [] then Some(s)
    else
      var before := After(s, run[..|run| - 1]);
      if before.Some? && Enabled(before.value, run[|run| - 1]) then Some(Next(before.value, run[|run| - 1])) else None
  }

  lemma {:induction false} RunInv(n: nat, run: seq<Action>)
    requires After(Boot(n), run).Some?
    ensures Inv(After(Boot(n), run).value)
  {
    hide Enabled, Next, Inv;
    BootInv(n);
    if run != [] {
      RunInv(n, run[..|run| - 1]);
      StepInv(After(Boot(n), run[..|run| - 1]).value, run[|run| - 1]);
    }
  }

  lemma BootInv(n: nat)
    ensures Inv(Boot(n))
  {
  }

  /** At most one process has the sleep lock, and it is the one the lock names. */
  lemma MutualExclusion(n: nat, run: seq<Action>, s: State, p: nat, q: nat)
    requires After(Boot(n), run) == Some(s) && p < |s.pc| && q < |s.pc| && Holds(s.pc[p]) && Holds(s.pc[q])
    ensures p == q && s.locked && s.pid == p
  {
    hide Boot, After, WakeOk;
    RunInv(n, run);
    assert HolderOk(s, p) && HolderOk(s, q);
  }

  /** While the inner spinlock is free, nobody sleeps, or is committed to sleep, on an unlocked lock. */
  lemma NoLostWakeup(n: nat, run: seq<Action>, s: State, q: nat)
    requires After(Boot(n), run) == Some(s) && Shape(s) && q < |s.pc| && s.lk.None? && !s.locked
    ensures !Committed(s, q)
  {
    hide Boot, After;
    RunInv(n, run);
    assert WakeOk(s, q);
  }
}
