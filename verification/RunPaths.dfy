/**
 What the steps of RunState achieve: in every reachable state, each operation of the kernel
 can be carried through, and this is exactly the state it ends in.
 */
module RunPaths {
  import opened Wrappers
  import opened RunState

  /** One step more. */
  ghost predicate Takes(s: State, a: Action, t: State) { Shape(s) && Enabled(s, a) && t == Next(s, a) }

  lemma {:induction false} Onward(b: State, run: seq<Action>, path: seq<Action>)
    requires Shape(b) && After(b, run).Some? && After(After(b, run).value, path).Some?
    ensures After(b, run + path) == After(After(b, run).value, path)
    decreases |path|
  {
    hide Enabled, Next;
    if path == [] {
      assert run + path == run;
    } else {
      var n := |path| - 1;
      Onward(b, run, path[..n]);
      assert (run + path)[..|run + path| - 1] == run + path[..n];
    }
  }

  lemma Two(s: State, a: Action, t: State, b: Action, u: State)
    requires Takes(s, a, t) && Takes(t, b, u)
    ensures After(s, [a, b]) == Some(u)
  {
    hide Enabled, Next;
    Extend(s, [], a);
    assert [] + [a] == [a];
    Extend(s, [a], b);
    assert [a] + [b] == [a, b];
  }

  lemma Three(s: State, a: Action, t: State, b: Action, u: State, c: Action, v: State)
    requires Takes(s, a, t) && Takes(t, b, u) && Takes(u, c, v)
    ensures After(s, [a, b, c]) == Some(v)
  {
    hide Enabled, Next;
    Two(s, a, t, b, u);
    Extend(s, [a, b], c);
    assert [a, b] + [c] == [a, b, c];
  }

  lemma Four(s: State, a: Action, t: State, b: Action, u: State, c: Action, v: State, d: Action, w: State)
    requires Takes(s, a, t) && Takes(t, b, u) && Takes(u, c, v) && Takes(v, d, w)
    ensures After(s, [a, b, c, d]) == Some(w)
  {
    hide Enabled, Next;
    Three(s, a, t, b, u, c, v);
    Extend(s, [a, b, c], d);
    assert [a, b, c] + [d] == [a, b, c, d];
  }

  /** The invariant, at a process being run. */
  lemma Current(s: State, c: nat)
    requires Inv(s) && c < |s.pc| && s.pc[c].On?
    ensures s.irq[c].Quiet? && s.pc[c].p < |s.state| && s.state[s.pc[c].p].Running?
  {
    assert CpuOk(s, c) && IrqOk(s, c) && RunOk(s, s.pc[c].p);
  }

  /** What another process can do to q, between taking and releasing its lock. */
  ghost function Locked(s: State, c: nat, q: nat): State
    requires q < |s.lock|
  {
    s.(lock := s.lock[q := Some(c)])
  }

  lemma AcquireStep(s: State, c: nat, q: nat)
    requires Shape(s) && c < |s.pc| && s.pc[c].On? && s.irq[c].Quiet? && q < |s.state| && s.lock[q].None?
    ensures Takes(s, Acquire(c, q), Locked(s, c, q))
  {
  }

  lemma RunnableStep(s: State, c: nat, q: nat, a: Action)
    requires Shape(s) && c < |s.pc| && s.pc[c].On? && s.irq[c].Quiet? && s.pc[c].p < |s.state| && q < |s.state|
    requires s.lock[q] == Some(c)
    requires || (a == Wake(c, q) && s.state[q].Sleeping?) || (a == Spawn(c, q) && s.state[q].Unused?)
             || (a == Yield(c) && q == s.pc[c].p)
    ensures var pending := s.pc[c := Pending(s.pc[c].p, q)];
            Takes(s, a, s.(state := s.state[q := Runnable], pc := pending, place := s.place[q := Due(c)]))
  {
  }

  lemma EnqueueStep(s: State, c: nat, p: nat, q: nat)
    requires Shape(s) && c < |s.pc| && s.pc[c] == Pending(p, q) && s.irq[c].Quiet? && q < |s.state|
    ensures var pc := s.pc[c := if q == p then Off(p) else On(p)];
            Takes(s, Enqueue(c), s.(queue := s.queue + {q}, place := s.place[q := Queued], pc := pc))
  {
  }

  lemma ReleaseStep(s: State, c: nat, q: nat)
    requires Shape(s) && c < |s.pc| && s.pc[c].On? && s.irq[c].Quiet? && q < |s.state| && s.lock[q] == Some(c)
    ensures Takes(s, Release(c, q), s.(lock := s.lock[q := None]))
  {
  }

  lemma RousePath(s: State, c: nat, q: nat, a: Action)
    requires Inv(s) && c < |s.pc| && s.pc[c].On? && q < |s.state| && s.lock[q].None?
    requires (a == Wake(c, q) && s.state[q].Sleeping?) || (a == Spawn(c, q) && s.state[q].Unused?)
    ensures After(s, [Acquire(c, q), a, Enqueue(c), Release(c, q)]) ==
            Some(s.(state := s.state[q := Runnable], queue := s.queue + {q}, place := s.place[q := Queued]))
  {
    Current(s, c);
    hide Inv, Takes, Enabled, Next;
    var p := s.pc[c].p;
    var t := Locked(s, c, q);
    AcquireStep(s, c, q);
    var u := t.(state := s.state[q := Runnable], pc := s.pc[c := Pending(p, q)], place := s.place[q := Due(c)]);
    RunnableStep(t, c, q, a);
    var v := u.(queue := s.queue + {q}, place := u.place[q := Queued], pc := u.pc[c := On(p)]);
    EnqueueStep(u, c, p, q);
    var w := v.(lock := v.lock[q := None]);
    ReleaseStep(v, c, q);
    assert w.pc == s.pc && w.lock == s.lock && w.place == s.place[q := Queued];
    Four(s, Acquire(c, q), t, a, u, Enqueue(c), v, Release(c, q), w);
  }

  /** The reachable state s, after some more steps. */
  ghost function Then(procs: nat, cpus: nat, run: seq<Action>, path: seq<Action>): Option<State> {
    BootShape(procs, cpus);
    After(Boot(procs, cpus), run + path)
  }

  lemma Reached(procs: nat, cpus: nat, run: seq<Action>, s: State, path: seq<Action>)
    requires After(Boot(procs, cpus), run) == Some(s) && Shape(s) && After(s, path).Some?
    ensures Then(procs, cpus, run, path) == After(s, path)
  {
    hide After, Boot;
    BootShape(procs, cpus);
    Onward(Boot(procs, cpus), run, path);
  }

  /** wakeup and kill: a running process can make any sleeper whose lock is free RUNNABLE, and queue it. */
  lemma ProcessWakes(procs: nat, cpus: nat, run: seq<Action>, s: State, c: nat, q: nat)
    requires After(Boot(procs, cpus), run) == Some(s) && Shape(s) && c < |s.pc| && s.pc[c].On?
    requires q < |s.state| && s.state[q].Sleeping? && s.lock[q].None?
    ensures var r := Then(procs, cpus, run, [Acquire(c, q), Wake(c, q), Enqueue(c), Release(c, q)]);
            && r.Some? && r.value.state == s.state[q := Runnable] && r.value.queue == s.queue + {q}
            && r.value.lock == s.lock && r.value.pc == s.pc
  {
    hide After, Boot;
    RunInv(procs, cpus, run);
    RousePath(s, c, q, Wake(c, q));
    Reached(procs, cpus, run, s, [Acquire(c, q), Wake(c, q), Enqueue(c), Release(c, q)]);
  }

  /** fork: a running process can make any unused slot whose lock is free a RUNNABLE process, and queue it. */
  lemma ForkStarts(procs: nat, cpus: nat, run: seq<Action>, s: State, c: nat, q: nat)
    requires After(Boot(procs, cpus), run) == Some(s) && Shape(s) && c < |s.pc| && s.pc[c].On?
    requires q < |s.state| && s.state[q].Unused? && s.lock[q].None?
    ensures var r := Then(procs, cpus, run, [Acquire(c, q), Spawn(c, q), Enqueue(c), Release(c, q)]);
            && r.Some? && r.value.state == s.state[q := Runnable] && r.value.queue == s.queue + {q}
            && r.value.lock == s.lock && r.value.pc == s.pc
  {
    hide After, Boot;
    RunInv(procs, cpus, run);
    RousePath(s, c, q, Spawn(c, q));
    Reached(procs, cpus, run, s, [Acquire(c, q), Spawn(c, q), Enqueue(c), Release(c, q)]);
  }

  lemma RunPath(s: State, c: nat, q: nat)
    requires Inv(s) && c < |s.pc| && s.pc[c].Sched? && s.irq[c].Quiet? && q in s.queue
    requires q < |s.state| ==> s.lock[q].None?
    ensures q < |s.state| && After(s, [Pick(c, q), TakeLock(c)]).Some?
    ensures var r := After(s, [Pick(c, q), TakeLock(c)]).value;
            && r.state == s.state[q := Running] && r.queue == s.queue - {q} && r.lock == s.lock[q := Some(c)]
            && r.pc == s.pc[c := On(q)] && r.irq == s.irq
  {
    assert DutyOk(s, q);
    hide Inv;
    var t := Next(s, Pick(c, q));
    Two(s, Pick(c, q), t, TakeLock(c), Next(t, TakeLock(c)));
  }

  /** The scheduler: a CPU with nothing to do can run any queued process whose lock is free. */
  lemma SchedulerRuns(procs: nat, cpus: nat, run: seq<Action>, s: State, c: nat, q: nat)
    requires After(Boot(procs, cpus), run) == Some(s) && Shape(s) && c < |s.pc| && s.pc[c].Sched? && s.irq[c].Quiet?
    requires q in s.queue && (q < |s.state| ==> s.lock[q].None?)
    ensures q < |s.state|
    ensures var r := Then(procs, cpus, run, [Pick(c, q), TakeLock(c)]);
            && r.Some? && r.value.state == s.state[q := Running] && r.value.queue == s.queue - {q}
            && r.value.lock == s.lock[q := Some(c)] && r.value.pc == s.pc[c := On(q)]
  {
    hide After, Boot;
    RunInv(procs, cpus, run);
    RunPath(s, c, q);
    Reached(procs, cpus, run, s, [Pick(c, q), TakeLock(c)]);
  }

  /** CPU c runs a process, whose lock is free, and has no other. */
  ghost predicate Unencumbered(s: State, c: nat) {
    && Shape(s) && c < |s.pc| && s.pc[c].On? && s.pc[c].p < |s.state| && s.lock[s.pc[c].p].None?
    && forall q :: 0 <= q < |s.lock| ==> s.lock[q] != Some(c)
  }

  /** The way out of a process, once its new state is set and its lock held. */
  lemma LeavePath(s: State, c: nat, p: nat)
    requires Shape(s) && c < |s.pc| && s.pc[c] == Off(p) && p < |s.state| && s.irq[c].Quiet? && OnlyLock(s, c, p)
    ensures After(s, [Switch(c), Return(c)]) ==
            Some(s.(lock := s.lock[p := None], pc := s.pc[c := Sched], runner := s.runner[p := None]))
  {
    var t := Next(s, Switch(c));
    Two(s, Switch(c), t, Return(c), Next(t, Return(c)));
    assert t.pc[c := Sched] == s.pc[c := Sched];
  }

  lemma LeaveAfter(s: State, path: seq<Action>, u: State, c: nat, p: nat)
    requires Shape(s) && After(s, path) == Some(u)
    requires c < |u.pc| && u.pc[c] == Off(p) && p < |u.state| && u.irq[c].Quiet? && OnlyLock(u, c, p) && Shape(u)
    ensures After(s, path + [Switch(c), Return(c)]) ==
            Some(u.(lock := u.lock[p := None], pc := u.pc[c := Sched], runner := u.runner[p := None]))
  {
    hide After;
    LeavePath(u, c, p);
    Onward(s, path, [Switch(c), Return(c)]);
  }

  lemma StopStep(s: State, c: nat, a: Action)
    requires Shape(s) && c < |s.pc| && s.pc[c].On? && s.irq[c].Quiet? && s.pc[c].p < |s.state|
    requires s.lock[s.pc[c].p] == Some(c) && (a == Sleep(c) || a == Exit(c))
    ensures var p := s.pc[c].p;
            var to := if a.Sleep? then Sleeping else Zombie;
            Takes(s, a, s.(state := s.state[p := to], pc := s.pc[c := Off(p)]))
  {
  }

  /** What sleep and exit make of the process they are called by. */
  ghost function Stopped(s: State, c: nat, p: nat, to: PState): State
    requires Shape(s) && c < |s.pc| && p < |s.state|
  {
    s.(state := s.state[p := to], pc := s.pc[c := Sched], runner := s.runner[p := None])
  }

  lemma StopPath(s: State, c: nat, a: Action)
    requires Inv(s) && Unencumbered(s, c) && (a == Sleep(c) || a == Exit(c))
    ensures var p := s.pc[c].p;
            After(s, [Acquire(c, p), a, Switch(c), Return(c)]) ==
              Some(Stopped(s, c, p, if a.Sleep? then Sleeping else Zombie))
  {
    Current(s, c);
    hide Inv, Takes, Enabled, Next, After;
    var p := s.pc[c].p;
    var t := Locked(s, c, p);
    AcquireStep(s, c, p);
    var u := t.(state := s.state[p := if a.Sleep? then Sleeping else Zombie], pc := s.pc[c := Off(p)]);
    StopStep(t, c, a);
    Two(s, Acquire(c, p), t, a, u);
    LeaveAfter(s, [Acquire(c, p), a], u, c, p);
    assert [Acquire(c, p), a] + [Switch(c), Return(c)] == [Acquire(c, p), a, Switch(c), Return(c)];
    assert u.lock[p := None] == s.lock && u.pc[c := Sched] == s.pc[c := Sched];
  }

  /** sleep: the process ends SLEEPING and off the queue, its lock free and its CPU back in the scheduler. */
  lemma SleepStops(procs: nat, cpus: nat, run: seq<Action>, s: State, c: nat)
    requires After(Boot(procs, cpus), run) == Some(s) && Unencumbered(s, c)
    ensures var p := s.pc[c].p;
            Then(procs, cpus, run, [Acquire(c, p), Sleep(c), Switch(c), Return(c)]) == Some(Stopped(s, c, p, Sleeping))
    ensures s.pc[c].p !in s.queue
  {
    hide After, Boot;
    RunInv(procs, cpus, run);
    NotQueued(s, c);
    StopPath(s, c, Sleep(c));
    Reached(procs, cpus, run, s, [Acquire(c, s.pc[c].p), Sleep(c), Switch(c), Return(c)]);
  }

  /** exit: likewise, a ZOMBIE. */
  lemma ExitStops(procs: nat, cpus: nat, run: seq<Action>, s: State, c: nat)
    requires After(Boot(procs, cpus), run) == Some(s) && Unencumbered(s, c)
    ensures var p := s.pc[c].p;
            Then(procs, cpus, run, [Acquire(c, p), Exit(c), Switch(c), Return(c)]) == Some(Stopped(s, c, p, Zombie))
    ensures s.pc[c].p !in s.queue
  {
    hide After, Boot;
    RunInv(procs, cpus, run);
    NotQueued(s, c);
    StopPath(s, c, Exit(c));
    Reached(procs, cpus, run, s, [Acquire(c, s.pc[c].p), Exit(c), Switch(c), Return(c)]);
  }

  lemma NotQueued(s: State, c: nat)
    requires Inv(s) && c < |s.pc| && s.pc[c].On?
    ensures s.pc[c].p !in s.queue
  {
    Current(s, c);
    assert DutyOk(s, s.pc[c].p);
  }

  lemma YieldPath(s: State, c: nat)
    requires Inv(s) && Unencumbered(s, c)
    ensures var p := s.pc[c].p;
            After(s, [Acquire(c, p), Yield(c), Enqueue(c), Switch(c), Return(c)]) ==
              Some(Stopped(s, c, p, Runnable).(queue := s.queue + {p}, place := s.place[p := Queued]))
  {
    Current(s, c);
    hide Inv, Takes, Enabled, Next, After;
    var p := s.pc[c].p;
    var t := Locked(s, c, p);
    AcquireStep(s, c, p);
    var u := t.(state := s.state[p := Runnable], pc := s.pc[c := Pending(p, p)], place := s.place[p := Due(c)]);
    RunnableStep(t, c, p, Yield(c));
    var v := u.(queue := s.queue + {p}, place := u.place[p := Queued], pc := u.pc[c := Off(p)]);
    EnqueueStep(u, c, p, p);
    assert v.place == s.place[p := Queued] && OnlyLock(v, c, p);
    Three(s, Acquire(c, p), t, Yield(c), u, Enqueue(c), v);
    LeaveAfter(s, [Acquire(c, p), Yield(c), Enqueue(c)], v, c, p);
    assert [Acquire(c, p), Yield(c), Enqueue(c)] + [Switch(c), Return(c)] ==
           [Acquire(c, p), Yield(c), Enqueue(c), Switch(c), Return(c)];
    assert v.lock[p := None] == s.lock && v.pc[c := Sched] == s.pc[c := Sched];
  }

  /** yield: the process ends RUNNABLE and queued, its lock free and its CPU back in the scheduler. */
  lemma YieldQueues(procs: nat, cpus: nat, run: seq<Action>, s: State, c: nat)
    requires After(Boot(procs, cpus), run) == Some(s) && Unencumbered(s, c)
    ensures var p := s.pc[c].p;
            var r := Then(procs, cpus, run, [Acquire(c, p), Yield(c), Enqueue(c), Switch(c), Return(c)]);
            && r.Some? && r.value.state == s.state[p := Runnable] && r.value.queue == s.queue + {p}
            && r.value.lock == s.lock && r.value.pc == s.pc[c := Sched]
  {
    hide After, Boot;
    RunInv(procs, cpus, run);
    YieldPath(s, c);
    Reached(procs, cpus, run, s, [Acquire(c, s.pc[c].p), Yield(c), Enqueue(c), Switch(c), Return(c)]);
  }

  lemma ReapPath(s: State, c: nat, q: nat)
    requires Inv(s) && c < |s.pc| && s.pc[c].On? && q < |s.state| && s.state[q].Zombie? && s.lock[q].None?
    ensures After(s, [Acquire(c, q), Reap(c, q), Release(c, q)]) == Some(s.(state := s.state[q := Unused]))
  {
    Current(s, c);
    assert DutyOk(s, q);
    hide Inv;
    var t := Locked(s, c, q);
    var u := Next(t, Reap(c, q));
    var v := Next(u, Release(c, q));
    assert v.lock == s.lock && v.queue == s.queue;
    Three(s, Acquire(c, q), t, Reap(c, q), u, Release(c, q), v);
  }

  /** wait: a running process can free the slot of any zombie whose lock is free, and nothing else changes. */
  lemma WaitReaps(procs: nat, cpus: nat, run: seq<Action>, s: State, c: nat, q: nat)
    requires After(Boot(procs, cpus), run) == Some(s) && Shape(s) && c < |s.pc| && s.pc[c].On?
    requires q < |s.state| && s.state[q].Zombie? && s.lock[q].None?
    ensures Then(procs, cpus, run, [Acquire(c, q), Reap(c, q), Release(c, q)]) ==
            Some(s.(state := s.state[q := Unused]))
  {
    hide After, Boot;
    RunInv(procs, cpus, run);
    ReapPath(s, c, q);
    Reached(procs, cpus, run, s, [Acquire(c, q), Reap(c, q), Release(c, q)]);
  }
}
