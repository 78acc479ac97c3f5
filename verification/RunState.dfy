/**
 The hand-off of processes between CPUs: scheduler, yield, sleep, wakeup, kill, fork, exit
 and wait, one step per lock section, over any number of CPUs and processes.
 */
module RunState {
  import opened Wrappers

  datatype PState = Unused | Sleeping | Runnable | Running | Zombie

  /** What a CPU is doing: in the scheduler, between pick and lock, or in process p's kernel code. */
  datatype Pc =
    | Sched
    | Picked(p: nat)              // taken off the queue, p->lock not yet acquired
    | Refused(p: nat)             // found not RUNNABLE, about to be put back
    | On(p: nat)                  // running p
    | Pending(p: nat, q: nat)     // running p, has made q RUNNABLE and not yet queued it
    | Off(p: nat)                 // p's state is changed, sched is next
    | Leaving(p: nat)             // back in the scheduler, p->lock still held

  /** A wakeup by an interrupt handler on a CPU that was in the scheduler, one process at a time. */
  datatype Irq =
    | Quiet
    | Holds(q: nat)               // has q->lock
    | Owes(q: nat)                // has q->lock, has made q RUNNABLE and not yet queued it

  /** Which scheduling duty a RUNNABLE process is under (history). */
  datatype Place = Nowhere | Queued | At(c: nat) | Due(c: nat) | Owed(c: nat)

  datatype State = State(
    state: seq<PState>, lock: seq<Option<nat>>, pc: seq<Pc>, irq: seq<Irq>, queue: set<nat>,
    place: seq<Place>, runner: seq<Option<nat>>)   // history: duty, and the CPU whose current process it is

  datatype Action =
    | Pick(c: nat, q: nat) | TakeLock(c: nat) | Requeue(c: nat)
    | Acquire(c: nat, q: nat) | Release(c: nat, q: nat)
    | Wake(c: nat, q: nat) | Spawn(c: nat, q: nat) | Yield(c: nat) | Enqueue(c: nat)
    | Sleep(c: nat) | Exit(c: nat) | Reap(c: nat, q: nat)
    | Switch(c: nat) | Return(c: nat)
    | IrqLock(c: nat, q: nat) | IrqWake(c: nat) | IrqQueue(c: nat) | IrqUnlock(c: nat)

  predicate Shape(s: State) {
    |s.lock| == |s.state| && |s.place| == |s.state| && |s.runner| == |s.state| && |s.irq| == |s.pc|
  }

  predicate RunsAt(pc: Pc, p: nat) {
    (pc.On? || pc.Pending? || pc.Off? || pc.Leaving?) && pc.p == p
  }

  ghost predicate Mine(s: State, c: nat, q: nat) {
    c < |s.pc| && s.pc[c].On? && s.pc[c].p < |s.state| && q < |s.state| && q < |s.lock| && s.lock[q] == Some(c)
  }

  /** The scheduler runs with interrupts on, except while it has a lock. */
  predicate Interruptible(pc: Pc) { pc.Sched? || pc.Picked? || pc.Refused? }

  ghost predicate Enabled(s: State, a: Action)
    requires Shape(s)
  {
    && a.c < |s.pc|
    && (s.irq[a.c].Quiet? || a.IrqWake? || a.IrqQueue? || a.IrqUnlock?)
    && match a
       case Pick(c, q) => s.pc[c].Sched? && q in s.queue && q < |s.state|
       case TakeLock(c) => s.pc[c].Picked? && s.pc[c].p < |s.state| && s.lock[s.pc[c].p].None?
       case Requeue(c) => s.pc[c].Refused? && s.pc[c].p < |s.state|
       case Acquire(c, q) => s.pc[c].On? && q < |s.state| && s.lock[q].None?
       case Release(c, q) =>
         (s.pc[c].On? || (s.pc[c].Off? && s.pc[c].p != q)) && q < |s.state| && s.lock[q] == Some(c)
       case Wake(c, q) => Mine(s, c, q) && s.state[q].Sleeping?
       case Spawn(c, q) => Mine(s, c, q) && s.state[q].Unused?
       case Yield(c) => s.pc[c].On? && Mine(s, c, s.pc[c].p)
       case Enqueue(c) => s.pc[c].Pending? && s.pc[c].q < |s.state|
       case Sleep(c) => s.pc[c].On? && Mine(s, c, s.pc[c].p)
       case Exit(c) => s.pc[c].On? && Mine(s, c, s.pc[c].p)
       case Reap(c, q) => Mine(s, c, q) && s.state[q].Zombie?
       case Switch(c) => s.pc[c].Off? && s.pc[c].p < |s.state| && OnlyLock(s, c, s.pc[c].p)
       case Return(c) => s.pc[c].Leaving? && s.pc[c].p < |s.state|
       case IrqLock(c, q) => Interruptible(s.pc[c]) && q < |s.state| && s.lock[q].None?
       case IrqWake(c) => s.irq[c].Holds? && s.irq[c].q < |s.state| && s.state[s.irq[c].q].Sleeping?
       case IrqQueue(c) => s.irq[c].Owes? && s.irq[c].q < |s.state|
       case IrqUnlock(c) => s.irq[c].Holds? && s.irq[c].q < |s.state|
  }

  ghost predicate OnlyLock(s: State, c: nat, p: nat) {
    forall q :: 0 <= q < |s.lock| && s.lock[q] == Some(c) ==> q == p
  }

  ghost function Next(s: State, a: Action): State
    requires Shape(s) && Enabled(s, a)
  {
    var c := a.c;
    match a
    case Pick(_, q) => s.(pc := s.pc[c := Picked(q)], queue := s.queue - {q}, place := s.place[q := At(c)])
    case TakeLock(_) =>
      var p := s.pc[c].p;
      if s.state[p].Runnable? then
        s.(state := s.state[p := Running], lock := s.lock[p := Some(c)], pc := s.pc[c := On(p)],
           place := s.place[p := Nowhere], runner := s.runner[p := Some(c)])
      else s.(pc := s.pc[c := Refused(p)])
    case Requeue(_) => s.(pc := s.pc[c := Sched], queue := s.queue + {s.pc[c].p})
    case Acquire(_, q) => s.(lock := s.lock[q := Some(c)])
    case Release(_, q) => s.(lock := s.lock[q := None])
    case Wake(_, q) => MakeRunnable(s, c, q)
    case Spawn(_, q) => MakeRunnable(s, c, q)
    case Yield(_) => MakeRunnable(s, c, s.pc[c].p)
    case Enqueue(_) =>
      var p, q := s.pc[c].p, s.pc[c].q;
      s.(queue := s.queue + {q}, place := s.place[q := Queued], pc := s.pc[c := if q == p then Off(p) else On(p)])
    case Sleep(_) => s.(state := s.state[s.pc[c].p := Sleeping], pc := s.pc[c := Off(s.pc[c].p)])
    case Exit(_) => s.(state := s.state[s.pc[c].p := Zombie], pc := s.pc[c := Off(s.pc[c].p)])
    case Reap(_, q) => s.(state := s.state[q := Unused], queue := s.queue - {q})
    case Switch(_) => s.(pc := s.pc[c := Leaving(s.pc[c].p)])
    case Return(_) =>
      var p := s.pc[c].p;
      s.(lock := s.lock[p := None], pc := s.pc[c := Sched], runner := s.runner[p := None])
    case IrqLock(_, q) => s.(lock := s.lock[q := Some(c)], irq := s.irq[c := Holds(q)])
    case IrqWake(_) =>
      var q := s.irq[c].q;
      s.(state := s.state[q := Runnable], irq := s.irq[c := Owes(q)], place := s.place[q := Owed(c)])
    case IrqQueue(_) =>
      var q := s.irq[c].q;
      s.(queue := s.queue + {q}, place := s.place[q := Queued], irq := s.irq[c := Holds(q)])
    case IrqUnlock(_) => s.(lock := s.lock[s.irq[c].q := None], irq := s.irq[c := Quiet])
  }

  ghost function MakeRunnable(s: State, c: nat, q: nat): State
    requires Shape(s) && Mine(s, c, q)
  {
    s.(state := s.state[q := Runnable], pc := s.pc[c := Pending(s.pc[c].p, q)], place := s.place[q := Due(c)])
  }

  /** At boot only the first process is set up, queued by userinit. */
  function Boot(procs: nat, cpus: nat): State {
    var first := if procs == 0 then {} else {0};
    State(seq(procs, i => if i == 0 then Runnable else Unused), seq(procs, _ => None),
          seq(cpus, _ => Sched), seq(cpus, _ => Quiet), first,
          seq(procs, i => if i == 0 then Queued else Nowhere), seq(procs, _ => None))
  }

  // ----- the invariant -----

  /** A process is RUNNABLE exactly while somebody has the duty to run it. */
  ghost predicate DutyOk(s: State, p: nat)
    requires Shape(s)
  {
    p < |s.state| ==>
      && (s.state[p].Runnable? <==> !s.place[p].Nowhere?)
      && (p in s.queue <==> s.place[p].Queued?)
      && (s.place[p].At? ==> s.place[p].c < |s.pc| && s.pc[s.place[p].c] == Picked(p))
      && (s.place[p].Due? ==>
            && s.place[p].c < |s.pc| && s.pc[s.place[p].c].Pending? && s.pc[s.place[p].c].q == p
            && s.lock[p] == Some(s.place[p].c))
      && (s.place[p].Owed? ==>
            s.place[p].c < |s.pc| && s.irq[s.place[p].c] == Owes(p) && s.lock[p] == Some(s.place[p].c))
  }

  /** A process is RUNNING exactly while one CPU executes it; on its way out its lock is held. */
  ghost predicate RunOk(s: State, p: nat)
    requires Shape(s)
  {
    p < |s.state| ==>
      && (s.runner[p].Some? ==> s.runner[p].value < |s.pc| && RunsAt(s.pc[s.runner[p].value], p))
      && (s.state[p].Running? <==> s.runner[p].Some? && Busy(s.pc[s.runner[p].value], p))
      && (s.runner[p].Some? && !s.state[p].Running? ==> s.lock[p] == s.runner[p])
  }

  ghost predicate LockOk(s: State, p: nat)
    requires Shape(s)
  {
    p < |s.state| && s.lock[p].Some? ==>
      var c := s.lock[p].value;
      c < |s.pc| && if s.irq[c].Quiet? then MayHold(s.pc[c], p) else s.irq[c].q == p
  }

  /** An interrupt handler has exactly the lock of the process it is at. */
  ghost predicate IrqOk(s: State, c: nat)
    requires Shape(s)
  {
    c < |s.pc| && !s.irq[c].Quiet? ==>
      && Interruptible(s.pc[c]) && s.irq[c].q < |s.state| && s.lock[s.irq[c].q] == Some(c)
      && (s.irq[c].Owes? ==> s.place[s.irq[c].q] == Owed(c))
  }

  /** Executing p itself, not on the way out of it. */
  ghost predicate Busy(pc: Pc, p: nat) { pc == On(p) || (pc.Pending? && pc.p == p && pc.q != p) }

  ghost predicate MayHold(pc: Pc, p: nat) { pc.On? || pc.Pending? || pc.Off? || pc == Leaving(p) }

  ghost predicate CpuOk(s: State, c: nat)
    requires Shape(s)
  {
    c < |s.pc| ==>
      match s.pc[c]
      case Sched => true
      case Picked(p) => p < |s.state| && s.place[p] == At(c)
      case Refused(_) => false
      case Pending(p, q) => p < |s.state| && q < |s.state| && s.runner[p] == Some(c) && s.place[q] == Due(c)
      case On(p) => p < |s.state| && s.runner[p] == Some(c)
      case Off(p) => p < |s.state| && s.runner[p] == Some(c)
      case Leaving(p) => p < |s.state| && s.runner[p] == Some(c)
  }

  ghost predicate Inv(s: State) {
    && Shape(s)
    && (forall p: nat :: DutyOk(s, p)) && (forall p: nat :: RunOk(s, p)) && (forall p: nat :: LockOk(s, p))
    && (forall c: nat :: CpuOk(s, c)) && (forall c: nat :: IrqOk(s, c))
    && (forall q :: q in s.queue ==> q < |s.state|)
  }

  predicate ByIrq(a: Action) { a.IrqLock? || a.IrqWake? || a.IrqQueue? || a.IrqUnlock? }

  lemma IrqDuty(s: State, a: Action, p: nat)
    requires Inv(s) && Enabled(s, a) && ByIrq(a)
    ensures DutyOk(Next(s, a), p) && RunOk(Next(s, a), p)
  {
    assert IrqOk(s, a.c) && DutyOk(s, p) && RunOk(s, p);
  }

  lemma IrqCpu(s: State, a: Action, c: nat)
    requires Inv(s) && Enabled(s, a) && ByIrq(a)
    ensures CpuOk(Next(s, a), c)
  {
    assert CpuOk(s, c) && IrqOk(s, a.c);
    if a.IrqWake? || a.IrqQueue? { assert DutyOk(s, s.irq[a.c].q); }
  }

  lemma StepDuty(s: State, a: Action, p: nat)
    requires Inv(s) && Enabled(s, a) && !ByIrq(a)
    ensures DutyOk(Next(s, a), p)
  {
    assert CpuOk(s, a.c) && IrqOk(s, a.c) && DutyOk(s, p) && RunOk(s, p);
    if s.pc[a.c].On? || s.pc[a.c].Off? || s.pc[a.c].Leaving? { assert RunOk(s, s.pc[a.c].p); }
  }

  lemma StepRun(s: State, a: Action, p: nat)
    requires Inv(s) && Enabled(s, a) && !ByIrq(a)
    ensures RunOk(Next(s, a), p)
  {
    assert CpuOk(s, a.c) && IrqOk(s, a.c) && DutyOk(s, p) && RunOk(s, p) && LockOk(s, p);
    if !s.pc[a.c].Sched? && s.pc[a.c].p < |s.state| { assert RunOk(s, s.pc[a.c].p); }
  }

  lemma StepLock(s: State, a: Action, p: nat)
    requires Inv(s) && Enabled(s, a)
    ensures LockOk(Next(s, a), p)
  {
    hide DutyOk;
    assert CpuOk(s, a.c) && IrqOk(s, a.c) && LockOk(s, p);
    if a.Return? { assert RunOk(s, s.pc[a.c].p); }
  }

  lemma StepCpu(s: State, a: Action, c: nat)
    requires Inv(s) && Enabled(s, a) && !ByIrq(a)
    ensures CpuOk(Next(s, a), c)
  {
    assert CpuOk(s, a.c) && CpuOk(s, c) && IrqOk(s, a.c);
    if a.Pick? || a.Wake? || a.Spawn? { assert DutyOk(s, a.q); }
    if !s.pc[a.c].Sched? && s.pc[a.c].p < |s.state| { assert DutyOk(s, s.pc[a.c].p) && RunOk(s, s.pc[a.c].p); }
  }

  lemma StepIrq(s: State, a: Action, c: nat)
    requires Inv(s) && Enabled(s, a)
    ensures IrqOk(Next(s, a), c)
  {
    assert IrqOk(s, a.c) && IrqOk(s, c) && CpuOk(s, a.c);
    if c < |s.pc| && !s.irq[c].Quiet? { assert DutyOk(s, s.irq[c].q) && RunOk(s, s.irq[c].q); }
  }

  lemma StepInv(s: State, a: Action)
    requires Inv(s) && Enabled(s, a)
    ensures Inv(Next(s, a))
  {
    hide DutyOk, RunOk, LockOk, CpuOk, IrqOk;
    forall p: nat ensures DutyOk(Next(s, a), p) { if ByIrq(a) { IrqDuty(s, a, p); } else { StepDuty(s, a, p); } }
    forall p: nat ensures RunOk(Next(s, a), p) { if ByIrq(a) { IrqDuty(s, a, p); } else { StepRun(s, a, p); } }
    forall p: nat ensures LockOk(Next(s, a), p) { StepLock(s, a, p); }
    forall c: nat ensures CpuOk(Next(s, a), c) { if ByIrq(a) { IrqCpu(s, a, c); } else { StepCpu(s, a, c); } }
    forall c: nat ensures IrqOk(Next(s, a), c) { StepIrq(s, a, c); }
  }

  // ----- all runs -----

  /** Where a run ends, if each of its steps can be taken. */
  ghost function After(s: State, run: seq<Action>): (r: Option<State>)
    requires Shape(s)
    ensures r.Some? ==> Shape(r.value)
  {
    if run == [] then Some(s)
    else
      var before := After(s, run[..|run| - 1]);
      if before.Some? && Enabled(before.value, run[|run| - 1]) then Some(Next(before.value, run[|run| - 1])) else None
  }

  lemma BootInv(procs: nat, cpus: nat)
    ensures Inv(Boot(procs, cpus))
  {
  }

  lemma {:induction false} RunInv(procs: nat, cpus: nat, run: seq<Action>)
    requires After(Boot(procs, cpus), run).Some?
    ensures Inv(After(Boot(procs, cpus), run).value)
  {
    hide Inv, Enabled, Next, Boot;
    BootInv(procs, cpus);
    if run != [] {
      RunInv(procs, cpus, run[..|run| - 1]);
      StepInv(After(Boot(procs, cpus), run[..|run| - 1]).value, run[|run| - 1]);
    }
  }

  ghost predicate PickedBy(s: State, c: nat, p: nat) { c < |s.pc| && s.pc[c] == Picked(p) }

  ghost predicate RunsOn(s: State, c: nat, p: nat) { c < |s.pc| && RunsAt(s.pc[c], p) }

  /**
   In every reachable state, for a process whose lock is free: it is RUNNABLE iff it is on the
   run queue or held by a scheduler between pick and lock, and only one of the two, once.
   */
  lemma RunnableIffOnDuty(procs: nat, cpus: nat, run: seq<Action>, s: State, p: nat)
    requires After(Boot(procs, cpus), run) == Some(s) && Shape(s) && p < |s.state| && s.lock[p].None?
    ensures s.state[p].Runnable? <==> p in s.queue || exists c: nat :: PickedBy(s, c, p)
    ensures p in s.queue ==> forall c: nat :: !PickedBy(s, c, p)
    ensures forall c: nat, d: nat :: PickedBy(s, c, p) && PickedBy(s, d, p) ==> c == d
  {
    hide Boot, After, RunOk;
    RunInv(procs, cpus, run);
    assert DutyOk(s, p);
    if s.place[p].At? { assert PickedBy(s, s.place[p].c, p); }
    forall c: nat | PickedBy(s, c, p) ensures s.place[p] == At(c) { assert CpuOk(s, c); }
  }

  /** No process is on two CPUs, and one being run is RUNNING or has its lock held on the way out. */
  lemma OneCpuEach(procs: nat, cpus: nat, run: seq<Action>, s: State, p: nat, c: nat, d: nat)
    requires After(Boot(procs, cpus), run) == Some(s) && RunsOn(s, c, p) && RunsOn(s, d, p)
    ensures c == d && Shape(s) && p < |s.state| && (s.state[p].Running? || s.lock[p] == Some(c))
  {
    hide Boot, After, DutyOk;
    RunInv(procs, cpus, run);
    assert CpuOk(s, c) && CpuOk(s, d) && RunOk(s, p);
  }

  /** The scheduler's branch for a picked process that is not RUNNABLE is never taken. */
  lemma NeverRefused(procs: nat, cpus: nat, run: seq<Action>, s: State, c: nat)
    requires After(Boot(procs, cpus), run) == Some(s) && c < |s.pc|
    ensures !s.pc[c].Refused?
    ensures s.pc[c].Picked? ==> s.pc[c].p < |s.state| && s.state[s.pc[c].p].Runnable?
  {
    hide Boot, After, RunOk;
    RunInv(procs, cpus, run);
    assert CpuOk(s, c);
    if s.pc[c].Picked? { assert DutyOk(s, s.pc[c].p); }
  }

  /** The guards against queueing twice and against freeing a queued process are never needed. */
  lemma GuardsIdle(procs: nat, cpus: nat, run: seq<Action>, s: State, q: nat, c: nat)
    requires After(Boot(procs, cpus), run) == Some(s) && Shape(s) && q < |s.state|
    ensures s.state[q].Zombie? || s.state[q].Unused? ==> q !in s.queue
    ensures c < |s.pc| && s.pc[c].Pending? && s.pc[c].q == q ==> q !in s.queue
    ensures c < |s.pc| && s.irq[c] == Owes(q) ==> q !in s.queue
  {
    hide Boot, After, RunOk;
    RunInv(procs, cpus, run);
    assert CpuOk(s, c) && IrqOk(s, c) && DutyOk(s, q);
  }

  lemma BootShape(procs: nat, cpus: nat)
    ensures Shape(Boot(procs, cpus))
  {
  }

  lemma Extend(s: State, run: seq<Action>, a: Action)
    requires Shape(s) && After(s, run).Some? && Enabled(After(s, run).value, a)
    ensures After(s, run + [a]) == Some(Next(After(s, run).value, a))
  {
    assert (run + [a])[..|run|] == run;
  }

  /**
   A sleeper does not depend on a running process: in any reachable state, an interrupt on a
   CPU that is in the scheduler can lock it, make it RUNNABLE, queue it and let go of it.
   */
  lemma InterruptWakes(procs: nat, cpus: nat, run: seq<Action>, s: State, c: nat, q: nat)
    requires After(Boot(procs, cpus), run) == Some(s) && Shape(s) && c < |s.pc| && Interruptible(s.pc[c])
    requires s.irq[c].Quiet? && q < |s.state| && s.state[q].Sleeping? && s.lock[q].None?
    ensures var r := After(Boot(procs, cpus), run + [IrqLock(c, q)] + [IrqWake(c)] + [IrqQueue(c)] + [IrqUnlock(c)]);
            r.Some? && q in r.value.queue && r.value.state == s.state[q := Runnable] && r.value.lock == s.lock
                && r.value.pc == s.pc
  {
    hide Boot, After, Inv;
    var b := Boot(procs, cpus);
    BootShape(procs, cpus);
    Extend(b, run, IrqLock(c, q));
    Extend(b, run + [IrqLock(c, q)], IrqWake(c));
    Extend(b, run + [IrqLock(c, q)] + [IrqWake(c)], IrqQueue(c));
    Extend(b, run + [IrqLock(c, q)] + [IrqWake(c)] + [IrqQueue(c)], IrqUnlock(c));
  }
}
