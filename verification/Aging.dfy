/**
 What the dynamic priority promises over time: waiting raises it, running lowers it, five ticks to
 a bucket. Because the lowest bucket is served first, a process that waits moves away from its turn.
 */
module Aging {
  import opened Ctz
  import opened RunQueue
  import opened SchedO1

  /** A process that has neither waited nor run five ticks is in the bucket of its priority. */
  lemma BaseBucket(priority: int, wait: nat, cpu: nat)
    requires 0 <= priority < RUNQLEN && wait < 5 && cpu < 5
    ensures RunqDyn(priority, wait, cpu) == priority
  {
  }

  /** Five more ticks of waiting: one bucket up, unless at the top or with the sum still below 0. */
  lemma WaitingRaises(priority: int, wait: nat, cpu: nat)
    ensures var d, d' := RunqDyn(priority, wait, cpu), RunqDyn(priority, wait + 5, cpu);
            d' == if d == RUNQLEN - 1 || priority + wait / 5 < cpu / 5 then d else d + 1
    ensures priority + wait / 5 < cpu / 5 ==> RunqDyn(priority, wait, cpu) == 0
  {
  }

  /** Five more ticks of running: one bucket down, unless at the bottom or with the sum still above 20. */
  lemma RunningLowers(priority: int, wait: nat, cpu: nat)
    ensures var d, d' := RunqDyn(priority, wait, cpu), RunqDyn(priority, wait, cpu + 5);
            d' == if d == 0 || priority + wait / 5 >= cpu / 5 + RUNQLEN then d else d - 1
    ensures priority + wait / 5 >= cpu / 5 + RUNQLEN ==> RunqDyn(priority, wait, cpu) == RUNQLEN - 1
  {
  }

  lemma Monotone(priority: int, wait: nat, cpu: nat, priority': int, wait': nat, cpu': nat)
    requires priority <= priority' && wait <= wait' && cpu' <= cpu
    ensures RunqDyn(priority, wait, cpu) <= RunqDyn(priority', wait', cpu')
  {
  }

  /** Five times k more ticks of waiting, from a sum that is not negative. */
  lemma {:induction false} WaitingFor(priority: int, wait: nat, cpu: nat, k: nat)
    requires priority + wait / 5 >= cpu / 5
    ensures var d := RunqDyn(priority, wait, cpu);
            RunqDyn(priority, wait + 5 * k, cpu) == if d + k < RUNQLEN then d + k else RUNQLEN - 1
  {
    if k > 0 {
      WaitingFor(priority, wait, cpu, k - 1);
      WaitingRaises(priority, wait + 5 * (k - 1), cpu);
    }
  }

  /** Any number of ticks in which x is not the one that runs. */
  method Ticks(q: Runq, x: nat, running: seq<nat>)
    requires q.Valid() && x < NPROC && q.on[x] && |running| > 0
    requires forall r :: r in running ==> r <= NIL && r != x
    modifies q`next, q`prev, q`on, q`dyn, q`head, q`tail, q`bitmap, q`key, q`top, q`wait, q`cpu
    ensures q.Valid() && q.on == old(q.on)
    ensures q.wait[x] == old(q.wait)[x] + |running| && q.cpu[x] == old(q.cpu)[x]
    ensures q.dyn[x] == RunqDyn(q.priority[x], q.wait[x], q.cpu[x])
  {
    for k := 0 to |running|
      invariant q.Valid() && q.on == old(q.on)
      invariant q.wait[x] == old(q.wait)[x] + k && q.cpu[x] == old(q.cpu)[x]
      invariant k > 0 ==> q.dyn[x] == RunqDyn(q.priority[x], q.wait[x], q.cpu[x])
    {
      assert running[k] in running;
      q.Tick(running[k]);
    }
  }

  /** A process queued through five ticks ends one bucket higher, unless at the top or with its sum below 0. */
  method FiveTicks(q: Runq, x: nat, running: seq<nat>)
    requires q.Valid() && x < NPROC && q.on[x] && |running| == 5
    requires forall r :: r in running ==> r <= NIL && r != x
    requires q.dyn[x] == RunqDyn(q.priority[x], q.wait[x], q.cpu[x])
    modifies q`next, q`prev, q`on, q`dyn, q`head, q`tail, q`bitmap, q`key, q`top, q`wait, q`cpu
    ensures q.Valid() && q.on == old(q.on)
    ensures old(q.dyn)[x] == RUNQLEN - 1 ==> q.dyn[x] == RUNQLEN - 1
    ensures q.priority[x] + old(q.wait)[x] / 5 < q.cpu[x] / 5 ==> q.dyn[x] == 0
    ensures old(q.dyn)[x] < RUNQLEN - 1 && q.priority[x] + old(q.wait)[x] / 5 >= q.cpu[x] / 5 ==>
              q.dyn[x] == old(q.dyn)[x] + 1
  {
    WaitingRaises(q.priority[x], q.wait[x], q.cpu[x]);
    Ticks(q, x, running);
  }

  /** The scheduler takes the next process, whose waiting is over. */
  method Dispatch(q: Runq) returns (p: nat)
    requires q.Valid()
    modifies q`next, q`prev, q`on, q`head, q`tail, q`bitmap, q`wait
    ensures q.Valid() && p <= NIL
    ensures p == NIL ==> q.Now() == old(q.Now()) && q.wait == old(q.wait) && forall x :: 0 <= x < NPROC ==> !q.on[x]
    ensures p < NIL ==> Lowest(old(q.Now()), p) && q.dyn[p] < RUNQLEN && q.Now() == Removed(old(q.Now()), p)
    ensures p < NIL ==> q.wait == old(q.wait)[p := 0]
  {
    p := q.Pick();
    if p < NIL { q.wait := q.wait[p := 0]; }
  }

  ghost predicate OnlyQueued(q: Lists, x: nat)
    requires Shape(q)
  {
    x < NPROC && forall z: nat :: z < NPROC ==> (q.on[z] <==> z == x)
  }

  /** y, behind x in the queue, is taken before x exactly from a lower bucket. */
  lemma FirstOfTwo(q: Lists, x: nat, y: nat, i: nat, p: nat)
    requires Linked(q) && OnlyQueued(q, x) && y < NPROC && y != x && i < RUNQLEN
    requires p < NIL ==> Lowest(Appended(q, y, i), p)
    requires p == NIL ==> forall z :: 0 <= z < NPROC ==> !Appended(q, y, i).on[z]
    requires p <= NIL
    ensures p == if q.dyn[x] <= i then x else y
    ensures p == y ==> OnlyQueued(Removed(Appended(q, y, i), y), x)
  {
    var q' := Appended(q, y, i);
    assert NextOk(q, x) && q'.on[y] && q'.on[x];
  }

  /** One turn: y asks for the CPU again, the scheduler takes one of the two, a tick passes. */
  method Turn(q: Runq, x: nat, y: nat) returns (p: nat)
    requires q.Valid() && y < NPROC && y != x && OnlyQueued(q.Now(), x)
    modifies q`next, q`prev, q`on, q`dyn, q`head, q`tail, q`bitmap, q`key, q`top, q`wait, q`cpu
    ensures q.Valid()
    ensures p == if old(q.dyn)[x] <= RunqDyn(q.priority[y], old(q.wait)[y], old(q.cpu)[y]) then x else y
    ensures p == y ==>
              && OnlyQueued(q.Now(), x) && q.wait[x] == old(q.wait)[x] + 1 && q.cpu[x] == old(q.cpu)[x]
              && q.wait[y] == 0 && q.cpu[y] == old(q.cpu)[y] + 1
              && q.dyn[x] == RunqDyn(q.priority[x], q.wait[x], q.cpu[x])
  {
    hide RunqDyn, Linked, Mapped, Lowest;
    ghost var was := q.Now();
    ghost var i := RunqDyn(q.priority[y], q.wait[y], q.cpu[y]);
    q.Enqueue(y);
    p := Dispatch(q);
    FirstOfTwo(was, x, y, i, p);
    q.Tick(p);
  }

  /**
   Two processes and n turns: y gives up the CPU every tick and asks again. x is never taken if
   y starts from a lower bucket, however long x waits, and is taken at once if not.
   */
  method Contend(q: Runq, x: nat, y: nat, n: nat) returns (passedOver: nat)
    requires q.Valid() && y < NPROC && y != x && OnlyQueued(q.Now(), x)
    requires q.dyn[x] == RunqDyn(q.priority[x], q.wait[x], q.cpu[x])
    modifies q`next, q`prev, q`on, q`dyn, q`head, q`tail, q`bitmap, q`key, q`top, q`wait, q`cpu
    ensures passedOver == if RunqDyn(q.priority[y], old(q.wait)[y], old(q.cpu)[y]) < old(q.dyn)[x] then n else 0
    ensures passedOver == n ==> q.Valid() && q.on[x] && q.wait[x] == old(q.wait)[x] + n
  {
    passedOver := 0;
    while passedOver < n
      invariant passedOver <= n && q.Valid() && OnlyQueued(q.Now(), x)
      invariant if passedOver > 0 then RunqDyn(q.priority[y], old(q.wait)[y], old(q.cpu)[y]) < old(q.dyn)[x]
                else q.dyn == old(q.dyn) && q.wait == old(q.wait) && q.cpu == old(q.cpu)
      invariant q.wait[x] == old(q.wait)[x] + passedOver && q.cpu[x] == old(q.cpu)[x]
      invariant q.dyn[x] == RunqDyn(q.priority[x], q.wait[x], q.cpu[x])
      invariant q.wait[y] <= old(q.wait)[y] && q.cpu[y] >= old(q.cpu)[y]
    {
      Monotone(q.priority[x], old(q.wait)[x], q.cpu[x], q.priority[x], q.wait[x], q.cpu[x]);
      Monotone(q.priority[y], q.wait[y], q.cpu[y], q.priority[y], old(q.wait)[y], old(q.cpu)[y]);
      var p := Turn(q, x, y);
      if p == x { return; }
      passedOver := passedOver + 1;
    }
  }
}
