/** The code of the O(1) scheduler's run queue, working in place. */
module SchedO1 {
  import opened Wrappers
  import opened Ctz
  import opened RunQueue
  import opened RunqOrder

  /** runq_dyn: base priority, raised by waiting and lowered by running, kept within the buckets. */
  function RunqDyn(priority: int, wait: nat, cpu: nat): (d: nat)
    ensures d < RUNQLEN
    ensures forall w: nat :: wait <= w ==> d <= Clamp(priority + w / 5 - cpu / 5)
  {
    Clamp(priority + wait / 5 - cpu / 5)
  }

  function Clamp(d: int): (r: nat)
    ensures r < RUNQLEN
  {
    if d < 0 then 0 else if d > RUNQLEN - 1 then RUNQLEN - 1 else d
  }

  /** Where everyone's dynamic priority puts them. */
  ghost function TargetsOf(priority: seq<int>, wait: seq<nat>, cpu: seq<nat>): (to: seq<nat>)
    requires |priority| == NPROC && |wait| == NPROC && |cpu| == NPROC
    ensures |to| == NPROC
    ensures forall x :: 0 <= x < NPROC ==> to[x] < RUNQLEN && to[x] == RunqDyn(priority[x], wait[x], cpu[x])
  {
    seq(NPROC, x requires 0 <= x < NPROC => RunqDyn(priority[x], wait[x], cpu[x]))
  }

  /** The first of the lowest bucket that is not empty. */
  ghost predicate Lowest(q: Lists, p: nat)
    requires Shape(q)
  {
    && p < NPROC && q.on[p]
    && forall x: nat :: x < NPROC && q.on[x] ==> q.dyn[p] < q.dyn[x] || (q.dyn[p] == q.dyn[x] && q.key[p] <= q.key[x])
  }

  lemma HeadIsLowest(q: Lists, i: nat)
    requires Linked(q) && i < RUNQLEN && q.head[i] != NIL && forall j: nat :: j < i ==> q.head[j] == NIL
    ensures Lowest(q, q.head[i]) && q.dyn[q.head[i]] == i
  {
    assert BucketOk(q, i);
    forall x: nat | x < NPROC && q.on[x] ensures i < q.dyn[x] || (i == q.dyn[x] && q.key[q.head[i]] <= q.key[x]) {
      assert FirstOk(q, x);
    }
  }

  lemma NoHeads(q: Lists)
    requires Linked(q) && forall i: nat :: i < RUNQLEN ==> q.head[i] == NIL
    ensures forall x :: 0 <= x < NPROC ==> !q.on[x]
  {
    forall x: nat | x < NPROC ensures !q.on[x] { assert FirstOk(q, x); }
  }

  /** runq_pick: the process taken is the first of its bucket, and every lower bucket is empty. */
  lemma PickIsFront(q: Lists, p: nat)
    requires Linked(q) && Lowest(q, p)
    ensures q.dyn[p] < RUNQLEN && |Bucket(q, q.dyn[p])| > 0 && Bucket(q, q.dyn[p])[0] == p
    ensures forall j: nat :: j < q.dyn[p] ==> Bucket(q, j) == []
  {
    assert NextOk(q, p) && FirstOk(q, p) && BucketOk(q, q.dyn[p]);
    assert PairOk(q, p, q.head[q.dyn[p]]);
    forall j: nat | j < q.dyn[p] ensures Bucket(q, j) == [] {
      assert BucketOk(q, j);
    }
  }

  /** A bit scan of the bitmap finds the lowest bucket that is not empty. */
  lemma ScanBits(bitmap: Bitmap, q: Lists)
    requires Queue(bitmap, q)
    ensures IsEmpty(bitmap) ==> forall x :: 0 <= x < NPROC ==> !q.on[x]
    ensures !IsEmpty(bitmap) ==>
              var i := First(bitmap); i < RUNQLEN && q.head[i] != NIL && Lowest(q, q.head[i]) && q.dyn[q.head[i]] == i
  {
    hide Linked, First, IsEmpty, Has, InRange, Lowest;
    ShapeOf(q);
    if IsEmpty(bitmap) {
      forall i: nat | i < RUNQLEN ensures q.head[i] == NIL { EmptyHasNone(bitmap, i); assert BitOk(bitmap, q, i); }
      NoHeads(q);
    } else {
      FirstIsLowest(bitmap);
      var i := First(bitmap);
      assert BitOk(bitmap, q, i);
      forall j: nat | j < i ensures q.head[j] == NIL { assert BitOk(bitmap, q, j); }
      HeadIsLowest(q, i);
    }
  }

  /** The priority of a process that is not queued is free to change. */
  lemma OffQueue(bitmap: Bitmap, q: Lists, p: nat, i: nat)
    requires Queue(bitmap, q) && p < NPROC && !q.on[p]
    ensures Queue(bitmap, q.(dyn := q.dyn[p := i]))
  {
    hide Has, InRange;
    var q' := q.(dyn := q.dyn[p := i]);
    forall x: nat ensures NextOk(q', x) { assert NextOk(q, x); }
    forall x: nat ensures PrevOk(q', x) { assert PrevOk(q, x); }
    forall x: nat ensures FirstOk(q', x) { assert FirstOk(q, x); }
    forall x: nat, y: nat ensures PairOk(q', x, y) { assert PairOk(q, x, y); }
    forall x: nat ensures BucketOk(q', x) { assert BucketOk(q, x); }
    forall x: nat ensures BitOk(bitmap, q', x) { assert BitOk(bitmap, q, x); }
  }

  class Runq {
    var next: seq<nat>
    var prev: seq<nat>
    var on: seq<bool>
    var dyn: seq<nat>
    var head: seq<nat>
    var tail: seq<nat>
    var bitmap: Bitmap
    var pid: seq<int>
    var priority: seq<int>
    var wait: seq<nat>
    var cpu: seq<nat>
    ghost var key: seq<int>
    ghost var top: int

    ghost function Now(): Lists
      reads this
    {
      Lists(next, prev, on, dyn, head, tail, key, top)
    }

    ghost predicate Valid()
      reads this
    {
      && Queue(bitmap, Now()) && Shape(Now())
      && |pid| == NPROC && |priority| == NPROC && |wait| == NPROC && |cpu| == NPROC
    }

    /** runq_init, on a fresh process table. */
    constructor (pid: seq<int>)
      requires |pid| == NPROC
      ensures Valid() && this.pid == pid && forall x :: 0 <= x < NPROC ==> !on[x]
    {
      next, prev, on, dyn := seq(NPROC, _ => NIL), seq(NPROC, _ => NIL), seq(NPROC, _ => false), seq(NPROC, _ => 0);
      key, top := seq(NPROC, _ => 0), 0;
      this.pid, priority, wait, cpu := pid, seq(NPROC, _ => 0), seq(NPROC, _ => 0), seq(NPROC, _ => 0);
      head, tail := seq(RUNQLEN, _ => NIL), seq(RUNQLEN, _ => NIL);
      bitmap := EMPTY;
      new;
      EmptyQueue(Now());
    }

    /** runq_enqueue's links: p behind the last of bucket i. */
    method LinkTail(p: nat, i: nat)
      requires Shape(Now()) && p < NPROC && i < RUNQLEN && tail[i] != p
      modifies this`next, this`prev, this`on, this`dyn, this`head, this`tail, this`key, this`top
      ensures Now() == Appended(old(Now()), p, i)
    {
      dyn := dyn[p := i];
      next := next[p := NIL];
      prev := prev[p := tail[i]];
      if tail[i] < NPROC { next := next[tail[i] := p]; } else { head := head[i := p]; }
      tail := tail[i := p];
      on := on[p := true];
      key, top := key[p := top], top + 1;
    }

    method Enqueue(p: nat)
      requires Valid() && p < NPROC
      modifies this`next, this`prev, this`on, this`dyn, this`head, this`tail, this`bitmap, this`key, this`top
      ensures Valid()
      ensures old(on)[p] ==> Now() == old(Now()) && bitmap == old(bitmap)
      ensures !old(on)[p] ==> Now() == Appended(old(Now()), p, RunqDyn(priority[p], wait[p], cpu[p]))
    {
      hide Queue, Set, RunqDyn;
      if on[p] { return; }
      var i := RunqDyn(priority[p], wait[p], cpu[p]);
      AppendMapped(bitmap, Now(), p, i);
      TailOn(bitmap, Now(), i);
      LinkTail(p, i);
      bitmap := Set(bitmap, i);
    }

    /** runq_remove's links: p's neighbours joined. */
    method Unlink(p: nat)
      requires Shape(Now()) && p < NPROC && dyn[p] < RUNQLEN && next[p] != p && prev[p] != p
      modifies this`next, this`prev, this`head, this`tail
      ensures var r := Removed(old(Now()), p); next == r.next && prev == r.prev && head == r.head && tail == r.tail
    {
      var i, nx, pr := dyn[p], next[p], prev[p];
      if pr < NPROC { next := next[pr := nx]; } else { head := head[i := nx]; }
      if nx < NPROC { prev := prev[nx := pr]; } else { tail := tail[i := pr]; }
      next, prev := next[p := NIL], prev[p := NIL];
    }

    method Remove(p: nat)
      requires Valid() && p < NPROC
      modifies this`next, this`prev, this`on, this`head, this`tail, this`bitmap
      ensures Valid()
      ensures old(on)[p] ==> dyn[p] < RUNQLEN && Now() == Removed(old(Now()), p)
      ensures !old(on)[p] ==> Now() == old(Now()) && bitmap == old(bitmap)
    {
      hide Linked, Mapped, Clear;
      if !on[p] { return; }
      ghost var q := Now();
      DynOf(q, p);
      RemoveMapped(bitmap, q, p);
      Unlink(p);
      on := on[p := false];
      if head[dyn[p]] == NIL { bitmap := Clear(bitmap, dyn[p]); }
    }

    /** runq_pick: takes out the first process of the lowest non-empty bucket; NIL when there is none. */
    method Pick() returns (p: nat)
      requires Valid()
      modifies this`next, this`prev, this`on, this`head, this`tail, this`bitmap
      ensures Valid() && p <= NIL
      ensures p == NIL ==> Now() == old(Now()) && forall x :: 0 <= x < NPROC ==> !on[x]
      ensures p < NIL ==> Lowest(old(Now()), p) && dyn[p] < RUNQLEN && Now() == Removed(old(Now()), p)
    {
      hide Linked, Mapped, First, IsEmpty, Lowest;
      ScanBits(bitmap, Now());
      if IsEmpty(bitmap) { return NIL; }
      p := head[First(bitmap)];
      LowestOn(Now(), p);
      Remove(p);
    }

    /** setPriority: the first process with that pid, moved to the bucket of its new priority if it is queued. */
    method SetPriority(id: int, prio: int) returns (r: int, ghost p: nat)
      requires Valid()
      modifies this`next, this`prev, this`on, this`dyn, this`head, this`tail, this`bitmap, this`key
      modifies this`top, this`priority
      ensures Valid() && on == old(on) && (r == 0 || r == -1) && (r == -1 <==> id !in pid)
      ensures r == -1 ==> Now() == old(Now()) && priority == old(priority)
      ensures r == 0 ==> p < NPROC && pid[p] == id && id !in pid[..p] && priority == old(priority)[p := prio]
      ensures r == 0 && on[p] ==>
                old(dyn)[p] < RUNQLEN && dyn[p] < RUNQLEN && Now() == Appended(Removed(old(Now()), p), p, dyn[p])
      ensures r == 0 ==> dyn[p] == RunqDyn(prio, wait[p], cpu[p]) && forall x :: 0 <= x < NPROC && x != p ==>
                dyn[x] == old(dyn)[x]
    {
      hide Linked, Mapped;
      p := NIL;
      for k := 0 to NPROC
        invariant Valid() && id !in pid[..k] && Now() == old(Now()) && priority == old(priority)
        invariant bitmap == old(bitmap) && |pid| == NPROC
      {
        if pid[k] == id {
          p := k;
          priority := priority[k := prio];
          if on[k] {
            Remove(k);
            Enqueue(k);
          } else {
            OffQueue(bitmap, Now(), k, RunqDyn(prio, wait[k], cpu[k]));
            dyn := dyn[k := RunqDyn(priority[k], wait[k], cpu[k])];
          }
          assert on == old(on);
          return 0, k;
        }
      }
      assert pid[..NPROC] == pid;
      r := -1;
    }

    function Target(x: nat): (d: nat)
      requires x < NPROC && |priority| == NPROC && |wait| == NPROC && |cpu| == NPROC
      reads this
      ensures d < RUNQLEN
    {
      RunqDyn(priority[x], wait[x], cpu[x])
    }

    /** One more tick of waiting for everyone in bucket i. */
    method AgeBucket(i: nat)
      requires Valid() && i < RUNQLEN
      modifies this`wait
      ensures Valid() && forall x :: 0 <= x < NPROC ==> wait[x] == old(wait)[x] + if In(Now(), i, x) then 1 else 0
    {
      hide Linked, Mapped, Ahead;
      ghost var q, todo := Now(), Upto(NPROC);
      WalkStart(q, i);
      var p: nat := head[i];
      AheadFacts(q, NIL);
      while p < NPROC
        invariant OnList(q, i, p) && |wait| == NPROC
        invariant forall x :: 0 <= x < NPROC ==>
                    wait[x] == old(wait)[x] + if In(q, i, x) && !Ahead(q, p, x) then 1 else 0
        invariant forall x: nat :: x < NPROC && Ahead(q, p, x) ==> x in todo
        decreases todo
      {
        WalkNext(q, i, p);
        AheadFacts(q, p);
        wait := wait[p := wait[p] + 1];
        todo := todo - {p};
        p := next[p];
      }
    }

    /** One process of bucket i goes to the bucket of its dynamic priority. */
    method Refile(i: nat, p: nat) returns (nx: nat)
      requires Valid() && i < RUNQLEN && In(Now(), i, p)
      modifies this`next, this`prev, this`on, this`dyn, this`head, this`tail, this`bitmap, this`key, this`top
      ensures Valid() && nx == old(next)[p] && on == old(on)
      ensures Now() == if Target(p) == i then old(Now()) else Moved(old(Now()), p, Target(p))
    {
      hide Linked, Mapped, RunqDyn;
      nx := next[p];
      if Target(p) != i {
        Remove(p);
        Enqueue(p);
        assert on == old(on);
      }
    }

    /** Everyone in bucket i goes to the end of the bucket of their dynamic priority, in order. */
    method Rebucket(i: nat)
      requires Valid() && i < RUNQLEN
      modifies this`next, this`prev, this`on, this`dyn, this`head, this`tail, this`bitmap, this`key, this`top
      ensures Valid() && on == old(on) && Swept(old(Now()), Now(), TargetsOf(priority, wait, cpu), i)
    {
      hide Linked, Mapped, RunqDyn, Sweep, Moved, Swept;
      ghost var q0, to, done := Now(), TargetsOf(priority, wait, cpu), [];
      SweepStart(q0, to, i);
      var p: nat := head[i];
      while p < NPROC
        invariant Valid() && on == old(on) && OnList(Now(), i, p) && Sweep(q0, Now(), to, i, p, done)
        decreases |Chain(Now(), i, p)|
      {
        ghost var q := Now();
        if Target(p) == i { SweepStay(q0, q, to, i, p, done); } else { SweepMove(q0, q, to, i, p, done); }
        done := done + [p];
        p := Refile(i, p);
      }
      SweepEnd(q0, Now(), to, i, done);
    }

    /**
     sched_tick, with the process running on this CPU (NIL for none): everyone queued has
     waited one tick longer and is in the bucket of their dynamic priority, and nobody joins
     or leaves the queue.
     */
    method Tick(running: nat)
      requires Valid() && running <= NIL
      modifies this`next, this`prev, this`on, this`dyn, this`head, this`tail, this`bitmap, this`key
      modifies this`top, this`wait, this`cpu
      ensures Valid() && on == old(on)
      ensures forall x :: 0 <= x < NPROC ==> wait[x] == old(wait)[x] + if on[x] then 1 else 0
      ensures forall x :: 0 <= x < NPROC && on[x] ==> dyn[x] == RunqDyn(priority[x], wait[x], old(cpu)[x])
      ensures Refiled(old(Now()), Now(), TargetsOf(priority, wait, old(cpu)))
      ensures cpu == if running < NPROC then old(cpu)[running := old(cpu)[running] + 1] else old(cpu)
    {
      hide Linked, Mapped, RunqDyn, Partly, Swept, Refiled;
      ghost var q0 := Now();
      InBuckets(q0);
      for i := 0 to RUNQLEN
        invariant Valid() && Now() == q0 && cpu == old(cpu) && bitmap == old(bitmap)
        invariant forall x :: 0 <= x < NPROC ==> wait[x] == old(wait)[x] + if on[x] && dyn[x] < i then 1 else 0
      {
        AgeBucket(i);
      }
      ghost var aged, to := wait, TargetsOf(priority, wait, cpu);
      PartlyStart(q0, to);
      for i := 0 to RUNQLEN
        invariant Valid() && on == old(on) && wait == aged && cpu == old(cpu) && Partly(q0, Now(), to, i)
      {
        ghost var q := Now();
        Rebucket(i);
        PartlyStep(q0, q, to, i, Now());
      }
      PartlyEnd(q0, Now(), to);
      forall x: nat | x < NPROC && on[x] ensures dyn[x] == to[x] { RefiledDyn(q0, Now(), to, x); }
      if running < NPROC { cpu := cpu[running := cpu[running] + 1]; }
    }
  }

  lemma InBuckets(q: Lists)
    requires Linked(q)
    ensures Shape(q) && forall x :: 0 <= x < NPROC && q.on[x] ==> q.dyn[x] < RUNQLEN
  {
    forall x: nat | x < NPROC && q.on[x] ensures q.dyn[x] < RUNQLEN { assert NextOk(q, x); }
  }

  lemma EmptyQueue(q: Lists)
    requires Shape(q) && (forall x :: 0 <= x < NPROC ==> !q.on[x]) && forall i :: 0 <= i < RUNQLEN ==>
               q.head[i] == NIL && q.tail[i] == NIL
    ensures Queue(EMPTY, q)
  {
    hide Has, InRange;
    EmptyHasNone(EMPTY, 0);
    forall i: nat ensures BitOk(EMPTY, q, i) { if i < RUNQLEN { EmptyHasNone(EMPTY, i); } }
  }

  lemma TailOn(bitmap: Bitmap, q: Lists, i: nat)
    requires Queue(bitmap, q) && i < RUNQLEN
    ensures Shape(q) && (q.tail[i] < NPROC ==> q.on[q.tail[i]])
  {
    assert BucketOk(q, i);
  }

  lemma LowestOn(q: Lists, p: nat)
    requires Shape(q) && Lowest(q, p)
    ensures p < NPROC && q.on[p]
  {
  }
}
