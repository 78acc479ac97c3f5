/**
 The links of the run queue as queues: following next from a bucket's head gives a sequence, an
 enqueue adds at its end, a removal takes out one process, and every other bucket stays as it is.
 */
module RunqOrder {
  import opened Ctz
  import opened RunQueue

  /** The processes met from t on, following next. */
  ghost function Chain(q: Lists, i: nat, t: nat): seq<nat>
    requires Linked(q) && OnList(q, i, t)
    decreases if t < NPROC && q.on[t] then q.top - q.key[t] else 0
  {
    if t == NIL then []
    else
      assert NextOk(q, t);
      assert q.next[t] < NPROC ==> NextOk(q, q.next[t]);
      [t] + Chain(q, i, q.next[t])
  }

  /** Bucket i from its head on. */
  ghost function Bucket(q: Lists, i: nat): seq<nat>
    requires Linked(q) && i < RUNQLEN
  {
    assert BucketOk(q, i);
    Chain(q, i, q.head[i])
  }

  ghost function Without(s: seq<nat>, p: nat): seq<nat> {
    if s == [] then [] else (if s[0] == p then [] else [s[0]]) + Without(s[1..], p)
  }

  /** A chain is the processes of the bucket at or behind t, each once, in order of arrival. */
  lemma {:induction false} ChainIs(q: Lists, i: nat, t: nat)
    requires Linked(q) && OnList(q, i, t) && i < RUNQLEN
    ensures forall x: nat :: x in Chain(q, i, t) <==> x < NPROC && In(q, i, x) && Ahead(q, t, x)
    ensures forall a, b :: 0 <= a < b < |Chain(q, i, t)| ==>
              var c := Chain(q, i, t); c[a] < NPROC && c[b] < NPROC && q.key[c[a]] < q.key[c[b]]
    decreases if t < NPROC && q.on[t] then q.top - q.key[t] else 0
  {
    if t != NIL {
      assert NextOk(q, t);
      WalkNext(q, i, t);
      var u := q.next[t];
      if u < NPROC { assert NextOk(q, u); }
      ChainIs(q, i, u);
      var c := Chain(q, i, u);
      assert Chain(q, i, t) == [t] + c;
      assert forall x :: x in [t] + c <==> x == t || x in c;
      forall a, b | 0 <= a < b < |[t] + c|
        ensures ([t] + c)[a] < NPROC && ([t] + c)[b] < NPROC && q.key[([t] + c)[a]] < q.key[([t] + c)[b]]
      {
        assert ([t] + c)[b] == c[b - 1] && c[b - 1] in c;
        if a > 0 { assert ([t] + c)[a] == c[a - 1]; }
      }
    } else {
      assert Chain(q, i, t) == [];
    }
  }

  /** A bucket's sequence holds the processes queued in it, each once. */
  lemma BucketIs(q: Lists, i: nat)
    requires Linked(q) && i < RUNQLEN
    ensures forall x: nat :: x in Bucket(q, i) <==> x < NPROC && In(q, i, x)
    ensures forall a, b :: 0 <= a < b < |Bucket(q, i)| ==> Bucket(q, i)[a] != Bucket(q, i)[b]
  {
    WalkStart(q, i);
    ChainIs(q, i, q.head[i]);
  }

  lemma {:induction false} ChainAppended(q: Lists, p: nat, i: nat, j: nat, t: nat)
    requires Linked(q) && p < NPROC && !q.on[p] && i < RUNQLEN && In(q, j, t)
    requires Linked(Appended(q, p, i))
    ensures In(Appended(q, p, i), j, t)
    ensures Chain(Appended(q, p, i), j, t) == Chain(q, j, t) + if i == j then [p] else []
    decreases q.top - q.key[t]
  {
    var q' := Appended(q, p, i);
    assert NextOk(q, t) && BucketOk(q, i) && NextOk(q', t);
    var u := q.next[t];
    if u == NIL {
      assert Chain(q, j, u) == [];
      if i == j {
        assert q'.next[t] == p && NextOk(q', p);
        assert Chain(q', j, NIL) == [];
      } else {
        assert q'.next[t] == NIL;
      }
    } else {
      assert NextOk(q, u);
      ChainAppended(q, p, i, j, u);
      assert q'.next[t] == u;
    }
  }

  /** runq_enqueue: p comes after everyone already in its bucket; the other buckets do not change. */
  lemma BucketAppended(q: Lists, p: nat, i: nat, j: nat)
    requires Linked(q) && p < NPROC && !q.on[p] && i < RUNQLEN && j < RUNQLEN
    ensures Linked(Appended(q, p, i))
    ensures Bucket(Appended(q, p, i), j) == Bucket(q, j) + if i == j then [p] else []
  {
    AppendKeeps(q, p, i);
    var q' := Appended(q, p, i);
    assert BucketOk(q, j) && BucketOk(q', j);
    if q.head[j] != NIL {
      ChainAppended(q, p, i, j, q.head[j]);
    } else if i == j {
      assert q'.next[p] == NIL && Chain(q', j, NIL) == [];
    }
  }

  lemma {:induction false} ChainRemoved(q: Lists, p: nat, j: nat, t: nat)
    requires Linked(q) && p < NPROC && q.on[p] && q.dyn[p] < RUNQLEN && j < RUNQLEN && OnList(q, j, t)
    requires Linked(Removed(q, p))
    ensures var u := if t == p then q.next[p] else t;
            OnList(Removed(q, p), j, u) && Chain(Removed(q, p), j, u) == Without(Chain(q, j, t), p)
    decreases if t < NPROC && q.on[t] then q.top - q.key[t] else 0
  {
    var q' := Removed(q, p);
    if t != NIL {
      assert NextOk(q, t) && PrevOk(q, p);
      var u := q.next[t];
      if u != NIL { assert NextOk(q, u); }
      ChainRemoved(q, p, j, u);
      assert Chain(q, j, t)[1..] == Chain(q, j, u);
      assert t != p ==> q'.next[t] == if u == p then q.next[p] else u;
    }
  }

  /** runq_remove: p is gone from its bucket, and everyone else is where they were. */
  lemma BucketRemoved(q: Lists, p: nat, j: nat)
    requires Linked(q) && p < NPROC && q.on[p] && q.dyn[p] < RUNQLEN && j < RUNQLEN
    ensures Linked(Removed(q, p)) && Bucket(Removed(q, p), j) == Without(Bucket(q, j), p)
  {
    RemoveKeeps(q, p);
    assert BucketOk(q, j) && BucketOk(Removed(q, p), j) && PrevOk(q, p) && BucketOk(q, q.dyn[p]);
    ChainRemoved(q, p, j, q.head[j]);
  }

  // ----- moving processes to their buckets -----

  /** Those of s whose bucket is to be j, in the order of s. */
  ghost function Going(s: seq<nat>, to: seq<nat>, j: nat): seq<nat> {
    if s == [] then [] else (if s[0] < |to| && to[s[0]] == j then [s[0]] else []) + Going(s[1..], to, j)
  }

  /** Those in the first n buckets, other than j, whose bucket is to be j: bucket by bucket, each in order. */
  ghost function Arrivals(q: Lists, to: seq<nat>, j: nat, n: nat): seq<nat>
    requires Linked(q) && n <= RUNQLEN
  {
    if n == 0 then []
    else Arrivals(q, to, j, n - 1) + if n - 1 == j then [] else Going(Bucket(q, n - 1), to, j)
  }

  /** Every process has gone to its bucket: those that stay in front, then the arrivals. */
  ghost predicate Refiled(q: Lists, q': Lists, to: seq<nat>) {
    && Linked(q) && Linked(q')
    && forall j: nat :: j < RUNQLEN ==> Bucket(q', j) == Going(Bucket(q, j), to, j) + Arrivals(q, to, j, RUNQLEN)
  }

  lemma {:induction false} GoingJoin(a: seq<nat>, b: seq<nat>, to: seq<nat>, j: nat)
    ensures Going(a + b, to, j) == Going(a, to, j) + Going(b, to, j)
  {
    if a == [] {
      assert a + b == b;
    } else {
      assert (a + b)[1..] == a[1..] + b;
      GoingJoin(a[1..], b, to, j);
    }
  }

  lemma {:induction false} GoingTwice(s: seq<nat>, to: seq<nat>, i: nat, j: nat)
    ensures Going(Going(s, to, i), to, j) == if i == j then Going(s, to, i) else []
  {
    if s != [] {
      GoingTwice(s[1..], to, i, j);
      var first := if s[0] < |to| && to[s[0]] == i then [s[0]] else [];
      GoingJoin(first, Going(s[1..], to, i), to, j);
    }
  }

  lemma GoingNone(to: seq<nat>, j: nat)
    ensures Going([], to, j) == []
  {
  }

  lemma {:induction false} ArrivalsGoing(q: Lists, to: seq<nat>, i: nat, j: nat, n: nat)
    requires Linked(q) && n <= RUNQLEN
    ensures Going(Arrivals(q, to, i, n), to, j) == if i == j then Arrivals(q, to, i, n) else []
  {
    hide Linked, Bucket, Going;
    if n == 0 {
      GoingNone(to, j);
    } else {
      ArrivalsGoing(q, to, i, j, n - 1);
      if n - 1 != i {
        var more := Going(Bucket(q, n - 1), to, i);
        GoingTwice(Bucket(q, n - 1), to, i, j);
        GoingJoin(Arrivals(q, to, i, n - 1), more, to, j);
      } else {
        assert Arrivals(q, to, i, n) == Arrivals(q, to, i, n - 1);
      }
    }
  }

  lemma {:induction false} WithoutJoin(a: seq<nat>, b: seq<nat>, p: nat)
    ensures Without(a + b, p) == Without(a, p) + Without(b, p)
  {
    if a == [] {
      assert a + b == b;
    } else {
      assert (a + b)[1..] == a[1..] + b;
      WithoutJoin(a[1..], b, p);
    }
  }

  lemma {:induction false} WithoutNone(s: seq<nat>, p: nat)
    requires p !in s
    ensures Without(s, p) == s
  {
    if s != [] { WithoutNone(s[1..], p); }
  }

  /** p, of bucket i, moved to the end of bucket j. */
  ghost function Moved(q: Lists, p: nat, j: nat): Lists
    requires Linked(q) && p < NPROC && q.dyn[p] < RUNQLEN && j < RUNQLEN
  {
    Appended(Removed(q, p), p, j)
  }

  lemma MovedLinked(q: Lists, p: nat, i: nat, j: nat)
    requires Linked(q) && In(q, i, p) && i < RUNQLEN && j < RUNQLEN
    ensures Linked(Moved(q, p, j))
  {
    RemoveKeeps(q, p);
    AppendKeeps(Removed(q, p), p, j);
  }

  /** The rest of bucket i is as it was. */
  lemma MovedChain(q: Lists, p: nat, i: nat, j: nat)
    requires Linked(q) && In(q, i, p) && i < RUNQLEN && j < RUNQLEN && j != i && Linked(Moved(q, p, j))
    ensures OnList(q, i, q.next[p]) && OnList(Moved(q, p, j), i, q.next[p])
    ensures Chain(Moved(q, p, j), i, q.next[p]) == Chain(q, i, q.next[p])
    ensures Chain(q, i, p) == [p] + Chain(q, i, q.next[p])
  {
    hide PairOk, FirstOk, PrevOk;
    RemoveKeeps(q, p);
    var q1, u := Removed(q, p), q.next[p];
    assert NextOk(q, p);
    ChainIs(q, i, u);
    WalkNext(q, i, p);
    ChainRemoved(q, p, i, u);
    assert p !in Chain(q, i, u);
    WithoutNone(Chain(q, i, u), p);
    if u != NIL { ChainAppended(q1, p, j, i, u); }
  }

  /** Bucket k after the move; in bucket i the processes in front of p are `front`. */
  lemma MovedBucket(q: Lists, p: nat, i: nat, j: nat, k: nat, front: seq<nat>)
    requires Linked(q) && In(q, i, p) && i < RUNQLEN && j < RUNQLEN && j != i && k < RUNQLEN && Linked(Moved(q, p, j))
    requires OnList(q, i, q.next[p]) && Bucket(q, i) == front + [p] + Chain(q, i, q.next[p])
    ensures Bucket(Moved(q, p, j), k) ==
            if k == i then front + Chain(q, i, q.next[p]) else Bucket(q, k) + if k == j then [p] else []
  {
    hide Linked, Chain, Bucket, Appended;
    BucketRemoved(q, p, k);
    ShapeOf(q);
    BucketAppended(Removed(q, p), p, j, k);
    BucketIs(q, k);
    if k == i {
      var rest := Chain(q, i, q.next[p]);
      NotAmong(front, p, rest);
      WithoutJoin(front + [p], rest, p);
      WithoutJoin(front, [p], p);
      WithoutNone(front, p);
      WithoutNone(rest, p);
    } else {
      WithoutNone(Bucket(q, k), p);
    }
  }

  lemma NotAmong(a: seq<nat>, p: nat, b: seq<nat>)
    requires var s := a + [p] + b; forall m, n :: 0 <= m < n < |s| ==> s[m] != s[n]
    ensures p !in a && p !in b
  {
    var s := a + [p] + b;
    assert s[|a|] == p;
    forall m | 0 <= m < |a| ensures a[m] != p { assert s[m] == a[m]; }
    forall m | 0 <= m < |b| ensures b[m] != p { assert s[|a| + 1 + m] == b[m]; }
  }

  /** Walking bucket i of q0, `done` behind the walker and p next: those done have gone to their buckets. */
  ghost predicate Sweep(q0: Lists, q: Lists, to: seq<nat>, i: nat, p: nat, done: seq<nat>) {
    && Linked(q0) && Linked(q) && i < RUNQLEN && OnList(q, i, p)
    && Bucket(q0, i) == done + Chain(q, i, p) && Bucket(q, i) == Going(done, to, i) + Chain(q, i, p)
    && forall j: nat :: j < RUNQLEN && j != i ==> Bucket(q, j) == Bucket(q0, j) + Going(done, to, j)
  }

  /** Bucket i of q0 has been walked to its end. */
  ghost predicate Swept(q0: Lists, q: Lists, to: seq<nat>, i: nat) {
    && Linked(q0) && Linked(q) && i < RUNQLEN
    && forall j: nat :: j < RUNQLEN ==>
         Bucket(q, j) == (if j == i then [] else Bucket(q0, j)) + Going(Bucket(q0, i), to, j)
  }

  lemma SweepStart(q: Lists, to: seq<nat>, i: nat)
    requires Linked(q) && i < RUNQLEN
    ensures OnList(q, i, q.head[i]) && Sweep(q, q, to, i, q.head[i], [])
  {
    assert BucketOk(q, i);
  }

  lemma GoingOne(done: seq<nat>, p: nat, to: seq<nat>, j: nat)
    requires p < |to|
    ensures Going(done + [p], to, j) == Going(done, to, j) + if to[p] == j then [p] else []
  {
    GoingJoin(done, [p], to, j);
  }

  lemma SweepStay(q0: Lists, q: Lists, to: seq<nat>, i: nat, p: nat, done: seq<nat>)
    requires Sweep(q0, q, to, i, p, done) && p < |to| == NPROC && to[p] == i
    ensures OnList(q, i, q.next[p]) && Sweep(q0, q, to, i, q.next[p], done + [p])
    ensures Chain(q, i, p) == [p] + Chain(q, i, q.next[p])
  {
    hide Bucket, PairOk, FirstOk, PrevOk, BucketOk, Going;
    assert NextOk(q, p);
    forall j: nat ensures Going(done + [p], to, j) == Going(done, to, j) + if to[p] == j then [p] else [] {
      GoingOne(done, p, to, j);
    }
  }

  lemma SweepMove(q0: Lists, q: Lists, to: seq<nat>, i: nat, p: nat, done: seq<nat>)
    requires Sweep(q0, q, to, i, p, done) && p < |to| == NPROC && to[p] != i && to[p] < RUNQLEN
    ensures Shape(q) && q.dyn[p] < RUNQLEN
    ensures Sweep(q0, Moved(q, p, to[p]), to, i, q.next[p], done + [p])
    ensures OnList(Moved(q, p, to[p]), i, q.next[p])
    ensures Chain(q, i, p) == [p] + Chain(Moved(q, p, to[p]), i, q.next[p])
  {
    hide Linked, Bucket, Going, Moved;
    ShapeOf(q);
    var t, u := to[p], q.next[p];
    MovedLinked(q, p, i, t);
    MovedChain(q, p, i, t);
    var q' := Moved(q, p, t);
    var front := Going(done, to, i);
    assert Bucket(q, i) == front + [p] + Chain(q, i, u);
    forall j: nat | j < RUNQLEN
      ensures Bucket(q', j) == if j == i then front + Chain(q, i, u) else Bucket(q, j) + if j == t then [p] else []
      ensures Going(done + [p], to, j) == Going(done, to, j) + if t == j then [p] else []
    {
      MovedBucket(q, p, i, t, j, front);
      GoingOne(done, p, to, j);
    }
    assert done + Chain(q, i, p) == done + [p] + Chain(q', i, u);
  }

  lemma SweepEnd(q0: Lists, q: Lists, to: seq<nat>, i: nat, done: seq<nat>)
    requires Sweep(q0, q, to, i, NIL, done)
    ensures Swept(q0, q, to, i)
  {
    assert Chain(q, i, NIL) == [];
    assert done == Bucket(q0, i);
  }

  /** The first i buckets have been swept. */
  ghost predicate Partly(q0: Lists, q: Lists, to: seq<nat>, i: nat) {
    && Linked(q0) && Linked(q) && i <= RUNQLEN
    && forall j: nat :: j < RUNQLEN ==>
         Bucket(q, j) == (if j < i then Going(Bucket(q0, j), to, j) else Bucket(q0, j)) + Arrivals(q0, to, j, i)
  }

  lemma PartlyStart(q: Lists, to: seq<nat>)
    requires Linked(q)
    ensures Partly(q, q, to, 0)
  {
  }

  lemma PartlyEnd(q0: Lists, q: Lists, to: seq<nat>)
    requires Partly(q0, q, to, RUNQLEN)
    ensures Refiled(q0, q, to)
  {
  }

  lemma PartlyStep(q0: Lists, q: Lists, to: seq<nat>, i: nat, q': Lists)
    requires Partly(q0, q, to, i) && Swept(q, q', to, i)
    ensures Partly(q0, q', to, i + 1)
  {
    hide Linked, Bucket, Going;
    var b, a := Bucket(q0, i), Arrivals(q0, to, i, i);
    assert Bucket(q, i) == b + a;
    forall j: nat | j < RUNQLEN
      ensures Bucket(q', j) ==
              (if j < i + 1 then Going(Bucket(q0, j), to, j) else Bucket(q0, j)) + Arrivals(q0, to, j, i + 1)
    {
      GoingJoin(b, a, to, j);
      ArrivalsGoing(q0, to, i, j, i);
    }
  }

  lemma {:induction false} GoingMember(s: seq<nat>, to: seq<nat>, j: nat, x: nat)
    requires x in Going(s, to, j)
    ensures x < |to| && to[x] == j
  {
    if s != [] && x in Going(s[1..], to, j) { GoingMember(s[1..], to, j, x); }
  }

  lemma {:induction false} ArrivalsMember(q: Lists, to: seq<nat>, j: nat, n: nat, x: nat)
    requires Linked(q) && n <= RUNQLEN && x in Arrivals(q, to, j, n)
    ensures x < |to| && to[x] == j
  {
    hide Linked, Bucket, Going;
    if x in Arrivals(q, to, j, n - 1) {
      ArrivalsMember(q, to, j, n - 1, x);
    } else {
      GoingMember(Bucket(q, n - 1), to, j, x);
    }
  }

  /** Afterwards everyone queued is in their bucket. */
  lemma RefiledDyn(q: Lists, q': Lists, to: seq<nat>, x: nat)
    requires Refiled(q, q', to) && x < NPROC && q'.on[x]
    ensures x < |to| && q'.dyn[x] == to[x]
  {
    hide Bucket, Going, Arrivals;
    assert NextOk(q', x);
    var j := q'.dyn[x];
    BucketIs(q', j);
    assert x in Bucket(q', j) && Bucket(q', j) == Going(Bucket(q, j), to, j) + Arrivals(q, to, j, RUNQLEN);
    if x in Going(Bucket(q, j), to, j) {
      GoingMember(Bucket(q, j), to, j, x);
    } else {
      ArrivalsMember(q, to, j, RUNQLEN, x);
    }
  }
}
