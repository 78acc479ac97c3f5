/** The run queue as a value: intrusive doubly linked lists, one per priority. */
module RunQueue {
  import opened Ctz

  const NPROC: nat := 64
  const NIL: nat := NPROC     // the null pointer

  datatype Lists = Lists(
    next: seq<nat>, prev: seq<nat>, on: seq<bool>, dyn: seq<nat>, head: seq<nat>, tail: seq<nat>,
    key: seq<int>, top: int)  // history: order of arrival, and a bound on it

  ghost predicate Shape(q: Lists) {
    && |q.next| == NPROC && |q.prev| == NPROC && |q.on| == NPROC && |q.dyn| == NPROC && |q.key| == NPROC
    && |q.head| == RUNQLEN && |q.tail| == RUNQLEN
  }

  /** x is queued in bucket i. */
  ghost predicate In(q: Lists, i: nat, x: nat)
    requires Shape(q)
  {
    x < NPROC && q.on[x] && q.dyn[x] == i
  }

  ghost predicate NextOk(q: Lists, x: nat)
    requires Shape(q)
  {
    x < NPROC && q.on[x] ==>
      && q.dyn[x] < RUNQLEN && q.key[x] < q.top
      && (if q.next[x] == NIL then q.tail[q.dyn[x]] == x
          else In(q, q.dyn[x], q.next[x]) && q.prev[q.next[x]] == x && q.key[x] < q.key[q.next[x]])
  }

  ghost predicate PrevOk(q: Lists, x: nat)
    requires Shape(q)
  {
    x < NPROC && q.on[x] ==>
      && q.dyn[x] < RUNQLEN
      && (if q.prev[x] == NIL then q.head[q.dyn[x]] == x
          else In(q, q.dyn[x], q.prev[x]) && q.next[q.prev[x]] == x)
  }

  ghost predicate BucketOk(q: Lists, i: nat)
    requires Shape(q)
  {
    i < RUNQLEN ==>
      && (q.head[i] == NIL <==> q.tail[i] == NIL)
      && (q.head[i] != NIL ==> In(q, i, q.head[i]) && q.prev[q.head[i]] == NIL)
      && (q.tail[i] != NIL ==> In(q, i, q.tail[i]) && q.next[q.tail[i]] == NIL)
  }

  /** The list order leaves nothing out. */
  ghost predicate PairOk(q: Lists, x: nat, y: nat)
    requires Shape(q)
  {
    x < NPROC && y < NPROC && q.on[x] && q.on[y] && q.dyn[x] == q.dyn[y] && x != y ==>
      q.key[x] != q.key[y] && (q.key[x] < q.key[y] ==> q.next[x] < NPROC && q.key[q.next[x]] <= q.key[y])
  }

  ghost predicate FirstOk(q: Lists, y: nat)
    requires Shape(q)
  {
    y < NPROC && q.on[y] ==> q.dyn[y] < RUNQLEN && q.head[q.dyn[y]] < NPROC && q.key[q.head[q.dyn[y]]] <= q.key[y]
  }

  ghost predicate Linked(q: Lists) {
    && Shape(q)
    && (forall x: nat :: NextOk(q, x))
    && (forall x: nat :: PrevOk(q, x))
    && (forall i: nat :: BucketOk(q, i))
    && (forall x: nat, y: nat :: PairOk(q, x, y))
    && (forall y: nat :: FirstOk(q, y))
  }

  // ----- the list operations -----

  ghost function Appended(q: Lists, p: nat, i: nat): Lists
    requires Shape(q) && p < NPROC && i < RUNQLEN
  {
    var last := q.tail[i];
    q.(dyn := q.dyn[p := i], on := q.on[p := true],
       next := if last < NPROC then q.next[p := NIL][last := p] else q.next[p := NIL],
       prev := q.prev[p := last],
       head := if last < NPROC then q.head else q.head[i := p],
       tail := q.tail[i := p],
       key := q.key[p := q.top], top := q.top + 1)
  }

  lemma AppendNext(q: Lists, p: nat, i: nat, x: nat)
    requires Linked(q) && p < NPROC && !q.on[p] && i < RUNQLEN
    ensures NextOk(Appended(q, p, i), x)
  {
    assert NextOk(q, x) && BucketOk(q, i);
    if x < NPROC && q.on[x] { assert NextOk(q, q.next[x]); }
  }

  lemma AppendPrev(q: Lists, p: nat, i: nat, x: nat)
    requires Linked(q) && p < NPROC && !q.on[p] && i < RUNQLEN
    ensures PrevOk(Appended(q, p, i), x)
  {
    assert PrevOk(q, x) && BucketOk(q, i);
    if x < NPROC && q.on[x] { assert PrevOk(q, q.prev[x]); }
  }

  lemma AppendFirst(q: Lists, p: nat, i: nat, x: nat)
    requires Linked(q) && p < NPROC && !q.on[p] && i < RUNQLEN
    ensures FirstOk(Appended(q, p, i), x)
  {
    assert FirstOk(q, x) && BucketOk(q, i) && NextOk(q, x);
    if x < NPROC && q.on[x] { assert BucketOk(q, q.dyn[x]); }
    assert q.head[i] < NPROC ==> NextOk(q, q.head[i]);
  }

  lemma AppendBucket(q: Lists, p: nat, i: nat, j: nat)
    requires Linked(q) && p < NPROC && !q.on[p] && i < RUNQLEN
    ensures BucketOk(Appended(q, p, i), j)
  {
    assert BucketOk(q, i) && BucketOk(q, j);
  }

  lemma AppendPair(q: Lists, p: nat, i: nat, x: nat, y: nat)
    requires Linked(q) && p < NPROC && !q.on[p] && i < RUNQLEN
    ensures PairOk(Appended(q, p, i), x, y)
  {
    assert PairOk(q, x, y) && NextOk(q, x) && NextOk(q, y) && BucketOk(q, i);
    assert PairOk(q, q.tail[i], y) && PairOk(q, x, q.tail[i]);
    if x < NPROC && q.on[x] { assert NextOk(q, q.next[x]); }
  }

  lemma AppendKeeps(q: Lists, p: nat, i: nat)
    requires Linked(q) && p < NPROC && !q.on[p] && i < RUNQLEN
    ensures Linked(Appended(q, p, i))
  {
    hide NextOk, PrevOk, BucketOk, PairOk, FirstOk;
    forall x: nat ensures NextOk(Appended(q, p, i), x) { AppendNext(q, p, i, x); }
    forall x: nat ensures PrevOk(Appended(q, p, i), x) { AppendPrev(q, p, i, x); }
    forall x: nat ensures FirstOk(Appended(q, p, i), x) { AppendFirst(q, p, i, x); }
    forall j: nat ensures BucketOk(Appended(q, p, i), j) { AppendBucket(q, p, i, j); }
    forall x: nat, y: nat ensures PairOk(Appended(q, p, i), x, y) { AppendPair(q, p, i, x, y); }
  }

  ghost function Removed(q: Lists, p: nat): Lists
    requires Shape(q) && p < NPROC && q.dyn[p] < RUNQLEN
  {
    var i, nx, pr := q.dyn[p], q.next[p], q.prev[p];
    q.(next := (if pr < NPROC then q.next[pr := nx] else q.next)[p := NIL],
       prev := (if nx < NPROC then q.prev[nx := pr] else q.prev)[p := NIL],
       head := if pr < NPROC then q.head else q.head[i := nx],
       tail := if nx < NPROC then q.tail else q.tail[i := pr],
       on := q.on[p := false])
  }

  lemma RemoveNext(q: Lists, p: nat, x: nat)
    requires Linked(q) && p < NPROC && q.on[p] && q.dyn[p] < RUNQLEN
    ensures NextOk(Removed(q, p), x)
  {
    assert NextOk(q, x) && NextOk(q, p) && PrevOk(q, p);
    if x < NPROC && q.on[x] && q.next[x] < NPROC { assert PrevOk(q, q.next[x]); }
    if q.next[p] < NPROC { assert PrevOk(q, q.next[p]); }
  }

  lemma RemovePrev(q: Lists, p: nat, x: nat)
    requires Linked(q) && p < NPROC && q.on[p] && q.dyn[p] < RUNQLEN
    ensures PrevOk(Removed(q, p), x)
  {
    assert PrevOk(q, x) && NextOk(q, p) && PrevOk(q, p);
    if x < NPROC && q.on[x] && q.prev[x] < NPROC { assert NextOk(q, q.prev[x]); }
    if q.prev[p] < NPROC { assert NextOk(q, q.prev[p]); }
  }

  lemma RemoveFirst(q: Lists, p: nat, x: nat)
    requires Linked(q) && p < NPROC && q.on[p] && q.dyn[p] < RUNQLEN
    ensures FirstOk(Removed(q, p), x)
  {
    assert FirstOk(q, x) && PrevOk(q, p) && NextOk(q, p) && PairOk(q, p, x);
    if q.prev[p] < NPROC { assert NextOk(q, q.prev[p]) && BucketOk(q, q.dyn[p]); }
  }

  lemma RemoveBucket(q: Lists, p: nat, j: nat)
    requires Linked(q) && p < NPROC && q.on[p] && q.dyn[p] < RUNQLEN
    ensures BucketOk(Removed(q, p), j)
  {
    assert BucketOk(q, j) && NextOk(q, p) && PrevOk(q, p);
    if q.next[p] < NPROC { assert PrevOk(q, q.next[p]); }
    if q.prev[p] < NPROC { assert NextOk(q, q.prev[p]); }
  }

  lemma RemovePair(q: Lists, p: nat, x: nat, y: nat)
    requires Linked(q) && p < NPROC && q.on[p] && q.dyn[p] < RUNQLEN
    ensures PairOk(Removed(q, p), x, y)
  {
    assert PairOk(q, x, y) && NextOk(q, p) && PrevOk(q, p) && PairOk(q, p, y);
  }

  lemma RemoveKeeps(q: Lists, p: nat)
    requires Linked(q) && p < NPROC && q.on[p] && q.dyn[p] < RUNQLEN
    ensures Linked(Removed(q, p))
  {
    hide NextOk, PrevOk, BucketOk, PairOk, FirstOk;
    forall x: nat ensures NextOk(Removed(q, p), x) { RemoveNext(q, p, x); }
    forall x: nat ensures PrevOk(Removed(q, p), x) { RemovePrev(q, p, x); }
    forall x: nat ensures FirstOk(Removed(q, p), x) { RemoveFirst(q, p, x); }
    forall j: nat ensures BucketOk(Removed(q, p), j) { RemoveBucket(q, p, j); }
    forall x: nat, y: nat ensures PairOk(Removed(q, p), x, y) { RemovePair(q, p, x, y); }
  }

  // ----- walking a list -----

  /** x is at t or behind it. */
  ghost predicate Ahead(q: Lists, t: nat, x: nat)
    requires Shape(q) && x < NPROC
  {
    t < NPROC && q.key[t] <= q.key[x]
  }

  ghost predicate OnList(q: Lists, i: nat, t: nat)
    requires Shape(q)
  {
    t == NIL || In(q, i, t)
  }

  lemma WalkStart(q: Lists, i: nat)
    requires Linked(q) && i < RUNQLEN
    ensures Shape(q) && OnList(q, i, q.head[i])
    ensures forall x: nat :: x < NPROC && In(q, i, x) ==> Ahead(q, q.head[i], x)
  {
    assert BucketOk(q, i);
    forall x: nat | x < NPROC && In(q, i, x) ensures Ahead(q, q.head[i], x) { assert FirstOk(q, x); }
  }

  lemma WalkNext(q: Lists, i: nat, t: nat)
    requires Linked(q) && i < RUNQLEN && Shape(q) && In(q, i, t)
    ensures OnList(q, i, q.next[t])
    ensures forall x: nat :: x < NPROC && In(q, i, x) && Ahead(q, t, x) ==> x == t || Ahead(q, q.next[t], x)
    ensures forall x: nat :: x < NPROC && Ahead(q, q.next[t], x) ==> x != t && Ahead(q, t, x)
  {
    assert NextOk(q, t);
    forall x: nat | x < NPROC && In(q, i, x) && Ahead(q, t, x) ensures x == t || Ahead(q, q.next[t], x) {
      assert PairOk(q, t, x);
    }
  }

  lemma AheadFacts(q: Lists, t: nat)
    requires Shape(q)
    ensures if t < NPROC then Ahead(q, t, t) else forall x: nat :: x < NPROC ==> !Ahead(q, t, x)
  {
  }

  // ----- the bitmap -----

  ghost predicate BitOk(bitmap: Bitmap, q: Lists, i: nat)
    requires Shape(q)
  {
    i < RUNQLEN ==> (Has(bitmap, i) <==> q.head[i] != NIL)
  }

  ghost predicate Mapped(bitmap: Bitmap, q: Lists)
    requires Shape(q)
  {
    InRange(bitmap) && forall i: nat :: BitOk(bitmap, q, i)
  }

  ghost predicate Queue(bitmap: Bitmap, q: Lists) {
    Linked(q) && Mapped(bitmap, q)
  }

  lemma AppendMapped(bitmap: Bitmap, q: Lists, p: nat, i: nat)
    requires Queue(bitmap, q) && p < NPROC && !q.on[p] && i < RUNQLEN
    ensures Queue(Set(bitmap, i), Appended(q, p, i))
  {
    hide Linked, Has, Set, InRange;
    AppendKeeps(q, p, i);
    BitmapChanged(bitmap, i, i);
    ShapeOf(q);
    ShapeOf(Appended(q, p, i));
    forall j: nat ensures BitOk(Set(bitmap, i), Appended(q, p, i), j) {
      assert BitOk(bitmap, q, j);
      if j < RUNQLEN { BitmapChanged(bitmap, i, j); HeadAfterAppend(q, p, i, j); }
    }
  }

  lemma HeadAfterAppend(q: Lists, p: nat, i: nat, j: nat)
    requires Linked(q) && p < NPROC && i < RUNQLEN && j < RUNQLEN
    ensures Appended(q, p, i).head[j] != NIL <==> i == j || q.head[j] != NIL
  {
    assert BucketOk(q, i);
  }

  lemma RemoveMapped(bitmap: Bitmap, q: Lists, p: nat)
    requires Queue(bitmap, q) && p < NPROC && q.on[p] && q.dyn[p] < RUNQLEN
    ensures var q' := Removed(q, p);
            Queue(if q'.head[q.dyn[p]] == NIL then Clear(bitmap, q.dyn[p]) else bitmap, q')
  {
    hide Linked, Has, Clear, InRange;
    RemoveKeeps(q, p);
    ShapeOf(q);
    var q', i := Removed(q, p), q.dyn[p];
    BitmapChanged(bitmap, i, i);
    ShapeOf(q');
    var after := if q'.head[i] == NIL then Clear(bitmap, i) else bitmap;
    forall j: nat ensures BitOk(after, q', j) {
      assert BitOk(bitmap, q, j);
      if j < RUNQLEN { BitmapChanged(bitmap, i, j); HeadAfterRemove(q, p); }
    }
  }

  lemma HeadAfterRemove(q: Lists, p: nat)
    requires Linked(q) && p < NPROC && q.on[p] && q.dyn[p] < RUNQLEN
    ensures q.head[q.dyn[p]] != NIL
  {
    assert FirstOk(q, p);
  }

  lemma ShapeOf(q: Lists)
    requires Linked(q)
    ensures Shape(q)
  {
  }

  lemma DynOf(q: Lists, p: nat)
    requires Linked(q) && p < NPROC && Shape(q) && q.on[p]
    ensures q.dyn[p] < RUNQLEN && q.next[p] <= NPROC && q.prev[p] <= NPROC && q.next[p] != p && q.prev[p] != p
  {
    assert NextOk(q, p) && PrevOk(q, p);
    if q.prev[p] < NPROC { assert NextOk(q, q.prev[p]); }
  }
}
