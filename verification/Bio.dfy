/** The code of the buffer cache, working in place. */
module Bio {
  import opened Wrappers
  import opened BioModel

  /** The buffer to evict from bucket i: oldest, and first in the list among equally old ones. */
  ghost predicate OldestFree(l: Lists, bufs: seq<Buf>, i: nat, v: nat)
    requires Shape(l) && |bufs| == NBUF
  {
    && v < NBUF && l.bucket[v] == i && bufs[v].refcnt == 0
    && forall w: nat :: w < NBUF && l.bucket[w] == i && bufs[w].refcnt == 0 ==> NotBefore(l, bufs, v, w)
  }

  ghost predicate NotBefore(l: Lists, bufs: seq<Buf>, v: nat, w: nat)
    requires Shape(l) && |bufs| == NBUF && v < NBUF && w < NBUF
  {
    bufs[v].stamp < bufs[w].stamp || (bufs[v].stamp == bufs[w].stamp && l.key[v] <= l.key[w])
  }

  ghost predicate NoneFree(l: Lists, bufs: seq<Buf>, i: nat)
    requires Shape(l) && |bufs| == NBUF
  {
    forall x: nat :: x < NBUF && l.bucket[x] == i ==> bufs[x].refcnt > 0
  }

  /** The k-th bucket in cyclic order from bid. */
  function Nth(bid: nat, k: nat): (i: nat)
    requires bid < NBUCKET && k < NBUCKET
    ensures i < NBUCKET
  {
    if bid + k < NBUCKET then bid + k else bid + k - NBUCKET
  }

  ghost predicate Cached(c: Cache, a: Addr) {
    exists b: nat :: b < |c.bufs| && c.bufs[b].addr == a
  }

  lemma Covered(l: Lists, bufs: seq<Buf>, bid: nat)
    requires Linked(l, {}) && |bufs| == NBUF && bid < NBUCKET
    requires forall k: nat :: k < NBUCKET ==> NoneFree(l, bufs, Nth(bid, k))
    ensures forall x: nat :: x < NBUF ==> bufs[x].refcnt > 0
  {
    forall x: nat | x < NBUF ensures bufs[x].refcnt > 0 {
      assert NodeOk(l, {}, x);
      var i := l.bucket[x];
      var k := if i >= bid then i - bid else i + NBUCKET - bid;
      assert Nth(bid, k) == i;
    }
  }

  lemma LinksOf(l: Lists, b: nat)
    requires Linked(l, {}) && b < NBUF
    ensures Shape(l) && l.next[b] < NODES && l.prev[b] < NODES && l.prev[b] != b && l.next[b] != b
  {
    assert NodeOk(l, {}, b) && FirstOk(l, {}, b) && NodeOk(l, {}, l.prev[b]) && NodeOk(l, {}, Head(l.bucket[b]));
  }

  lemma EmptyLinked(l: Lists, out: set<nat>)
    requires Shape(l) && forall x: nat :: x in out <==> x < NBUF
    requires forall x :: NBUF <= x < NODES ==> l.next[x] == x && l.prev[x] == x && l.bucket[x] == x - NBUF
    ensures Linked(l, out)
  {
  }

  lemma InitInv(c: Cache)
    requires Linked(c.lists, {}) && Shape(c.lists) && |c.bufs| == NBUF && c.latest == c.disk && c.dirty == map[]
    requires forall x :: 0 <= x < NBUF ==> c.lists.bucket[x] == 0
    requires forall b :: 0 <= b < NBUF ==> c.bufs[b].addr == Addr(0, 0) && c.bufs[b].refcnt == 0 && !c.bufs[b].valid
    ensures Inv(c)
  {
  }

  lemma ShapeOf(l: Lists)
    requires Linked(l, {})
    ensures Shape(l)
  {
  }

  lemma HashOf(c: Cache, b: nat)
    requires Inv(c) && b < NBUF
    ensures Shape(c.lists) && |c.bufs| == NBUF && c.lists.bucket[b] == Hash(c.bufs[b].addr.blockno)
    ensures c.bufs[b].valid && c.bufs[b].addr.dev != 0 ==> c.bufs[b].data == At(c.latest, c.bufs[b].addr)
  {
    assert BufOk(c, b);
  }

  lemma Counts(c: Cache)
    requires Inv(c)
    ensures |c.bufs| == NBUF && Linked(c.lists, {}) && Shape(c.lists)
  {
  }

  lemma CountOf(c: Cache, b: nat)
    requires Inv(c) && b < NBUF
    ensures |c.bufs| == NBUF && c.bufs[b].refcnt < UINTMOD
    ensures c.bufs[b].valid && c.bufs[b].addr.dev != 0 ==> c.bufs[b].data == At(c.latest, c.bufs[b].addr)
  {
    assert BufOk(c, b);
  }

  lemma Victim(c: Cache, i: nat, b: nat)
    requires Linked(c.lists, {}) && |c.bufs| == NBUF && b < NBUF && OldestFree(c.lists, c.bufs, i, b)
    ensures c.bufs[b].refcnt == 0 && c.lists.bucket[b] == i && NodeOk(c.lists, {}, b)
  {
    assert NodeOk(c.lists, {}, b);
  }

  class Bcache {
    var next: seq<nat>
    var prev: seq<nat>
    var bufs: seq<Buf>
    var disk: map<Addr, Block>
    ghost var bucket: seq<nat>
    ghost var key: seq<int>
    ghost var floor: int
    ghost var latest: map<Addr, Block>
    ghost var dirty: map<Addr, nat>

    ghost function List(): Lists
      reads this
    {
      Lists(next, prev, bucket, key, floor)
    }

    ghost function Now(): Cache
      reads this
    {
      Cache(List(), bufs, disk, latest, dirty)
    }

    /** binit: every buffer in bucket 0, for device 0. */
    constructor (disk: map<Addr, Block>)
      ensures Inv(Now()) && this.disk == disk && latest == disk && dirty == map[]
      ensures forall b :: 0 <= b < NBUF ==> bufs[b].addr == Addr(0, 0) && bufs[b].refcnt == 0 && !bufs[b].valid
    {
      this.disk, latest, dirty := disk, disk, map[];
      bufs := seq(NBUF, _ => Buf(Addr(0, 0), 0, 0, false, []));
      next, prev := seq(NODES, _ => 0), seq(NODES, _ => 0);
      bucket, key, floor := seq(NODES, i => if i >= NBUF then i - NBUF else 0), seq(NODES, _ => 0), 0;
      new;
      LinkAll();
      InitInv(Now());
    }

    /** The two loops of binit. */
    method LinkAll()
      requires Shape(List()) && forall x :: NBUF <= x < NODES ==> bucket[x] == x - NBUF
      modifies this`next, this`prev, this`bucket, this`key, this`floor
      ensures Linked(List(), {}) && Shape(List()) && forall x :: 0 <= x < NBUF ==> bucket[x] == 0
    {
      hide Linked;
      var i := 0;
      while i < NBUCKET
        invariant 0 <= i <= NBUCKET && |next| == NODES && |prev| == NODES
        invariant forall x :: NBUF <= x < NBUF + i ==> next[x] == x && prev[x] == x
        modifies this`next, this`prev
      {
        prev := prev[Head(i) := Head(i)];
        next := next[Head(i) := Head(i)];
        i := i + 1;
      }
      ghost var out := Upto(NBUF);
      EmptyLinked(List(), out);
      var b := 0;
      while b < NBUF
        invariant 0 <= b <= NBUF && (forall x: nat :: x in out <==> b <= x < NBUF)
        invariant Linked(List(), out) && Shape(List()) && forall x :: 0 <= x < b ==> bucket[x] == 0
        modifies this`next, this`prev, this`bucket, this`key, this`floor
      {
        PushHead(b, 0, out);
        out := out - {b};
        b := b + 1;
      }
      assert out == {};
    }

    /** Insertion at the head of bucket i. */
    method PushHead(b: nat, i: nat, ghost out: set<nat>)
      requires Linked(List(), out) && b in out && b < NBUF && i < NBUCKET
      modifies this`next, this`prev, this`bucket, this`key, this`floor
      ensures Shape(old(List())) && old(next)[Head(i)] < NODES && List() == Pushed(old(List()), b, i)
      ensures Linked(List(), out - {b})
    {
      ghost var l := List();
      assert NodeOk(l, out, Head(i));
      PushKeeps(l, out, b, i);
      next := next[b := next[Head(i)]];
      prev := prev[b := Head(i)];
      prev := prev[next[Head(i)] := b];
      next := next[Head(i) := b];
      bucket, key, floor := bucket[b := i], key[b := floor - 1], floor - 1;
    }

    /** A buffer taken out of its bucket and put at the head of another. */
    method Move(b: nat, i: nat)
      requires Linked(List(), {}) && b < NBUF && i < NBUCKET
      modifies this`next, this`prev, this`bucket, this`key, this`floor
      ensures Linked(List(), {}) && bucket == old(bucket)[b := i]
    {
      hide Linked;
      ghost var l := List();
      LinksOf(l, b);
      UnlinkKeeps(l, b);
      prev := prev[next[b] := prev[b]];
      next := next[prev[b] := next[b]];
      PushHead(b, i, {b});
      assert {b} - {b} == {};
    }

    /** The first loop of bget: the buffer of a block, or NBUF. */
    method Find(a: Addr) returns (b: nat)
      requires Inv(Now())
      ensures b <= NBUF && (b < NBUF ==> bufs[b].addr == a)
      ensures b == NBUF ==> forall x: nat :: x < NBUF ==> bufs[x].addr != a
    {
      hide Linked, Ahead, Coherent;
      ghost var l, bid, todo := List(), Hash(a.blockno), Upto(NBUF);
      Counts(Now());
      WalkStart(l, bid);
      b := next[Head(Hash(a.blockno))];
      while b != Head(Hash(a.blockno))
        invariant OnList(l, bid, b)
        invariant forall x: nat :: x < NBUF && bucket[x] == bid && bufs[x].addr == a ==> Ahead(l, b, x)
        invariant forall x: nat :: x < NBUF && Ahead(l, b, x) ==> x in todo
        decreases todo
      {
        if bufs[b].addr == a { return; }
        WalkNext(l, bid, b);
        AheadFacts(l, b);
        todo := todo - {b};
        b := next[b];
      }
      AheadFacts(l, b);
      b := NBUF;
      forall x: nat | x < NBUF ensures bufs[x].addr != a { HashOf(Now(), x); }
    }

    /** The scan of one bucket for a victim, NBUF when nothing in it is free. */
    method Oldest(i: nat) returns (b: nat)
      requires Linked(List(), {}) && |bufs| == NBUF && i < NBUCKET
      ensures b < NBUF ==> OldestFree(List(), bufs, i, b)
      ensures b >= NBUF ==> b == NBUF && NoneFree(List(), bufs, i)
    {
      hide Linked;
      ghost var l, todo := List(), Upto(NBUF);
      ShapeOf(l);
      WalkStart(l, i);
      b := NBUF;
      var tmp: nat := next[Head(i)];
      while tmp != Head(i)
        invariant OnList(l, i, tmp) && b <= NBUF
        invariant b < NBUF ==> bucket[b] == i && bufs[b].refcnt == 0 && (tmp < NBUF ==> key[b] < key[tmp])
        invariant forall x: nat :: x < NBUF && bucket[x] == i && bufs[x].refcnt == 0 ==>
                    (b < NBUF && NotBefore(l, bufs, b, x)) || Ahead(l, tmp, x)
        invariant forall x: nat :: x < NBUF && Ahead(l, tmp, x) ==> x in todo
        decreases todo
      {
        WalkNext(l, i, tmp);
        assert Ahead(l, tmp, tmp);
        if bufs[tmp].refcnt == 0 && (b == NBUF || bufs[tmp].stamp < bufs[b].stamp) { b := tmp; }
        todo := todo - {tmp};
        tmp := next[tmp];
      }
    }

    /**
     bget at time `ticks`: the block's buffer with one more reference, or else the oldest
     free buffer of the first bucket (in cyclic order from the block's own) that has one,
     moved to the block's bucket and renamed. NBUF stands for the panic "no buffers",
     reached exactly when the block is not cached and every buffer is referenced. A count at
     its maximum wraps to 0, and coherence is lost exactly when that buffer holds an
     unwritten change.
     */
    method Bget(a: Addr, ticks: nat) returns (b: nat, ghost k: nat)
      requires Inv(Now()) && a.dev != 0
      modifies this`next, this`prev, this`bufs, this`bucket, this`key, this`floor, this`dirty
      ensures b <= NBUF && |bufs| == |old(bufs)| == NBUF
      ensures Inv(Now()) <==> !(b < NBUF && old(bufs)[b].refcnt == UINTMOD - 1 && Unwritten(old(Now()), b))
      ensures b == NBUF ==> Now() == old(Now()) && !Cached(Now(), a) && forall x :: 0 <= x < NBUF ==> bufs[x].refcnt > 0
      ensures b < NBUF && old(Cached(Now(), a)) ==>
                && old(bufs)[b].addr == a && List() == old(List()) && old(bufs)[b].refcnt < UINTMOD
                && bufs == old(bufs)[b := old(bufs)[b].(refcnt := Inc(old(bufs)[b].refcnt), stamp := ticks)]
      ensures b < NBUF && !old(Cached(Now(), a)) ==>
                && k < NBUCKET && old(bufs)[b].refcnt == 0
                && OldestFree(old(List()), old(bufs), Nth(Hash(a.blockno), k), b)
                && (forall j: nat :: j < k ==> NoneFree(old(List()), old(bufs), Nth(Hash(a.blockno), j)))
                && bufs == old(bufs)[b := Buf(a, 1, ticks, false, old(bufs)[b].data)]
                && bucket == old(bucket)[b := Hash(a.blockno)]
    {
      hide Linked, OldestFree, NoneFree, Coherent;
      k := 0;
      Counts(Now());
      ghost var c := Now();
      b := Find(a);
      if b < NBUF {
        assert Cached(c, a);
        CountOf(c, b);
        Recount(b, Inc(bufs[b].refcnt), ticks);
        return;
      }
      var bid := Hash(a.blockno);
      var i, cycle := bid, 0;
      while cycle != NBUCKET
        invariant 0 <= cycle <= NBUCKET && Now() == c && i == (if cycle < NBUCKET then Nth(bid, cycle) else bid)
        invariant forall j: nat :: j < cycle ==> NoneFree(c.lists, c.bufs, Nth(bid, j))
        decreases NBUCKET - cycle
      {
        k := cycle;
        cycle := cycle + 1;
        b := Oldest(i);
        if b < NBUF {
          Victim(c, i, b);
          if i != bid { Move(b, bid); }
          Recycle(c, List(), b, a, ticks);
          bufs := bufs[b := Buf(a, 1, ticks, false, bufs[b].data)];
          return;
        }
        i := (i + 1) % NBUCKET;
      }
      b := NBUF;
      Covered(c.lists, c.bufs, bid);
    }

    /** bread: a referenced buffer with the block's latest contents. */
    method Bread(a: Addr, ticks: nat) returns (b: nat)
      requires Inv(Now()) && a.dev != 0
      modifies this`next, this`prev, this`bufs, this`bucket, this`key, this`floor, this`dirty
      ensures b <= NBUF && |bufs| == |old(bufs)| == NBUF
      ensures Inv(Now()) <==> !(b < NBUF && old(bufs)[b].refcnt == UINTMOD - 1 && Unwritten(old(Now()), b))
      ensures b < NBUF ==> bufs[b].addr == a && bufs[b].valid && bufs[b].data == At(latest, a)
      ensures b == NBUF ==> Now() == old(Now()) && !Cached(Now(), a) && forall x :: 0 <= x < NBUF ==> bufs[x].refcnt > 0
      ensures forall x :: 0 <= x < NBUF && x != b ==> bufs[x] == old(bufs)[x]
      ensures b < NBUF ==> old(bufs)[b].refcnt < UINTMOD && bufs[b].refcnt == Inc(old(bufs)[b].refcnt)
      ensures b < NBUF && old(bufs)[b].refcnt > 0 ==> old(bufs)[b].addr == a
    {
      hide Linked, OldestFree, NoneFree;
      Counts(Now());
      ghost var c := Now();
      ghost var k;
      b, k := Bget(a, ticks);
      if b < NBUF {
        CountOf(c, b);
        if !bufs[b].valid {
          Fill(Now(), b);
          bufs := bufs[b := bufs[b].(valid := true, data := At(disk, bufs[b].addr))];
        }
      }
    }

    /** The holder of a buffer stores into its data; its count may have wrapped to 0. */
    method Store(b: nat, data: Block)
      requires Inv(Now()) && b < NBUF && bufs[b].valid && bufs[b].addr.dev != 0
      modifies this`bufs, this`latest, this`dirty
      ensures Inv(Now()) <==> !(old(bufs)[b].refcnt == 0 && data != At(disk, old(bufs)[b].addr))
      ensures bufs == old(bufs)[b := old(bufs)[b].(data := data)]
      ensures latest == old(latest)[old(bufs)[b].addr := data]
    {
      hide Linked;
      ghost var a := bufs[b].addr;
      ChangeIff(Now(), b, data);
      latest, dirty := latest[a := data], if data == At(disk, a) then dirty - {a} else dirty[a := b];
      bufs := bufs[b := bufs[b].(data := data)];
    }

    /** bwrite: the disk now holds the block's latest contents. */
    method Bwrite(b: nat)
      requires Inv(Now()) && b < NBUF && bufs[b].valid && bufs[b].addr.dev != 0
      modifies this`disk, this`dirty
      ensures Inv(Now()) && disk == old(disk)[bufs[b].addr := bufs[b].data]
      ensures At(disk, bufs[b].addr) == At(latest, bufs[b].addr)
    {
      hide Linked;
      WriteBack(Now(), b);
      HashOf(Now(), b);
      disk, dirty := disk[bufs[b].addr := bufs[b].data], dirty - {bufs[b].addr};
    }

    /** Setting a reference count, for every operation that does. */
    method Recount(b: nat, n: nat, stamp: nat)
      requires Inv(Now()) && b < NBUF && bufs[b].addr.dev != 0 && n < UINTMOD
      modifies this`bufs, this`dirty
      ensures Inv(Now()) <==> !(n == 0 && Unwritten(old(Now()), b))
      ensures bufs == old(bufs)[b := old(bufs)[b].(refcnt := n, stamp := stamp)]
    {
      hide Linked, Coherent;
      Counts(Now());
      RecountIff(Now(), b, n, stamp);
      dirty := Recounted(Now(), b, n, stamp).dirty;
      bufs := bufs[b := bufs[b].(refcnt := n, stamp := stamp)];
    }

    /**
     brelse: one reference fewer. The cache stays coherent exactly unless this was the last
     reference to a change not yet written.
     */
    method Brelse(b: nat, ticks: nat)
      requires Inv(Now()) && b < NBUF && bufs[b].addr.dev != 0
      modifies this`bufs, this`dirty
      ensures Inv(Now()) <==> !(old(bufs)[b].refcnt == 1 && Unwritten(old(Now()), b))
      ensures old(bufs)[b].refcnt < UINTMOD
      ensures bufs == old(bufs)[b := old(bufs)[b].(refcnt := Dec(old(bufs)[b].refcnt), stamp := ticks)]
    {
      hide Linked, Coherent;
      CountOf(Now(), b);
      Recount(b, Dec(bufs[b].refcnt), ticks);
    }

    method Bpin(b: nat)
      requires Inv(Now()) && b < NBUF && bufs[b].addr.dev != 0
      modifies this`bufs, this`dirty
      ensures Inv(Now()) <==> !(old(bufs)[b].refcnt == UINTMOD - 1 && Unwritten(old(Now()), b))
      ensures old(bufs)[b].refcnt < UINTMOD && bufs == old(bufs)[b := old(bufs)[b].(refcnt := Inc(old(bufs)[b].refcnt))]
    {
      hide Linked, Coherent;
      CountOf(Now(), b);
      Recount(b, Inc(bufs[b].refcnt), bufs[b].stamp);
    }

    method Bunpin(b: nat)
      requires Inv(Now()) && b < NBUF && bufs[b].addr.dev != 0
      modifies this`bufs, this`dirty
      ensures Inv(Now()) <==> !(old(bufs)[b].refcnt == 1 && Unwritten(old(Now()), b))
      ensures old(bufs)[b].refcnt < UINTMOD && bufs == old(bufs)[b := old(bufs)[b].(refcnt := Dec(old(bufs)[b].refcnt))]
    {
      hide Linked, Coherent;
      CountOf(Now(), b);
      Recount(b, Dec(bufs[b].refcnt), bufs[b].stamp);
    }
  }
}
