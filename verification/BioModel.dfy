/** The buffer cache as a value: doubly linked bucket lists over an array of buffers. */
module BioModel {
  import opened Wrappers

  const NBUF: nat := 30
  const NBUCKET: nat := 13
  const NODES: nat := NBUF + NBUCKET    // buffers, then one list head per bucket
  const UINTMOD: nat := 0x1_0000_0000

  type Block = seq<int>

  datatype Addr = Addr(dev: nat, blockno: nat)

  datatype Buf = Buf(addr: Addr, refcnt: nat, stamp: nat, valid: bool, data: Block)

  function At(m: map<Addr, Block>, a: Addr): Block { if a in m then m[a] else [] }

  function Hash(blockno: nat): (i: nat)
    ensures i < NBUCKET
  {
    blockno % NBUCKET
  }

  function Head(i: nat): nat { NBUF + i }

  datatype Lists = Lists(
    next: seq<nat>, prev: seq<nat>,
    bucket: seq<nat>, key: seq<int>, floor: int)   // history: bucket of each node, and its place in the list

  ghost predicate Shape(l: Lists) {
    |l.next| == NODES && |l.prev| == NODES && |l.bucket| == NODES && |l.key| == NODES
  }

  ghost predicate NodeOk(l: Lists, out: set<nat>, x: nat)
    requires Shape(l)
  {
    x < NODES && x !in out ==>
      && l.next[x] < NODES && l.prev[x] < NODES && l.next[x] !in out && l.prev[x] !in out
      && l.next[l.prev[x]] == x && l.prev[l.next[x]] == x
      && l.bucket[x] < NBUCKET && l.bucket[l.next[x]] == l.bucket[x] && l.bucket[l.prev[x]] == l.bucket[x]
      && (x < NBUF && l.next[x] < NBUF ==> l.key[x] < l.key[l.next[x]])
      && (x >= NBUF ==> l.bucket[x] == x - NBUF)
  }

  /** The list order leaves nothing out: y comes at or after the successor of any earlier x. */
  ghost predicate PairOk(l: Lists, out: set<nat>, x: nat, y: nat)
    requires Shape(l)
  {
    x < NBUF && y < NBUF && x !in out && y !in out && l.bucket[x] == l.bucket[y] && x != y ==>
      && l.key[x] != l.key[y]
      && (l.key[x] < l.key[y] ==> l.next[x] < NBUF && l.key[l.next[x]] <= l.key[y])
  }

  ghost predicate FirstOk(l: Lists, out: set<nat>, y: nat)
    requires Shape(l)
  {
    y < NBUF && y !in out ==>
      && l.floor <= l.key[y] && l.bucket[y] < NBUCKET
      && l.next[Head(l.bucket[y])] < NBUF && l.key[l.next[Head(l.bucket[y])]] <= l.key[y]
  }

  /** Circular bucket lists over every buffer except those in `out`. */
  ghost predicate Linked(l: Lists, out: set<nat>) {
    && Shape(l) && (forall x :: x in out ==> x < NBUF)
    && (forall x: nat :: NodeOk(l, out, x))
    && (forall x: nat, y: nat :: PairOk(l, out, x, y))
    && (forall y: nat :: FirstOk(l, out, y))
  }

  ghost function Unlinked(l: Lists, b: nat): Lists
    requires Shape(l) && b < NBUF && l.next[b] < NODES && l.prev[b] < NODES
  {
    l.(prev := l.prev[l.next[b] := l.prev[b]], next := l.next[l.prev[b] := l.next[b]])
  }

  lemma UnlinkNode(l: Lists, b: nat, x: nat)
    requires Linked(l, {}) && b < NBUF && l.next[b] < NODES && l.prev[b] < NODES
    ensures NodeOk(Unlinked(l, b), {b}, x) && FirstOk(Unlinked(l, b), {b}, x)
  {
    assert NodeOk(l, {}, b) && NodeOk(l, {}, x);
    assert FirstOk(l, {}, x);
    if x < NODES {
      assert NodeOk(l, {}, l.next[x]) && NodeOk(l, {}, l.prev[x]);
      if x < NBUF && x != b {
        var h := Head(l.bucket[x]);
        assert NodeOk(l, {}, h);
        if l.next[h] == b { assert PairOk(l, {}, b, x); }
      }
    }
  }

  lemma UnlinkKeeps(l: Lists, b: nat)
    requires Linked(l, {}) && b < NBUF && l.next[b] < NODES && l.prev[b] < NODES
    ensures Linked(Unlinked(l, b), {b})
  {
    forall x: nat ensures NodeOk(Unlinked(l, b), {b}, x) && FirstOk(Unlinked(l, b), {b}, x) { UnlinkNode(l, b, x); }
    forall x: nat, y: nat ensures PairOk(Unlinked(l, b), {b}, x, y) {
      assert PairOk(l, {}, x, y) && NodeOk(l, {}, b) && PairOk(l, {}, b, y);
    }
  }

  ghost function Pushed(l: Lists, b: nat, i: nat): Lists
    requires Shape(l) && b < NBUF && i < NBUCKET && l.next[Head(i)] < NODES
  {
    var first := l.next[Head(i)];
    l.(next := l.next[b := first][Head(i) := b], prev := l.prev[b := Head(i)][first := b],
       bucket := l.bucket[b := i], key := l.key[b := l.floor - 1], floor := l.floor - 1)
  }

  lemma PushNode(l: Lists, out: set<nat>, b: nat, i: nat, x: nat)
    requires Linked(l, out) && b in out && b < NBUF && i < NBUCKET && l.next[Head(i)] < NODES
    ensures NodeOk(Pushed(l, b, i), out - {b}, x) && FirstOk(Pushed(l, b, i), out - {b}, x)
  {
    assert NodeOk(l, out, x) && NodeOk(l, out, Head(i)) && FirstOk(l, out, x) && FirstOk(l, out, l.next[Head(i)]);
    if x < NODES && x !in out {
      assert NodeOk(l, out, l.next[x]) && NodeOk(l, out, l.prev[x]);
    }
  }

  lemma PushKeeps(l: Lists, out: set<nat>, b: nat, i: nat)
    requires Linked(l, out) && b in out && b < NBUF && i < NBUCKET && l.next[Head(i)] < NODES
    ensures Linked(Pushed(l, b, i), out - {b})
  {
    forall x: nat ensures NodeOk(Pushed(l, b, i), out - {b}, x) && FirstOk(Pushed(l, b, i), out - {b}, x) {
      PushNode(l, out, b, i, x);
    }
    forall x: nat, y: nat ensures PairOk(Pushed(l, b, i), out - {b}, x, y) {
      assert PairOk(l, out, x, y) && NodeOk(l, out, Head(i)) && FirstOk(l, out, x) && FirstOk(l, out, y);
    }
  }

  // ----- walking a list -----

  /** x is at t or behind it. */
  ghost predicate Ahead(l: Lists, t: nat, x: nat)
    requires Shape(l) && x < NBUF
  {
    t < NBUF && l.key[t] <= l.key[x]
  }

  ghost predicate OnList(l: Lists, i: nat, t: nat)
    requires Shape(l)
  {
    t < NODES && l.bucket[t] == i && (t >= NBUF ==> t == Head(i))
  }

  lemma WalkStart(l: Lists, i: nat)
    requires Linked(l, {}) && i < NBUCKET
    ensures Shape(l) && OnList(l, i, l.next[Head(i)])
    ensures forall x: nat :: x < NBUF && l.bucket[x] == i ==> Ahead(l, l.next[Head(i)], x)
  {
    assert NodeOk(l, {}, Head(i)) && NodeOk(l, {}, l.next[Head(i)]);
    forall x: nat | x < NBUF && l.bucket[x] == i ensures Ahead(l, l.next[Head(i)], x) { assert FirstOk(l, {}, x); }
  }

  lemma WalkNext(l: Lists, i: nat, t: nat)
    requires Linked(l, {}) && i < NBUCKET && t < NBUF && l.bucket[t] == i
    ensures OnList(l, i, l.next[t]) && (l.next[t] < NBUF ==> l.key[t] < l.key[l.next[t]])
    ensures forall x: nat :: x < NBUF && l.bucket[x] == i && Ahead(l, t, x) ==> x == t || Ahead(l, l.next[t], x)
    ensures forall x: nat :: x < NBUF && Ahead(l, l.next[t], x) ==> x != t && Ahead(l, t, x)
  {
    assert NodeOk(l, {}, t) && NodeOk(l, {}, l.next[t]);
    forall x: nat | x < NBUF && l.bucket[x] == i && Ahead(l, t, x) ensures x == t || Ahead(l, l.next[t], x) {
      assert PairOk(l, {}, t, x);
    }
  }

  /** A stretch of list i from node t to its end. */
  ghost predicate Stretch(l: Lists, i: nat, t: nat, s: seq<nat>)
    requires Shape(l)
  {
    && (forall k :: 0 <= k < |s| ==> s[k] < NBUF)
    && (if s == [] then t == Head(i) else t == s[0] && l.next[s[|s| - 1]] == Head(i))
    && (forall k :: 0 < k < |s| ==> l.next[s[k - 1]] == s[k])
    && (forall j, k :: 0 <= j < k < |s| ==> s[j] != s[k])
  }

  lemma WalkFrom(l: Lists, i: nat, t: nat, todo: set<nat>) returns (s: seq<nat>)
    requires Linked(l, {}) && i < NBUCKET && Shape(l) && OnList(l, i, t)
    requires forall x: nat :: x < NBUF && Ahead(l, t, x) ==> x in todo
    ensures Stretch(l, i, t, s) && forall x: nat :: x < NBUF ==> (x in s <==> l.bucket[x] == i && Ahead(l, t, x))
    decreases todo
  {
    hide Linked, Ahead;
    AheadFacts(l, t);
    if t == Head(i) { return []; }
    WalkNext(l, i, t);
    var rest := WalkFrom(l, i, l.next[t], todo - {t});
    s := [t] + rest;
    assert forall x :: x in s <==> x == t || x in rest;
  }

  /** Following next from a head meets each buffer of that bucket once, and no other, and comes back. */
  lemma Walk(l: Lists, i: nat) returns (s: seq<nat>)
    requires Linked(l, {}) && i < NBUCKET
    ensures Shape(l) && Stretch(l, i, l.next[Head(i)], s)
    ensures forall x: nat :: x < NBUF ==> (x in s <==> l.bucket[x] == i)
  {
    hide Linked, Ahead;
    WalkStart(l, i);
    s := WalkFrom(l, i, l.next[Head(i)], Upto(NBUF));
  }

  lemma AheadFacts(l: Lists, t: nat)
    requires Shape(l)
    ensures if t < NBUF then Ahead(l, t, t) else forall x: nat :: x < NBUF ==> !Ahead(l, t, x)
  {
  }

  // ----- contents -----

  datatype Cache = Cache(
    lists: Lists, bufs: seq<Buf>, disk: map<Addr, Block>,
    // history: logical contents, and which buffer holds an unwritten change
    latest: map<Addr, Block>, dirty: map<Addr, nat>)

  ghost predicate BufOk(c: Cache, b: nat)
    requires |c.bufs| == NBUF && Shape(c.lists)
  {
    b < NBUF ==>
      && c.lists.bucket[b] == Hash(c.bufs[b].addr.blockno) && c.bufs[b].refcnt < UINTMOD
      && (c.bufs[b].valid && c.bufs[b].addr.dev != 0 ==> c.bufs[b].data == At(c.latest, c.bufs[b].addr))
  }

  ghost predicate DistinctOk(c: Cache, a: nat, b: nat)
    requires |c.bufs| == NBUF
  {
    a < NBUF && b < NBUF && a != b && c.bufs[a].addr.dev != 0 ==> c.bufs[a].addr != c.bufs[b].addr
  }

  /** Logical contents differ from the disk only where a referenced, valid buffer says so. */
  ghost predicate AddrOk(c: Cache, a: Addr)
    requires |c.bufs| == NBUF
  {
    if a in c.dirty then
      c.dirty[a] < NBUF && c.bufs[c.dirty[a]].addr == a && c.bufs[c.dirty[a]].valid && c.bufs[c.dirty[a]].refcnt > 0
    else a.dev != 0 ==> At(c.latest, a) == At(c.disk, a)
  }

  ghost predicate Coherent(c: Cache)
    requires Shape(c.lists)
  {
    && |c.bufs| == NBUF
    && (forall b: nat :: BufOk(c, b))
    && (forall a: nat, b: nat :: DistinctOk(c, a, b))
    && (forall a: Addr :: AddrOk(c, a))
  }

  ghost predicate Inv(c: Cache) {
    Linked(c.lists, {}) && Coherent(c)
  }

  /** What coherence is for: a valid buffer nobody refers to holds what the disk holds. */
  lemma FreeIsClean(c: Cache, b: nat)
    requires Inv(c) && b < NBUF && c.bufs[b].refcnt == 0 && c.bufs[b].valid && c.bufs[b].addr.dev != 0
    ensures c.bufs[b].data == At(c.disk, c.bufs[b].addr)
  {
    var a := c.bufs[b].addr;
    assert BufOk(c, b) && AddrOk(c, a);
    if a in c.dirty { assert DistinctOk(c, b, c.dirty[a]); }
  }

  /** One buffer may be changed where it keeps its address and place. */
  lemma KeepCoherent(c: Cache, b: nat, buf: Buf)
    requires Inv(c) && b < NBUF && buf.addr == c.bufs[b].addr && buf.data == c.bufs[b].data
    requires buf.valid == c.bufs[b].valid
    requires (buf.refcnt > 0 || c.bufs[b].addr !in c.dirty) && buf.refcnt < UINTMOD
    ensures Inv(c.(bufs := c.bufs[b := buf]))
  {
    var c' := c.(bufs := c.bufs[b := buf]);
    forall x: nat ensures BufOk(c', x) { assert BufOk(c, x); }
    forall x: nat, y: nat ensures DistinctOk(c', x, y) { assert DistinctOk(c, x, y); }
    forall a: Addr ensures AddrOk(c', a) { assert AddrOk(c, a); }
  }

  /** Dropping the last reference to a buffer that agrees with the disk. */
  ghost function Cleaned(c: Cache, b: nat): Cache
    requires b < |c.bufs|
  {
    if c.bufs[b].addr in c.dirty && c.bufs[b].addr.dev != 0 then c.(dirty := c.dirty - {c.bufs[b].addr}) else c
  }

  lemma CleanedInv(c: Cache, b: nat)
    requires Inv(c) && b < NBUF && c.bufs[b].addr.dev != 0
    requires c.bufs[b].valid ==> c.bufs[b].data == At(c.disk, c.bufs[b].addr)
    ensures Inv(Cleaned(c, b)) && c.bufs[b].addr !in Cleaned(c, b).dirty
  {
    var c' := Cleaned(c, b);
    var a := c.bufs[b].addr;
    assert AddrOk(c, a) && BufOk(c, b);
    if a in c.dirty { assert DistinctOk(c, b, c.dirty[a]); }
    forall x: Addr ensures AddrOk(c', x) { assert AddrOk(c, x); }
    forall x: nat ensures BufOk(c', x) { assert BufOk(c, x); }
    forall x: nat, y: nat ensures DistinctOk(c', x, y) { assert DistinctOk(c, x, y); }
  }

  /** A counter one lower and one higher, wrapping around like C's unsigned. */
  function Dec(n: nat): (r: nat)
    requires n < UINTMOD
    ensures r < UINTMOD
  {
    if n == 0 then UINTMOD - 1 else n - 1
  }

  function Inc(n: nat): (r: nat)
    requires n < UINTMOD
    ensures r < UINTMOD
  {
    if n == UINTMOD - 1 then 0 else n + 1
  }

  /** The buffer holds a change that the disk does not have. */
  predicate Unwritten(c: Cache, b: nat)
    requires b < |c.bufs|
  {
    c.bufs[b].valid && c.bufs[b].data != At(c.disk, c.bufs[b].addr)
  }

  ghost function Recounted(c: Cache, b: nat, n: nat, stamp: nat): Cache
    requires b < |c.bufs|
  {
    var d := if n == 0 then Cleaned(c, b) else c;
    d.(bufs := c.bufs[b := c.bufs[b].(refcnt := n, stamp := stamp)])
  }

  /** A count may be set to anything but 0 while its buffer holds an unwritten change. */
  lemma RecountIff(c: Cache, b: nat, n: nat, stamp: nat)
    requires Inv(c) && b < NBUF && c.bufs[b].addr.dev != 0 && n < UINTMOD
    ensures Inv(Recounted(c, b, n, stamp)) <==> !(n == 0 && Unwritten(c, b))
  {
    hide Linked, BufOk, DistinctOk, AddrOk;
    var c' := Recounted(c, b, n, stamp);
    var buf := c.bufs[b].(refcnt := n, stamp := stamp);
    if n == 0 && !Unwritten(c, b) {
      CleanedInv(c, b);
      KeepCoherent(Cleaned(c, b), b, buf);
    } else if n > 0 {
      KeepCoherent(c, b, buf);
    } else if Inv(c') {
      FreeIsClean(c', b);
    }
  }

  /** Giving a free buffer to a block no buffer has, in that block's bucket. */
  lemma Recycle(c: Cache, l: Lists, b: nat, a: Addr, stamp: nat)
    requires Inv(c) && Linked(l, {}) && b < NBUF && c.bufs[b].refcnt == 0 && a.dev != 0
    requires forall x: nat :: x < NBUF ==> c.bufs[x].addr != a
    requires l.bucket == c.lists.bucket[b := Hash(a.blockno)]
    ensures Inv(c.(lists := l, bufs := c.bufs[b := Buf(a, 1, stamp, false, c.bufs[b].data)]))
  {
    var c' := c.(lists := l, bufs := c.bufs[b := Buf(a, 1, stamp, false, c.bufs[b].data)]);
    forall x: nat ensures BufOk(c', x) { assert BufOk(c, x); }
    forall x: nat, y: nat ensures DistinctOk(c', x, y) { assert DistinctOk(c, x, y); }
    forall x: Addr ensures AddrOk(c', x) { assert AddrOk(c, x); }
  }

  /** A buffer that is not valid gets the disk's contents, which are the logical ones. */
  lemma Fill(c: Cache, b: nat)
    requires Inv(c) && b < NBUF && !c.bufs[b].valid && c.bufs[b].addr.dev != 0
    ensures At(c.disk, c.bufs[b].addr) == At(c.latest, c.bufs[b].addr)
    ensures Inv(c.(bufs := c.bufs[b := c.bufs[b].(valid := true, data := At(c.disk, c.bufs[b].addr))]))
  {
    var a := c.bufs[b].addr;
    var c' := c.(bufs := c.bufs[b := c.bufs[b].(valid := true, data := At(c.disk, a))]);
    assert AddrOk(c, a);
    assert a in c.dirty ==> DistinctOk(c, b, c.dirty[a]);
    forall x: nat ensures BufOk(c', x) { assert BufOk(c, x); }
    forall x: nat, y: nat ensures DistinctOk(c', x, y) { assert DistinctOk(c, x, y); }
    forall x: Addr ensures AddrOk(c', x) { assert AddrOk(c, x); }
  }

  /** c after buffer b's contents have changed; the block is dirty unless they are the disk's. */
  ghost function Changed(c: Cache, b: nat, data: Block): Cache
    requires b < |c.bufs|
  {
    var a := c.bufs[b].addr;
    c.(bufs := c.bufs[b := c.bufs[b].(data := data)], latest := c.latest[a := data],
       dirty := if data == At(c.disk, a) then c.dirty - {a} else c.dirty[a := b])
  }

  /** The holder of a buffer changes its contents. */
  lemma Change(c: Cache, b: nat, data: Block)
    requires Inv(c) && b < NBUF && c.bufs[b].valid && c.bufs[b].addr.dev != 0
    requires c.bufs[b].refcnt > 0 || data == At(c.disk, c.bufs[b].addr)
    ensures Inv(Changed(c, b, data))
  {
    var c' := Changed(c, b, data);
    forall x: nat ensures BufOk(c', x) { assert BufOk(c, x) && DistinctOk(c, b, x); }
    forall x: nat, y: nat ensures DistinctOk(c', x, y) { assert DistinctOk(c, x, y); }
    forall x: Addr ensures AddrOk(c', x) { assert AddrOk(c, x); }
  }

  /** A store keeps the cache coherent unless it changes a block whose buffer has count 0. */
  lemma ChangeIff(c: Cache, b: nat, data: Block)
    requires Inv(c) && b < NBUF && c.bufs[b].valid && c.bufs[b].addr.dev != 0
    ensures Inv(Changed(c, b, data)) <==> !(c.bufs[b].refcnt == 0 && data != At(c.disk, c.bufs[b].addr))
  {
    hide Linked, BufOk, DistinctOk, AddrOk;
    if c.bufs[b].refcnt > 0 || data == At(c.disk, c.bufs[b].addr) {
      Change(c, b, data);
    } else if Inv(Changed(c, b, data)) {
      FreeIsClean(Changed(c, b, data), b);
    }
  }

  /** A valid buffer is written to disk. */
  lemma WriteBack(c: Cache, b: nat)
    requires Inv(c) && b < NBUF && c.bufs[b].valid && c.bufs[b].addr.dev != 0
    ensures var a := c.bufs[b].addr; Inv(c.(disk := c.disk[a := c.bufs[b].data], dirty := c.dirty - {a}))
  {
    var a := c.bufs[b].addr;
    var c' := c.(disk := c.disk[a := c.bufs[b].data], dirty := c.dirty - {a});
    forall x: nat ensures BufOk(c', x) { assert BufOk(c, x); }
    forall x: nat, y: nat ensures DistinctOk(c', x, y) { assert DistinctOk(c, x, y); }
    forall x: Addr ensures AddrOk(c', x) { assert AddrOk(c, x) && BufOk(c, b); }
  }
}
