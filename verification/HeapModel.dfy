/** The user heap in bytes: blocks, header included, who owns each byte, and the circular free list. */
module HeapModel {
  const BASE: nat := 1          // the static header `base`, below the heap; 0 is the null pointer

  datatype Heap = Heap(
    ptr: map<nat, nat>, size: map<nat, nat>,
    // history: headers in use, and the block of each byte
    free: set<nat>, live: set<nat>, own: map<nat, nat>, top: nat)

  ghost predicate Known(h: Heap, a: nat) {
    && (a in h.free || a in h.live ==> a in h.size && (a != BASE ==> h.size[a] > 0))
    && (a in h.free ==> a in h.ptr && BASE <= a && a !in h.live)
  }

  /** The next free header is the next higher one, or base again, and the blocks do not touch. */
  ghost predicate LinkOk(h: Heap, seam: set<nat>, a: nat) {
    a in h.free && a in h.ptr && a in h.size ==>
      && h.ptr[a] in h.free && (h.ptr[a] > a || h.ptr[a] == BASE)
      && (h.ptr[a] > a && a !in seam ==> a + h.size[a] < h.ptr[a])
  }

  ghost predicate PairOk(h: Heap, a: nat, x: nat) {
    a in h.free && x in h.free && a < x && a in h.ptr ==> a < h.ptr[a] <= x
  }

  /** Every byte of a block belongs to that block. */
  ghost predicate BlockOk(h: Heap, a: nat, u: nat) {
    (a in h.free || a in h.live) && a != BASE && a in h.size && a <= u < a + h.size[a] ==> u in h.own && h.own[u] == a
  }

  ghost predicate ByteOk(h: Heap, u: nat) {
    u in h.own ==>
      var a := h.own[u];
      (a in h.free || a in h.live) && a != BASE && a in h.size && a <= u < a + h.size[a] && BASE < u < h.top
  }

  /**
   The heap is partitioned into blocks, and the free list is right except that blocks in `seam` may
   touch the next.
   */
  ghost predicate Ok(h: Heap, seam: set<nat>) {
    && BASE in h.free && BASE in h.size && h.size[BASE] == 0 && BASE < h.top
    && (forall a: nat :: Known(h, a))
    && (forall a: nat :: LinkOk(h, seam, a))
    && (forall a: nat, x: nat :: PairOk(h, a, x))
    && (forall a: nat, u: nat :: BlockOk(h, a, u))
    && (forall u: nat :: ByteOk(h, u))
  }

  /** Blocks, live or free, do not overlap, and lie in memory obtained from sbrk. */
  lemma NoOverlap(h: Heap, a: nat, b: nat)
    requires Ok(h, {}) && (a in h.live || a in h.free) && (b in h.live || b in h.free) && a < b
    ensures a in h.size && a + h.size[a] <= b
    ensures forall u: nat :: a <= u < a + h.size[a] ==> u in h.own
  {
    assert Known(h, a) && Known(h, b) && Known(h, BASE);
    if a != BASE {
      assert BlockOk(h, a, a) && ByteOk(h, a) && BlockOk(h, a, b) && BlockOk(h, b, b);
      assert b == BASE ==> ByteOk(h, a);
      forall u: nat | a <= u < a + h.size[a] ensures u in h.own { assert BlockOk(h, a, u); }
    }
  }

  // ----- free -----

  ghost predicate Before(h: Heap, p: nat, b: nat) {
    p in h.free && p in h.ptr && p < b && (b < h.ptr[p] || h.ptr[p] == BASE)
  }

  ghost function Inserted(h: Heap, p: nat, b: nat): Heap
    requires p in h.ptr
  {
    h.(ptr := h.ptr[b := h.ptr[p]][p := b], free := h.free + {b}, live := h.live - {b})
  }

  lemma InsertOk(h: Heap, p: nat, b: nat)
    requires Ok(h, {}) && b in h.live && b > BASE && Before(h, p, b)
    ensures Ok(Inserted(h, p, b), {p, b})
  {
    var h' := Inserted(h, p, b);
    assert Known(h, b) && Known(h, p);
    forall a: nat ensures Known(h', a) && LinkOk(h', {p, b}, a) {
      assert Known(h, a) && LinkOk(h, {}, a) && LinkOk(h, {}, p);
    }
    forall a: nat, x: nat ensures PairOk(h', a, x) {
      assert PairOk(h, a, x) && PairOk(h, p, x) && PairOk(h, a, p) && PairOk(h, p, a) && LinkOk(h, {}, p)
          && LinkOk(h, {}, a);
    }
    forall a: nat, u: nat ensures BlockOk(h', a, u) { assert BlockOk(h, a, u); }
    forall u: nat ensures ByteOk(h', u) { assert ByteOk(h, u); }
  }

  /** a takes in the free block right behind it. */
  ghost function Merged(h: Heap, a: nat): Heap
    requires a in h.ptr && a in h.size && h.ptr[a] in h.ptr && h.ptr[a] in h.size
  {
    var b := h.ptr[a];
    h.(size := h.size[a := h.size[a] + h.size[b]], ptr := h.ptr[a := h.ptr[b]], free := h.free - {b},
       own := map u | u in h.own :: if h.own[u] == b then a else h.own[u])
  }

  ghost predicate Touches(h: Heap, a: nat) {
    a in h.free && a in h.ptr && a in h.size && a + h.size[a] == h.ptr[a]
  }

  lemma MergeOk(h: Heap, seam: set<nat>, a: nat)
    requires Ok(h, seam) && a != BASE && Touches(h, a) && h.ptr[a] !in seam && h.ptr[a] in h.ptr && h.ptr[a] in h.size
    ensures Ok(Merged(h, a), seam - {a})
  {
    var h', b := Merged(h, a), h.ptr[a];
    assert Known(h, a) && Known(h, b) && LinkOk(h, seam, a) && LinkOk(h, seam, b);
    forall x: nat ensures Known(h', x) { assert Known(h, x); }
    forall x: nat ensures LinkOk(h', seam - {a}, x) {
      assert Known(h, x) && LinkOk(h, seam, x) && PairOk(h, x, a) && PairOk(h, a, x);
    }
    forall x: nat, y: nat ensures PairOk(h', x, y) { assert PairOk(h, x, y) && PairOk(h, b, y) && PairOk(h, x, a); }
    forall x: nat, u: nat ensures BlockOk(h', x, u) {
      assert BlockOk(h, x, u) && BlockOk(h, b, u) && BlockOk(h, a, u) && Known(h, x);
    }
    forall u: nat ensures ByteOk(h', u) { assert ByteOk(h, u); }
  }

  lemma SeamGone(h: Heap, seam: set<nat>, a: nat)
    requires Ok(h, seam) && !Touches(h, a)
    ensures Ok(h, seam - {a})
  {
    forall x: nat ensures LinkOk(h, seam - {a}, x) {
      assert LinkOk(h, seam, x) && Known(h, x);
      if x == a && a in h.free && h.ptr[a] > a { Fits(h, seam, a); }
    }
  }

  lemma Fits(h: Heap, seam: set<nat>, a: nat)
    requires Ok(h, seam) && a in h.free && a in h.ptr && a in h.size && h.ptr[a] > a
    ensures a + h.size[a] <= h.ptr[a]
  {
    var b := h.ptr[a];
    assert Known(h, a) && LinkOk(h, seam, a) && Known(h, b);
    assert BlockOk(h, a, b) && BlockOk(h, b, b);
  }

  // ----- malloc -----

  ghost function Taken(h: Heap, q: nat, p: nat): Heap
    requires p in h.ptr
  {
    h.(ptr := h.ptr[q := h.ptr[p]], free := h.free - {p}, live := h.live + {p})
  }

  lemma TakeOk(h: Heap, q: nat, p: nat)
    requires Ok(h, {}) && q in h.free && q in h.ptr && h.ptr[q] == p && p != BASE && p in h.ptr
    ensures Ok(Taken(h, q, p), {})
  {
    var h' := Taken(h, q, p);
    assert Known(h, p) && Known(h, q) && LinkOk(h, {}, q) && LinkOk(h, {}, p);
    forall x: nat ensures Known(h', x) { assert Known(h, x); }
    forall x: nat ensures LinkOk(h', {}, x) {
      assert Known(h, x) && LinkOk(h, {}, x) && PairOk(h, x, q) && PairOk(h, q, x);
    }
    forall x: nat, y: nat ensures PairOk(h', x, y) { assert PairOk(h, x, y) && PairOk(h, p, y) && PairOk(h, x, q); }
    forall x: nat, u: nat ensures BlockOk(h', x, u) { assert BlockOk(h, x, u); }
    forall u: nat ensures ByteOk(h', u) { assert ByteOk(h, u); }
  }

  /** The last n bytes of free block p become a live block. */
  ghost function Split(h: Heap, p: nat, n: nat): Heap
    requires p in h.size && n < h.size[p]
  {
    var t := p + h.size[p] - n;
    h.(size := h.size[p := h.size[p] - n][t := n], live := h.live + {t},
       own := map u | u in h.own :: if h.own[u] == p && t <= u then t else h.own[u])
  }

  lemma SplitOk(h: Heap, p: nat, n: nat)
    requires Ok(h, {}) && p in h.free && p in h.size && 0 < n < h.size[p]
    ensures Ok(Split(h, p, n), {}) && p + h.size[p] - n !in h.live && p + h.size[p] - n !in h.free
  {
    var h', t := Split(h, p, n), p + h.size[p] - n;
    assert Known(h, p) && BlockOk(h, p, t) && Known(h, t);
    assert BlockOk(h, t, t);
    forall x: nat ensures Known(h', x) { assert Known(h, x); }
    forall x: nat ensures LinkOk(h', {}, x) { assert LinkOk(h, {}, x); }
    forall x: nat, y: nat ensures PairOk(h', x, y) { assert PairOk(h, x, y); }
    forall x: nat, u: nat ensures BlockOk(h', x, u) { assert BlockOk(h, x, u) && BlockOk(h, p, u); }
    forall u: nat ensures ByteOk(h', u) { assert ByteOk(h, u); }
  }

  /** New memory from sbrk, as a live block. */
  ghost function Grown(h: Heap, b: nat, n: nat): Heap {
    h.(size := h.size[b := n], live := h.live + {b}, top := b + n,
       own := map u | u in h.own.Keys + Range(b, n) :: if u in h.own then h.own[u] else b)
  }

  ghost function Range(b: nat, n: nat): (r: set<nat>)
    ensures forall u: nat :: u in r <==> b <= u < b + n
  {
    if n == 0 then {} else Range(b, n - 1) + {b + n - 1}
  }

  lemma GrowOk(h: Heap, b: nat, n: nat)
    requires Ok(h, {}) && b >= h.top && n > 0
    ensures Ok(Grown(h, b, n), {}) && b !in h.live && b !in h.free
  {
    var h' := Grown(h, b, n);
    assert Known(h, b) && BlockOk(h, b, b) && ByteOk(h, b);
    forall x: nat ensures Known(h', x) { assert Known(h, x); }
    forall x: nat ensures LinkOk(h', {}, x) { assert LinkOk(h, {}, x); }
    forall x: nat, y: nat ensures PairOk(h', x, y) { assert PairOk(h, x, y); }
    forall x: nat, u: nat ensures BlockOk(h', x, u) { assert BlockOk(h, x, u) && ByteOk(h, u); }
    forall u: nat ensures ByteOk(h', u) { assert ByteOk(h, u); }
  }
}
