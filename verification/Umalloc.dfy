/** malloc, free and morecore, working in place on the free list; addresses and block sizes are in bytes. */
module Umalloc {
  import opened HeapModel

  const INTMAX: nat := 0x8000_0000
  const UNIT: nat := 16           // sizeof(Header)

  /** Passing a number to sbrk, or getting one back from it, makes it an int. */
  function ToInt(x: nat): int {
    var m := x % (2 * INTMAX);
    if m < INTMAX then m else m - 2 * INTMAX
  }

  /** nunits: the header and enough units for nbytes. */
  function Units(nbytes: nat): (n: nat)
    ensures n > 0 && (n - 1) * UNIT >= nbytes && (n - 1) * UNIT < nbytes + UNIT
  {
    (nbytes + UNIT - 1) / UNIT + 1
  }

  /** What morecore asks sbrk for. */
  function Request(nu: nat): (r: nat)
    ensures r >= nu && r >= 4096 && (r == nu || r == 4096)
  {
    if nu < 4096 then 4096 else nu
  }

  // ----- sbrk -----

  const UINT64: nat := 0x1_0000_0000_0000_0000

  /** What a call of sbrk returns, as a pointer, and the process size after it. */
  datatype Sbrked = Sbrked(ret: nat, sz: nat)

  /** An int widened to a pointer. */
  function ToPointer(x: int): int { if x < 0 then x + UINT64 else x }

  /**
   sys_sbrk: growing only moves the size; otherwise uvmdealloc shrinks the memory, unless the
   new size, computed without sign, is not below the old one. It fails when that size is 0.
   */
  function SysSbrk(sz: nat, n: int): (r: Sbrked)
    requires sz < UINT64 && 0 - INTMAX <= n < INTMAX
  {
    var addr := ToPointer(ToInt(sz));
    if n > 0 then Sbrked(addr, (sz + n) % UINT64)
    else
      var newsz := ToPointer(sz + n);
      if newsz == 0 then Sbrked(UINT64 - 1, sz) else Sbrked(addr, if newsz >= sz then sz else newsz)
  }

  /** morecore's request for nu units, the size made an int on the way. */
  function Granted(nu: nat, sz: nat): Sbrked
    requires sz < UINT64
  {
    SysSbrk(sz, ToInt(nu * UNIT))
  }

  /** The block morecore goes on to free is exactly the memory added, or it is told that there is none. */
  predicate Sound(nu: nat, sz: nat)
    requires sz < UINT64
  {
    var r := Granted(nu, sz);
    if r.ret == UINT64 - 1 then r.sz == sz else r.ret == sz && r.sz == sz + nu * UNIT
  }

  /** A request of 2 GB or more that, as an int, takes away the whole process. */
  predicate Cancels(nu: nat, sz: nat) {
    INTMAX <= nu * UNIT <= 2 * INTMAX && sz == 2 * INTMAX - nu * UNIT
  }

  /** A size survives being returned as an int, below 2 GB, or so near the end of memory that it is sign-extended. */
  predicate Addressable(sz: nat, nu: nat) { sz < INTMAX || UINT64 - INTMAX <= sz < UINT64 - nu * UNIT }

  /** A size that, as an int, is -1. */
  predicate AllOnes(sz: nat) { sz % (2 * INTMAX) == 2 * INTMAX - 1 }

  /** Exactly when growing the heap is sound, and when morecore is told that it failed, for every request and size. */
  lemma SoundIff(nu: nat, sz: nat)
    requires 0 < nu <= Units(2 * INTMAX - 1) && sz < UINT64
    ensures Sound(nu, sz) <==>
            (nu * UNIT < INTMAX && Addressable(sz, nu)) || Cancels(nu, sz) || (AllOnes(sz) && nu * UNIT == 2 * INTMAX)
    ensures Granted(nu, sz).ret == UINT64 - 1 <==> Refused(nu, sz)
  {
    hide ToInt;
    AddressIff(sz);
    OnesIff(sz);
    AsInt(nu);
    if nu * UNIT < INTMAX { GrowIff(nu, sz); } else { OtherIff(nu, sz); }
  }

  /** The request as an int. */
  lemma AsInt(nu: nat)
    requires 0 < nu <= Units(2 * INTMAX - 1)
    ensures var n := nu * UNIT;
            ToInt(n) == if n < INTMAX then n else n - 2 * INTMAX
    ensures nu * UNIT <= 2 * INTMAX + UNIT && 0 - INTMAX <= ToInt(nu * UNIT) < INTMAX
  {
  }

  lemma GrowIff(nu: nat, sz: nat)
    requires 0 < nu && nu * UNIT < INTMAX && sz < UINT64 && ToInt(nu * UNIT) == nu * UNIT
    requires ToPointer(ToInt(sz)) == sz <==> sz < INTMAX || sz >= UINT64 - INTMAX
    requires ToPointer(ToInt(sz)) == UINT64 - 1 <==> AllOnes(sz)
    ensures Sound(nu, sz) <==> Addressable(sz, nu)
    ensures Granted(nu, sz).ret == UINT64 - 1 <==> AllOnes(sz)
  {
    hide ToInt;
  }

  lemma OtherIff(nu: nat, sz: nat)
    requires INTMAX <= nu * UNIT <= 2 * INTMAX + UNIT && sz < UINT64 && ToInt(nu * UNIT) == nu * UNIT - 2 * INTMAX
    requires ToPointer(ToInt(sz)) == UINT64 - 1 <==> AllOnes(sz)
    ensures Sound(nu, sz) <==> Cancels(nu, sz) || (AllOnes(sz) && nu * UNIT == 2 * INTMAX)
    ensures Granted(nu, sz).ret == UINT64 - 1 <==> Refused(nu, sz)
  {
    hide ToInt;
  }

  lemma OnesIff(sz: nat)
    requires sz < UINT64
    ensures ToPointer(ToInt(sz)) == UINT64 - 1 <==> AllOnes(sz)
  {
  }

  predicate Refused(nu: nat, sz: nat) { Cancels(nu, sz) || AllOnes(sz) }

  /** The process has grown, but the old size that sbrk returns reads as a failure: the heap is as it was. */
  predicate Leaks(nu: nat, sz: nat) {
    AllOnes(sz) && 0 < ToInt(nu * UNIT) && sz + ToInt(nu * UNIT) < UINT64
  }

  /** The code goes on to free memory that sbrk did not add, or has lost memory that it uses. */
  predicate Breaks(nu: nat, sz: nat)
    requires sz < UINT64
  {
    !Sound(nu, sz) && !Leaks(nu, sz)
  }

  /** A failure that is one leaves the process at least as large as it was, exactly when nothing breaks. */
  lemma ToldIff(nu: nat, sz: nat)
    requires 0 < nu <= Units(2 * INTMAX - 1) && sz < UINT64 && Granted(nu, sz).ret == UINT64 - 1
    ensures Breaks(nu, sz) <==> Granted(nu, sz).sz < sz
  {
    OnesIff(sz);
  }

  lemma NotTold(nu: nat, sz: nat)
    requires 0 < nu <= Units(2 * INTMAX - 1) && sz < UINT64 && Granted(nu, sz).ret != UINT64 - 1
    ensures Breaks(nu, sz) <==> !(Granted(nu, sz).ret == sz && Granted(nu, sz).sz == sz + nu * UNIT)
  {
    OnesIff(sz);
  }

  /** A break of one byte below 4 GB, which sbrk(1) can make: the next growth is taken for a failure. */
  lemma OddBreak()
    ensures SysSbrk(0xFFFF_FFFE, 1).sz == 0xFFFF_FFFF
    ensures Granted(4096, 0xFFFF_FFFF) == Sbrked(UINT64 - 1, 0x1_0000_FFFF) && Leaks(4096, 0xFFFF_FFFF)
  {
  }

  lemma AddressIff(sz: nat)
    requires sz < UINT64
    ensures ToPointer(ToInt(sz)) == sz <==> sz < INTMAX || sz >= UINT64 - INTMAX
  {
  }

  lemma RequestRange(nu: nat)
    requires 0 < nu <= Units(2 * INTMAX - 1)
    ensures nu <= Request(nu) <= Units(2 * INTMAX - 1)
  {
  }

  lemma UnitsRange(nbytes: nat)
    requires nbytes < 2 * INTMAX
    ensures 0 < Units(nbytes) <= Units(2 * INTMAX - 1)
  {
  }

  /** The same request of 2 GB is granted nothing and not refused, or refused, as the size has it. */
  lemma TwoGigabytes()
    ensures Units(0x8000_0000) == 0x800_0001
    ensures Granted(0x800_0001, 0x4000) == Sbrked(0x4000, 0x4000) && !Sound(0x800_0001, 0x4000)
    ensures Granted(0x800_0001, 0x7FFF_FFF0) == Sbrked(UINT64 - 1, 0x7FFF_FFF0) && Sound(0x800_0001, 0x7FFF_FFF0)
    ensures Granted(0x800_0001, 0x1_0000_0000).sz < 0x1_0000_0000 && !Sound(0x800_0001, 0x1_0000_0000)
  {
  }

  // ----- free -----

  ghost function Freed(h: Heap, p: nat, b: nat): Heap
    requires Ok(h, {}) && b in h.live && b > BASE && Before(h, p, b)
  {
    InsertOk(h, p, b);
    var h1 := Inserted(h, p, b);
    Shapes(h1, {p, b}, b);
    var h2 := if Touches(h1, b) then Merged(h1, b) else h1;
    JoinNext(h, p, b);
    Shapes(h2, {p}, p);
    if Touches(h2, p) then Merged(h2, p) else h2
  }

  lemma Shapes(h: Heap, seam: set<nat>, a: nat)
    requires Ok(h, seam)
    ensures a in h.free ==> a in h.ptr && a in h.size && h.ptr[a] in h.ptr && h.ptr[a] in h.size && h.ptr[a] in h.free
  {
    assert Known(h, a) && LinkOk(h, seam, a);
    if a in h.free { assert Known(h, h.ptr[a]); }
  }

  lemma JoinNext(h: Heap, p: nat, b: nat)
    requires Ok(h, {}) && b in h.live && b > BASE && Before(h, p, b)
    ensures var h1 := Inserted(h, p, b);
            b in h1.ptr && b in h1.size && h1.ptr[b] in h1.ptr && h1.ptr[b] in h1.size
            && var h2 := if Touches(h1, b) then Merged(h1, b) else h1; Ok(h2, {p}) && p in h2.free && h2.ptr[p] == b
  {
    InsertOk(h, p, b);
    var h1 := Inserted(h, p, b);
    Shapes(h1, {p, b}, b);
    Shapes(h, {}, p);
    assert {p, b} - {b} == {p};
    assert Known(h, h.ptr[p]) && Known(h, b);
    if Touches(h1, b) { MergeOk(h1, {p, b}, b); } else { SeamGone(h1, {p, b}, b); }
  }

  /** What free keeps: the memory, every other live block, and one free block that covers the freed one. */
  ghost predicate KeepsLive(h: Heap, h': Heap, gone: set<nat>) {
    && h'.live == h.live - gone && h'.own.Keys == h.own.Keys && h'.top == h.top
    && (forall a :: a in h'.live ==> a in h.size && a in h'.size && h'.size[a] == h.size[a])
  }

  lemma FreedOk(h: Heap, p: nat, b: nat) returns (w: nat)
    requires Ok(h, {}) && b in h.live && b > BASE && Before(h, p, b)
    ensures Ok(Freed(h, p, b), {}) && KeepsLive(h, Freed(h, p, b), {b}) && p in Freed(h, p, b).free
    ensures b in h.size && Contains(Freed(h, p, b), w, b, h.size[b])
  {
    hide Ok;
    JoinNext(h, p, b);
    InsertOk(h, p, b);
    var h1 := Inserted(h, p, b);
    var h2 := if Touches(h1, b) then Merged(h1, b) else h1;
    Shapes(h2, {p}, p);
    LiveSizes(h);
    assert {p} - {p} == {};
    if Touches(h2, p) {
      BaseAlone(h2, {p});
      MergeOk(h2, {p}, p);
      w := p;
    } else {
      SeamGone(h2, {p}, p);
      w := b;
    }
  }

  ghost predicate Covers(h: Heap, w: nat, n: nat) { w in h.free && w in h.size && h.size[w] >= n }

  /** Free block w contains the n bytes from b on. */
  ghost predicate Contains(h: Heap, w: nat, b: nat, n: nat) {
    w in h.free && w in h.size && w <= b && b + n <= w + h.size[w]
  }

  lemma LiveSizes(h: Heap)
    requires Ok(h, {})
    ensures forall a :: a in h.live ==> a in h.size && a != BASE && a !in h.free
  {
    forall a | a in h.live ensures a in h.size && a != BASE && a !in h.free { assert Known(h, a) && Known(h, BASE); }
  }

  lemma BaseAlone(h: Heap, seam: set<nat>)
    requires Ok(h, seam)
    ensures BASE in h.size && h.size[BASE] == 0
  {
  }

  // ----- walking the free list once round from f -----

  /** Already met when the walk from f's successor has come to p. */
  ghost predicate Passed(f: nat, p: nat, x: nat) { if p > f then f < x < p else x > f || x < p }

  lemma PassStart(h: Heap, f: nat, x: nat)
    requires Ok(h, {}) && f in h.free && f in h.ptr && x in h.free
    ensures !Passed(f, h.ptr[f], x)
  {
    assert Known(h, f) && Known(h, x) && LinkOk(h, {}, f) && PairOk(h, f, x);
  }

  lemma PassStep(h: Heap, f: nat, p: nat, x: nat)
    requires Ok(h, {}) && f in h.free && p in h.free && p in h.ptr && x in h.free && p != f
    ensures Passed(f, h.ptr[p], x) <==> Passed(f, p, x) || x == p
  {
    assert Known(h, p) && Known(h, x) && LinkOk(h, {}, p) && PairOk(h, p, x) && PairOk(h, p, f) && Known(h, f);
  }

  lemma PassBegin(h: Heap, f: nat)
    requires Ok(h, {}) && f in h.free
    ensures f in h.ptr && h.ptr[f] in h.free && h.ptr[f] in h.size && h.ptr[f] in h.ptr
    ensures forall x :: x in h.free ==> !Passed(f, h.ptr[f], x)
  {
    Shapes(h, {}, f);
    forall x | x in h.free ensures !Passed(f, h.ptr[f], x) { PassStart(h, f, x); }
  }

  lemma PassMore(h: Heap, f: nat, p: nat)
    requires Ok(h, {}) && f in h.free && p in h.free && p != f
    ensures p in h.ptr && h.ptr[p] in h.free && h.ptr[p] in h.size && h.ptr[p] in h.ptr && !Passed(f, p, p)
    ensures forall x :: x in h.free ==> (Passed(f, h.ptr[p], x) <==> Passed(f, p, x) || x == p)
  {
    Shapes(h, {}, p);
    forall x | x in h.free ensures Passed(f, h.ptr[p], x) <==> Passed(f, p, x) || x == p { PassStep(h, f, p, x); }
  }

  /** A walk that is back at its start without finding n bytes has met every free block. */
  lemma RoundTrip(h: Heap, f: nat, w: nat, n: nat)
    requires f in h.size && h.size[f] < n && forall x :: x in h.free && Passed(f, f, x) ==> x in h.size && h.size[x] < n
    ensures !Covers(h, w, n)
  {
    if w in h.free && w != f { assert Passed(f, f, w); }
  }

  /** No free block has n bytes. */
  ghost predicate AllUnder(h: Heap, n: nat) { forall x :: x in h.free ==> x in h.size && h.size[x] < n }

  lemma AllSmall(h: Heap, f: nat, n: nat)
    requires f in h.size && h.size[f] < n && forall x :: x in h.free && Passed(f, f, x) ==> x in h.size && h.size[x] < n
    ensures AllUnder(h, n)
  {
    forall x | x in h.free ensures x in h.size && h.size[x] < n { assert x == f || Passed(f, f, x); }
  }

  lemma NotBase(h: Heap, q: nat, p: nat, n: nat)
    requires Ok(h, {}) && n > 0 && q in h.free && p in h.free && q in h.ptr && h.ptr[q] == p && p in h.size
    requires h.size[p] >= n
    ensures p != BASE && q != p && q > 0 && p !in h.live && p in h.ptr
  {
    assert Known(h, p) && Known(h, q) && LinkOk(h, {}, p);
  }

  class UserHeap {
    var ptr: map<nat, nat>
    var size: map<nat, nat> // s.size times the size of a header
    var freep: nat          // 0 before the first malloc
    var brk: nat            // the end of the process's memory
    ghost var free: set<nat>
    ghost var live: set<nat>
    ghost var own: map<nat, nat>
    ghost var top: nat

    ghost function Now(): Heap
      reads this
    {
      Heap(ptr, size, free, live, own, top)
    }

    ghost predicate Valid()
      reads this
    {
      if freep == 0 then live == {} && own == map[] && BASE < top <= brk
      else Ok(Now(), {}) && freep in free && top <= brk
    }

    constructor (start: nat)
      requires start > BASE
      ensures Valid() && freep == 0 && live == {} && brk == start
    {
      ptr, size, freep, brk := map[], map[], 0, start;
      free, live, own, top := {}, {}, map[], start;
    }

    /** The loop of free: the free header after which b belongs. */
    method FindGap(b: nat) returns (p: nat)
      requires Ok(Now(), {}) && freep in free && b in live && b > BASE
      ensures Before(Now(), p, b)
    {
      hide Ok;
      ghost var h, left, high := Now(), free, freep > b;
      p := freep;
      LiveAboveBase(h, b);
      WalkFacts(h, p);
      while !(b > p && b < ptr[p])
        invariant p in free && p in ptr && p != b && (p > b ==> high)
        invariant forall x :: x in free && x > p ==> x in left
        decreases high, left
      {
        WalkFacts(h, p);
        if p >= ptr[p] && (b > p || b < ptr[p]) { return; }
        StepUp(h, p, b);
        if ptr[p] > p {
          assert ptr[p] in left;
          left := set x | x in left && x > ptr[p];
        } else {
          high, left := false, free;
        }
        p := ptr[p];
        WalkFacts(h, p);
      }
    }

    /** free of a pointer that malloc returned and that has not been freed since. */
    method Free(ap: nat) returns (ghost w: nat)
      requires Valid() && ap >= UNIT && ap - UNIT in live && freep != 0
      modifies this`ptr, this`size, this`freep, this`free, this`live, this`own
      ensures Valid() && freep != 0 && KeepsLive(old(Now()), Now(), {ap - UNIT})
      ensures ap - UNIT in old(size) && Contains(Now(), w, ap - UNIT, old(size)[ap - UNIT])
    {
      hide Ok, Freed, KeepsLive;
      ghost var h := Now();
      var bp := ap - UNIT;
      LiveAboveBase(h, bp);
      var p := FindGap(bp);
      w := FreedOk(h, p, bp);
      FreeReads(h, p, bp);
      FreedCells(h, p, bp);
      if bp + size[bp] == ptr[p] {
        size, ptr := size[bp := size[bp] + size[ptr[p]]], ptr[bp := ptr[ptr[p]]];
      } else {
        ptr := ptr[bp := ptr[p]];
      }
      assert Heap(ptr, size, free, live, own, top) == FirstHalf(h, p, bp);
      if p + size[p] == bp {
        size, ptr := size[p := size[p] + size[bp]], ptr[p := ptr[bp]];
      } else {
        ptr := ptr[p := bp];
      }
      ghost var h' := Freed(h, p, bp);
      freep := p;
      free, live, own := h'.free, h'.live, h'.own;
      assert Now() == h';
    }

    /**
     morecore, when other code has moved the break up by `gap` bytes since. It is broken, and
     the model stops, exactly where the code would go on to free memory that sbrk did not add
     or has lost memory in use; a result of 0 says that sbrk failed, or seems to have.
     */
    method Morecore(nu: nat, gap: nat) returns (r: nat, broken: bool, ghost w: nat)
      requires Valid() && freep != 0 && 0 < nu <= Units(2 * INTMAX - 1) && brk + gap < UINT64
      modifies this
      ensures broken <==> Breaks(Request(nu), old(brk) + gap)
      ensures !broken ==> Valid() && freep != 0 && SameLive(old(Now()), Now())
      ensures !broken ==> (r == 0 <==> Refused(Request(nu), old(brk) + gap))
      ensures !broken && r == 0 ==> Now() == old(Now()) && freep == old(freep)
      ensures !broken && r != 0 ==> r == freep && brk == old(brk) + gap + Request(nu) * UNIT
      ensures !broken && r != 0 ==> Contains(Now(), w, old(brk) + gap, Request(nu) * UNIT)
      ensures !broken && r != 0 ==> own.Keys == old(own).Keys + Range(old(brk) + gap, Request(nu) * UNIT)
    {
      hide Ok, KeepsLive, SameLive, Range, Sound, Breaks, Granted, Refused, Units;
      var nu', sz := Request(nu), brk + gap;
      RequestRange(nu);
      SoundIff(nu', sz);
      ghost var h := Now();
      SameSelf(h);
      w := 0;
      var got := Granted(nu', sz);
      if got.ret == UINT64 - 1 {
        ToldIff(nu', sz);
        if got.sz < sz { return 0, true, 0; }
        brk := got.sz;
        return 0, false, 0;
      }
      NotTold(nu', sz);
      if got.ret != sz || got.sz != sz + nu' * UNIT { return 0, true, 0; }
      var hp := brk + gap;
      brk := hp + nu' * UNIT;
      GrowOk(h, hp, nu' * UNIT);
      size := size[hp := nu' * UNIT];
      own, live, top := Grown(h, hp, nu' * UNIT).own, live + {hp}, brk;
      ghost var g := Now();
      w := Free(hp + UNIT);
      BackToLive(h, g, Now(), hp, nu' * UNIT);
      r, broken := freep, false;
    }

    ghost predicate NoFit(n: nat)
      reads this
    {
      freep != 0 ==> AllUnder(Now(), n)
    }

    /**
     malloc of any number of bytes a uint holds: a block of its own, large enough for them
     behind its header, and no other live block touched. It calls morecore at most once, only
     when no free block is large enough, and then always finds room, except that it answers 0
     when sbrk fails. The heap is broken exactly when that one request is not sound.
     */
    method Malloc(nbytes: nat, gap: nat) returns (r: nat, broken: bool, ghost calls: nat)
      requires Valid() && nbytes < 2 * INTMAX && brk + gap < UINT64
      modifies this
      ensures calls == if old(NoFit(Units(nbytes) * UNIT)) then 1 else 0
      ensures broken <==> calls == 1 && Breaks(Request(Units(nbytes)), old(brk) + gap)
      ensures !broken ==> Valid() && freep != 0
      ensures !broken ==> (r == 0 <==> calls == 1 && Refused(Request(Units(nbytes)), old(brk) + gap))
      ensures !broken ==> forall a :: a in old(live) ==> a in old(size) && a in size && size[a] == old(size)[a]
      ensures !broken && r == 0 ==> live == old(live) && own.Keys == old(own).Keys
      ensures !broken && r > 0 ==> r >= UNIT && r - UNIT !in old(live) && live == old(live) + {r - UNIT}
      ensures !broken && r > 0 ==> r - UNIT in size && size[r - UNIT] == Units(nbytes) * UNIT
      ensures !broken && r > 0 ==>
                var more := if calls == 0 then {} else Range(old(brk) + gap, Request(Units(nbytes)) * UNIT);
                own.Keys == old(own).Keys + more
    {
      hide Ok, Passed, Request, Range, Units, Sound, Breaks, Refused, Granted;
      var nunits := Units(nbytes);
      UnitsRange(nbytes);
      RequestRange(nunits);
      var n := nunits * UNIT;
      ghost var sz := brk + gap;
      calls, broken := 0, false;
      if freep == 0 { Start(); }
      ghost var h, left, w := Now(), free, 0;
      var prevp: nat := freep;
      PassBegin(h, freep);
      SameSelf(h);
      var p: nat := ptr[prevp];
      while size[p] < n
        invariant Ok(Now(), {}) && freep in free && freep != 0 && top <= brk && calls <= 1 && !broken
        invariant prevp in free && prevp in ptr && ptr[prevp] == p && p in free && p in size && p in ptr
        invariant forall x :: x in free && Passed(freep, p, x) ==> x in size && size[x] < n
        invariant forall x :: x in free && !Passed(freep, p, x) ==> x in left
        invariant calls == 1 ==> Covers(Now(), w, n) && AllUnder(h, n)
        invariant calls == 1 ==> !Breaks(Request(nunits), sz) && !Refused(Request(nunits), sz)
        invariant calls == 0 ==> Now() == h && brk == old(brk)
        invariant SameLive(h, Now())
        invariant own.Keys == h.own.Keys + if calls == 0 then {} else Range(sz, Request(nunits) * UNIT)
        decreases 1 - calls, left
      {
        if p == freep {
          RoundTrip(Now(), p, w, n);
          AllSmall(Now(), p, n);
          p, broken, w := Morecore(nunits, gap);
          calls, left := 1, free;
          if broken || p == 0 { return 0, broken, 1; }
          PassBegin(Now(), freep);
        } else {
          PassMore(Now(), freep, p);
          left := left - {p};
        }
        prevp := p;
        p := ptr[p];
      }
      assert calls == 0 ==> !AllUnder(h, n);
      r := Carve(prevp, p, n);
    }

    ghost predicate At(prevp: nat, p: nat)
      reads this
    {
      Ok(Now(), {}) && top <= brk && prevp in free && prevp in ptr && ptr[prevp] == p && p in free && p in size
    }

    /** The end of malloc: the whole of free block p, or its last n bytes. */
    method Carve(prevp: nat, p: nat, n: nat) returns (r: nat)
      requires At(prevp, p) && 0 < n <= size[p]
      modifies this`ptr, this`size, this`freep, this`free, this`live, this`own
      ensures Valid() && freep != 0 && r >= UNIT && own.Keys == old(own).Keys
      ensures r - UNIT !in old(live) && live == old(live) + {r - UNIT} && r - UNIT in size && size[r - UNIT] == n
      ensures forall a :: a in old(live) ==> a in old(size) && a in size && size[a] == old(size)[a]
    {
      hide Ok;
      NotBase(Now(), prevp, p, n);
      LiveSizes(Now());
      if size[p] == n {
        TakeWhole(prevp, p);
        r := p + UNIT;
      } else {
        var t := TakeTail(p, n);
        r := t + UNIT;
      }
      freep := prevp;
    }

    method TakeWhole(prevp: nat, p: nat)
      requires At(prevp, p) && p != BASE && p in ptr
      modifies this`ptr, this`free, this`live
      ensures Ok(Now(), {}) && live == old(live) + {p} && free == old(free) - {p}
    {
      hide Ok;
      TakeOk(Now(), prevp, p);
      ptr := ptr[prevp := ptr[p]];
      free, live := free - {p}, live + {p};
    }

    method TakeTail(p: nat, n: nat) returns (t: nat)
      requires Ok(Now(), {}) && p in free && p in size && 0 < n < size[p]
      modifies this`size, this`live, this`own
      ensures Ok(Now(), {}) && t == p + old(size)[p] - n && t !in old(live) && live == old(live) + {t}
      ensures size == old(size)[p := old(size)[p] - n][t := n] && own.Keys == old(own).Keys
    {
      hide Ok;
      ghost var g := Now();
      SplitOk(g, p, n);
      size := size[p := size[p] - n];
      t := p + size[p];
      size := size[t := n];
      live, own := live + {t}, Split(g, p, n).own;
      assert Now() == Split(g, p, n);
    }

    /** The first malloc: a list of base alone. */
    method Start()
      requires Valid() && freep == 0
      modifies this`ptr, this`size, this`freep, this`free
      ensures Valid() && freep == BASE && live == {} && own == map[] && forall n: nat :: n > 0 ==> AllUnder(Now(), n)
    {
      ptr, size := ptr[BASE := BASE], size[BASE := 0];
      freep := BASE;
      free := {BASE};
    }
  }

  /** The live blocks, and their sizes, are the same. */
  ghost predicate SameLive(h: Heap, h': Heap) {
    h'.live == h.live && forall a :: a in h.live ==> a in h.size && a in h'.size && h'.size[a] == h.size[a]
  }

  /** The cells after free's first `if`, and after its second. */
  ghost function FirstHalf(h: Heap, p: nat, b: nat): Heap
    requires p in h.ptr && b in h.size && h.ptr[p] in h.ptr && h.ptr[p] in h.size
  {
    if b + h.size[b] == h.ptr[p]
    then h.(size := h.size[b := h.size[b] + h.size[h.ptr[p]]], ptr := h.ptr[b := h.ptr[h.ptr[p]]])
    else h.(ptr := h.ptr[b := h.ptr[p]])
  }

  ghost function SecondHalf(h: Heap, p: nat, b: nat): Heap
    requires p in h.size && b in h.size && b in h.ptr
  {
    if p + h.size[p] == b then h.(size := h.size[p := h.size[p] + h.size[b]], ptr := h.ptr[p := h.ptr[b]])
    else h.(ptr := h.ptr[p := b])
  }

  lemma FreedCells(h: Heap, p: nat, b: nat)
    requires Ok(h, {}) && b in h.live && b > BASE && Before(h, p, b)
    requires p in h.ptr && p in h.size && b in h.size && h.ptr[p] in h.ptr && h.ptr[p] in h.size && p != b
    requires h.ptr[p] != b
    ensures var a := FirstHalf(h, p, b);
            p in a.size && b in a.size && b in a.ptr && a.size[p] == h.size[p]
            && Freed(h, p, b).ptr == SecondHalf(a, p, b).ptr && Freed(h, p, b).size == SecondHalf(a, p, b).size
            && Freed(h, p, b).top == h.top
  {
    hide Ok;
    JoinNext(h, p, b);
    var h1 := Inserted(h, p, b);
    var h2 := if Touches(h1, b) then Merged(h1, b) else h1;
    var a := FirstHalf(h, p, b);
    HalfIs(h, p, b);
    assert SecondHalf(a, p, b).ptr == (if Touches(h2, p) then h2.ptr[p := h2.ptr[b]] else h2.ptr);
  }

  lemma HalfIs(h: Heap, p: nat, b: nat)
    requires Ok(h, {}) && b in h.live && b > BASE && Before(h, p, b)
    requires p in h.ptr && p in h.size && b in h.size && h.ptr[p] in h.ptr && h.ptr[p] in h.size && p != b
    requires h.ptr[p] != b
    ensures var h1 := Inserted(h, p, b);
            h1.ptr[b] in h1.ptr && (Touches(h1, b) <==> b + h.size[b] == h.ptr[p])
            && var h2 := if Touches(h1, b) then Merged(h1, b) else h1;
            h2.size == FirstHalf(h, p, b).size && h2.ptr == FirstHalf(h, p, b).ptr[p := b]
  {
    JoinNext(h, p, b);
    FreeReads(h, p, b);
    var h1 := Inserted(h, p, b);
    if Touches(h1, b) { assert h1.ptr[h1.ptr[b]] == h.ptr[h.ptr[p]]; }
  }

  lemma LiveAboveBase(h: Heap, b: nat)
    requires Ok(h, {}) && b in h.live
    ensures b > BASE && b !in h.free && b in h.size
  {
    assert Known(h, b) && Known(h, BASE) && BlockOk(h, b, b) && ByteOk(h, b);
  }

  lemma WalkFacts(h: Heap, p: nat)
    requires Ok(h, {}) && p in h.free
    ensures p in h.ptr && h.ptr[p] in h.free && (h.ptr[p] > p || h.ptr[p] == BASE)
    ensures forall x :: x in h.free && x > p ==> p < h.ptr[p] <= x
  {
    assert Known(h, p) && LinkOk(h, {}, p);
    forall x: nat | x in h.free && x > p ensures p < h.ptr[p] <= x { assert PairOk(h, p, x); }
  }

  lemma StepUp(h: Heap, p: nat, b: nat)
    requires Ok(h, {}) && p in h.free && p in h.ptr && b in h.live && p != b && !(p < b < h.ptr[p])
    ensures h.ptr[p] != b && (p < b && h.ptr[p] > p ==> h.ptr[p] < b)
  {
    LiveAboveBase(h, b);
    assert LinkOk(h, {}, p) && Known(h, p);
  }

  /** The cells free reads are there, and what it writes is the merged list. */
  lemma FreeReads(h: Heap, p: nat, b: nat)
    requires Ok(h, {}) && b in h.live && b > BASE && Before(h, p, b)
    ensures p in h.ptr && p in h.size && b in h.size && h.ptr[p] in h.ptr && h.ptr[p] in h.size && p != b
    ensures h.ptr[p] != b
    ensures p > 0 && (b + h.size[b] == h.ptr[p] ==> h.ptr[p] != p)
  {
    Shapes(h, {}, p);
    assert Known(h, p);
    LiveAboveBase(h, b);
  }

  lemma BackToLive(h: Heap, g: Heap, f: Heap, b: nat, n: nat)
    requires Ok(h, {}) && g == Grown(h, b, n) && b !in h.live && KeepsLive(g, f, {b})
    ensures SameLive(h, f) && f.own.Keys == h.own.Keys + Range(b, n)
  {
    LiveSizes(h);
    assert g.own.Keys == h.own.Keys + Range(b, n);
  }

  lemma SameSelf(h: Heap)
    requires Ok(h, {})
    ensures SameLive(h, h)
  {
    LiveSizes(h);
  }
}
