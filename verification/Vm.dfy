/** The page-table code, working in place on the table pages and the frame allocator. */
module Vm {
  import opened Wrappers
  import opened PageTable

  /** A snapshot of table pages, reference counts and free frames. */
  datatype Mem = Mem(tables: Tables, cnt: map<nat, int>, free: set<nat>)

  /** Free frames are unreferenced and hold no table; a table page has one reference. */
  ghost predicate AllocOk(m: Mem) {
    && (forall f :: f in m.free ==> f > 0 && f in m.cnt && m.cnt[f] == 0 && f !in m.tables)
    && (forall f :: f in m.tables ==> f > 0 && f in m.cnt && m.cnt[f] == 1)
  }

  ghost predicate Ok(m: Mem, t: Tree) { AllocOk(m) && TreeOk(m.tables, t) }

  /** From m to m' the tree only took free frames for new table pages, and no table outside it changed. */
  ghost predicate Grew(m: Mem, t: Tree, m': Mem, t': Tree) {
    && t'.root == t.root && m'.free <= m.free
    && t'.role.Keys == t.role.Keys + (m.free - m'.free)
    && m'.tables.Keys == m.tables.Keys + (m.free - m'.free)
    && m'.cnt.Keys == m.cnt.Keys
    && (forall f :: f in m.cnt ==> m'.cnt[f] == if f in m.free && f !in m'.free then 1 else m.cnt[f])
    && (forall f :: f in m.tables && f !in t.role ==> m'.tables[f] == m.tables[f])
  }

  ghost predicate SameFlat(m: Mem, t: Tree, m': Mem, t': Tree) {
    forall v: nat :: Flat(m'.tables, t', v) == Flat(m.tables, t, v)
  }

  lemma GrewTrans(m: Mem, t: Tree, m1: Mem, t1: Tree, m2: Mem, t2: Tree)
    requires Ok(m, t) && Grew(m, t, m1, t1) && Grew(m1, t1, m2, t2)
    ensures Grew(m, t, m2, t2)
  {
    assert m.free - m2.free == (m.free - m1.free) + (m1.free - m2.free);
    forall f | f in m.tables && f !in t.role ensures m2.tables[f] == m.tables[f] {
      assert f !in m.free;
    }
  }

  /** The table page walk is at after going down to a level. */
  ghost function TableAt(t: Tree, level: nat, vpn: nat): nat {
    if level == 0 then (if vpn / 512 in t.low then t.low[vpn / 512] else 0)
    else if level == 1 then (if vpn / 262144 in t.mid then t.mid[vpn / 262144] else 0)
    else t.root
  }

  /** Linking page f below the page of `level`. */
  ghost function Link(t: Tree, level: nat, vpn: nat, f: nat): Tree {
    if level == 1 then t.(low := t.low[vpn / 512 := f], role := t.role[f := Low(vpn / 512)])
    else t.(mid := t.mid[vpn / 262144 := f], role := t.role[f := Mid(vpn / 262144)])
  }

  /** The entry walk reads at a level is valid exactly when the next level has a page, and then names it. */
  lemma StepDown(m: Mem, t: Tree, level: nat, vpn: nat)
    requires Ok(m, t) && 1 <= level <= 2 && vpn < MAXPAGE
    requires level == 1 ==> vpn / 262144 in t.mid
    ensures var f := TableAt(t, level, vpn); f in m.tables && |m.tables[f]| == ENTRIES && f in t.role
    ensures var e := EntryAt(m.tables, TableAt(t, level, vpn), Px(level, vpn));
            && (IsValid(e) <==> if level == 1 then vpn / 512 in t.low else vpn / 262144 in t.mid)
            && (IsValid(e) ==> e.ppn == TableAt(t, level - 1, vpn) && e.ppn > 0)
            && (!IsValid(e) ==> vpn / 512 !in t.low)
  {
    var k := vpn / 512;
    assert k / 512 == vpn / 262144 && Px(2, vpn) == vpn / 262144 && Px(1, vpn) == k % 512;
    assert MidOk(m.tables, t, vpn / 262144) && LowOk(m.tables, t, k) && RoleOk(m.tables, t, TableAt(t, level, vpn));
    assert RoleOk(m.tables, t, TableAt(t, level - 1, vpn));
  }

  lemma LinkKeeps(m: Mem, t: Tree, level: nat, vpn: nat, f: nat)
    requires Ok(m, t) && 1 <= level <= 2 && vpn < MAXPAGE && f in m.free
    requires level == 1 ==> vpn / 262144 in t.mid && vpn / 512 !in t.low
    requires level == 2 ==> vpn / 262144 !in t.mid
    ensures var p := TableAt(t, level, vpn); p in m.tables && |m.tables[p]| == ENTRIES && p != f
    ensures var m' := Mem(SetEntry(m.tables, TableAt(t, level, vpn), Px(level, vpn), Pte(f, {V}))[f := ZeroTable()],
                          m.cnt[f := 1], m.free - {f});
            Ok(m', Link(t, level, vpn, f)) && Grew(m, t, m', Link(t, level, vpn, f))
                && SameFlat(m, t, m', Link(t, level, vpn, f))
  {
    var k := vpn / 512;
    assert k / 512 == vpn / 262144 && Px(2, vpn) == vpn / 262144 && Px(1, vpn) == k % 512;
    assert RoleOk(m.tables, t, f);
    StepDown(m, t, level, vpn);
    assert m.free - (m.free - {f}) == {f};
    if level == 1 { AddLow(m.tables, t, k, f); } else { AddMid(m.tables, t, vpn / 262144, f); }
  }

  /** What frames hold that are not table pages. */
  type Pages = map<nat, seq<int>>

  /** memset of a whole page. */
  function Filled(x: int): seq<int> { seq(PGSIZE, _ => x) }

  ghost predicate Holds(p: Pages, f: nat, bytes: seq<int>) { f in p && p[f] == bytes }

  /** No frame outside s has changed. */
  ghost predicate SameOutside(p: Pages, p': Pages, s: set<nat>) {
    forall f: nat, bytes :: f !in s ==> (Holds(p', f, bytes) <==> Holds(p, f, bytes))
  }

  lemma OutsideTrans(p: Pages, q: Pages, r: Pages, a: set<nat>, b: set<nat>)
    requires SameOutside(p, q, a) && SameOutside(q, r, b)
    ensures a <= b ==> SameOutside(p, r, b)
    ensures b <= a ==> SameOutside(p, r, a)
  {
  }

  lemma OutsideRefl(p: Pages, s: set<nat>)
    ensures SameOutside(p, p, s)
  {
  }

  lemma OutsideUpdate(p: Pages, q: Pages, s: set<nat>, f: nat, bytes: seq<int>)
    requires SameOutside(p, q, s) && f in s
    ensures SameOutside(p, q[f := bytes], s)
  {
    forall g: nat, x | g !in s ensures Holds(q[f := bytes], g, x) <==> Holds(p, g, x) {
      assert Holds(q[f := bytes], g, x) <==> Holds(q, g, x);
    }
  }

  ghost predicate Zeroed(p: Pages, got: seq<nat>) {
    forall k :: 0 <= k < |got| ==> Holds(p, got[k], Filled(0))
  }

  lemma ZeroedKept(p: Pages, q: Pages, s: set<nat>, got: seq<nat>)
    requires SameOutside(p, q, s) && Zeroed(p, got) && forall k :: 0 <= k < |got| ==> got[k] !in s
    ensures Zeroed(q, got)
  {
  }

  /** A frame that kalloc has filled with junk and uvmalloc with zeros. */
  lemma ZeroedMore(p: Pages, q: Pages, s: set<nat>, got: seq<nat>, mem: nat)
    requires SameOutside(p, q, s) && Zeroed(q, got) && mem in s && mem !in got
    ensures SameOutside(p, q[mem := Filled(5)][mem := Filled(0)], s)
    ensures Zeroed(q[mem := Filled(5)][mem := Filled(0)], got + [mem])
  {
    hide Filled;
    OutsideUpdate(p, q, s, mem, Filled(5));
    OutsideUpdate(p, q[mem := Filled(5)], s, mem, Filled(0));
    var r := q[mem := Filled(5)][mem := Filled(0)];
    forall k | 0 <= k < |got| + 1 ensures Holds(r, (got + [mem])[k], Filled(0)) {
      if k < |got| { assert Holds(q, got[k], Filled(0)); }
    }
  }

  lemma SameFlatRefl(m: Mem, t: Tree)
    ensures SameFlat(m, t, m, t)
  {
  }

  lemma SameFlatTrans(m: Mem, t: Tree, m1: Mem, t1: Tree, m2: Mem, t2: Tree)
    requires SameFlat(m, t, m1, t1) && SameFlat(m1, t1, m2, t2)
    ensures SameFlat(m, t, m2, t2)
  {
  }

  lemma FreeShrinks(m: Mem, t: Tree, m': Mem, t': Tree)
    requires Grew(m, t, m', t')
    ensures m'.free <= m.free
  {
  }

  class Vm {
    var tables: Tables
    var cnt: map<nat, int>
    var free: set<nat>
    var page: Pages

    ghost function Now(): Mem
      reads this
    {
      Mem(tables, cnt, free)
    }

    method Kalloc() returns (r: nat)
      requires AllocOk(Now())
      modifies this
      ensures r == 0 <==> old(free) == {}
      ensures r == 0 ==> Now() == old(Now())
      ensures r != 0 ==> r in old(free) && Now() == Mem(old(tables), old(cnt)[r := 1], old(free) - {r})
      ensures page == if r == 0 then old(page) else old(page)[r := Filled(5)]
    {
      if free == {} { return 0; }
      r :| r in free;
      free := free - {r};
      cnt := cnt[r := 1];
      page := page[r := Filled(5)];
    }

    method Kfree(f: nat)
      requires f in cnt && cnt[f] >= 1
      modifies this
      ensures var last := old(cnt)[f] == 1;
              && Now() == Mem(old(tables), old(cnt)[f := old(cnt)[f] - 1], if last then old(free) + {f} else old(free))
              && page == if last then old(page)[f := Filled(1)] else old(page)
    {
      cnt := cnt[f := cnt[f] - 1];
      if cnt[f] == 0 {
        page := page[f := Filled(1)];
        free := free + {f};
      }
    }

    /**
     walk: the low table page and index for a page, or the null page 0. No translation
     changes. Without alloc, null means no low page exists and nothing happens; with alloc,
     null means memory ran out.
     */
    method Walk(ghost t: Tree, root: nat, vpn: nat, alloc: bool) returns (f: nat, i: nat, ghost t': Tree)
      requires Ok(Now(), t) && root == t.root && vpn < MAXPAGE
      modifies this
      ensures Ok(Now(), t') && Grew(old(Now()), t, Now(), t') && SameFlat(old(Now()), t, Now(), t')
      ensures i == vpn % 512 && t'.root == t.root
      ensures f != 0 ==> vpn / 512 in t'.low && f == t'.low[vpn / 512]
      ensures f == 0 && alloc ==> free == {}
      ensures !alloc ==> Now() == old(Now()) && t' == t && (f == 0 ==> vpn / 512 !in t.low)
      ensures vpn / 512 in t.low ==> f != 0
      ensures SameOutside(old(page), page, old(free)) && (!alloc ==> page == old(page))
    {
      hide Ok, Grew, Flat, SameFlat, SameOutside;
      GrewRefl(Now(), t);
      SameFlatRefl(Now(), t);
      OutsideRefl(page, free);
      t' := t;
      var pagetable := root;
      var level := 2;
      i := vpn % 512;
      while level > 0
        invariant 0 <= level <= 2 && Ok(Now(), t') && Grew(old(Now()), t, Now(), t') && t'.root == t.root
        invariant SameFlat(old(Now()), t, Now(), t')
        invariant pagetable == TableAt(t', level, vpn)
        invariant level <= 1 ==> vpn / 262144 in t'.mid
        invariant level == 0 ==> vpn / 512 in t'.low && pagetable > 0
        invariant !alloc ==> Now() == old(Now()) && t' == t && page == old(page)
        invariant t'.low == t.low || level == 0
        invariant SameOutside(old(page), page, old(free))
      {
        StepDown(Now(), t', level, vpn);
        var pte := tables[pagetable][Px(level, vpn)];
        if IsValid(pte) {
          pagetable := pte.ppn;
        } else {
          if !alloc { return 0, vpn % 512, t'; }
          ghost var before, t0, pages := Now(), t', page;
          FreeShrinks(old(Now()), t, before, t0);
          var frame;
          frame, t' := NewTable(t0, pagetable, level, vpn);
          OutsideTrans(old(page), pages, page, old(free), before.free);
          if frame == 0 { return 0, vpn % 512, t'; }
          GrewTrans(old(Now()), t, before, t0, Now(), t');
          SameFlatTrans(old(Now()), t, before, t0, Now(), t');
          pagetable := frame;
        }
        level := level - 1;
      }
      f := pagetable;
    }

    /** walk's allocation: a zeroed frame becomes the missing table of a level. */
    method NewTable(ghost t: Tree, pagetable: nat, level: nat, vpn: nat) returns (frame: nat, ghost t': Tree)
      requires Ok(Now(), t) && 1 <= level <= 2 && vpn < MAXPAGE && pagetable == TableAt(t, level, vpn)
      requires level == 1 ==> vpn / 262144 in t.mid && vpn / 512 !in t.low
      requires level == 2 ==> vpn / 262144 !in t.mid
      modifies this
      ensures frame == 0 ==> Now() == old(Now()) && t' == t && free == {}
      ensures frame != 0 ==>
                && t' == Link(t, level, vpn, frame) && Ok(Now(), t')
                && Grew(old(Now()), t, Now(), t') && SameFlat(old(Now()), t, Now(), t')
      ensures SameOutside(old(page), page, old(free))
    {
      hide Ok, Grew, Flat, SameFlat, SameOutside, Link;
      OutsideRefl(page, free);
      AllocPart(Now(), t);
      ghost var before := Now();
      t' := t;
      frame := Kalloc();
      if frame == 0 { return; }
      OutsideUpdate(old(page), old(page), old(free), frame, Filled(5));
      LinkKeeps(before, t, level, vpn, frame);
      tables := SetEntry(tables, pagetable, Px(level, vpn), Pte(frame, {V}))[frame := ZeroTable()];
      t' := Link(t, level, vpn, frame);
    }

    /** The body of the loop of mappages: one page. */
    method MapOne(ghost t: Tree, root: nat, vpn: nat, e: Pte) returns (ok: bool, ghost t': Tree)
      requires Ok(Now(), t) && root == t.root && vpn < MAXPAGE && IsValid(e) && IsLeaf(e)
      modifies this
      ensures Ok(Now(), t') && Grew(old(Now()), t, Now(), t') && t'.root == t.root
      ensures ok || free == {}
      ensures SameOutside(old(page), page, old(free))
      ensures forall v: nat :: Flat(tables, t', v) == if ok && v == vpn then Some(e) else Flat(old(tables), t, v)
    {
      hide Ok, Grew, Flat;
      var f, i;
      f, i, t' := Walk(t, root, vpn, true);
      ok := f != 0;
      if ok {
        PutLeaf(Now(), t', vpn, e);
        ghost var walked := Now();
        tables := SetEntry(tables, f, i, e);
        GrewTrans(old(Now()), t, walked, t', Now(), t');
      }
    }

    /**
     mappages: maps each page of [va, va + size) to consecutive frames with perm | V, and
     changes no other translation. It fails only when no table page can be allocated, and
     then exactly a prefix of `done` pages has been mapped.
     */
    method MapPages(ghost t: Tree, root: nat, va: nat, size: nat, pa: nat, perm: set<Flag>)
      returns (ok: bool, ghost done: nat, ghost t': Tree)
      requires Ok(Now(), t) && root == t.root && size > 0 && va + size <= MAXPAGE * PGSIZE
      requires R in perm || W in perm || X in perm
      requires forall v: nat :: va / PGSIZE <= v <= (va + size - 1) / PGSIZE ==> Flat(tables, t, v) == None
      modifies this
      ensures Ok(Now(), t') && Grew(old(Now()), t, Now(), t') && t'.root == t.root
      ensures var n := (va + size - 1) / PGSIZE - va / PGSIZE + 1;
              (ok ==> done == n) && (!ok ==> done < n && free == {})
      ensures forall v: nat :: Flat(tables, t', v) ==
                if va / PGSIZE <= v < va / PGSIZE + done then Some(Pte(pa / PGSIZE + (v - va / PGSIZE), perm + {V}))
                else Flat(old(tables), t, v)
    {
      hide Ok, Grew, Flat;
      GrewRefl(Now(), t);
      var a, last, frame := va / PGSIZE, (va + size - 1) / PGSIZE, pa / PGSIZE;
      t', done := t, 0;
      while true
        invariant va / PGSIZE <= a <= last && done == a - va / PGSIZE && frame == pa / PGSIZE + done
        invariant Ok(Now(), t') && Grew(old(Now()), t, Now(), t') && t'.root == t.root
        invariant forall v: nat :: Flat(tables, t', v) ==
                    if va / PGSIZE <= v < a then Some(Pte(pa / PGSIZE + (v - va / PGSIZE), perm + {V}))
                    else Flat(old(tables), t, v)
        decreases last - a
      {
        ghost var before, t0 := Now(), t';
        var one;
        one, t' := MapOne(t', root, a, Pte(frame, perm + {V}));
        GrewTrans(old(Now()), t, before, t0, Now(), t');
        if !one { return false, done, t'; }
        done := done + 1;
        if a == last { break; }
        a := a + 1;
        frame := frame + 1;
      }
      ok := true;
    }
  
    /** The body of the loop of uvmunmap: clear one entry, and drop its frame's reference if asked to. */
    method UnmapOne(ghost t: Tree, root: nat, vpn: nat, doFree: bool)
      requires Ok(Now(), t) && root == t.root && vpn < MAXPAGE
      requires doFree ==> Droppable(Now(), Flat(tables, t, vpn))
      modifies this
      ensures Ok(Now(), t) && Kept(old(Now()), t, Now())
      ensures forall v: nat :: Flat(tables, t, v) == if v == vpn then None else Flat(old(tables), t, v)
      ensures cnt == if doFree then Dropped(old(Now()), Flat(old(tables), t, vpn)).cnt else old(cnt)
      ensures free == if doFree then Dropped(old(Now()), Flat(old(tables), t, vpn)).free else old(free)
      ensures SameOutside(old(page), page, free) && old(free) <= free
    {
      hide Grew, SameFlat, SameOutside;
      ghost var t0: Tree;
      OutsideRefl(page, free);
      var f, i;
      f, i, t0 := Walk(t, root, vpn, false);
      if f == 0 { return; }
      LowPage(Now(), t, vpn);
      var pte := tables[f][i];
      if !IsValid(pte) { return; }
      ghost var was := Now();
      PutLeaf(was, t, vpn, Pte(0, {}));
      if doFree {
        Kfree(pte.ppn);
        if pte.ppn in free { OutsideUpdate(old(page), old(page), free, pte.ppn, Filled(1)); }
        OutsideRefl(old(page), free);
      }
      tables := SetEntry(tables, f, i, Pte(0, {}));
      DropKeeps(was, t, vpn, doFree);
    }

    /**
     uvmunmap: removes exactly the translations of its range; with doFree each frame's count
     drops by the number of pages of the range that mapped it, and a frame nothing maps any
     more is free again.
     */
    method Uvmunmap(ghost t: Tree, root: nat, va: nat, npages: nat, doFree: bool)
      requires Ok(Now(), t) && root == t.root && va % PGSIZE == 0 && va / PGSIZE + npages <= MAXPAGE
      requires doFree ==> RangeDroppable(Now(), t, va / PGSIZE, npages)
      modifies this
      ensures Ok(Now(), t) && Kept(old(Now()), t, Now())
      ensures forall v: nat ::
                Flat(tables, t, v) ==
                if va / PGSIZE <= v < va / PGSIZE + npages then None else Flat(old(tables), t, v)
      ensures !doFree ==> cnt == old(cnt) && free == old(free)
      ensures doFree ==> RangeDropped(old(Now()), t, va / PGSIZE, npages, Now())
      ensures SameOutside(old(page), page, free)
    {
      hide Ok, Flat, Kept, RangeDropped, RangeDroppable, SameOutside;
      KeptRefl(Now(), t);
      OutsideRefl(page, free);
      NothingDropped(Now(), t, va / PGSIZE);
      ghost var lo := va / PGSIZE;
      var a := va / PGSIZE;
      while a < va / PGSIZE + npages
        invariant lo <= a <= lo + npages && Ok(Now(), t) && Kept(old(Now()), t, Now())
        invariant forall v: nat :: Flat(tables, t, v) == if lo <= v < a then None else Flat(old(tables), t, v)
        invariant !doFree ==> cnt == old(cnt) && free == old(free)
        invariant doFree ==> RangeDropped(old(Now()), t, lo, a - lo, Now())
        invariant SameOutside(old(page), page, free)
      {
        ghost var before, pages := Now(), page;
        if doFree { NextDroppable(old(Now()), t, lo, npages, a - lo, Now()); }
        UnmapOne(t, root, a, doFree);
        OutsideTrans(old(page), pages, page, before.free, free);
        KeptTrans(old(Now()), t, before, Now());
        if doFree { NextDropped(old(Now()), t, lo, a - lo, before, Now()); }
        a := a + 1;
      }
    }
  
    /** uvmdealloc: unmaps and frees the pages from newsz up to oldsz, both rounded up. */
    method Uvmdealloc(ghost t: Tree, root: nat, oldsz: nat, newsz: nat) returns (sz: nat)
      requires Ok(Now(), t) && root == t.root && RoundUp(oldsz) <= MAXPAGE
      requires newsz < oldsz ==> RangeDroppable(Now(), t, RoundUp(newsz), RoundUp(oldsz) - RoundUp(newsz))
      modifies this
      ensures Ok(Now(), t) && Kept(old(Now()), t, Now())
      ensures sz == if newsz < oldsz then newsz else oldsz
      ensures newsz < oldsz ==>
                && RangeDropped(old(Now()), t, RoundUp(newsz), RoundUp(oldsz) - RoundUp(newsz), Now())
                && forall v: nat :: Flat(tables, t, v) ==
                     if RoundUp(newsz) <= v < RoundUp(oldsz) then None else Flat(old(tables), t, v)
      ensures newsz >= oldsz ==> Now() == old(Now())
      ensures SameOutside(old(page), page, free)
    {
      hide Ok, Flat, Kept, RangeDropped, RangeDroppable, SameOutside;
      KeptRefl(Now(), t);
      OutsideRefl(page, free);
      if newsz >= oldsz { return oldsz; }
      NothingDropped(Now(), t, RoundUp(newsz));
      if RoundUp(newsz) < RoundUp(oldsz) {
        Uvmunmap(t, root, RoundUp(newsz) * PGSIZE, RoundUp(oldsz) - RoundUp(newsz), true);
      }
      sz := newsz;
    }

    /**
     uvmalloc: all or nothing. On success every page from oldsz (rounded up) to newsz maps its
     own fresh zeroed frame; on failure no translation has changed and every data frame is back on
     the free list, only table pages having been taken. A smaller size changes nothing.
     */
    method Uvmalloc(ghost t: Tree, root: nat, oldsz: nat, newsz: nat)
      returns (sz: nat, ghost ok: bool, ghost got: seq<nat>, ghost t': Tree)
      requires Ok(Now(), t) && root == t.root && RoundUp(newsz) <= MAXPAGE
      requires forall v: nat :: RoundUp(oldsz) <= v < RoundUp(newsz) ==> Flat(tables, t, v) == None
      modifies this
      ensures Ok(Now(), t') && sz == if newsz < oldsz then oldsz else if ok then newsz else 0
      ensures newsz < oldsz ==> Now() == old(Now()) && t' == t
      ensures newsz >= oldsz && ok ==>
                && Fresh(old(Now()), got) && |got| == RoundUp(newsz) - RoundUp(oldsz)
                && Grew(Took(old(Now()), got), t, Now(), t') && Mapped(old(Now()), t, RoundUp(oldsz), got, Now(), t')
      ensures newsz >= oldsz && ok ==> Zeroed(page, got)
      ensures !ok ==> Grew(old(Now()), t, Now(), t') && SameFlat(old(Now()), t, Now(), t')
      ensures SameOutside(old(page), page, old(free))
    {
      hide Ok, Flat, Grew, Kept, Fresh, Took, Mapped, SameOutside;
      OutsideRefl(page, free);
      ghost var m := Now();
      if newsz < oldsz {
        return oldsz, true, [], t;
      }
      var lo := RoundUp(oldsz);
      Start(m, t, lo);
      t', got := t, [];
      var a := lo;
      while a < RoundUp(newsz)
        invariant lo <= a <= RoundUp(newsz) && |got| == a - lo && t'.root == t.root
        invariant Ok(Now(), t') && Building(m, t, lo, got, Now(), t')
        invariant SameOutside(old(page), page, old(free)) && Zeroed(page, got)
      {
        ghost var before, t0 := Now(), t';
        AllocPart(before, t0);
        BuildingFree(m, t, lo, got, before, t0);
        ghost var junk := page;
        var mem := Kalloc();
        if mem == 0 {
          Undo(t, t', root, m, lo, got, a, old(page));
          return 0, false, [], t';
        }
        page := page[mem := Filled(0)];
        ZeroedMore(old(page), junk, old(free), got, mem);
        TookOne(m, t, lo, got, before, t0, mem, Now());
        ghost var held, pages := Now(), page;
        var one;
        one, t' := MapOne(t', root, a, Pte(mem, {W, X, R, U, V}));
        ZeroedKept(pages, page, held.free, got + [mem]);
        OutsideTrans(old(page), pages, page, old(free), held.free);
        ghost var after := Now();
        if !one {
          StillHeld(held, t0, after, t', mem);
          OutsideUpdate(old(page), page, old(free), mem, Filled(1));
          Kfree(mem);
          GaveBack(m, t, lo, got, held, t0, after, t', mem, Now());
          Undo(t, t', root, m, lo, got, a, old(page));
          return 0, false, [], t';
        }
        MappedOne(m, t, lo, got, held, t0, after, t', mem);
        got := got + [mem];
        a := a + 1;
      }
      BuildingFacts(m, t, lo, got, Now(), t');
      sz, ok := newsz, true;
    }

    /** The failure path of uvmalloc: give back the pages mapped so far. */
    method Undo(ghost t: Tree, ghost t': Tree, root: nat, ghost m: Mem, lo: nat, ghost got: seq<nat>, a: nat,
                ghost pages: Pages)
      requires Ok(Now(), t') && root == t'.root && Building(m, t, lo, got, Now(), t') && a == lo + |got| <= MAXPAGE
      requires forall v: nat :: lo <= v < lo + |got| ==> Flat(m.tables, t, v) == None
      requires SameOutside(pages, page, m.free)
      modifies this
      ensures Ok(Now(), t') && Grew(m, t, Now(), t') && SameFlat(m, t, Now(), t')
      ensures SameOutside(pages, page, m.free)
    {
      hide Ok, Flat, Grew, Kept, Building, RangeDroppable, RangeDropped, SameOutside;
      ghost var before, was := Now(), page;
      RollbackReady(m, t, lo, got, before, t');
      assert RoundUp(a * PGSIZE) == a;
      var _ := Uvmdealloc(t', root, a * PGSIZE, lo * PGSIZE);
      Rollback(m, t, lo, got, before, t', Now());
      FreeShrinks(m, t, Now(), t');
      OutsideTrans(pages, was, page, m.free, free);
    }
  }

  /** PGROUNDUP, in pages. */
  function RoundUp(sz: nat): nat { (sz + PGSIZE - 1) / PGSIZE }

  lemma BuildingFree(m: Mem, t: Tree, lo: nat, got: seq<nat>, m': Mem, t': Tree)
    requires Building(m, t, lo, got, m', t')
    ensures m'.free <= m.free && forall k :: 0 <= k < |got| ==> got[k] !in m'.free
  {
    FreeShrinks(Took(m, got), t, m', t');
  }

  /** Distinct free frames. */
  ghost predicate Fresh(m: Mem, got: seq<nat>) {
    && (forall i :: 0 <= i < |got| ==> got[i] in m.free)
    && (forall i, j :: 0 <= i < j < |got| ==> got[i] != got[j])
  }

  /** m after kalloc has handed out those frames. */
  ghost function Took(m: Mem, got: seq<nat>): Mem {
    Mem(m.tables, map f | f in m.cnt :: if f in got then 1 else m.cnt[f], set f | f in m.free && f !in got)
  }

  /** The pages from lo map those frames read-write-execute for the user; the rest is as before. */
  ghost predicate Mapped(m: Mem, t: Tree, lo: nat, got: seq<nat>, m': Mem, t': Tree) {
    forall v: nat :: Flat(m'.tables, t', v) ==
      if lo <= v < lo + |got| then Some(Pte(got[v - lo], {W, X, R, U, V})) else Flat(m.tables, t, v)
  }

  /** Midway through uvmalloc: the frames in got have been taken and mapped from lo up. */
  ghost predicate Building(m: Mem, t: Tree, lo: nat, got: seq<nat>, m': Mem, t': Tree) {
    Ok(m, t) && Ok(Took(m, got), t) && Fresh(m, got) && Grew(Took(m, got), t, m', t') && Mapped(m, t, lo, got, m', t')
  }

  lemma Start(m: Mem, t: Tree, lo: nat)
    requires Ok(m, t)
    ensures Building(m, t, lo, [], m, t)
  {
    assert Took(m, []).free == m.free && Took(m, []).cnt == m.cnt;
    GrewRefl(m, t);
  }

  lemma BuildingFacts(m: Mem, t: Tree, lo: nat, got: seq<nat>, m': Mem, t': Tree)
    requires Building(m, t, lo, got, m', t')
    ensures Fresh(m, got) && Grew(Took(m, got), t, m', t') && Mapped(m, t, lo, got, m', t')
  {
  }

  /** One more frame in hand, not mapped yet. */
  ghost predicate Holding(m: Mem, t: Tree, lo: nat, got: seq<nat>, mem: nat, m': Mem, t': Tree) {
    && Ok(m, t) && Fresh(m, got + [mem]) && Ok(Took(m, got + [mem]), t) && Grew(Took(m, got + [mem]), t, m', t')
    && Mapped(m, t, lo, got, m', t')
  }

  lemma TookFrames(m: Mem, t: Tree, got: seq<nat>, before: Mem, t': Tree, mem: nat)
    requires Fresh(m, got) && Grew(Took(m, got), t, before, t') && mem in before.free
    ensures Fresh(m, got + [mem]) && Took(m, got + [mem]).free == Took(m, got).free - {mem}
  {
    var w := Took(m, got);
    assert mem in w.free;
  }

  lemma TookOk(m: Mem, t: Tree, got: seq<nat>, mem: nat)
    requires Ok(Took(m, got), t) && mem in m.free
    ensures Ok(Took(m, got + [mem]), t)
  {
    hide TreeOk;
    var w := Took(m, got + [mem]);
    forall f | f in w.free ensures f in Took(m, got).free { }
    forall f | f in w.tables ensures f > 0 && f in w.cnt && w.cnt[f] == 1 { assert f in Took(m, got).tables; }
  }

  lemma TookGrew(m: Mem, t: Tree, got: seq<nat>, before: Mem, t': Tree, mem: nat, now: Mem)
    requires Fresh(m, got) && Grew(Took(m, got), t, before, t') && mem in before.free
    requires now == Mem(before.tables, before.cnt[mem := 1], before.free - {mem}) && mem in before.cnt
    ensures Grew(Took(m, got + [mem]), t, now, t')
  {
    TookFrames(m, t, got, before, t', mem);
    var w, w' := Took(m, got), Took(m, got + [mem]);
    assert w'.free - now.free == w.free - before.free;
  }

  lemma TookOne(m: Mem, t: Tree, lo: nat, got: seq<nat>, before: Mem, t': Tree, mem: nat, now: Mem)
    requires Building(m, t, lo, got, before, t') && Ok(before, t') && mem in before.free
    requires now == Mem(before.tables, before.cnt[mem := 1], before.free - {mem})
    ensures Holding(m, t, lo, got, mem, now, t') && Ok(now, t')
  {
    hide TreeOk, Flat, Mapped, Grew, Took, Fresh;
    TookFrames(m, t, got, before, t', mem);
    InFree(m, got, mem);
    TookOk(m, t, got, mem);
    TookGrew(m, t, got, before, t', mem, now);
    SameMapped(m, t, lo, got, before, now, t');
  }

  lemma InFree(m: Mem, got: seq<nat>, mem: nat)
    requires Fresh(m, got + [mem])
    ensures mem in m.free
  {
    assert (got + [mem])[|got|] == mem;
  }

  lemma SameMapped(m: Mem, t: Tree, lo: nat, got: seq<nat>, before: Mem, now: Mem, t': Tree)
    requires Mapped(m, t, lo, got, before, t') && now.tables == before.tables
    ensures Mapped(m, t, lo, got, now, t')
  {
  }

  lemma MappedOne(m: Mem, t: Tree, lo: nat, got: seq<nat>, held: Mem, t0: Tree, after: Mem, t': Tree, mem: nat)
    requires Holding(m, t, lo, got, mem, held, t0) && Grew(held, t0, after, t')
    requires forall v: nat ::
               Flat(after.tables, t', v) ==
               if v == lo + |got| then Some(Pte(mem, {W, X, R, U, V})) else Flat(held.tables, t0, v)
    ensures Building(m, t, lo, got + [mem], after, t')
  {
    hide Ok, Grew, Took;
    GrewTrans(Took(m, got + [mem]), t, held, t0, after, t');
  }

  lemma StillHeld(held: Mem, t0: Tree, after: Mem, t': Tree, mem: nat)
    requires Grew(held, t0, after, t') && mem in held.cnt && mem !in held.free
    ensures mem in after.cnt && after.cnt[mem] == held.cnt[mem]
  {
  }

  lemma FreshShorter(m: Mem, got: seq<nat>, mem: nat)
    requires Fresh(m, got + [mem])
    ensures Fresh(m, got) && mem in m.free && mem !in got
  {
    assert (got + [mem])[|got|] == mem;
    forall i | 0 <= i < |got| ensures got[i] in m.free && got[i] != mem { assert (got + [mem])[i] == got[i]; }
    forall i, j | 0 <= i < j < |got| ensures got[i] != got[j] {
      assert (got + [mem])[i] == got[i] && (got + [mem])[j] == got[j];
    }
  }

  lemma GaveBackGrew(m: Mem, t: Tree, got: seq<nat>, mem: nat, after: Mem, t': Tree, now: Mem)
    requires Ok(m, t) && mem in m.free && mem !in got && Ok(after, t')
    requires Grew(Took(m, got + [mem]), t, after, t')
    requires now == Mem(after.tables, after.cnt[mem := 0], after.free + {mem})
    ensures Grew(Took(m, got), t, now, t') && Ok(now, t') && Ok(Took(m, got), t)
  {
    hide TreeOk;
    var w, w' := Took(m, got), Took(m, got + [mem]);
    assert w.free == w'.free + {mem};
    assert w.free - now.free == w'.free - after.free;
  }

  /** kfree of the frame that could not be mapped. */
  lemma GaveBack(m: Mem, t: Tree, lo: nat, got: seq<nat>, held: Mem, t0: Tree, after: Mem, t': Tree, mem: nat, now: Mem)
    requires Holding(m, t, lo, got, mem, held, t0) && Ok(after, t') && Grew(held, t0, after, t')
    requires forall v: nat :: Flat(after.tables, t', v) == Flat(held.tables, t0, v)
    requires now == Mem(after.tables, after.cnt[mem := 0], after.free + {mem})
    ensures Building(m, t, lo, got, now, t') && Ok(now, t')
  {
    hide Ok, Grew, Took, Fresh, Flat;
    GrewTrans(Took(m, got + [mem]), t, held, t0, after, t');
    FreshShorter(m, got, mem);
    GaveBackGrew(m, t, got, mem, after, t', now);
  }

  lemma {:induction false} UsesGot(tb: Tables, t: Tree, lo: nat, got: seq<nat>, n: nat, f: nat)
    requires n <= |got| && (forall i, j :: 0 <= i < j < |got| ==> got[i] != got[j])
    requires forall v: nat :: lo <= v < lo + |got| ==> Flat(tb, t, v) == Some(Pte(got[v - lo], {W, X, R, U, V}))
    ensures Uses(tb, t, lo, n, f) == if f in got[..n] then 1 else 0
  {
    if n > 0 {
      UsesGot(tb, t, lo, got, n - 1, f);
      assert got[..n] == got[..n - 1] + [got[n - 1]];
    }
  }

  lemma RollbackReady(m: Mem, t: Tree, lo: nat, got: seq<nat>, m': Mem, t': Tree)
    requires Building(m, t, lo, got, m', t')
    ensures RangeDroppable(m', t', lo, |got|)
  {
    forall v: nat | lo <= v < lo + |got|
      ensures var e := Flat(m'.tables, t', v); e.Some? && var f := e.value.ppn;
              f > 0 && f in m'.cnt && f !in m'.tables && Uses(m'.tables, t', lo, |got|, f) <= m'.cnt[f]
    {
      var f := got[v - lo];
      UsesGot(m'.tables, t', lo, got, |got|, f);
      assert f in m.free && f in got;
    }
  }

  lemma Rollback(m: Mem, t: Tree, lo: nat, got: seq<nat>, m1: Mem, t1: Tree, m2: Mem)
    requires Building(m, t, lo, got, m1, t1)
    requires forall v: nat :: lo <= v < lo + |got| ==> Flat(m.tables, t, v) == None
    requires Kept(m1, t1, m2) && (if got == [] then m2 == m1 else RangeDropped(m1, t1, lo, |got|, m2))
    requires forall v: nat :: Flat(m2.tables, t1, v) == if lo <= v < lo + |got| then None else Flat(m1.tables, t1, v)
    ensures Grew(m, t, m2, t1) && SameFlat(m, t, m2, t1)
  {
    hide TreeOk, Flat;
    var w := Took(m, got);
    forall f: nat ensures got != [] ==> Uses(m1.tables, t1, lo, |got|, f) == if f in got then 1 else 0 {
      UsesGot(m1.tables, t1, lo, got, |got|, f);
      assert got[..|got|] == got;
    }
    assert m.free - m2.free == w.free - m1.free;
  }

  /** From m to m' only pages of the tree were written, and no frame became or ceased to be a table. */
  ghost predicate Kept(m: Mem, t: Tree, m': Mem) {
    && m'.tables.Keys == m.tables.Keys && m'.cnt.Keys == m.cnt.Keys
    && forall f :: f in m.tables && f !in t.role ==> m'.tables[f] == m.tables[f]
  }

  lemma KeptRefl(m: Mem, t: Tree)
    ensures Kept(m, t, m)
  {
  }

  lemma KeptTrans(m: Mem, t: Tree, m1: Mem, m2: Mem)
    requires Kept(m, t, m1) && Kept(m1, t, m2)
    ensures Kept(m, t, m2)
  {
  }

  /** A mapped frame that kfree accepts: a counted frame that is not a table page. */
  ghost predicate Droppable(m: Mem, e: Option<Pte>) {
    e.Some? ==> e.value.ppn > 0 && e.value.ppn in m.cnt && e.value.ppn !in m.tables && m.cnt[e.value.ppn] >= 1
  }

  ghost function Dropped(m: Mem, e: Option<Pte>): Mem {
    if e.Some? && e.value.ppn in m.cnt then
      var f := e.value.ppn;
      m.(cnt := m.cnt[f := m.cnt[f] - 1], free := if m.cnt[f] == 1 then m.free + {f} else m.free)
    else m
  }

  lemma LowPage(m: Mem, t: Tree, vpn: nat)
    requires Ok(m, t) && vpn / 512 in t.low
    ensures t.low[vpn / 512] in m.tables && |m.tables[t.low[vpn / 512]]| == ENTRIES
  {
    assert LowOk(m.tables, t, vpn / 512) && RoleOk(m.tables, t, t.low[vpn / 512]);
  }

  lemma DropKeeps(m: Mem, t: Tree, vpn: nat, doFree: bool)
    requires Ok(m, t) && vpn / 512 in t.low && (doFree ==> Droppable(m, Flat(m.tables, t, vpn)))
    ensures t.low[vpn / 512] in m.tables && |m.tables[t.low[vpn / 512]]| == ENTRIES
    ensures var d := if doFree then Dropped(m, Flat(m.tables, t, vpn)) else m;
            var m' := d.(tables := SetEntry(m.tables, t.low[vpn / 512], vpn % 512, Pte(0, {})));
            Ok(m', t) && Kept(m, t, m')
  {
    PutLeaf(m, t, vpn, Pte(0, {}));
  }

  /** How many pages of [lo, lo + n) map frame f. */
  ghost function Uses(tb: Tables, t: Tree, lo: nat, n: nat, f: nat): nat {
    if n == 0 then 0
    else
      var e := Flat(tb, t, lo + n - 1);
      Uses(tb, t, lo, n - 1, f) + if e.Some? && e.value.ppn == f then 1 else 0
  }

  lemma {:induction false} UsesGrow(tb: Tables, t: Tree, lo: nat, k: nat, n: nat, f: nat)
    requires k <= n
    ensures Uses(tb, t, lo, k, f) <= Uses(tb, t, lo, n, f)
    decreases n
  {
    if k < n { UsesGrow(tb, t, lo, k, n - 1, f); }
  }

  /** Each mapped frame of the range is a counted data frame with at least as many references as pages. */
  ghost predicate RangeDroppable(m: Mem, t: Tree, lo: nat, n: nat) {
    forall v: nat :: lo <= v < lo + n && Flat(m.tables, t, v).Some? ==>
      var f := Flat(m.tables, t, v).value.ppn;
      f > 0 && f in m.cnt && f !in m.tables && Uses(m.tables, t, lo, n, f) <= m.cnt[f]
  }

  ghost predicate RangeDropped(m: Mem, t: Tree, lo: nat, n: nat, m': Mem) {
    && m'.cnt.Keys == m.cnt.Keys
    && (forall f :: f in m.cnt ==> m'.cnt[f] == m.cnt[f] - Uses(m.tables, t, lo, n, f))
    && (forall f: nat ::
          f in m'.free <==> f in m.free || (f in m.cnt && Uses(m.tables, t, lo, n, f) > 0 && m'.cnt[f] == 0))
  }

  lemma NothingDropped(m: Mem, t: Tree, lo: nat)
    ensures RangeDropped(m, t, lo, 0, m)
  {
  }

  lemma NextDroppable(m: Mem, t: Tree, lo: nat, n: nat, k: nat, m1: Mem)
    requires RangeDroppable(m, t, lo, n) && k < n && RangeDropped(m, t, lo, k, m1)
    requires Kept(m, t, m1) && Flat(m1.tables, t, lo + k) == Flat(m.tables, t, lo + k)
    ensures Droppable(m1, Flat(m1.tables, t, lo + k))
  {
    var e := Flat(m.tables, t, lo + k);
    if e.Some? { UsesGrow(m.tables, t, lo, k + 1, n, e.value.ppn); }
  }

  lemma NextDropped(m: Mem, t: Tree, lo: nat, k: nat, m1: Mem, m2: Mem)
    requires RangeDropped(m, t, lo, k, m1) && Droppable(m1, Flat(m.tables, t, lo + k))
    requires m2.cnt == Dropped(m1, Flat(m.tables, t, lo + k)).cnt
    requires m2.free == Dropped(m1, Flat(m.tables, t, lo + k)).free
    ensures RangeDropped(m, t, lo, k + 1, m2)
  {
  }

  lemma AllocPart(m: Mem, t: Tree)
    requires Ok(m, t)
    ensures AllocOk(m)
  {
  }

  lemma GrewRefl(m: Mem, t: Tree)
    ensures Grew(m, t, m, t)
  {
    assert m.free - m.free == {};
  }

  /** Writing an entry of a low page is within the tree and changes one translation. */
  lemma PutLeaf(m: Mem, t: Tree, vpn: nat, e: Pte)
    requires Ok(m, t) && vpn / 512 in t.low && (IsValid(e) ==> IsLeaf(e))
    ensures var f := t.low[vpn / 512]; f in m.tables && |m.tables[f]| == ENTRIES
    ensures var m' := m.(tables := SetEntry(m.tables, t.low[vpn / 512], vpn % 512, e));
            && Ok(m', t) && Grew(m, t, m', t)
            && forall v: nat :: Flat(m'.tables, t, v) ==
                 if v == vpn then (if IsValid(e) then Some(e) else None) else Flat(m.tables, t, v)
  {
    assert LowOk(m.tables, t, vpn / 512);
    SetLeaf(m.tables, t, vpn, e);
  }
}
