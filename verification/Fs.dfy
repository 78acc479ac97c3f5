/** The code of the block and inode layers, working in place. */
module Fs {
  import opened FsModel
  import opened FsLemmas

  const UINTMOD: nat := 0x1_0000_0000
  const IPB: nat := 16        // inodes per block

  /** A block handed to log_write. */
  datatype LogRef = BitmapBlock(i: nat) | InodeBlock(i: nat) | FileBlock(b: nat)

  /** The slots bmap goes through for block bn of an inode. */
  ghost function Path(ino: nat, bn: nat): set<Own>
    requires bn < MAXFILE
  {
    var p := LeafPos(bn);
    if p.Direct? then {Own(ino, p)}
    else if p.IndLeaf? then {Own(ino, p), Own(ino, Ind)}
    else {Own(ino, p), Own(ino, Dbl), Own(ino, DblMid(p.i))}
  }

  /** Log entries that are blocks in the given slots, or the bitmap blocks of those. */
  ghost predicate LogsOnly(s: Store, refs: set<LogRef>, slots: set<Own>) {
    forall r :: r in refs ==> exists o :: o in slots && LogsSlot(s, r, o)
  }

  ghost predicate LogsSlot(s: Store, r: LogRef, o: Own) {
    && InodesOk(s) && o.ino < |s.inodes| && ValidPos(o.pos) && Ptr(s, o.ino, o.pos) != 0
    && (r == FileBlock(Ptr(s, o.ino, o.pos)) || r == BitmapBlock(Ptr(s, o.ino, o.pos) / BPB))
  }

  /** Slots are only ever filled, and files read the same. */
  ghost predicate Grown(s: Store, s': Store) {
    && InodesOk(s) && InodesOk(s') && |s'.inodes| == |s.inodes| && s'.size == s.size && s'.nmeta == s.nmeta
    && (forall o: Own :: KeepsSlot(s, s', o))
    && (forall ino: nat, off: nat :: SameByte(s, s', ino, off))
    && (forall i :: 0 <= i < |s.inodes| ==> s'.inodes[i].size == s.inodes[i].size)
  }

  ghost predicate KeepsSlot(s: Store, s': Store, o: Own)
    requires InodesOk(s) && InodesOk(s') && |s'.inodes| == |s.inodes|
  {
    o.ino < |s.inodes| && ValidPos(o.pos) && Ptr(s, o.ino, o.pos) != 0 ==> Ptr(s', o.ino, o.pos) == Ptr(s, o.ino, o.pos)
  }

  ghost predicate SameByte(s: Store, s': Store, ino: nat, off: nat)
    requires InodesOk(s) && InodesOk(s') && |s'.inodes| == |s.inodes|
  {
    ino < |s.inodes| && off < MAXFILE * BSIZE ==> FileByte(s', ino, off) == FileByte(s, ino, off)
  }

  lemma GrownRefl(s: Store)
    requires InodesOk(s)
    ensures Grown(s, s)
  {
  }

  lemma GrownTrans(a: Store, b: Store, c: Store)
    requires Grown(a, b) && Grown(b, c)
    ensures Grown(a, c)
  {
    forall o: Own ensures KeepsSlot(a, c, o) { assert KeepsSlot(a, b, o) && KeepsSlot(b, c, o); }
    forall ino: nat, off: nat ensures SameByte(a, c, ino, off) {
      assert SameByte(a, b, ino, off) && SameByte(b, c, ino, off);
    }
  }

  lemma FillGrown(s: Store, o: Own, b: nat)
    requires Inv(s) && Fillable(s, o) && b < s.size && !Bit(s.bits, b)
    ensures Grown(s, Filled(s, o, b))
  {
    var s' := Filled(s, o, b);
    FillInv(s, o, b);
    FillFacts(s, o, b);
    forall x: Own ensures KeepsSlot(s, s', x) {
      if x.ino < |s.inodes| && ValidPos(x.pos) { FillPtr(s, o, b, x); }
    }
    forall ino: nat, off: nat ensures SameByte(s, s', ino, off) {
      if ino < |s.inodes| && off < MAXFILE * BSIZE { FillBytes(s, o, b, ino, off); }
    }
  }

  lemma LogsGrow(s: Store, s': Store, refs: set<LogRef>, slots: set<Own>)
    requires LogsOnly(s, refs, slots) && Grown(s, s')
    ensures LogsOnly(s', refs, slots)
  {
    forall r | r in refs ensures exists o :: o in slots && LogsSlot(s', r, o) {
      var o :| o in slots && LogsSlot(s, r, o);
      assert KeepsSlot(s, s', o);
      assert LogsSlot(s', r, o);
    }
  }

  /** Slot o is as in s0, or filled since, with its block, that block's bitmap block and the pointer block logged. */
  ghost predicate FillLogged(s0: Store, s: Store, refs: set<LogRef>, o: Own)
    requires InodesOk(s0) && InodesOk(s) && |s.inodes| == |s0.inodes|
  {
    o.ino < |s.inodes| && ValidPos(o.pos) && Ptr(s, o.ino, o.pos) != Ptr(s0, o.ino, o.pos) ==>
      Ptr(s0, o.ino, o.pos) == 0 && FillRefs(s, o, Ptr(s, o.ino, o.pos)) <= refs
  }

  /** Blocks stay in use, and one taken since s0 is below every block that is still free. */
  ghost predicate LowFirst(s0: Store, s: Store, b: nat, c: nat) {
    && (Bit(s0.bits, b) ==> Bit(s.bits, b))
    && (b < s.size && c < s.size && !Bit(s0.bits, b) && Bit(s.bits, b) && !Bit(s.bits, c) ==> b < c)
  }

  /** What balloc has done between s0 and s: lowest blocks first, and all of it logged. */
  ghost predicate Allocs(s0: Store, s: Store, refs: set<LogRef>) {
    && InodesOk(s0) && InodesOk(s) && |s.inodes| == |s0.inodes| && s.size == s0.size
    && (forall o: Own :: FillLogged(s0, s, refs, o))
    && (forall b: nat, c: nat :: LowFirst(s0, s, b, c))
  }

  lemma AllocsRefl(s: Store, refs: set<LogRef>)
    requires InodesOk(s)
    ensures Allocs(s, s, refs)
  {
  }

  lemma AllocsTrans(s0: Store, s1: Store, s2: Store, r1: set<LogRef>, r2: set<LogRef>)
    requires Allocs(s0, s1, r1) && Allocs(s1, s2, r2) && Grown(s1, s2) && r1 <= r2
    ensures Allocs(s0, s2, r2)
  {
    forall o: Own ensures FillLogged(s0, s2, r2, o) {
      assert FillLogged(s0, s1, r1, o) && FillLogged(s1, s2, r2, o) && KeepsSlot(s1, s2, o);
      if !IsTop(o.pos) { assert KeepsSlot(s1, s2, Own(o.ino, Above(o.pos))); }
    }
    forall b: nat, c: nat ensures LowFirst(s0, s2, b, c) {
      assert LowFirst(s0, s1, b, c) && LowFirst(s1, s2, b, c) && LowFirst(s1, s2, c, b);
    }
  }

  /** A step that changes no slot and no bit. */
  lemma AllocsSame(s0: Store, s1: Store, s2: Store, r1: set<LogRef>, r2: set<LogRef>)
    requires Allocs(s0, s1, r1) && r1 <= r2 && InodesOk(s2) && |s2.inodes| == |s1.inodes|
    requires s2.size == s1.size && s2.bits == s1.bits
    requires forall o: Own :: SameSlot(s1, s2, o)
    ensures Allocs(s0, s2, r2)
  {
    forall o: Own ensures FillLogged(s0, s2, r2, o) {
      assert FillLogged(s0, s1, r1, o) && SameSlot(s1, s2, o);
      if !IsTop(o.pos) { assert SameSlot(s1, s2, Own(o.ino, Above(o.pos))); }
    }
    forall b: nat, c: nat ensures LowFirst(s0, s2, b, c) { assert LowFirst(s0, s1, b, c); }
  }

  ghost predicate SameSlot(s: Store, s': Store, o: Own)
    requires InodesOk(s) && InodesOk(s') && |s'.inodes| == |s.inodes|
  {
    o.ino < |s.inodes| && ValidPos(o.pos) ==> Ptr(s', o.ino, o.pos) == Ptr(s, o.ino, o.pos)
  }

  lemma FillAllocs(s: Store, o: Own, b: nat, refs: set<LogRef>)
    requires Inv(s) && Fillable(s, o) && b < s.size && !Bit(s.bits, b) && (forall c: nat :: c < b ==> Bit(s.bits, c))
    requires FillRefs(s, o, b) <= refs
    ensures Allocs(s, Filled(s, o, b), refs)
  {
    var s' := Filled(s, o, b);
    FillInv(s, o, b);
    FillFacts(s, o, b);
    forall x: Own ensures FillLogged(s, s', refs, x) {
      if x.ino < |s.inodes| && ValidPos(x.pos) {
        FillPtr(s, o, b, x);
        if !IsTop(x.pos) { FillPtr(s, o, b, Own(x.ino, Above(x.pos))); }
      }
    }
    forall c: nat, d: nat ensures LowFirst(s, s', c, d) {
      if c / BPB < |s.bits| { BitUpdated(s.bits, b, true, c); }
      if d / BPB < |s.bits| { BitUpdated(s.bits, b, true, d); }
    }
  }

  class Fs {
    const nmeta: nat
    const size: nat
    var bits: Bitmap
    var content: map<nat, Block>
    var inodes: seq<Inode>
    ghost var owner: map<nat, Own>
    ghost var logged: set<LogRef>

    ghost function Now(): Store
      reads this
    {
      Store(nmeta, size, bits, content, inodes, owner)
    }

    /** A disk with given contents. */
    constructor (nmeta: nat, size: nat, bits: Bitmap, content: map<nat, Block>, inodes: seq<Inode>,
                 ghost owner: map<nat, Own>)
      ensures Now() == Store(nmeta, size, bits, content, inodes, owner) && logged == {}
    {
      this.nmeta, this.size, this.bits, this.content, this.inodes := nmeta, size, bits, content, inodes;
      this.owner, logged := owner, {};
    }

    /**
     balloc: the lowest free block, now marked in use and cleared; 0 stands for the panic
     "out of blocks", exactly when no bit is clear.
     */
    method Balloc() returns (r: nat)
      requires Inv(Now())
      modifies this`bits, this`content, this`logged
      ensures r == 0 ==> Now() == old(Now()) && logged == old(logged) && forall b: nat :: b < size ==> Bit(bits, b)
      ensures r != 0 ==>
                && r < size && !Bit(old(bits), r) && (forall b: nat :: b < r ==> Bit(old(bits), b))
                && Now() == Allocated(old(Now()), r) && logged == old(logged) + {BitmapBlock(r / BPB), FileBlock(r)}
    {
      var b := 0;
      while b < size
        invariant b % BPB == 0 && Now() == old(Now()) && logged == old(logged)
        invariant forall c: nat :: c < b && c < size ==> Bit(bits, c)
      {
        var bi := 0;
        while bi < BPB && b + bi < size
          invariant 0 <= bi <= BPB && Now() == old(Now()) && logged == old(logged)
          invariant forall c: nat :: c < b + bi && c < size ==> Bit(bits, c)
        {
          assert (b + bi) / BPB == b / BPB && (b + bi) % BPB == bi;
          if !bits[b / BPB][bi] {
            bits := Marked(bits, b + bi, true);
            content := content[b + bi := Zero];
            logged := logged + {BitmapBlock(b / BPB), FileBlock(b + bi)};
            assert Bit(old(bits), 0);
            return b + bi;
          }
          bi := bi + 1;
        }
        b := b + BPB;
      }
      r := 0;
    }

    /**
     The idiom of bmap: read a slot, of the inode or of pointer block `up`, and fill it with a
     new block if it is empty. 0 stands for the panic.
     */
    method EnsureSlot(ino: nat, p: Pos, up: nat) returns (addr: nat)
      requires Inv(Now()) && ino < |inodes| && ValidPos(p) && (!IsTop(p) ==> up != 0 && up == Ptr(Now(), ino, Above(p)))
      modifies this`bits, this`content, this`inodes, this`owner, this`logged
      ensures Inv(Now()) && Grown(old(Now()), Now()) && old(logged) <= logged && |inodes| == |old(inodes)|
      ensures addr != 0 ==> addr == Ptr(Now(), ino, p)
      ensures addr == 0 ==> Now() == old(Now()) && Ptr(Now(), ino, p) == 0 && forall b: nat :: b < size ==> Bit(bits, b)
      ensures Ptr(old(Now()), ino, p) != 0 ==> Now() == old(Now()) && logged == old(logged)
      ensures LogsOnly(Now(), logged - old(logged), SlotAndUp(ino, p))
      ensures Allocs(old(Now()), Now(), logged)
    {
      hide Allocs;
      ghost var s, o := Now(), Own(ino, p);
      GrownRefl(s);
      AllocsRefl(s, logged);
      if !IsTop(p) { UpOwned(s, Own(ino, Above(p))); }
      addr := if IsTop(p) then inodes[ino].addrs[TopIndex(p)] else Words(content[up])[Index(p)];
      if addr == 0 {
        addr := Balloc();
        if addr != 0 {
          Install(s, ino, p, up, addr);
          FilledFacts(s, o, addr, logged - old(logged));
          FillAllocs(s, o, addr, logged);
        }
      }
    }

    /** A new block's number is stored in its slot. */
    method Install(ghost s: Store, ino: nat, p: Pos, up: nat, addr: nat)
      requires Inv(s) && Fillable(s, Own(ino, p)) && addr < s.size && !Bit(s.bits, addr) && Now() == Allocated(s, addr)
      requires !IsTop(p) ==> up == Ptr(s, ino, Above(p))
      modifies this`content, this`inodes, this`owner, this`logged
      ensures Now() == Filled(s, Own(ino, p), addr)
      ensures logged == old(logged) + if IsTop(p) then {} else {FileBlock(up)}
    {
      FillFacts(s, Own(ino, p), addr);
      hide Inv;
      if IsTop(p) {
        inodes := inodes[ino := inodes[ino].(addrs := inodes[ino].addrs[TopIndex(p) := addr])];
      } else {
        content := content[up := Ptrs(Words(content[up])[Index(p) := addr])];
        logged := logged + {FileBlock(up)};
      }
      owner := owner[addr := Own(ino, p)];
    }

    /** bmap: the block number of a file's bn-th block, allocated if need be, and nothing else read differently. */
    method Bmap(ino: nat, bn: nat) returns (addr: nat)
      requires Inv(Now()) && ino < |inodes| && bn < MAXFILE
      modifies this`bits, this`content, this`inodes, this`owner, this`logged
      ensures Inv(Now()) && Grown(old(Now()), Now()) && old(logged) <= logged
      ensures addr != 0 ==> addr == Ptr(Now(), ino, LeafPos(bn))
      ensures addr == 0 ==> forall b: nat :: b < size ==> Bit(bits, b)
      ensures Ptr(old(Now()), ino, LeafPos(bn)) != 0 ==> addr != 0 && Now() == old(Now()) && logged == old(logged)
      ensures LogsOnly(Now(), logged - old(logged), Path(ino, bn))
      ensures Allocs(old(Now()), Now(), logged)
    {
      hide Inv, Grown, LogsOnly, Allocs;
      ghost var s := Now();
      if bn < NDIRECT {
        addr := EnsureSlot(ino, Direct(bn), 0);
        return;
      }
      if bn - NDIRECT < NADDR {
        var up := EnsureSlot(ino, Ind, 0);
        ghost var s1, l1 := Now(), logged;
        if up == 0 { LogsWiden(s1, logged - old(logged), {Own(ino, Ind)}, Path(ino, bn)); return 0; }
        addr := EnsureSlot(ino, IndLeaf(bn - NDIRECT), up);
        GrownTrans(s, s1, Now());
        AllocsTrans(s, s1, Now(), l1, logged);
        LogsJoin(s1, Now(), l1 - old(logged), logged - l1, {Own(ino, Ind)}, Path(ino, bn), logged - old(logged));
        return;
      }
      var i, j := (bn - NDIRECT - NADDR) / NADDR, (bn - NDIRECT - NADDR) % NADDR;
      DoublePath(s, ino, i, j);
      var top := EnsureSlot(ino, Dbl, 0);
      ghost var s1, l1 := Now(), logged;
      if top == 0 { LogsWiden(s1, logged - old(logged), {Own(ino, Dbl)}, Path(ino, bn)); return 0; }
      var up := EnsureSlot(ino, DblMid(i), top);
      ghost var s2, l2 := Now(), logged;
      GrownTrans(s, s1, s2);
      AllocsTrans(s, s1, s2, l1, l2);
      assert SlotAndUp(ino, DblMid(i)) == {Own(ino, Dbl), Own(ino, DblMid(i))};
      LogsJoin(s1, s2, l1 - old(logged), l2 - l1, {Own(ino, Dbl)}, {Own(ino, Dbl), Own(ino, DblMid(i))},
          l2 - old(logged));
      if up == 0 { LogsWiden(s2, l2 - old(logged), {Own(ino, Dbl), Own(ino, DblMid(i))}, Path(ino, bn)); return 0; }
      addr := EnsureSlot(ino, DblLeaf(i, j), up);
      GrownTrans(s, s2, Now());
      AllocsTrans(s, s2, Now(), l2, logged);
      LogsWiden(Now(), logged - l2, SlotAndUp(ino, DblLeaf(i, j)), Path(ino, bn));
      LogsJoin(s2, Now(), l2 - old(logged), logged - l2, {Own(ino, Dbl), Own(ino, DblMid(i))}, Path(ino, bn),
          logged - old(logged));
    }

    /** bfree: the bit is cleared; it must have been set. */
    method Bfree(b: nat)
      requires BitmapOk(bits) && b / BPB < |bits| && Bit(bits, b)
      modifies this`bits, this`logged
      ensures bits == Marked(old(bits), b, false) && logged == old(logged) + {BitmapBlock(b / BPB)}
    {
      bits := Marked(bits, b, false);
      logged := logged + {BitmapBlock(b / BPB)};
    }

    /** `if (slot) bfree(slot)`, for the slot of the next rank. */
    method FreeSlot(ghost s: Store, ghost ino: nat, ghost p: Pos, b: nat)
      requires Inv(s) && ino < |s.inodes| && ValidPos(p) && b == Ptr(s, ino, p) && Freeing(s, ino, Rank(p), Now())
      modifies this`bits, this`logged
      ensures Freeing(s, ino, Rank(p) + 1, Now())
    {
      if b != 0 {
        StillMarked(s, ino, p, Now());
        ghost var before := Now();
        Bfree(b);
        FreeNext(s, ino, p, before, Now());
      } else {
        FreeNext(s, ino, p, Now(), Now());
      }
    }
  
    /** The loop of itrunc over one pointer block: the slots below it, then the block itself. */
    method FreeLeaves(ghost s: Store, ghost ino: nat, ghost p: Pos, up: nat)
      requires Inv(s) && ino < |s.inodes| && (p == Ind || (p.DblMid? && ValidPos(p))) && up == Ptr(s, ino, p)
      requires Freeing(s, ino, Rank(LeafUnder(p, 0)), Now())
      modifies this`bits, this`logged
      ensures Freeing(s, ino, Rank(p) + 1, Now())
    {
      if up == 0 {
        SkipLeaves(s, ino, p, Now());
        return;
      }
      UpOwned(s, Own(ino, p));
      var a := Words(content[up]);
      var j := 0;
      while j < NADDR
        invariant 0 <= j <= NADDR && content == s.content && Freeing(s, ino, Rank(LeafUnder(p, 0)) + j, Now())
      {
        FreeSlot(s, ino, LeafUnder(p, j), a[j]);
        j := j + 1;
      }
      FreeSlot(s, ino, p, up);
    }

    /**
     itrunc: every block reachable from the inode, at all three levels, is freed once; the file is
     empty and no other file is touched.
     */
    method Itrunc(ino: nat)
      requires Inv(Now()) && ino < |inodes|
      modifies this`bits, this`inodes, this`owner, this`logged
      ensures Inv(Now()) && inodes == old(inodes)[ino := Inode(seq(NDIRECT + 2, _ => 0), 0)] && content == old(content)
      ensures owner == map b | b in old(owner) && old(owner)[b].ino != ino :: old(owner)[b]
      ensures forall b: nat :: b < size ==>
                (Bit(bits, b) <==> Bit(old(bits), b) && !(b in old(owner) && old(owner)[b].ino == ino))
      ensures forall other: nat, off: nat :: other < |inodes| && other != ino && off < MAXFILE * BSIZE ==>
                FileByte(Now(), other, off) == FileByte(old(Now()), other, off)
    {
      hide Freeing;
      ghost var s := Now();
      FreeDirect(ino);
      FreeLeaves(s, ino, Ind, inodes[ino].addrs[NDIRECT]);
      inodes := inodes[ino := inodes[ino].(addrs := inodes[ino].addrs[NDIRECT := 0])];
      InodesDoNotMatter(s, ino, Rank(Ind) + 1, Now(), inodes);
      FreeDouble(s, ino, inodes[ino].addrs[NDIRECT + 1]);
      inodes := inodes[ino := Inode(inodes[ino].addrs[NDIRECT + 1 := 0], 0)];
      InodesDoNotMatter(s, ino, LASTRANK, Now(), inodes);
      assert inodes[ino].addrs == seq(NDIRECT + 2, _ => 0);
      logged := logged + {InodeBlock(ino / IPB)};
      ghost var now := Now();
      TruncInv(s, ino, now);
      TruncFacts(s, ino, now);
      owner := Truncated(s, ino, now).owner;
    }

    /** The loop of itrunc over the direct blocks. */
    method FreeDirect(ino: nat)
      requires Inv(Now()) && ino < |inodes|
      modifies this`bits, this`inodes, this`logged
      ensures Freeing(old(Now()), ino, NDIRECT, Now())
      ensures inodes == old(inodes)[ino := Cleared(old(inodes)[ino], NDIRECT)]
    {
      ghost var s := Now();
      FreeStart(s, ino);
      hide Inv, Freeing;
      var i := 0;
      while i < NDIRECT
        invariant 0 <= i <= NDIRECT && Freeing(s, ino, i, Now()) && inodes == s.inodes[ino := Cleared(s.inodes[ino], i)]
      {
        FreeSlot(s, ino, Direct(i), inodes[ino].addrs[i]);
        inodes := inodes[ino := inodes[ino].(addrs := inodes[ino].addrs[i := 0])];
        InodesDoNotMatter(s, ino, i + 1, Now(), inodes);
        assert inodes[ino].addrs == Cleared(s.inodes[ino], i + 1).addrs;
        i := i + 1;
      }
    }

    /** The double-indirect part of itrunc. */
    method FreeDouble(ghost s: Store, ghost ino: nat, top: nat)
      requires Inv(s) && ino < |s.inodes| && top == Ptr(s, ino, Dbl) && Freeing(s, ino, Rank(Ind) + 1, Now())
      modifies this`bits, this`logged
      ensures Freeing(s, ino, LASTRANK, Now())
    {
      if top == 0 {
        SkipDouble(s, ino, Now());
        return;
      }
      UpOwned(s, Own(ino, Dbl));
      var a := Words(content[top]);
      var i := 0;
      while i < NADDR
        invariant 0 <= i <= NADDR && content == s.content && Freeing(s, ino, Rank(Ind) + 1 + i * (NADDR + 1), Now())
      {
        FreeLeaves(s, ino, DblMid(i), a[i]);
        i := i + 1;
      }
      FreeSlot(s, ino, Dbl, top);
    }
  }

  /** The j-th data slot below a pointer block of data slots. */
  ghost function LeafUnder(p: Pos, j: nat): Pos
    requires p.Ind? || p.DblMid?
  {
    if p.Ind? then IndLeaf(j) else DblLeaf(p.i, j)
  }

  /** An inode with its first n addresses zeroed. */
  ghost function Cleared(ip: Inode, n: nat): Inode
    requires n <= |ip.addrs|
  {
    ip.(addrs := seq(n, _ => 0) + ip.addrs[n..])
  }

  lemma FreeStart(s: Store, ino: nat)
    requires Inv(s) && ino < |s.inodes|
    ensures |s.inodes[ino].addrs| == NDIRECT + 2 && Freeing(s, ino, 0, s)
    ensures Cleared(s.inodes[ino], 0) == s.inodes[ino]
  {
    assert Cleared(s.inodes[ino], 0).addrs == s.inodes[ino].addrs;
  }

  lemma InodesDoNotMatter(s: Store, ino: nat, k: nat, now: Store, inodes: seq<Inode>)
    ensures forall other :: Freeing(s, ino, k, now.(inodes := other)) ==> Freeing(s, ino, k, now.(inodes := inodes))
  {
  }

  lemma TruncFacts(s: Store, ino: nat, now: Store)
    requires Inv(s) && ino < |s.inodes| && Freeing(s, ino, LASTRANK, now)
    requires now.inodes == s.inodes[ino := Inode(seq(NDIRECT + 2, _ => 0), 0)]
    ensures InodesOk(Truncated(s, ino, now)) && now.content == s.content
    ensures forall b: nat :: b < s.size ==>
              (Bit(now.bits, b) <==> Bit(s.bits, b) && !(b in s.owner && s.owner[b].ino == ino))
    ensures forall other: nat, off: nat :: other < |s.inodes| && other != ino && off < MAXFILE * BSIZE ==>
              FileByte(Truncated(s, ino, now), other, off) == FileByte(s, other, off)
  {
    TruncBytes(s, ino, now, ino, 0);
    forall other: nat, off: nat | other < |s.inodes| && other != ino && off < MAXFILE * BSIZE
      ensures FileByte(Truncated(s, ino, now), other, off) == FileByte(s, other, off)
    {
      TruncBytes(s, ino, now, other, off);
    }
    forall b: nat | b < s.size
      ensures Bit(now.bits, b) <==> Bit(s.bits, b) && !(b in s.owner && s.owner[b].ino == ino)
    {
      assert OwnerOk(s, b);
      if b in s.owner { RankBound(s.owner[b].pos); }
    }
  }

  lemma SkipLeaves(s: Store, ino: nat, p: Pos, now: Store)
    requires Inv(s) && ino < |s.inodes| && (p == Ind || (p.DblMid? && ValidPos(p))) && Ptr(s, ino, p) == 0
    requires Freeing(s, ino, Rank(LeafUnder(p, 0)), now)
    ensures Freeing(s, ino, Rank(p) + 1, now)
  {
    forall q | ValidPos(q) && Rank(LeafUnder(p, 0)) <= Rank(q) < Rank(p) + 1 ensures Ptr(s, ino, q) == 0 {
      assert q == p || Above(q) == p;
    }
    FreeSkip(s, ino, Rank(LeafUnder(p, 0)), Rank(p) + 1, now);
  }

  lemma SkipDouble(s: Store, ino: nat, now: Store)
    requires Inv(s) && ino < |s.inodes| && Ptr(s, ino, Dbl) == 0 && Freeing(s, ino, Rank(Ind) + 1, now)
    ensures Freeing(s, ino, LASTRANK, now)
  {
    forall q | ValidPos(q) && Rank(Ind) + 1 <= Rank(q) < LASTRANK ensures Ptr(s, ino, q) == 0 {
      if q.DblLeaf? { assert Ptr(s, ino, DblMid(q.i)) == 0; }
    }
    FreeSkip(s, ino, Rank(Ind) + 1, LASTRANK, now);
  }

  lemma DoublePath(s: Store, ino: nat, i: nat, j: nat)
    requires Inv(s) && ino < |s.inodes| && i < NADDR && j < NADDR
    ensures InodesOk(s) && (Ptr(s, ino, DblLeaf(i, j)) != 0 ==> Ptr(s, ino, DblMid(i)) != 0 && Ptr(s, ino, Dbl) != 0)
  {
    assert Above(DblLeaf(i, j)) == DblMid(i) && Above(DblMid(i)) == Dbl;
  }

  lemma LogsWiden(s: Store, refs: set<LogRef>, slots: set<Own>, wide: set<Own>)
    requires LogsOnly(s, refs, slots) && slots <= wide
    ensures LogsOnly(s, refs, wide)
  {
  }

  /** What was logged before and after a step, taken together. */
  lemma LogsJoin(s: Store, s': Store, a: set<LogRef>, b: set<LogRef>, slots: set<Own>, wide: set<Own>,
                 refs: set<LogRef>)
    requires LogsOnly(s, a, slots) && LogsOnly(s', b, wide) && Grown(s, s') && slots <= wide && refs <= a + b
    ensures LogsOnly(s', refs, wide)
  {
    LogsGrow(s, s', a, slots);
  }

  ghost function SlotAndUp(ino: nat, p: Pos): set<Own> {
    if IsTop(p) then {Own(ino, p)} else {Own(ino, p), Own(ino, Above(p))}
  }

  /** What filling a slot logs. */
  ghost function FillRefs(s: Store, o: Own, b: nat): set<LogRef>
    requires InodesOk(s) && o.ino < |s.inodes| && ValidPos(o.pos)
  {
    {BitmapBlock(b / BPB), FileBlock(b)} + if IsTop(o.pos) then {} else {FileBlock(Ptr(s, o.ino, Above(o.pos)))}
  }

  lemma FillLogs(s: Store, o: Own, b: nat)
    requires Inv(s) && Fillable(s, o) && b < s.size && !Bit(s.bits, b)
    ensures LogsOnly(Filled(s, o, b), FillRefs(s, o, b), SlotAndUp(o.ino, o.pos))
  {
    var s' := Filled(s, o, b);
    FillInv(s, o, b);
    FillFacts(s, o, b);
    FillPtr(s, o, b, o);
    assert LogsSlot(s', FileBlock(b), o) && LogsSlot(s', BitmapBlock(b / BPB), o);
    if !IsTop(o.pos) {
      var y := Own(o.ino, Above(o.pos));
      FillPtr(s, o, b, y);
      assert LogsSlot(s', FileBlock(Ptr(s, y.ino, y.pos)), y);
    }
  }

  lemma FilledFacts(s: Store, o: Own, b: nat, refs: set<LogRef>)
    requires Inv(s) && Fillable(s, o) && b < s.size && !Bit(s.bits, b) && refs <= FillRefs(s, o, b)
    ensures var s' := Filled(s, o, b);
            Inv(s') && Grown(s, s') && Ptr(s', o.ino, o.pos) == b && LogsOnly(s', refs, SlotAndUp(o.ino, o.pos))
  {
    FillInv(s, o, b);
    FillGrown(s, o, b);
    FillPtr(s, o, b, o);
    LogsAre(s, o, b, refs);
  }

  lemma LogsAre(s: Store, o: Own, b: nat, refs: set<LogRef>)
    requires Inv(s) && Fillable(s, o) && b < s.size && !Bit(s.bits, b) && refs <= FillRefs(s, o, b)
    ensures LogsOnly(Filled(s, o, b), refs, SlotAndUp(o.ino, o.pos))
  {
    FillLogs(s, o, b);
  }
}
