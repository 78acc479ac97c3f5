/** How the steps of the block layer act on slots and on file bytes. */
module FsLemmas {
  import opened FsModel

  // ----- filling a slot -----

  /** `if (slot == 0) slot = balloc()`, taken. */
  ghost function Filled(s: Store, o: Own, b: nat): Store
    requires Inv(s) && Fillable(s, o) && b < s.size && !Bit(s.bits, b)
  {
    FillFacts(s, o, b);
    Installed(Allocated(s, b), o, b)
  }

  lemma FillFacts(s: Store, o: Own, b: nat)
    requires Inv(s) && Fillable(s, o) && b < s.size && !Bit(s.bits, b)
    ensures var a := Allocated(s, b);
            && Owned(a, {b}) && Fillable(a, o) && b !in s.owner && s.nmeta <= b
            && (!IsTop(o.pos) ==>
                  && Ptr(a, o.ino, Above(o.pos)) in a.content
                  && Ptr(a, o.ino, Above(o.pos)) == Ptr(s, o.ino, Above(o.pos)))
  {
    AllocKeeps(s, b);
    AllocPtr(s, b, o);
    if !IsTop(o.pos) {
      AllocPtr(s, b, Own(o.ino, Above(o.pos)));
      UpOwned(s, Own(o.ino, Above(o.pos)));
    }
  }

  lemma FillPtr(s: Store, o: Own, b: nat, x: Own)
    requires Inv(s) && Fillable(s, o) && b < s.size && !Bit(s.bits, b) && x.ino < |s.inodes| && ValidPos(x.pos)
    ensures InodesOk(Filled(s, o, b)) && |Filled(s, o, b).inodes| == |s.inodes|
    ensures Ptr(Filled(s, o, b), x.ino, x.pos) == if x == o then b else Ptr(s, x.ino, x.pos)
  {
    FillFacts(s, o, b);
    InstallPtr(Allocated(s, b), o, b, x);
    AllocPtr(s, b, x);
  }

  lemma FillInv(s: Store, o: Own, b: nat)
    requires Inv(s) && Fillable(s, o) && b < s.size && !Bit(s.bits, b)
    ensures Inv(Filled(s, o, b))
  {
    FillFacts(s, o, b);
    InstallKeeps(Allocated(s, b), o, b);
  }

  /** A new block holds zeros, so no file byte changes. */
  lemma FillBytes(s: Store, o: Own, b: nat, ino: nat, off: nat)
    requires Inv(s) && Fillable(s, o) && b < s.size && !Bit(s.bits, b) && ino < |s.inodes| && off < MAXFILE * BSIZE
    ensures InodesOk(Filled(s, o, b)) && FileByte(Filled(s, o, b), ino, off) == FileByte(s, ino, off)
  {
    var x := Own(ino, LeafPos(off / BSIZE));
    FillPtr(s, o, b, x);
    FillFacts(s, o, b);
    var p := Ptr(s, x.ino, x.pos);
    if p != 0 { UpOwned(s, x); }
    if !IsTop(o.pos) { UpOwned(s, Own(o.ino, Above(o.pos))); }
  }

  // ----- writing a data block -----

  ghost function Written(s: Store, b: nat, bytes: seq<int>): Store {
    s.(content := s.content[b := Data(bytes)])
  }

  lemma WritePtr(s: Store, b: nat, bytes: seq<int>, x: Own)
    requires Inv(s) && b in s.owner && !IsPointer(s.owner[b].pos) && x.ino < |s.inodes| && ValidPos(x.pos)
    ensures Ptr(Written(s, b, bytes), x.ino, x.pos) == Ptr(s, x.ino, x.pos)
  {
    forall q | ValidPos(q) && IsPointer(q) && Ptr(s, x.ino, q) != 0 ensures Ptr(s, x.ino, q) != b {
      assert SlotOk(s, Own(x.ino, q));
    }
    PtrSame(s, Written(s, b, bytes), x.ino, x.pos);
  }

  lemma WriteInv(s: Store, b: nat, bytes: seq<int>)
    requires Inv(s) && b in s.owner && !IsPointer(s.owner[b].pos)
    ensures Inv(Written(s, b, bytes))
  {
    var s' := Written(s, b, bytes);
    forall o: Own ensures SlotOk(s', o) {
      if o.ino < |s.inodes| && ValidPos(o.pos) { WritePtr(s, b, bytes, o); }
      assert SlotOk(s, o);
    }
    forall c: nat ensures OwnerOk(s', c) {
      assert OwnerOk(s, c);
      if c in s.owner { WritePtr(s, b, bytes, s.owner[c]); }
    }
  }

  /** Exactly the bytes of the block's own file position change. */
  lemma WriteBytes(s: Store, b: nat, bytes: seq<int>, ino: nat, off: nat)
    requires Inv(s) && b in s.owner && !IsPointer(s.owner[b].pos) && |bytes| == BSIZE && ino < |s.inodes|
    requires off < MAXFILE * BSIZE
    ensures FileByte(Written(s, b, bytes), ino, off) ==
            if s.owner[b] == Own(ino, LeafPos(off / BSIZE)) then bytes[off % BSIZE] else FileByte(s, ino, off)
  {
    var x := Own(ino, LeafPos(off / BSIZE));
    WritePtr(s, b, bytes, x);
    assert SlotOk(s, x) && OwnerOk(s, b);
    if Ptr(s, ino, x.pos) != 0 { UpOwned(s, x); }
  }

  // ----- freeing every block of an inode -----

  /** The order in which itrunc frees an inode's slots. */
  function Rank(p: Pos): nat {
    match p
    case Direct(i) => i
    case IndLeaf(j) => NDIRECT + j
    case Ind => NDIRECT + NADDR
    case DblLeaf(i, j) => NDIRECT + NADDR + 1 + i * (NADDR + 1) + j
    case DblMid(i) => NDIRECT + NADDR + 1 + i * (NADDR + 1) + NADDR
    case Dbl => NDIRECT + NADDR + 1 + NADDR * (NADDR + 1)
  }

  const LASTRANK: nat := 66061      // after Dbl

  lemma RankInjective(p: Pos, q: Pos)
    requires ValidPos(p) && ValidPos(q) && Rank(p) == Rank(q)
    ensures p == q
  {
  }

  lemma RankBound(p: Pos)
    requires ValidPos(p)
    ensures Rank(p) < LASTRANK
  {
  }

  /** Block b belongs to the inode at a slot itrunc has already dealt with. */
  ghost predicate Gone(s: Store, ino: nat, k: nat, b: nat) {
    b in s.owner && s.owner[b].ino == ino && Rank(s.owner[b].pos) < k
  }

  /** Midway through itrunc: the bits of the slots of rank below k are clear, and nothing else has changed but addrs. */
  ghost predicate Freeing(s: Store, ino: nat, k: nat, now: Store) {
    && BitmapOk(now.bits) && |now.bits| == |s.bits| && now.content == s.content
    && now.nmeta == s.nmeta && now.size == s.size && now.owner == s.owner
    && forall b: nat :: b < s.size ==> (Bit(now.bits, b) <==> Bit(s.bits, b) && !Gone(s, ino, k, b))
  }

  /** The block in the slot of rank k still has its bit: "freeing free block" cannot happen. */
  lemma StillMarked(s: Store, ino: nat, p: Pos, now: Store)
    requires Inv(s) && ino < |s.inodes| && ValidPos(p) && Freeing(s, ino, Rank(p), now) && Ptr(s, ino, p) != 0
    ensures var b := Ptr(s, ino, p); b < s.size && Bit(now.bits, b)
  {
    var b := Ptr(s, ino, p);
    assert SlotOk(s, Own(ino, p)) && OwnerOk(s, b);
  }

  lemma FreeNext(s: Store, ino: nat, p: Pos, now: Store, now': Store)
    requires Inv(s) && ino < |s.inodes| && ValidPos(p) && Freeing(s, ino, Rank(p), now)
    requires var b := Ptr(s, ino, p);
             if b == 0 then now' == now
             else b / BPB < |now.bits| && now'.(inodes := now.inodes) == now.(bits := Marked(now.bits, b, false))
    ensures Freeing(s, ino, Rank(p) + 1, now')
  {
    var b := Ptr(s, ino, p);
    assert SlotOk(s, Own(ino, p));
    forall c: nat | c < s.size ensures Bit(now'.bits, c) <==> Bit(s.bits, c) && !Gone(s, ino, Rank(p) + 1, c) {
      assert OwnerOk(s, c);
      if b != 0 { BitUpdated(now.bits, b, false, c); }
      if c in s.owner && Rank(s.owner[c].pos) == Rank(p) { RankInjective(s.owner[c].pos, p); }
    }
    if b != 0 { BitUpdated(now.bits, b, false, b); }
  }

  /** Without a pointer block there is nothing below it to free. */
  lemma FreeSkip(s: Store, ino: nat, k: nat, k': nat, now: Store)
    requires Inv(s) && ino < |s.inodes| && Freeing(s, ino, k, now) && k <= k'
    requires forall p :: ValidPos(p) && k <= Rank(p) < k' ==> Ptr(s, ino, p) == 0
    ensures Freeing(s, ino, k', now)
  {
    forall c: nat | c < s.size ensures Bit(now.bits, c) <==> Bit(s.bits, c) && !Gone(s, ino, k', c) {
      assert OwnerOk(s, c);
    }
  }

  /** The inode emptied, its blocks owned by no one. */
  ghost function Truncated(s: Store, ino: nat, now: Store): Store {
    now.(owner := map b | b in s.owner && s.owner[b].ino != ino :: s.owner[b])
  }

  lemma TruncPtr(s: Store, ino: nat, now: Store, x: Own)
    requires Inv(s) && ino < |s.inodes| && Freeing(s, ino, LASTRANK, now) && x.ino < |s.inodes| && ValidPos(x.pos)
    requires now.inodes == s.inodes[ino := Inode(seq(NDIRECT + 2, _ => 0), 0)]
    ensures Ptr(Truncated(s, ino, now), x.ino, x.pos) == if x.ino == ino then 0 else Ptr(s, x.ino, x.pos)
    decreases if IsTop(x.pos) then 0 else if x.pos.DblLeaf? then 2 else 1
  {
    if !IsTop(x.pos) { TruncPtr(s, ino, now, Own(x.ino, Above(x.pos))); }
  }

  lemma TruncInv(s: Store, ino: nat, now: Store)
    requires Inv(s) && ino < |s.inodes| && Freeing(s, ino, LASTRANK, now)
    requires now.inodes == s.inodes[ino := Inode(seq(NDIRECT + 2, _ => 0), 0)]
    ensures Inv(Truncated(s, ino, now))
  {
    var s' := Truncated(s, ino, now);
    assert InodesOk(s');
    forall o: Own ensures SlotOk(s', o) {
      assert SlotOk(s, o);
      if o.ino < |s.inodes| && ValidPos(o.pos) { TruncPtr(s, ino, now, o); }
    }
    forall b: nat ensures OwnerOk(s', b) {
      assert OwnerOk(s, b);
      if b in s'.owner { TruncPtr(s, ino, now, s'.owner[b]); }
    }
    forall b: nat | b < s.size ensures Bit(s'.bits, b) <==> b < s.nmeta || b in s'.owner {
      assert OwnerOk(s, b);
      if b in s.owner { RankBound(s.owner[b].pos); }
    }
  }

  lemma TruncBytes(s: Store, ino: nat, now: Store, other: nat, off: nat)
    requires Inv(s) && ino < |s.inodes| && Freeing(s, ino, LASTRANK, now) && other < |s.inodes| && off < MAXFILE * BSIZE
    requires now.inodes == s.inodes[ino := Inode(seq(NDIRECT + 2, _ => 0), 0)]
    ensures InodesOk(Truncated(s, ino, now))
    ensures FileByte(Truncated(s, ino, now), other, off) == if other == ino then 0 else FileByte(s, other, off)
  {
    TruncPtr(s, ino, now, Own(other, LeafPos(off / BSIZE)));
  }
}
