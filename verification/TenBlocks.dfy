/**
 A chunk of filewrite that logs ten blocks, one more than the budget that never overflows the
 log: an unaligned write across the border between single- and double-indirect blocks, when
 the free blocks in front of it straddle two bitmap blocks.
 */
module TenBlocks {
  import opened FsModel
  import opened Wrappers
  import opened FsLemmas
  import opened Fs
  import opened FileIo

  const FIRST: nat := 7923                // the file's blocks, in order, up to LAST
  const LAST: nat := 8190                 // the first free block, two below the next bitmap block
  const BORDER: nat := 265                // the file's last block, and the last but one single-indirect
  const OFF: nat := 265 * BSIZE + 1

  /** Which slot the file's k-th block on disk is in: eleven direct ones, the pointer block, and 255 below it. */
  function SlotOf(k: nat): Pos {
    if k < NDIRECT then Direct(k) else if k == NDIRECT then Ind else IndLeaf(k - NDIRECT - 1)
  }

  function Inodes(): seq<Inode> {
    [Inode(seq(NDIRECT, i => FIRST + i) + [FIRST + NDIRECT, 0], 266 * BSIZE)]
  }

  function Pointers(): seq<nat> {
    seq(NADDR, j => if j == NADDR - 1 then 0 else FIRST + NDIRECT + 1 + j)
  }

  function Cell(b: nat): Block { if b == FIRST + NDIRECT then Ptrs(Pointers()) else Zero }

  function Contents(): map<nat, Block> { map b: nat | FIRST <= b < LAST :: Cell(b) }

  function Bits(): Bitmap {
    seq(2, i => seq(BPB, k => i * BPB + k < LAST))
  }

  function Owner(b: nat): Own { Own(0, if b >= FIRST then SlotOf(b - FIRST) else Ind) }

  ghost function Owners(): map<nat, Own> { map b: nat | FIRST <= b < LAST :: Owner(b) }

  /** A disk of two bitmap blocks' worth, with one file of 266 blocks. */
  ghost function Border(): Store { Store(FIRST, 2 * BPB, Bits(), Contents(), Inodes(), Owners()) }

  lemma BorderPtr(p: Pos)
    requires ValidPos(p)
    ensures InodesOk(Border())
    ensures Ptr(Border(), 0, p) ==
            match p
            case Direct(i) => FIRST + i
            case Ind => FIRST + NDIRECT
            case IndLeaf(j) => if j == NADDR - 1 then 0 else FIRST + NDIRECT + 1 + j
            case _ => 0
  {
    var s := Border();
    var addrs := s.inodes[0].addrs;
    assert |addrs| == NDIRECT + 2 && addrs[NDIRECT] == FIRST + NDIRECT && addrs[NDIRECT + 1] == 0;
    assert Ptr(s, 0, Ind) == FIRST + NDIRECT && Ptr(s, 0, Dbl) == 0;
    assert FIRST + NDIRECT in s.content && Words(s.content[FIRST + NDIRECT]) == Pointers();
    if p.DblLeaf? { assert Ptr(s, 0, DblMid(p.i)) == 0; }
  }

  lemma BorderBit(b: nat)
    requires b < 2 * BPB
    ensures Bit(Bits(), b) <==> b < LAST
  {
    assert b == b / BPB * BPB + b % BPB;
  }

  lemma BorderInv()
    ensures Inv(Border())
  {
    var s := Border();
    forall o: Own ensures SlotOk(s, o) {
      if o.ino < |s.inodes| && ValidPos(o.pos) { BorderPtr(o.pos); }
    }
    forall b: nat ensures OwnerOk(s, b) {
      if b in s.owner { BorderPtr(SlotOf(b - FIRST)); }
    }
    forall b: nat | b < s.size ensures Bit(s.bits, b) <==> b < s.nmeta || b in s.owner || b in {} { BorderBit(b); }
  }

  /** A block taken since s0 is in a slot filled since, and so logged with its bitmap block. */
  lemma NewlySet(s0: Store, s: Store, refs: set<LogRef>, b: nat)
    requires Inv(s0) && Inv(s) && Allocs(s0, s, refs) && s.nmeta == s0.nmeta
    requires b < s.size && !Bit(s0.bits, b) && Bit(s.bits, b)
    ensures FileBlock(b) in refs && BitmapBlock(b / BPB) in refs
  {
    assert b in s.owner;
    var o := s.owner[b];
    assert OwnerOk(s, b) && FillLogged(s0, s, refs, o) && SlotOk(s0, o);
  }

  /** A slot's block stays its block. */
  lemma StillOwned(s0: Store, s: Store, refs: set<LogRef>, b: nat)
    requires Inv(s0) && Inv(s) && Allocs(s0, s, refs)
    ensures InodesOk(s0) && (b in s0.owner ==> b in s.owner && s.owner[b] == s0.owner[b] && OwnerOk(s0, b))
  {
    if b in s0.owner {
      var x := s0.owner[b];
      assert OwnerOk(s0, b) && FillLogged(s0, s, refs, x) && SlotOk(s, x);
    }
  }

  /** A slot filled since s0 holds a block that was free then. */
  lemma WasFree(s0: Store, s: Store, refs: set<LogRef>, o: Own)
    requires Inv(s0) && Inv(s) && Allocs(s0, s, refs) && s.nmeta == s0.nmeta
    requires o.ino < |s.inodes| && ValidPos(o.pos) && Ptr(s0, o.ino, o.pos) == 0 && Ptr(s, o.ino, o.pos) != 0
    ensures var b := Ptr(s, o.ino, o.pos); b < s.size && !Bit(s0.bits, b) && FillRefs(s, o, b) <= refs
  {
    var b := Ptr(s, o.ino, o.pos);
    UpOwned(s, o);
    assert OwnerOk(s, b) && FillLogged(s0, s, refs, o);
    StillOwned(s0, s, refs, b);
  }

  /** Nine free blocks are enough for a chunk. */
  lemma NotFull(s: Store, refs: set<LogRef>)
    requires Inv(s) && Allocs(Border(), s, refs) && s.nmeta == FIRST && |NonBitmap(refs)| <= 8
    ensures exists b: nat :: b < s.size && !Bit(s.bits, b)
  {
    BorderInv();
    if forall b: nat :: b < s.size ==> Bit(s.bits, b) {
      var nine := set b: nat | LAST <= b < LAST + 9 :: FileBlock(b);
      forall b: nat | LAST <= b < LAST + 9 ensures FileBlock(b) in NonBitmap(refs) {
        BorderBit(b);
        NewlySet(Border(), s, refs, b);
      }
      NineOf();
      Subset(nine, NonBitmap(refs));
    }
  }

  lemma NineOf()
    ensures |set b: nat | LAST <= b < LAST + 9 :: FileBlock(b)| == 9
  {
    var nine := set b: nat | LAST <= b < LAST + 9 :: FileBlock(b);
    assert nine == {FileBlock(8190), FileBlock(8191), FileBlock(8192), FileBlock(8193), FileBlock(8194),
                    FileBlock(8195), FileBlock(8196), FileBlock(8197), FileBlock(8198)};
  }

  lemma Sides()
    ensures LeafPos(265) == IndLeaf(254) && LeafPos(266) == IndLeaf(255)
    ensures LeafPos(267) == DblLeaf(0, 0) && LeafPos(268) == DblLeaf(0, 1)
    ensures Reached(OFF, MAXCHUNK) == 269 && OFF / BSIZE == 265
  {
  }

  /** The five slots that the chunk must fill. */
  ghost function News(k: nat): Pos { [IndLeaf(255), Dbl, DblMid(0), DblLeaf(0, 0), DblLeaf(0, 1)][k % 5] }

  lemma Filled5(s: Store, refs: set<LogRef>, k: nat)
    requires Inv(s) && Covering(Border(), s, refs, 0, OFF, MAXCHUNK) && s.nmeta == FIRST && k < 5
    ensures InodesOk(s) && Ptr(s, 0, News(k)) != 0
    ensures var b := Ptr(s, 0, News(k)); LAST <= b < s.size && FillRefs(s, Own(0, News(k)), b) <= refs
  {
    hide Inv;
    Sides();
    BorderInv();
    assert DataLogged(s, refs, 0, 266) && DataLogged(s, refs, 0, 267) && DataLogged(s, refs, 0, 268);
    assert Above(DblLeaf(0, 0)) == DblMid(0) && Above(DblMid(0)) == Dbl;
    BorderPtr(News(k));
    WasFree(Border(), s, refs, Own(0, News(k)));
    BorderBit(Ptr(s, 0, News(k)));
  }

  /** Different slots hold different blocks. */
  lemma Apart(s: Store, p: Pos, q: Pos)
    requires Inv(s) && 0 < |s.inodes| && ValidPos(p) && ValidPos(q) && p != q && Ptr(s, 0, p) != 0
    ensures InodesOk(s) && Ptr(s, 0, p) != Ptr(s, 0, q)
  {
    assert SlotOk(s, Own(0, p)) && SlotOk(s, Own(0, q));
  }

  /** The slots the chunk goes through. */
  ghost function Seven(): seq<Pos> { [IndLeaf(254), IndLeaf(255), DblLeaf(0, 0), DblLeaf(0, 1), Ind, Dbl, DblMid(0)] }

  lemma SevenLogged(s: Store, refs: set<LogRef>, k: nat)
    requires Inv(s) && Covering(Border(), s, refs, 0, OFF, MAXCHUNK) && s.nmeta == FIRST && k < 7
    ensures InodesOk(s) && 0 < |s.inodes|
    ensures Ptr(s, 0, Seven()[k]) != 0 && FileBlock(Ptr(s, 0, Seven()[k])) in refs
  {
    hide Inv, Allocs;
    Sides();
    Filled5(s, refs, 0);
    Filled5(s, refs, 1);
    Filled5(s, refs, 2);
    assert DataLogged(s, refs, 0, 265) && DataLogged(s, refs, 0, 266);
    assert DataLogged(s, refs, 0, 267) && DataLogged(s, refs, 0, 268);
    assert Above(IndLeaf(255)) == Ind;
  }

  lemma {:induction false} DistinctRefs(s: Store, n: nat) returns (files: set<LogRef>)
    requires Inv(s) && 0 < |s.inodes| && n <= 7 && forall k :: 0 <= k < n ==> Ptr(s, 0, Seven()[k]) != 0
    ensures InodesOk(s) && |files| == n
    ensures forall r :: r in files <==> exists k :: 0 <= k < n && r == FileBlock(Ptr(s, 0, Seven()[k]))
  {
    hide Inv;
    Plain(s);
    if n == 0 {
      files := {};
    } else {
      var rest := DistinctRefs(s, n - 1);
      var last := FileBlock(Ptr(s, 0, Seven()[n - 1]));
      forall k | 0 <= k < n - 1 ensures FileBlock(Ptr(s, 0, Seven()[k])) != last {
        Apart(s, Seven()[k], Seven()[n - 1]);
      }
      files := rest + {last};
    }
  }

  /** The free blocks before and behind the end of the first bitmap block are both used. */
  lemma TwoBitmaps(s: Store, refs: set<LogRef>)
    requires Inv(s) && Covering(Border(), s, refs, 0, OFF, MAXCHUNK) && s.nmeta == FIRST
    ensures BitmapBlock(0) in refs && BitmapBlock(1) in refs
  {
    Filled5(s, refs, 0);
    Filled5(s, refs, 1);
    Filled5(s, refs, 2);
    Apart(s, News(0), News(1));
    Apart(s, News(1), News(2));
    Apart(s, News(0), News(2));
    BorderInv();
    BorderBit(LAST);
    var b := Ptr(s, 0, News(0));
    BorderBit(b);
    assert Bit(s.bits, b) by { UpOwned(s, Own(0, News(0))); assert OwnerOk(s, b); }
    assert LowFirst(Border(), s, b, LAST);
    hide Inv, Allocs, Bit;
    NewlySet(Border(), s, refs, LAST);
  }

  lemma TenRefs(s: Store, refs: set<LogRef>)
    requires Inv(s) && Covering(Border(), s, refs, 0, OFF, MAXCHUNK) && s.nmeta == FIRST && InodeBlock(0) in refs
    ensures |refs| >= 10
  {
    hide Inv, Covering;
    SevenLogged(s, refs, 0);
    forall k | 0 <= k < 7
      ensures Ptr(s, 0, Seven()[k]) != 0 && FileBlock(Ptr(s, 0, Seven()[k])) in refs
    {
      SevenLogged(s, refs, k);
    }
    TwoBitmaps(s, refs);
    var files := DistinctRefs(s, 7);
    var rest := {InodeBlock(0), BitmapBlock(0), BitmapBlock(1)};
    assert |rest| == 3 && files !! rest;
    assert |files + rest| == 10;
    Subset(files + rest, refs);
  }

  /** There are only two bitmap blocks. */
  lemma AtMostTwo(s: Store, refs: set<LogRef>)
    requires Inv(s) && s.size == 2 * BPB && WriteLogs(s, refs, 0, OFF, MAXCHUNK)
    ensures |Bitmaps(refs)| <= 2
  {
    hide Paths;
    forall r | r in Bitmaps(refs) ensures r in {BitmapBlock(0), BitmapBlock(1)} {
      assert r in refs - {InodeBlock(0)};
      var slots := Paths(0, OFF / BSIZE, (OFF + MAXCHUNK + BSIZE - 1) / BSIZE);
      var o :| o in slots && LogsSlot(s, r, o);
      UpOwned(s, o);
      assert OwnerOk(s, Ptr(s, o.ino, o.pos));
    }
    Subset(Bitmaps(refs), {BitmapBlock(0), BitmapBlock(1)});
  }

  /** Three blocks' worth of bytes written at that place log exactly ten blocks. */
  method TenBlockChunk(src: seq<int>) returns (fs: Fs, r: IoResult)
    requires |src| == MAXCHUNK
    ensures r == Done(MAXCHUNK) && |fs.logged| == MAXOPBLOCKS && Inv(fs.Now())
  {
    hide Inv, Covering, WriteLogs, NonBitmap, Bitmaps, Bit, Border, WroteTo, Overlaid;
    BorderInv();
    BorderIs();
    fs := new Fs(FIRST, 2 * BPB, Bits(), Contents(), Inodes(), Owners());
    ghost var tot;
    r, tot := Writei(fs, 0, OFF, src, MAXCHUNK);
    assert fs.logged - {} == fs.logged;
    ChunkLogBound(fs.Now(), fs.logged, 0, OFF, MAXCHUNK);
    CoverAllocs(Border(), fs.Now(), fs.logged, 0, OFF, tot);
    NotFull(fs.Now(), fs.logged);
    AtMostTwo(fs.Now(), fs.logged);
    TenRefs(fs.Now(), fs.logged);
  }

  lemma BorderIs()
    ensures Border() == Store(FIRST, 2 * BPB, Bits(), Contents(), Inodes(), Owners())
  {
  }
}
