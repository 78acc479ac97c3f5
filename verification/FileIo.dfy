/** readi, writei and the chunked filewrite: files as byte sequences. */
module FileIo {
  import opened FsModel
  import opened Wrappers
  import opened FsLemmas
  import opened Fs

  const MAXOPBLOCKS: nat := 10
  const MAXCHUNK: nat := (MAXOPBLOCKS - 1 - 1 - 2) / 2 * BSIZE    // the most filewrite writes at a time

  /** Every block below the file's size is mapped. */
  ghost predicate NoHoles(s: Store, ino: nat)
    requires InodesOk(s) && ino < |s.inodes|
  {
    Mapped(s, ino, s.inodes[ino].size)
  }

  ghost predicate Mapped(s: Store, ino: nat, len: nat)
    requires InodesOk(s) && ino < |s.inodes|
  {
    forall bn: nat :: bn < MAXFILE && bn * BSIZE < len ==> Ptr(s, ino, LeafPos(bn)) != 0
  }

  /** How many bytes readi is asked for: none past the end or when off + n wraps around. */
  function ReadLength(size: nat, off: nat, n: nat): (r: nat)
    ensures off <= size && off + n < UINTMOD ==> r <= n && off + r <= size && (r == n || off + r == size)
    ensures off > size || off + n >= UINTMOD ==> r == 0
  {
    if off > size || off + n >= UINTMOD then 0 else if off + n > size then size - off else n
  }

  /** The bytes of a file from an offset on. */
  ghost predicate Reads(s: Store, ino: nat, off: nat, dst: seq<int>)
    requires InodesOk(s) && ino < |s.inodes|
  {
    off + |dst| <= MAXFILE * BSIZE && forall i :: 0 <= i < |dst| ==> dst[i] == FileByte(s, ino, off + i)
  }

  lemma ChunkByte(s: Store, ino: nat, off: nat, i: nat, addr: nat)
    requires Inv(s) && ino < |s.inodes| && off + i < MAXFILE * BSIZE && off % BSIZE + i < BSIZE
    requires addr != 0 && addr == Ptr(s, ino, LeafPos(off / BSIZE)) && addr in s.content
    ensures FileByte(s, ino, off + i) == Bytes(s.content[addr])[off % BSIZE + i]
  {
    assert (off + i) / BSIZE == off / BSIZE && (off + i) % BSIZE == off % BSIZE + i;
  }

  /** One turn of readi's loop: the next bytes of one block, which read as they did in s0. */
  lemma ReadMore(s0: Store, s: Store, ino: nat, off: nat, dst: seq<int>, m: nat, addr: nat)
    requires Inv(s) && Grown(s0, s) && ino < |s.inodes| && Reads(s0, ino, off, dst)
    requires off + |dst| + m <= MAXFILE * BSIZE && (off + |dst|) % BSIZE + m <= BSIZE
    requires off + |dst| < MAXFILE * BSIZE
    requires addr != 0 && addr == Ptr(s, ino, LeafPos((off + |dst|) / BSIZE))
    ensures addr in s.content
    ensures var o := (off + |dst|) % BSIZE; Reads(s0, ino, off, dst + Bytes(s.content[addr])[o..o + m])
  {
    UpOwned(s, Own(ino, LeafPos((off + |dst|) / BSIZE)));
    var o := (off + |dst|) % BSIZE;
    var all := dst + Bytes(s.content[addr])[o..o + m];
    forall i | 0 <= i < |all| ensures all[i] == FileByte(s0, ino, off + i) {
      if i >= |dst| {
        ChunkByte(s, ino, off + |dst|, i - |dst|, addr);
        assert SameByte(s0, s, ino, off + i);
      }
    }
  }

  /**
   readi, where the destination can take `room` bytes: dst is what reaches it, the file's bytes
   from off on, and tot is what readi reports, whole chunks only. Nothing is read differently
   afterwards, and a file without holes is read without allocating or logging anything, as far
   as was asked for and available. It stops early at balloc's panic.
   */
  method Readi(fs: Fs, ino: nat, off: nat, n: nat, room: nat) returns (tot: nat, dst: seq<int>)
    requires Inv(fs.Now()) && ino < |fs.inodes| && off < UINTMOD && n < UINTMOD
    requires fs.inodes[ino].size <= MAXFILE * BSIZE
    modifies fs
    ensures Inv(fs.Now()) && Grown(old(fs.Now()), fs.Now())
    ensures tot <= |dst| <= ReadLength(old(fs.inodes)[ino].size, off, n) && |dst| <= room
    ensures dst != [] ==> Reads(old(fs.Now()), ino, off, dst)
    ensures tot < |dst| ==> |dst| == room && |dst| - tot < BSIZE
    ensures NoHoles(old(fs.Now()), ino) ==>
              var asked := ReadLength(old(fs.inodes)[ino].size, off, n);
              && fs.Now() == old(fs.Now()) && fs.logged == old(fs.logged)
              && (if asked <= room then tot == |dst| == asked else |dst| == room)
  {
    hide Inv, Grown, Reads, NoHoles;
    ghost var s := fs.Now();
    Plain(s);
    var size := fs.inodes[ino].size;
    tot, dst := 0, [];
    ReadsNone(s, ino, off);
    if off > size || (off + n) % UINTMOD < off { return; }
    var left := if off + n > size then size - off else n;
    while tot < left
      invariant Inv(fs.Now()) && Grown(s, fs.Now()) && |fs.inodes| == |s.inodes|
      invariant tot == |dst| <= left && |dst| <= room && Reads(s, ino, off, dst)
      invariant NoHoles(s, ino) ==> fs.Now() == s && fs.logged == old(fs.logged)
      decreases left - tot
    {
      var more, whole := ReadChunk(fs, ino, off, dst, left, room, s);
      dst := dst + more;
      if !whole { return; }
      tot := |dst|;
    }
  }

  /** One turn of readi's loop: what reaches the destination, and whether that was the whole chunk. */
  method ReadChunk(fs: Fs, ino: nat, off: nat, dst: seq<int>, left: nat, room: nat, ghost s: Store)
    returns (more: seq<int>, whole: bool)
    requires Inv(fs.Now()) && Grown(s, fs.Now()) && |fs.inodes| == |s.inodes| && InodesOk(s) && ino < |s.inodes|
    requires |dst| < left && |dst| <= room && off + left <= s.inodes[ino].size <= MAXFILE * BSIZE
    requires Reads(s, ino, off, dst)
    modifies fs
    ensures Inv(fs.Now()) && Grown(s, fs.Now()) && |fs.inodes| == |s.inodes|
    ensures Reads(s, ino, off, dst + more) && |dst| + |more| <= left && |dst| + |more| <= room && (whole ==> more != [])
    ensures more != [] && !whole ==> |dst| + |more| == room && |more| < BSIZE
    ensures NoHoles(s, ino) && old(fs.Now()) == s ==>
              fs.Now() == s && fs.logged == old(fs.logged) && (!whole ==> |dst| + |more| == room < left)
  {
    hide Inv, Grown, FileByte, Reads, NoHoles;
    var pos := off + |dst|;
    ghost var before := fs.Now();
    Lengths(s, before);
    var addr := fs.Bmap(ino, pos / BSIZE);
    GrownTrans(s, before, fs.Now());
    Lengths(s, fs.Now());
    MappedAt(s, ino, pos);
    assert dst + [] == dst;
    if addr == 0 { return [], false; }
    var m := if left - |dst| < BSIZE - pos % BSIZE then left - |dst| else BSIZE - pos % BSIZE;
    var fit := if |dst| + m > room then room - |dst| else m;
    ReadMore(s, fs.Now(), ino, off, dst, fit, addr);
    more := Bytes(fs.content[addr])[pos % BSIZE..pos % BSIZE + fit];
    whole := fit == m;
  }

  lemma ReadsNone(s: Store, ino: nat, off: nat)
    requires InodesOk(s) && ino < |s.inodes|
    ensures off <= MAXFILE * BSIZE ==> Reads(s, ino, off, [])
  {
  }

  lemma MappedAt(s: Store, ino: nat, pos: nat)
    requires InodesOk(s) && ino < |s.inodes| && pos < s.inodes[ino].size <= MAXFILE * BSIZE
    ensures NoHoles(s, ino) ==> Ptr(s, ino, LeafPos(pos / BSIZE)) != 0
  {
  }

  lemma Plain(s: Store)
    requires Inv(s)
    ensures InodesOk(s) && Grown(s, s)
  {
    GrownRefl(s);
  }

  lemma Lengths(s: Store, s': Store)
    requires Grown(s, s')
    ensures |s'.inodes| == |s.inodes| && InodesOk(s')
  {
  }

  // ----- writing -----

  /** s' is s with src over the file's bytes from off. */
  ghost predicate Overlaid(s: Store, s': Store, ino: nat, off: nat, src: seq<int>) {
    && InodesOk(s) && InodesOk(s') && |s'.inodes| == |s.inodes|
    && forall i: nat, o: nat :: OverlaidAt(s, s', ino, off, src, i, o)
  }

  ghost predicate OverlaidAt(s: Store, s': Store, ino: nat, off: nat, src: seq<int>, i: nat, o: nat)
    requires InodesOk(s) && InodesOk(s') && |s'.inodes| == |s.inodes|
  {
    i < |s.inodes| && o < MAXFILE * BSIZE ==>
      FileByte(s', i, o) == if i == ino && off <= o < off + |src| then src[o - off] else FileByte(s, i, o)
  }

  /** A write in progress: the first |done| bytes are in place, no slot was emptied or moved. */
  ghost predicate Progress(s0: Store, s: Store, ino: nat, off: nat, done: seq<int>) {
    && Overlaid(s0, s, ino, off, done) && ino < |s0.inodes| && s.size == s0.size && s.nmeta == s0.nmeta
    && (forall o: Own :: KeepsSlot(s0, s, o))
    && (forall i :: 0 <= i < |s0.inodes| ==> s.inodes[i].size == s0.inodes[i].size)
    && (NoHoles(s0, ino) && off <= s0.inodes[ino].size ==> Mapped(s, ino, off + |done|))
  }

  lemma ProgressStart(s: Store, ino: nat, off: nat)
    requires InodesOk(s) && ino < |s.inodes|
    ensures Progress(s, s, ino, off, [])
  {
    assert forall i: nat, o: nat :: OverlaidAt(s, s, ino, off, [], i, o);
  }

  lemma ProgressGrown(s0: Store, s: Store, s': Store, ino: nat, off: nat, done: seq<int>)
    requires Progress(s0, s, ino, off, done) && Grown(s, s')
    ensures Progress(s0, s', ino, off, done)
  {
    forall i: nat, o: nat ensures OverlaidAt(s0, s', ino, off, done, i, o) {
      assert OverlaidAt(s0, s, ino, off, done, i, o) && SameByte(s, s', i, o);
    }
    forall o: Own ensures KeepsSlot(s0, s', o) { assert KeepsSlot(s0, s, o) && KeepsSlot(s, s', o); }
    if NoHoles(s0, ino) && off <= s0.inodes[ino].size { MappedKept(s, s', ino, off + |done|); }
  }

  lemma MappedKept(s: Store, s': Store, ino: nat, len: nat)
    requires InodesOk(s) && InodesOk(s') && |s'.inodes| == |s.inodes| && ino < |s.inodes|
    requires Mapped(s, ino, len) && forall o: Own :: KeepsSlot(s, s', o)
    ensures Mapped(s', ino, len)
  {
    forall bn: nat | bn < MAXFILE && bn * BSIZE < len ensures Ptr(s', ino, LeafPos(bn)) != 0 {
      assert KeepsSlot(s, s', Own(ino, LeafPos(bn)));
    }
  }

  ghost function Patched(b: Block, o: nat, chunk: seq<int>): (r: seq<int>)
    requires o + |chunk| <= BSIZE
    ensures |r| == BSIZE
  {
    Bytes(b)[..o] + chunk + Bytes(b)[o + |chunk|..]
  }

  /** One turn of writei's loop: a chunk copied into the block its offset lies in. */
  lemma ProgressChunk(s0: Store, s: Store, ino: nat, off: nat, done: seq<int>, addr: nat, chunk: seq<int>)
    requires Inv(s) && Progress(s0, s, ino, off, done)
    requires off + |done| + |chunk| <= MAXFILE * BSIZE && (off + |done|) % BSIZE + |chunk| <= BSIZE && 0 < |chunk|
    requires addr != 0 && addr == Ptr(s, ino, LeafPos((off + |done|) / BSIZE))
    ensures addr in s.content
    ensures var s' := Written(s, addr, Patched(s.content[addr], (off + |done|) % BSIZE, chunk));
            Inv(s') && Progress(s0, s', ino, off, done + chunk) && (forall o: Own :: KeepsSlot(s, s', o))
  {
    hide Owned;
    var pos := off + |done|;
    var x := Own(ino, LeafPos(pos / BSIZE));
    OwnerFacts(s, x);
    var bytes := Patched(s.content[addr], pos % BSIZE, chunk);
    var s' := Written(s, addr, bytes);
    WriteInv(s, addr, bytes);
    forall o: Own ensures KeepsSlot(s, s', o) && KeepsSlot(s0, s', o) {
      assert KeepsSlot(s0, s, o);
      if o.ino < |s.inodes| && ValidPos(o.pos) { WritePtr(s, addr, bytes, o); }
    }
    forall i: nat, o: nat ensures OverlaidAt(s0, s', ino, off, done + chunk, i, o) {
      assert OverlaidAt(s0, s, ino, off, done, i, o);
      if i < |s.inodes| && o < MAXFILE * BSIZE { ChunkAt(s, x, addr, pos, chunk, i, o); }
    }
    if NoHoles(s0, ino) && off <= s0.inodes[ino].size { MappedMore(s, s', ino, pos, |chunk|, addr); }
  }

  lemma OwnerFacts(s: Store, x: Own)
    requires Inv(s) && x.ino < |s.inodes| && ValidPos(x.pos) && !IsPointer(x.pos) && Ptr(s, x.ino, x.pos) != 0
    ensures var b := Ptr(s, x.ino, x.pos); b in s.owner && s.owner[b] == x && b in s.content
  {
    UpOwned(s, x);
  }

  lemma ChunkAt(s: Store, x: Own, addr: nat, pos: nat, chunk: seq<int>, i: nat, o: nat)
    requires Inv(s) && addr in s.owner && s.owner[addr] == x && addr in s.content && i < |s.inodes|
    requires o < MAXFILE * BSIZE
    requires pos + |chunk| <= MAXFILE * BSIZE && pos % BSIZE + |chunk| <= BSIZE && 0 < |chunk|
    requires x.pos == LeafPos(pos / BSIZE)
    requires x.ino < |s.inodes| && addr != 0 && addr == Ptr(s, x.ino, x.pos)
    ensures InodesOk(Written(s, addr, Patched(s.content[addr], pos % BSIZE, chunk)))
    ensures FileByte(Written(s, addr, Patched(s.content[addr], pos % BSIZE, chunk)), i, o) ==
            if i == x.ino && pos <= o < pos + |chunk| then chunk[o - pos] else FileByte(s, i, o)
  {
    hide Owned;
    var bytes := Patched(s.content[addr], pos % BSIZE, chunk);
    Plain(s);
    WriteBytes(s, addr, bytes, i, o);
    if LeafPos(o / BSIZE) == LeafPos(pos / BSIZE) { LeafPosInjective(o / BSIZE, pos / BSIZE); }
    InBlock(pos, |chunk|, o);
    if o / BSIZE == pos / BSIZE && i == x.ino {
      assert FileByte(s, i, o) == Bytes(s.content[addr])[o % BSIZE];
    }
  }

  lemma InBlock(pos: nat, m: nat, o: nat)
    requires pos % BSIZE + m <= BSIZE && 0 < m
    ensures pos <= o < pos + m <==> o / BSIZE == pos / BSIZE && pos % BSIZE <= o % BSIZE < pos % BSIZE + m
    ensures o / BSIZE == pos / BSIZE ==> o % BSIZE - pos % BSIZE == o - pos
  {
  }

  lemma MappedMore(s: Store, s': Store, ino: nat, pos: nat, m: nat, addr: nat)
    requires InodesOk(s) && InodesOk(s') && |s'.inodes| == |s.inodes| && ino < |s.inodes| && pos + m <= MAXFILE * BSIZE
    requires Mapped(s, ino, pos) && pos % BSIZE + m <= BSIZE && 0 < m && (forall o: Own :: KeepsSlot(s, s', o))
    requires addr != 0 && addr == Ptr(s, ino, LeafPos(pos / BSIZE))
    ensures Mapped(s', ino, pos + m)
  {
    forall bn: nat | bn < MAXFILE && bn * BSIZE < pos + m ensures Ptr(s', ino, LeafPos(bn)) != 0 {
      assert bn * BSIZE < pos || bn == pos / BSIZE;
      assert KeepsSlot(s, s', Own(ino, LeafPos(bn)));
    }
  }

  /** The slots on the way to blocks lo..hi of a file. */
  ghost function Paths(ino: nat, lo: nat, hi: nat): set<Own>
    requires hi <= MAXFILE
  {
    set bn, o | lo <= bn < hi && o in Path(ino, bn) :: o
  }

  ghost function DataSlots(ino: nat, lo: nat): set<Own> {
    {Leaf(ino, lo), Leaf(ino, lo + 1), Leaf(ino, lo + 2), Leaf(ino, lo + 3)}
  }

  ghost function PointerSlots(ino: nat, lo: nat): set<Own> {
    if lo < NDIRECT + NADDR then {Own(ino, Ind), Own(ino, Dbl), Own(ino, DblMid(0))}
    else var i := (lo - NDIRECT - NADDR) / NADDR; {Own(ino, Dbl), Own(ino, DblMid(i)), Own(ino, DblMid(i + 1))}
  }

  lemma SlotAmong(ino: nat, lo: nat, bn: nat, o: Own)
    requires lo <= bn < lo + 4 && bn < MAXFILE && o in Path(ino, bn)
    ensures o in DataSlots(ino, lo) + PointerSlots(ino, lo)
  {
    if o == Own(ino, LeafPos(bn)) { assert o == Leaf(ino, bn); }
  }

  /** Four consecutive blocks of a file are reached through at most three pointer blocks. */
  lemma FewSlots(ino: nat, lo: nat, hi: nat)
    requires hi <= MAXFILE && hi <= lo + 4
    ensures |Paths(ino, lo, hi)| <= 7
  {
    hide Path, PointerSlots;
    forall o | o in Paths(ino, lo, hi) ensures o in DataSlots(ino, lo) + PointerSlots(ino, lo) {
      var bn :| lo <= bn < hi && o in Path(ino, bn);
      SlotAmong(ino, lo, bn, o);
    }
    Subset(Paths(ino, lo, hi), DataSlots(ino, lo) + PointerSlots(ino, lo));
    ThreePointers(ino, lo);
  }

  lemma ThreePointers(ino: nat, lo: nat)
    ensures |PointerSlots(ino, lo)| <= 3
  {
  }

  ghost function Leaf(ino: nat, bn: nat): Own {
    Own(ino, if bn < MAXFILE then LeafPos(bn) else Direct(0))
  }

  ghost function NonBitmap(refs: set<LogRef>): set<LogRef> { set r | r in refs && !r.BitmapBlock? }

  ghost function Bitmaps(refs: set<LogRef>): set<LogRef> { set r | r in refs && r.BitmapBlock? }

  ghost predicate FilesOnly(s: Store, refs: set<LogRef>, slots: set<Own>) {
    forall r :: r in refs ==> r.FileBlock? && exists o :: o in slots && LogsSlot(s, r, o)
  }

  /** Slots hold one block each, so the file blocks logged are no more than the slots. */
  lemma {:induction false} FilesAtMost(s: Store, refs: set<LogRef>, slots: set<Own>)
    requires FilesOnly(s, refs, slots)
    ensures |refs| <= |slots|
    decreases refs
  {
    if refs != {} {
      var r :| r in refs;
      var o :| o in slots && LogsSlot(s, r, o);
      forall q | q in refs - {r} ensures q.FileBlock? && exists x :: x in slots - {o} && LogsSlot(s, q, x) {
        var x :| x in slots && LogsSlot(s, q, x);
        assert x != o;
      }
      FilesAtMost(s, refs - {r}, slots - {o});
    }
  }

  datatype IoResult = Failed | Panic | Done(n: nat)

  /** The log entries of a write, apart from its inode block, are its file's blocks and bitmap blocks. */
  ghost predicate WriteLogs(s: Store, refs: set<LogRef>, ino: nat, off: nat, n: nat)
    requires off + n <= MAXFILE * BSIZE
  {
    LogsOnly(s, refs - {InodeBlock(ino / IPB)}, Paths(ino, off / BSIZE, (off + n + BSIZE - 1) / BSIZE))
  }

  /** No write of up to three blocks' worth of bytes logs more than 8 blocks besides bitmap blocks. */
  lemma ChunkLogBound(s: Store, refs: set<LogRef>, ino: nat, off: nat, n: nat)
    requires off + n <= MAXFILE * BSIZE && n <= MAXCHUNK && WriteLogs(s, refs, ino, off, n)
    ensures |NonBitmap(refs)| <= 8 && |refs| <= 8 + |Bitmaps(refs)|
  {
    hide Paths, LogsSlot;
    var slots := Paths(ino, off / BSIZE, (off + n + BSIZE - 1) / BSIZE);
    var files := NonBitmap(refs) - {InodeBlock(ino / IPB)};
    FewSlots(ino, off / BSIZE, (off + n + BSIZE - 1) / BSIZE);
    forall r | r in files ensures r.FileBlock? && exists o :: o in slots && LogsSlot(s, r, o) {
      assert r in refs - {InodeBlock(ino / IPB)};
      LoggedKind(s, r, slots);
    }
    FilesAtMost(s, files, slots);
    Subset(NonBitmap(refs), files + {InodeBlock(ino / IPB)});
    assert refs == NonBitmap(refs) + Bitmaps(refs);
  }

  lemma LoggedKind(s: Store, r: LogRef, slots: set<Own>)
    requires exists o :: o in slots && LogsSlot(s, r, o)
    ensures r.FileBlock? || r.BitmapBlock?
  {
  }

  /** The slot is empty or its block is described by bitmap block i. */
  ghost predicate InBitmap(s: Store, o: Own, i: nat) {
    InodesOk(s) && o.ino < |s.inodes| && ValidPos(o.pos) && Ptr(s, o.ino, o.pos) != 0 ==>
        Ptr(s, o.ino, o.pos) / BPB == i
  }

  /**
   So a chunk is within the budget that never overflows the log, MAXOPBLOCKS - 1 blocks, when
   the blocks it reaches are all described by one bitmap block; each further bitmap block may
   cost one more.
   */
  lemma ChunkWithinBudget(s: Store, refs: set<LogRef>, ino: nat, off: nat, n: nat, i: nat)
    requires off + n <= MAXFILE * BSIZE && n <= MAXCHUNK && WriteLogs(s, refs, ino, off, n)
    requires forall o :: o in Paths(ino, off / BSIZE, (off + n + BSIZE - 1) / BSIZE) ==> InBitmap(s, o, i)
    ensures |refs| <= MAXOPBLOCKS - 1
  {
    hide Paths;
    ChunkLogBound(s, refs, ino, off, n);
    forall r | r in Bitmaps(refs) ensures r == BitmapBlock(i) {
      assert r in refs - {InodeBlock(ino / IPB)};
      var o :| o in Paths(ino, off / BSIZE, (off + n + BSIZE - 1) / BSIZE) && LogsSlot(s, r, o);
      assert InBitmap(s, o, i);
    }
    Subset(Bitmaps(refs), {BitmapBlock(i)});
  }

  lemma LogsKept(s: Store, s': Store, a: set<LogRef>, refs: set<LogRef>, addr: nat, x: Own, slots: set<Own>)
    requires LogsOnly(s, a, slots) && refs <= a + {FileBlock(addr)} && x in slots && x.ino < |s.inodes|
    requires ValidPos(x.pos)
    requires InodesOk(s) && InodesOk(s') && |s'.inodes| == |s.inodes| && (forall o: Own :: KeepsSlot(s, s', o))
    requires addr != 0 && addr == Ptr(s, x.ino, x.pos)
    ensures LogsOnly(s', refs, slots)
  {
    assert KeepsSlot(s, s', x);
    assert LogsSlot(s', FileBlock(addr), x);
    forall r | r in refs ensures exists o :: o in slots && LogsSlot(s', r, o) {
      if r != FileBlock(addr) {
        var o :| o in slots && LogsSlot(s, r, o);
        assert KeepsSlot(s, s', o);
        assert LogsSlot(s', r, o);
      }
    }
  }

  /** Setting an inode's size moves no block. */
  ghost function Resized(s: Store, ino: nat, size: nat): Store
    requires ino < |s.inodes|
  {
    s.(inodes := s.inodes[ino := s.inodes[ino].(size := size)])
  }

  lemma ResizedPtr(s: Store, ino: nat, size: nat, x: Own)
    requires InodesOk(s) && ino < |s.inodes| && x.ino < |s.inodes| && ValidPos(x.pos)
    ensures InodesOk(Resized(s, ino, size)) && Ptr(Resized(s, ino, size), x.ino, x.pos) == Ptr(s, x.ino, x.pos)
    decreases if IsTop(x.pos) then 0 else if x.pos.DblLeaf? then 2 else 1
  {
    if !IsTop(x.pos) { ResizedPtr(s, ino, size, Own(x.ino, Above(x.pos))); }
  }

  /** s' is s after writing done at off, counted up to end: bytes, size, and no holes where there were none. */
  ghost predicate WroteTo(s: Store, s': Store, ino: nat, off: nat, done: seq<int>, end: nat) {
    && Overlaid(s, s', ino, off, done) && ino < |s.inodes| && s'.size == s.size && s'.nmeta == s.nmeta
    && (forall i :: 0 <= i < |s.inodes| ==>
          s'.inodes[i].size == if i == ino && off + end > s.inodes[i].size then off + end else s.inodes[i].size)
    && (forall i: nat :: i < |s.inodes| && NoHoles(s, i) ==> NoHoles(s', i))
  }

  ghost predicate Wrote(s: Store, s': Store, ino: nat, off: nat, done: seq<int>) {
    WroteTo(s, s', ino, off, done, |done|)
  }

  ghost function EndSize(s: Store, ino: nat, pos: nat): nat
    requires ino < |s.inodes|
  {
    if pos > s.inodes[ino].size then pos else s.inodes[ino].size
  }

  lemma ResizedInv(s: Store, ino: nat, size: nat)
    requires Inv(s) && ino < |s.inodes|
    ensures Inv(Resized(s, ino, size))
  {
    var s' := Resized(s, ino, size);
    forall o: Own ensures SlotOk(s', o) {
      assert SlotOk(s, o);
      if o.ino < |s.inodes| && ValidPos(o.pos) { ResizedPtr(s, ino, size, o); }
    }
    forall b: nat ensures OwnerOk(s', b) {
      assert OwnerOk(s, b);
      if b in s.owner { ResizedPtr(s, ino, size, s.owner[b]); }
    }
  }

  lemma ResizedByte(s: Store, ino: nat, size: nat, i: nat, o: nat)
    requires InodesOk(s) && ino < |s.inodes| && i < |s.inodes| && o < MAXFILE * BSIZE
    ensures InodesOk(Resized(s, ino, size)) && FileByte(Resized(s, ino, size), i, o) == FileByte(s, i, o)
  {
    ResizedPtr(s, ino, size, Own(i, LeafPos(o / BSIZE)));
  }

  lemma FinishHoles(s0: Store, s: Store, ino: nat, off: nat, done: seq<int>, end: nat, i: nat)
    requires Progress(s0, s, ino, off, done) && off <= s0.inodes[ino].size && i < |s0.inodes| && NoHoles(s0, i)
    requires end <= |done|
    ensures InodesOk(Resized(s, ino, EndSize(s, ino, off + end)))
    ensures NoHoles(Resized(s, ino, EndSize(s, ino, off + end)), i)
  {
    var size := EndSize(s, ino, off + end);
    var s' := Resized(s, ino, size);
    MappedKept(s0, s, i, s0.inodes[i].size);
    forall bn: nat | bn < MAXFILE && bn * BSIZE < s'.inodes[i].size ensures Ptr(s', i, LeafPos(bn)) != 0 {
      ResizedPtr(s, ino, size, Own(i, LeafPos(bn)));
    }
  }

  lemma Finish(s0: Store, s: Store, ino: nat, off: nat, done: seq<int>, end: nat)
    requires Inv(s) && Progress(s0, s, ino, off, done) && off <= s0.inodes[ino].size && end <= |done|
    ensures var s' := Resized(s, ino, EndSize(s, ino, off + end)); Inv(s') && WroteTo(s0, s', ino, off, done, end)
  {
    hide Inv, NoHoles, FileByte, Mapped;
    var size := EndSize(s, ino, off + end);
    var s' := Resized(s, ino, size);
    ResizedInv(s, ino, size);
    forall i: nat, o: nat ensures OverlaidAt(s0, s', ino, off, done, i, o) {
      assert OverlaidAt(s0, s, ino, off, done, i, o);
      if i < |s.inodes| && o < MAXFILE * BSIZE { ResizedByte(s, ino, size, i, o); }
    }
    forall i: nat | i < |s0.inodes| && NoHoles(s0, i) ensures NoHoles(s', i) {
      FinishHoles(s0, s, ino, off, done, end, i);
    }
  }

  lemma LogsResized(s: Store, refs: set<LogRef>, slots: set<Own>, ino: nat, size: nat)
    requires LogsOnly(s, refs, slots) && ino < |s.inodes|
    ensures LogsOnly(Resized(s, ino, size), refs, slots)
  {
    var s' := Resized(s, ino, size);
    forall r | r in refs ensures exists o :: o in slots && LogsSlot(s', r, o) {
      var o :| o in slots && LogsSlot(s, r, o);
      ResizedPtr(s, ino, size, o);
      assert LogsSlot(s', r, o);
    }
  }

  lemma LogsStep(s: Store, s1: Store, a: set<LogRef>, b: set<LogRef>, refs: set<LogRef>, ino: nat, bn: nat,
                 lo: nat, hi: nat)
    requires hi <= MAXFILE && lo <= bn < hi && LogsOnly(s, a, Paths(ino, lo, hi)) && Grown(s, s1)
    requires LogsOnly(s1, b, Path(ino, bn)) && refs <= a + b
    ensures LogsOnly(s1, refs, Paths(ino, lo, hi)) && Own(ino, LeafPos(bn)) in Paths(ino, lo, hi)
  {
    hide Grown, Path;
    LeafOnPath(ino, bn);
    LogsWiden(s1, b, Path(ino, bn), Paths(ino, lo, hi));
    LogsJoin(s, s1, a, b, Paths(ino, lo, hi), Paths(ino, lo, hi), refs);
  }

  lemma LeafOnPath(ino: nat, bn: nat)
    requires bn < MAXFILE
    ensures Own(ino, LeafPos(bn)) in Path(ino, bn)
  {
  }

  lemma WriteLogsFrom(s: Store, a: set<LogRef>, refs: set<LogRef>, ino: nat, off: nat, n: nat)
    requires off + n <= MAXFILE * BSIZE && LogsOnly(s, a, Paths(ino, off / BSIZE, (off + n + BSIZE - 1) / BSIZE))
    requires refs <= a + {InodeBlock(ino / IPB)}
    ensures WriteLogs(s, refs, ino, off, n)
  {
  }

  predicate WriteRefused(size: nat, off: nat, n: nat) {
    off > size || off + n >= UINTMOD || off + n > MAXFILE * BSIZE
  }

  /** Between two turns of writei's loop. */
  ghost predicate Writing(s0: Store, s: Store, refs: set<LogRef>, ino: nat, off: nat, n: nat, done: seq<int>) {
    && off + n <= MAXFILE * BSIZE && Inv(s) && Progress(s0, s, ino, off, done)
    && LogsOnly(s, refs, Paths(ino, off / BSIZE, (off + n + BSIZE - 1) / BSIZE))
  }

  lemma WritingFacts(s0: Store, s: Store, refs: set<LogRef>, ino: nat, off: nat, n: nat, done: seq<int>)
    requires Writing(s0, s, refs, ino, off, n, done)
    ensures |s.inodes| == |s0.inodes| && InodesOk(s) && ino < |s.inodes| && s.inodes[ino].size == s0.inodes[ino].size
    ensures Overlaid(s0, s, ino, off, done) && Inv(s) && WriteLogs(s, refs, ino, off, n)
  {
    hide Inv, Mapped, KeepsSlot, Paths;
    WriteLogsFrom(s, refs, refs, ino, off, n);
  }

  lemma WritingGrown(s0: Store, s: Store, s1: Store, a: set<LogRef>, b: set<LogRef>, refs: set<LogRef>,
                     ino: nat, off: nat, n: nat, done: seq<int>)
    requires Writing(s0, s, a, ino, off, n, done) && |done| < n && Inv(s1) && Grown(s, s1)
    requires LogsOnly(s1, b, Path(ino, (off + |done|) / BSIZE)) && refs <= a + b
    ensures Writing(s0, s1, refs, ino, off, n, done)
  {
    hide Inv, Grown, Progress, Path, Paths, LogsOnly;
    ProgressGrown(s0, s, s1, ino, off, done);
    LogsStep(s, s1, a, b, refs, ino, (off + |done|) / BSIZE, off / BSIZE, (off + n + BSIZE - 1) / BSIZE);
  }

  lemma WritingChunk(s0: Store, s: Store, a: set<LogRef>, refs: set<LogRef>, ino: nat, off: nat, n: nat,
                     done: seq<int>, addr: nat, chunk: seq<int>)
    requires Writing(s0, s, a, ino, off, n, done) && |done| + |chunk| <= n && InodesOk(s) && ino < |s.inodes|
    requires (off + |done|) % BSIZE + |chunk| <= BSIZE && 0 < |chunk| && refs <= a + {FileBlock(addr)}
    requires addr != 0 && addr == Ptr(s, ino, LeafPos((off + |done|) / BSIZE))
    ensures addr in s.content
    ensures var s' := Written(s, addr, Patched(s.content[addr], (off + |done|) % BSIZE, chunk));
            Writing(s0, s', refs, ino, off, n, done + chunk)
  {
    hide Inv, Progress, Path, LogsOnly, Patched;
    var bn := (off + |done|) / BSIZE;
    ProgressChunk(s0, s, ino, off, done, addr, chunk);
    LeafOnPath(ino, bn);
    var s' := Written(s, addr, Patched(s.content[addr], (off + |done|) % BSIZE, chunk));
    LogsKept(s, s', a, refs, addr, Own(ino, LeafPos(bn)), Paths(ino, off / BSIZE, (off + n + BSIZE - 1) / BSIZE));
  }

  // ----- what a write logs at least -----

  /** The block behind the last of `at` bytes from off on. */
  function Reached(off: nat, at: nat): nat { if at == 0 then off / BSIZE else (off + at - 1) / BSIZE + 1 }

  ghost predicate DataLogged(s: Store, logs: set<LogRef>, ino: nat, bn: nat)
    requires InodesOk(s) && ino < |s.inodes|
  {
    bn < MAXFILE ==> Ptr(s, ino, LeafPos(bn)) != 0 && FileBlock(Ptr(s, ino, LeafPos(bn))) in logs
  }

  /** After `at` bytes: every block taken since s0 is logged, and every block written. */
  ghost predicate Covering(s0: Store, s: Store, logs: set<LogRef>, ino: nat, off: nat, at: nat) {
    && Allocs(s0, s, logs) && ino < |s.inodes|
    && forall bn: nat :: off / BSIZE <= bn < Reached(off, at) ==> DataLogged(s, logs, ino, bn)
  }

  lemma CoverGrown(s0: Store, s: Store, s1: Store, l: set<LogRef>, l1: set<LogRef>, ino: nat, off: nat, at: nat)
    requires Covering(s0, s, l, ino, off, at) && Allocs(s, s1, l1) && Grown(s, s1) && l <= l1
    ensures Covering(s0, s1, l1, ino, off, at)
  {
    AllocsTrans(s0, s, s1, l, l1);
    hide Allocs;
    forall bn: nat | off / BSIZE <= bn < Reached(off, at) ensures DataLogged(s1, l1, ino, bn) {
      assert DataLogged(s, l, ino, bn);
      if bn < MAXFILE { assert KeepsSlot(s, s1, Own(ino, LeafPos(bn))); }
    }
  }

  lemma CoverSame(s0: Store, s: Store, s1: Store, l: set<LogRef>, l1: set<LogRef>, ino: nat, off: nat, at: nat)
    requires Covering(s0, s, l, ino, off, at) && l <= l1 && InodesOk(s1) && |s1.inodes| == |s.inodes|
    requires s1.size == s.size && s1.bits == s.bits && forall o: Own :: SameSlot(s, s1, o)
    ensures Covering(s0, s1, l1, ino, off, at)
  {
    AllocsSame(s0, s, s1, l, l1);
    hide Allocs;
    forall bn: nat | off / BSIZE <= bn < Reached(off, at) ensures DataLogged(s1, l1, ino, bn) {
      assert DataLogged(s, l, ino, bn);
      if bn < MAXFILE { assert SameSlot(s, s1, Own(ino, LeafPos(bn))); }
    }
  }

  /** Data written into a file's block, and logged when the chunk is complete. */
  lemma CoverChunk(s0: Store, s: Store, l: set<LogRef>, l1: set<LogRef>, ino: nat, off: nat, at: nat, m: nat,
                   addr: nat, bytes: seq<int>)
    requires Covering(s0, s, l, ino, off, at) && Inv(s) && l <= l1 && (off + at) % BSIZE + m <= BSIZE
    requires off + at < MAXFILE * BSIZE && addr != 0 && addr == Ptr(s, ino, LeafPos((off + at) / BSIZE))
    requires m > 0 ==> FileBlock(addr) in l1
    ensures Covering(s0, Written(s, addr, bytes), l1, ino, off, at + m)
  {
    hide Allocs, Inv;
    Plain(s);
    var s1 := Written(s, addr, bytes);
    OwnerFacts(s, Own(ino, LeafPos((off + at) / BSIZE)));
    forall o: Own ensures SameSlot(s, s1, o) {
      if o.ino < |s.inodes| && ValidPos(o.pos) { WritePtr(s, addr, bytes, o); }
    }
    CoverSame(s0, s, s1, l, l1, ino, off, at);
    forall bn: nat | off / BSIZE <= bn < Reached(off, at + m) ensures DataLogged(s1, l1, ino, bn) {
      assert bn < Reached(off, at) || bn == (off + at) / BSIZE;
      assert SameSlot(s, s1, Own(ino, LeafPos((off + at) / BSIZE)));
    }
  }

  lemma CoverStart(s: Store, logs: set<LogRef>, ino: nat, off: nat)
    requires InodesOk(s) && ino < |s.inodes|
    ensures Covering(s, s, logs, ino, off, 0)
  {
    AllocsRefl(s, logs);
  }

  lemma CoverFinish(s0: Store, s: Store, l: set<LogRef>, l1: set<LogRef>, ino: nat, off: nat, at: nat, size: nat)
    requires Covering(s0, s, l, ino, off, at) && l <= l1 && InodesOk(s)
    ensures Covering(s0, Resized(s, ino, size), l1, ino, off, at)
  {
    hide Allocs;
    ResizedPtr(s, ino, size, Own(ino, Ind));
    forall o: Own ensures SameSlot(s, Resized(s, ino, size), o) {
      if o.ino < |s.inodes| && ValidPos(o.pos) { ResizedPtr(s, ino, size, o); }
    }
    CoverSame(s0, s, Resized(s, ino, size), l, l1, ino, off, at);
  }

  lemma CoverAllocs(s0: Store, s: Store, logs: set<LogRef>, ino: nat, off: nat, at: nat)
    requires Covering(s0, s, logs, ino, off, at)
    ensures Allocs(s0, s, logs)
  {
  }

  /**
   One turn of writei's loop. m is 0 when the copy failed, having left `part` bytes in the
   block's buffer, which is not logged.
   */
  method WriteChunk(fs: Fs, ino: nat, off: nat, src: seq<int>, n: nat, at: nat, ghost s0: Store, ghost was: set<LogRef>)
    returns (m: nat, panic: bool, ghost part: nat)
    requires at <= |src| && at < n && Writing(s0, fs.Now(), fs.logged - was, ino, off, n, src[..at]) && was <= fs.logged
    requires Covering(s0, fs.Now(), fs.logged, ino, off, at)
    modifies fs
    ensures at + m + part <= n && at + m + part <= |src| && was <= fs.logged && (m > 0 || panic ==> part == 0)
    ensures Writing(s0, fs.Now(), fs.logged - was, ino, off, n, src[..at + m + part])
    ensures Covering(s0, fs.Now(), fs.logged, ino, off, at + m)
    ensures panic ==> m == 0 && forall b: nat :: b < fs.size ==> Bit(fs.bits, b)
    ensures !panic && m == 0 ==> |src| < n && at + part == |src| && part < BSIZE
  {
    hide Writing, Inv, Grown, LogsOnly, Path, Bit, Covering, Allocs;
    var pos := off + at;
    ghost var s, logs := fs.Now(), fs.logged;
    part := 0;
    WritingFacts(s0, s, logs - was, ino, off, n, src[..at]);
    WritingRange(s0, s, logs - was, ino, off, n, src[..at]);
    var addr := fs.Bmap(ino, pos / BSIZE);
    WritingGrown(s0, s, fs.Now(), logs - was, fs.logged - logs, fs.logged - was, ino, off, n, src[..at]);
    CoverGrown(s0, s, fs.Now(), logs, fs.logged, ino, off, at);
    if addr == 0 { return 0, true, 0; }
    m := if n - at < BSIZE - pos % BSIZE then n - at else BSIZE - pos % BSIZE;
    var fit := if at + m > |src| then |src| - at else m;
    WritingFacts(s0, fs.Now(), fs.logged - was, ino, off, n, src[..at]);
    if fit > 0 { Patch(fs, ino, off, n, at, addr, src[at..at + fit], src[..at], fit == m, s0, was); }
    assert src[..at] + src[at..at + fit] == src[..at + fit];
    if fit < m { m, part := 0, fit; }
    panic := false;
  }

  /** Bytes copied into a block's buffer; log_write follows if the copy succeeded. */
  method Patch(fs: Fs, ino: nat, off: nat, n: nat, at: nat, addr: nat, chunk: seq<int>, ghost done: seq<int>, log: bool,
               ghost s0: Store, ghost was: set<LogRef>)
    requires Writing(s0, fs.Now(), fs.logged - was, ino, off, n, done) && was <= fs.logged && at == |done|
    requires Covering(s0, fs.Now(), fs.logged, ino, off, at) && off + n <= MAXFILE * BSIZE
    requires 0 < |chunk| && at + |chunk| <= n && (off + at) % BSIZE + |chunk| <= BSIZE
    requires InodesOk(fs.Now()) && ino < |fs.inodes| && addr != 0
    requires addr == Ptr(fs.Now(), ino, LeafPos((off + at) / BSIZE))
    modifies fs`content, fs`logged
    ensures was <= fs.logged && Writing(s0, fs.Now(), fs.logged - was, ino, off, n, done + chunk)
    ensures fs.logged == old(fs.logged) + if log then {FileBlock(addr)} else {}
    ensures Covering(s0, fs.Now(), fs.logged, ino, off, at + if log then |chunk| else 0)
  {
    hide Writing, Inv, Covering;
    ghost var s, logs := fs.Now(), if log then fs.logged + {FileBlock(addr)} else fs.logged;
    WritingFacts(s0, s, fs.logged - was, ino, off, n, done);
    WritingChunk(s0, s, fs.logged - was, logs - was, ino, off, n, done, addr, chunk);
    ghost var bytes := Patched(s.content[addr], (off + at) % BSIZE, chunk);
    CoverChunk(s0, s, fs.logged, logs, ino, off, at, if log then |chunk| else 0, addr, bytes);
    var data, o := Bytes(fs.content[addr]), (off + at) % BSIZE;
    fs.content := fs.content[addr := Data(data[..o] + chunk + data[o + |chunk|..])];
    if log { fs.logged := fs.logged + {FileBlock(addr)}; }
    assert fs.Now() == Written(s, addr, bytes);
  }

  lemma WritingRange(s0: Store, s: Store, refs: set<LogRef>, ino: nat, off: nat, n: nat, done: seq<int>)
    requires Writing(s0, s, refs, ino, off, n, done)
    ensures off + n <= MAXFILE * BSIZE
  {
  }

  /** The end of writei: the size is brought up to date and the inode written. */
  lemma WritingDone(s0: Store, s: Store, a: set<LogRef>, refs: set<LogRef>, ino: nat, off: nat, n: nat,
                    done: seq<int>, end: nat, s': Store)
    requires Writing(s0, s, a, ino, off, n, done) && ino < |s0.inodes| && off <= s0.inodes[ino].size
    requires refs <= a + {InodeBlock(ino / IPB)} && ino < |s.inodes| && end <= |done|
    requires s' == Resized(s, ino, EndSize(s, ino, off + end))
    ensures Inv(s') && WroteTo(s0, s', ino, off, done, end) && WriteLogs(s', refs, ino, off, n)
  {
    hide Inv, Progress, Paths, LogsOnly, WroteTo, Resized;
    Finish(s0, s, ino, off, done, end);
    LogsResized(s, a, Paths(ino, off / BSIZE, (off + n + BSIZE - 1) / BSIZE), ino, EndSize(s, ino, off + end));
    WriteLogsFrom(s', a, refs, ino, off, n);
  }

  lemma WritingStart(s: Store, ino: nat, off: nat, n: nat)
    requires Inv(s) && ino < |s.inodes| && off + n <= MAXFILE * BSIZE
    ensures Writing(s, s, {}, ino, off, n, [])
  {
    ProgressStart(s, ino, off);
  }

  /**
   writei, where the source can be read for |src| bytes. What could be copied is laid over the
   file; of a chunk whose copy failed the first bytes are in the buffer too, but they are not
   logged and not counted: tot is the whole chunks. It reports n even then.
   */
  method Writei(fs: Fs, ino: nat, off: nat, src: seq<int>, n: nat) returns (r: IoResult, ghost tot: nat)
    requires Inv(fs.Now()) && ino < |fs.inodes| && off < UINTMOD && n < UINTMOD
    modifies fs
    ensures Inv(fs.Now()) && tot <= n && tot <= |src| && old(fs.logged) <= fs.logged
    ensures r.Failed? <==> WriteRefused(old(fs.inodes)[ino].size, off, n)
    ensures r.Failed? ==> fs.Now() == old(fs.Now()) && fs.logged == old(fs.logged)
    ensures r.Done? ==> r.n == n && WroteTo(old(fs.Now()), fs.Now(), ino, off, Prefix(src, n), tot)
    ensures r.Done? ==> (n <= |src| ==> tot == n) && (n > |src| ==> |src| - tot < BSIZE)
    ensures r.Panic? ==> Overlaid(old(fs.Now()), fs.Now(), ino, off, src[..tot])
    ensures r.Panic? ==> forall b: nat :: b < fs.size ==> Bit(fs.bits, b)
    ensures !r.Failed? ==> WriteLogs(fs.Now(), fs.logged - old(fs.logged), ino, off, n)
    ensures !r.Failed? ==> Covering(old(fs.Now()), fs.Now(), fs.logged, ino, off, tot)
    ensures r.Done? && n > 0 ==> InodeBlock(ino / IPB) in fs.logged
  {
    hide Writing, Inv, WriteLogs, WroteTo, Overlaid, Bit, Covering;
    ghost var s0, was := fs.Now(), fs.logged;
    tot := 0;
    Plain(s0);
    var size := fs.inodes[ino].size;
    if off > size || (off + n) % UINTMOD < off { return Failed, 0; }
    if off + n > MAXFILE * BSIZE { return Failed, 0; }
    WritingStart(s0, ino, off, n);
    CoverStart(s0, fs.logged, ino, off);
    var at := 0;
    ghost var part := 0;
    assert fs.logged - was == {} && src[..at] == [];
    while at < n
      invariant 0 <= at <= n && at <= |src| && was <= fs.logged && part == 0
      invariant Writing(s0, fs.Now(), fs.logged - was, ino, off, n, src[..at])
      invariant Covering(s0, fs.Now(), fs.logged, ino, off, at)
      decreases n - at
    {
      var m, panic;
      m, panic, part := WriteChunk(fs, ino, off, src, n, at, s0, was);
      if panic { WritingFacts(s0, fs.Now(), fs.logged - was, ino, off, n, src[..at]); return Panic, at; }
      if m == 0 { break; }
      at := at + m;
    }
    tot := at;
    assert src[..at + part] == Prefix(src, n);
    ghost var s, logs := fs.Now(), fs.logged - was;
    WritingFacts(s0, s, logs, ino, off, n, src[..at + part]);
    CoverFinish(s0, s, fs.logged, fs.logged, ino, off, at, EndSize(s, ino, off + at));
    if n > 0 {
      if off + at > size { fs.inodes := fs.inodes[ino := fs.inodes[ino].(size := off + at)]; }
      CoverFinish(s0, s, fs.logged, fs.logged + {InodeBlock(ino / IPB)}, ino, off, at, EndSize(s, ino, off + at));
      fs.logged := fs.logged + {InodeBlock(ino / IPB)};
    }
    assert fs.inodes == Resized(s, ino, EndSize(s, ino, off + at)).inodes;
    WritingDone(s0, s, logs, fs.logged - was, ino, off, n, src[..at + part], at, fs.Now());
    r := Done(n);
  }

  function Prefix(src: seq<int>, n: nat): seq<int> { if n <= |src| then src[..n] else src }

  // ----- filewrite -----

  lemma WroteNothing(s: Store, ino: nat, off: nat)
    requires InodesOk(s) && ino < |s.inodes| && off <= s.inodes[ino].size
    ensures Wrote(s, s, ino, off, [])
  {
    assert forall i: nat, o: nat :: OverlaidAt(s, s, ino, off, [], i, o);
  }

  lemma OverlaidMore(s0: Store, s1: Store, s2: Store, ino: nat, off: nat, a: seq<int>, b: seq<int>)
    requires Overlaid(s0, s1, ino, off, a) && Overlaid(s1, s2, ino, off + |a|, b)
    ensures Overlaid(s0, s2, ino, off, a + b)
  {
    hide FileByte;
    forall i: nat, o: nat ensures OverlaidAt(s0, s2, ino, off, a + b, i, o) {
      assert OverlaidAt(s0, s1, ino, off, a, i, o) && OverlaidAt(s1, s2, ino, off + |a|, b, i, o);
    }
  }

  function From(src: seq<int>, i: nat): seq<int> {
    if i <= |src| then src[i..] else []
  }

  /** Between two chunks, i bytes on: as much of src as there is below i is in place, and counted up to end. */
  ghost predicate Chunked(s0: Store, s: Store, ino: nat, off: nat, src: seq<int>, i: nat, end: nat) {
    && WroteTo(s0, s, ino, off, Prefix(src, i), end)
    && (if i <= |src| then end == i else end <= |src| < end + BSIZE)
  }

  /**
   filewrite on an inode: chunks of at most MAXCHUNK bytes, each its own transaction (one
   entry of `groups`) of at most 8 blocks besides bitmap blocks; src is as much as can be read
   of the source. From an offset not past the end, the first `at` bytes, as far as src has
   them, are in place, and counted up to `end`; at is n unless the file would outgrow MAXFILE
   blocks, or the source failed and the offset has run past the end of the file.
   */
  method Filewrite(fs: Fs, ino: nat, off: nat, src: seq<int>, n: int, writable: bool, permitted: bool)
    returns (r: IoResult, newOff: nat, ghost groups: seq<set<LogRef>>, ghost at: nat, ghost end: nat)
    requires Inv(fs.Now()) && ino < |fs.inodes| && off < UINTMOD && n < UINTMOD / 2
    requires fs.inodes[ino].size <= MAXFILE * BSIZE
    modifies fs
    ensures Inv(fs.Now()) && (forall g :: g in groups ==> |NonBitmap(g)| <= 8 && |g| <= 8 + |Bitmaps(g)|)
    ensures !writable || n < 0 || (!permitted && n > 0) ==> r.Failed? && fs.Now() == old(fs.Now()) && newOff == off
    ensures off > old(fs.inodes)[ino].size && n > 0 ==> r.Failed? && fs.Now() == old(fs.Now()) && newOff == off
    ensures 0 <= n && off <= old(fs.inodes)[ino].size ==>
              && at <= n && Overlaid(old(fs.Now()), fs.Now(), ino, off, Prefix(src, at))
              && (r.Done? ==> r.n == at == n)
              && (!r.Panic? ==> newOff == off + at && Chunked(old(fs.Now()), fs.Now(), ino, off, src, at, end))
    ensures 0 <= n && off <= old(fs.inodes)[ino].size && r.Failed? && writable && (permitted || n == 0) ==>
              && ino < |fs.inodes|
              && (off + n > MAXFILE * BSIZE || (n > |src| && newOff > fs.inodes[ino].size))
    ensures r.Panic? ==> forall b: nat :: b < fs.size ==> Bit(fs.bits, b)
  {
    hide Inv, WriteLogs, Wrote, WroteTo, Overlaid, Bit, NonBitmap, Bitmaps, Covering, Chunked;
    ghost var s0, good := fs.Now(), 0 <= n && off <= fs.inodes[ino].size;
    groups, at, end, newOff := [], 0, 0, off;
    Plain(s0);
    if good { ChunkedNone(s0, ino, off, src); }
    if !writable { return Failed, off, [], 0, 0; }
    var i := 0;
    while i < n
      invariant 0 <= i && (0 <= n ==> i <= n) && newOff == off + i && Inv(fs.Now()) && |fs.inodes| == |s0.inodes|
      invariant at == i && (good ==> off + i <= MAXFILE * BSIZE && Chunked(s0, fs.Now(), ino, off, src, i, end))
      invariant good ==> Overlaid(s0, fs.Now(), ino, off, Prefix(src, i))
      invariant (i == 0 ==> fs.Now() == s0) && (n < 0 || !permitted ==> i == 0) && newOff < UINTMOD
      invariant off > s0.inodes[ino].size ==> i == 0
      invariant forall g :: g in groups ==> |NonBitmap(g)| <= 8 && |g| <= 8 + |Bitmaps(g)|
    {
      if !permitted { return Failed, newOff, groups, at, end; }
      var n1 := if n - i > MAXCHUNK then MAXCHUNK else n - i;
      fs.logged := {};
      ghost var s := fs.Now();
      if good { ChunkedSize(s0, s, ino, off, src, i, end); }
      var q, w := Writei(fs, ino, newOff, From(src, i), n1);
      assert fs.logged - {} == fs.logged;
      if q.Failed? { return Failed, newOff, groups, at, end; }
      ChunkLogBound(fs.Now(), fs.logged, ino, newOff, n1);
      groups := groups + [fs.logged];
      if q.Panic? {
        if good { PanicWrote(s0, s, fs.Now(), ino, off, src, i, end, w); }
        at := i + w;
        return Panic, newOff, groups, at, end;
      }
      SizeKept(s, fs.Now(), ino, newOff, Prefix(From(src, i), n1), w);
      if good { end := ChunkedMore(s0, s, fs.Now(), ino, off, src, i, end, n1, w); }
      newOff := newOff + q.n;
      i := i + q.n;
      at := i;
    }
    r := if i == n then Done(i) else Failed;
  }

  lemma ChunkedNone(s: Store, ino: nat, off: nat, src: seq<int>)
    requires InodesOk(s) && ino < |s.inodes| && off <= s.inodes[ino].size
    ensures Chunked(s, s, ino, off, src, 0, 0) && Overlaid(s, s, ino, off, Prefix(src, 0))
  {
    assert Prefix(src, 0) == [];
    WroteNothing(s, ino, off);
  }

  lemma ChunkedSize(s0: Store, s: Store, ino: nat, off: nat, src: seq<int>, i: nat, end: nat)
    requires Chunked(s0, s, ino, off, src, i, end)
    ensures ino < |s.inodes| && (i <= |src| ==> off + i <= s.inodes[ino].size)
  {
  }

  lemma PrefixMore(src: seq<int>, i: nat, n: nat)
    ensures Prefix(src, i + n) == Prefix(src, i) + Prefix(From(src, i), n)
    ensures i > |src| ==> Prefix(From(src, i), n) == []
    ensures |Prefix(src, i)| == if i <= |src| then i else |src|
  {
  }

  /** A chunk that ran into balloc's panic. */
  lemma PanicWrote(s0: Store, s: Store, s': Store, ino: nat, off: nat, src: seq<int>, i: nat, end: nat, w: nat)
    requires Chunked(s0, s, ino, off, src, i, end) && w <= |From(src, i)|
    requires Overlaid(s, s', ino, off + i, From(src, i)[..w])
    ensures Overlaid(s0, s', ino, off, Prefix(src, i + w))
  {
    hide FileByte, NoHoles;
    PrefixMore(src, i, w);
    if i <= |src| {
      OverlaidMore(s0, s, s', ino, off, Prefix(src, i), From(src, i)[..w]);
    } else {
      OverlaidNone(s0, s, s', ino, off, Prefix(src, i), off + i);
    }
  }

  lemma OverlaidNone(s0: Store, s: Store, s': Store, ino: nat, off: nat, d: seq<int>, off': nat)
    requires Overlaid(s0, s, ino, off, d) && Overlaid(s, s', ino, off', [])
    ensures Overlaid(s0, s', ino, off, d)
  {
    hide FileByte;
    forall i: nat, o: nat ensures OverlaidAt(s0, s', ino, off, d, i, o) {
      assert OverlaidAt(s0, s, ino, off, d, i, o) && OverlaidAt(s, s', ino, off', [], i, o);
    }
  }

  /** The next chunk, of which the source has all, some or nothing. */
  lemma ChunkedMore(s0: Store, s: Store, s': Store, ino: nat, off: nat, src: seq<int>, i: nat, end: nat, n: nat, w: nat)
    returns (end': nat)
    requires Chunked(s0, s, ino, off, src, i, end) && WroteTo(s, s', ino, off + i, Prefix(From(src, i), n), w)
    requires w <= n && w <= |From(src, i)| && ino < |s.inodes| && off + i <= s.inodes[ino].size
    requires (n <= |From(src, i)| ==> w == n) && (n > |From(src, i)| ==> |From(src, i)| - w < BSIZE)
    ensures Chunked(s0, s', ino, off, src, i + n, end') && Overlaid(s0, s', ino, off, Prefix(src, i + n))
  {
    hide NoHoles, FileByte, OverlaidAt;
    PrefixMore(src, i, n);
    if i <= |src| {
      end' := i + w;
      OverlaidMore(s0, s, s', ino, off, Prefix(src, i), Prefix(From(src, i), n));
    } else {
      end' := end;
      assert Prefix(From(src, i), n) == [];
      OverlaidNone(s0, s, s', ino, off, Prefix(src, i), off + i);
    }
  }

  lemma SizeKept(s: Store, s': Store, ino: nat, off: nat, done: seq<int>, end: nat)
    requires WroteTo(s, s', ino, off, done, end)
    ensures |s'.inodes| == |s.inodes| && ino < |s.inodes|
    ensures end == |done| ==> Wrote(s, s', ino, off, done)
  {
  }
}
