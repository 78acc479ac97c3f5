/**
 The block layer under inodes: a bitmap, the blocks, and for each inode eleven direct
 pointers, one single-indirect and one double-indirect pointer.
 */
module FsModel {

  const BSIZE: nat := 1024
  const NADDR: nat := 256               // block numbers in a pointer block
  const NDIRECT: nat := 11
  const MAXFILE: nat := 65803           // NDIRECT + NADDR + NADDR * NADDR
  const BPB: nat := 8192                // bitmap bits per block

  // ----- bitmap -----

  /** The bitmap blocks; entry bi of a block is bit bi % 8 of its byte bi / 8. */
  type Bitmap = seq<seq<bool>>

  ghost predicate BitmapOk(bits: Bitmap) {
    forall i :: 0 <= i < |bits| ==> |bits[i]| == BPB
  }

  ghost predicate Bit(bits: Bitmap, b: nat) {
    b / BPB < |bits| && |bits[b / BPB]| == BPB && bits[b / BPB][b % BPB]
  }

  /** The bitmap with block b's bit on or off. */
  function Marked(bits: Bitmap, b: nat, on: bool): Bitmap
    requires b / BPB < |bits| && |bits[b / BPB]| == BPB
  {
    bits[b / BPB := bits[b / BPB][b % BPB := on]]
  }

  /** Setting or clearing block b's bit leaves the others alone. */
  lemma BitUpdated(bits: Bitmap, b: nat, on: bool, c: nat)
    requires BitmapOk(bits) && b / BPB < |bits| && c / BPB < |bits|
    ensures BitmapOk(Marked(bits, b, on)) && (Bit(Marked(bits, b, on), c) <==> if c == b then on else Bit(bits, c))
  {
  }

  // ----- blocks and pointers -----

  /** A block as last written: cleared, file bytes, or block numbers. */
  datatype Block = Zero | Data(bytes: seq<int>) | Ptrs(words: seq<nat>)

  function Words(b: Block): (w: seq<nat>)
    ensures |w| == NADDR
  {
    if b.Ptrs? && |b.words| == NADDR then b.words else seq(NADDR, _ => 0)
  }

  function Bytes(b: Block): (d: seq<int>)
    ensures |d| == BSIZE
  {
    if b.Data? && |b.bytes| == BSIZE then b.bytes else seq(BSIZE, _ => 0)
  }

  datatype Inode = Inode(addrs: seq<nat>, size: nat)

  /** Every place of an inode that can hold a block number. */
  datatype Pos = Direct(i: nat) | Ind | IndLeaf(j: nat) | Dbl | DblMid(i: nat) | DblLeaf(i: nat, j: nat)

  predicate ValidPos(p: Pos) {
    match p
    case Direct(i) => i < NDIRECT
    case IndLeaf(j) => j < NADDR
    case DblMid(i) => i < NADDR
    case DblLeaf(i, j) => i < NADDR && j < NADDR
    case _ => true
  }

  /** Positions of pointer blocks, as opposed to data blocks. */
  predicate IsPointer(p: Pos) { p.Ind? || p.Dbl? || p.DblMid? }

  /** Held in the inode itself. */
  predicate IsTop(p: Pos) { p.Direct? || p.Ind? || p.Dbl? }

  function TopIndex(p: Pos): (k: nat)
    requires IsTop(p) && ValidPos(p)
    ensures k < NDIRECT + 2
  {
    if p.Direct? then p.i else if p.Ind? then NDIRECT else NDIRECT + 1
  }

  function Above(p: Pos): Pos
    requires !IsTop(p)
  {
    if p.IndLeaf? then Ind else if p.DblMid? then Dbl else DblMid(p.i)
  }

  function Index(p: Pos): (k: nat)
    requires !IsTop(p) && ValidPos(p)
    ensures k < NADDR
  {
    if p.DblMid? then p.i else p.j
  }

  /** Where bmap looks for the n-th block of a file. */
  function LeafPos(bn: nat): (p: Pos)
    requires bn < MAXFILE
    ensures ValidPos(p) && !IsPointer(p)
  {
    if bn < NDIRECT then Direct(bn)
    else if bn - NDIRECT < NADDR then IndLeaf(bn - NDIRECT)
    else DblLeaf((bn - NDIRECT - NADDR) / NADDR, (bn - NDIRECT - NADDR) % NADDR)
  }

  lemma LeafPosInjective(a: nat, b: nat)
    requires a < MAXFILE && b < MAXFILE && LeafPos(a) == LeafPos(b)
    ensures a == b
  {
  }

  datatype Own = Own(ino: nat, pos: Pos)

  datatype Store = Store(
    nmeta: nat, size: nat,                // blocks below nmeta are metadata
    bits: Bitmap, content: map<nat, Block>, inodes: seq<Inode>,
    owner: map<nat, Own>)                 // history: which slot a block was allocated for

  /** The block number in a slot, 0 for none. */
  function Ptr(s: Store, ino: nat, p: Pos): nat
    requires ino < |s.inodes| && |s.inodes[ino].addrs| == NDIRECT + 2 && ValidPos(p)
    decreases if IsTop(p) then 0 else if p.DblLeaf? then 2 else 1
  {
    if IsTop(p) then s.inodes[ino].addrs[TopIndex(p)]
    else
      var up := Ptr(s, ino, Above(p));
      if up != 0 && up in s.content then Words(s.content[up])[Index(p)] else 0
  }

  ghost predicate InodesOk(s: Store) {
    forall i :: 0 <= i < |s.inodes| ==> |s.inodes[i].addrs| == NDIRECT + 2
  }

  ghost predicate SlotOk(s: Store, o: Own)
    requires InodesOk(s)
  {
    o.ino < |s.inodes| && ValidPos(o.pos) ==>
      var b := Ptr(s, o.ino, o.pos); b != 0 ==> b in s.owner && s.owner[b] == o
  }

  ghost predicate OwnerOk(s: Store, b: nat)
    requires InodesOk(s)
  {
    b in s.owner ==>
      var o := s.owner[b];
      && o.ino < |s.inodes| && ValidPos(o.pos) && Ptr(s, o.ino, o.pos) == b
      && s.nmeta <= b < s.size && b in s.content
      && (if IsPointer(o.pos) then !s.content[b].Data? else !s.content[b].Ptrs?)
  }

  /**
   Block ownership, while the blocks in `extra` are marked in use but not yet (or no longer)
   in a slot: every slot's block belongs to that slot alone, and a bit is set exactly for
   metadata, slot blocks and `extra`.
   */
  ghost predicate Owned(s: Store, extra: set<nat>) {
    && InodesOk(s) && BitmapOk(s.bits) && 0 < s.nmeta <= s.size <= |s.bits| * BPB
    && (forall o: Own :: SlotOk(s, o))
    && (forall b: nat :: OwnerOk(s, b))
    && (forall b: nat :: b < s.size ==> (Bit(s.bits, b) <==> b < s.nmeta || b in s.owner || b in extra))
  }

  ghost predicate Inv(s: Store) { Owned(s, {}) }

  /** The byte at an offset of a file, 0 where no block is mapped. */
  ghost function FileByte(s: Store, ino: nat, off: nat): int
    requires InodesOk(s) && ino < |s.inodes| && off < MAXFILE * BSIZE
  {
    var b := Ptr(s, ino, LeafPos(off / BSIZE));
    if b != 0 && b in s.content then Bytes(s.content[b])[off % BSIZE] else 0
  }

  // ----- allocating a block and putting it in a slot -----

  /** balloc: marked in use and cleared. */
  ghost function Allocated(s: Store, b: nat): Store
    requires BitmapOk(s.bits) && b / BPB < |s.bits|
  {
    s.(bits := Marked(s.bits, b, true), content := s.content[b := Zero])
  }

  /** Blocks whose contents decide no slot do not matter to slots. */
  lemma PtrSame(s: Store, s': Store, ino: nat, p: Pos)
    requires InodesOk(s) && s'.inodes == s.inodes && ino < |s.inodes| && ValidPos(p)
    requires forall q :: ValidPos(q) && IsPointer(q) && Ptr(s, ino, q) != 0 ==>
               var b := Ptr(s, ino, q); (b in s'.content <==> b in s.content) && (b in s.content ==>
                   s'.content[b] == s.content[b])
    ensures Ptr(s', ino, p) == Ptr(s, ino, p)
    decreases if IsTop(p) then 0 else if p.DblLeaf? then 2 else 1
  {
    if !IsTop(p) {
      PtrSame(s, s', ino, Above(p));
      assert IsPointer(Above(p)) && ValidPos(Above(p));
    }
  }

  lemma AllocPtr(s: Store, b: nat, o: Own)
    requires Inv(s) && b < s.size && !Bit(s.bits, b) && o.ino < |s.inodes| && ValidPos(o.pos)
    ensures Ptr(Allocated(s, b), o.ino, o.pos) == Ptr(s, o.ino, o.pos) != b
  {
    forall q | ValidPos(q) && IsPointer(q) && Ptr(s, o.ino, q) != 0 ensures Ptr(s, o.ino, q) != b {
      assert SlotOk(s, Own(o.ino, q));
    }
    PtrSame(s, Allocated(s, b), o.ino, o.pos);
    assert SlotOk(s, o);
  }

  lemma AllocBits(s: Store, b: nat, c: nat)
    requires Inv(s) && b < s.size && !Bit(s.bits, b) && c < s.size
    ensures BitmapOk(Allocated(s, b).bits) && |Allocated(s, b).bits| == |s.bits|
    ensures Bit(Allocated(s, b).bits, c) <==> c < s.nmeta || c in s.owner || c in {b}
  {
    BitUpdated(s.bits, b, true, c);
  }

  lemma AllocKeeps(s: Store, b: nat)
    requires Inv(s) && b < s.size && !Bit(s.bits, b)
    ensures Owned(Allocated(s, b), {b}) && b !in s.owner && b >= s.nmeta
  {
    hide Bit, Marked;
    var s' := Allocated(s, b);
    forall o: Own ensures SlotOk(s', o) {
      if o.ino < |s.inodes| && ValidPos(o.pos) { AllocPtr(s, b, o); }
      assert SlotOk(s, o);
    }
    forall c: nat ensures OwnerOk(s', c) {
      assert OwnerOk(s, c);
      if c in s.owner { AllocPtr(s, b, s.owner[c]); }
    }
    AllocBits(s, b, b);
    forall c: nat | c < s.size ensures Bit(s'.bits, c) <==> c < s.nmeta || c in s.owner || c in {b} {
      AllocBits(s, b, c);
    }
  }

  /** Block b stored in slot o. */
  ghost function Installed(s: Store, o: Own, b: nat): Store
    requires InodesOk(s) && o.ino < |s.inodes| && ValidPos(o.pos)
    requires (!IsTop(o.pos) ==> Ptr(s, o.ino, Above(o.pos)) in s.content)
  {
    var s' := s.(owner := s.owner[b := o]);
    if IsTop(o.pos) then
      s'.(inodes := s.inodes[o.ino := s.inodes[o.ino].(addrs := s.inodes[o.ino].addrs[TopIndex(o.pos) := b])])
    else
      var up := Ptr(s, o.ino, Above(o.pos));
      s'.(content := s.content[up := Ptrs(Words(s.content[up])[Index(o.pos) := b])])
  }

  /** An empty slot that can be filled: its pointer block exists. */
  ghost predicate Fillable(s: Store, o: Own)
    requires InodesOk(s)
  {
    && o.ino < |s.inodes| && ValidPos(o.pos) && Ptr(s, o.ino, o.pos) == 0
    && (!IsTop(o.pos) ==> Ptr(s, o.ino, Above(o.pos)) != 0)
  }

  lemma UpOwned(s: Store, o: Own)
    requires Owned(s, {}) || exists e :: Owned(s, e)
    requires InodesOk(s) && o.ino < |s.inodes| && ValidPos(o.pos) && Ptr(s, o.ino, o.pos) != 0
    ensures var b := Ptr(s, o.ino, o.pos); b in s.owner && s.owner[b] == o && b in s.content
  {
    var b := Ptr(s, o.ino, o.pos);
    assert SlotOk(s, o) && OwnerOk(s, b);
  }

  lemma InstallPtr(s: Store, o: Own, b: nat, x: Own)
    requires Owned(s, {b}) && b !in s.owner && b != 0 && b in s.content && s.content[b] == Zero && Fillable(s, o)
    requires x.ino < |s.inodes| && ValidPos(x.pos)
    ensures !IsTop(o.pos) ==> Ptr(s, o.ino, Above(o.pos)) in s.content
    ensures Ptr(Installed(s, o, b), x.ino, x.pos) == if x == o then b else Ptr(s, x.ino, x.pos)
    decreases if IsTop(x.pos) then 0 else if x.pos.DblLeaf? then 2 else 1
  {
    if !IsTop(o.pos) { UpOwned(s, Own(o.ino, Above(o.pos))); }
    if !IsTop(x.pos) {
      var y := Own(x.ino, Above(x.pos));
      InstallPtr(s, o, b, y);
      if Ptr(s, y.ino, y.pos) != 0 { UpOwned(s, y); }
    }
  }

  lemma InstallKeeps(s: Store, o: Own, b: nat)
    requires Owned(s, {b}) && b !in s.owner && s.nmeta <= b < s.size && b in s.content && s.content[b] == Zero
    requires Fillable(s, o)
    ensures !IsTop(o.pos) ==> Ptr(s, o.ino, Above(o.pos)) in s.content
    ensures Inv(Installed(s, o, b))
  {
    InstallPtr(s, o, b, o);
    var s' := Installed(s, o, b);
    assert InodesOk(s');
    forall x: Own ensures SlotOk(s', x) {
      if x.ino < |s.inodes| && ValidPos(x.pos) { InstallPtr(s, o, b, x); }
      assert SlotOk(s, x);
    }
    forall c: nat ensures OwnerOk(s', c) {
      assert OwnerOk(s, c);
      if c in s'.owner { InstallPtr(s, o, b, s'.owner[c]); }
      if !IsTop(o.pos) { UpOwned(s, Own(o.ino, Above(o.pos))); }
    }
  }
}
