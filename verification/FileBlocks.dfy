/**
 The on-disk layout of a file, read off the disk without bmap's arithmetic: the direct pointers,
 then the words of the single-indirect block, then the words of every block the double-indirect
 block names, each in order. bmap's slots and a file's bytes are entries of these lists.
 */
module FileBlocks {
  import opened FsModel

  /** The block numbers in pointer block b, zeros where there is none. */
  ghost function Named(s: Store, b: nat): (w: seq<nat>)
    ensures |w| == NADDR
  {
    if b != 0 && b in s.content && s.content[b].Ptrs? && |s.content[b].words| == NADDR then s.content[b].words
    else seq(NADDR, _ => 0)
  }

  /** The block numbers in the pointer blocks of a list, one block after the other. */
  ghost function NamedByAll(s: Store, bs: seq<nat>): seq<nat> {
    if bs == [] then [] else Named(s, bs[0]) + NamedByAll(s, bs[1..])
  }

  /** A file's block numbers in file order, 0 for a block it does not have. */
  ghost function BlockList(s: Store, ino: nat): seq<nat>
    requires InodesOk(s) && ino < |s.inodes|
  {
    var addrs := s.inodes[ino].addrs;
    addrs[..NDIRECT] + Named(s, addrs[NDIRECT]) + NamedByAll(s, Named(s, addrs[NDIRECT + 1]))
  }

  /** The bytes of a block, zeros where there is none. */
  ghost function BlockBytes(s: Store, b: nat): (d: seq<int>)
    ensures |d| == BSIZE
  {
    if b != 0 && b in s.content && s.content[b].Data? && |s.content[b].bytes| == BSIZE then s.content[b].bytes
    else seq(BSIZE, _ => 0)
  }

  /** The bytes of a list of blocks, one after the other. */
  ghost function Joined(s: Store, bs: seq<nat>): seq<int> {
    if bs == [] then [] else BlockBytes(s, bs[0]) + Joined(s, bs[1..])
  }

  lemma {:induction false} NamedAt(s: Store, bs: seq<nat>, i: nat, j: nat)
    requires i < |bs| && j < NADDR
    ensures |NamedByAll(s, bs)| == |bs| * NADDR && i * NADDR + j < |bs| * NADDR
    ensures NamedByAll(s, bs)[i * NADDR + j] == Named(s, bs[i])[j]
  {
    if |bs| > 1 { NamedAt(s, bs[1..], if i > 0 then i - 1 else 0, j); }
  }

  lemma {:induction false} JoinedAt(s: Store, bs: seq<nat>, i: nat, j: nat)
    requires i < |bs| && j < BSIZE
    ensures |Joined(s, bs)| == |bs| * BSIZE && i * BSIZE + j < |bs| * BSIZE
    ensures Joined(s, bs)[i * BSIZE + j] == BlockBytes(s, bs[i])[j]
  {
    if |bs| > 1 { JoinedAt(s, bs[1..], if i > 0 then i - 1 else 0, j); }
  }

  /** A slot below a pointer block holds a word of it. */
  lemma SlotWord(s: Store, ino: nat, p: Pos)
    requires InodesOk(s) && ino < |s.inodes| && ValidPos(p) && !IsTop(p)
    ensures Ptr(s, ino, p) == Named(s, Ptr(s, ino, Above(p)))[Index(p)]
  {
  }

  /** Block bn of a file, where bmap looks for it, is entry bn of the file's block list. */
  lemma SlotIsEntry(s: Store, ino: nat, bn: nat)
    requires InodesOk(s) && ino < |s.inodes| && bn < MAXFILE
    ensures |BlockList(s, ino)| == MAXFILE && BlockList(s, ino)[bn] == Ptr(s, ino, LeafPos(bn))
  {
    var addrs := s.inodes[ino].addrs;
    var mids := Named(s, addrs[NDIRECT + 1]);
    NamedAt(s, mids, 0, 0);
    var n := bn - NDIRECT;
    if n < 0 {
      assert LeafPos(bn) == Direct(bn);
    } else if n < NADDR {
      SlotWord(s, ino, IndLeaf(n));
    } else {
      var i, j := (n - NADDR) / NADDR, (n - NADDR) % NADDR;
      SlotWord(s, ino, DblMid(i));
      SlotWord(s, ino, DblLeaf(i, j));
      NamedAt(s, mids, i, j);
    }
  }

  /** A file's byte at an offset is that byte of its blocks laid end to end. */
  lemma ByteIsEntry(s: Store, ino: nat, off: nat)
    requires InodesOk(s) && ino < |s.inodes| && off < MAXFILE * BSIZE
    ensures |Joined(s, BlockList(s, ino))| == MAXFILE * BSIZE
    ensures Joined(s, BlockList(s, ino))[off] == FileByte(s, ino, off)
  {
    hide BlockList, Ptr, LeafPos;
    SlotIsEntry(s, ino, off / BSIZE);
    JoinedAt(s, BlockList(s, ino), off / BSIZE, off % BSIZE);
  }
}
