/** Any run of reads and writes against plain byte sequences. */
module FlatFiles {
  import opened FsModel
  import opened Fs
  import opened FileIo

  /** A file as the bytes below its size. */
  ghost function File(s: Store, ino: nat): seq<int>
    requires InodesOk(s) && ino < |s.inodes|
  {
    seq(s.inodes[ino].size, o => if 0 <= o < MAXFILE * BSIZE then FileByte(s, ino, o) else 0)
  }

  ghost function Files(s: Store): seq<seq<int>>
    requires InodesOk(s)
  {
    seq(|s.inodes|, i requires 0 <= i < |s.inodes| => File(s, i))
  }

  datatype Op = Write(ino: nat, off: nat, bytes: seq<int>) | Read(ino: nat, off: nat, n: nat)

  predicate ValidOp(op: Op, files: nat) {
    op.ino < files && op.off < UINTMOD && (if op.Write? then |op.bytes| else op.n) < UINTMOD
  }

  /** d over f from off on. */
  ghost function Splice(f: seq<int>, off: nat, d: seq<int>): seq<int>
    requires off <= |f|
  {
    f[..off] + d + if off + |d| <= |f| then f[off + |d|..] else []
  }

  ghost function FlatStep(files: seq<seq<int>>, op: Op): (r: seq<seq<int>>)
    ensures |r| == |files|
  {
    if op.Read? || op.ino >= |files| || WriteRefused(|files[op.ino]|, op.off, |op.bytes|) then files
    else files[op.ino := Splice(files[op.ino], op.off, op.bytes)]
  }

  /** What a read answers: the bytes asked for that there are, none if the end of the range wraps around. */
  ghost function FlatRead(files: seq<seq<int>>, op: Op): seq<int> {
    if op.Write? || op.ino >= |files| || op.off > |files[op.ino]| || op.off + op.n >= UINTMOD then []
    else if op.off + op.n <= |files[op.ino]| then files[op.ino][op.off..op.off + op.n]
    else files[op.ino][op.off..]
  }

  ghost function FlatRun(files: seq<seq<int>>, ops: seq<Op>): (r: seq<seq<int>>)
    ensures |r| == |files|
  {
    if ops == [] then files else FlatStep(FlatRun(files, ops[..|ops| - 1]), ops[|ops| - 1])
  }

  /** Files as the kernel keeps them; those in `whole` have no hole below their size. */
  ghost predicate Sound(s: Store, whole: set<nat>) {
    && Inv(s)
    && (forall i: nat :: i < |s.inodes| ==> s.inodes[i].size <= MAXFILE * BSIZE && (i in whole ==> NoHoles(s, i)))
  }

  /** The files that some operation reads. */
  ghost function ReadBy(ops: seq<Op>): set<nat> {
    set k | 0 <= k < |ops| && ops[k].Read? :: ops[k].ino
  }

  lemma WroteFile(s: Store, s': Store, ino: nat, off: nat, d: seq<int>, i: nat)
    requires Wrote(s, s', ino, off, d) && i < |s.inodes| && off <= s.inodes[ino].size
    requires s.inodes[i].size <= MAXFILE * BSIZE && off + |d| <= MAXFILE * BSIZE
    ensures File(s', i) == if i == ino then Splice(File(s, i), off, d) else File(s, i)
  {
    hide FileByte, NoHoles;
    var f := if i == ino then Splice(File(s, i), off, d) else File(s, i);
    assert |File(s', i)| == |f|;
    forall o | 0 <= o < |f| ensures File(s', i)[o] == f[o] {
      assert OverlaidAt(s, s', ino, off, d, i, o);
    }
  }

  /** writei is the flat write. */
  lemma WroteFiles(s: Store, s': Store, whole: set<nat>, ino: nat, off: nat, d: seq<int>)
    requires Sound(s, whole) && Inv(s') && Wrote(s, s', ino, off, d) && !WriteRefused(s.inodes[ino].size, off, |d|)
    ensures Sound(s', whole) && Files(s') == FlatStep(Files(s), Write(ino, off, d))
  {
    hide Inv, File, NoHoles, FileByte, Splice;
    SizeIs(s, ino);
    forall i: nat | i < |s.inodes| ensures Files(s')[i] == FlatStep(Files(s), Write(ino, off, d))[i] {
      WroteFile(s, s', ino, off, d, i);
    }
  }

  lemma SizeIs(s: Store, ino: nat)
    requires InodesOk(s) && ino < |s.inodes|
    ensures |File(s, ino)| == s.inodes[ino].size
  {
  }

  lemma SoundOk(s: Store, whole: set<nat>)
    requires Sound(s, whole)
    ensures InodesOk(s) && Inv(s)
  {
  }

  /** readi is the flat read. */
  lemma ReadFile(s: Store, whole: set<nat>, ino: nat, off: nat, n: nat, dst: seq<int>)
    requires Sound(s, whole) && ino < |s.inodes| && |dst| == ReadLength(s.inodes[ino].size, off, n)
    requires (dst != [] ==> Reads(s, ino, off, dst))
    ensures dst == FlatRead(Files(s), Read(ino, off, n))
  {
    hide Inv, NoHoles, FileByte, ReadLength;
    SoundOk(s, whole);
    var f := Files(s)[ino];
    assert f == File(s, ino);
    if dst != [] { assert f[off..off + |dst|] == dst; }
  }

  /**
   Any run of reads and writes that does not run out of blocks: files and answers are the flat
   model's. Only a file that is read must have no holes to begin with.
   */
  method Replay(fs: Fs, ops: seq<Op>) returns (out: seq<seq<int>>, panic: bool)
    requires Sound(fs.Now(), ReadBy(ops)) && forall k :: 0 <= k < |ops| ==> ValidOp(ops[k], |fs.inodes|)
    modifies fs
    ensures Inv(fs.Now())
    ensures !panic ==> Sound(fs.Now(), ReadBy(ops)) && |out| == |ops|
    ensures !panic ==> Files(fs.Now()) == FlatRun(old(Files(fs.Now())), ops)
    ensures !panic ==> forall k :: 0 <= k < |ops| ==>
              out[k] == FlatRead(FlatRun(old(Files(fs.Now())), ops[..k]), ops[k])
    ensures panic ==> forall b: nat :: b < fs.size ==> Bit(fs.bits, b)
  {
    hide Inv, Files, Sound, Wrote, WroteTo, Covering, FlatRead, FlatRun, FlatStep;
    hide NoHoles, Bit, Overlaid, Reads, WriteLogs, Grown;
    ghost var whole := ReadBy(ops);
    SoundOk(fs.Now(), whole);
    ghost var files, count := Files(fs.Now()), |fs.inodes|;
    out, panic := [], false;
    RunNone(files);
    assert ops[..0] == [];
    while |out| < |ops|
      invariant |out| <= |ops| && Sound(fs.Now(), whole) && |fs.inodes| == count
      invariant InodesOk(fs.Now()) && Inv(fs.Now())
      invariant Files(fs.Now()) == FlatRun(files, ops[..|out|])
      invariant forall k :: 0 <= k < |out| ==> out[k] == FlatRead(FlatRun(files, ops[..k]), ops[k])
    {
      var op := ops[|out|];
      ghost var s := fs.Now();
      FilesAre(s);
      RunMore(files, ops, |out|);
      match op {
        case Write(ino, off, bytes) =>
          SizeFacts(s, whole, ino);
          var r, tot := Writei(fs, ino, off, bytes, |bytes|);
          if r.Panic? { return out, true; }
          if r.Done? {
            assert Prefix(bytes, |bytes|) == bytes;
            SizeKept(s, fs.Now(), ino, off, bytes, tot);
            WroteFiles(s, fs.Now(), whole, ino, off, bytes);
            Same(s, fs.Now(), ino, off, bytes);
          } else {
            RefusedStep(s, op);
          }
          WriteAnswer(files, ops, |out|);
          out := out + [[]];
        case Read(ino, off, n) =>
          SizeFacts(s, whole, ino);
          assert ino in whole;
          var tot, dst := Readi(fs, ino, off, n, n);
          ReadFile(s, whole, ino, off, n, dst);
          ReadStep(s, op);
          out := out + [dst];
      }
    }
    assert ops[..|ops|] == ops;
  }

  lemma WriteAnswer(files: seq<seq<int>>, ops: seq<Op>, k: nat)
    requires k < |ops| && ops[k].Write?
    ensures FlatRead(FlatRun(files, ops[..k]), ops[k]) == []
  {
  }

  lemma FilesAre(s: Store)
    requires InodesOk(s)
    ensures |Files(s)| == |s.inodes|
  {
  }

  lemma SizeFacts(s: Store, whole: set<nat>, ino: nat)
    requires Sound(s, whole) && ino < |s.inodes|
    ensures InodesOk(s) && s.inodes[ino].size <= MAXFILE * BSIZE && (ino in whole ==> NoHoles(s, ino))
  {
  }

  lemma Same(s: Store, s': Store, ino: nat, off: nat, d: seq<int>)
    requires Wrote(s, s', ino, off, d)
    ensures |s'.inodes| == |s.inodes| && InodesOk(s')
  {
  }

  lemma RefusedStep(s: Store, op: Op)
    requires InodesOk(s) && op.Write? && op.ino < |s.inodes| && WriteRefused(s.inodes[op.ino].size, op.off, |op.bytes|)
    ensures FlatStep(Files(s), op) == Files(s)
  {
  }

  lemma ReadStep(s: Store, op: Op)
    requires InodesOk(s) && op.Read?
    ensures FlatStep(Files(s), op) == Files(s)
  {
  }

  lemma RunNone(files: seq<seq<int>>)
    ensures FlatRun(files, []) == files
  {
  }

  lemma RunMore(files: seq<seq<int>>, ops: seq<Op>, k: nat)
    requires k < |ops|
    ensures FlatRun(files, ops[..k + 1]) == FlatStep(FlatRun(files, ops[..k]), ops[k])
  {
    assert ops[..k + 1][..k] == ops[..k];
  }
}
