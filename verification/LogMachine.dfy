/**
 The redo log as a state machine: one action per disk write or lock-protected
 section, with a crash possible between any two of them. A buffer is kept with
 its 32-bit reference count, so bget may take it for another block exactly when
 the count is zero, whoever still points to it. A process that uses a buffer does
 so in four steps: bget, the sleep lock, the release of that lock, and the
 decrement in brelse. The log's own uses (install_trans, write_log, write_head)
 are one step each and do not wait for the sleep lock, which only adds runs: such
 a step holds only blocks whose count is right, or runs in recovery, when there is
 no other process.
 */
module LogMachine {
  import opened Wrappers

  const WORDS: nat := 256        // 32-bit words in a 1024-byte block
  const FSSIZE: nat := 100000    // blocks on the disk
  const LOGSTART: nat := 2       // the header block; slot i follows at LOGSTART + 1 + i
  const NLOG: nat := 30          // blocks in the log area, header included
  const LOGSIZE: nat := 30       // capacity of the header's block array
  const MAXOPBLOCKS: nat := 10
  const REFMOD: nat := 0x1_0000_0000

  datatype Block = Block(words: seq<int>)

  function ZeroBlock(): Block { Block(seq(WORDS, _ => 0)) }

  type Disk = d: seq<Block> | |d| == FSSIZE witness seq(FSSIZE, _ => ZeroBlock())

  /** A block that is not part of the log area. */
  predicate IsHome(b: int) {
    0 <= b < FSSIZE && !(LOGSTART <= b < LOGSTART + NLOG)
  }

  function Slot(i: int): int { LOGSTART + 1 + i }

  /** The block numbers a header block records: a count followed by that many entries. */
  function Header(b: Block): seq<int> {
    if |b.words| == WORDS && 0 <= b.words[0] <= LOGSIZE then b.words[1..1 + b.words[0]] else []
  }

  /** What write_head leaves in the header block: words past the last entry keep their value. */
  function WithHeader(b: Block, lh: seq<int>): (r: Block)
    requires |lh| <= LOGSIZE && |b.words| == WORDS
    ensures Header(r) == lh && |r.words| == WORDS && r.words[0] == |lh|
  {
    Block([|lh|] + lh + b.words[1 + |lh|..])
  }

  ghost predicate WellFormed(lh: seq<int>) {
    && |lh| < NLOG
    && (forall i :: 0 <= i < |lh| ==> IsHome(lh[i]))
    && (forall i, j :: 0 <= i < j < |lh| ==> lh[i] != lh[j])
  }

  /** A header block that read_head can load. */
  ghost predicate GoodHeader(b: Block) {
    |b.words| == WORDS && 0 <= b.words[0] < NLOG && WellFormed(Header(b))
  }

  /** The position of block b in a header, or -1. */
  ghost function Entry(lh: seq<int>, b: int): (i: int)
    ensures -1 <= i < |lh|
    ensures i >= 0 ==> lh[i] == b
    ensures i < 0 ==> b !in lh
  {
    if b in lh then var i :| 0 <= i < |lh| && lh[i] == b; i else -1
  }

  /** What home block b holds once recovery of disk d has completed. */
  ghost function AfterRecovery(d: Disk, b: int): Block
    requires IsHome(b)
  {
    var i := Entry(Header(d[LOGSTART]), b);
    if i < 0 then d[b] else d[Slot(i)]
  }

  /** One write made by a file-system operation. */
  datatype Update = Update(op: nat, block: int, data: Block)

  /** Home contents after a sequence of updates, and after a sequence of groups. */
  ghost function Contents(d: Disk, us: seq<Update>): Disk {
    if us == [] then d
    else
      var u := us[|us| - 1];
      var prev := Contents(d, us[..|us| - 1]);
      if IsHome(u.block) then prev[u.block := u.data] else prev
  }

  ghost function ContentsAll(d: Disk, groups: seq<seq<Update>>): Disk {
    if groups == [] then d
    else Contents(ContentsAll(d, groups[..|groups| - 1]), groups[|groups| - 1])
  }

  /** The updates of one operation, in order. */
  ghost function OpUpdates(us: seq<Update>, op: nat): seq<Update> {
    if us == [] then []
    else
      var rest := OpUpdates(us[..|us| - 1], op);
      if us[|us| - 1].op == op then rest + [us[|us| - 1]] else rest
  }

  datatype Buf = Buf(data: Block, refcnt: nat, valid: bool)

  /** Where a process is between bget and the end of brelse. */
  datatype Stage = Wait | Own | Leave

  /** A process's pointer to a buffer: the block it asked for, and the block the buffer now stands for. */
  datatype Hold = Hold(want: int, at: int, stage: Stage)

  /** An outstanding operation and the distinct blocks it has logged. */
  datatype Op = Op(id: nat, logged: set<int>)

  datatype Phase =
    | Recover(tail: nat)      // recover_from_log: install_trans is at entry tail
    | RecoverClear            // recover_from_log: about to write the empty header
    | Running                 // no commit in progress
    | CopyLog(tail: nat)      // commit: write_log is at entry tail
    | WriteHead               // commit: about to write the header
    | Install(tail: nat)      // commit: install_trans is at entry tail
    | ClearHead               // commit: about to write the empty header

  /**
   disk, cache, holds, lh, phase and ops are the system; the rest is history:
   the contents at first boot, the committed groups, the group being built, every
   update ever issued, the operation ids used, the blocks this boot found in the
   header, and whether a logged write ever went to a buffer that had been taken away.
   */
  datatype State = State(
    disk: Disk, cache: map<int, Buf>, holds: map<nat, Hold>, lh: seq<int>, phase: Phase, ops: seq<Op>,
    init: Disk, committed: seq<seq<Update>>, current: seq<Update>, history: seq<Update>,
    seen: set<nat>, replayed: set<int>, lost: bool)

  datatype Action =
    | Crash
    | InstallBlock | InstallDone | ClearHeader
    | Begin(op: nat) | LogWrite(h: nat, k: nat, data: Block) | End(k: nat)
    | CopyBlock | CopyDone | CommitHeader
    | Hit(h: nat, block: int) | Miss(h: nat, block: int, victim: Option<int>)
    | Lock(h: nat) | Unlock(h: nat) | Drop(h: nat)

  // ----- buffer cache -----

  predicate Live(c: map<int, Buf>, b: int) { b in c && c[b].valid }

  /** The data bread returns. */
  function Bread(s: State, b: int): Block
    requires 0 <= b < FSSIZE
  {
    if Live(s.cache, b) then s.cache[b].data else s.disk[b]
  }

  function Refcnt(c: map<int, Buf>, b: int): nat {
    if b in c then c[b].refcnt else 0
  }

  /** 32-bit counter arithmetic. */
  function Incr(r: nat): nat { if r == REFMOD - 1 then 0 else r + 1 }

  function Decr(r: nat): nat { if r == 0 then REFMOD - 1 else r - 1 }

  /** bread followed by brelse: the block ends up cached and its count is as before. */
  function Touch(c: map<int, Buf>, d: Disk, b: int): map<int, Buf>
    requires 0 <= b < FSSIZE
  {
    if Live(c, b) then c else c[b := Buf(d[b], Refcnt(c, b), true)]
  }

  /** Pointers to v's buffer once that buffer stands for b. */
  function Moved(holds: map<nat, Hold>, v: int, b: int): map<nat, Hold> {
    map h | h in holds :: if holds[h].at == v then holds[h].(at := b) else holds[h]
  }

  /** The processes that point to b's buffer. */
  function HeldBy(holds: map<nat, Hold>, b: int): set<nat> {
    set h | h in holds && holds[h].at == b
  }

  predicate LockFree(s: State, b: int) {
    forall h :: h in s.holds && s.holds[h].at == b ==> !s.holds[h].stage.Own?
  }

  // ----- steps -----

  /** The panic of log_write: the test precedes log absorption. */
  predicate TooBig(s: State) {
    |s.lh| >= LOGSIZE || |s.lh| >= NLOG - 1
  }

  /** There are far fewer than 2^32 pointers to buffers at a time. */
  predicate CanHold(s: State, h: nat, b: int) {
    h !in s.holds && |s.holds| + 2 < REFMOD && 0 <= b < FSSIZE
  }

  ghost predicate Enabled(s: State, a: Action) {
    match a
    case Crash => true
    case InstallBlock =>
      (s.phase.Recover? || s.phase.Install?) && s.phase.tail < |s.lh| < NLOG && IsHome(s.lh[s.phase.tail])
    case InstallDone => (s.phase.Recover? || s.phase.Install?) && s.phase.tail >= |s.lh|
    case ClearHeader => (s.phase.RecoverClear? || s.phase.ClearHead?) && |Bread(s, LOGSTART).words| == WORDS
    case Begin(op) => s.phase.Running? && op !in s.seen && |s.lh| + (|s.ops| + 1) * MAXOPBLOCKS <= LOGSIZE
    case LogWrite(h, k, data) =>
      && s.phase.Running? && k < |s.ops| && !TooBig(s)
      && h in s.holds && s.holds[h].stage.Own? && IsHome(s.holds[h].at) && IsHome(s.holds[h].want)
    case End(k) => s.phase.Running? && k < |s.ops|
    case CopyBlock =>
      s.phase.CopyLog? && s.phase.tail < |s.lh| < NLOG && 0 <= s.lh[s.phase.tail] < FSSIZE
    case CopyDone => s.phase.CopyLog? && s.phase.tail >= |s.lh|
    case CommitHeader => s.phase.WriteHead? && |s.lh| <= LOGSIZE && |Bread(s, LOGSTART).words| == WORDS
    case Hit(h, b) => CanHold(s, h, b) && b in s.cache
    case Miss(h, b, None) => CanHold(s, h, b) && b !in s.cache
    case Miss(h, b, Some(v)) => CanHold(s, h, b) && b !in s.cache && v in s.cache && s.cache[v].refcnt == 0
    case Lock(h) =>
      h in s.holds && s.holds[h].stage.Wait? && 0 <= s.holds[h].at < FSSIZE && LockFree(s, s.holds[h].at)
    case Unlock(h) => h in s.holds && s.holds[h].stage.Own?
    case Drop(h) => h in s.holds && s.holds[h].stage.Leave?
  }

  /** Power loss and restart: only the disk survives, and read_head loads the header. */
  ghost function Restart(s: State): State {
    var lh := Header(s.disk[LOGSTART]);
    s.(cache := map[], holds := map[], lh := lh, phase := Recover(0), ops := [], current := [],
       replayed := set b | b in lh)
  }

  /** One turn of install_trans: copy slot to home, write it, bunpin, release. */
  ghost function InstallNext(s: State): State
    requires Enabled(s, InstallBlock)
  {
    var t := s.phase.tail;
    var b := s.lh[t];
    var data := Bread(s, Slot(t));
    var c := Touch(s.cache, s.disk, Slot(t));
    s.(disk := s.disk[b := data],
       cache := c[b := Buf(data, Decr(Refcnt(c, b)), true)],
       phase := s.phase.(tail := t + 1))
  }

  ghost function ClearNext(s: State): State
    requires Enabled(s, ClearHeader)
  {
    var head := WithHeader(Bread(s, LOGSTART), []);
    s.(disk := s.disk[LOGSTART := head],
       cache := s.cache[LOGSTART := Buf(head, Refcnt(s.cache, LOGSTART), true)],
       phase := Running)
  }

  /**
   The owner of the sleep lock changes the data and calls log_write; a new entry pins the
   buffer. What is logged is the block the buffer stands for, what was meant is another
   block if bget has taken the buffer away in between.
   */
  ghost function LogWriteNext(s: State, h: nat, k: nat, data: Block): State
    requires Enabled(s, LogWrite(h, k, data))
  {
    var op := s.ops[k];
    var b := s.holds[h].at;
    var u := Update(op.id, s.holds[h].want, data);
    var added := b !in s.lh;
    var r := Refcnt(s.cache, b);
    s.(cache := s.cache[b := Buf(data, if added then Incr(r) else r, Live(s.cache, b))],
       lh := if added then s.lh + [b] else s.lh,
       ops := s.ops[k := Op(op.id, op.logged + {b})],
       current := s.current + [u], history := s.history + [u],
       lost := s.lost || s.holds[h].want != b || !Live(s.cache, b))
  }

  /** end_op: the last operation out starts the commit, which does nothing if no block was logged. */
  ghost function EndNext(s: State, k: nat): State
    requires Enabled(s, End(k))
  {
    var ops := s.ops[..k] + s.ops[k + 1..];
    s.(ops := ops, phase := if ops == [] && s.lh != [] then CopyLog(0) else Running)
  }

  ghost function CopyNext(s: State): State
    requires Enabled(s, CopyBlock)
  {
    var t := s.phase.tail;
    var data := Bread(s, s.lh[t]);
    var c := Touch(s.cache, s.disk, s.lh[t]);
    s.(disk := s.disk[Slot(t) := data],
       cache := c[Slot(t) := Buf(data, Refcnt(c, Slot(t)), true)],
       phase := CopyLog(t + 1))
  }

  ghost function CommitNext(s: State): State
    requires Enabled(s, CommitHeader)
  {
    var head := WithHeader(Bread(s, LOGSTART), s.lh);
    s.(disk := s.disk[LOGSTART := head],
       cache := s.cache[LOGSTART := Buf(head, Refcnt(s.cache, LOGSTART), true)],
       phase := Install(0), committed := s.committed + [s.current], current := [])
  }

  /** The first header entry whose block has not been written home. */
  ghost function FirstDirty(s: State): nat {
    match s.phase
    case Running => 0
    case CopyLog(_) => 0
    case WriteHead => 0
    case Install(t) => t
    case _ => |s.lh|
  }

  /** Blocks whose cached data is newer than the disk. */
  ghost predicate Dirty(s: State, b: int) {
    Entry(s.lh, b) >= FirstDirty(s)
  }

  /** bget of a cached block: one reference more. */
  ghost function HitNext(s: State, h: nat, b: int): State
    requires Enabled(s, Hit(h, b))
  {
    s.(cache := s.cache[b := s.cache[b].(refcnt := Incr(s.cache[b].refcnt))], holds := s.holds[h := Hold(b, b, Wait)])
  }

  /** bget of a block that is not cached, in an unused buffer or in that of an unreferenced block. */
  ghost function MissNext(s: State, h: nat, b: int, victim: Option<int>): State
    requires Enabled(s, Miss(h, b, victim))
  {
    match victim
    case None => s.(cache := s.cache[b := Buf(ZeroBlock(), 1, false)], holds := s.holds[h := Hold(b, b, Wait)])
    case Some(v) =>
      s.(cache := (s.cache - {v})[b := Buf(s.cache[v].data, 1, false)],
         holds := Moved(s.holds, v, b)[h := Hold(b, b, Wait)],
         lost := s.lost || (Dirty(s, v) && !s.phase.Install?))
  }

  /** acquiresleep, and bread's disk read if the buffer is not valid. */
  ghost function LockNext(s: State, h: nat): State
    requires Enabled(s, Lock(h))
  {
    s.(cache := Touch(s.cache, s.disk, s.holds[h].at), holds := s.holds[h := s.holds[h].(stage := Own)])
  }

  /** The second half of brelse. */
  ghost function DropNext(s: State, h: nat): State
    requires Enabled(s, Drop(h))
  {
    var b := s.holds[h].at;
    s.(cache := if b in s.cache then s.cache[b := s.cache[b].(refcnt := Decr(s.cache[b].refcnt))] else s.cache,
       holds := s.holds - {h})
  }

  ghost function Next(s: State, a: Action): State
    requires Enabled(s, a)
  {
    match a
    case Crash => Restart(s)
    case InstallBlock => InstallNext(s)
    case InstallDone => s.(lh := [], phase := if s.phase.Recover? then RecoverClear else ClearHead)
    case ClearHeader => ClearNext(s)
    case Begin(op) => s.(ops := s.ops + [Op(op, {})], seen := s.seen + {op})
    case LogWrite(h, k, data) => LogWriteNext(s, h, k, data)
    case End(k) => EndNext(s, k)
    case CopyBlock => CopyNext(s)
    case CopyDone => s.(phase := WriteHead)
    case CommitHeader => CommitNext(s)
    case Hit(h, b) => HitNext(s, h, b)
    case Miss(h, b, victim) => MissNext(s, h, b, victim)
    case Lock(h) => LockNext(s, h)
    case Unlock(h) => s.(holds := s.holds[h := s.holds[h].(stage := Leave)])
    case Drop(h) => DropNext(s, h)
  }

  ghost predicate CanRun(s: State, run: seq<Action>)
    decreases |run|
  {
    run == [] || (Enabled(s, run[0]) && CanRun(Next(s, run[0]), run[1..]))
  }

  ghost function Run(s: State, run: seq<Action>): State
    requires CanRun(s, run)
    decreases |run|
  {
    if run == [] then s else Run(Next(s, run[0]), run[1..])
  }

  /** Power-on with a disk whose log is well formed. */
  ghost predicate Boot(s: State) {
    && GoodHeader(s.disk[LOGSTART])
    && s.lh == Header(s.disk[LOGSTART])
    && s.phase == Recover(0)
    && s.cache == map[] && s.holds == map[] && s.ops == [] && s.committed == [] && s.current == [] && s.history == []
    && s.seen == {} && s.replayed == (set b | b in s.lh) && !s.lost
    && forall b :: IsHome(b) ==> s.init[b] == AfterRecovery(s.disk, b)
  }

  // ----- the disk-level invariant: it needs nothing about reference counts -----

  ghost predicate Installed(d: Disk, lh: seq<int>, t: nat) {
    t <= |lh| < NLOG && forall i :: 0 <= i < t ==> 0 <= lh[i] < FSSIZE && d[lh[i]] == d[Slot(i)]
  }

  /** A valid cached block that is not dirty equals the disk. */
  ghost predicate CoherentAt(s: State, b: int) {
    b in s.cache ==> 0 <= b < FSSIZE && (Dirty(s, b) || (s.cache[b].valid ==> s.cache[b].data == s.disk[b]))
  }

  ghost predicate Coherent(s: State) {
    forall b :: CoherentAt(s, b)
  }

  /** Which header is on the disk, and which entries are home, in each phase. */
  ghost predicate PhaseInv(s: State) {
    var hdr := Header(s.disk[LOGSTART]);
    && (!s.phase.Running? ==> s.ops == [])
    && match s.phase
       case Recover(t) => hdr == s.lh && Installed(s.disk, hdr, t)
       case RecoverClear => s.lh == [] && Installed(s.disk, hdr, |hdr|)
       case Running => hdr == []
       case CopyLog(t) => hdr == [] && t <= |s.lh|
       case WriteHead => hdr == []
       case Install(t) => hdr == s.lh && Installed(s.disk, hdr, t)
       case ClearHead => s.lh == [] && Installed(s.disk, hdr, |hdr|)
  }

  ghost predicate DiskInv(s: State) {
    GoodHeader(s.disk[LOGSTART]) && WellFormed(s.lh) && Coherent(s) && PhaseInv(s)
  }

  ghost predicate SameRecovery(d: Disk, e: Disk) {
    forall b :: IsHome(b) ==> AfterRecovery(d, b) == AfterRecovery(e, b)
  }

  lemma EntryOf(lh: seq<int>, i: nat)
    requires WellFormed(lh) && i < |lh|
    ensures Entry(lh, lh[i]) == i
  {
  }

  /** Copying slot t to its home leaves the recovered contents alone. */
  lemma CopyHome(d: Disk, t: nat)
    requires WellFormed(Header(d[LOGSTART])) && t < |Header(d[LOGSTART])|
    requires Installed(d, Header(d[LOGSTART]), t)
    ensures var lh := Header(d[LOGSTART]); var d' := d[lh[t] := d[Slot(t)]];
            d'[LOGSTART] == d[LOGSTART] && Installed(d', lh, t + 1) && SameRecovery(d, d')
  {
    var lh := Header(d[LOGSTART]);
    var d' := d[lh[t] := d[Slot(t)]];
    assert d'[LOGSTART] == d[LOGSTART];
    forall b | IsHome(b) ensures AfterRecovery(d, b) == AfterRecovery(d', b) {
      EntryOf(lh, t);
      assert forall i :: 0 <= i < |lh| ==> d'[Slot(i)] == d[Slot(i)];
    }
  }

  /** The log area is never dirty. */
  lemma LogAreaIsClean(s: State, b: int)
    requires DiskInv(s) && LOGSTART <= b < LOGSTART + NLOG
    ensures !Dirty(s, b) && Bread(s, b) == s.disk[b]
  {
    assert b !in s.lh && CoherentAt(s, b);
  }

  /** Installing entry t makes exactly its block clean. */
  lemma InstallDirty(s: State, s': State, b: int)
    requires WellFormed(s.lh) && (s.phase.Recover? || s.phase.Install?) && s.phase.tail < |s.lh|
    requires s'.lh == s.lh && s'.phase == s.phase.(tail := s.phase.tail + 1)
    ensures Dirty(s', b) <==> Dirty(s, b) && b != s.lh[s.phase.tail]
    ensures s.phase.Install? ==> Dirty(s, s.lh[s.phase.tail])
  {
    EntryOf(s.lh, s.phase.tail);
  }

  lemma InstallCoherentAt(s: State, b: int)
    requires DiskInv(s) && Enabled(s, InstallBlock)
    ensures CoherentAt(InstallNext(s), b)
  {
    InstallDirty(s, InstallNext(s), b);
    assert CoherentAt(s, b) && CoherentAt(s, Slot(s.phase.tail));
    hide Dirty;
  }

  lemma InstallCoherent(s: State)
    requires DiskInv(s) && Enabled(s, InstallBlock)
    ensures Coherent(InstallNext(s))
  {
    hide DiskInv, Enabled, InstallNext, CoherentAt;
    forall b ensures CoherentAt(InstallNext(s), b) { InstallCoherentAt(s, b); }
  }

  lemma InstallKeeps(s: State)
    requires DiskInv(s) && Enabled(s, InstallBlock)
    ensures DiskInv(InstallNext(s)) && SameRecovery(s.disk, InstallNext(s).disk)
  {
    LogAreaIsClean(s, Slot(s.phase.tail));
    CopyHome(s.disk, s.phase.tail);
    InstallCoherent(s);
  }

  lemma ClearKeeps(s: State)
    requires DiskInv(s) && Enabled(s, ClearHeader)
    ensures DiskInv(ClearNext(s)) && SameRecovery(s.disk, ClearNext(s).disk)
  {
    forall b ensures CoherentAt(ClearNext(s), b) { assert CoherentAt(s, b); }
  }

  lemma LogWriteKeeps(s: State, h: nat, k: nat, data: Block)
    requires DiskInv(s) && Enabled(s, LogWrite(h, k, data))
    ensures DiskInv(LogWriteNext(s, h, k, data)) && LogWriteNext(s, h, k, data).disk == s.disk
  {
    var s' := LogWriteNext(s, h, k, data);
    forall c ensures CoherentAt(s', c) { assert CoherentAt(s, c); }
  }

  lemma CopyKeeps(s: State)
    requires DiskInv(s) && Enabled(s, CopyBlock)
    ensures DiskInv(CopyNext(s)) && SameRecovery(s.disk, CopyNext(s).disk)
  {
    assert CopyNext(s).disk[LOGSTART] == s.disk[LOGSTART];
    forall b ensures CoherentAt(CopyNext(s), b) { assert CoherentAt(s, b) && CoherentAt(s, s.lh[s.phase.tail]); }
  }

  lemma CommitKeeps(s: State)
    requires DiskInv(s) && Enabled(s, CommitHeader)
    ensures DiskInv(CommitNext(s))
  {
    forall b ensures CoherentAt(CommitNext(s), b) { assert CoherentAt(s, b); }
  }

  lemma RestartKeeps(s: State)
    requires DiskInv(s)
    ensures DiskInv(Restart(s))
  {
  }

  /** b's buffer in s' holds nothing new. */
  ghost predicate SameBuf(s: State, s': State, b: int) {
    b in s'.cache ==> 0 <= b < FSSIZE && (s'.cache[b].valid ==>
      (Live(s.cache, b) && s'.cache[b].data == s.cache[b].data) || s'.cache[b].data == s.disk[b])
  }

  /** Steps that write no block and change nothing dirty. */
  lemma QuietKeeps(s: State, s': State)
    requires DiskInv(s) && s'.disk == s.disk && PhaseInv(s')
    requires (s'.lh == s.lh && FirstDirty(s') == FirstDirty(s)) || (s'.lh == [] && FirstDirty(s) >= |s.lh|)
    requires forall b :: SameBuf(s, s', b)
    ensures DiskInv(s')
  {
    forall b ensures CoherentAt(s', b) { assert CoherentAt(s, b) && SameBuf(s, s', b); }
  }

  lemma QuietStepKeeps(s: State, a: Action)
    requires DiskInv(s) && Enabled(s, a) && (a.InstallDone? || a.Begin? || a.CopyDone?)
    ensures DiskInv(Next(s, a)) && Next(s, a).disk == s.disk
  {
    assert Next(s, a).cache == s.cache;
    forall b ensures SameBuf(s, Next(s, a), b) { assert CoherentAt(s, b); }
    QuietKeeps(s, Next(s, a));
  }

  lemma EndKeeps(s: State, k: nat)
    requires DiskInv(s) && Enabled(s, End(k))
    ensures DiskInv(EndNext(s, k))
  {
    forall b ensures SameBuf(s, EndNext(s, k), b) { assert CoherentAt(s, b); }
    QuietKeeps(s, EndNext(s, k));
  }

  lemma HoldKeeps(s: State, a: Action)
    requires DiskInv(s) && Enabled(s, a) && (a.Hit? || a.Lock? || a.Unlock? || a.Drop?)
    ensures DiskInv(Next(s, a)) && Next(s, a).disk == s.disk
  {
    hide Dirty;
    forall b ensures SameBuf(s, Next(s, a), b) { assert CoherentAt(s, b); }
    QuietKeeps(s, Next(s, a));
  }

  lemma MissKeeps(s: State, h: nat, b: int, victim: Option<int>)
    requires DiskInv(s) && Enabled(s, Miss(h, b, victim))
    ensures DiskInv(MissNext(s, h, b, victim)) && MissNext(s, h, b, victim).disk == s.disk
  {
    hide Dirty;
    forall c ensures SameBuf(s, MissNext(s, h, b, victim), c) { assert CoherentAt(s, c); }
    QuietKeeps(s, MissNext(s, h, b, victim));
  }

  /** Every step keeps the log readable, and only the header write of a commit changes what recovery would produce. */
  lemma StepKeepsDisk(s: State, a: Action)
    requires DiskInv(s) && Enabled(s, a)
    ensures DiskInv(Next(s, a))
    ensures a != CommitHeader ==> SameRecovery(s.disk, Next(s, a).disk)
  {
    hide DiskInv, Enabled;
    match a
    case Crash => RestartKeeps(s);
    case InstallBlock => InstallKeeps(s);
    case ClearHeader => ClearKeeps(s);
    case LogWrite(h, k, data) => LogWriteKeeps(s, h, k, data);
    case End(k) => EndKeeps(s, k);
    case CopyBlock => CopyKeeps(s);
    case CommitHeader => CommitKeeps(s);
    case Hit(_, _) => HoldKeeps(s, a);
    case Miss(h, b, victim) => MissKeeps(s, h, b, victim);
    case Lock(_) => HoldKeeps(s, a);
    case Unlock(_) => HoldKeeps(s, a);
    case Drop(_) => HoldKeeps(s, a);
    case InstallDone => QuietStepKeeps(s, a);
    case Begin(_) => QuietStepKeeps(s, a);
    case CopyDone => QuietStepKeeps(s, a);
  }

  // ----- what the groups contain -----

  /** The phases in which a group is being built or copied. */
  ghost predicate Building(s: State) { s.phase.Running? || s.phase.CopyLog? || s.phase.WriteHead? }

  /** How many log slots already hold the block they stand for. */
  ghost function Copied(s: State): nat {
    if s.phase.CopyLog? then s.phase.tail else if s.phase.WriteHead? then |s.lh| else 0
  }

  /** Recovery would produce exactly the committed groups, whole and in order. */
  ghost predicate Faithful(s: State) {
    forall b :: IsHome(b) ==> AfterRecovery(s.disk, b) == ContentsAll(s.init, s.committed)[b]
  }

  /** While a group is built, every block reads as the committed groups plus the group so far. */
  ghost predicate ReadsGroup(s: State) {
    if Building(s) then
      forall b :: IsHome(b) ==> Bread(s, b) == Contents(ContentsAll(s.init, s.committed), s.current)[b]
    else s.current == []
  }

  ghost predicate SlotCopied(s: State, i: int) {
    0 <= i < |s.lh| && i < NLOG && IsHome(s.lh[i]) && s.disk[Slot(i)] == Bread(s, s.lh[i])
  }

  ghost predicate SlotsCopied(s: State) {
    forall i :: 0 <= i < Copied(s) && i < |s.lh| ==> SlotCopied(s, i)
  }

  ghost predicate CommitInv(s: State) {
    Faithful(s) && ReadsGroup(s) && SlotsCopied(s)
  }

  lemma BreadWhenNotDirty(s: State, b: int)
    requires Coherent(s) && 0 <= b < FSSIZE && !Dirty(s, b)
    ensures Bread(s, b) == s.disk[b]
  {
    assert CoherentAt(s, b);
  }

  /** Outside a group under construction, reading gives the disk and the disk gives the groups. */
  lemma ClearCommits(s: State)
    requires DiskInv(s) && CommitInv(s) && Enabled(s, ClearHeader)
    ensures CommitInv(ClearNext(s))
  {
    var s' := ClearNext(s);
    ClearKeeps(s);
    forall b | IsHome(b) ensures Bread(s', b) == AfterRecovery(s'.disk, b) {
      BreadWhenNotDirty(s', b);
    }
  }

  lemma LogWriteCommits(s: State, h: nat, k: nat, data: Block)
    requires DiskInv(s) && CommitInv(s) && Enabled(s, LogWrite(h, k, data)) && !LogWriteNext(s, h, k, data).lost
    ensures CommitInv(LogWriteNext(s, h, k, data))
  {
    var s' := LogWriteNext(s, h, k, data);
    assert s'.current[..|s'.current| - 1] == s.current;
  }

  lemma CopyReads(s: State)
    requires DiskInv(s) && Enabled(s, CopyBlock)
    ensures forall b :: IsHome(b) ==> Bread(CopyNext(s), b) == Bread(s, b)
    ensures forall i :: 0 <= i < s.phase.tail ==> CopyNext(s).disk[Slot(i)] == s.disk[Slot(i)]
    ensures CopyNext(s).disk[Slot(s.phase.tail)] == Bread(s, s.lh[s.phase.tail])
  {
    LogAreaIsClean(s, Slot(s.phase.tail));
  }

  lemma CopyCommits(s: State)
    requires DiskInv(s) && CommitInv(s) && Enabled(s, CopyBlock)
    ensures CommitInv(CopyNext(s))
  {
    CopyKeeps(s);
    CopyReads(s);
    var s' := CopyNext(s);
    forall i | 0 <= i < Copied(s') && i < |s'.lh| ensures SlotCopied(s', i) {
      assert i < s.phase.tail ==> SlotCopied(s, i);
    }
  }

  /** The header write makes the copied slots the recovered contents. */
  lemma HeaderRecovers(s: State, b: int)
    requires DiskInv(s) && Enabled(s, CommitHeader) && IsHome(b) && SlotsCopied(s)
    ensures AfterRecovery(CommitNext(s).disk, b) == Bread(s, b)
  {
    if b !in s.lh { BreadWhenNotDirty(s, b); } else { assert SlotCopied(s, Entry(s.lh, b)); }
  }

  lemma HeaderCommits(s: State)
    requires DiskInv(s) && CommitInv(s) && Enabled(s, CommitHeader)
    ensures CommitInv(CommitNext(s))
  {
    var s' := CommitNext(s);
    assert s'.committed[..|s'.committed| - 1] == s.committed;
    assert !Building(s') && Copied(s') == 0 && s'.init == s.init && s'.current == [];
    assert ContentsAll(s.init, s'.committed) == Contents(ContentsAll(s.init, s.committed), s.current);
    hide DiskInv, SlotsCopied, AfterRecovery;
    forall b | IsHome(b) ensures AfterRecovery(s'.disk, b) == ContentsAll(s'.init, s'.committed)[b] {
      HeaderRecovers(s, b);
    }
  }

  lemma MissCommits(s: State, h: nat, b: int, victim: Option<int>)
    requires DiskInv(s) && CommitInv(s) && Enabled(s, Miss(h, b, victim)) && !MissNext(s, h, b, victim).lost
    ensures CommitInv(MissNext(s, h, b, victim))
  {
    var s' := MissNext(s, h, b, victim);
    if Building(s) {
      forall c | 0 <= c < FSSIZE ensures Bread(s', c) == Bread(s, c) {
        assert CoherentAt(s, c);
      }
    }
    QuietCommits(s, s');
  }

  /** Steps that leave both the recovered contents and every read as they were. */
  lemma QuietCommits(s: State, s': State)
    requires CommitInv(s) && SameRecovery(s.disk, s'.disk)
    requires s'.init == s.init && s'.committed == s.committed && s'.current == s.current
    requires Building(s') ==> Building(s) && forall b :: 0 <= b < FSSIZE ==> Bread(s', b) == Bread(s, b)
    requires !Building(s') ==> s'.current == []
    requires Copied(s') > 0 ==> s'.disk == s.disk && s'.lh == s.lh && Copied(s') <= Copied(s)
    ensures CommitInv(s')
  {
    assert Faithful(s') by {
      forall b | IsHome(b) ensures AfterRecovery(s'.disk, b) == ContentsAll(s'.init, s'.committed)[b] {
        assert AfterRecovery(s'.disk, b) == AfterRecovery(s.disk, b);
      }
    }
    assert ReadsGroup(s');
    assert SlotsCopied(s') by {
      forall i | 0 <= i < Copied(s') && i < |s'.lh| ensures SlotCopied(s', i) {
        assert SlotCopied(s, i);
      }
    }
  }

  lemma RestartCommits(s: State)
    requires CommitInv(s)
    ensures CommitInv(Restart(s))
  {
  }

  lemma InstallCommits(s: State)
    requires DiskInv(s) && CommitInv(s) && Enabled(s, InstallBlock)
    ensures CommitInv(InstallNext(s))
  {
    hide DiskInv, Faithful, SlotsCopied, SameRecovery, AfterRecovery;
    InstallKeeps(s);
    QuietCommits(s, InstallNext(s));
  }

  lemma EndCommits(s: State, k: nat)
    requires DiskInv(s) && CommitInv(s) && Enabled(s, End(k))
    ensures CommitInv(EndNext(s, k))
  {
    QuietCommits(s, EndNext(s, k));
  }

  lemma HoldCommits(s: State, a: Action)
    requires DiskInv(s) && CommitInv(s) && Enabled(s, a) && (a.Hit? || a.Lock? || a.Unlock? || a.Drop?)
    ensures CommitInv(Next(s, a))
  {
    QuietCommits(s, Next(s, a));
  }

  lemma QuietStepCommits(s: State, a: Action)
    requires DiskInv(s) && CommitInv(s) && Enabled(s, a) && (a.InstallDone? || a.Begin? || a.CopyDone?)
    ensures CommitInv(Next(s, a))
  {
    hide DiskInv;
    var s' := Next(s, a);
    if a.CopyDone? {
      forall i | 0 <= i < |s.lh| ensures SlotCopied(s', i) { assert SlotCopied(s, i); }
    } else {
      QuietCommits(s, s');
    }
  }

  lemma StepCommits(s: State, a: Action)
    requires DiskInv(s) && CommitInv(s) && Enabled(s, a) && !Next(s, a).lost
    ensures CommitInv(Next(s, a))
  {
    hide DiskInv, CommitInv, Enabled;
    match a
    case Crash => RestartCommits(s);
    case ClearHeader => ClearCommits(s);
    case LogWrite(h, k, data) => LogWriteCommits(s, h, k, data);
    case CopyBlock => CopyCommits(s);
    case CommitHeader => HeaderCommits(s);
    case Miss(h, b, victim) => MissCommits(s, h, b, victim);
    case InstallBlock => InstallCommits(s);
    case Hit(_, _) => HoldCommits(s, a);
    case Lock(_) => HoldCommits(s, a);
    case Unlock(_) => HoldCommits(s, a);
    case Drop(_) => HoldCommits(s, a);
    case End(k) => EndCommits(s, k);
    case InstallDone => QuietStepCommits(s, a);
    case Begin(_) => QuietStepCommits(s, a);
    case CopyDone => QuietStepCommits(s, a);
  }

  // ----- no operation is split -----

  ghost function Tags(us: seq<Update>): set<nat> { set u | u in us :: u.op }

  ghost predicate Complete(us: seq<Update>, s: State) {
    forall op :: op in Tags(us) ==> OpUpdates(us, op) == OpUpdates(s.history, op)
  }

  /** Each committed group holds all the updates its operations ever made, and no operation is in two groups. */
  ghost predicate WholeOperations(s: State) {
    && (forall g :: 0 <= g < |s.committed| ==> Complete(s.committed[g], s))
    && (forall g, h :: 0 <= g < h < |s.committed| ==> Tags(s.committed[g]) !! Tags(s.committed[h]))
  }

  ghost predicate Retired(s: State, us: seq<Update>) {
    && Tags(us) <= s.seen
    && Tags(us) !! Tags(s.current)
    && forall k :: 0 <= k < |s.ops| ==> s.ops[k].id !in Tags(us)
  }

  ghost predicate AtomInv(s: State) {
    && WholeOperations(s)
    && Tags(s.history) <= s.seen && Tags(s.current) <= s.seen
    && Complete(s.current, s)
    && (forall g :: 0 <= g < |s.committed| ==> Retired(s, s.committed[g]))
    && (forall k :: 0 <= k < |s.ops| ==>
          s.ops[k].id in s.seen && OpUpdates(s.current, s.ops[k].id) == OpUpdates(s.history, s.ops[k].id))
    && (forall j, k :: 0 <= j < k < |s.ops| ==> s.ops[j].id != s.ops[k].id)
  }

  lemma {:induction false} NoUpdates(us: seq<Update>, op: nat)
    requires op !in Tags(us)
    ensures OpUpdates(us, op) == []
  {
    if us != [] {
      assert us[|us| - 1].op in Tags(us);
      assert Tags(us[..|us| - 1]) <= Tags(us);
      NoUpdates(us[..|us| - 1], op);
    }
  }

  lemma Extend(us: seq<Update>, u: Update)
    ensures Tags(us + [u]) == Tags(us) + {u.op}
    ensures forall op :: OpUpdates(us + [u], op) == OpUpdates(us, op) + if op == u.op then [u] else []
  {
    assert (us + [u])[..|us|] == us;
    assert forall v :: v in us + [u] <==> v in us || v == u;
    assert u in us + [u];
  }

  lemma LogWriteAtomic(s: State, h: nat, k: nat, data: Block)
    requires AtomInv(s) && Enabled(s, LogWrite(h, k, data))
    ensures AtomInv(LogWriteNext(s, h, k, data))
  {
    var s' := LogWriteNext(s, h, k, data);
    var u := Update(s.ops[k].id, s.holds[h].want, data);
    Extend(s.current, u);
    Extend(s.history, u);
    assert forall j :: 0 <= j < |s.ops| ==> s'.ops[j].id == s.ops[j].id;
    forall g | 0 <= g < |s.committed| ensures Complete(s.committed[g], s') && Retired(s', s.committed[g]) {
      assert Retired(s, s.committed[g]);
    }
  }

  lemma BeginAtomic(s: State, op: nat)
    requires AtomInv(s) && Enabled(s, Begin(op))
    ensures AtomInv(Next(s, Begin(op)))
  {
    var s' := Next(s, Begin(op));
    NoUpdates(s.current, op);
    NoUpdates(s.history, op);
    forall g | 0 <= g < |s.committed| ensures Complete(s.committed[g], s') && Retired(s', s.committed[g]) {
      assert Retired(s, s.committed[g]);
    }
  }

  lemma EndAtomic(s: State, k: nat)
    requires AtomInv(s) && Enabled(s, End(k))
    ensures AtomInv(EndNext(s, k))
  {
    var s' := EndNext(s, k);
    assert forall j :: 0 <= j < |s'.ops| ==> s'.ops[j] == s.ops[if j < k then j else j + 1];
    forall g | 0 <= g < |s.committed| ensures Complete(s.committed[g], s') && Retired(s', s.committed[g]) {
      assert Retired(s, s.committed[g]);
    }
  }

  lemma CommitAtomic(s: State)
    requires DiskInv(s) && AtomInv(s) && Enabled(s, CommitHeader)
    ensures AtomInv(CommitNext(s))
  {
    var s' := CommitNext(s);
    forall g | 0 <= g < |s'.committed| ensures Complete(s'.committed[g], s') && Retired(s', s'.committed[g]) {
      if g < |s.committed| { assert Retired(s, s.committed[g]); }
    }
  }

  /** Steps that leave the groups alone, or drop the one under construction. */
  lemma QuietAtomic(s: State, s': State)
    requires AtomInv(s) && s'.committed == s.committed && s'.history == s.history && s'.seen == s.seen
    requires s'.current == s.current || s'.current == []
    requires s'.ops == [] || (s'.ops == s.ops && s'.current == s.current)
    ensures AtomInv(s')
  {
    forall g | 0 <= g < |s.committed| ensures Complete(s.committed[g], s') && Retired(s', s.committed[g]) {
      assert Retired(s, s.committed[g]);
    }
  }

  lemma StepAtomic(s: State, a: Action)
    requires DiskInv(s) && AtomInv(s) && Enabled(s, a)
    ensures AtomInv(Next(s, a))
  {
    hide DiskInv, AtomInv, Enabled;
    match a
    case LogWrite(h, k, data) => LogWriteAtomic(s, h, k, data);
    case Begin(op) => BeginAtomic(s, op);
    case End(k) => EndAtomic(s, k);
    case CommitHeader => CommitAtomic(s);
    case Crash => QuietAtomic(s, Restart(s));
    case InstallBlock => QuietAtomic(s, InstallNext(s));
    case InstallDone => QuietAtomic(s, Next(s, a));
    case ClearHeader => QuietAtomic(s, ClearNext(s));
    case CopyBlock => QuietAtomic(s, CopyNext(s));
    case CopyDone => QuietAtomic(s, Next(s, a));
    case Hit(_, _) => QuietAtomic(s, Next(s, a));
    case Miss(_, _, _) => QuietAtomic(s, Next(s, a));
    case Lock(_) => QuietAtomic(s, Next(s, a));
    case Unlock(_) => QuietAtomic(s, Next(s, a));
    case Drop(_) => QuietAtomic(s, Next(s, a));
  }

  // ----- pins -----

  /** As far as block b goes: if dirty it is cached, and the count is that of the pin and the pointers to the buffer. */
  ghost predicate PinnedAt(s: State, b: int) {
    && (Dirty(s, b) ==> b in s.cache && b !in s.replayed)
    && (b in s.cache && b !in s.replayed ==>
         s.cache[b].refcnt == (if Dirty(s, b) then 1 else 0) + |HeldBy(s.holds, b)|)
  }

  /** Process h points to the buffer of the block it asked for, which recovery did not replay. */
  ghost predicate HoldOk(s: State, h: nat) {
    h in s.holds ==>
      var p := s.holds[h];
      p.at == p.want && p.at in s.cache && p.at !in s.replayed && (p.stage.Own? ==> s.cache[p.at].valid)
  }

  /**
   Dirty blocks are pinned once and every other reference is a pointer some process has;
   recovery has left only the counts of the replayed blocks wrong, and nobody points to those.
   */
  ghost predicate Pinned(s: State) {
    && (s.phase.Recover? ==> forall b :: b in s.lh ==> b in s.replayed)
    && (forall b :: PinnedAt(s, b))
    && (forall h :: HoldOk(s, h))
    && |s.holds| + 1 < REFMOD
  }

  lemma PinFacts(s: State, b: int)
    requires Pinned(s)
    ensures PinnedAt(s, b) && |HeldBy(s.holds, b)| <= |s.holds|
  {
    hide PinnedAt, HoldOk;
    Subset(HeldBy(s.holds, b), s.holds.Keys);
  }

  lemma InstallPinsAt(s: State, b: int)
    requires DiskInv(s) && Pinned(s) && Enabled(s, InstallBlock)
    ensures PinnedAt(InstallNext(s), b)
  {
    hide HeldBy, HoldOk, Coherent, PhaseInv;
    InstallDirty(s, InstallNext(s), b);
    LogAreaIsClean(s, Slot(s.phase.tail));
    NoneHeld(s, b);
    assert s.phase.Recover? ==> s.lh[s.phase.tail] in s.replayed;
    PinFacts(s, b);
    hide DiskInv, Dirty, Pinned;
  }

  /** Nobody points to a block that is not cached, or that recovery replayed. */
  lemma NoneHeld(s: State, b: int)
    requires Pinned(s)
    ensures b !in s.cache || b in s.replayed ==> HeldBy(s.holds, b) == {}
  {
    forall h | h in HeldBy(s.holds, b) ensures b in s.cache && b !in s.replayed { assert HoldOk(s, h); }
  }

  lemma InstallPins(s: State)
    requires DiskInv(s) && Pinned(s) && Enabled(s, InstallBlock)
    ensures Pinned(InstallNext(s))
  {
    assert InstallNext(s).lh == s.lh && InstallNext(s).replayed == s.replayed && InstallNext(s).holds == s.holds;
    assert InstallNext(s).phase.Recover? == s.phase.Recover?;
    forall h ensures HoldOk(InstallNext(s), h) { assert HoldOk(s, h); }
    hide DiskInv, PinnedAt, HoldOk, InstallNext, Enabled;
    forall b ensures PinnedAt(InstallNext(s), b) { InstallPinsAt(s, b); }
  }

  lemma CopyPins(s: State)
    requires DiskInv(s) && Pinned(s) && Enabled(s, CopyBlock)
    ensures Pinned(CopyNext(s))
  {
    var s' := CopyNext(s);
    LogAreaIsClean(s, Slot(s.phase.tail));
    EntryOf(s.lh, s.phase.tail);
    forall h ensures HoldOk(s', h) { assert HoldOk(s, h); }
    forall b ensures PinnedAt(s', b) {
      assert PinnedAt(s, b) && PinnedAt(s, s.lh[s.phase.tail]) && PinnedAt(s, Slot(s.phase.tail));
      NoneHeld(s, b);
    }
  }

  lemma LogWritePins(s: State, h: nat, k: nat, data: Block)
    requires Pinned(s) && Enabled(s, LogWrite(h, k, data))
    ensures Pinned(LogWriteNext(s, h, k, data)) && LogWriteNext(s, h, k, data).lost == s.lost
  {
    var s' := LogWriteNext(s, h, k, data);
    var b := s.holds[h].at;
    assert HoldOk(s, h);
    Subset(HeldBy(s.holds, b), s.holds.Keys);
    forall g ensures HoldOk(s', g) { assert HoldOk(s, g); }
    forall c ensures PinnedAt(s', c) {
      assert PinnedAt(s, c);
      assert Dirty(s', c) <==> Dirty(s, c) || c == b;
    }
  }

  lemma HeaderPins(s: State, s': State, head: Block)
    requires DiskInv(s) && Pinned(s) && s'.lh == s.lh && FirstDirty(s') == FirstDirty(s) && s'.replayed == s.replayed
    requires s'.cache == s.cache[LOGSTART := Buf(head, Refcnt(s.cache, LOGSTART), true)] && !s'.phase.Recover?
    requires s'.holds == s.holds
    ensures Pinned(s')
  {
    LogAreaIsClean(s, LOGSTART);
    NoneHeld(s, LOGSTART);
    forall h ensures HoldOk(s', h) { assert HoldOk(s, h); }
    forall b ensures PinnedAt(s', b) { assert PinnedAt(s, b); }
  }

  lemma ClearPins(s: State)
    requires DiskInv(s) && Pinned(s) && Enabled(s, ClearHeader)
    ensures Pinned(ClearNext(s))
  {
    HeaderPins(s, ClearNext(s), ClearNext(s).disk[LOGSTART]);
  }

  lemma CommitPins(s: State)
    requires DiskInv(s) && Pinned(s) && Enabled(s, CommitHeader)
    ensures Pinned(CommitNext(s))
  {
    HeaderPins(s, CommitNext(s), CommitNext(s).disk[LOGSTART]);
  }

  /** Steps that change no pin and no buffer. */
  lemma QuietPins(s: State, s': State)
    requires Pinned(s) && s'.replayed == s.replayed && s'.cache == s.cache && s'.holds == s.holds
    requires (s'.lh == s.lh && FirstDirty(s') == FirstDirty(s)) || (s'.lh == [] && FirstDirty(s) >= |s.lh|)
    requires s'.phase.Recover? ==> s.phase.Recover?
    ensures Pinned(s')
  {
    forall h ensures HoldOk(s', h) { assert HoldOk(s, h); }
    forall c ensures PinnedAt(s', c) { assert PinnedAt(s, c); }
  }

  lemma EndPins(s: State, k: nat)
    requires Pinned(s) && Enabled(s, End(k))
    ensures Pinned(EndNext(s, k))
  {
    QuietPins(s, EndNext(s, k));
  }

  lemma QuietStepPins(s: State, a: Action)
    requires Pinned(s) && Enabled(s, a) && (a.InstallDone? || a.Begin? || a.CopyDone?)
    ensures Pinned(Next(s, a))
  {
    QuietPins(s, Next(s, a));
  }

  lemma RestartPins(s: State)
    ensures Pinned(Restart(s))
  {
    var s' := Restart(s);
    assert forall b :: HeldBy(s'.holds, b) == {};
  }

  // ----- the steps of a process that uses a buffer -----

  lemma HoldAdded(holds: map<nat, Hold>, h: nat, p: Hold, b: int)
    requires h !in holds
    ensures HeldBy(holds[h := p], b) == HeldBy(holds, b) + (if p.at == b then {h} else {})
    ensures h !in HeldBy(holds, b) && holds[h := p].Keys == holds.Keys + {h}
  {
  }

  lemma OneMore(holds: map<nat, Hold>, h: nat, p: Hold)
    requires h !in holds
    ensures |holds[h := p]| == |holds| + 1
  {
    assert holds[h := p].Keys == holds.Keys + {h};
  }

  lemma HoldDropped(holds: map<nat, Hold>, h: nat, b: int)
    requires h in holds
    ensures HeldBy(holds, b) == HeldBy(holds - {h}, b) + (if holds[h].at == b then {h} else {})
    ensures h !in HeldBy(holds - {h}, b) && (holds - {h}).Keys == holds.Keys - {h}
  {
  }

  lemma HoldStaged(holds: map<nat, Hold>, h: nat, stage: Stage, b: int)
    requires h in holds
    ensures HeldBy(holds[h := holds[h].(stage := stage)], b) == HeldBy(holds, b)
    ensures |holds[h := holds[h].(stage := stage)]| == |holds|
  {
    assert holds[h := holds[h].(stage := stage)].Keys == holds.Keys;
  }

  lemma HitPinsAt(s: State, h: nat, b: int, c: int)
    requires Pinned(s) && Enabled(s, Hit(h, b)) && b !in s.replayed
    ensures PinnedAt(HitNext(s, h, b), c)
  {
    hide Pinned, HeldBy;
    PinFacts(s, c);
    HoldAdded(s.holds, h, Hold(b, b, Wait), c);
    var s' := HitNext(s, h, b);
    assert |HeldBy(s'.holds, c)| == |HeldBy(s.holds, c)| + if b == c then 1 else 0;
    assert Dirty(s', c) <==> Dirty(s, c);
    hide Dirty;
  }

  lemma HitPins(s: State, h: nat, b: int)
    requires Pinned(s) && Enabled(s, Hit(h, b)) && b !in s.replayed
    ensures Pinned(HitNext(s, h, b))
  {
    hide PinnedAt, Dirty;
    var s' := HitNext(s, h, b);
    forall g ensures HoldOk(s', g) { assert HoldOk(s, g); }
    OneMore(s.holds, h, Hold(b, b, Wait));
    forall c ensures PinnedAt(s', c) { HitPinsAt(s, h, b, c); }
  }

  /** An unreferenced buffer is clean and nobody points to it. */
  lemma VictimFree(s: State, v: int)
    requires Pinned(s) && v in s.cache && s.cache[v].refcnt == 0
    ensures !Dirty(s, v) && HeldBy(s.holds, v) == {}
  {
    assert PinnedAt(s, v);
    NoneHeld(s, v);
  }

  /** bget moves no pointer. */
  lemma MissHolds(s: State, h: nat, b: int, victim: Option<int>)
    requires Pinned(s) && Enabled(s, Miss(h, b, victim))
    ensures MissNext(s, h, b, victim).holds == s.holds[h := Hold(b, b, Wait)]
    ensures MissNext(s, h, b, victim).lost == s.lost
  {
    hide PinnedAt, HoldOk;
    if victim.Some? {
      VictimFree(s, victim.value);
      assert forall g :: g in s.holds ==> g !in HeldBy(s.holds, victim.value);
      assert Moved(s.holds, victim.value, b) == s.holds;
    }
  }

  lemma MissPinsAt(s: State, h: nat, b: int, victim: Option<int>, c: int)
    requires Pinned(s) && Enabled(s, Miss(h, b, victim)) && b !in s.replayed
    ensures PinnedAt(MissNext(s, h, b, victim), c)
  {
    hide Pinned, HeldBy, Moved;
    MissHolds(s, h, b, victim);
    if victim.Some? { VictimFree(s, victim.value); }
    PinFacts(s, c);
    assert Dirty(MissNext(s, h, b, victim), c) <==> Dirty(s, c);
    hide Dirty;
    HoldAdded(s.holds, h, Hold(b, b, Wait), c);
    NoneHeld(s, b);
  }

  lemma MissHoldOk(s: State, h: nat, b: int, victim: Option<int>, g: nat)
    requires Pinned(s) && Enabled(s, Miss(h, b, victim)) && b !in s.replayed
    ensures HoldOk(MissNext(s, h, b, victim), g)
  {
    hide PinnedAt, Moved, Dirty;
    MissHolds(s, h, b, victim);
    assert HoldOk(s, g);
    if victim.Some? {
      VictimFree(s, victim.value);
      assert g in s.holds ==> g !in HeldBy(s.holds, victim.value);
    }
  }

  lemma MissPins(s: State, h: nat, b: int, victim: Option<int>)
    requires Pinned(s) && Enabled(s, Miss(h, b, victim)) && b !in s.replayed
    ensures Pinned(MissNext(s, h, b, victim)) && MissNext(s, h, b, victim).lost == s.lost
  {
    hide PinnedAt, Moved, Dirty, HoldOk;
    var s' := MissNext(s, h, b, victim);
    MissHolds(s, h, b, victim);
    OneMore(s.holds, h, Hold(b, b, Wait));
    forall g ensures HoldOk(s', g) { MissHoldOk(s, h, b, victim, g); }
    forall c ensures PinnedAt(s', c) { MissPinsAt(s, h, b, victim, c); }
  }

  lemma StagePins(s: State, a: Action)
    requires Pinned(s) && Enabled(s, a) && (a.Lock? || a.Unlock?)
    ensures Pinned(Next(s, a))
  {
    var s' := Next(s, a);
    var stage := if a.Lock? then Own else Leave;
    assert HoldOk(s, a.h);
    HoldStaged(s.holds, a.h, stage, 0);
    forall g ensures HoldOk(s', g) { assert HoldOk(s, g); }
    forall c ensures PinnedAt(s', c) {
      assert PinnedAt(s, c) && (Dirty(s', c) <==> Dirty(s, c));
      HoldStaged(s.holds, a.h, stage, c);
    }
  }

  lemma DropPins(s: State, h: nat)
    requires Pinned(s) && Enabled(s, Drop(h))
    ensures Pinned(DropNext(s, h))
  {
    var s' := DropNext(s, h);
    assert HoldOk(s, h);
    forall g ensures HoldOk(s', g) { assert HoldOk(s, g); }
    HoldDropped(s.holds, h, 0);
    assert |s'.holds| == |s'.holds.Keys|;
    forall c ensures PinnedAt(s', c) {
      assert PinnedAt(s, c) && (Dirty(s', c) <==> Dirty(s, c));
      HoldDropped(s.holds, h, c);
    }
  }

  /** The step does not look up a block that this boot's recovery replayed. */
  ghost predicate Spares(s: State, a: Action) { a.Hit? || a.Miss? ==> a.block !in s.replayed }

  lemma StepPins(s: State, a: Action)
    requires DiskInv(s) && Pinned(s) && Enabled(s, a) && Spares(s, a)
    ensures Pinned(Next(s, a)) && Next(s, a).lost == s.lost
  {
    hide DiskInv, Pinned, Enabled;
    match a
    case Crash => RestartPins(s);
    case InstallBlock => InstallPins(s);
    case CopyBlock => CopyPins(s);
    case ClearHeader => ClearPins(s);
    case CommitHeader => CommitPins(s);
    case LogWrite(h, k, data) => LogWritePins(s, h, k, data);
    case End(k) => EndPins(s, k);
    case InstallDone => QuietStepPins(s, a);
    case Begin(_) => QuietStepPins(s, a);
    case CopyDone => QuietStepPins(s, a);
    case Hit(h, b) => HitPins(s, h, b);
    case Miss(h, b, victim) => MissPins(s, h, b, victim);
    case Lock(_) => StagePins(s, a);
    case Unlock(_) => StagePins(s, a);
    case Drop(h) => DropPins(s, h);
  }
}
