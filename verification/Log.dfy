/**
 The code of the redo log, working in place on the header, the buffer cache and the
 disk. Every disk write and lock-protected section performs one action of LogMachine,
 recorded in `run`, so what holds for all runs of the machine holds for this code
 with a crash after any of its writes.
 */
module Log {
  import opened Wrappers
  import opened LogMachine
  import opened LogTheorems

  /** The machine state at power-on with disk d, whose recovered contents are the initial ones. */
  ghost function PowerOn(d: Disk): (s: State)
    requires GoodHeader(d[LOGSTART])
    ensures Boot(s)
  {
    var init: Disk := seq(FSSIZE, b requires 0 <= b < FSSIZE => if IsHome(b) then AfterRecovery(d, b) else d[b]);
    var lh := Header(d[LOGSTART]);
    State(d, map[], map[], lh, Recover(0), [], init, [], [], [], {}, (set b | b in lh), false)
  }

  ghost function Took(s: State, a: Action): Option<State> {
    if Enabled(s, a) then Some(Next(s, a)) else None
  }

  /** Where a run from power-on leads. */
  ghost function After(boot: State, run: seq<Action>): Option<State> {
    if Boot(boot) && CanRun(boot, run) then Some(Run(boot, run)) else None
  }

  lemma Sound(boot: State, run: seq<Action>, s: State)
    requires After(boot, run) == Some(s)
    ensures DiskInv(s)
  {
    hide DiskInv;
    BootInv(boot);
    RunInv(boot, run);
  }

  /** The shape of a reachable state, phase by phase. */
  lemma Shape(boot: State, run: seq<Action>, s: State)
    requires After(boot, run) == Some(s)
    ensures |s.lh| < NLOG && forall i :: 0 <= i < |s.lh| ==> IsHome(s.lh[i])
    ensures !s.phase.Running? ==> s.ops == []
    ensures s.phase.ClearHead? || s.phase.RecoverClear? ==> s.lh == []
    ensures |Bread(s, LOGSTART).words| == WORDS
  {
    hide After;
    Sound(boot, run, s);
    LogAreaIsClean(s, LOGSTART);
  }

  class Log {
    var n: nat                 // log.lh.n
    const block: array<int>    // log.lh.block
    var outstanding: nat
    var committing: bool
    var disk: Disk
    var cache: map<int, Buf>

    ghost const boot: State
    ghost var model: State
    ghost var run: seq<Action>

    /** The fields are those of the machine state reached by the recorded run. */
    ghost predicate Valid()
      reads this, block
    {
      && block.Length == LOGSIZE && n < NLOG
      && After(boot, run) == Some(model)
      && model.disk == disk && model.cache == cache && model.lh == block[..n]
      && outstanding == |model.ops|
      && (model.phase.CopyLog? || model.phase.WriteHead? || model.phase.Install? || model.phase.ClearHead? ==>
           committing)
    }

    /** Power-on: recovery is about to start. */
    constructor (d: Disk)
      requires GoodHeader(d[LOGSTART])
      ensures Valid() && disk == d && cache == map[] && model.phase == Recover(0) && model == boot
      ensures fresh(block)
    {
      var a := new int[LOGSIZE];
      block := a;
      n := 0;
      outstanding := 0;
      committing := false;
      disk := d;
      cache := map[];
      boot := PowerOn(d);
      model := PowerOn(d);
      run := [];
      new;
      ReadHead();
    }

    /** Record that the code has just performed action a. */
    ghost method Record(a: Action)
      requires After(boot, run) == Some(model) && Took(model, a).Some?
      modifies this`model, this`run
      ensures run == old(run) + [a] && Took(old(model), a) == Some(model)
      ensures After(boot, run) == Some(model)
    {
      assert [a][1..] == [];
      Concat(boot, run, [a]);
      run := run + [a];
      model := Next(model, a);
    }

    /** bread: the cached data, or the disk's. */
    method Data(b: int) returns (data: Block)
      requires 0 <= b < FSSIZE
      ensures data == if Live(cache, b) then cache[b].data else disk[b]
    {
      if b in cache && cache[b].valid { data := cache[b].data; } else { data := disk[b]; }
    }

    /** bread and brelse leave the block cached. */
    method Keep(b: int)
      requires 0 <= b < FSSIZE
      modifies this`cache
      ensures cache == Touch(old(cache), disk, b)
    {
      if !Live(cache, b) { cache := cache[b := Buf(disk[b], Refcnt(cache, b), true)]; }
    }

    /** bwrite of a buffer holding `data`; its reference count is `refcnt` after release. */
    method Write(b: int, data: Block, refcnt: nat)
      requires 0 <= b < FSSIZE
      modifies this`cache, this`disk
      ensures disk == old(disk)[b := data] && cache == old(cache)[b := Buf(data, refcnt, true)]
    {
      disk := disk[b := data];
      cache := cache[b := Buf(data, refcnt, true)];
    }

    /** read_head: the in-memory header becomes the one on disk. */
    method ReadHead()
      requires block.Length == LOGSIZE && GoodHeader(disk[LOGSTART])
      modifies this`n, block
      ensures n == |Header(disk[LOGSTART])| && block[..n] == Header(disk[LOGSTART])
    {
      var lh := disk[LOGSTART];
      n := lh.words[0];
      for i := 0 to n
        invariant n == lh.words[0] && block[..i] == Header(lh)[..i]
      {
        block[i] := lh.words[1 + i];
      }
      assert Header(lh)[..n] == Header(lh);
    }

    /** The header block write_head builds: the count, then the entries over the old words. */
    method Head() returns (hb: Block)
      requires Valid() && |Bread(model, LOGSTART).words| == WORDS
      ensures hb == WithHeader(Bread(model, LOGSTART), model.lh)
    {
      var before := Data(LOGSTART);
      var words := before.words[0 := n];
      for i := 0 to n
        invariant |words| == WORDS && words[..1 + i] == [n as int] + block[..i]
        invariant words[1 + i..] == before.words[1 + i..]
      {
        words := words[1 + i := block[i]];
      }
      hb := Block(words);
      assert words == words[..1 + n] + words[1 + n..];
    }

    method WriteHead()
      requires Valid() && (model.phase.WriteHead? || model.phase.ClearHead? || model.phase.RecoverClear?)
      modifies this`cache, this`disk, this`model, this`run
      ensures Valid() && old(run) <= run && Header(disk[LOGSTART]) == block[..n]
      ensures Took(old(model), if old(model).phase.WriteHead? then CommitHeader else ClearHeader) == Some(model)
    {
      hide After;
      Shape(boot, run, model);
      var hb := Head();
      Write(LOGSTART, hb, if LOGSTART in cache then cache[LOGSTART].refcnt else 0);
      Record(if model.phase.WriteHead? then CommitHeader else ClearHeader);
    }

    /** The body of the loop of install_trans: log block to home, written, unpinned and released. */
    method CopyHome(tail: nat)
      requires tail < n <= block.Length && n < NLOG && IsHome(block[tail])
      modifies this`cache, this`disk
      ensures var data := if Live(old(cache), Slot(tail)) then old(cache)[Slot(tail)].data else old(disk)[Slot(tail)];
              var c := Touch(old(cache), old(disk), Slot(tail));
              && disk == old(disk)[block[tail] := data]
              && cache == c[block[tail] := Buf(data, Decr(Refcnt(c, block[tail])), true)]
    {
      var lbuf := Data(LOGSTART + 1 + tail);
      Keep(LOGSTART + 1 + tail);
      var home := block[tail];
      var refcnt := if home in cache then cache[home].refcnt else 0;
      Write(home, lbuf, Decr(refcnt));
    }

    method InstallOne(tail: nat)
      requires Valid() && tail < n
      requires model.phase == Recover(tail) || model.phase == Install(tail)
      modifies this`cache, this`disk, this`model, this`run
      ensures Valid() && run == old(run) + [InstallBlock] && Took(old(model), InstallBlock) == Some(model)
    {
      hide After;
      assert model.lh[tail] == block[tail];
      Shape(boot, run, model);
      CopyHome(tail);
      Record(InstallBlock);
    }

    /** install_trans, in recovery and in commit: every logged block goes home and is unpinned. */
    method InstallTrans()
      requires Valid() && (model.phase == Recover(0) || model.phase == Install(0))
      modifies this`cache, this`disk, this`model, this`run, this`n
      ensures Valid() && n == 0 && old(run) <= run
      ensures model.phase == if old(model).phase.Recover? then RecoverClear else ClearHead
      ensures SameRecovery(old(disk), disk)
      ensures forall b :: IsHome(b) ==> disk[b] == AfterRecovery(old(disk), b)
      ensures model.ops == old(model).ops && model.committed == old(model).committed
    {
      hide After;
      var tail := 0;
      while tail < n
        invariant Valid() && n == old(n) && tail <= n && old(run) <= run
        invariant model.phase == old(model).phase.(tail := tail) && model.lh == old(model).lh
        invariant SameRecovery(old(disk), disk)
        invariant model.ops == old(model).ops && model.committed == old(model).committed
      {
        InstallFacts(boot, run, model);
        InstallOne(tail);
        tail := tail + 1;
      }
      AllHome(boot, run, model);
      Record(InstallDone);
      n := 0;
    }

    /** One turn of the loop of write_log. */
    method CopyOne(tail: nat)
      requires Valid() && tail < n && model.phase == CopyLog(tail)
      modifies this`cache, this`disk, this`model, this`run
      ensures Valid() && run == old(run) + [CopyBlock] && Took(old(model), CopyBlock) == Some(model)
    {
      hide After;
      assert model.lh[tail] == block[tail];
      Shape(boot, run, model);
      var from := Data(block[tail]);
      Keep(block[tail]);
      var to := LOGSTART + 1 + tail;
      Write(to, from, if to in cache then cache[to].refcnt else 0);
      Record(CopyBlock);
    }

    /** write_log: slot i of the log receives what block i of the header reads as. */
    method WriteLog()
      requires Valid() && model.phase == CopyLog(0)
      modifies this`cache, this`disk, this`model, this`run
      ensures Valid() && old(run) <= run && model.phase.WriteHead? && SameRecovery(old(disk), disk)
      ensures SlotsHold(disk, block[..n], old(model), n)
      ensures SameReads(old(model), model)
      ensures model.lh == old(model).lh && model.committed == old(model).committed
      ensures model.current == old(model).current
    {
      hide After;
      var tail := 0;
      while tail < n
        invariant Valid() && tail <= n && old(run) <= run && SameRecovery(old(disk), disk)
        invariant model.phase == CopyLog(tail) && model.lh == old(model).lh
        invariant model.committed == old(model).committed && model.current == old(model).current
        invariant SlotsHold(disk, block[..n], old(model), tail)
        invariant SameReads(old(model), model)
      {
        Sound(boot, run, model);
        CopyKeeps(model);
        CopyExtends(model, old(model));
        CopyOne(tail);
        tail := tail + 1;
      }
      Record(CopyDone);
    }

    /** write_log and write_head: the commit point. */
    method Publish()
      requires Valid() && model.phase == CopyLog(0)
      modifies this`cache, this`disk, this`model, this`run
      ensures Valid() && old(run) <= run && model.phase == Install(0)
      ensures forall b :: IsHome(b) ==> AfterRecovery(disk, b) == Bread(old(model), b)
      ensures model.committed == old(model).committed + [old(model).current]
    {
      hide After;
      WriteLog();
      Redirect(boot, run, model, old(model));
      WriteHead();
    }

    /** install_trans and the closing write_head. */
    method Finish()
      requires Valid() && (model.phase == Recover(0) || model.phase == Install(0))
      modifies this`cache, this`disk, this`model, this`run, this`n
      ensures Valid() && n == 0 && old(run) <= run && model.phase.Running? && model.ops == [] && model.lh == []
      ensures Header(disk[LOGSTART]) == []
      ensures forall b :: IsHome(b) ==> disk[b] == AfterRecovery(old(disk), b)
      ensures model.committed == old(model).committed
    {
      hide After;
      InstallTrans();
      Shape(boot, run, model);
      WriteHead();
    }

    /**
     commit: nothing to do for an empty log; otherwise every logged block reaches its home
     with the contents it had in the cache, the other home blocks stay as they are, and the
     log is empty again.
     */
    method Commit()
      requires Valid() && committing
      requires if n > 0 then model.phase == CopyLog(0) else model.phase.Running? && model.ops == []
      modifies this`cache, this`disk, this`model, this`run, this`n
      ensures Valid() && old(run) <= run && n == 0 && model.phase.Running? && model.ops == []
      ensures Header(disk[LOGSTART]) == []
      ensures forall b :: IsHome(b) ==> disk[b] == Bread(old(model), b)
      ensures model.committed == old(model).committed + if old(n) > 0 then [old(model).current] else []
    {
      hide After;
      if n > 0 {
        Publish();
        Finish();
      } else {
        ReadsDisk(boot, run, model);
      }
    }

    /** recover_from_log: afterwards the log is empty and every home block holds what the log recorded for it. */
    method RecoverFromLog()
      requires Valid() && model.phase == Recover(0)
      modifies this`cache, this`disk, this`model, this`run, this`n
      ensures Valid() && n == 0 && old(run) <= run && model.phase.Running? && model.ops == [] && model.lh == []
      ensures Header(disk[LOGSTART]) == []
      ensures forall b :: IsHome(b) ==> disk[b] == AfterRecovery(old(disk), b)
    {
      hide After;
      Finish();
    }

    /** begin_op: admitted exactly when no commit runs and a full reservation for every operation fits. */
    method BeginOp(op: nat) returns (admitted: bool)
      requires Valid() && (model.phase.Running? || committing) && op !in model.seen
      modifies this`outstanding, this`model, this`run
      ensures Valid() && old(run) <= run
      ensures admitted <==> !committing && n + (old(outstanding) + 1) * MAXOPBLOCKS <= LOGSIZE
      ensures admitted ==> outstanding == old(outstanding) + 1 && Took(old(model), Begin(op)) == Some(model)
      ensures !admitted ==> outstanding == old(outstanding) && model == old(model)
    {
      hide After;
      if committing {
        admitted := false;
      } else if n + (outstanding + 1) * MAXOPBLOCKS > LOGSIZE {
        admitted := false;
      } else {
        Record(Begin(op));
        outstanding := outstanding + 1;
        admitted := true;
      }
    }

    /** end_op: the last operation out commits the group before returning. */
    method EndOp(ghost k: nat)
      requires Valid() && !committing && model.phase.Running? && k < |model.ops|
      modifies this
      ensures Valid() && old(run) <= run && outstanding == old(outstanding) - 1 && !committing && model.phase.Running?
      ensures outstanding == 0 ==>
                && n == 0 && forall b :: IsHome(b) ==> disk[b] == Bread(old(model), b)
      ensures outstanding > 0 ==> disk == old(disk) && model.lh == old(model).lh
    {
      hide After;
      Record(End(k));
      outstanding := outstanding - 1;
      if outstanding == 0 {
        committing := true;
        Commit();
        committing := false;
      }
    }

    /**
     log_write by operation k, for process h that owns the sleep lock of a buffer and has
     changed its data: the block the buffer stands for is absorbed, or pinned and appended.
     */
    method LogWrite(ghost h: nat, ghost k: nat, b: int, data: Block)
      requires Valid() && !committing && model.phase.Running? && k < |model.ops| && n < NLOG - 1
      requires h in model.holds && model.holds[h].stage.Own? && b == model.holds[h].at
      requires IsHome(b) && IsHome(model.holds[h].want)
      modifies this`n, this`cache, this`model, this`run, block
      ensures Valid() && run == old(run) + [Action.LogWrite(h, k, data)]
      ensures Took(old(model), Action.LogWrite(h, k, data)) == Some(model)
      ensures n == old(n) + if b in old(block[..n]) then 0 else 1
    {
      hide After;
      var i := 0;
      while i < n && block[i] != b
        invariant i <= n && b !in block[..i]
      {
        i := i + 1;
      }
      ghost var lh := block[..n];
      block[i] := b;
      var refcnt := Refcnt(cache, b);
      if i == n {
        refcnt := Incr(refcnt);
        n := n + 1;
        assert block[..n] == lh + [b];
      } else {
        assert lh[i] == b;
        assert block[..n] == lh;
      }
      cache := cache[b := Buf(data, refcnt, Live(cache, b))];
      Record(Action.LogWrite(h, k, data));
    }

    /** bget by process h, in an unused buffer if the block is not cached. */
    method Get(ghost h: nat, b: int)
      requires Valid() && CanHold(model, h, b)
      modifies this`cache, this`model, this`run
      ensures Valid() && old(run) <= run && b in cache && cache[b].refcnt == Incr(Refcnt(old(cache), b))
      ensures model == old(model).(cache := model.cache, holds := old(model).holds[h := Hold(b, b, Wait)])
      ensures Bread(model, b) == Bread(old(model), b)
    {
      hide After;
      if b in cache {
        cache := cache[b := cache[b].(refcnt := Incr(cache[b].refcnt))];
        Record(Hit(h, b));
      } else {
        cache := cache[b := Buf(ZeroBlock(), 1, false)];
        Record(Miss(h, b, None));
      }
    }

    /** The rest of bread, once the sleep lock is free. */
    method Acquire(ghost h: nat, b: int) returns (data: Block)
      requires Valid() && h in model.holds && model.holds[h].stage.Wait? && b == model.holds[h].at
      requires 0 <= b < FSSIZE && LockFree(model, b)
      modifies this`cache, this`model, this`run
      ensures Valid() && run == old(run) + [Lock(h)] && Took(old(model), Lock(h)) == Some(model)
      ensures Live(cache, b) && cache[b].data == data == Bread(old(model), b)
    {
      hide After;
      cache := Touch(cache, disk, b);
      data := cache[b].data;
      Record(Lock(h));
    }

    /** brelse by the owner of the sleep lock. */
    method Release(ghost h: nat, b: int)
      requires Valid() && h in model.holds && model.holds[h].stage.Own? && b == model.holds[h].at && b in cache
      modifies this`cache, this`model, this`run
      ensures Valid() && run == old(run) + [Unlock(h)] + [Drop(h)]
      ensures cache == old(cache)[b := old(cache)[b].(refcnt := Decr(old(cache)[b].refcnt))]
      ensures model == old(model).(cache := cache, holds := old(model).holds - {h})
    {
      hide After;
      Record(Unlock(h));
      cache := cache[b := cache[b].(refcnt := Decr(cache[b].refcnt))];
      Record(Drop(h));
      assert model.holds == old(model).holds - {h};
    }
  }

  lemma ReadsDisk(boot: State, run: seq<Action>, s: State)
    requires After(boot, run) == Some(s) && s.phase.Running? && s.lh == []
    ensures Header(s.disk[LOGSTART]) == [] && forall b :: IsHome(b) ==> s.disk[b] == Bread(s, b)
  {
    hide After;
    Sound(boot, run, s);
    forall b | IsHome(b) ensures s.disk[b] == Bread(s, b) { BreadWhenNotDirty(s, b); }
  }

  ghost predicate SameReads(s: State, t: State) {
    forall b :: IsHome(b) ==> Bread(t, b) == Bread(s, b)
  }

  /** The first t log slots hold what the machine state reads for the header's entries. */
  ghost predicate SlotsHold(d: Disk, lh: seq<int>, s: State, t: nat) {
    t <= |lh| < NLOG && forall i :: 0 <= i < t ==> IsHome(lh[i]) && d[Slot(i)] == Bread(s, lh[i])
  }

  lemma CopyExtends(s: State, s0: State)
    requires DiskInv(s) && Enabled(s, CopyBlock) && SameReads(s0, s) && SlotsHold(s.disk, s.lh, s0, s.phase.tail)
    ensures SameReads(s0, CopyNext(s)) && SlotsHold(CopyNext(s).disk, s.lh, s0, s.phase.tail + 1)
  {
    CopyReads(s);
  }

  /** Once every entry is installed, the home blocks are the recovered contents. */
  lemma AllHome(boot: State, run: seq<Action>, s: State)
    requires After(boot, run) == Some(s) && (s.phase.Recover? || s.phase.Install?) && s.phase.tail == |s.lh|
    ensures forall b :: IsHome(b) ==> s.disk[b] == AfterRecovery(s.disk, b)
  {
    hide After;
    Sound(boot, run, s);
  }

  lemma InstallFacts(boot: State, run: seq<Action>, s: State)
    requires After(boot, run) == Some(s) && (s.phase.Recover? || s.phase.Install?) && s.phase.tail < |s.lh|
    ensures var s' := Took(s, InstallBlock);
            && s'.Some? && SameRecovery(s.disk, s'.value.disk)
            && s'.value.phase == s.phase.(tail := s.phase.tail + 1) && s'.value.lh == s.lh
            && s'.value.ops == s.ops && s'.value.committed == s.committed
  {
    hide After;
    Sound(boot, run, s);
    InstallKeeps(s);
  }

  /** With all slots copied, the header write makes every home block recover to what was read. */
  lemma Redirect(boot: State, run: seq<Action>, s: State, s0: State)
    requires After(boot, run) == Some(s) && s.phase.WriteHead? && SameReads(s0, s)
    requires SlotsHold(s.disk, s.lh, s0, |s.lh|)
    ensures var s' := Took(s, CommitHeader);
            && s'.Some? && s'.value.phase == Install(0) && s'.value.committed == s.committed + [s.current]
            && forall b :: IsHome(b) ==> AfterRecovery(s'.value.disk, b) == Bread(s0, b)
  {
    hide After;
    Sound(boot, run, s);
    Shape(boot, run, s);
    forall i | 0 <= i < |s.lh| ensures SlotCopied(s, i) {
    }
    forall b | IsHome(b) ensures AfterRecovery(CommitNext(s).disk, b) == Bread(s0, b) {
      HeaderRecovers(s, b);
    }
    hide DiskInv, AfterRecovery;
  }
}
