/** Theorems about every run of the redo log. */
module LogTheorems {
  import opened Wrappers
  import opened LogMachine

  ghost predicate Inv(s: State) {
    DiskInv(s) && AtomInv(s) && (!s.lost ==> CommitInv(s))
  }

  lemma BootInv(s: State)
    requires Boot(s)
    ensures Inv(s) && Pinned(s)
  {
    assert forall b :: HeldBy(s.holds, b) == {};
  }

  lemma StepInv(s: State, a: Action)
    requires Inv(s) && Enabled(s, a)
    ensures Inv(Next(s, a)) && Next(s, a).init == s.init
    ensures s.lost ==> Next(s, a).lost
    ensures Pinned(s) && Spares(s, a) ==> Pinned(Next(s, a)) && Next(s, a).lost == s.lost
  {
    hide DiskInv, AtomInv, CommitInv, Enabled, Pinned;
    StepKeepsDisk(s, a);
    StepAtomic(s, a);
    if !Next(s, a).lost { StepCommits(s, a); }
    if Pinned(s) && Spares(s, a) { StepPins(s, a); }
  }

  lemma {:induction false} RunInv(s: State, run: seq<Action>)
    requires Inv(s) && CanRun(s, run)
    ensures Inv(Run(s, run)) && Run(s, run).init == s.init
    decreases |run|
  {
    hide Enabled, Next, Inv;
    if run != [] {
      StepInv(s, run[0]);
      RunInv(Next(s, run[0]), run[1..]);
    }
  }

  /** Whatever crashes and restarts happen, recovery yields the same contents until a header write commits. */
  lemma {:induction false} NothingBeforeHeader(s: State, run: seq<Action>)
    requires DiskInv(s) && CanRun(s, run) && CommitHeader !in run
    ensures DiskInv(Run(s, run)) && SameRecovery(s.disk, Run(s, run).disk)
    decreases |run|
  {
    hide Enabled, Next, DiskInv;
    if run != [] {
      StepKeepsDisk(s, run[0]);
      NothingBeforeHeader(Next(s, run[0]), run[1..]);
    }
  }

  // ----- crash atomicity -----

  /** No process of a boot looks up a block that the boot's own recovery replayed. */
  ghost predicate SparingRun(s: State, run: seq<Action>)
    requires CanRun(s, run)
    decreases |run|
  {
    run == [] || (Spares(s, run[0]) && SparingRun(Next(s, run[0]), run[1..]))
  }

  lemma {:induction false} SparingRunKeeps(s: State, run: seq<Action>)
    requires Inv(s) && Pinned(s) && !s.lost && CanRun(s, run) && SparingRun(s, run)
    ensures Inv(Run(s, run)) && !Run(s, run).lost && Run(s, run).init == s.init
    decreases |run|
  {
    hide Enabled, Next, Inv, Pinned, Spares;
    if run != [] {
      StepInv(s, run[0]);
      SparingRunKeeps(Next(s, run[0]), run[1..]);
    }
  }

  /**
   For every interleaving and any number of crashes, also during recovery, if no process of a
   boot looks up a block that boot's recovery replayed: what recovery
   yields is the initial contents with a whole number of committed groups applied, every
   group holds all updates of each of its operations, and no operation is in two groups.
   */
  lemma CrashAtomicity(s: State, run: seq<Action>)
    requires Boot(s) && CanRun(s, run) && SparingRun(s, run)
    ensures var e := Run(s, run);
            && Faithful(e) && e.init == s.init
            && WholeOperations(e)
            && (e.phase.Running? ==> forall b :: IsHome(b) ==> e.disk[b] == ContentsAll(s.init, e.committed)[b])
  {
    BootInv(s);
    SparingRunKeeps(s, run);
  }

  // ----- why the replayed blocks matter -----

  ghost predicate NoCrash(run: seq<Action>) { Crash !in run }

  /** Of the blocks in `fragile`, the run looks up none but b. */
  ghost predicate GetsOnly(run: seq<Action>, fragile: set<int>, b: int) {
    forall i :: 0 <= i < |run| && (run[i].Hit? || run[i].Miss?) && run[i].block in fragile ==> run[i].block == b
  }

  /** No block in `fragile` was ever written by an operation. */
  ghost predicate WritesNone(e: State, fragile: set<int>) {
    forall u :: u in e.history ==> u.block !in fragile
  }

  /** Up to the next crash, of the blocks this boot replayed only b is looked up, and none is written. */
  ghost predicate OnlyReads(s: State, run: seq<Action>, b: int) {
    CanRun(s, run) && NoCrash(run) && GetsOnly(run, s.replayed, b) && WritesNone(Run(s, run), s.replayed)
  }

  lemma {:induction false} SparingFaithful(s: State, run: seq<Action>, b: int)
    requires Inv(s) && Pinned(s) && !s.lost && CanRun(s, run) && NoCrash(run) && GetsOnly(run, s.replayed, b)
    requires b !in s.replayed
    ensures Faithful(Run(s, run))
    decreases |run|
  {
    hide Enabled, DiskInv, AtomInv, Pinned;
    if run != [] {
      assert run[0] in run;
      StepInv(s, run[0]);
      assert Next(s, run[0]).replayed == s.replayed;
      SparingFaithful(Next(s, run[0]), run[1..], b);
    }
  }

  lemma {:induction false} Concat(s: State, a: seq<Action>, b: seq<Action>)
    requires CanRun(s, a) && CanRun(Run(s, a), b)
    ensures CanRun(s, a + b) && Run(s, a + b) == Run(Run(s, a), b)
    decreases |a|
  {
    hide Enabled, Next;
    if a == [] {
      assert a + b == b;
    } else {
      Concat(Next(s, a[0]), a[1..], b);
      assert (a + b)[1..] == a[1..] + b;
    }
  }

  lemma Two(s: State, a: Action, b: Action)
    requires Enabled(s, a) && Enabled(Next(s, a), b)
    ensures CanRun(s, [a, b]) && Run(s, [a, b]) == Next(Next(s, a), b)
  {
    assert [a, b][1..] == [b] && [b][1..] == [];
    assert Run(Next(s, a), [b]) == Run(Next(Next(s, a), b), []);
  }

  /** Recovery from any point of its install loop, with no operation history yet. */
  ghost predicate Fresh(s: State) {
    s.ops == [] && s.holds == map[] && s.committed == [] && s.current == [] && s.history == [] && s.seen == {}
  }

  /** After install_trans has replayed block b, its reference count is one below zero. */
  ghost predicate Wrapped(s: State, b: int) {
    b in s.cache && s.cache[b].refcnt == REFMOD - 1
  }

  /** Only blocks of the header, or of the log area, have been read. */
  ghost predicate Narrow(s: State, x: int) {
    x in s.cache && IsHome(x) ==> x in s.replayed
  }

  ghost predicate Replaying(s: State, j: nat, x: int) {
    && DiskInv(s) && Fresh(s) && s.phase.Recover? && j < |s.lh| && Narrow(s, x) && s.replayed == (set c | c in s.lh)
    && (if s.phase.tail > j then Wrapped(s, s.lh[j]) else s.lh[j] !in s.cache)
  }

  lemma WrapFacts(s: State, j: nat)
    requires s.phase.Recover? && s.phase.tail < |s.lh| && WellFormed(s.lh) && j < |s.lh|
    requires if s.phase.tail > j then Wrapped(s, s.lh[j]) else s.lh[j] !in s.cache
    ensures Enabled(s, InstallBlock)
    ensures if s.phase.tail + 1 > j then Wrapped(InstallNext(s), s.lh[j]) else s.lh[j] !in InstallNext(s).cache
  {
    assert s.phase.tail != j ==> s.lh[s.phase.tail] != s.lh[j];
    assert IsHome(s.lh[j]);
  }

  lemma InstallNarrow(s: State, x: int)
    requires Enabled(s, InstallBlock) && Narrow(s, x) && s.lh[s.phase.tail] in s.replayed
    ensures Narrow(InstallNext(s), x)
  {
  }

  lemma InstallWraps(s: State, j: nat, x: int)
    requires Replaying(s, j, x) && s.phase.tail < |s.lh|
    ensures Enabled(s, InstallBlock) && Replaying(InstallNext(s), j, x)
    ensures InstallNext(s).lh == s.lh && InstallNext(s).init == s.init && InstallNext(s).replayed == s.replayed
    ensures InstallNext(s).phase == Recover(s.phase.tail + 1)
  {
    WrapFacts(s, j);
    InstallKeeps(s);
    InstallNarrow(s, x);
    hide DiskInv, Wrapped, Narrow;
  }

  lemma {:induction false} FinishInstall(s: State, j: nat, x: int) returns (run: seq<Action>)
    requires Replaying(s, j, x) && s.phase.tail <= |s.lh|
    ensures CanRun(s, run) && forall i :: 0 <= i < |run| ==> run[i] == InstallBlock
    ensures var e := Run(s, run);
            && Replaying(e, j, x) && e.phase == Recover(|e.lh|)
            && e.lh == s.lh && e.init == s.init && e.replayed == s.replayed
    decreases |s.lh| - s.phase.tail
  {
    hide Enabled, DiskInv, InstallNext;
    if s.phase.tail == |s.lh| {
      run := [];
    } else {
      InstallWraps(s, j, x);
      var rest := FinishInstall(Next(s, InstallBlock), j, x);
      run := [InstallBlock] + rest;
      assert run[1..] == rest;
    }
  }

  /** Running with an empty log; block b's count is still one below zero, and x is not cached. */
  ghost predicate Ready(s: State, b: int, x: int) {
    && s.phase.Running? && Fresh(s) && s.lh == [] && Header(s.disk[LOGSTART]) == []
    && IsHome(b) && Wrapped(s, b) && IsHome(x) && x !in s.cache && |Bread(s, LOGSTART).words| == WORDS
  }

  lemma Reopen(s: State, j: nat, x: int)
    requires Replaying(s, j, x) && s.phase == Recover(|s.lh|) && IsHome(x) && x !in s.lh
    ensures CanRun(s, [InstallDone, ClearHeader])
    ensures var e := Run(s, [InstallDone, ClearHeader]); Ready(e, s.lh[j], x) && e.init == s.init
  {
    LogAreaIsClean(s, LOGSTART);
    HomeEntry(s, j);
    hide Coherent, PhaseInv;
    Two(s, InstallDone, ClearHeader);
  }

  /** Operation 0 has begun; process 1 waits for x's buffer, whose count is 0. */
  ghost predicate Stolen(s: State, b: int, x: int) {
    && s.phase.Running? && s.ops == [Op(0, {})] && s.lh == [] && Header(s.disk[LOGSTART]) == []
    && s.committed == [] && s.current == [] && s.history == []
    && s.holds == map[1 := Hold(x, x, Wait)] && IsHome(x) && IsHome(b) && b !in s.cache
    && x in s.cache && s.cache[x].refcnt == 0 && |Bread(s, LOGSTART).words| == WORDS
  }

  /** Process 0 has read b, whose count came to 0; process 1 has taken the buffer for x. */
  ghost predicate Taken(s: State, b: int, x: int) {
    && s.phase.Running? && s.ops == [Op(0, {})] && s.lh == [] && Header(s.disk[LOGSTART]) == []
    && s.committed == [] && s.current == [] && s.history == []
    && s.holds == map[0 := Hold(b, x, Own), 1 := Hold(x, x, Wait)] && IsHome(x) && IsHome(b) && b !in s.cache
    && x in s.cache && s.cache[x].refcnt == 1 && |Bread(s, LOGSTART).words| == WORDS
  }

  ghost function ReadSteps(b: int, x: int): seq<Action> {
    [Begin(0), Hit(0, b)] + [Lock(0), Miss(1, x, Some(b))]
  }

  /** Process 0 has looked b up, which brings its count to 0. */
  ghost predicate LookedUp(s: State, b: int, x: int) {
    && s.phase.Running? && s.ops == [Op(0, {})] && s.lh == [] && Header(s.disk[LOGSTART]) == []
    && s.committed == [] && s.current == [] && s.history == []
    && s.holds == map[0 := Hold(b, b, Wait)] && IsHome(x) && IsHome(b) && x !in s.cache
    && b in s.cache && s.cache[b].refcnt == 0 && |Bread(s, LOGSTART).words| == WORDS
  }

  lemma LookUp(s: State, b: int, x: int)
    requires Ready(s, b, x)
    ensures CanRun(s, [Begin(0), Hit(0, b)])
    ensures var e := Run(s, [Begin(0), Hit(0, b)]); LookedUp(e, b, x) && e.disk == s.disk && e.init == s.init
  {
    Two(s, Begin(0), Hit(0, b));
  }

  lemma LockRead(s: State, b: int, x: int)
    requires LookedUp(s, b, x)
    ensures Enabled(s, Lock(0))
    ensures var e := LockNext(s, 0);
            && LookedUp(e.(holds := s.holds), b, x) && e.holds == map[0 := Hold(b, b, Own)]
            && e.disk == s.disk && e.init == s.init
  {
  }

  lemma TakeAway(s: State, b: int, x: int)
    requires LookedUp(s, b, x)
    ensures CanRun(s, [Lock(0), Miss(1, x, Some(b))])
    ensures var e := Run(s, [Lock(0), Miss(1, x, Some(b))]); Taken(e, b, x) && e.disk == s.disk && e.init == s.init
  {
    LockRead(s, b, x);
    var m := LockNext(s, 0);
    assert Next(s, Lock(0)) == m;
    hide LockNext, Next;
    MissRead(m, b, x);
    Two(s, Lock(0), Miss(1, x, Some(b)));
  }

  lemma MissRead(s: State, b: int, x: int)
    requires LookedUp(s.(holds := map[0 := Hold(b, b, Wait)]), b, x) && s.holds == map[0 := Hold(b, b, Own)]
    ensures Enabled(s, Miss(1, x, Some(b)))
    ensures var e := Next(s, Miss(1, x, Some(b))); Taken(e, b, x) && e.disk == s.disk && e.init == s.init
  {
  }

  lemma ReadAndTake(s: State, b: int, x: int)
    requires Ready(s, b, x)
    ensures CanRun(s, ReadSteps(b, x))
    ensures var e := Run(s, ReadSteps(b, x)); Taken(e, b, x) && e.disk == s.disk && e.init == s.init
  {
    hide Enabled, Next, Ready, LookedUp, Taken, CanRun, Run;
    LookUp(s, b, x);
    TakeAway(Run(s, [Begin(0), Hit(0, b)]), b, x);
    Concat(s, [Begin(0), Hit(0, b)], [Lock(0), Miss(1, x, Some(b))]);
  }

  lemma Release(s: State, b: int, x: int)
    requires Taken(s, b, x)
    ensures CanRun(s, [Unlock(0), Drop(0)])
    ensures var e := Run(s, [Unlock(0), Drop(0)]); Stolen(e, b, x) && e.disk == s.disk && e.init == s.init
  {
    Two(s, Unlock(0), Drop(0));
  }

  /** x is logged, its buffer is valid, unwritten, and process 1 is about to release it. */
  ghost predicate Logged(s: State, b: int, x: int, v: Block) {
    && s.phase.Running? && s.lh == [x] && |s.ops| == 1 && Header(s.disk[LOGSTART]) == []
    && s.committed == [] && s.current == [Update(0, x, v)] && s.history == s.current
    && s.holds == map[1 := Hold(x, x, Own)] && IsHome(x) && IsHome(b) && b !in s.cache
    && x in s.cache && s.cache[x].refcnt == 1 && |Bread(s, LOGSTART).words| == WORDS
  }

  lemma WriteTaken(s: State, b: int, x: int, v: Block)
    requires Stolen(s, b, x)
    ensures CanRun(s, [Lock(1), LogWrite(1, 0, v)])
    ensures var e := Run(s, [Lock(1), LogWrite(1, 0, v)]); Logged(e, b, x, v) && e.disk == s.disk && e.init == s.init
  {
    Two(s, Lock(1), LogWrite(1, 0, v));
  }

  /** x is the one block logged, its buffer has been taken, and the commit is about to copy it. */
  ghost predicate Gone(s: State, x: int, v: Block) {
    && s.phase == CopyLog(0) && s.lh == [x] && x !in s.cache && IsHome(x) && Header(s.disk[LOGSTART]) == []
    && s.current == [Update(0, x, v)] && s.history == s.current && s.committed == []
    && |Bread(s, LOGSTART).words| == WORDS
  }

  ghost function LeaveSteps(b: int, x: int): seq<Action> {
    [Unlock(1), Drop(1)] + [Miss(2, b, Some(x)), End(0)]
  }

  lemma LetGo(s: State, b: int, x: int, v: Block)
    requires Logged(s, b, x, v)
    ensures CanRun(s, [Unlock(1), Drop(1)])
    ensures var e := Run(s, [Unlock(1), Drop(1)]);
            && Logged(e.(holds := s.holds, cache := s.cache), b, x, v) && e.holds == map[]
            && e.cache.Keys == s.cache.Keys && e.cache[x].refcnt == 0 && Bread(e, LOGSTART) == Bread(s, LOGSTART)
            && e.disk == s.disk && e.init == s.init
  {
    Two(s, Unlock(1), Drop(1));
  }

  lemma TakeLogged(s: State, b: int, x: int, v: Block)
    requires s.phase.Running? && s.lh == [x] && |s.ops| == 1 && Header(s.disk[LOGSTART]) == []
    requires s.committed == [] && s.current == [Update(0, x, v)] && s.history == s.current && s.holds == map[]
    requires IsHome(x) && IsHome(b) && b !in s.cache && x in s.cache && s.cache[x].refcnt == 0
    requires |Bread(s, LOGSTART).words| == WORDS
    ensures CanRun(s, [Miss(2, b, Some(x)), End(0)])
    ensures var e := Run(s, [Miss(2, b, Some(x)), End(0)]); Gone(e, x, v) && e.disk == s.disk && e.init == s.init
  {
    Two(s, Miss(2, b, Some(x)), End(0));
  }

  lemma GiveUp(s: State, b: int, x: int, v: Block)
    requires Logged(s, b, x, v)
    ensures CanRun(s, LeaveSteps(b, x))
    ensures var e := Run(s, LeaveSteps(b, x)); Gone(e, x, v) && e.disk == s.disk && e.init == s.init
  {
    hide Enabled, Next, Gone, CanRun, Run;
    LetGo(s, b, x, v);
    TakeLogged(Run(s, [Unlock(1), Drop(1)]), b, x, v);
    Concat(s, [Unlock(1), Drop(1)], [Miss(2, b, Some(x)), End(0)]);
  }

  lemma CopyStale(s: State, x: int, v: Block)
    requires Gone(s, x, v)
    ensures CanRun(s, [CopyBlock, CopyDone])
    ensures var m := Run(s, [CopyBlock, CopyDone]);
            && m.phase.WriteHead? && m.lh == [x] && m.disk[Slot(0)] == s.disk[x] && m.init == s.init
            && m.current == s.current && m.history == s.history && m.committed == []
            && |Bread(m, LOGSTART).words| == WORDS
  {
    Two(s, CopyBlock, CopyDone);
  }

  lemma CommitStale(s: State, x: int, v: Block)
    requires Gone(s, x, v)
    ensures CanRun(s, [CopyBlock, CopyDone] + [CommitHeader])
    ensures var e := Run(s, [CopyBlock, CopyDone] + [CommitHeader]);
            && e.committed == [[Update(0, x, v)]] && e.history == [Update(0, x, v)] && e.init == s.init
            && AfterRecovery(e.disk, x) == s.disk[x]
  {
    CopyStale(s, x, v);
    var m := Run(s, [CopyBlock, CopyDone]);
    assert [CommitHeader][1..] == [];
    assert Run(m, [CommitHeader]) == CommitNext(m);
    Concat(s, [CopyBlock, CopyDone], [CommitHeader]);
  }

  /** A full block other than the given one. */
  function Other(d: Block): (v: Block)
    ensures v != d && |v.words| == WORDS
  {
    var one := Block(seq(WORDS, _ => 1));
    assert one.words[0] != ZeroBlock().words[0];
    if d == ZeroBlock() then one else ZeroBlock()
  }

  /** From the reopened log: b is read and x is written, committed and lost. */
  lemma ReadLoses(s: State, b: int, x: int) returns (run: seq<Action>)
    requires Ready(s, b, x)
    ensures CanRun(s, run) && Crash !in run
    ensures forall i :: 0 <= i < |run| && (run[i].Hit? || run[i].Miss?) ==> run[i].block == b || run[i].block == x
    ensures var e := Run(s, run); var u := Update(0, x, Other(s.disk[x]));
            && e.committed == [[u]] && e.history == [u] && e.init == s.init && AfterRecovery(e.disk, x) == s.disk[x]
  {
    hide Enabled, Next, Ready, Taken, Stolen, Logged, Gone, CanRun, Run;
    ReadyFacts(s, b, x);
    var v := Other(s.disk[x]);
    ReadAndTake(s, b, x);
    var s1 := Run(s, ReadSteps(b, x));
    Release(s1, b, x);
    Concat(s, ReadSteps(b, x), [Unlock(0), Drop(0)]);
    var s2 := Run(s1, [Unlock(0), Drop(0)]);
    var r2 := ReadSteps(b, x) + [Unlock(0), Drop(0)];
    WriteTaken(s2, b, x, v);
    var s3 := Run(s2, [Lock(1), LogWrite(1, 0, v)]);
    Concat(s, r2, [Lock(1), LogWrite(1, 0, v)]);
    var r3 := r2 + [Lock(1), LogWrite(1, 0, v)];
    GiveUp(s3, b, x, v);
    var s4 := Run(s3, LeaveSteps(b, x));
    Concat(s, r3, LeaveSteps(b, x));
    CommitStale(s4, x, v);
    Concat(s, r3 + LeaveSteps(b, x), [CopyBlock, CopyDone] + [CommitHeader]);
    run := r3 + LeaveSteps(b, x) + ([CopyBlock, CopyDone] + [CommitHeader]);
  }

  lemma ReadyFacts(s: State, b: int, x: int)
    requires Ready(s, b, x)
    ensures IsHome(x) && IsHome(b)
  {
  }

  /** Some number from lo on, close by, is not listed. */
  lemma {:induction false} Unlisted(lh: seq<int>, lo: int) returns (x: int)
    ensures lo <= x <= lo + |lh| && x !in lh
    decreases |lh|
  {
    if lo !in lh {
      x := lo;
    } else {
      var i :| 0 <= i < |lh| && lh[i] == lo;
      var rest := lh[..i] + lh[i + 1..];
      x := Unlisted(rest, lo + 1);
      assert forall j :: 0 <= j < |lh| && j != i ==> lh[j] in rest by {
        assert forall j :: 0 <= j < i ==> lh[j] == rest[j];
        assert forall j :: i < j < |lh| ==> lh[j] == rest[j - 1];
      }
    }
  }

  lemma BootReplays(s: State, b: int, x: int) returns (j: nat)
    requires Boot(s) && b in s.lh
    ensures Replaying(s, j, x) && s.lh[j] == b && s.phase == Recover(0)
  {
    BootInv(s);
    j :| 0 <= j < |s.lh| && s.lh[j] == b;
  }

  /** Recovery, with b among the blocks it replays and x not. */
  lemma Recovered(s: State, b: int, x: int) returns (run: seq<Action>)
    requires Boot(s) && b in s.lh && IsHome(x) && x !in s.lh
    ensures CanRun(s, run) && Crash !in run && forall i :: 0 <= i < |run| ==> !run[i].Hit? && !run[i].Miss?
    ensures Ready(Run(s, run), b, x) && Run(s, run).init == s.init
  {
    hide Enabled, Next, Ready, CanRun, Run, Boot, Replaying;
    var j := BootReplays(s, b, x);
    ReplayBounds(s, j, x);
    var r1 := FinishInstall(s, j, x);
    var s1 := Run(s, r1);
    ReplayBounds(s1, j, x);
    Reopen(s1, j, x);
    Concat(s, r1, [InstallDone, ClearHeader]);
    run := r1 + [InstallDone, ClearHeader];
  }

  lemma ReplayBounds(s: State, j: nat, x: int)
    requires Replaying(s, j, x)
    ensures j < |s.lh|
  {
  }

  /** From any boot, some run that merely reads a given replayed block loses a committed update of another. */
  lemma LoseUpdate(s: State, b: int) returns (run: seq<Action>)
    requires Boot(s) && b in s.lh
    ensures OnlyReads(s, run, b) && !Faithful(Run(s, run))
  {
    var x := Unlisted(s.lh, 100);
    assert |s.lh| < NLOG && x !in s.replayed;
    hide Enabled, Next, Ready, CanRun, Run, Faithful, AfterRecovery, Boot, ContentsAll;
    var r1 := Recovered(s, b, x);
    var s1 := Run(s, r1);
    ReadyFacts(s1, b, x);
    var r2 := ReadLoses(s1, b, x);
    Concat(s, r1, r2);
    run := r1 + r2;
    assert GetsOnly(run, s.replayed, b);
    var u := Update(0, x, Other(s1.disk[x]));
    SingleUpdate(s.init, u);
    Unfaithful(Run(s, run), s.init, u);
  }

  lemma HomeEntry(s: State, j: nat)
    requires DiskInv(s) && j < |s.lh|
    ensures IsHome(s.lh[j])
  {
  }

  lemma Unfaithful(e: State, init: Disk, u: Update)
    requires e.committed == [[u]] && e.init == init && IsHome(u.block)
    requires AfterRecovery(e.disk, u.block) != ContentsAll(init, [[u]])[u.block]
    ensures !Faithful(e)
  {
  }

  lemma SingleUpdate(d: Disk, u: Update)
    requires IsHome(u.block)
    ensures ContentsAll(d, [[u]])[u.block] == u.data
  {
    assert [[u]][..0] == [] && [u][..0] == [];
  }

  /**
   recover_from_log calls bunpin without a matching bpin, so after replaying a log the
   counts of the replayed buffers are off by one: a process that looks one up brings its
   count to zero, and bget may take the buffer from under it. In the runs of a boot up to
   the next crash that look up no replayed block other than b, every committed update is
   kept if and only if b itself was not replayed; it makes no difference if in these runs
   no replayed block is ever written.
   */
  lemma ReplayedBlockIff(s: State, b: int)
    requires Boot(s)
    ensures (forall run :: CanRun(s, run) && NoCrash(run) && GetsOnly(run, s.replayed, b) ==> Faithful(Run(s, run)))
            <==> b !in s.lh
    ensures (forall run :: OnlyReads(s, run, b) ==> Faithful(Run(s, run))) <==> b !in s.lh
  {
    if b !in s.lh {
      BootInv(s);
      forall run | CanRun(s, run) && NoCrash(run) && GetsOnly(run, s.replayed, b) ensures Faithful(Run(s, run)) {
        SparingFaithful(s, run, b);
      }
    } else {
      var run := LoseUpdate(s, b);
    }
  }

  /** So a boot keeps every committed update, in every run up to the next crash, iff it found the header empty. */
  lemma BootKeepsUpdatesIff(s: State)
    requires Boot(s)
    ensures (forall run :: CanRun(s, run) && NoCrash(run) ==> Faithful(Run(s, run))) <==> s.lh == []
  {
    if s.lh == [] {
      BootInv(s);
      forall run | CanRun(s, run) && NoCrash(run) ensures Faithful(Run(s, run)) {
        SparingFaithful(s, run, -1);
      }
    } else {
      var run := LoseUpdate(s, s.lh[0]);
    }
  }

  // ----- log space -----

  /** Slots the outstanding operations may still take if each logs at most `budget` distinct blocks. */
  ghost function Reserve(ops: seq<Op>, budget: int): int {
    if ops == [] then 0 else Reserve(ops[..|ops| - 1], budget) + budget - |ops[|ops| - 1].logged|
  }

  lemma {:induction false} ReserveUpdate(ops: seq<Op>, k: nat, op: Op, budget: int)
    requires k < |ops|
    ensures Reserve(ops[k := op], budget) == Reserve(ops, budget) + |ops[k].logged| - |op.logged|
  {
    var n := |ops| - 1;
    if k < n {
      ReserveUpdate(ops[..n], k, op, budget);
      assert ops[k := op][..n] == ops[..n][k := op];
    } else {
      assert ops[k := op][..n] == ops[..n];
    }
  }

  lemma {:induction false} ReserveRemove(ops: seq<Op>, k: nat, budget: int)
    requires k < |ops|
    ensures Reserve(ops[..k] + ops[k + 1..], budget) == Reserve(ops, budget) - (budget - |ops[k].logged|)
  {
    var n := |ops| - 1;
    if k < n {
      ReserveRemove(ops[..n], k, budget);
      assert (ops[..k] + ops[k + 1..])[..n - 1] == ops[..n][..k] + ops[..n][k + 1..];
    } else {
      assert ops[..k] + ops[k + 1..] == ops[..n];
    }
  }

  lemma {:induction false} ReserveBounds(ops: seq<Op>, budget: int)
    requires WithinBudget(ops, budget)
    ensures 0 <= Reserve(ops, budget) <= budget * |ops|
  {
    if ops != [] { ReserveBounds(ops[..|ops| - 1], budget); }
  }

  ghost predicate WithinBudget(ops: seq<Op>, budget: int) {
    forall k :: 0 <= k < |ops| ==> |ops[k].logged| <= budget
  }

  ghost predicate BudgetRun(s: State, run: seq<Action>, budget: int)
    requires CanRun(s, run)
    decreases |run|
  {
    WithinBudget(s.ops, budget) && (run == [] || BudgetRun(Next(s, run[0]), run[1..], budget))
  }

  ghost predicate SpaceInv(s: State) {
    && (s.phase.Running? && s.ops == [] ==> s.lh == [])
    && (s.phase.Running? ==> |s.lh| + Reserve(s.ops, MAXOPBLOCKS - 1) <= NLOG - 2)
    && (forall k, b :: 0 <= k < |s.ops| && b in s.ops[k].logged ==> b in s.lh)
  }

  lemma BeginSpace(s: State, op: nat)
    requires SpaceInv(s) && Enabled(s, Begin(op)) && WithinBudget(s.ops, MAXOPBLOCKS - 1)
    ensures SpaceInv(Next(s, Begin(op)))
  {
    assert (s.ops + [Op(op, {})])[..|s.ops|] == s.ops;
    ReserveBounds(s.ops, MAXOPBLOCKS - 1);
  }

  lemma WriteSpace(s: State, h: nat, k: nat, data: Block)
    requires SpaceInv(s) && Enabled(s, LogWrite(h, k, data))
    ensures SpaceInv(LogWriteNext(s, h, k, data))
  {
    var logged := s.ops[k].logged;
    var b := s.holds[h].at;
    assert if b in logged then logged + {b} == logged else |logged + {b}| == |logged| + 1;
    ReserveUpdate(s.ops, k, LogWriteNext(s, h, k, data).ops[k], MAXOPBLOCKS - 1);
  }

  lemma EndSpace(s: State, k: nat)
    requires SpaceInv(s) && Enabled(s, End(k)) && WithinBudget(s.ops, MAXOPBLOCKS - 1)
    ensures SpaceInv(EndNext(s, k))
  {
    var s' := EndNext(s, k);
    ReserveRemove(s.ops, k, MAXOPBLOCKS - 1);
    assert forall j :: 0 <= j < |s'.ops| ==> s'.ops[j] == s.ops[if j < k then j else j + 1];
  }

  lemma StepSpace(s: State, a: Action)
    requires DiskInv(s) && SpaceInv(s) && Enabled(s, a) && WithinBudget(s.ops, MAXOPBLOCKS - 1)
    ensures SpaceInv(Next(s, a))
  {
    match a
    case Begin(op) => BeginSpace(s, op);
    case LogWrite(h, k, data) => WriteSpace(s, h, k, data);
    case End(k) => EndSpace(s, k);
    case _ =>
  }

  lemma {:induction false} RunSpace(s: State, run: seq<Action>)
    requires DiskInv(s) && SpaceInv(s) && CanRun(s, run) && BudgetRun(s, run, MAXOPBLOCKS - 1)
    ensures DiskInv(Run(s, run)) && SpaceInv(Run(s, run)) && WithinBudget(Run(s, run).ops, MAXOPBLOCKS - 1)
    decreases |run|
  {
    hide Enabled, Next, DiskInv, SpaceInv;
    if run != [] {
      StepKeepsDisk(s, run[0]);
      StepSpace(s, run[0]);
      RunSpace(Next(s, run[0]), run[1..]);
    }
  }

  /** If no operation logs more than MAXOPBLOCKS - 1 distinct blocks, no log_write of any run panics. */
  lemma LogNeverOverflows(s: State, run: seq<Action>)
    requires Boot(s) && CanRun(s, run) && BudgetRun(s, run, MAXOPBLOCKS - 1)
    ensures Run(s, run).phase.Running? ==> !TooBig(Run(s, run))
  {
    BootInv(s);
    RunSpace(s, run);
    ReserveBounds(Run(s, run).ops, MAXOPBLOCKS - 1);
  }

  lemma {:induction false} BudgetConcat(s: State, a: seq<Action>, b: seq<Action>, budget: int)
    requires CanRun(s, a) && CanRun(Run(s, a), b) && BudgetRun(s, a, budget) && BudgetRun(Run(s, a), b, budget)
    ensures CanRun(s, a + b) && BudgetRun(s, a + b, budget) && Run(s, a + b) == Run(Run(s, a), b)
    decreases |a|
  {
    hide Enabled, Next, WithinBudget;
    Concat(s, a, b);
    if a == [] {
      assert a + b == b;
    } else {
      BudgetConcat(Next(s, a[0]), a[1..], b, budget);
      assert (a + b)[1..] == a[1..] + b;
    }
  }

  lemma BudgetSnoc(s: State, run: seq<Action>, a: Action, budget: int)
    requires CanRun(s, run) && BudgetRun(s, run, budget) && Enabled(Run(s, run), a)
    requires WithinBudget(Run(s, run).ops, budget) && WithinBudget(Next(Run(s, run), a).ops, budget)
    ensures CanRun(s, run + [a]) && BudgetRun(s, run + [a], budget) && Run(s, run + [a]) == Next(Run(s, run), a)
  {
    assert [a][1..] == [];
    BudgetConcat(s, run, [a], budget);
  }

  ghost function Get(s: State, b: int): Action { if b in s.cache then Hit(0, b) else Miss(0, b, None) }

  /** bread, a change, log_write and brelse of block b by operation k, when no buffer is in use. */
  ghost function WriteSteps(s: State, k: nat, b: int): seq<Action> {
    [Get(s, b), Lock(0)] + [LogWrite(0, k, ZeroBlock()), Unlock(0)] + [Drop(0)]
  }

  lemma TwoBudget(s: State, a: Action, b: Action)
    requires Enabled(s, a) && Enabled(Next(s, a), b) && WithinBudget(s.ops, MAXOPBLOCKS)
    requires WithinBudget(Next(s, a).ops, MAXOPBLOCKS) && WithinBudget(Next(Next(s, a), b).ops, MAXOPBLOCKS)
    ensures CanRun(s, [a, b]) && Run(s, [a, b]) == Next(Next(s, a), b) && BudgetRun(s, [a, b], MAXOPBLOCKS)
  {
    hide Enabled, Next, WithinBudget;
    Two(s, a, b);
    assert [a, b][1..] == [b] && [b][1..] == [];
    assert BudgetRun(Next(s, a), [b], MAXOPBLOCKS);
  }

  lemma Held(s: State, b: int)
    requires s.phase.Running? && s.holds == map[] && IsHome(b) && WithinBudget(s.ops, MAXOPBLOCKS)
    ensures CanRun(s, [Get(s, b), Lock(0)]) && BudgetRun(s, [Get(s, b), Lock(0)], MAXOPBLOCKS)
    ensures var e := Run(s, [Get(s, b), Lock(0)]);
            && e.phase.Running? && e.holds == map[0 := Hold(b, b, Own)]
            && e.lh == s.lh && e.ops == s.ops && e.seen == s.seen
  {
    TwoBudget(s, Get(s, b), Lock(0));
  }

  lemma Written(s: State, k: nat, b: int)
    requires s.phase.Running? && s.holds == map[0 := Hold(b, b, Own)] && k < |s.ops| && IsHome(b) && b !in s.lh
    requires !TooBig(s) && WithinBudget(s.ops, MAXOPBLOCKS) && |s.ops[k].logged| < MAXOPBLOCKS
    ensures var r := [LogWrite(0, k, ZeroBlock()), Unlock(0)];
            && CanRun(s, r) && BudgetRun(s, r, MAXOPBLOCKS)
            && var e := Run(s, r);
            && e.phase.Running? && e.holds == map[0 := Hold(b, b, Leave)] && e.lh == s.lh + [b] && e.seen == s.seen
            && e.ops == s.ops[k := Op(s.ops[k].id, s.ops[k].logged + {b})] && WithinBudget(e.ops, MAXOPBLOCKS)
  {
    TwoBudget(s, LogWrite(0, k, ZeroBlock()), Unlock(0));
  }

  lemma OneWrite(s: State, k: nat, b: int)
    requires s.phase.Running? && s.holds == map[] && k < |s.ops| && IsHome(b) && b !in s.lh && !TooBig(s)
    requires WithinBudget(s.ops, MAXOPBLOCKS) && |s.ops[k].logged| < MAXOPBLOCKS
    ensures CanRun(s, WriteSteps(s, k, b)) && BudgetRun(s, WriteSteps(s, k, b), MAXOPBLOCKS)
    ensures var e := Run(s, WriteSteps(s, k, b));
            && e.phase.Running? && e.holds == map[] && e.lh == s.lh + [b] && e.seen == s.seen
            && e.ops == s.ops[k := Op(s.ops[k].id, s.ops[k].logged + {b})] && WithinBudget(e.ops, MAXOPBLOCKS)
  {
    hide WithinBudget, CanRun, Run, BudgetRun;
    var r1, r2 := [Get(s, b), Lock(0)], [LogWrite(0, k, ZeroBlock()), Unlock(0)];
    Held(s, b);
    var m := Run(s, r1);
    Written(m, k, b);
    BudgetConcat(s, r1, r2, MAXOPBLOCKS);
    BudgetSnoc(s, r1 + r2, Drop(0), MAXOPBLOCKS);
    assert WriteSteps(s, k, b) == r1 + r2 + [Drop(0)];
  }

  lemma Nothing(s: State) returns (run: seq<Action>, e: State)
    requires WithinBudget(s.ops, MAXOPBLOCKS)
    ensures run == [] && e == s && CanRun(s, run) && Run(s, run) == s && BudgetRun(s, run, MAXOPBLOCKS)
  {
    run, e := [], s;
  }

  /** Operation k logs m blocks no one has logged yet, numbered upward from `base`. */
  lemma {:induction false} WriteMany(s: State, k: nat, base: int, m: nat) returns (run: seq<Action>, e: State)
    requires s.phase.Running? && s.holds == map[] && k < |s.ops| && |s.lh| + m < NLOG
    requires 100 <= base && base + m < FSSIZE
    requires |s.ops[k].logged| + m <= MAXOPBLOCKS && WithinBudget(s.ops, MAXOPBLOCKS)
    requires forall b :: b in s.lh ==> b < base
    requires forall b :: b in s.ops[k].logged ==> b < base
    ensures CanRun(s, run) && BudgetRun(s, run, MAXOPBLOCKS) && Run(s, run) == e
    ensures e.phase.Running? && e.holds == map[] && |e.lh| == |s.lh| + m && |e.ops| == |s.ops| && e.seen == s.seen
    ensures forall b :: b in e.lh ==> b < base + m
    ensures forall j :: 0 <= j < |s.ops| ==> e.ops[j].id == s.ops[j].id && (j != k ==> e.ops[j] == s.ops[j])
    ensures |e.ops[k].logged| == |s.ops[k].logged| + m
    decreases m
  {
    hide Enabled, Next, CanRun, Run, BudgetRun;
    if m == 0 {
      run, e := Nothing(s);
    } else {
      OneWrite(s, k, base);
      var first := WriteSteps(s, k, base);
      var rest;
      rest, e := WriteMany(Run(s, first), k, base + 1, m - 1);
      run := first + rest;
      BudgetConcat(s, first, rest, MAXOPBLOCKS);
    }
  }

  lemma BeginMore(s: State, run: seq<Action>, op: nat)
    requires CanRun(s, run) && BudgetRun(s, run, MAXOPBLOCKS) && Enabled(Run(s, run), Begin(op))
    requires WithinBudget(Run(s, run).ops, MAXOPBLOCKS)
    ensures CanRun(s, run + [Begin(op)]) && BudgetRun(s, run + [Begin(op)], MAXOPBLOCKS)
    ensures var m := Run(s, run);
            Run(s, run + [Begin(op)]) == m.(ops := m.ops + [Op(op, {})], seen := m.seen + {op})
  {
    BudgetSnoc(s, run, Begin(op), MAXOPBLOCKS);
  }

  lemma ThreeBegin(s: State) returns (run: seq<Action>, e: State)
    requires s.phase.Running? && Fresh(s) && s.lh == []
    ensures CanRun(s, run) && BudgetRun(s, run, MAXOPBLOCKS) && Run(s, run) == e
    ensures e.phase.Running? && e.lh == [] && e.holds == map[]
    ensures e.ops == [Op(0, {}), Op(1, {}), Op(2, {})] && e.seen == {0, 1, 2}
  {
    hide CanRun, Run, BudgetRun, Next;
    run, e := Nothing(s);
    BeginMore(s, run, 0);
    run := run + [Begin(0)];
    BeginMore(s, run, 1);
    run := run + [Begin(1)];
    BeginMore(s, run, 2);
    run := run + [Begin(2)];
    e := Run(s, run);
  }

  /** Three operations start; one fills its budget and ends, another ends, a fourth is admitted. */
  lemma TwoTenants(s: State) returns (run: seq<Action>, e: State)
    requires s.phase.Running? && Fresh(s) && s.lh == []
    ensures CanRun(s, run) && BudgetRun(s, run, MAXOPBLOCKS) && Run(s, run) == e
    ensures e.phase.Running? && e.holds == map[] && |e.ops| == 2 && e.ops[0].logged == {} && e.ops[1].logged == {}
    ensures |e.lh| == 10 && forall b :: b in e.lh ==> b < 110
  {
    var begins, e0 := ThreeBegin(s);
    var writes, e1 := WriteMany(e0, 0, 100, 10);
    BudgetConcat(s, begins, writes, MAXOPBLOCKS);
    run := begins + writes;
    BudgetSnoc(s, run, End(0), MAXOPBLOCKS);
    run := run + [End(0)];
    BudgetSnoc(s, run, End(1), MAXOPBLOCKS);
    run := run + [End(1)];
    BudgetSnoc(s, run, Begin(3), MAXOPBLOCKS);
    run := run + [Begin(3)];
    e := Run(s, run);
  }

  /** Recovery leads from any point of its install loop to a running system with an empty log. */
  lemma {:induction false} FinishRecovery(s: State) returns (run: seq<Action>)
    requires DiskInv(s) && Fresh(s) && s.phase.Recover? && s.phase.tail <= |s.lh|
    ensures CanRun(s, run) && BudgetRun(s, run, MAXOPBLOCKS)
    ensures var e := Run(s, run); e.phase.Running? && Fresh(e) && e.lh == []
    decreases |s.lh| - s.phase.tail
  {
    if s.phase.tail == |s.lh| {
      LogAreaIsClean(s, LOGSTART);
      BudgetSnoc(s, [], InstallDone, MAXOPBLOCKS);
      BudgetSnoc(s, [] + [InstallDone], ClearHeader, MAXOPBLOCKS);
      run := [] + [InstallDone] + [ClearHeader];
    } else {
      InstallKeeps(s);
      hide DiskInv, InstallNext;
      var rest := FinishRecovery(InstallNext(s));
      run := [InstallBlock] + rest;
      assert run[1..] == rest;
    }
  }

  /** The two then write what is left, one of them a block short of its budget. */
  lemma FillLog(s: State) returns (run: seq<Action>, e: State)
    requires s.phase.Running? && s.holds == map[] && |s.ops| == 2 && s.ops[0].logged == {} && s.ops[1].logged == {}
    requires |s.lh| == 10 && forall b :: b in s.lh ==> b < 110
    ensures CanRun(s, run) && BudgetRun(s, run, MAXOPBLOCKS) && Run(s, run) == e
    ensures e.phase.Running? && TooBig(e) && |e.ops| == 2 && |e.ops[1].logged| < MAXOPBLOCKS
  {
    hide Enabled, Next, CanRun, Run, BudgetRun;
    var r1, e1 := WriteMany(s, 0, 110, 10);
    assert e1.ops[1] == s.ops[1];
    var r2;
    r2, e := WriteMany(e1, 1, 120, 9);
    BudgetConcat(s, r1, r2, MAXOPBLOCKS);
    run := r1 + r2;
  }

  /**
   The bound is sharp: although begin_op reserves MAXOPBLOCKS slots per operation, from any
   boot a run in which no operation logs more than that many blocks reaches the panic of
   log_write.
   */
  lemma FullBudgetOverflows(s: State) returns (run: seq<Action>)
    requires Boot(s)
    ensures CanRun(s, run) && BudgetRun(s, run, MAXOPBLOCKS)
    ensures var e := Run(s, run); e.phase.Running? && TooBig(e) && |e.ops| > 1 && |e.ops[1].logged| < MAXOPBLOCKS
  {
    BootInv(s);
    hide Enabled, Next, CanRun, Run, BudgetRun, Pinned, WithinBudget;
    var r0 := FinishRecovery(s);
    var r1, e1 := TwoTenants(Run(s, r0));
    var r2, e2 := FillLog(e1);
    BudgetConcat(s, r0, r1, MAXOPBLOCKS);
    BudgetConcat(s, r0 + r1, r2, MAXOPBLOCKS);
    run := r0 + r1 + r2;
  }
}
