/** Every step keeps the counts, the exclusivity of writable pages, and the agreement with the eager memory. */
module CowSteps {
  import opened CowMachine
  import opened CowInvariant

  // ----- counting -----

  /** Steps that create and drop no reference. */
  ghost predicate NoRefChange(a: Action) {
    || a.Store? || a.Copyout? || a.CowStart? || a.CowTake? || a.CowFail? || a.Grow? || a.Exit?
    || a.ForkStart? || a.ForkPage? || a.ForkSkip? || a.ForkDone? || a.ForkFail? || a.UndoSkip? || a.UndoDone? || a.Push?
  }

  ghost predicate ForkStep(a: Action) {
    a.ForkStart? || a.ForkPage? || a.ForkSkip? || a.ForkDone? || a.ForkFail? || a.UndoSkip? || a.UndoDone?
  }

  lemma PointsKeptByForkPage(s: State, p: nat, r: Ref, f: nat)
    requires Shape(s) && Enabled(s, ForkPage(p))
    ensures Points(ForkPageNext(s, p), r, f) <==> Points(s, r, f)
  {
    assert ProcShape(s, p);
    if r.Leaf? { assert ProcShape(s, r.k.p) && LeafShape(s, r.k); }
  }

  lemma PointsKeptByForkMove(s: State, a: Action, r: Ref, f: nat)
    requires Shape(s) && Enabled(s, a) && (a.ForkStart? || a.ForkSkip? || a.ForkDone?)
    ensures Points(Next(s, a), r, f) <==> Points(s, r, f)
  {
    assert ProcShape(s, a.p);
    if r.Leaf? { assert ProcShape(s, r.k.p) && LeafShape(s, r.k); }
  }

  lemma PointsKeptByUndo(s: State, a: Action, r: Ref, f: nat)
    requires Shape(s) && Enabled(s, a) && (a.UndoSkip? || a.UndoDone?)
    ensures Points(Next(s, a), r, f) <==> Points(s, r, f)
  {
    assert ProcShape(s, a.p);
    if r.Leaf? { assert ProcShape(s, r.k.p) && LeafShape(s, r.k); }
  }

  lemma PointsKeptByFail(s: State, p: nat, r: Ref, f: nat)
    requires Shape(s) && Enabled(s, ForkFail(p))
    ensures Points(Next(s, ForkFail(p)), r, f) <==> Points(s, r, f)
  {
    assert ProcShape(s, p);
    if r.Leaf? { assert ProcShape(s, r.k.p) && LeafShape(s, r.k); }
  }

  lemma PointsKeptByFork(s: State, a: Action, r: Ref, f: nat)
    requires Shape(s) && Enabled(s, a) && ForkStep(a)
    ensures Points(Next(s, a), r, f) <==> Points(s, r, f)
  {
    hide Shape, Enabled, Points;
    if a.ForkPage? {
      PointsKeptByForkPage(s, a.p, r, f);
    } else if a.ForkStart? || a.ForkSkip? || a.ForkDone? {
      PointsKeptByForkMove(s, a, r, f);
    } else if a.ForkFail? {
      PointsKeptByFail(s, a.p, r, f);
    } else {
      PointsKeptByUndo(s, a, r, f);
    }
  }

  lemma PointsKept(s: State, a: Action, r: Ref, f: nat)
    requires Shape(s) && Enabled(s, a) && NoRefChange(a)
    ensures Points(Next(s, a), r, f) <==> Points(s, r, f)
  {
    hide Shape, Enabled, Points;
    if ForkStep(a) {
      PointsKeptByFork(s, a, r, f);
    } else {
      PointsKeptPlain(s, a, r, f);
    }
  }

  lemma PointsKeptPlain(s: State, a: Action, r: Ref, f: nat)
    requires Shape(s) && Enabled(s, a) && NoRefChange(a) && !ForkStep(a)
    ensures Points(Next(s, a), r, f) <==> Points(s, r, f)
  {
    if r.Leaf? { assert ProcShape(s, r.k.p) && LeafShape(s, r.k); }
    hide Shape;
  }

  lemma CountNoRefChange(s: State, a: Action)
    requires Shape(s) && Counting(s) && Enabled(s, a) && NoRefChange(a)
    ensures Counting(Next(s, a))
  {
    forall r, f: nat ensures Points(Next(s, a), r, f) <==> Points(s, r, f) { PointsKept(s, a, r, f); }
    CountingSame(s, Next(s, a));
  }

  /** The reference a kalloc creates or a kfree consumes. */
  ghost function RefOf(a: Action): Ref
    requires a.CowCopy? || a.Populate? || a.Hold? || a.CowFree? || a.Unmap? || a.Drop?
  {
    match a
    case CowCopy(p, _) => Mem(p)
    case CowFree(p) => Stale(p)
    case Populate(p, v, _, _, _) => Leaf(Key(p, v))
    case Unmap(p, v) => Leaf(Key(p, v))
    case Hold(k, _) => Held(k)
    case Drop(k) => Held(k)
  }

  lemma PointsTaken(s: State, a: Action, x: Ref, g: nat)
    requires Shape(s) && Enabled(s, a) && (a.CowCopy? || a.Populate? || a.Hold?)
    ensures Points(Next(s, a), x, g) <==> Points(s, x, g) || (x == RefOf(a) && g == a.f)
  {
    if !a.Hold? { assert ProcShape(s, a.p); }
  }

  lemma CountTake(s: State, a: Action)
    requires Shape(s) && Counting(s) && Enabled(s, a) && (a.CowCopy? || a.Populate? || a.Hold?)
    ensures Counting(Next(s, a))
  {
    var s' := Next(s, a);
    forall x, g: nat ensures Points(s', x, g) <==> Points(s, x, g) || (x == RefOf(a) && g == a.f) {
      PointsTaken(s, a, x, g);
    }
    CountingTake(s, s', a.f, RefOf(a));
  }

  ghost function FreedFrame(s: State, a: Action): nat
    requires Enabled(s, a) && (a.CowFree? || a.Unmap? || a.Drop?)
  {
    if a.CowFree? then s.pcs[a.p].stale else if a.Unmap? then Frame(s, Key(a.p, a.v)) else s.held[a.k]
  }

  lemma PointsReleased(s: State, a: Action, x: Ref, g: nat)
    requires Shape(s) && Enabled(s, a) && (a.CowFree? || a.Unmap? || a.Drop?)
    ensures Points(Next(s, a), x, g) <==> Points(s, x, g) && x != RefOf(a)
    ensures Points(s, RefOf(a), FreedFrame(s, a)) && FreedFrame(s, a) in s.frames
  {
    if !a.Drop? { assert ProcShape(s, a.p); }
    if a.Unmap? { assert LeafShape(s, Key(a.p, a.v)); }
  }

  lemma CountRelease(s: State, a: Action)
    requires Shape(s) && Counting(s) && Enabled(s, a) && (a.CowFree? || a.Unmap? || a.Drop?)
    ensures Counting(Next(s, a))
  {
    hide Points, ProcShape, RefOf;
    var s' := Next(s, a);
    forall x, g: nat ensures Points(s', x, g) <==> Points(s, x, g) && x != RefOf(a) {
      PointsReleased(s, a, x, g);
    }
    PointsReleased(s, a, RefOf(a), FreedFrame(s, a));
    CountingRelease(s, s', FreedFrame(s, a), RefOf(a));
  }

  lemma PointsUndone(s: State, p: nat, x: Ref, g: nat)
    requires Shape(s) && Enabled(s, UndoPage(p))
    ensures var k := Key(s.pcs[p].c, s.pcs[p].i);
            && (Points(UndoPageNext(s, p), x, g) <==> Points(s, x, g) && x != Leaf(k))
            && Points(s, Leaf(k), Frame(s, k)) && Frame(s, k) in s.frames
  {
    var k := Key(s.pcs[p].c, s.pcs[p].i);
    assert ProcShape(s, p) && ProcShape(s, k.p) && LeafShape(s, k);
  }

  lemma CountUndoPage(s: State, p: nat)
    requires Shape(s) && Counting(s) && Enabled(s, UndoPage(p))
    ensures Counting(UndoPageNext(s, p))
  {
    var k := Key(s.pcs[p].c, s.pcs[p].i);
    var s' := UndoPageNext(s, p);
    forall x, g: nat ensures Points(s', x, g) <==> Points(s, x, g) && x != Leaf(k) {
      PointsUndone(s, p, x, g);
    }
    PointsUndone(s, p, Leaf(k), Frame(s, k));
    CountingRelease(s, s', Frame(s, k), Leaf(k));
  }

  lemma PointsAdded(s: State, p: nat, x: Ref, g: nat)
    requires Shape(s) && Enabled(s, ForkAdd(p))
    ensures var k := Key(s.pcs[p].c, s.pcs[p].i);
            && k in s.ptes && Frame(s, k) == Frame(s, Key(p, s.pcs[p].i)) && Frame(s, k) in s.frames
            && (Points(ForkAddNext(s, p), x, g) <==> Points(s, x, g) || (x == Leaf(k) && g == Frame(s, k)))
            && !Points(s, Leaf(k), Frame(s, k)) && Points(s, Leaf(Key(p, s.pcs[p].i)), Frame(s, k))
  {
    var k := Key(s.pcs[p].c, s.pcs[p].i);
    assert ProcShape(s, p) && ProcShape(s, k.p) && LeafShape(s, k);
  }

  lemma CountForkAdd(s: State, p: nat)
    requires Shape(s) && Counting(s) && Enabled(s, ForkAdd(p))
    ensures Counting(ForkAddNext(s, p))
  {
    var k := Key(s.pcs[p].c, s.pcs[p].i);
    var s' := ForkAddNext(s, p);
    PointsAdded(s, p, Leaf(k), 0);
    var f := Frame(s, k);
    assert Basics(s) && s'.cnt == s.cnt[f := s.cnt[f] + 1];
    hide Shape, Points, Counting, Enabled, ForkAddNext, Basics;
    forall x, g: nat ensures Points(s', x, g) <==> Points(s, x, g) || (x == Leaf(k) && g == f) {
      PointsAdded(s, p, x, g);
    }
    CountingAdd(s, s', f, Leaf(k), Leaf(Key(p, k.v)));
  }

  lemma PointsMapped(s: State, p: nat, x: Ref, g: nat)
    requires Shape(s) && Enabled(s, CowMap(p))
    ensures var k := Key(p, s.pcs[p].v);
            && Points(s, Leaf(k), Frame(s, k)) && Frame(s, k) in s.frames && Points(s, Mem(p), s.pcs[p].mem)
            && (Points(CowMapNext(s, p), x, g) <==>
                  || (Points(s, x, g) && x != Leaf(k) && x != Mem(p))
                  || (x == Leaf(k) && g == s.pcs[p].mem) || (x == Stale(p) && g == Frame(s, k)))
            && !Points(s, Stale(p), g)
  {
    assert ProcShape(s, p) && LeafShape(s, Key(p, s.pcs[p].v));
  }

  lemma CountCowMap(s: State, p: nat)
    requires Shape(s) && Counting(s) && Exclusive(s) && Enabled(s, CowMap(p))
    ensures Counting(CowMapNext(s, p))
  {
    var k := Key(p, s.pcs[p].v);
    var mem, f := s.pcs[p].mem, Frame(s, k);
    var s' := CowMapNext(s, p);
    assert PcExclusive(s, p) && ProcShape(s, p);
    forall x, g: nat ensures Swapped(s, s', f, mem, Leaf(k), Mem(p), Stale(p), x, g) {
      PointsMapped(s, p, x, g);
    }
    PointsMapped(s, p, Leaf(k), f);
    SoleRef(s, Mem(p), Leaf(k), mem);
    CountingSwap(s, s', f, mem, Leaf(k), Mem(p), Stale(p));
  }

  /** A frame with one reference has no other. */
  lemma SoleRef(s: State, r: Ref, x: Ref, f: nat)
    requires Counting(s) && f in s.frames && f in s.cnt && s.cnt[f] == 1 && Points(s, r, f)
    ensures Refs(s, f) == {r}
    ensures Points(s, x, f) ==> x == r
  {
    assert Refs(s, f) == {r} by {
      assert r in Refs(s, f) && |Refs(s, f) - {r}| == 0;
    }
  }

  /** A referenced frame is neither free nor in limbo. */
  lemma Referenced(s: State, r: Ref, f: nat)
    requires Counting(s) && f in s.frames && f in s.cnt && Points(s, r, f)
    ensures s.cnt[f] >= 1 && f !in s.free && f !in s.limbo
  {
    assert r in Refs(s, f);
  }

  lemma StepCounting(s: State, a: Action)
    requires Shape(s) && Counting(s) && Exclusive(s) && Enabled(s, a)
    ensures Counting(Next(s, a))
  {
    hide Shape, Counting, Exclusive, Enabled;
    match a
    case CowCopy(_, _) => CountTake(s, a);
    case Populate(_, _, _, _, _) => CountTake(s, a);
    case Hold(_, _) => CountTake(s, a);
    case CowFree(_) => CountRelease(s, a);
    case Unmap(_, _) => CountRelease(s, a);
    case Drop(_) => CountRelease(s, a);
    case UndoPage(p) => CountUndoPage(s, p);
    case ForkAdd(p) => CountForkAdd(s, p);
    case CowMap(p) => CountCowMap(s, p);
    case _ => CountNoRefChange(s, a);
  }

  // ----- exclusivity -----

  /**
   Outside the references in `acting`, a referenced frame keeps its contents, and a count
   of one stays one.
   */
  ghost predicate Undisturbed(s: State, s': State, acting: set<Ref>, r: Ref, f: nat) {
    f in s.cnt && f in s.content && Points(s, r, f) && r !in acting ==>
      && f in s'.cnt && (s.cnt[f] == 1 ==> s'.cnt[f] == 1)
      && f in s'.content && s'.content[f] == s.content[f]
  }

  lemma CountedLeaf(s: State, k: Key)
    requires Shape(s) && k in s.ptes && (s.ptes[k].w || (s.pcs.Keys >= {k.p} && !s.pcs[k.p].Embryo?))
    ensures Counted(s, k) && Points(s, Leaf(k), Frame(s, k)) && Frame(s, k) in s.frames && Frame(s, k) in s.cnt
    ensures Frame(s, k) in s.content
  {
    assert ProcShape(s, k.p) && LeafShape(s, k);
    if s.pcs[k.p].Embryo? {
      assert ProcShape(s, s.pcs[k.p].parent);
    }
  }

  lemma LeafExclusiveKept(s: State, s': State, acting: set<Ref>, k: Key)
    requires Shape(s) && Exclusive(s) && SameLeaf(s, s', k) && Leaf(k) !in acting
    requires forall r, f: nat :: Undisturbed(s, s', acting, r, f)
    ensures LeafExclusive(s', k)
  {
    if k in s.ptes && s.ptes[k].w {
      CountedLeaf(s, k);
      assert LeafExclusive(s, k);
      assert Undisturbed(s, s', acting, Leaf(k), Frame(s, k));
    }
  }

  lemma PcExclusiveKept(s: State, s': State, acting: set<Ref>, p: nat)
    requires Shape(s) && Exclusive(s) && p in s.pcs && (s.pcs[p].CowRead? || s.pcs[p].CowCopied?)
    requires p in s'.pcs && s'.pcs[p] == s.pcs[p] && SameLeaf(s, s', Key(p, s.pcs[p].v))
    requires Leaf(Key(p, s.pcs[p].v)) !in acting && Mem(p) !in acting
    requires forall r, f: nat :: Undisturbed(s, s', acting, r, f)
    ensures PcExclusive(s', p)
  {
    var k := Key(p, s.pcs[p].v);
    assert ProcShape(s, p) && PcExclusive(s, p);
    CountedLeaf(s, k);
    assert Undisturbed(s, s', acting, Leaf(k), Frame(s, k));
    if s.pcs[p].CowCopied? {
      assert Points(s, Mem(p), s.pcs[p].mem);
      assert Undisturbed(s, s', acting, Mem(p), s.pcs[p].mem);
    }
  }

  /** The references whose frames a step may disturb. */
  ghost function Acting(s: State, a: Action): set<Ref>
    requires Enabled(s, a)
  {
    match a
    case Store(p, v, _) => {Leaf(Key(p, v))}
    case Copyout(p, v, _) => {Leaf(Key(p, v))}
    case CowFree(p) => {Stale(p)}
    case Unmap(p, v) => {Leaf(Key(p, v))}
    case Drop(k) => {Held(k)}
    case UndoPage(p) => {Leaf(Key(s.pcs[p].c, s.pcs[p].i))}
    case ForkAdd(p) => {Leaf(Key(p, s.pcs[p].i))}
    case _ => {}
  }

  lemma WriteUndisturbed(s: State, a: Action, r: Ref, f: nat)
    requires Shape(s) && Counting(s) && Exclusive(s) && Enabled(s, a) && (a.Store? || a.Copyout?)
    ensures Undisturbed(s, Next(s, a), Acting(s, a), r, f)
  {
    var k := Key(a.p, a.v);
    assert LeafExclusive(s, k);
    CountedLeaf(s, k);
    SoleRef(s, Leaf(k), r, Frame(s, k));
  }

  /** A referenced frame is not the one taken from the free list, or pushed on it. */
  lemma NotTaken(s: State, a: Action, r: Ref, f: nat)
    requires Shape(s) && Counting(s) && Enabled(s, a) && (a.CowCopy? || a.Populate? || a.Hold? || a.Push?)
    ensures f in s.cnt && Points(s, r, f) ==> f != a.f
  {
    if f in s.cnt && Points(s, r, f) { Referenced(s, r, f); }
  }

  lemma TakeUndisturbed(s: State, a: Action, r: Ref, f: nat)
    requires Shape(s) && Counting(s) && Enabled(s, a) && (a.CowCopy? || a.Populate? || a.Hold? || a.Push?)
    ensures Undisturbed(s, Next(s, a), Acting(s, a), r, f)
  {
    hide Next, Enabled;
    NotTaken(s, a, r, f);
    hide Shape, Counting, Points, Acting;
    if a.Push? || a.Hold? {
      TakeEffect(s, a);
    } else {
      FillEffect(s, a);
    }
  }

  lemma TakeEffect(s: State, a: Action)
    requires Enabled(s, a) && (a.Hold? || a.Push?)
    ensures var s' := Next(s, a);
            && (forall f :: f in s.cnt && f != a.f ==> f in s'.cnt && s'.cnt[f] == s.cnt[f])
            && (forall f :: f in s.content && f != a.f ==> f in s'.content && s'.content[f] == s.content[f])
  {
  }

  lemma FillEffect(s: State, a: Action)
    requires Enabled(s, a) && (a.CowCopy? || a.Populate?)
    ensures var s' := Next(s, a);
            && (forall f :: f in s.cnt && f != a.f ==> f in s'.cnt && s'.cnt[f] == s.cnt[f])
            && (forall f :: f in s.content && f != a.f ==> f in s'.content && s'.content[f] == s.content[f])
  {
  }

  lemma ReleaseEffect(s: State, a: Action)
    requires Enabled(s, a) && (a.CowFree? || a.Unmap? || a.Drop?)
    ensures FreedFrame(s, a) in s.cnt && Acting(s, a) == {RefOf(a)}
    ensures Next(s, a).cnt == s.cnt[FreedFrame(s, a) := s.cnt[FreedFrame(s, a)] - 1] && Next(s, a).content == s.content
  {
  }

  lemma ReleaseUndisturbed(s: State, a: Action, r: Ref, f: nat)
    requires Shape(s) && Counting(s) && Enabled(s, a) && (a.CowFree? || a.Unmap? || a.Drop?)
    ensures Undisturbed(s, Next(s, a), Acting(s, a), r, f)
  {
    hide Shape, Counting, Next, Enabled, Acting, RefOf, FreedFrame, Points;
    ReleaseEffect(s, a);
    PointsReleased(s, a, r, f);
    var f0 := FreedFrame(s, a);
    if s.cnt[f0] == 1 { SoleRef(s, RefOf(a), r, f0); }
  }

  lemma ForkUndisturbed(s: State, a: Action, r: Ref, f: nat)
    requires Shape(s) && Counting(s) && Enabled(s, a) && (a.UndoPage? || a.ForkAdd?)
    ensures Undisturbed(s, Next(s, a), Acting(s, a), r, f)
  {
    var k := if a.UndoPage? then Key(s.pcs[a.p].c, s.pcs[a.p].i) else Key(a.p, s.pcs[a.p].i);
    if a.UndoPage? { PointsUndone(s, a.p, r, f); } else { PointsAdded(s, a.p, r, f); }
    if s.cnt[Frame(s, k)] == 1 { SoleRef(s, Leaf(k), r, Frame(s, k)); }
  }

  lemma StepUndisturbed(s: State, a: Action, r: Ref, f: nat)
    requires Shape(s) && Counting(s) && Exclusive(s) && Enabled(s, a)
    ensures Undisturbed(s, Next(s, a), Acting(s, a), r, f)
  {
    hide Shape, Counting, Exclusive, Points;
    if a.Store? || a.Copyout? {
      WriteUndisturbed(s, a, r, f);
    } else if a.CowCopy? || a.Populate? || a.Hold? || a.Push? {
      TakeUndisturbed(s, a, r, f);
    } else if a.CowFree? || a.Unmap? || a.Drop? {
      ReleaseUndisturbed(s, a, r, f);
    } else if a.UndoPage? || a.ForkAdd? {
      ForkUndisturbed(s, a, r, f);
    }
  }

  /** The one leaf whose entry a step rewrites, if it may come out writable. */
  lemma LeafExclusiveStep(s: State, a: Action, k: Key)
    requires Shape(s) && Counting(s) && Exclusive(s) && Enabled(s, a)
    requires forall r, f: nat :: Undisturbed(s, Next(s, a), Acting(s, a), r, f)
    ensures LeafExclusive(Next(s, a), k)
  {
    var s' := Next(s, a);
    assert LeafExclusive(s, k);
    if SameLeaf(s, s', k) && Leaf(k) !in Acting(s, a) {
      LeafExclusiveKept(s, s', Acting(s, a), k);
    } else if a.CowTake? || a.CowMap? {
      assert PcExclusive(s, a.p) && ProcShape(s, a.p);
    } else if a.ForkPage? || a.ForkAdd? {
      assert ProcShape(s, a.p);
    }
  }

  /** A process inside cowalloc that takes no step itself sees its entry and control state unchanged. */
  ghost predicate Bystander(s: State, a: Action, q: nat)
    requires Enabled(s, a)
  {
    && q in s.pcs && (s.pcs[q].CowRead? || s.pcs[q].CowCopied?)
    && q in Next(s, a).pcs && s.pcs[q] == Next(s, a).pcs[q]
    && SameLeaf(s, Next(s, a), Key(q, s.pcs[q].v)) && Leaf(Key(q, s.pcs[q].v)) !in Acting(s, a)
  }

  lemma UndoBystander(s: State, p: nat, q: nat)
    requires Shape(s) && Enabled(s, UndoPage(p)) && q in UndoPageNext(s, p).pcs
    requires UndoPageNext(s, p).pcs[q].CowRead? || UndoPageNext(s, p).pcs[q].CowCopied?
    ensures Bystander(s, UndoPage(p), q)
  {
    assert ProcShape(s, p);
  }

  lemma ShareBystander(s: State, a: Action, q: nat)
    requires Enabled(s, a) && (a.ForkPage? || a.ForkFail?) && q in Next(s, a).pcs
    requires Next(s, a).pcs[q].CowRead? || Next(s, a).pcs[q].CowCopied?
    ensures Bystander(s, a, q)
  {
  }

  lemma ForkBystander(s: State, a: Action, q: nat)
    requires Enabled(s, a) && (ForkStep(a) || a.ForkAdd?) && !a.ForkPage? && !a.ForkFail? && q in Next(s, a).pcs
    requires Next(s, a).pcs[q].CowRead? || Next(s, a).pcs[q].CowCopied?
    ensures Bystander(s, a, q)
  {
  }

  lemma PlainBystander(s: State, a: Action, q: nat)
    requires Enabled(s, a) && !ForkStep(a) && !a.ForkAdd? && !a.UndoPage? && q in Next(s, a).pcs
    requires Next(s, a).pcs[q].CowRead? || Next(s, a).pcs[q].CowCopied?
    requires !((a.CowStart? || a.CowCopy?) && a.p == q)
    ensures Bystander(s, a, q)
  {
  }

  lemma CowBystander(s: State, a: Action, q: nat)
    requires Shape(s) && Enabled(s, a) && q in Next(s, a).pcs
    requires Next(s, a).pcs[q].CowRead? || Next(s, a).pcs[q].CowCopied?
    requires !((a.CowStart? || a.CowCopy?) && a.p == q)
    ensures Bystander(s, a, q)
  {
    hide Shape, Enabled, Bystander;
    if a.UndoPage? { UndoBystander(s, a.p, q); }
    else if a.ForkPage? || a.ForkFail? { ShareBystander(s, a, q); }
    else if ForkStep(a) || a.ForkAdd? { ForkBystander(s, a, q); }
    else { PlainBystander(s, a, q); }
  }

  lemma PcExclusiveStep(s: State, a: Action, q: nat)
    requires Shape(s) && Counting(s) && Exclusive(s) && Enabled(s, a)
    requires forall r, f: nat :: Undisturbed(s, Next(s, a), Acting(s, a), r, f)
    ensures PcExclusive(Next(s, a), q)
  {
    var s' := Next(s, a);
    if a.CowStart? && q == a.p {
      assert ProcShape(s, q) && LeafShape(s, Key(q, a.v));
    } else if a.CowCopy? && q == a.p {
      CountedLeaf(s, Key(q, s.pcs[q].v));
      Referenced(s, Leaf(Key(q, s.pcs[q].v)), Frame(s, Key(q, s.pcs[q].v)));
    } else if q in s'.pcs && (s'.pcs[q].CowRead? || s'.pcs[q].CowCopied?) {
      CowBystander(s, a, q);
      PcExclusiveKept(s, s', Acting(s, a), q);
    }
  }

  lemma StepExclusive(s: State, a: Action)
    requires Shape(s) && Counting(s) && Exclusive(s) && Enabled(s, a)
    ensures Exclusive(Next(s, a))
  {
    hide Shape, Counting, Enabled, Next, Undisturbed, LeafExclusive, PcExclusive;
    forall r, f: nat ensures Undisturbed(s, Next(s, a), Acting(s, a), r, f) { StepUndisturbed(s, a, r, f); }
    forall k ensures LeafExclusive(Next(s, a), k) { LeafExclusiveStep(s, a, k); }
    forall q: nat ensures PcExclusive(Next(s, a), q) { PcExclusiveStep(s, a, q); }
  }

  // ----- agreement with the eager memory -----

  ghost predicate Writes(a: Action, k: Key) {
    (a.Store? || a.Copyout?) && k == Key(a.p, a.v)
  }

  ghost predicate ChangesContent(a: Action) {
    a.Store? || a.Copyout? || a.CowCopy? || a.Populate? || a.Push?
  }

  lemma ContentKept(s: State, a: Action)
    requires Enabled(s, a) && !ChangesContent(a)
    ensures Next(s, a).content == s.content
  {
  }

  /** A mapped page keeps its contents unless the step writes that very page. */
  lemma CountedContent(s: State, a: Action, k: Key)
    requires Shape(s) && Counting(s) && Exclusive(s) && Enabled(s, a)
    requires k in s.ptes && Counted(s, k) && !Writes(a, k)
    ensures var f := Frame(s, k); f in s.content && f in Next(s, a).content && Next(s, a).content[f] == s.content[f]
  {
    var f := Frame(s, k);
    assert f in s.frames && Basics(s) by { assert ProcShape(s, k.p) && LeafShape(s, k); }
    hide Shape, Counting, Exclusive, Next, Enabled;
    if ChangesContent(a) {
      assert Leaf(k) !in Acting(s, a);
      StepUndisturbed(s, a, Leaf(k), f);
    } else {
      ContentKept(s, a);
    }
  }

  lemma LeafContent(s: State, a: Action, k: Key)
    requires Shape(s) && Counting(s) && Exclusive(s) && Enabled(s, a) && k in s.ptes && !Writes(a, k)
    ensures var f := Frame(s, k); f in s.content && f in Next(s, a).content && Next(s, a).content[f] == s.content[f]
  {
    if Counted(s, k) {
      CountedContent(s, a, k);
    } else {
      assert ProcShape(s, k.p) && LeafShape(s, k);
      var q := s.pcs[k.p].parent;
      assert ProcShape(s, q);
      CountedContent(s, a, Key(q, k.v));
    }
  }
}
