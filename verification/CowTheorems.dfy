/** Copy-on-write fork cannot be told from copying at fork, and every frame is accounted for. */
module CowTheorems {
  import opened CowMachine
  import opened CowInvariant
  import opened CowSteps

  /** Steps the eager memory does not see. */
  ghost predicate Silent(a: Action) {
    !(a.Store? || a.Copyout? || a.Populate? || a.Unmap? || a.ForkStart? || a.ForkFail?)
  }

  lemma LeafKept(s: State, e: Eager, e': Eager, a: Action, k: Key)
    requires Shape(s) && Counting(s) && Exclusive(s) && LeafView(s, e, k) && Enabled(s, a) && !Writes(a, k)
    requires k in s.ptes && k.p in s.pcs && !s.pcs[k.p].Doomed?
    requires k in Next(s, a).ptes && Frame(Next(s, a), k) == Frame(s, k)
    requires k in e' && (k in e ==> e'[k] == e[k])
    ensures LeafView(Next(s, a), e', k)
  {
    hide Shape, Counting, Exclusive, Enabled, Next;
    LeafContent(s, a, k);
  }

  /** In a silent step other than uvmcopy's and cowalloc's mapping, a leaf that exists afterwards existed before. */
  lemma SilentLeaf(s: State, a: Action, k: Key)
    requires Enabled(s, a) && Silent(a) && !a.ForkPage? && !a.CowMap? && k in Next(s, a).ptes
    ensures k in s.ptes && Frame(Next(s, a), k) == Frame(s, k)
  {
  }

  lemma SilentPc(s: State, a: Action, q: nat)
    requires Shape(s) && Enabled(s, a) && Silent(a) && q in Next(s, a).pcs && !Next(s, a).pcs[q].Doomed?
    ensures q in s.pcs && !s.pcs[q].Doomed?
  {
    if a.ForkAdd? || a.ForkDone? || a.ForkPage? { assert ProcShape(s, a.p); }
  }

  lemma SilentLeafView(s: State, e: Eager, a: Action, k: Key)
    requires Shape(s) && Counting(s) && Exclusive(s) && View(s, e) && Enabled(s, a)
    requires Silent(a) && !a.ForkPage? && !a.CowMap?
    ensures LeafView(Next(s, a), e, k)
  {
    var s' := Next(s, a);
    if k in s'.ptes && k.p in s'.pcs && !s'.pcs[k.p].Doomed? {
      SilentLeaf(s, a, k);
      SilentPc(s, a, k.p);
      assert LeafView(s, e, k);
      hide Shape, Counting, Exclusive, View, Next, Enabled;
      LeafKept(s, e, e, a, k);
    }
  }

  lemma CowMapLeafView(s: State, e: Eager, p: nat, k: Key)
    requires Shape(s) && Counting(s) && Exclusive(s) && View(s, e) && Enabled(s, CowMap(p))
    ensures LeafView(CowMapNext(s, p), e, k)
  {
    assert LeafView(s, e, k) && PcExclusive(s, p) && ProcShape(s, p);
  }

  lemma ForkPageLeafView(s: State, e: Eager, p: nat, k: Key)
    requires Shape(s) && Counting(s) && Exclusive(s) && View(s, e) && Enabled(s, ForkPage(p))
    ensures LeafView(ForkPageNext(s, p), e, k)
  {
    var c, i := s.pcs[p].c, s.pcs[p].i;
    assert ProcShape(s, p);
    assert LeafView(s, e, k) && LeafView(s, e, Key(p, i)) && ChildView(s, e, c, i);
  }

  lemma WriteLeafView(s: State, e: Eager, a: Action, k: Key)
    requires Shape(s) && Counting(s) && Exclusive(s) && View(s, e) && Enabled(s, a) && (a.Store? || a.Copyout?)
    ensures LeafView(Next(s, a), EagerNext(e, s, a), k)
  {
    if k in s.ptes && !Writes(a, k) && k.p in s.pcs && !s.pcs[k.p].Doomed? {
      assert LeafView(s, e, k);
      LeafKept(s, e, EagerNext(e, s, a), a, k);
    }
  }

  lemma RemapLeafView(s: State, e: Eager, a: Action, k: Key)
    requires Shape(s) && Counting(s) && Exclusive(s) && View(s, e) && Enabled(s, a) && (a.Populate? || a.Unmap?)
    ensures LeafView(Next(s, a), EagerNext(e, s, a), k)
  {
    if k in s.ptes && k != Key(a.p, a.v) && k.p in s.pcs && !s.pcs[k.p].Doomed? {
      assert LeafView(s, e, k);
      LeafKept(s, e, EagerNext(e, s, a), a, k);
    }
  }

  lemma ForkLeafView(s: State, e: Eager, a: Action, k: Key)
    requires Shape(s) && Counting(s) && Exclusive(s) && View(s, e) && Enabled(s, a) && (a.ForkStart? || a.ForkFail?)
    ensures LeafView(Next(s, a), EagerNext(e, s, a), k)
  {
    assert LeafView(s, e, k) && ProcShape(s, k.p) && LeafShape(s, k);
  }

  lemma StepLeafView(s: State, e: Eager, a: Action, k: Key)
    requires Shape(s) && Counting(s) && Exclusive(s) && View(s, e) && Enabled(s, a)
    ensures LeafView(Next(s, a), EagerNext(e, s, a), k)
  {
    hide Shape, Counting, Exclusive, View, Enabled, LeafView;
    if a.Store? || a.Copyout? { WriteLeafView(s, e, a, k); }
    else if a.Populate? || a.Unmap? { RemapLeafView(s, e, a, k); }
    else if a.ForkStart? || a.ForkFail? { ForkLeafView(s, e, a, k); }
    else if a.CowMap? { CowMapLeafView(s, e, a.p, k); }
    else if a.ForkPage? { ForkPageLeafView(s, e, a.p, k); }
    else { SilentLeafView(s, e, a, k); }
  }

  // ----- no page too many -----

  ghost predicate ParentStep(a: Action) { a.UndoPage? || a.UndoDone? || a.ForkPage? || a.ForkAdd? }

  lemma ParentEagerView(s: State, e: Eager, a: Action, k: Key)
    requires Shape(s) && View(s, e) && Enabled(s, a) && ParentStep(a)
    ensures EagerView(Next(s, a), e, k)
  {
    assert EagerView(s, e, k) && ProcShape(s, a.p);
    hide Shape, View;
  }

  lemma SilentEagerView(s: State, e: Eager, a: Action, k: Key)
    requires Shape(s) && View(s, e) && Enabled(s, a) && Silent(a) && !a.ForkDone? && !ParentStep(a)
    ensures EagerView(Next(s, a), e, k)
  {
    assert EagerView(s, e, k);
    hide Shape, View;
  }

  lemma ForkDoneEagerView(s: State, e: Eager, p: nat, k: Key)
    requires Shape(s) && View(s, e) && Enabled(s, ForkDone(p))
    ensures EagerView(Next(s, ForkDone(p)), e, k)
  {
    var c := s.pcs[p].c;
    assert EagerView(s, e, k) && ProcShape(s, p);
    if k in e && k.p == c {
      assert ChildView(s, e, c, k.v) && EagerView(s, e, Key(p, k.v));
      assert LeafShape(s, Key(p, k.v));
    }
  }

  lemma ForkEagerView(s: State, e: Eager, a: Action, k: Key)
    requires Shape(s) && View(s, e) && Enabled(s, a) && (a.ForkStart? || a.ForkFail?)
    ensures EagerView(Next(s, a), EagerNext(e, s, a), k)
  {
    assert EagerView(s, e, k) && ProcShape(s, a.p);
  }

  lemma StoreEagerView(s: State, e: Eager, a: Action, k: Key)
    requires Shape(s) && View(s, e) && Enabled(s, a) && !Silent(a) && !a.ForkStart? && !a.ForkFail?
    ensures EagerView(Next(s, a), EagerNext(e, s, a), k)
  {
    assert EagerView(s, e, k);
  }

  lemma StepEagerView(s: State, e: Eager, a: Action, k: Key)
    requires Shape(s) && View(s, e) && Enabled(s, a)
    ensures EagerView(Next(s, a), EagerNext(e, s, a), k)
  {
    hide Shape, View, Enabled, EagerView;
    if a.ForkDone? { ForkDoneEagerView(s, e, a.p, k); }
    else if ParentStep(a) { ParentEagerView(s, e, a, k); }
    else if Silent(a) { SilentEagerView(s, e, a, k); }
    else if a.ForkStart? || a.ForkFail? { ForkEagerView(s, e, a, k); }
    else { StoreEagerView(s, e, a, k); }
  }

  lemma DuplicateAt(e: Eager, p: nat, c: nat, k: Key)
    requires Key(c, k.v) !in e && p != c
    ensures var d := Duplicate(e, p, c);
            && (Key(c, k.v) in d <==> Key(p, k.v) in e) && (Key(p, k.v) in e ==> d[Key(c, k.v)] == e[Key(p, k.v)])
            && (k.p != c ==> (k in d <==> k in e) && (k in e ==> d[k] == e[k]))
  {
  }

  lemma ForkStartChildView(s: State, e: Eager, a: Action, c: nat, v: nat)
    requires Shape(s) && View(s, e) && Enabled(s, a) && a.ForkStart?
    ensures ChildView(Next(s, a), EagerNext(e, s, a), c, v)
  {
    hide Duplicate;
    assert ChildView(s, e, c, v) && EagerView(s, e, Key(a.c, v));
    DuplicateAt(e, a.p, a.c, Key(a.p, v));
    if c in s.pcs && s.pcs[c].Embryo? {
      assert ProcShape(s, c);
      DuplicateAt(e, a.p, a.c, Key(c, v));
      DuplicateAt(e, a.p, a.c, Key(s.pcs[c].parent, v));
    }
  }

  /** The process is idle or faulting, so it is neither the child nor its parent. */
  lemma WriteChildView(s: State, e: Eager, a: Action, c: nat, v: nat)
    requires Shape(s) && View(s, e) && Enabled(s, a) && (a.Store? || a.Copyout? || a.Populate? || a.Unmap?)
    ensures ChildView(Next(s, a), EagerNext(e, s, a), c, v)
  {
    assert ChildView(s, e, c, v);
    if c in s.pcs && s.pcs[c].Embryo? { assert ProcShape(s, c); }
    hide Shape, View;
  }

  lemma QuietChildView(s: State, e: Eager, a: Action, c: nat, v: nat)
    requires Shape(s) && View(s, e) && Enabled(s, a) && !ForkStep(a) && !a.ForkAdd? && !a.UndoPage?
    requires !(a.Store? || a.Copyout? || a.Populate? || a.Unmap?)
    ensures ChildView(Next(s, a), EagerNext(e, s, a), c, v)
  {
    assert ChildView(s, e, c, v);
    if c in s.pcs && s.pcs[c].Embryo? { assert ProcShape(s, c); }
    hide Shape, View;
  }

  lemma PlainChildView(s: State, e: Eager, a: Action, c: nat, v: nat)
    requires Shape(s) && View(s, e) && Enabled(s, a) && !ForkStep(a) && !a.ForkAdd? && !a.UndoPage?
    ensures ChildView(Next(s, a), EagerNext(e, s, a), c, v)
  {
    hide Shape, View, Enabled, ChildView;
    if a.Store? || a.Copyout? || a.Populate? || a.Unmap? { WriteChildView(s, e, a, c, v); }
    else { QuietChildView(s, e, a, c, v); }
  }

  lemma ForkFailChildView(s: State, e: Eager, a: Action, c: nat, v: nat)
    requires Shape(s) && View(s, e) && Enabled(s, a) && a.ForkFail?
    ensures ChildView(Next(s, a), EagerNext(e, s, a), c, v)
  {
    assert ChildView(s, e, c, v) && ProcShape(s, a.p);
    if c in s.pcs && s.pcs[c].Embryo? { assert ProcShape(s, c); }
  }

  lemma ForkPageChildView(s: State, e: Eager, a: Action, c: nat, v: nat)
    requires Shape(s) && View(s, e) && Enabled(s, a) && (a.ForkPage? || a.ForkAdd?)
    ensures ChildView(Next(s, a), EagerNext(e, s, a), c, v)
  {
    assert ChildView(s, e, c, v);
    var child := s.pcs[a.p].c;
    assert child in s.pcs && s.pcs[child].Embryo? && s.pcs[child].parent == a.p by { assert ProcShape(s, a.p); }
    hide Shape, View;
  }

  lemma ForkChildView(s: State, e: Eager, a: Action, c: nat, v: nat)
    requires Shape(s) && View(s, e) && Enabled(s, a) && (ForkStep(a) || a.UndoPage?)
    requires !a.ForkStart? && !a.ForkFail? && !a.ForkPage?
    ensures ChildView(Next(s, a), EagerNext(e, s, a), c, v)
  {
    assert ChildView(s, e, c, v);
    hide Shape, View;
  }

  lemma StepChildView(s: State, e: Eager, a: Action, c: nat, v: nat)
    requires Shape(s) && View(s, e) && Enabled(s, a)
    ensures ChildView(Next(s, a), EagerNext(e, s, a), c, v)
  {
    hide Shape, View, Enabled, ChildView;
    if a.ForkStart? { ForkStartChildView(s, e, a, c, v); }
    else if a.ForkFail? { ForkFailChildView(s, e, a, c, v); }
    else if a.ForkPage? || a.ForkAdd? { ForkPageChildView(s, e, a, c, v); }
    else if ForkStep(a) || a.UndoPage? { ForkChildView(s, e, a, c, v); }
    else { PlainChildView(s, e, a, c, v); }
  }

  lemma StepView(s: State, e: Eager, a: Action)
    requires Shape(s) && Counting(s) && Exclusive(s) && View(s, e) && Enabled(s, a)
    ensures View(Next(s, a), EagerNext(e, s, a))
  {
    hide Shape, Counting, Exclusive, Enabled, Next, EagerNext, LeafView, EagerView, ChildView;
    forall k ensures LeafView(Next(s, a), EagerNext(e, s, a), k) && EagerView(Next(s, a), EagerNext(e, s, a), k) {
      StepLeafView(s, e, a, k);
      StepEagerView(s, e, a, k);
    }
    forall c: nat, v: nat ensures ChildView(Next(s, a), EagerNext(e, s, a), c, v) {
      StepChildView(s, e, a, c, v);
    }
  }

  // ----- every run -----

  ghost predicate CanRun(s: State, run: seq<Action>)
    decreases |run|
  {
    run == [] || (Enabled(s, run[0]) && CanRun(Next(s, run[0]), run[1..]))
  }

  ghost function Run(s: State, run: seq<Action>): State
    requires CanRun(s, run)
    decreases |run|
  {
    if run == [] then s else Run(Next(s, run[0]), run[1..])
  }

  /** The same run on the memory that copies at fork. */
  ghost function EagerRun(e: Eager, s: State, run: seq<Action>): Eager
    requires CanRun(s, run)
    decreases |run|
  {
    if run == [] then e else EagerRun(EagerNext(e, s, run[0]), Next(s, run[0]), run[1..])
  }

  /** One process with no pages yet, and every frame on a free list. */
  ghost predicate Boot(s: State) {
    && s.cnt.Keys == s.frames && s.content.Keys == s.frames && (forall f :: f in s.frames ==> s.cnt[f] == 0)
    && s.free == s.frames && s.limbo == {} && s.ptes == map[] && s.held == map[]
    && s.pcs == map[0 := Idle] && s.size.Keys == {0}
  }

  lemma BootInv(s: State)
    requires Boot(s)
    ensures Inv(s, map[])
  {
    assert forall f: nat, r :: !Points(s, r, f);
    assert forall f: nat :: Refs(s, f) == {};
  }

  lemma StepInv(s: State, e: Eager, a: Action)
    requires Inv(s, e) && Enabled(s, a)
    ensures Inv(Next(s, a), EagerNext(e, s, a)) && Next(s, a).frames == s.frames
  {
    StepShape(s, a);
    StepCounting(s, a);
    StepExclusive(s, a);
    StepView(s, e, a);
    FramesKept(s, a);
    hide Shape, Counting, Exclusive, View, Enabled, Next, EagerNext;
  }

  lemma FramesKept(s: State, a: Action)
    requires Enabled(s, a)
    ensures Next(s, a).frames == s.frames
  {
  }

  lemma {:induction false} RunInv(s: State, e: Eager, run: seq<Action>)
    requires Inv(s, e) && CanRun(s, run)
    ensures Inv(Run(s, run), EagerRun(e, s, run)) && Run(s, run).frames == s.frames
    decreases |run|
  {
    hide Inv, Enabled, Next, EagerNext;
    if run != [] {
      StepInv(s, e, run[0]);
      RunInv(Next(s, run[0]), EagerNext(e, s, run[0]), run[1..]);
    }
  }

  /**
   After any run of stores, copyouts, faults, forks, failed forks, growth, unmapping and
   exits, each process that is not still being created has exactly the pages, with exactly
   the contents, it would have if fork copied every page.
   */
  lemma ForkRefinesEagerCopy(s: State, run: seq<Action>, k: Key)
    requires Boot(s) && CanRun(s, run)
    requires k.p in Run(s, run).pcs && !Run(s, run).pcs[k.p].Embryo? && !Run(s, run).pcs[k.p].Doomed?
    ensures var t := Run(s, run); var e := EagerRun(map[], s, run);
            && (k in t.ptes <==> k in e)
            && (k in e ==> t.ptes[k].frame in t.content && t.content[t.ptes[k].frame] == e[k])
  {
    BootInv(s);
    RunInv(s, map[], run);
    var t := Run(s, run);
    var e := EagerRun(map[], s, run);
    assert LeafView(t, e, k) && EagerView(t, e, k);
  }

  /** In every reachable state a page mapped with PTE_W is the only reference to its frame. */
  lemma WritableIsUnshared(s: State, run: seq<Action>, k: Key)
    requires Boot(s) && CanRun(s, run) && k in Run(s, run).ptes && Run(s, run).ptes[k].w
    ensures var t := Run(s, run); var f := t.ptes[k].frame;
            && f in t.cnt && t.cnt[f] == 1 && Refs(t, f) == {Leaf(k)}
            && forall j :: j in t.ptes && t.ptes[j].frame == f ==> j == k
  {
    BootInv(s);
    RunInv(s, map[], run);
    OnlyLeaf(Run(s, run), k);
  }

  lemma OnlyLeaf(t: State, k: Key)
    requires Shape(t) && Counting(t) && Exclusive(t) && k in t.ptes && t.ptes[k].w
    ensures var f := t.ptes[k].frame;
            && f in t.cnt && t.cnt[f] == 1 && Refs(t, f) == {Leaf(k)}
            && forall j :: j in t.ptes && t.ptes[j].frame == f ==> j == k
  {
    var f := t.ptes[k].frame;
    assert LeafExclusive(t, k);
    CountedLeaf(t, k);
    SoleRef(t, Leaf(k), Leaf(k), f);
    hide Shape, Counting, Exclusive;
    forall j | j in t.ptes && t.ptes[j].frame == f ensures j == k {
      if Counted(t, j) {
        assert Points(t, Leaf(j), f);
      } else {
        Uncounted(t, j);
        SoleRef(t, Leaf(k), Leaf(Key(t.pcs[j.p].parent, j.v)), f);
      }
    }
  }

  /** An uncounted leaf repeats its parent's entry, which is not writable. */
  lemma Uncounted(s: State, j: Key)
    requires Shape(s) && j in s.ptes && !Counted(s, j)
    ensures j.p in s.pcs && s.pcs[j.p].Embryo?
    ensures s.pcs[j.p].parent in s.pcs && s.pcs[s.pcs[j.p].parent].ForkCount?
    ensures var k := Key(s.pcs[j.p].parent, j.v); k in s.ptes && Counted(s, k) && s.ptes[k] == s.ptes[j] && !s.ptes[k].w
  {
    assert ProcShape(s, j.p) && LeafShape(s, j);
    assert ProcShape(s, s.pcs[j.p].parent);
  }

  /**
   Frame accounting in every reachable state: the count of a frame is its number of owners
   (counted leaf entries, cowalloc's copies and pending kfrees, kernel pages); it is zero
   exactly for the frames on a free list or about to be pushed; and no frame is lost.
   */
  lemma FrameAccounting(s: State, run: seq<Action>, f: nat)
    requires Boot(s) && CanRun(s, run) && f in s.frames
    ensures var t := Run(s, run);
            && f in t.cnt && t.cnt[f] == |Refs(t, f)|
            && (t.cnt[f] == 0 <==> f in t.free || f in t.limbo)
            && !(f in t.free && f in t.limbo)
            && t.frames == s.frames
  {
    BootInv(s);
    RunInv(s, map[], run);
  }

  // ----- copyout does not test PTE_W -----

  /** No other page, except one a failed fork is about to unmap, shares k's frame. */
  ghost predicate Unshared(s: State, k: Key)
    requires k in s.ptes
  {
    forall j :: j in s.ptes && j != k && s.ptes[j].frame == s.ptes[k].frame ==> j.p in s.pcs && s.pcs[j.p].Doomed?
  }

  /**
   copyout into a user page that is not marked copy-on-write writes its frame whether or not
   the page is writable. Whatever is written, all pages agree with the eager memory
   afterwards if and only if no other page shares the frame.
   */
  lemma CopyoutIsolatedIff(s: State, e: Eager, k: Key)
    requires Inv(s, e) && IsIdle(s, k.p) && k in s.ptes && s.ptes[k].user && !s.ptes[k].cow
    ensures (forall data :: View(WriteNext(s, k, data), e[k := data])) <==> Unshared(s, k)
  {
    assert LeafView(s, e, k) && ProcShape(s, k.p) && LeafShape(s, k);
    if Unshared(s, k) {
      forall data ensures View(WriteNext(s, k, data), e[k := data]) { CopyoutIsolated(s, e, k, data); }
    } else {
      var j :| j in s.ptes && j != k && s.ptes[j].frame == s.ptes[k].frame && !(j.p in s.pcs && s.pcs[j.p].Doomed?);
      assert LeafView(s, e, j) && ProcShape(s, j.p) && LeafShape(s, j);
      assert ZeroPage().bytes[0] != FreedPage().bytes[0];
      var data := if e[j] == ZeroPage() then FreedPage() else ZeroPage();
      assert !LeafView(WriteNext(s, k, data), e[k := data], j);
      assert !View(WriteNext(s, k, data), e[k := data]);
    }
  }

  /** A reference count of 1, which the kernel can test, is enough. */
  lemma CountOneUnshared(s: State, e: Eager, k: Key)
    requires Inv(s, e) && IsIdle(s, k.p) && k in s.ptes
    requires s.ptes[k].frame in s.cnt && s.cnt[s.ptes[k].frame] == 1
    ensures Unshared(s, k) && forall j :: j in s.ptes && s.ptes[j].frame == s.ptes[k].frame ==> j == k
  {
    var f := s.ptes[k].frame;
    CountedLeaf(s, k);
    SoleRef(s, Leaf(k), Leaf(k), f);
    hide Shape, Counting, Exclusive, View;
    forall j | j in s.ptes && s.ptes[j].frame == f ensures j == k {
      if Counted(s, j) {
        assert Points(s, Leaf(j), f);
      } else {
        Uncounted(s, j);
        SoleRef(s, Leaf(k), Leaf(Key(s.pcs[j.p].parent, j.v)), f);
      }
    }
  }

  lemma CopyoutIsolated(s: State, e: Eager, k: Key, data: Page)
    requires Inv(s, e) && IsIdle(s, k.p) && k in s.ptes && Unshared(s, k)
    ensures View(WriteNext(s, k, data), e[k := data])
  {
    var s', e' := WriteNext(s, k, data), e[k := data];
    forall j ensures LeafView(s', e', j) && EagerView(s', e', j) {
      assert LeafView(s, e, j) && EagerView(s, e, j) && LeafView(s, e, k);
    }
    forall c: nat, v: nat ensures ChildView(s', e', c, v) {
      assert ChildView(s, e, c, v);
      if c in s.pcs && s.pcs[c].Embryo? { assert ProcShape(s, c); }
    }
  }

  lemma Prepend(s: State, a: Action, rest: seq<Action>)
    requires Enabled(s, a) && CanRun(Next(s, a), rest)
    ensures CanRun(s, [a] + rest) && Run(s, [a] + rest) == Run(Next(s, a), rest)
  {
    hide Enabled, Next;
    assert ([a] + rest)[1..] == rest;
  }

  /** A parent with one read-only page, and a child that has just been created. */
  ghost predicate OnePage(s: State, f: nat) {
    && s.pcs == map[0 := Forking(1, 0), 1 := Embryo(0, -1)] && s.size == map[0 := 1, 1 := 1]
    && s.ptes == map[Key(0, 0) := Pte(f, false, false, true)] && f in s.cnt
  }

  lemma MapAndFork(s: State, f: nat)
    requires Boot(s) && f in s.frames && s.size[0] == 1
    ensures Enabled(s, Populate(0, 0, f, ZeroPage(), false))
    ensures var t := Next(s, Populate(0, 0, f, ZeroPage(), false));
            Enabled(t, ForkStart(0, 1)) && OnePage(Next(t, ForkStart(0, 1)), f)
  {
  }

  ghost predicate BothMapped(s: State, f: nat) {
    && Key(0, 0) in s.ptes && Key(1, 0) in s.ptes && f in s.cnt
    && s.ptes[Key(0, 0)] == s.ptes[Key(1, 0)] == Pte(f, false, false, true)
  }

  lemma Share(s: State, f: nat)
    requires OnePage(s, f)
    ensures Enabled(s, ForkPage(0)) && BothMapped(ForkPageNext(s, 0), f)
    ensures ForkPageNext(s, 0).pcs == map[0 := ForkCount(1, 0), 1 := Embryo(0, 0)] && ForkPageNext(s, 0).size == s.size
  {
  }

  lemma Finish(s: State, f: nat)
    requires BothMapped(s, f) && s.pcs == map[0 := ForkCount(1, 0), 1 := Embryo(0, 0)] && s.size == map[0 := 1, 1 := 1]
    ensures Enabled(s, ForkAdd(0)) && Enabled(ForkAddNext(s, 0), ForkDone(0))
    ensures var t := Next(ForkAddNext(s, 0), ForkDone(0)); BothMapped(t, f) && t.pcs == map[0 := Idle, 1 := Idle]
  {
  }

  lemma ShareAndFinish(s: State, f: nat) returns (run: seq<Action>)
    requires OnePage(s, f)
    ensures CanRun(s, run)
    ensures BothMapped(Run(s, run), f) && Run(s, run).pcs == map[0 := Idle, 1 := Idle]
  {
    Share(s, f);
    var t := Next(s, ForkPage(0));
    Finish(t, f);
    var u := Next(t, ForkAdd(0));
    hide Enabled, ForkPageNext, ForkAddNext, BothMapped;
    Prepend(u, ForkDone(0), []);
    Prepend(t, ForkAdd(0), [ForkDone(0)] + []);
    run := [ForkPage(0)] + ([ForkAdd(0)] + ([ForkDone(0)] + []));
    Prepend(s, ForkPage(0), [ForkAdd(0)] + ([ForkDone(0)] + []));
  }

  /** Two processes share a read-only file page that is not marked copy-on-write: copyout reaches both. */
  lemma ReadOnlyPageLeaks(s: State, f: nat) returns (run: seq<Action>)
    requires Boot(s) && f in s.frames && s.size[0] == 1
    ensures CanRun(s, run)
    ensures var t := Run(s, run); var k := Key(1, 0);
            && IsIdle(t, 1) && k in t.ptes && t.ptes[k].user && !t.ptes[k].cow && !t.ptes[k].w && !Unshared(t, k)
  {
    hide Enabled, Next, Boot;
    var a0, a1 := Populate(0, 0, f, ZeroPage(), false), ForkStart(0, 1);
    MapAndFork(s, f);
    var rest := ShareAndFinish(Next(Next(s, a0), a1), f);
    Prepend(Next(s, a0), a1, rest);
    Prepend(s, a0, [a1] + rest);
    run := [a0] + ([a1] + rest);
    assert Key(0, 0) != Key(1, 0);
  }
}
