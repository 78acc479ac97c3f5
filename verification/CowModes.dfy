/**
 Which pages may be written. Beside the memory that copies at fork runs a set of its writable
 pages: what page faults map writable, copied at fork. A page is in that set exactly while its
 entry has PTE_W or PTE_F, and then a store to it goes through, after a fault if need be.
 */
module CowModes {
  import opened CowMachine
  import opened CowInvariant
  import opened CowSteps
  import opened CowTheorems

  /** The writable pages of the memory that copies at fork; it never looks at entries, frames or counts. */
  ghost function ModeNext(w: set<Key>, s: State, a: Action): set<Key>
    requires Enabled(s, a)
  {
    match a
    case Populate(p, v, _, _, writable) => if writable then w + {Key(p, v)} else w - {Key(p, v)}
    case Unmap(p, v) => w - {Key(p, v)}
    case ForkStart(p, c) => w + set k | k in w && k.p == p :: Key(c, k.v)
    case ForkFail(p) => set k | k in w && k.p != s.pcs[p].c
    case _ => w
  }

  ghost function ModeRun(w: set<Key>, s: State, run: seq<Action>): set<Key>
    requires CanRun(s, run)
    decreases |run|
  {
    if run == [] then w else ModeRun(ModeNext(w, s, run[0]), Next(s, run[0]), run[1..])
  }

  predicate Writable(e: Pte) { e.w || e.cow }

  ghost predicate LeafMode(s: State, w: set<Key>, k: Key) {
    k in s.ptes && k.p in s.pcs && !s.pcs[k.p].Doomed? ==> (k in w <==> Writable(s.ptes[k]))
  }

  ghost predicate ChildMode(s: State, w: set<Key>, c: nat, v: nat) {
    c in s.pcs && s.pcs[c].Embryo? ==> (Key(c, v) in w <==> Key(s.pcs[c].parent, v) in w)
  }

  ghost predicate Mode(s: State, e: Eager, w: set<Key>) {
    && w <= e.Keys
    && (forall k :: LeafMode(s, w, k))
    && (forall c: nat, v: nat :: ChildMode(s, w, c, v))
  }

  // ----- every step keeps it -----

  /** Steps that rewrite no entry. */
  ghost predicate Plain(a: Action) { Silent(a) && !a.ForkPage? && !a.CowMap? && !a.CowTake? }

  lemma PlainEntry(s: State, a: Action, k: Key)
    requires Enabled(s, a) && Plain(a) && k in Next(s, a).ptes
    ensures k in s.ptes && Next(s, a).ptes[k] == s.ptes[k]
  {
  }

  lemma PlainMode(s: State, w: set<Key>, a: Action, k: Key)
    requires Shape(s) && Enabled(s, a) && Plain(a) && LeafMode(s, w, k)
    ensures LeafMode(Next(s, a), w, k)
  {
    var s' := Next(s, a);
    if k in s'.ptes && k.p in s'.pcs && !s'.pcs[k.p].Doomed? {
      PlainEntry(s, a, k);
      SilentPc(s, a, k.p);
    }
  }

  lemma CowMode(s: State, w: set<Key>, a: Action, k: Key)
    requires Shape(s) && Enabled(s, a) && (a.CowMap? || a.CowTake?) && LeafMode(s, w, k)
    ensures LeafMode(Next(s, a), w, k)
  {
    assert ProcShape(s, a.p);
    hide Shape;
  }

  lemma ForkPageMode(s: State, w: set<Key>, p: nat, k: Key)
    requires Shape(s) && Enabled(s, ForkPage(p)) && LeafMode(s, w, k) && LeafMode(s, w, Key(p, s.pcs[p].i))
    requires ChildMode(s, w, s.pcs[p].c, s.pcs[p].i)
    ensures LeafMode(ForkPageNext(s, p), w, k)
  {
    assert ProcShape(s, p);
    hide Shape;
  }

  lemma MapMode(s: State, w: set<Key>, a: Action, k: Key)
    requires Enabled(s, a) && (a.Populate? || a.Unmap? || a.Store? || a.Copyout?) && LeafMode(s, w, k)
    ensures LeafMode(Next(s, a), ModeNext(w, s, a), k)
  {
  }

  lemma ForkStartMode(s: State, e: Eager, w: set<Key>, p: nat, c: nat, k: Key)
    requires Shape(s) && View(s, e) && w <= e.Keys && Enabled(s, ForkStart(p, c)) && LeafMode(s, w, k)
    ensures LeafMode(Next(s, ForkStart(p, c)), ModeNext(w, s, ForkStart(p, c)), k)
  {
    assert ProcShape(s, k.p) && LeafShape(s, k);
    hide Shape, View;
  }

  lemma ForkFailMode(s: State, w: set<Key>, p: nat, k: Key)
    requires Shape(s) && Enabled(s, ForkFail(p)) && LeafMode(s, w, k)
    ensures LeafMode(ForkFailNext(s, p), ModeNext(w, s, ForkFail(p)), k)
  {
    assert ProcShape(s, p);
    hide Shape;
  }

  lemma StepLeafMode(s: State, e: Eager, w: set<Key>, a: Action, k: Key)
    requires Shape(s) && View(s, e) && Mode(s, e, w) && Enabled(s, a)
    ensures LeafMode(Next(s, a), ModeNext(w, s, a), k)
  {
    assert LeafMode(s, w, k);
    if a.ForkPage? {
      assert LeafMode(s, w, Key(a.p, s.pcs[a.p].i)) && ChildMode(s, w, s.pcs[a.p].c, s.pcs[a.p].i);
      hide Shape, View, Mode;
      ForkPageMode(s, w, a.p, k);
    } else {
      assert w <= e.Keys;
      hide Shape, View, Mode, Enabled, LeafMode;
      if a.CowMap? || a.CowTake? { CowMode(s, w, a, k); }
      else if a.Populate? || a.Unmap? || a.Store? || a.Copyout? { MapMode(s, w, a, k); }
      else if a.ForkStart? { ForkStartMode(s, e, w, a.p, a.c, k); }
      else if a.ForkFail? { ForkFailMode(s, w, a.p, k); }
      else { PlainMode(s, w, a, k); }
    }
  }

  /** Nobody who is mapping or unmapping a page is a child under construction, or its parent. */
  lemma BusyChildMode(s: State, w: set<Key>, a: Action, c: nat, v: nat)
    requires Shape(s) && Enabled(s, a) && (a.Populate? || a.Unmap?) && ChildMode(s, w, c, v)
    ensures ChildMode(Next(s, a), ModeNext(w, s, a), c, v)
  {
    if c in s.pcs && s.pcs[c].Embryo? { assert ProcShape(s, c); }
    hide Shape;
  }

  lemma StartChildMode(s: State, e: Eager, w: set<Key>, p: nat, c': nat, c: nat, v: nat)
    requires Shape(s) && View(s, e) && w <= e.Keys && Enabled(s, ForkStart(p, c')) && ChildMode(s, w, c, v)
    ensures ChildMode(Next(s, ForkStart(p, c')), ModeNext(w, s, ForkStart(p, c')), c, v)
  {
    if c in s.pcs && s.pcs[c].Embryo? { assert ProcShape(s, c); }
    assert EagerView(s, e, Key(c', v));
    hide Shape, View;
  }

  lemma FailChildMode(s: State, w: set<Key>, p: nat, c: nat, v: nat)
    requires Shape(s) && Enabled(s, ForkFail(p)) && ChildMode(s, w, c, v)
    ensures ChildMode(ForkFailNext(s, p), ModeNext(w, s, ForkFail(p)), c, v)
  {
    assert ProcShape(s, p);
    if c in s.pcs && s.pcs[c].Embryo? { assert ProcShape(s, c); }
    hide Shape;
  }

  lemma ForkingChildMode(s: State, w: set<Key>, a: Action, c: nat, v: nat)
    requires Shape(s) && Enabled(s, a) && (a.ForkPage? || a.ForkAdd?) && ChildMode(s, w, c, v)
    ensures ChildMode(Next(s, a), w, c, v)
  {
    assert ProcShape(s, a.p);
    hide Shape;
  }

  lemma OtherChildMode(s: State, w: set<Key>, a: Action, c: nat, v: nat)
    requires Enabled(s, a) && Silent(a) && !a.ForkPage? && !a.ForkAdd? && ChildMode(s, w, c, v)
    ensures ChildMode(Next(s, a), w, c, v)
  {
  }

  lemma StepChildMode(s: State, e: Eager, w: set<Key>, a: Action, c: nat, v: nat)
    requires Shape(s) && View(s, e) && Mode(s, e, w) && Enabled(s, a)
    ensures ChildMode(Next(s, a), ModeNext(w, s, a), c, v)
  {
    assert ChildMode(s, w, c, v) && w <= e.Keys;
    if a.Store? || a.Copyout? {
      hide Shape, View, Mode;
    } else {
      hide Shape, View, Mode, Enabled, ChildMode;
      if a.Populate? || a.Unmap? { BusyChildMode(s, w, a, c, v); }
      else if a.ForkStart? { StartChildMode(s, e, w, a.p, a.c, c, v); }
      else if a.ForkFail? { FailChildMode(s, w, a.p, c, v); }
      else if a.ForkPage? || a.ForkAdd? { ForkingChildMode(s, w, a, c, v); }
      else { OtherChildMode(s, w, a, c, v); }
    }
  }

  lemma StepKeys(s: State, e: Eager, w: set<Key>, a: Action)
    requires Enabled(s, a) && w <= e.Keys
    ensures ModeNext(w, s, a) <= EagerNext(e, s, a).Keys
  {
  }

  lemma StepMode(s: State, e: Eager, w: set<Key>, a: Action)
    requires Inv(s, e) && Mode(s, e, w) && Enabled(s, a)
    ensures Mode(Next(s, a), EagerNext(e, s, a), ModeNext(w, s, a))
  {
    StepKeys(s, e, w, a);
    hide Shape, Counting, Exclusive, View, Enabled, Next, EagerNext, ModeNext, LeafMode, ChildMode;
    forall k ensures LeafMode(Next(s, a), ModeNext(w, s, a), k) { StepLeafMode(s, e, w, a, k); }
    forall c: nat, v: nat ensures ChildMode(Next(s, a), ModeNext(w, s, a), c, v) { StepChildMode(s, e, w, a, c, v); }
  }

  lemma {:induction false} RunMode(s: State, e: Eager, w: set<Key>, run: seq<Action>)
    requires Inv(s, e) && Mode(s, e, w) && CanRun(s, run)
    ensures Mode(Run(s, run), EagerRun(e, s, run), ModeRun(w, s, run))
    decreases |run|
  {
    hide Inv, Mode, Enabled, Next, EagerNext, ModeNext;
    if run != [] {
      StepInv(s, e, run[0]);
      StepMode(s, e, w, run[0]);
      RunMode(Next(s, run[0]), EagerNext(e, s, run[0]), ModeNext(w, s, run[0]), run[1..]);
    }
  }

  /**
   In every reachable state a process's page has PTE_W or PTE_F exactly if it would be writable
   had fork copied every page: fork takes nobody's right to write, and gives it to nobody.
   */
  lemma ForkKeepsModes(s: State, run: seq<Action>, k: Key)
    requires Boot(s) && CanRun(s, run) && k in Run(s, run).ptes
    requires k.p in Run(s, run).pcs && !Run(s, run).pcs[k.p].Doomed?
    ensures Writable(Run(s, run).ptes[k]) <==> k in ModeRun({}, s, run)
  {
    BootInv(s);
    RunMode(s, map[], {}, run);
    assert LeafMode(Run(s, run), ModeRun({}, s, run), k);
  }

  // ----- and such a page can be stored to -----

  /** The steps of process p's page fault on page v, given a free frame in case the page is shared. */
  ghost function FaultSteps(s: State, p: nat, v: nat, f: nat): seq<Action>
    requires Key(p, v) in s.ptes && Frame(s, Key(p, v)) in s.cnt
  {
    if s.ptes[Key(p, v)].w then []
    else if s.cnt[Frame(s, Key(p, v))] == 1 then [CowStart(p, v)] + ([CowTake(p)] + [])
    else [CowStart(p, v)] + ([CowCopy(p, f)] + ([CowMap(p)] + ([CowFree(p)] + [])))
  }

  ghost predicate Storable(s: State, p: nat, v: nat) {
    IsIdle(s, p) && Key(p, v) in s.ptes && s.ptes[Key(p, v)].w && s.ptes[Key(p, v)].user
  }

  lemma TakePath(s: State, p: nat, v: nat)
    requires IsIdle(s, p) && Key(p, v) in s.ptes && s.ptes[Key(p, v)].user && s.ptes[Key(p, v)].cow
    requires Frame(s, Key(p, v)) in s.cnt && s.cnt[Frame(s, Key(p, v))] == 1
    ensures CanRun(s, [CowStart(p, v)] + ([CowTake(p)] + []))
    ensures Storable(Run(s, [CowStart(p, v)] + ([CowTake(p)] + [])), p, v)
  {
    var t := Next(s, CowStart(p, v));
    Prepend(t, CowTake(p), []);
    Prepend(s, CowStart(p, v), [CowTake(p)] + []);
  }

  lemma CopyStart(s: State, p: nat, v: nat, f: nat)
    requires IsIdle(s, p) && Key(p, v) in s.ptes && s.ptes[Key(p, v)].user && s.ptes[Key(p, v)].cow
    requires var g := Frame(s, Key(p, v)); g in s.cnt && g in s.content && s.cnt[g] != 1
    requires f in s.free
    ensures Enabled(s, CowStart(p, v)) && Enabled(Next(s, CowStart(p, v)), CowCopy(p, f))
    ensures var u := Next(Next(s, CowStart(p, v)), CowCopy(p, f));
            && p in u.pcs && u.pcs[p] == CowCopied(v, f) && u.ptes == s.ptes && Frame(s, Key(p, v)) in u.cnt
  {
  }

  lemma CopyEnd(u: State, p: nat, v: nat, f: nat)
    requires p in u.pcs && u.pcs[p] == CowCopied(v, f) && Key(p, v) in u.ptes && u.ptes[Key(p, v)].user
    requires Frame(u, Key(p, v)) in u.cnt
    ensures Enabled(u, CowMap(p)) && Enabled(Next(u, CowMap(p)), CowFree(p))
    ensures Storable(Next(Next(u, CowMap(p)), CowFree(p)), p, v)
  {
  }

  lemma CopyPath(s: State, p: nat, v: nat, f: nat)
    requires IsIdle(s, p) && Key(p, v) in s.ptes && s.ptes[Key(p, v)].user && s.ptes[Key(p, v)].cow
    requires var g := Frame(s, Key(p, v)); g in s.cnt && g in s.content && s.cnt[g] != 1
    requires f in s.free
    ensures var r := [CowStart(p, v)] + ([CowCopy(p, f)] + ([CowMap(p)] + ([CowFree(p)] + [])));
            CanRun(s, r) && Storable(Run(s, r), p, v)
  {
    CopyStart(s, p, v, f);
    var t := Next(s, CowStart(p, v));
    var u := Next(t, CowCopy(p, f));
    CopyEnd(u, p, v, f);
    hide Enabled, Next, Storable;
    var x := Next(u, CowMap(p));
    Prepend(x, CowFree(p), []);
    Prepend(u, CowMap(p), [CowFree(p)] + []);
    Prepend(t, CowCopy(p, f), [CowMap(p)] + ([CowFree(p)] + []));
    Prepend(s, CowStart(p, v), [CowCopy(p, f)] + ([CowMap(p)] + ([CowFree(p)] + [])));
  }

  lemma FaultPath(s: State, e: Eager, p: nat, v: nat, f: nat)
    requires Inv(s, e) && IsIdle(s, p) && Key(p, v) in s.ptes
    requires s.ptes[Key(p, v)].user && Writable(s.ptes[Key(p, v)])
    requires s.ptes[Key(p, v)].w || f in s.free || CountIs(s, Key(p, v), 1)
    ensures Frame(s, Key(p, v)) in s.cnt
    ensures CanRun(s, FaultSteps(s, p, v, f)) && Storable(Run(s, FaultSteps(s, p, v, f)), p, v)
  {
    CountedLeaf(s, Key(p, v));
    hide Inv;
    if s.ptes[Key(p, v)].w {
    } else if s.cnt[Frame(s, Key(p, v))] == 1 {
      TakePath(s, p, v);
    } else {
      CopyPath(s, p, v, f);
    }
  }

  ghost predicate CountIs(s: State, k: Key, n: int)
    requires k in s.ptes
  {
    Frame(s, k) in s.cnt && s.cnt[Frame(s, k)] == n
  }

  /**
   In every reachable state, an idle process's user page that would be writable had fork copied
   every page can be stored to at once, or after a page fault, which needs a free frame only if
   the page's frame has other references.
   */
  lemma StoreGoesThrough(s: State, run: seq<Action>, p: nat, v: nat, f: nat, data: Page)
    requires Boot(s) && CanRun(s, run) && Key(p, v) in ModeRun({}, s, run) && IsIdle(Run(s, run), p)
    requires Key(p, v) in Run(s, run).ptes && Run(s, run).ptes[Key(p, v)].user
    requires var t := Run(s, run); t.ptes[Key(p, v)].w || f in t.free || CountIs(t, Key(p, v), 1)
    ensures var t := Run(s, run);
            && Frame(t, Key(p, v)) in t.cnt && CanRun(t, FaultSteps(t, p, v, f))
            && Enabled(Run(t, FaultSteps(t, p, v, f)), Store(p, v, data))
  {
    var t := Run(s, run);
    ForkKeepsModes(s, run, Key(p, v));
    BootInv(s);
    RunInv(s, map[], run);
    hide Boot;
    FaultPath(t, EagerRun(map[], s, run), p, v, f);
  }
}
