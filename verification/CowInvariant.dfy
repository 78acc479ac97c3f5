/** What every step of the copy-on-write machine keeps. */
module CowInvariant {
  import opened CowMachine

  // ----- references -----

  /** The things that own one unit of a frame's reference count. */
  datatype Ref = Leaf(k: Key) | Mem(p: nat) | Stale(p: nat) | Held(h: nat)

  /** A mapped leaf is counted except between mappages and kaddrefcnt in uvmcopy. */
  ghost predicate Counted(s: State, k: Key) {
    k.p in s.pcs && s.pcs[k.p] != Embryo(Parent(s, k.p), k.v)
  }

  ghost function Parent(s: State, c: nat): nat {
    if c in s.pcs && s.pcs[c].Embryo? then s.pcs[c].parent else 0
  }

  ghost predicate Points(s: State, r: Ref, f: nat) {
    match r
    case Leaf(k) => k in s.ptes && s.ptes[k].frame == f && Counted(s, k)
    case Mem(p) => p in s.pcs && s.pcs[p].CowCopied? && s.pcs[p].mem == f
    case Stale(p) => p in s.pcs && s.pcs[p].CowDrop? && s.pcs[p].stale == f
    case Held(k) => k in s.held && s.held[k] == f
  }

  ghost function AllRefs(s: State): set<Ref> {
    (set k | k in s.ptes :: Leaf(k)) + (set p | p in s.pcs :: Mem(p)) + (set p | p in s.pcs :: Stale(p))
        + (set k | k in s.held :: Held(k))
  }

  ghost function Refs(s: State, f: nat): (rs: set<Ref>)
    ensures forall r :: r in rs <==> Points(s, r, f)
  {
    set r | r in AllRefs(s) && Points(s, r, f)
  }

  // ----- the invariant -----

  ghost predicate Basics(s: State) {
    && s.cnt.Keys == s.frames && s.content.Keys == s.frames
    && s.free <= s.frames && s.limbo <= s.frames
    && forall k :: k in s.held ==> s.held[k] in s.frames
  }

  ghost predicate LeafShape(s: State, k: Key) {
    k in s.ptes ==>
      && s.ptes[k].frame in s.frames && !(s.ptes[k].w && s.ptes[k].cow)
      && k.p in s.pcs && k.p in s.size && k.v < s.size[k.p]
  }

  ghost predicate ProcShape(s: State, p: nat) {
    && (p in s.pcs ==> p in s.size && PcShape(s, p))
    && forall v: nat :: LeafShape(s, Key(p, v))
  }

  ghost predicate Shape(s: State) {
    Basics(s) && forall p: nat :: ProcShape(s, p)
  }

  ghost predicate PcShape(s: State, p: nat)
    requires p in s.pcs && p in s.size
  {
    match s.pcs[p]
    case Idle => true
    case CowRead(v, _) => Key(p, v) in s.ptes && s.ptes[Key(p, v)].cow
    case CowCopied(v, mem) => Key(p, v) in s.ptes && s.ptes[Key(p, v)].cow && mem in s.frames
    case CowDrop(f) => f in s.frames
    case Forking(c, i) =>
      && c in s.pcs && s.pcs[c] == Embryo(p, -1) && i <= s.size[p] && c in s.size && s.size[c] == s.size[p]
      && forall v: nat :: Key(c, v) in s.ptes <==> Key(p, v) in s.ptes && v < i
    case ForkCount(c, i) =>
      && c in s.pcs && s.pcs[c] == Embryo(p, i) && i < s.size[p] && c in s.size && s.size[c] == s.size[p]
      && Key(p, i) in s.ptes && Key(c, i) in s.ptes && s.ptes[Key(c, i)] == s.ptes[Key(p, i)] && !s.ptes[Key(p, i)].w
      && forall v: nat :: Key(c, v) in s.ptes <==> Key(p, v) in s.ptes && v <= i
    case ForkUndo(c, i, n) =>
      && c in s.pcs && s.pcs[c] == Doomed(p) && i <= n
      && forall v: nat :: Key(c, v) in s.ptes ==> i <= v < n
    case Embryo(q, pending) =>
      && q in s.pcs
      && ((pending >= 0 && s.pcs[q] == ForkCount(p, pending))
           || (pending == -1 && s.pcs[q].Forking? && s.pcs[q].c == p))
    case Doomed(q) => q in s.pcs && s.pcs[q].ForkUndo? && s.pcs[q].c == p
  }

  /** ref.cnt is the number of references, and a frame without one is free or about to be. */
  ghost predicate Counting(s: State) {
    && s.free !! s.limbo
    && forall f :: f in s.frames && f in s.cnt ==>
      s.cnt[f] == |Refs(s, f)| && (s.cnt[f] == 0 <==> f in s.free + s.limbo)
  }

  /** A writable page has a single reference. */
  ghost predicate LeafExclusive(s: State, k: Key) {
    k in s.ptes && s.ptes[k].w ==> s.ptes[k].frame in s.cnt && s.cnt[s.ptes[k].frame] == 1
  }

  /** So has a page cowalloc is about to make writable, and the faithful copy it is about to map. */
  ghost predicate PcExclusive(s: State, p: nat) {
    p in s.pcs && (s.pcs[p].CowRead? || s.pcs[p].CowCopied?) && Key(p, s.pcs[p].v) in s.ptes ==>
      var f := Frame(s, Key(p, s.pcs[p].v));
      && f in s.cnt
      && (s.pcs[p].CowRead? && !s.pcs[p].shared ==> s.cnt[f] == 1)
      && (s.pcs[p].CowCopied? ==>
            var mem := s.pcs[p].mem;
            mem in s.cnt && s.cnt[mem] == 1 && mem in s.content && f in s.content && s.content[mem] == s.content[f])
  }

  ghost predicate Exclusive(s: State) {
    (forall k :: LeafExclusive(s, k)) && (forall p: nat :: PcExclusive(s, p))
  }

  /** A mapped page reads as in the memory that copies at fork. */
  ghost predicate LeafView(s: State, e: Eager, k: Key) {
    k in s.ptes && k.p in s.pcs && !s.pcs[k.p].Doomed? ==>
      k in e && s.ptes[k].frame in s.content && s.content[s.ptes[k].frame] == e[k]
  }

  /** That memory has no other pages, except for those a child is still to be given. */
  ghost predicate EagerView(s: State, e: Eager, k: Key) {
    k in e ==> k.p in s.pcs && !s.pcs[k.p].Doomed? && (s.pcs[k.p].Embryo? || k in s.ptes)
  }

  /** A child under construction still has its parent's pages there. */
  ghost predicate ChildView(s: State, e: Eager, c: nat, v: nat) {
    c in s.pcs && s.pcs[c].Embryo? ==>
      var k := Key(s.pcs[c].parent, v);
      (Key(c, v) in e <==> k in e) && (k in e ==> e[Key(c, v)] == e[k])
  }

  ghost predicate View(s: State, e: Eager) {
    && (forall k :: LeafView(s, e, k) && EagerView(s, e, k))
    && (forall c: nat, v: nat :: ChildView(s, e, c, v))
  }

  ghost predicate Inv(s: State, e: Eager) {
    Shape(s) && Counting(s) && Exclusive(s) && View(s, e)
  }

  // ----- control state: only a process and its fork partner change together -----

  /** The other process of a fork in progress, or p itself. */
  ghost function Partner(s: State, p: nat): nat
    requires p in s.pcs
  {
    match s.pcs[p]
    case Forking(c, _) => c
    case ForkCount(c, _) => c
    case ForkUndo(c, _, _) => c
    case Embryo(q, _) => q
    case Doomed(q) => q
    case _ => p
  }

  ghost predicate Same(s: State, s': State, q: nat) {
    && (q in s.pcs <==> q in s'.pcs) && (q in s.pcs ==> s'.pcs[q] == s.pcs[q])
    && (q in s.size <==> q in s'.size) && (q in s.size ==> s'.size[q] == s.size[q])
    && forall v: nat :: SameLeaf(s, s', Key(q, v))
  }

  ghost predicate SameLeaf(s: State, s': State, k: Key) {
    (k in s.ptes <==> k in s'.ptes) && (k in s.ptes ==> s'.ptes[k] == s.ptes[k])
  }

  lemma PartnerBack(s: State, q: nat)
    requires Shape(s) && q in s.pcs
    ensures Partner(s, q) in s.pcs && Partner(s, Partner(s, q)) == q
  {
    assert ProcShape(s, q);
  }

  lemma ProcFrame(s: State, s': State, q: nat)
    requires ProcShape(s, q) && s'.frames == s.frames && Same(s, s', q)
    requires q in s.pcs ==> Same(s, s', Partner(s, q))
    ensures ProcShape(s', q)
  {
    if q in s.pcs {
      var c := Partner(s, q);
      assert forall v: nat :: SameLeaf(s, s', Key(q, v)) && SameLeaf(s, s', Key(c, v));
    }
    forall v: nat ensures LeafShape(s', Key(q, v)) {
      assert SameLeaf(s, s', Key(q, v)) && LeafShape(s, Key(q, v));
    }
  }

  /** A step of p and its partner (or newcomer) c. */
  lemma ShapeFrame(s: State, s': State, p: nat, c: nat)
    requires Shape(s) && Basics(s') && s'.frames == s.frames
    requires p in s.pcs && (Partner(s, p) == c || (Partner(s, p) == p && c !in s.pcs))
    requires ProcShape(s', p) && ProcShape(s', c)
    requires forall q: nat :: q != p && q != c ==> Same(s, s', q)
    ensures Shape(s')
  {
    hide Basics, PcShape;
    forall q: nat ensures ProcShape(s', q) {
      if q != p && q != c {
        assert ProcShape(s, q);
        if q in s.pcs {
          PartnerBack(s, q);
          PartnerBack(s, p);
        }
        ProcFrame(s, s', q);
      }
    }
  }

  lemma ShapeStatic(s: State, s': State)
    requires Shape(s) && Basics(s') && s'.frames == s.frames
    requires s'.pcs == s.pcs && s'.ptes == s.ptes && s'.size == s.size
    ensures Shape(s')
  {
    forall p: nat ensures ProcShape(s', p) {
      assert ProcShape(s, p);
      ProcFrame(s, s', p);
    }
  }

  lemma ShapeAlone(s: State, a: Action)
    requires Shape(s) && Enabled(s, a) && (a.Populate? || a.Grow? || a.Unmap? || a.Exit?)
    ensures Shape(Next(s, a))
  {
    assert ProcShape(s, a.p);
    ShapeFrame(s, Next(s, a), a.p, a.p);
  }

  lemma ShapeCowEnds(s: State, a: Action)
    requires Shape(s) && Enabled(s, a) && (a.CowStart? || a.CowFail? || a.CowFree?)
    ensures Shape(Next(s, a))
  {
    assert ProcShape(s, a.p);
    ShapeFrame(s, Next(s, a), a.p, a.p);
  }

  lemma ShapeCow(s: State, a: Action)
    requires Shape(s) && Enabled(s, a) && (a.CowTake? || a.CowCopy? || a.CowMap?)
    ensures Shape(Next(s, a))
  {
    assert ProcShape(s, a.p);
    ShapeFrame(s, Next(s, a), a.p, a.p);
  }

  lemma ShapeForkStart(s: State, a: Action)
    requires Shape(s) && Enabled(s, a) && a.ForkStart?
    ensures Shape(Next(s, a))
  {
    assert ProcShape(s, a.p) && ProcShape(s, a.c);
    ShapeFrame(s, Next(s, a), a.p, a.c);
  }

  lemma ShapeForkSkip(s: State, a: Action)
    requires Shape(s) && Enabled(s, a) && a.ForkSkip?
    ensures Shape(Next(s, a))
  {
    var c := s.pcs[a.p].c;
    assert ProcShape(s, a.p) && ProcShape(s, c);
    ShapeFrame(s, Next(s, a), a.p, c);
  }

  lemma ShapeForkFail(s: State, a: Action)
    requires Shape(s) && Enabled(s, a) && a.ForkFail?
    ensures Shape(Next(s, a))
  {
    var c := s.pcs[a.p].c;
    assert ProcShape(s, a.p) && ProcShape(s, c);
    ShapeFrame(s, Next(s, a), a.p, c);
  }

  lemma ShapeForkDone(s: State, a: Action)
    requires Shape(s) && Enabled(s, a) && a.ForkDone?
    ensures Shape(Next(s, a))
  {
    var c := s.pcs[a.p].c;
    assert ProcShape(s, a.p) && ProcShape(s, c);
    ShapeFrame(s, Next(s, a), a.p, c);
  }

  lemma ShapeForkPage(s: State, p: nat)
    requires Shape(s) && Enabled(s, ForkPage(p))
    ensures Shape(ForkPageNext(s, p))
  {
    var c := s.pcs[p].c;
    assert ProcShape(s, p) && ProcShape(s, c);
    ShapeFrame(s, ForkPageNext(s, p), p, c);
  }

  lemma ShapeForkAdd(s: State, p: nat)
    requires Shape(s) && Enabled(s, ForkAdd(p))
    ensures Shape(ForkAddNext(s, p))
  {
    var c := s.pcs[p].c;
    assert ProcShape(s, p) && ProcShape(s, c);
    ShapeFrame(s, ForkAddNext(s, p), p, c);
  }

  lemma ShapeUndoSkip(s: State, a: Action)
    requires Shape(s) && Enabled(s, a) && a.UndoSkip?
    ensures Shape(Next(s, a))
  {
    var c := s.pcs[a.p].c;
    assert ProcShape(s, a.p) && ProcShape(s, c);
    ShapeFrame(s, Next(s, a), a.p, c);
  }

  lemma ShapeUndoDone(s: State, a: Action)
    requires Shape(s) && Enabled(s, a) && a.UndoDone?
    ensures Shape(Next(s, a))
  {
    var c := s.pcs[a.p].c;
    assert ProcShape(s, a.p) && ProcShape(s, c);
    ShapeFrame(s, Next(s, a), a.p, c);
  }

  lemma ShapeUndoPage(s: State, p: nat)
    requires Shape(s) && Enabled(s, UndoPage(p))
    ensures Shape(UndoPageNext(s, p))
  {
    var c := s.pcs[p].c;
    assert ProcShape(s, p) && ProcShape(s, c);
    ShapeFrame(s, UndoPageNext(s, p), p, c);
  }

  lemma ShapeRest(s: State, a: Action)
    requires Shape(s) && Enabled(s, a) && (a.Store? || a.Copyout? || a.Push? || a.Hold? || a.Drop?)
    ensures Shape(Next(s, a))
  {
    if a.Store? || a.Copyout? {
      assert ProcShape(s, a.p) && LeafShape(s, Key(a.p, a.v));
    }
    ShapeStatic(s, Next(s, a));
  }

  lemma StepShape(s: State, a: Action)
    requires Shape(s) && Enabled(s, a)
    ensures Shape(Next(s, a))
  {
    hide Shape, Enabled;
    match a
    case Store(_, _, _) => ShapeRest(s, a);
    case Copyout(_, _, _) => ShapeRest(s, a);
    case CowStart(_, _) => ShapeCowEnds(s, a);
    case CowTake(_) => ShapeCow(s, a);
    case CowCopy(_, _) => ShapeCow(s, a);
    case CowFail(_) => ShapeCowEnds(s, a);
    case CowMap(_) => ShapeCow(s, a);
    case CowFree(_) => ShapeCowEnds(s, a);
    case Populate(_, _, _, _, _) => ShapeAlone(s, a);
    case Grow(_, _) => ShapeAlone(s, a);
    case Unmap(_, _) => ShapeAlone(s, a);
    case Exit(_) => ShapeAlone(s, a);
    case ForkStart(_, _) => ShapeForkStart(s, a);
    case ForkPage(p) => ShapeForkPage(s, p);
    case ForkAdd(p) => ShapeForkAdd(s, p);
    case ForkSkip(_) => ShapeForkSkip(s, a);
    case ForkDone(_) => ShapeForkDone(s, a);
    case ForkFail(_) => ShapeForkFail(s, a);
    case UndoPage(p) => ShapeUndoPage(s, p);
    case UndoSkip(_) => ShapeUndoSkip(s, a);
    case UndoDone(_) => ShapeUndoDone(s, a);
    case Push(_) => ShapeRest(s, a);
    case Hold(_, _) => ShapeRest(s, a);
    case Drop(_) => ShapeRest(s, a);
  }

  // ----- reference counts -----

  lemma RefsSame(s: State, s': State, f: nat)
    requires forall r :: Points(s', r, f) <==> Points(s, r, f)
    ensures Refs(s', f) == Refs(s, f)
  {
  }

  /** Steps that create and drop no reference. */
  lemma CountingSame(s: State, s': State)
    requires Counting(s) && s'.frames == s.frames && s'.cnt == s.cnt && s'.free !! s'.limbo
    requires s'.free + s'.limbo == s.free + s.limbo
    requires forall r, f: nat :: Points(s', r, f) <==> Points(s, r, f)
    ensures Counting(s')
  {
    forall f: nat ensures Refs(s', f) == Refs(s, f) { RefsSame(s, s', f); }
  }

  /** kalloc of f, with r as the new reference. */
  lemma CountingTake(s: State, s': State, f: nat, r: Ref)
    requires Counting(s) && Basics(s) && s'.frames == s.frames && f in s.free
    requires s'.cnt == s.cnt[f := 1] && s'.free == s.free - {f} && s'.limbo == s.limbo
    requires forall x, g: nat :: Points(s', x, g) <==> Points(s, x, g) || (x == r && g == f)
    ensures Counting(s')
  {
    assert Refs(s, f) == {};
    assert Refs(s', f) == {r};
    forall g: nat | g != f ensures Refs(s', g) == Refs(s, g) { RefsSame(s, s', g); }
  }

  /** kaddrefcnt of f, already referenced by x0, with r as the new reference. */
  lemma CountingAdd(s: State, s': State, f: nat, r: Ref, x0: Ref)
    requires Counting(s) && Basics(s) && f in s.frames && !Points(s, r, f) && Points(s, x0, f)
    requires s'.frames == s.frames && s'.cnt == s.cnt[f := s.cnt[f] + 1] && s'.free == s.free && s'.limbo == s.limbo
    requires forall x, g: nat :: Points(s', x, g) <==> Points(s, x, g) || (x == r && g == f)
    ensures Counting(s')
  {
    hide Points;
    RefsAre(s', f, Refs(s, f) + {r});
    assert x0 in Refs(s, f);
    forall g: nat | g != f ensures Refs(s', g) == Refs(s, g) { RefsSame(s, s', g); }
  }

  /** kfree of f, whose reference r goes away. */
  lemma CountingRelease(s: State, s': State, f: nat, r: Ref)
    requires Counting(s) && Basics(s) && f in s.frames && Points(s, r, f)
    requires s'.frames == s.frames && s'.cnt == s.cnt[f := s.cnt[f] - 1] && s'.free == s.free
    requires s'.limbo == if s.cnt[f] == 1 then s.limbo + {f} else s.limbo
    requires forall x, g: nat :: Points(s', x, g) <==> Points(s, x, g) && x != r
    ensures Counting(s')
  {
    assert Refs(s', f) == Refs(s, f) - {r};
    forall g: nat | g != f ensures Refs(s', g) == Refs(s, g) { RefsSame(s, s', g); }
  }

  /** cowalloc switches an entry: the leaf takes over the copy's reference, and its old one waits for kfree. */
  ghost predicate Swapped(s: State, s': State, f: nat, mem: nat, leaf: Ref, copy: Ref, stale: Ref, x: Ref, g: nat) {
    && (Points(s', x, g) <==>
          || (Points(s, x, g) && x != leaf && x != copy) || (x == leaf && g == mem) || (x == stale && g == f))
    && (Points(s, leaf, g) ==> g == f)
    && (Points(s, copy, g) ==> g == mem)
  }

  lemma SwapAt(s: State, s': State, f: nat, mem: nat, leaf: Ref, copy: Ref, stale: Ref, g: nat)
    requires Points(s, leaf, f) && !Points(s, stale, f) && Refs(s, mem) == {copy}
    requires leaf != copy && leaf != stale && copy != stale && mem != f
    requires forall x :: Points(s', x, g) <==>
      || (Points(s, x, g) && x != leaf && x != copy) || (x == leaf && g == mem) || (x == stale && g == f)
    requires (Points(s, leaf, g) ==> g == f) && (Points(s, copy, g) ==> g == mem)
    ensures |Refs(s', g)| == |Refs(s, g)|
  {
    hide Points;
    if g == mem {
      RefsAre(s', g, {leaf});
    } else if g == f {
      RefsAre(s', g, Refs(s, f) - {leaf} + {stale});
      assert leaf in Refs(s, f) && stale !in Refs(s, f);
    } else {
      RefsAre(s', g, Refs(s, g));
    }
  }

  lemma CountingSwap(s: State, s': State, f: nat, mem: nat, leaf: Ref, copy: Ref, stale: Ref)
    requires Counting(s) && s'.frames == s.frames && s'.cnt == s.cnt && s'.free == s.free && s'.limbo == s.limbo
    requires Points(s, leaf, f) && !Points(s, stale, f) && Refs(s, mem) == {copy} && leaf != copy && leaf != stale
    requires copy != stale
    requires forall x, g: nat :: Swapped(s, s', f, mem, leaf, copy, stale, x, g)
    ensures Counting(s')
  {
    assert mem != f by { assert leaf in Refs(s, f); }
    hide Points;
    forall g: nat ensures |Refs(s', g)| == |Refs(s, g)| {
      assert Swapped(s, s', f, mem, leaf, copy, stale, leaf, g);
      forall x ensures Points(s', x, g) <==>
        || (Points(s, x, g) && x != leaf && x != copy) || (x == leaf && g == mem) || (x == stale && g == f)
      {
        assert Swapped(s, s', f, mem, leaf, copy, stale, x, g);
      }
      SwapAt(s, s', f, mem, leaf, copy, stale, g);
    }
  }

  lemma RefsAre(s: State, f: nat, rs: set<Ref>)
    requires forall r :: r in rs <==> Points(s, r, f)
    ensures Refs(s, f) == rs
  {
  }
}
