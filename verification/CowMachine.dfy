/**
 Copy-on-write fork as a state machine over all processes and CPUs. Each action is one
 step another CPU can observe: a page-table entry written, the reference-count array
 changed, a frame taken from or put on a free list. krefcnt reads the count without the
 lock, so cowalloc decides on a value that may be stale by the time it acts.
 A second, much simpler memory that copies every page at fork runs alongside.
 */
module CowMachine {

  datatype Page = Page(bytes: seq<int>)

  function ZeroPage(): Page { Page(seq(4096, _ => 0)) }
  function FreedPage(): Page { Page(seq(4096, _ => 1)) }    // kfree's junk

  /** A user page: process and page number. */
  datatype Key = Key(p: nat, v: nat)

  /** A valid leaf entry: PTE_W, PTE_F and PTE_U of a frame. */
  datatype Pte = Pte(frame: nat, w: bool, cow: bool, user: bool)

  /** What a process is in the middle of. */
  datatype Pc =
    | Idle
    | CowRead(v: nat, shared: bool)       // cowalloc: has read krefcnt
    | CowCopied(v: nat, mem: nat)         // cowalloc: has a private copy in frame mem
    | CowDrop(stale: nat)                  // cowalloc: entry replaced, kfree of the old frame to come
    | Forking(c: nat, i: nat)             // uvmcopy into c: about to look at page i
    | ForkCount(c: nat, i: nat)           // uvmcopy into c: page i mapped, kaddrefcnt to come
    | ForkUndo(c: nat, i: nat, n: nat)    // uvmcopy failed at page n: unmapping the child's pages i..n
    | Embryo(parent: nat, pending: int)   // child under construction; leaf `pending` is not counted yet
    | Doomed(parent: nat)                 // child of a failed fork

  datatype State = State(
    frames: set<nat>,
    cnt: map<nat, int>,          // ref.cnt
    content: map<nat, Page>,
    free: set<nat>,              // frames on a free list
    limbo: set<nat>,             // frames whose count kfree has just dropped to 0, not yet on a list
    ptes: map<Key, Pte>,
    pcs: map<nat, Pc>,
    size: map<nat, nat>,         // pages below p->sz
    held: map<nat, nat>)         // frames the kernel itself holds: page tables, trapframes, ...

  /** The memory that copies at fork: just pages. */
  type Eager = map<Key, Page>

  datatype Action =
    | Store(p: nat, v: nat, data: Page)
    | Copyout(p: nat, v: nat, data: Page)
    | CowStart(p: nat, v: nat) | CowTake(p: nat) | CowCopy(p: nat, f: nat) | CowFail(p: nat) | CowMap(p: nat)
        | CowFree(p: nat)
    | Populate(p: nat, v: nat, f: nat, data: Page, w: bool) | Grow(p: nat, n: nat) | Unmap(p: nat, v: nat)
        | Exit(p: nat)
    | ForkStart(p: nat, c: nat) | ForkPage(p: nat) | ForkAdd(p: nat) | ForkSkip(p: nat) | ForkDone(p: nat)
    | ForkFail(p: nat) | UndoPage(p: nat) | UndoSkip(p: nat) | UndoDone(p: nat)
    | Push(f: nat) | Hold(k: nat, f: nat) | Drop(k: nat)

  // ----- building blocks -----

  /** kalloc has taken frame f. */
  function Take(s: State, f: nat): State {
    s.(free := s.free - {f}, cnt := s.cnt[f := 1])
  }

  /** kfree under ref.lock: one reference less; the last one out puts the frame in limbo. */
  function Release(s: State, f: nat): State
    requires f in s.cnt
  {
    var n := s.cnt[f] - 1;
    s.(cnt := s.cnt[f := n], limbo := if n == 0 then s.limbo + {f} else s.limbo)
  }

  predicate IsIdle(s: State, p: nat) { p in s.pcs && s.pcs[p] == Idle }

  predicate At(s: State, p: nat) { p in s.pcs }

  ghost predicate Enabled(s: State, a: Action) {
    match a
    case Store(p, v, _) => IsIdle(s, p) && Key(p, v) in s.ptes && s.ptes[Key(p, v)].w && s.ptes[Key(p, v)].user
    case Copyout(p, v, _) =>
      && IsIdle(s, p) && Key(p, v) in s.ptes && s.ptes[Key(p, v)].user && !s.ptes[Key(p, v)].cow
      && Frame(s, Key(p, v)) in s.cnt && s.cnt[Frame(s, Key(p, v))] == 1
    case CowStart(p, v) =>
      && IsIdle(s, p) && Key(p, v) in s.ptes && s.ptes[Key(p, v)].user && s.ptes[Key(p, v)].cow
      && Frame(s, Key(p, v)) in s.cnt
    case CowTake(p) => At(s, p) && s.pcs[p].CowRead? && !s.pcs[p].shared && Key(p, s.pcs[p].v) in s.ptes
    case CowCopy(p, f) =>
      && At(s, p) && s.pcs[p].CowRead? && s.pcs[p].shared && f in s.free
      && Key(p, s.pcs[p].v) in s.ptes && Frame(s, Key(p, s.pcs[p].v)) in s.content
    case CowFail(p) => At(s, p) && s.pcs[p].CowRead? && s.pcs[p].shared && s.free == {}
    case CowMap(p) => At(s, p) && s.pcs[p].CowCopied? && Key(p, s.pcs[p].v) in s.ptes
    case CowFree(p) => At(s, p) && s.pcs[p].CowDrop? && s.pcs[p].stale in s.cnt
    case Populate(p, v, f, _, _) => IsIdle(s, p) && Key(p, v) !in s.ptes && p in s.size && v < s.size[p] && f in s.free
    case Grow(p, n) => IsIdle(s, p) && p in s.size && s.size[p] <= n
    case Unmap(p, v) => IsIdle(s, p) && Key(p, v) in s.ptes && Frame(s, Key(p, v)) in s.cnt
    case Exit(p) => IsIdle(s, p) && forall v :: Key(p, v) !in s.ptes
    case ForkStart(p, c) => IsIdle(s, p) && c !in s.pcs && p in s.size
    case ForkPage(p) =>
      && At(s, p) && s.pcs[p].Forking? && p in s.size && s.pcs[p].i < s.size[p]
      && Key(p, s.pcs[p].i) in s.ptes && s.pcs[p].c in s.pcs
    case ForkAdd(p) =>
      && At(s, p) && s.pcs[p].ForkCount? && Key(p, s.pcs[p].i) in s.ptes && Frame(s, Key(p, s.pcs[p].i)) in s.cnt
    case ForkSkip(p) =>
      && At(s, p) && s.pcs[p].Forking? && p in s.size && s.pcs[p].i < s.size[p] && Key(p, s.pcs[p].i) !in s.ptes
    case ForkDone(p) => At(s, p) && s.pcs[p].Forking? && p in s.size && s.pcs[p].i == s.size[p]
    case ForkFail(p) =>
      && At(s, p) && s.pcs[p].Forking? && p in s.size && s.pcs[p].i < s.size[p] && Key(p, s.pcs[p].i) in s.ptes
    case UndoPage(p) =>
      && At(s, p) && s.pcs[p].ForkUndo? && s.pcs[p].i < s.pcs[p].n && Key(s.pcs[p].c, s.pcs[p].i) in s.ptes
      && Frame(s, Key(s.pcs[p].c, s.pcs[p].i)) in s.cnt
    case UndoSkip(p) =>
      && At(s, p) && s.pcs[p].ForkUndo? && s.pcs[p].i < s.pcs[p].n && Key(s.pcs[p].c, s.pcs[p].i) !in s.ptes
    case UndoDone(p) => At(s, p) && s.pcs[p].ForkUndo? && s.pcs[p].i == s.pcs[p].n
    case Push(f) => f in s.limbo
    case Hold(k, f) => k !in s.held && f in s.free
    case Drop(k) => k in s.held && s.held[k] in s.cnt
  }

  function Frame(s: State, k: Key): nat
    requires k in s.ptes
  {
    s.ptes[k].frame
  }

  /** uvmcopy marks a writable page read-only and copy-on-write; other pages keep their flags. */
  function Shared(e: Pte): Pte {
    if e.w then e.(w := false, cow := true) else e
  }

  ghost function WriteNext(s: State, k: Key, data: Page): State
    requires k in s.ptes
  {
    s.(content := s.content[Frame(s, k) := data])
  }

  ghost function CowTakeNext(s: State, p: nat): State
    requires Enabled(s, CowTake(p))
  {
    var k := Key(p, s.pcs[p].v);
    s.(ptes := s.ptes[k := s.ptes[k].(w := true, cow := false)], pcs := s.pcs[p := Idle])
  }

  ghost function CowCopyNext(s: State, p: nat, f: nat): State
    requires Enabled(s, CowCopy(p, f))
  {
    var k := Key(p, s.pcs[p].v);
    Take(s, f).(content := s.content[f := s.content[Frame(s, k)]], pcs := s.pcs[p := CowCopied(k.v, f)])
  }

  ghost function CowMapNext(s: State, p: nat): State
    requires Enabled(s, CowMap(p))
  {
    var k := Key(p, s.pcs[p].v);
    s.(ptes := s.ptes[k := s.ptes[k].(frame := s.pcs[p].mem, w := true, cow := false)],
       pcs := s.pcs[p := CowDrop(Frame(s, k))])
  }

  /** A page fault maps a fresh frame: zeroed and writable, or a page of a mapped file with its protection. */
  ghost function PopulateNext(s: State, k: Key, f: nat, data: Page, w: bool): State {
    Take(s, f).(content := s.content[f := data], ptes := s.ptes[k := Pte(f, w, false, true)])
  }

  ghost function UnmapNext(s: State, k: Key): State
    requires k in s.ptes && Frame(s, k) in s.cnt
  {
    Release(s, Frame(s, k)).(ptes := s.ptes - {k})
  }

  ghost function ForkPageNext(s: State, p: nat): State
    requires Enabled(s, ForkPage(p))
  {
    var c, i := s.pcs[p].c, s.pcs[p].i;
    var e := Shared(s.ptes[Key(p, i)]);
    s.(ptes := s.ptes[Key(p, i) := e][Key(c, i) := e],
       pcs := s.pcs[p := ForkCount(c, i)][c := Embryo(p, i)])
  }

  /** mappages fails on a page of the child, after the parent's entry has been changed. */
  ghost function ForkFailNext(s: State, p: nat): State
    requires Enabled(s, ForkFail(p))
  {
    var c, i := s.pcs[p].c, s.pcs[p].i;
    s.(ptes := s.ptes[Key(p, i) := Shared(s.ptes[Key(p, i)])], pcs := s.pcs[p := ForkUndo(c, 0, i)][c := Doomed(p)])
  }

  ghost function ForkAddNext(s: State, p: nat): State
    requires Enabled(s, ForkAdd(p))
  {
    var c, i := s.pcs[p].c, s.pcs[p].i;
    var f := Frame(s, Key(p, i));
    s.(cnt := s.cnt[f := s.cnt[f] + 1], pcs := s.pcs[p := Forking(c, i + 1)][c := Embryo(p, -1)])
  }

  ghost function UndoPageNext(s: State, p: nat): State
    requires Enabled(s, UndoPage(p))
  {
    var c, i := s.pcs[p].c, s.pcs[p].i;
    UnmapNext(s, Key(c, i)).(pcs := s.pcs[p := ForkUndo(c, i + 1, s.pcs[p].n)])
  }

  /** Only the control state of p, and of its child c if any, changes. */
  ghost function Move(s: State, p: nat, pc: Pc): State { s.(pcs := s.pcs[p := pc]) }

  ghost function Move2(s: State, p: nat, pc: Pc, c: nat, pc': Pc): State { s.(pcs := s.pcs[p := pc][c := pc']) }

  ghost function Next(s: State, a: Action): State
    requires Enabled(s, a)
  {
    match a
    case Store(p, v, data) => WriteNext(s, Key(p, v), data)
    case Copyout(p, v, data) => WriteNext(s, Key(p, v), data)
    case CowStart(p, v) => Move(s, p, CowRead(v, s.cnt[Frame(s, Key(p, v))] != 1))
    case CowTake(p) => CowTakeNext(s, p)
    case CowCopy(p, f) => CowCopyNext(s, p, f)
    case CowFail(p) => Move(s, p, Idle)
    case CowMap(p) => CowMapNext(s, p)
    case CowFree(p) => Move(Release(s, s.pcs[p].stale), p, Idle)
    case Populate(p, v, f, data, w) => PopulateNext(s, Key(p, v), f, data, w)
    case Grow(p, n) => s.(size := s.size[p := n])
    case Unmap(p, v) => UnmapNext(s, Key(p, v))
    case Exit(p) => s.(pcs := s.pcs - {p})
    case ForkStart(p, c) => Move2(s, p, Forking(c, 0), c, Embryo(p, -1)).(size := s.size[c := s.size[p]])
    case ForkPage(p) => ForkPageNext(s, p)
    case ForkAdd(p) => ForkAddNext(s, p)
    case ForkSkip(p) => Move(s, p, Forking(s.pcs[p].c, s.pcs[p].i + 1))
    case ForkDone(p) => Move2(s, p, Idle, s.pcs[p].c, Idle)
    case ForkFail(p) => ForkFailNext(s, p)
    case UndoPage(p) => UndoPageNext(s, p)
    case UndoSkip(p) => Move(s, p, ForkUndo(s.pcs[p].c, s.pcs[p].i + 1, s.pcs[p].n))
    case UndoDone(p) => s.(pcs := s.pcs[p := Idle] - {s.pcs[p].c})
    case Push(f) => s.(limbo := s.limbo - {f}, free := s.free + {f}, content := s.content[f := FreedPage()])
    case Hold(k, f) => Take(s, f).(held := s.held[k := f])
    case Drop(k) => Release(s, s.held[k]).(held := s.held - {k})
  }

  /** The same action on the memory that copies every page at fork; it never looks at frames or counts. */
  ghost function EagerNext(e: Eager, s: State, a: Action): Eager
    requires Enabled(s, a)
  {
    match a
    case Store(p, v, data) => e[Key(p, v) := data]
    case Copyout(p, v, data) => e[Key(p, v) := data]
    case Populate(p, v, _, data, _) => e[Key(p, v) := data]
    case Unmap(p, v) => e - {Key(p, v)}
    case ForkStart(p, c) => Duplicate(e, p, c)
    case ForkFail(p) => Without(e, s.pcs[p].c)
    case _ => e
  }

  /** Every page of p copied for c. */
  ghost function Duplicate(e: Eager, p: nat, c: nat): Eager {
    map k | k in e.Keys + (set j | j in e && j.p == p :: Key(c, j.v)) ::
      if k.p == c && Key(p, k.v) in e then e[Key(p, k.v)] else if k in e then e[k] else ZeroPage()
  }

  ghost function Without(e: Eager, c: nat): Eager {
    map k | k in e && k.p != c :: e[k]
  }
}
