/**
 The physical frame allocator: per-CPU free lists threaded through the free pages
 themselves, and one reference count per frame.
 */
module Kalloc {

  const NCPU: nat := 8
  const PGSIZE: nat := 4096

  /** Where a free frame sits: CPU, and height above the bottom of that CPU's list. */
  datatype Place = Place(cpu: nat, height: nat)

  /** The list kalloc takes from on CPU id: its own, else the lowest-numbered non-empty one, else none. */
  function Source(stacks: seq<seq<nat>>, id: nat): (j: int)
    requires |stacks| == NCPU && id < NCPU
    ensures -1 <= j < NCPU
    ensures j >= 0 ==> stacks[j] != []
    ensures j < 0 ==> forall i :: 0 <= i < NCPU ==> stacks[i] == []
    ensures j >= 0 && j != id ==> stacks[id] == [] && forall i :: 0 <= i < j ==> stacks[i] == []
  {
    if stacks[id] != [] then id else FirstNonEmpty(stacks, 0)
  }

  function FirstNonEmpty(stacks: seq<seq<nat>>, from: nat): (j: int)
    requires from <= |stacks|
    ensures j == -1 || from <= j < |stacks|
    ensures j >= 0 ==> stacks[j] != []
    ensures forall i :: from <= i < (if j < 0 then |stacks| else j) ==> stacks[i] == []
    decreases |stacks| - from
  {
    if from == |stacks| then -1 else if stacks[from] != [] then from else FirstNonEmpty(stacks, from + 1)
  }

  /** Total length of the lists. */
  ghost function Total(stacks: seq<seq<nat>>): nat {
    if stacks == [] then 0 else Total(stacks[..|stacks| - 1]) + |stacks[|stacks| - 1]|
  }

  lemma {:induction false} TotalUpdate(stacks: seq<seq<nat>>, i: nat, s: seq<nat>)
    requires i < |stacks|
    ensures Total(stacks[i := s]) == Total(stacks) - |stacks[i]| + |s|
  {
    var n := |stacks| - 1;
    if i < n {
      TotalUpdate(stacks[..n], i, s);
      assert stacks[i := s][..n] == stacks[..n][i := s];
    } else {
      assert stacks[i := s][..n] == stacks[..n];
    }
  }

  lemma {:induction false} TotalEmpty(stacks: seq<seq<nat>>)
    requires forall i :: 0 <= i < |stacks| ==> stacks[i] == []
    ensures Total(stacks) == 0
  {
    if stacks != [] { TotalEmpty(stacks[..|stacks| - 1]); }
  }

  /** A list entry: in range, in its recorded place, and linked to the entry below it. */
  ghost predicate Linked(stacks: seq<seq<nat>>, place: map<nat, Place>, next: seq<nat>, lo: nat, i: nat, j: nat)
    requires i < |stacks| && j < |stacks[i]|
  {
    var f := stacks[i][j];
    && lo <= f < |next| && f in place && place[f] == Place(i, j)
    && next[f] == if j == 0 then 0 else stacks[i][j - 1]
  }

  ghost predicate Placed(stacks: seq<seq<nat>>, place: map<nat, Place>, f: nat)
    requires f in place
  {
    var p := place[f];
    p.cpu < |stacks| && p.height < |stacks[p.cpu]| && stacks[p.cpu][p.height] == f
  }

  /** The heads and next pointers spell out the stacks, which hold every placed frame once. */
  ghost predicate Threaded(stacks: seq<seq<nat>>, place: map<nat, Place>, head: seq<nat>, next: seq<nat>, lo: nat) {
    && |stacks| == |head| == NCPU && 0 < lo
    && (forall i :: 0 <= i < NCPU ==> head[i] == Top(stacks[i]))
    && (forall i, j :: 0 <= i < NCPU && 0 <= j < |stacks[i]| ==> Linked(stacks, place, next, lo, i, j))
    && (forall f :: f in place ==> Placed(stacks, place, f))
    && |place| == Total(stacks)
  }

  /** The head of a list, or the null pointer. */
  ghost function Top(s: seq<nat>): nat { if s == [] then 0 else s[|s| - 1] }

  lemma NoneThreaded(stacks: seq<seq<nat>>, head: seq<nat>, next: seq<nat>, lo: nat)
    requires |stacks| == |head| == NCPU && 0 < lo
    requires forall i :: 0 <= i < NCPU ==> stacks[i] == [] && head[i] == 0
    ensures Threaded(stacks, map[], head, next, lo)
  {
    hide Total;
    TotalEmpty(stacks);
  }

  lemma PushKeeps(stacks: seq<seq<nat>>, place: map<nat, Place>, head: seq<nat>, next: seq<nat>, lo: nat,
                  id: nat, f: nat)
    requires Threaded(stacks, place, head, next, lo) && id < NCPU && lo <= f < |next| && f !in place
    ensures var pushed := stacks[id := stacks[id] + [f]];
            Threaded(pushed, place[f := Place(id, |stacks[id]|)], head[id := f], next[f := head[id]], lo)
  {
    hide Total;
    var stacks' := stacks[id := stacks[id] + [f]];
    var place', next' := place[f := Place(id, |stacks[id]|)], next[f := head[id]];
    TotalUpdate(stacks, id, stacks[id] + [f]);
    forall i, j | 0 <= i < NCPU && 0 <= j < |stacks'[i]| ensures Linked(stacks', place', next', lo, i, j) {
      if !(i == id && j == |stacks[id]|) {
        assert Linked(stacks, place, next, lo, i, j);
        assert stacks'[i][j] == stacks[i][j];
      }
    }
    forall g | g in place' ensures Placed(stacks', place', g) {
      if g != f { assert Placed(stacks, place, g); }
    }
  }

  lemma PopKeeps(stacks: seq<seq<nat>>, place: map<nat, Place>, head: seq<nat>, next: seq<nat>, lo: nat, id: nat)
    requires Threaded(stacks, place, head, next, lo) && id < NCPU && stacks[id] != []
    ensures var f := Top(stacks[id]);
            && lo <= f < |next| && f in place && head[id] == f
            && Threaded(stacks[id := stacks[id][..|stacks[id]| - 1]], place - {f}, head[id := next[f]], next, lo)
  {
    hide Total;
    var top := |stacks[id]| - 1;
    var f := stacks[id][top];
    assert Linked(stacks, place, next, lo, id, top);
    var stacks', place' := stacks[id := stacks[id][..top]], place - {f};
    TotalUpdate(stacks, id, stacks[id][..top]);
    forall i, j | 0 <= i < NCPU && 0 <= j < |stacks'[i]| ensures Linked(stacks', place', next, lo, i, j) {
      assert Linked(stacks, place, next, lo, i, j) && stacks'[i][j] == stacks[i][j];
    }
    forall g | g in place' ensures Placed(stacks', place', g) {
      assert Placed(stacks, place, g);
    }
    assert head[id := next[f]][id] == Top(stacks'[id]);
  }

  /** A list is empty exactly when its head is null, and all are empty exactly when no frame is placed. */
  lemma HeadFacts(stacks: seq<seq<nat>>, place: map<nat, Place>, head: seq<nat>, next: seq<nat>, lo: nat)
    requires Threaded(stacks, place, head, next, lo)
    ensures |stacks| == |head| == NCPU
    ensures forall i :: 0 <= i < NCPU ==> (head[i] == 0 <==> stacks[i] == [])
    ensures |place| == 0 <==> forall i :: 0 <= i < NCPU ==> stacks[i] == []
    ensures forall i :: 0 <= i < NCPU && stacks[i] != [] ==> Top(stacks[i]) in place
  {
    hide Total;
    forall i | 0 <= i < NCPU && stacks[i] != [] ensures head[i] != 0 && Top(stacks[i]) in place {
      assert Linked(stacks, place, next, lo, i, |stacks[i]| - 1);
    }
    if forall i :: 0 <= i < NCPU ==> stacks[i] == [] { TotalEmpty(stacks); }
  }

  lemma HeadIsTop(stacks: seq<seq<nat>>, place: map<nat, Place>, head: seq<nat>, next: seq<nat>, lo: nat, i: nat)
    requires Threaded(stacks, place, head, next, lo) && i < NCPU
    ensures head[i] == Top(stacks[i])
  {
  }

  /** Following a next pointer goes one entry down the list. */
  lemma NextDown(stacks: seq<seq<nat>>, place: map<nat, Place>, head: seq<nat>, next: seq<nat>, lo: nat, i: nat, h: nat)
    requires Threaded(stacks, place, head, next, lo) && i < NCPU && 0 < h <= |stacks[i]|
    ensures 0 < stacks[i][h - 1] < |next| && next[stacks[i][h - 1]] == if h == 1 then 0 else stacks[i][h - 2]
  {
    hide Total;
    assert Linked(stacks, place, next, lo, i, h - 1);
  }

  class Kmem {
    const lo: nat              // first frame after the kernel image
    const hi: nat              // PHYSTOP / PGSIZE
    const cnt: array<int>      // ref.cnt
    const next: array<nat>     // struct run, in the first word of each free page; 0 is the null pointer
    const head: array<nat>     // kmem[i].freelist

    ghost var stacks: seq<seq<nat>>     // each list, head last
    ghost var place: map<nat, Place>    // every free frame is in one place

    ghost predicate Lists()
      reads this, next, head
    {
      && |stacks| == NCPU && 0 < lo && head.Length == NCPU && next.Length == hi && cnt.Length == hi
      && next != head && cnt as object != next && cnt as object != head
      && Threaded(stacks, place, head[..], next[..], lo)
    }

    /** A frame is on a list, exactly one and once, exactly when its count is zero. */
    ghost predicate Valid()
      reads this, cnt, next, head
    {
      && Lists()
      && (forall f :: lo <= f < hi ==> cnt[f] >= 0 && (cnt[f] == 0 <==> f in place))
    }

    /** kinit: every frame goes on the calling CPU's list, the last one at its head. */
    constructor (lo: nat, hi: nat, id: nat)
      requires 0 < lo <= hi && id < NCPU
      ensures Valid() && this.lo == lo && this.hi == hi
      ensures forall f :: f in place <==> lo <= f < hi
    {
      hide Threaded;
      this.lo, this.hi := lo, hi;
      var c := new int[hi](_ => 0);
      var n := new nat[hi](_ => 0);
      var h := new nat[NCPU](_ => 0);
      cnt, next, head := c, n, h;
      stacks, place := seq(NCPU, i => []), map[];
      new;
      NoneThreaded(stacks, head[..], next[..], lo);
      var p := lo;
      while p < hi
        invariant lo <= p <= hi && Lists()
        invariant forall f :: lo <= f < p ==> cnt[f] == 0
        invariant forall f :: f in place <==> lo <= f < p
        invariant fresh(cnt) && fresh(next) && fresh(head)
      {
        cnt[p] := 1;
        Kfree(p, id);
        p := p + 1;
      }
    }

    /** kfree: one reference less; the last reference puts the frame at the head of the CPU's list. */
    method Kfree(f: nat, id: nat)
      requires Lists() && lo <= f < hi && id < NCPU && cnt[f] >= 1 && f !in place
      modifies this`stacks, this`place, cnt, next, head
      ensures Lists() && (old(Valid()) ==> Valid())
      ensures cnt[f] == old(cnt[f]) - 1
      ensures forall g :: 0 <= g < hi && g != f ==> cnt[g] == old(cnt[g])
      ensures cnt[f] == 0 ==> stacks == old(stacks)[id := old(stacks)[id] + [f]] && place.Keys == old(place).Keys + {f}
      ensures cnt[f] > 0 ==> stacks == old(stacks) && place == old(place)
    {
      hide Threaded;
      cnt[f] := cnt[f] - 1;
      if cnt[f] == 0 {
        PushKeeps(stacks, place, head[..], next[..], lo, id, f);
        next[f] := head[id];
        head[id] := f;
        place := place[f := Place(id, |stacks[id]|)];
        stacks := stacks[id := stacks[id] + [f]];
        assert head[..] == old(head[..])[id := f] && next[..] == old(next[..])[f := old(head[id])];
      }
    }

    /** Take the head of list j, which is not empty. */
    method Pop(j: nat) returns (r: nat)
      requires Valid() && j < NCPU && |stacks| == NCPU && stacks[j] != []
      modifies this`stacks, this`place, cnt, head
      ensures Valid() && r == old(stacks[j][|stacks[j]| - 1])
      ensures stacks == old(stacks)[j := old(stacks[j][..|stacks[j]| - 1])] && place == old(place) - {r}
      ensures lo <= r < hi && cnt[r] == 1 && old(cnt[r]) == 0
      ensures forall g :: 0 <= g < hi && g != r ==> cnt[g] == old(cnt[g])
    {
      hide Threaded;
      PopKeeps(stacks, place, head[..], next[..], lo, j);
      r := head[j];
      head[j] := next[r];
      cnt[r] := 1;
      place := place - {r};
      stacks := stacks[j := stacks[j][..|stacks[j]| - 1]];
      assert head[..] == old(head[..])[j := next[r]];
    }

    /**
     kalloc on CPU id: null exactly when every list is empty; otherwise the head of this
     CPU's list, or of the lowest-numbered non-empty one, with a single reference.
     */
    method Kalloc(id: nat) returns (r: nat)
      requires Valid() && id < NCPU
      modifies this`stacks, this`place, cnt, head
      ensures Valid()
      ensures r == 0 <==> |old(place)| == 0
      ensures |old(stacks)| == NCPU
      ensures r == 0 ==> Source(old(stacks), id) == -1 && stacks == old(stacks) && place == old(place)
      ensures r != 0 ==>
                var j := Source(old(stacks), id);
                && j >= 0 && r == old(stacks)[j][|old(stacks)[j]| - 1]
                && stacks == old(stacks)[j := old(stacks)[j][..|old(stacks)[j]| - 1]]
                && lo <= r < hi && r in old(place) && place == old(place) - {r} && cnt[r] == 1
      ensures forall g :: 0 <= g < hi && g != r ==> cnt[g] == old(cnt[g])
    {
      hide Threaded, Total;
      HeadFacts(stacks, place, head[..], next[..], lo);
      r := 0;
      if head[id] != 0 {
        r := Pop(id);
      } else {
        var antid := 0;
        while antid < NCPU && (antid == id || head[antid] == 0)
          invariant 0 <= antid <= NCPU && forall i :: 0 <= i < antid ==> stacks[i] == []
        {
          antid := antid + 1;
        }
        if antid < NCPU {
          r := Pop(antid);
        }
      }
    }

    /** kaddrefcnt: refuses an address that is not an allocatable frame. */
    method AddRef(f: nat) returns (ok: bool)
      requires Valid() && (lo <= f < hi ==> cnt[f] >= 1)
      modifies cnt
      ensures Valid() && (ok <==> lo <= f < hi)
      ensures forall g :: 0 <= g < hi ==> cnt[g] == old(cnt[g]) + if ok && g == f then 1 else 0
    {
      ok := lo <= f < hi;
      if ok { cnt[f] := cnt[f] + 1; }
    }

    /** The inner loop of freebytes: follow the next pointers of one list to the end. */
    method Count(i: nat) returns (n: nat)
      requires Valid() && i < NCPU
      ensures n == |stacks[i]|
    {
      hide Threaded, Total;
      HeadFacts(stacks, place, head[..], next[..], lo);
      HeadIsTop(stacks, place, head[..], next[..], lo, i);
      n := 0;
      var p := head[i];
      ghost var h := |stacks[i]|;
      while p != 0
        invariant 0 <= h == |stacks[i]| - n && p == (if h == 0 then 0 else stacks[i][h - 1]) && (h > 0 ==> p != 0)
        decreases h
      {
        NextDown(stacks, place, head[..], next[..], lo, i, h);
        n := n + 1;
        p := next[p];
        h := h - 1;
        if h > 0 { NextDown(stacks, place, head[..], next[..], lo, i, h); }
      }
    }

    /** freebytes: one page for each frame whose count is zero. */
    method FreeBytes() returns (dst: nat)
      requires Valid()
      ensures dst == PGSIZE * |place|
      ensures forall f :: lo <= f < hi ==> (f in place <==> cnt[f] == 0)
    {
      hide Linked, Placed;
      dst := 0;
      for i := 0 to NCPU
        invariant dst == PGSIZE * Total(stacks[..i])
      {
        var n := Count(i);
        dst := dst + PGSIZE * n;
        assert stacks[..i + 1][..i] == stacks[..i];
      }
      assert stacks[..NCPU] == stacks;
    }
  }
}
