/** freewalk: recursively freeing the pages of a page table. */
module Freewalk {
  import opened PageTable
  import opened Vm

  /** The role of the page entry i of a page with role r points to. */
  ghost function Child(r: Role, i: nat): Role {
    match r
    case Root => Mid(i)
    case Mid(m) => Low(m * 512 + i)
    case Low(k) => Low(k)
  }

  /** Role x is r itself or lies below it. */
  ghost predicate Under(r: Role, x: Role) {
    match r
    case Root => true
    case Mid(i) => x == r || (x.Low? && x.k / 512 == i)
    case Low(_) => x == r
  }

  /** The entry of a page with role r through which a role below it is reached. */
  ghost function Branch(r: Role, x: Role): nat {
    match (r, x)
    case (Root, Mid(i)) => i
    case (Root, Low(k)) => k / 512
    case (Mid(_), Low(k)) => k % 512
    case _ => 0
  }

  /** The pages of a subtree, and those below its first n entries. */
  ghost function Sub(t: Tree, r: Role): set<nat> {
    set f | f in t.role && Under(r, t.role[f])
  }

  ghost function Below(t: Tree, r: Role, n: nat): set<nat> {
    set f | f in t.role && t.role[f] != r && Under(r, t.role[f]) && Branch(r, t.role[f]) < n
  }

  /** Those pages taken out of use and put on the free list. */
  ghost function Freed(m: Mem, fs: set<nat>): Mem {
    Mem(m.tables - fs, map f | f in m.cnt :: if f in fs then 0 else m.cnt[f], m.free + fs)
  }

  /** Table pages as they were in m0, with a single reference each. */
  ghost predicate Untouched(m0: Mem, m: Mem, fs: set<nat>) {
    forall f :: f in fs ==>
      f in m0.tables && f in m.tables && m.tables[f] == m0.tables[f] && f in m.cnt && m.cnt[f] == 1 && f !in m.free
  }

  /** What entry i of a page with role r says about the page below. */
  lemma EntryFacts(m0: Mem, t: Tree, p: nat, r: Role, i: nat)
    requires Ok(m0, t) && p in t.role && t.role[p] == r && i < ENTRIES
    ensures p in m0.tables && |m0.tables[p]| == ENTRIES
    ensures var e := m0.tables[p][i];
            IsValid(e) && !IsLeaf(e) ==>
              && !r.Low? && e.ppn in t.role && t.role[e.ppn] == Child(r, i)
              && Sub(t, Child(r, i)) <= Sub(t, r)
              && Below(t, r, i + 1) == Below(t, r, i) + Sub(t, Child(r, i)) && Below(t, r, i) !! Sub(t, Child(r, i))
              && p !in Sub(t, Child(r, i))
    ensures var e := m0.tables[p][i];
            !(IsValid(e) && !IsLeaf(e)) ==> Below(t, r, i + 1) == Below(t, r, i)
  {
    var tb := m0.tables;
    assert RoleOk(tb, t, p);
    var e := tb[p][i];
    match r {
      case Root =>
        assert MidOk(tb, t, i);
        forall f | f in t.role && Branch(r, t.role[f]) == i && t.role[f] != Root ensures i in t.mid {
          LowParent(tb, t, f);
          assert RoleOk(tb, t, f);
        }
      case Mid(m) =>
        var k := m * 512 + i;
        assert LowOk(tb, t, k) && k / 512 == m && k % 512 == i;
        forall f | f in t.role ensures t.role[f].Low? && t.role[f].k / 512 == m && t.role[f].k % 512 == i ==>
            t.role[f].k == k && k in t.low {
          assert RoleOk(tb, t, f);
        }
      case Low(k) =>
        assert LeafOk(tb, t, k, i);
    }
  }

  lemma LowParent(tb: Tables, t: Tree, f: nat)
    requires TreeOk(tb, t) && f in t.role
    ensures t.role[f].Low? ==> t.role[f].k / 512 in t.mid
  {
    assert RoleOk(tb, t, f);
    if t.role[f].Low? { assert LowOk(tb, t, t.role[f].k); }
  }

  lemma AllBelow(m0: Mem, t: Tree, p: nat, r: Role)
    requires Ok(m0, t) && p in t.role && t.role[p] == r
    ensures Below(t, r, ENTRIES) + {p} == Sub(t, r) && p !in Below(t, r, ENTRIES) && Below(t, r, 0) == {}
  {
    forall f | f in Sub(t, r) ensures f == p || f in Below(t, r, ENTRIES) {
      assert RoleOk(m0.tables, t, f) && RoleOk(m0.tables, t, p);
      if t.role[f].Low? { LowParent(m0.tables, t, f); }
    }
  }

  ghost function Height(r: Role): nat { if r.Root? then 2 else if r.Mid? then 1 else 0 }

  /** After n entries: the pages below them are freed; the page itself is intact from entry n on. */
  ghost predicate Walked(m0: Mem, t: Tree, r: Role, p: nat, m: Mem, now: Mem, n: nat) {
    && p in now.tables && |now.tables[p]| == ENTRIES && p in m0.tables && |m0.tables[p]| == ENTRIES
    && (forall i :: n <= i < ENTRIES ==> now.tables[p][i] == m0.tables[p][i])
    && p in m.tables && now == Freed(m, Below(t, r, n)).(tables := Freed(m, Below(t, r, n)).tables[p := now.tables[p]])
  }

  lemma WalkedStart(m0: Mem, t: Tree, r: Role, p: nat, m: Mem)
    requires Ok(m0, t) && p in t.role && t.role[p] == r && Untouched(m0, m, Sub(t, r))
    ensures Walked(m0, t, r, p, m, m, 0)
  {
    hide TreeOk, AllocOk;
    AllBelow(m0, t, p, r);
    EntryFacts(m0, t, p, r, 0);
    assert p in Sub(t, r);
    var d := Freed(m, {});
    assert d.cnt == m.cnt && d.free == m.free && d.tables == m.tables;
    assert d.tables[p := m.tables[p]] == m.tables;
  }

  lemma WalkedSkip(m0: Mem, t: Tree, r: Role, p: nat, m: Mem, now: Mem, n: nat)
    requires Ok(m0, t) && p in t.role && t.role[p] == r && n < ENTRIES && Walked(m0, t, r, p, m, now, n)
    requires !(IsValid(now.tables[p][n]) && !IsLeaf(now.tables[p][n]))
    ensures Walked(m0, t, r, p, m, now, n + 1)
  {
    hide TreeOk, AllocOk;
    EntryFacts(m0, t, p, r, n);
  }

  /** The subtree below entry n is still as it was. */
  lemma WalkedReady(m0: Mem, t: Tree, r: Role, p: nat, m: Mem, now: Mem, n: nat)
    requires Ok(m0, t) && p in t.role && t.role[p] == r && n < ENTRIES && Walked(m0, t, r, p, m, now, n)
    requires Untouched(m0, m, Sub(t, r)) && IsValid(now.tables[p][n]) && !IsLeaf(now.tables[p][n])
    ensures !r.Low? && now.tables[p][n].ppn in t.role && t.role[now.tables[p][n].ppn] == Child(r, n)
    ensures Untouched(m0, now, Sub(t, Child(r, n)))
    ensures var d := Freed(now, Sub(t, Child(r, n))); p in d.tables && |d.tables[p]| == ENTRIES
  {
    hide TreeOk, AllocOk, Under, Branch;
    EntryFacts(m0, t, p, r, n);
    forall f | f in Sub(t, Child(r, n))
      ensures f in m0.tables && f in now.tables && now.tables[f] == m0.tables[f] && f in now.cnt && now.cnt[f] == 1
      ensures f !in now.free
    {
      assert f in Sub(t, r) && f !in Below(t, r, n);
    }
  }

  lemma WalkedChild(m0: Mem, t: Tree, r: Role, p: nat, m: Mem, before: Mem, n: nat, now: Mem)
    requires Ok(m0, t) && p in t.role && t.role[p] == r && n < ENTRIES && Walked(m0, t, r, p, m, before, n)
    requires IsValid(before.tables[p][n]) && !IsLeaf(before.tables[p][n])
    requires var d := Freed(before, Sub(t, Child(r, n)));
             p in d.tables && now == d.(tables := SetEntry(d.tables, p, n, Pte(0, {})))
    ensures Walked(m0, t, r, p, m, now, n + 1)
  {
    hide TreeOk, AllocOk, Under, Branch, Sub, Below;
    EntryFacts(m0, t, p, r, n);
    var a, b := Below(t, r, n), Sub(t, Child(r, n));
    var d := Freed(m, a + b);
    assert now.free == d.free && now.cnt == d.cnt;
    assert now.tables == d.tables[p := now.tables[p]];
  }

  lemma WalkedEnd(m0: Mem, t: Tree, r: Role, p: nat, m: Mem, before: Mem)
    requires Ok(m0, t) && p in t.role && t.role[p] == r && Untouched(m0, m, Sub(t, r))
    requires Walked(m0, t, r, p, m, before, ENTRIES)
    ensures p in before.cnt && before.cnt[p] == 1
    ensures Freed(m, Sub(t, r)) == Mem(before.tables - {p}, before.cnt[p := 0], before.free + {p})
  {
    hide TreeOk, AllocOk, Under, Branch;
    AllBelow(m0, t, p, r);
    assert p in Sub(t, r);
    var d := Freed(m, Sub(t, r));
    assert d.free == before.free + {p};
    assert d.cnt == before.cnt[p := 0];
    assert d.tables == before.tables - {p};
  }

  /** freewalk: every table page at and below `pagetable` is freed, once, and nothing else changes. */
  method Freewalk(vm: Vm, ghost m0: Mem, ghost t: Tree, ghost r: Role, pagetable: nat)
    requires Ok(m0, t) && pagetable in t.role && t.role[pagetable] == r && Untouched(m0, vm.Now(), Sub(t, r))
    modifies vm
    ensures vm.Now() == Freed(old(vm.Now()), Sub(t, r))
    decreases Height(r)
  {
    hide Ok, Sub, Below, Untouched, Freed;
    ghost var m := vm.Now();
    WalkedStart(m0, t, r, pagetable, m);
    var i := 0;
    while i < ENTRIES
      invariant 0 <= i <= ENTRIES && Walked(m0, t, r, pagetable, m, vm.Now(), i)
    {
      ghost var before := vm.Now();
      var pte := vm.tables[pagetable][i];
      if IsValid(pte) && !IsLeaf(pte) {
        WalkedReady(m0, t, r, pagetable, m, before, i);
        Freewalk(vm, m0, t, Child(r, i), pte.ppn);
        vm.tables := SetEntry(vm.tables, pagetable, i, Pte(0, {}));
        WalkedChild(m0, t, r, pagetable, m, before, i, vm.Now());
      } else {
        WalkedSkip(m0, t, r, pagetable, m, before, i);
      }
      i := i + 1;
    }
    WalkedEnd(m0, t, r, pagetable, m, vm.Now());
    vm.Kfree(pagetable);
    vm.tables := vm.tables - {pagetable};
  }

  /** From the root: exactly the pages of the tree go, each once. */
  lemma WholeTree(m0: Mem, t: Tree)
    requires Ok(m0, t)
    ensures Sub(t, Root) == t.role.Keys && Untouched(m0, m0, Sub(t, Root))
  {
    forall f | f in t.role ensures f in m0.tables { assert RoleOk(m0.tables, t, f); }
  }
}
