/**
 Sv39 page tables (section 4.4 of the RISC-V Privileged Architecture manual): a radix tree
 of 512-entry pages in physical memory, and the flat map from page numbers to entries that
 it stands for.
 */
module PageTable {
  import opened Wrappers

  const PGSIZE: nat := 4096
  const ENTRIES: nat := 512
  const MAXPAGE: nat := 0x400_0000      // MAXVA / PGSIZE: 26 bits of page number

  datatype Flag = V | R | W | X | U | F

  /** A page-table entry: physical page number and flag bits. The zero word is Pte(0, {}). */
  datatype Pte = Pte(ppn: nat, flags: set<Flag>)

  predicate IsValid(e: Pte) { V in e.flags }

  /** Any of R, W, X makes a valid entry a leaf; otherwise it points to the next level. */
  predicate IsLeaf(e: Pte) { R in e.flags || W in e.flags || X in e.flags }

  /** The pages of memory in use as page tables. */
  type Tables = map<nat, seq<Pte>>

  function ZeroTable(): seq<Pte> { seq(ENTRIES, _ => Pte(0, {})) }

  /** PX: the 9-bit index at a level. */
  function Px(level: nat, vpn: nat): (i: nat)
    ensures i < ENTRIES
  {
    if level == 0 then vpn % 512 else if level == 1 then vpn / 512 % 512 else vpn / 262144 % 512
  }

  function EntryAt(tb: Tables, f: nat, i: nat): Pte {
    if f in tb && i < |tb[f]| then tb[f][i] else Pte(0, {})
  }

  /** What the hardware's walk from a root finds for a page. */
  function Translate(tb: Tables, root: nat, vpn: nat): Option<Pte> {
    var e2 := EntryAt(tb, root, Px(2, vpn));
    if !IsValid(e2) then None else
    var e1 := EntryAt(tb, e2.ppn, Px(1, vpn));
    if !IsValid(e1) then None else
    var e0 := EntryAt(tb, e1.ppn, Px(0, vpn));
    if !IsValid(e0) then None else Some(e0)
  }

  // ----- the tree -----

  /** What a table page is for: the root, the middle page for a 1 GB range, the low page for a 2 MB range. */
  datatype Role = Root | Mid(i: nat) | Low(k: nat)

  datatype Tree = Tree(root: nat, mid: map<nat, nat>, low: map<nat, nat>, role: map<nat, Role>)

  ghost predicate MidOk(tb: Tables, t: Tree, i: nat) {
    var e := EntryAt(tb, t.root, i);
    && (IsValid(e) <==> i in t.mid)
    && (i in t.mid ==> !IsLeaf(e) && e.ppn == t.mid[i] && t.mid[i] in t.role && t.role[t.mid[i]] == Mid(i))
  }

  ghost predicate LowOk(tb: Tables, t: Tree, k: nat) {
    && (k in t.low ==> k / 512 in t.mid && t.low[k] in t.role && t.role[t.low[k]] == Low(k))
    && (k / 512 in t.mid ==>
          var e := EntryAt(tb, t.mid[k / 512], k % 512);
          (IsValid(e) <==> k in t.low) && (k in t.low ==> !IsLeaf(e) && e.ppn == t.low[k]))
  }

  ghost predicate LeafOk(tb: Tables, t: Tree, k: nat, j: nat) {
    k in t.low && IsValid(EntryAt(tb, t.low[k], j)) ==> IsLeaf(EntryAt(tb, t.low[k], j))
  }

  ghost predicate RoleOk(tb: Tables, t: Tree, f: nat) {
    f in t.role ==>
      && f in tb && |tb[f]| == ENTRIES
      && match t.role[f]
         case Root => f == t.root
         case Mid(i) => i in t.mid && t.mid[i] == f
         case Low(k) => k in t.low && t.low[k] == f
  }

  /** Every table page has one role, and the entries of each level are exactly the pages of the next. */
  ghost predicate TreeOk(tb: Tables, t: Tree) {
    && t.root in t.role && t.role[t.root] == Root
    && (forall i: nat :: i < ENTRIES ==> MidOk(tb, t, i))
    && (forall i :: i in t.mid ==> i < ENTRIES)
    && (forall k: nat :: LowOk(tb, t, k))
    && (forall k: nat, j: nat :: LeafOk(tb, t, k, j))
    && (forall f: nat :: RoleOk(tb, t, f))
  }

  /** The flat map a tree stands for. */
  ghost function Flat(tb: Tables, t: Tree, vpn: nat): Option<Pte> {
    if vpn / 512 in t.low then
      var e := EntryAt(tb, t.low[vpn / 512], vpn % 512);
      if IsValid(e) then Some(e) else None
    else None
  }

  /** The three-level walk finds exactly what the flat map holds. */
  lemma WalkIsFlat(tb: Tables, t: Tree, vpn: nat)
    requires TreeOk(tb, t) && vpn < MAXPAGE
    ensures Translate(tb, t.root, vpn) == Flat(tb, t, vpn)
  {
    var i2, k := vpn / 262144, vpn / 512;
    assert k / 512 == i2 && Px(2, vpn) == i2 && Px(1, vpn) == k % 512;
    assert MidOk(tb, t, i2) && LowOk(tb, t, k);
  }

  function SetEntry(tb: Tables, f: nat, i: nat, e: Pte): Tables
    requires f in tb && i < |tb[f]|
  {
    tb[f := tb[f][i := e]]
  }

  /** Writing a leaf or the zero word into a low page changes one translation. */
  lemma SetLeaf(tb: Tables, t: Tree, vpn: nat, e: Pte)
    requires TreeOk(tb, t) && vpn / 512 in t.low && (IsValid(e) ==> IsLeaf(e))
    ensures t.low[vpn / 512] in tb && |tb[t.low[vpn / 512]]| == ENTRIES
    ensures var tb' := SetEntry(tb, t.low[vpn / 512], vpn % 512, e);
            && TreeOk(tb', t)
            && forall v: nat :: Flat(tb', t, v) ==
                 if v == vpn then (if IsValid(e) then Some(e) else None) else Flat(tb, t, v)
  {
    var f := t.low[vpn / 512];
    assert LowOk(tb, t, vpn / 512) && RoleOk(tb, t, f);
    var tb' := SetEntry(tb, f, vpn % 512, e);
    forall i: nat | i < ENTRIES ensures MidOk(tb', t, i) { assert MidOk(tb, t, i) && RoleOk(tb, t, t.root); }
    forall k: nat ensures LowOk(tb', t, k) {
      assert LowOk(tb, t, k);
      if k / 512 in t.mid { assert MidOk(tb, t, k / 512); }
    }
    forall k: nat, j: nat ensures LeafOk(tb', t, k, j) { assert LeafOk(tb, t, k, j) && LowOk(tb, t, k); }
    forall g: nat ensures RoleOk(tb', t, g) { assert RoleOk(tb, t, g); }
    forall v: nat ensures Flat(tb', t, v) ==
        if v == vpn then (if IsValid(e) then Some(e) else None) else Flat(tb, t, v) {
      assert LowOk(tb, t, v / 512);
      assert v == v / 512 * 512 + v % 512 && vpn == vpn / 512 * 512 + vpn % 512;
    }
  }

  /** Linking a zeroed page into the root, or into a middle page, changes no translation. */
  lemma AddMid(tb: Tables, t: Tree, i: nat, f: nat)
    requires TreeOk(tb, t) && i < ENTRIES && i !in t.mid && f !in t.role && f !in tb
    ensures t.root in tb && |tb[t.root]| == ENTRIES
    ensures var tb' := SetEntry(tb, t.root, i, Pte(f, {V}))[f := ZeroTable()];
            var t' := t.(mid := t.mid[i := f], role := t.role[f := Mid(i)]);
            TreeOk(tb', t') && forall v: nat :: Flat(tb', t', v) == Flat(tb, t, v)
  {
    assert RoleOk(tb, t, t.root);
    var tb' := SetEntry(tb, t.root, i, Pte(f, {V}))[f := ZeroTable()];
    var t' := t.(mid := t.mid[i := f], role := t.role[f := Mid(i)]);
    forall j: nat | j < ENTRIES ensures MidOk(tb', t', j) { assert MidOk(tb, t, j); }
    forall k: nat ensures LowOk(tb', t', k) {
      assert LowOk(tb, t, k);
      if k / 512 in t.mid { assert MidOk(tb, t, k / 512) && RoleOk(tb, t, t.mid[k / 512]); }
    }
    forall k: nat, j: nat ensures LeafOk(tb', t', k, j) {
      assert LeafOk(tb, t, k, j) && LowOk(tb, t, k);
      if k in t.low { assert RoleOk(tb, t, t.low[k]); }
    }
    forall g: nat ensures RoleOk(tb', t', g) { assert RoleOk(tb, t, g); }
    forall v: nat ensures Flat(tb', t', v) == Flat(tb, t, v) {
      assert LowOk(tb, t, v / 512);
      if v / 512 in t.low { assert RoleOk(tb, t, t.low[v / 512]); }
    }
  }

  lemma AddLow(tb: Tables, t: Tree, k: nat, f: nat)
    requires TreeOk(tb, t) && k / 512 in t.mid && k !in t.low && f !in t.role && f !in tb
    ensures t.mid[k / 512] in tb && |tb[t.mid[k / 512]]| == ENTRIES
    ensures var tb' := SetEntry(tb, t.mid[k / 512], k % 512, Pte(f, {V}))[f := ZeroTable()];
            var t' := t.(low := t.low[k := f], role := t.role[f := Low(k)]);
            TreeOk(tb', t') && forall v: nat :: Flat(tb', t', v) == Flat(tb, t, v)
  {
    var m := t.mid[k / 512];
    assert MidOk(tb, t, k / 512) && RoleOk(tb, t, m) && RoleOk(tb, t, t.root);
    var tb' := SetEntry(tb, m, k % 512, Pte(f, {V}))[f := ZeroTable()];
    var t' := t.(low := t.low[k := f], role := t.role[f := Low(k)]);
    forall j: nat | j < ENTRIES ensures MidOk(tb', t', j) { assert MidOk(tb, t, j); }
    forall l: nat ensures LowOk(tb', t', l) {
      assert LowOk(tb, t, l);
      assert l == l / 512 * 512 + l % 512 && k == k / 512 * 512 + k % 512;
      if l / 512 in t.mid { assert MidOk(tb, t, l / 512) && RoleOk(tb, t, t.mid[l / 512]); }
    }
    forall l: nat, j: nat ensures LeafOk(tb', t', l, j) {
      assert LeafOk(tb, t, l, j) && LowOk(tb, t, l);
      if l in t.low { assert RoleOk(tb, t, t.low[l]); }
    }
    forall g: nat ensures RoleOk(tb', t', g) { assert RoleOk(tb, t, g); }
    forall v: nat ensures Flat(tb', t', v) == Flat(tb, t, v) {
      assert LowOk(tb, t, v / 512);
      if v / 512 in t.low { assert RoleOk(tb, t, t.low[v / 512]); }
    }
  }
}
