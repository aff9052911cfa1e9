/**
 Sv39 page tables as kernel/vm.c builds them: page-table entries, the three-level
 tree they form in memory, and the flat map from virtual to physical pages that
 the tree stands for.
 */
module VmTree {

  type Page = nat   // physical page number: physical address / PGSIZE
  type Pte = nat

  const PGSIZE := 4096
  const ENTRIES := 512
  const MAXVA := 0x40_0000_0000            // 1 << 38
  const TRAMPOLINE := MAXVA - PGSIZE
  const TRAPFRAME := TRAMPOLINE - PGSIZE
  const VPAGES := MAXVA / PGSIZE
  const USERPAGES := TRAPFRAME / PGSIZE    // virtual pages below the trapframe

  // ---- Page-table entries ----

  const PTE_R := 2
  const PTE_W := 4
  const PTE_X := 8
  const PTE_U := 16

  function PA2PTE(pa: nat): Pte { (pa / 4096) * 1024 }

  function PTE2PA(pte: Pte): nat { (pte / 1024) * 4096 }

  function PteFlags(pte: Pte): nat { pte % 1024 }

  predicate Present(pte: Pte) { pte % 2 == 1 }

  predicate Writable(pte: Pte) { pte / 4 % 2 == 1 }

  predicate User(pte: Pte) { pte / 16 % 2 == 1 }

  // Any of PTE_R, PTE_W and PTE_X set.
  predicate IsLeaf(pte: Pte) { pte / 2 % 8 != 0 }

  /** PA2PTE(pa) | perm | PTE_V */
  function MakePte(p: Page, perm: nat): Pte
    requires perm < 1024
  {
    PA2PTE(p * PGSIZE) + (if Present(perm) then perm else perm + 1)
  }

  function PageOf(pte: Pte): Page { PTE2PA(pte) / PGSIZE }

  lemma Shift2(a: nat, b: nat)
    ensures (2 * a + b) / 2 == a + b / 2 && (2 * a + b) % 2 == b % 2
  {}

  lemma Shift4(a: nat, b: nat)
    ensures (4 * a + b) / 4 == a + b / 4
  {}

  lemma Shift8(a: nat, b: nat)
    ensures (8 * a + b) % 8 == b % 8
  {}

  lemma Shift16(a: nat, b: nat)
    ensures (16 * a + b) / 16 == a + b / 16
  {}

  /** Bits below the page number are the flags' own. */
  lemma LowBits(x: nat, f: nat)
    ensures Present(1024 * x + f) == Present(f) && Writable(1024 * x + f) == Writable(f)
            && User(1024 * x + f) == User(f)
    ensures IsLeaf(1024 * x + f) == IsLeaf(f)
  {
    Shift2(512 * x, f);
    Shift8(64 * x, f / 2);
    Shift4(256 * x, f);
    Shift2(128 * x, f / 4);
    Shift16(64 * x, f);
    Shift2(32 * x, f / 16);
  }

  /** Setting the valid bit changes no other. */
  lemma PresentBit(perm: nat)
    requires !Present(perm)
    ensures Present(perm + 1) && Writable(perm + 1) == Writable(perm) && User(perm + 1) == User(perm)
    ensures IsLeaf(perm + 1) == IsLeaf(perm)
  {
    var h := perm / 2;
    assert perm == 2 * h;
    assert (2 * h + 1) / 4 == 2 * h / 4 && (2 * h + 1) / 16 == 2 * h / 16;
  }

  /** An entry made for a page gives back that page and exactly the flags asked for, and is valid. */
  lemma PteRoundTrip(p: Page, perm: nat)
    requires perm < 1024
    ensures PTE2PA(MakePte(p, perm)) == p * PGSIZE && PageOf(MakePte(p, perm)) == p && Present(MakePte(p, perm))
    ensures PteFlags(MakePte(p, perm)) == if Present(perm) then perm else perm + 1
    ensures Writable(MakePte(p, perm)) == Writable(perm) && User(MakePte(p, perm)) == User(perm)
    ensures IsLeaf(MakePte(p, perm)) == IsLeaf(perm)
  {
    var f := if Present(perm) then perm else perm + 1;
    assert f < 1024;
    assert p * PGSIZE / 4096 == p;
    assert MakePte(p, perm) == 1024 * p + f;
    assert (1024 * p + f) / 1024 == p;
    LowBits(p, f);
    if !Present(perm) {
      PresentBit(perm);
    }
  }

  function PxShift(level: nat): nat
    requires level <= 2
    ensures PxShift(level) > 0
  {
    if level == 0 then 0x1000 else if level == 1 then 0x20_0000 else 0x4000_0000
  }

  /** The 9-bit index of a virtual address at a level. */
  function PX(level: nat, va: nat): (i: nat)
    requires level <= 2
    ensures i < ENTRIES
  {
    (va / PxShift(level)) % 512
  }

  /** The three indices are exactly the virtual page number. */
  lemma PxSplit(va: nat)
    requires va < 512 * PxShift(2)
    ensures PX(2, va) == va / PGSIZE / 512 / 512
    ensures PX(2, va) * 512 + PX(1, va) == va / PGSIZE / 512
    ensures PX(1, va) == va / PGSIZE / 512 % 512 && PX(0, va) == va / PGSIZE % 512
    ensures (PX(2, va) * 512 + PX(1, va)) * 512 + PX(0, va) == va / PGSIZE
  {
    var v := va / 4096;
    assert va / 0x20_0000 == v / 512;
    assert va / 0x4000_0000 == v / 512 / 512;
  }

  // ---- The tree and what it stands for ----

  /**
   One page table: the level-1 table under each index of the root, the level-0
   table under each pair of indices, and the valid leaf of each virtual page.
   */
  datatype Space = Space(mid: map<nat, Page>, low: map<nat, Page>, flat: map<nat, Pte>)

  // The entry of a page-table page that points to page.
  function Link(page: Page): Pte { MakePte(page, 0) }

  function LinkOr(m: map<nat, Page>, i: nat): Pte { if i in m then Link(m[i]) else 0 }

  function LeafOr(m: map<nat, Pte>, v: nat): Pte { if v in m then m[v] else 0 }

  type Tables = map<Page, seq<Pte>>

  ghost predicate IsTable(tables: Tables, p: Page) { p in tables && |tables[p]| == ENTRIES }

  ghost predicate RootOk(tables: Tables, r: Page, mid: map<nat, Page>) {
    IsTable(tables, r) && forall i :: 0 <= i < ENTRIES ==> tables[r][i] == LinkOr(mid, i)
  }

  ghost predicate MidOk(tables: Tables, p: Page, i: nat, low: map<nat, Page>) {
    IsTable(tables, p) && forall j :: 0 <= j < ENTRIES ==> tables[p][j] == LinkOr(low, i * 512 + j)
  }

  ghost predicate LowOk(tables: Tables, p: Page, d: nat, flat: map<nat, Pte>) {
    IsTable(tables, p) && forall k :: 0 <= k < ENTRIES ==> tables[p][k] == LeafOr(flat, d * 512 + k)
  }

  ghost predicate Shape(tables: Tables, r: Page, sp: Space) {
    && RootOk(tables, r, sp.mid)
    && (forall i :: i in sp.mid ==> i < ENTRIES && MidOk(tables, sp.mid[i], i, sp.low))
    && (forall d :: d in sp.low ==> d / 512 in sp.mid && LowOk(tables, sp.low[d], d, sp.flat))
    && (forall v :: v in sp.flat ==> v / 512 in sp.low && Present(sp.flat[v]))
  }

  // Where in which page table a page-table page hangs.
  datatype Slot = Root(r: Page) | Mid(r: Page, i: nat) | Low(r: Page, d: nat)

  ghost predicate Hangs(spaces: map<Page, Space>, p: Page, slot: Slot) {
    slot.r in spaces &&
    match slot
    case Root(r) => r == p
    case Mid(r, i) => i in spaces[r].mid && spaces[r].mid[i] == p
    case Low(r, d) => d in spaces[r].low && spaces[r].low[d] == p
  }

  /** Every page-table page hangs in exactly one place of one page table. */
  ghost predicate Unshared(tables: Tables, spaces: map<Page, Space>, owner: map<Page, Slot>) {
    tables.Keys == owner.Keys && forall p, slot :: Hangs(spaces, p, slot) <==> p in owner && owner[p] == slot
  }

  ghost predicate Shapes(tables: Tables, spaces: map<Page, Space>) {
    forall r :: r in spaces ==> Shape(tables, r, spaces[r])
  }

  /** Entry k of table p stored. */
  function Put(tables: Tables, p: Page, k: nat, pte: Pte): Tables
    requires p in tables && k < |tables[p]|
  {
    var row: seq<Pte> := tables[p][k := pte];
    tables[p := row]
  }

  const ZEROS: seq<Pte> := seq(ENTRIES, _ => 0)

  // ---- What updates in memory do to the trees ----

  /** A page table not reached by what changed keeps its shape. */
  lemma ShapeFrame(tables: Tables, tables': Tables, r: Page, sp: Space)
    requires Shape(tables, r, sp)
    requires r in tables' && tables'[r] == tables[r]
    requires forall i :: i in sp.mid ==> sp.mid[i] in tables' && tables'[sp.mid[i]] == tables[sp.mid[i]]
    requires forall d :: d in sp.low ==> sp.low[d] in tables' && tables'[sp.low[d]] == tables[sp.low[d]]
    ensures Shape(tables', r, sp)
  {}

  /** The page-table pages of one page table. */
  ghost predicate Within(owner: map<Page, Slot>, r: Page, p: Page) { p in owner && owner[p].r == r }

  /** Each page of a page table is owned by its place there. */
  lemma Rooted(tables: Tables, spaces: map<Page, Space>, owner: map<Page, Slot>, r: Page)
    requires Unshared(tables, spaces, owner) && r in spaces
    ensures r in owner && owner[r] == Root(r)
    ensures forall i :: i in spaces[r].mid ==> spaces[r].mid[i] in owner && owner[spaces[r].mid[i]] == Mid(r, i)
    ensures forall d :: d in spaces[r].low ==> spaces[r].low[d] in owner && owner[spaces[r].low[d]] == Low(r, d)
  {
    assert Hangs(spaces, r, Root(r));
    forall i | i in spaces[r].mid ensures spaces[r].mid[i] in owner && owner[spaces[r].mid[i]] == Mid(r, i) {
      assert Hangs(spaces, spaces[r].mid[i], Mid(r, i));
    }
    forall d | d in spaces[r].low ensures spaces[r].low[d] in owner && owner[spaces[r].low[d]] == Low(r, d) {
      assert Hangs(spaces, spaces[r].low[d], Low(r, d));
    }
  }

  /** Changing and adding only pages of page table r leaves the other page tables as they were. */
  lemma OthersKeep(tables: Tables, tables': Tables, spaces: map<Page, Space>, owner: map<Page, Slot>, r: Page)
    requires Shapes(tables, spaces) && Unshared(tables, spaces, owner)
    requires forall p :: p in tables && !Within(owner, r, p) ==> p in tables' && tables'[p] == tables[p]
    ensures forall q :: q in spaces && q != r ==> Shape(tables', q, spaces[q])
  {
    forall q | q in spaces && q != r ensures Shape(tables', q, spaces[q]) {
      Rooted(tables, spaces, owner, q);
      ShapeFrame(tables, tables', q, spaces[q]);
    }
  }

  /** The pages of one page table are all different. */
  ghost predicate Apart(r: Page, sp: Space) {
    && (forall i :: i in sp.mid ==> sp.mid[i] != r)
    && (forall d :: d in sp.low ==> sp.low[d] != r)
    && (forall i, d :: i in sp.mid && d in sp.low ==> sp.mid[i] != sp.low[d])
    && (forall i, j :: i in sp.mid && j in sp.mid && i != j ==> sp.mid[i] != sp.mid[j])
    && (forall d, e :: d in sp.low && e in sp.low && d != e ==> sp.low[d] != sp.low[e])
  }

  lemma SpaceApart(tables: Tables, spaces: map<Page, Space>, owner: map<Page, Slot>, r: Page)
    requires Unshared(tables, spaces, owner) && r in spaces
    ensures Apart(r, spaces[r])
  {
    Rooted(tables, spaces, owner, r);
  }

  lemma MidAdded(tables: Tables, r: Page, sp: Space, i: nat, p: Page)
    requires Shape(tables, r, sp) && i < ENTRIES && i !in sp.mid && p !in tables
    requires Apart(r, sp)
    ensures Shape(Put(tables[p := ZEROS], r, i, Link(p)), r, sp.(mid := sp.mid[i := p]))
  {
    var tables' := Put(tables[p := ZEROS], r, i, Link(p));
    assert MidOk(tables', p, i, sp.low) by {
      forall j | 0 <= j < ENTRIES ensures tables'[p][j] == LinkOr(sp.low, i * 512 + j) {
        assert (i * 512 + j) / 512 == i;
      }
    }
    forall j | j in sp.mid ensures MidOk(tables', sp.mid[j], j, sp.low) {
      assert MidOk(tables, sp.mid[j], j, sp.low);
    }
    forall d | d in sp.low ensures LowOk(tables', sp.low[d], d, sp.flat) {
      assert LowOk(tables, sp.low[d], d, sp.flat);
    }
  }

  lemma LowAdded(tables: Tables, r: Page, sp: Space, d: nat, p: Page)
    requires Shape(tables, r, sp) && d !in sp.low && d / 512 in sp.mid && p !in tables
    requires Apart(r, sp)
    ensures var m := sp.mid[d / 512];
            Shape(Put(tables[p := ZEROS], m, d % 512, Link(p)), r, sp.(low := sp.low[d := p]))
  {
    var m := sp.mid[d / 512];
    var tables' := Put(tables[p := ZEROS], m, d % 512, Link(p));
    var low := sp.low[d := p];
    assert LowOk(tables', p, d, sp.flat) by {
      forall k | 0 <= k < ENTRIES ensures tables'[p][k] == LeafOr(sp.flat, d * 512 + k) {
        assert (d * 512 + k) / 512 == d;
      }
    }
    forall i | i in sp.mid ensures MidOk(tables', sp.mid[i], i, low) {
      assert MidOk(tables, sp.mid[i], i, sp.low);
      forall j | 0 <= j < ENTRIES ensures tables'[sp.mid[i]][j] == LinkOr(low, i * 512 + j) {
        assert i * 512 + j == d <==> i == d / 512 && j == d % 512;
      }
    }
    forall e | e in sp.low ensures LowOk(tables', sp.low[e], e, sp.flat) {
      assert LowOk(tables, sp.low[e], e, sp.flat);
    }
  }

  /** The flat map after entry v is set to pte, or cleared. */
  function SetFlat(flat: map<nat, Pte>, v: nat, pte: Pte): map<nat, Pte> {
    if Present(pte) then flat[v := pte] else flat - {v}
  }

  lemma LeafSet(tables: Tables, r: Page, sp: Space, v: nat, pte: Pte)
    requires Shape(tables, r, sp) && v / 512 in sp.low && (pte == 0 || Present(pte))
    requires Apart(r, sp)
    ensures var t := sp.low[v / 512];
            Shape(Put(tables, t, v % 512, pte), r, sp.(flat := SetFlat(sp.flat, v, pte)))
  {
    var t := sp.low[v / 512];
    var tables' := Put(tables, t, v % 512, pte);
    var flat := SetFlat(sp.flat, v, pte);
    forall i | i in sp.mid ensures MidOk(tables', sp.mid[i], i, sp.low) {
      assert MidOk(tables, sp.mid[i], i, sp.low);
    }
    forall d | d in sp.low ensures LowOk(tables', sp.low[d], d, flat) {
      assert LowOk(tables, sp.low[d], d, sp.flat);
      forall k | 0 <= k < ENTRIES ensures tables'[sp.low[d]][k] == LeafOr(flat, d * 512 + k) {
        assert d * 512 + k == v <==> d == v / 512 && k == v % 512;
      }
    }
  }

  lemma UnsharedMid(tables: Tables, spaces: map<Page, Space>, owner: map<Page, Slot>, r: Page, i: nat, p: Page,
                    tables': Tables)
    requires Unshared(tables, spaces, owner) && r in spaces && p !in tables && tables'.Keys == tables.Keys + {p}
    requires i !in spaces[r].mid
    ensures Unshared(tables', spaces[r := spaces[r].(mid := spaces[r].mid[i := p])], owner[p := Mid(r, i)])
  {
    var spaces', owner' := spaces[r := spaces[r].(mid := spaces[r].mid[i := p])], owner[p := Mid(r, i)];
    forall q, slot ensures Hangs(spaces', q, slot) <==> q in owner' && owner'[q] == slot {
      assert Hangs(spaces', q, slot) <==> Hangs(spaces, q, slot) || (slot == Mid(r, i) && q == p);
    }
  }

  lemma UnsharedLow(tables: Tables, spaces: map<Page, Space>, owner: map<Page, Slot>, r: Page, d: nat, p: Page,
                    tables': Tables)
    requires Unshared(tables, spaces, owner) && r in spaces && p !in tables && tables'.Keys == tables.Keys + {p}
    requires d !in spaces[r].low
    ensures Unshared(tables', spaces[r := spaces[r].(low := spaces[r].low[d := p])], owner[p := Low(r, d)])
  {
    var spaces', owner' := spaces[r := spaces[r].(low := spaces[r].low[d := p])], owner[p := Low(r, d)];
    forall q, slot ensures Hangs(spaces', q, slot) <==> q in owner' && owner'[q] == slot {
      assert Hangs(spaces', q, slot) <==> Hangs(spaces, q, slot) || (slot == Low(r, d) && q == p);
    }
  }

  lemma UnsharedSame(tables: Tables, spaces: map<Page, Space>, owner: map<Page, Slot>, r: Page, flat: map<nat, Pte>,
                     tables': Tables)
    requires Unshared(tables, spaces, owner) && r in spaces && tables'.Keys == tables.Keys
    ensures Unshared(tables', spaces[r := spaces[r].(flat := flat)], owner)
  {
    var spaces' := spaces[r := spaces[r].(flat := flat)];
    forall q, slot ensures Hangs(spaces', q, slot) <==> q in owner && owner[q] == slot {
      assert Hangs(spaces', q, slot) <==> Hangs(spaces, q, slot);
    }
  }

  /** walk() hangs a new level-1 table. */
  lemma AddMid(tables: Tables, spaces: map<Page, Space>, owner: map<Page, Slot>, r: Page, i: nat, p: Page)
    requires Shapes(tables, spaces) && Unshared(tables, spaces, owner)
    requires r in spaces && IsTable(tables, r) && i < ENTRIES && i !in spaces[r].mid && p !in tables
    ensures var tables' := Put(tables[p := ZEROS], r, i, Link(p));
            var spaces' := spaces[r := spaces[r].(mid := spaces[r].mid[i := p])];
            Shapes(tables', spaces') && Unshared(tables', spaces', owner[p := Mid(r, i)])
  {
    hide Shape, Unshared, Apart;
    var tables' := Put(tables[p := ZEROS], r, i, Link(p));
    SpaceApart(tables, spaces, owner, r);
    MidAdded(tables, r, spaces[r], i, p);
    Rooted(tables, spaces, owner, r);
    OthersKeep(tables, tables', spaces, owner, r);
    UnsharedMid(tables, spaces, owner, r, i, p, tables');
  }

  /** walk() hangs a new level-0 table. */
  lemma AddLow(tables: Tables, spaces: map<Page, Space>, owner: map<Page, Slot>, r: Page, d: nat, p: Page)
    requires Shapes(tables, spaces) && Unshared(tables, spaces, owner)
    requires r in spaces && d !in spaces[r].low && d / 512 in spaces[r].mid && p !in tables
    requires IsTable(tables, spaces[r].mid[d / 512])
    ensures var m := spaces[r].mid[d / 512];
            var tables' := Put(tables[p := ZEROS], m, d % 512, Link(p));
            var spaces' := spaces[r := spaces[r].(low := spaces[r].low[d := p])];
            Shapes(tables', spaces') && Unshared(tables', spaces', owner[p := Low(r, d)])
  {
    hide Shape, Unshared, Apart;
    var m := spaces[r].mid[d / 512];
    var tables' := Put(tables[p := ZEROS], m, d % 512, Link(p));
    SpaceApart(tables, spaces, owner, r);
    LowAdded(tables, r, spaces[r], d, p);
    Rooted(tables, spaces, owner, r);
    OthersKeep(tables, tables', spaces, owner, r);
    UnsharedLow(tables, spaces, owner, r, d, p, tables');
  }

  /** A leaf entry is written. */
  lemma SetLeaf(tables: Tables, spaces: map<Page, Space>, owner: map<Page, Slot>, r: Page, v: nat, pte: Pte)
    requires Shapes(tables, spaces) && Unshared(tables, spaces, owner)
    requires r in spaces && v / 512 in spaces[r].low && (pte == 0 || Present(pte))
    requires IsTable(tables, spaces[r].low[v / 512])
    ensures var t := spaces[r].low[v / 512];
            var tables' := Put(tables, t, v % 512, pte);
            var spaces' := spaces[r := spaces[r].(flat := SetFlat(spaces[r].flat, v, pte))];
            Shapes(tables', spaces') && Unshared(tables', spaces', owner)
  {
    hide Shape, Unshared, Apart;
    var t := spaces[r].low[v / 512];
    SpaceApart(tables, spaces, owner, r);
    LeafSet(tables, r, spaces[r], v, pte);
    Rooted(tables, spaces, owner, r);
    OthersKeep(tables, Put(tables, t, v % 512, pte), spaces, owner, r);
    UnsharedSame(tables, spaces, owner, r, SetFlat(spaces[r].flat, v, pte), Put(tables, t, v % 512, pte));
  }

  // ---- The descent of walk() ----

  /** pt is the table at a level of the descent from root to va. */
  ghost predicate OnPath(spaces: map<Page, Space>, root: Page, va: nat, level: nat, pt: Page) {
    var v := va / PGSIZE;
    root in spaces && level <= 2 && va < MAXVA &&
    if level == 2 then pt == root
    else if level == 1 then v / 512 / 512 in spaces[root].mid && pt == spaces[root].mid[v / 512 / 512]
    else v / 512 in spaces[root].low && pt == spaces[root].low[v / 512]
  }

  /** There is no table below this level on the way to va. */
  ghost predicate NoTable(sp: Space, va: nat, level: nat) {
    if level == 2 then va / PGSIZE / 512 / 512 !in sp.mid else va / PGSIZE / 512 !in sp.low
  }

  /** What the entry that walk() looks at says: where to go on, or that there is no table yet. */
  lemma EntryAt(tables: Tables, spaces: map<Page, Space>, root: Page, va: nat, level: nat, pt: Page)
    requires Shapes(tables, spaces) && OnPath(spaces, root, va, level, pt) && 0 < level
    ensures IsTable(tables, pt)
    ensures var pte := tables[pt][PX(level, va)];
            if Present(pte) then OnPath(spaces, root, va, level - 1, PageOf(pte)) else NoTable(spaces[root], va, level)
  {
    PxSplit(va);
    var sp := spaces[root];
    var v := va / PGSIZE;
    assert Shape(tables, root, sp);
    if level == 2 {
      assert tables[root][PX(2, va)] == LinkOr(sp.mid, v / 512 / 512);
      if v / 512 / 512 in sp.mid { PteRoundTrip(sp.mid[v / 512 / 512], 0); }
    } else {
      assert MidOk(tables, pt, v / 512 / 512, sp.low);
      assert tables[pt][PX(1, va)] == LinkOr(sp.low, v / 512);
      if v / 512 in sp.low { PteRoundTrip(sp.low[v / 512], 0); }
    }
  }

  ghost predicate SameFlats(spaces: map<Page, Space>, spaces': map<Page, Space>) {
    spaces.Keys == spaces'.Keys && forall r :: r in spaces ==> spaces'[r].flat == spaces[r].flat
  }

  /** What a walk that allocates page-table pages may do to the page tables. */
  ghost predicate Grown(spaces: map<Page, Space>, spaces': map<Page, Space>, r: Page) {
    && SameFlats(spaces, spaces')
    && (forall q :: q in spaces && q != r ==> spaces'[q] == spaces[q])
    && r in spaces && Extends(spaces[r].mid, spaces'[r].mid) && Extends(spaces[r].low, spaces'[r].low)
  }

  ghost predicate Extends(m: map<nat, Page>, m': map<nat, Page>) {
    forall i :: i in m ==> i in m' && m'[i] == m[i]
  }

  lemma GrownSelf(spaces: map<Page, Space>, r: Page)
    requires r in spaces
    ensures Grown(spaces, spaces, r)
  {}

  lemma GrownOn(a: map<Page, Space>, b: map<Page, Space>, c: map<Page, Space>, r: Page)
    requires Grown(a, b, r) && Grown(b, c, r)
    ensures Grown(a, c, r)
  {}

  function HungSpace(sp: Space, va: nat, level: nat, p: Page): Space {
    if level == 2 then sp.(mid := sp.mid[va / PGSIZE / 512 / 512 := p]) else sp.(low := sp.low[va / PGSIZE / 512 := p])
  }

  function HungSlot(root: Page, va: nat, level: nat): Slot {
    if level == 2 then Mid(root, va / PGSIZE / 512 / 512) else Low(root, va / PGSIZE / 512)
  }

  /** walk() hangs a new page-table page p at its place. */
  lemma Hung(tables: Tables, spaces: map<Page, Space>, owner: map<Page, Slot>, root: Page, va: nat, level: nat,
             pt: Page, p: Page)
    requires Shapes(tables, spaces) && Unshared(tables, spaces, owner) && OnPath(spaces, root, va, level, pt)
    requires 0 < level && NoTable(spaces[root], va, level) && p !in tables && IsTable(tables, pt)
    ensures var tables' := Put(tables[p := ZEROS], pt, PX(level, va), Link(p));
            var spaces' := spaces[root := HungSpace(spaces[root], va, level, p)];
            && Shapes(tables', spaces') && Unshared(tables', spaces', owner[p := HungSlot(root, va, level)])
            && OnPath(spaces', root, va, level - 1, p) && Grown(spaces, spaces', root)
  {
    hide Shapes, Unshared;
    PxSplit(va);
    if level == 2 {
      AddMid(tables, spaces, owner, root, va / PGSIZE / 512 / 512, p);
    } else {
      AddLow(tables, spaces, owner, root, va / PGSIZE / 512, p);
    }
  }

  const EMPTY := Space(map[], map[], map[])

  /** uvmcreate() makes an empty page table. */
  lemma AddRoot(tables: Tables, spaces: map<Page, Space>, owner: map<Page, Slot>, p: Page)
    requires Shapes(tables, spaces) && Unshared(tables, spaces, owner) && p !in tables
    ensures Shapes(tables[p := ZEROS], spaces[p := EMPTY])
    ensures Unshared(tables[p := ZEROS], spaces[p := EMPTY], owner[p := Root(p)])
  {
    hide Unshared, Shape;
    OthersKeep(tables, tables[p := ZEROS], spaces, owner, p);
    EmptyShape(tables, p);
    UnsharedRoot(tables, spaces, owner, p);
  }

  lemma EmptyShape(tables: Tables, p: Page)
    ensures Shape(tables[p := ZEROS], p, EMPTY)
  {}

  lemma UnsharedRoot(tables: Tables, spaces: map<Page, Space>, owner: map<Page, Slot>, p: Page)
    requires Unshared(tables, spaces, owner) && p !in tables
    ensures p !in spaces && Unshared(tables[p := ZEROS], spaces[p := EMPTY], owner[p := Root(p)])
  {
    assert p in spaces ==> Hangs(spaces, p, Root(p));
    var spaces', owner' := spaces[p := EMPTY], owner[p := Root(p)];
    forall q, slot ensures Hangs(spaces', q, slot) <==> q in owner' && owner'[q] == slot {
      assert Hangs(spaces', q, slot) <==> Hangs(spaces, q, slot) || (slot == Root(p) && q == p);
    }
  }

  // ---- User pages ----

  /** Page table r maps user virtual page v to physical page p. */
  ghost predicate Maps(spaces: map<Page, Space>, r: Page, v: nat, p: Page) {
    r in spaces && v in spaces[r].flat && v < USERPAGES && PageOf(spaces[r].flat[v]) == p
  }

  /** Every user page is mapped in exactly one place, which held records. */
  ghost predicate Holds(spaces: map<Page, Space>, held: map<Page, (Page, nat)>) {
    forall p: Page, r: Page, v: nat :: Maps(spaces, r, v, p) <==> p in held && held[p] == (r, v)
  }

  lemma HoldsSame(spaces: map<Page, Space>, spaces': map<Page, Space>, held: map<Page, (Page, nat)>)
    requires Holds(spaces, held) && SameFlats(spaces, spaces')
    ensures Holds(spaces', held)
  {
    forall p: Page, r: Page, v: nat ensures Maps(spaces', r, v, p) <==> p in held && held[p] == (r, v) {
      assert Maps(spaces', r, v, p) <==> Maps(spaces, r, v, p);
    }
  }

  lemma GrownHolds(spaces: map<Page, Space>, spaces': map<Page, Space>, r: Page, held: map<Page, (Page, nat)>)
    requires Holds(spaces, held) && Grown(spaces, spaces', r)
    ensures Holds(spaces', held)
  {
    HoldsSame(spaces, spaces', held);
  }

  function WithLeaf(spaces: map<Page, Space>, r: Page, v: nat, pte: Pte): map<Page, Space>
    requires r in spaces
  {
    spaces[r := spaces[r].(flat := SetFlat(spaces[r].flat, v, pte))]
  }

  /** Who holds which page once page table r maps v by pte. */
  function HeldWith(held: map<Page, (Page, nat)>, r: Page, v: nat, pte: Pte): map<Page, (Page, nat)> {
    if v < USERPAGES then held[PageOf(pte) := (r, v)] else held
  }

  lemma HoldsMapped(spaces: map<Page, Space>, held: map<Page, (Page, nat)>, r: Page, v: nat, pte: Pte)
    requires Holds(spaces, held) && r in spaces && v !in spaces[r].flat && Present(pte)
    requires v < USERPAGES ==> PageOf(pte) !in held
    ensures Holds(WithLeaf(spaces, r, v, pte), HeldWith(held, r, v, pte))
  {
    var spaces', held' := WithLeaf(spaces, r, v, pte), HeldWith(held, r, v, pte);
    forall p: Page, q: Page, w: nat ensures Maps(spaces', q, w, p) <==> p in held' && held'[p] == (q, w) {
      assert Maps(spaces', q, w, p) <==>
             Maps(spaces, q, w, p) || (q == r && w == v && v < USERPAGES && p == PageOf(pte));
    }
  }

  function HeldWithout(held: map<Page, (Page, nat)>, v: nat, pte: Pte): map<Page, (Page, nat)> {
    if v < USERPAGES then held - {PageOf(pte)} else held
  }

  lemma HoldsUnmapped(spaces: map<Page, Space>, held: map<Page, (Page, nat)>, r: Page, v: nat)
    requires Holds(spaces, held) && r in spaces && v in spaces[r].flat
    ensures Holds(WithLeaf(spaces, r, v, 0), HeldWithout(held, v, spaces[r].flat[v]))
  {
    var pte := spaces[r].flat[v];
    var spaces', held' := WithLeaf(spaces, r, v, 0), HeldWithout(held, v, pte);
    assert v < USERPAGES ==> Maps(spaces, r, v, PageOf(pte));
    forall p: Page, q: Page, w: nat ensures Maps(spaces', q, w, p) <==> p in held' && held'[p] == (q, w) {
      assert Maps(spaces', q, w, p) <==> Maps(spaces, q, w, p) && !(q == r && w == v);
    }
  }

  /** The flat maps decide who holds what. */
  lemma HeldByFlats(spaces: map<Page, Space>, held: map<Page, (Page, nat)>, spaces': map<Page, Space>,
                    held': map<Page, (Page, nat)>)
    requires Holds(spaces, held) && Holds(spaces', held') && SameFlats(spaces, spaces')
    ensures held' == held
  {
    HoldsSame(spaces, spaces', held);
    forall p ensures (p in held <==> p in held') && (p in held ==> held[p] == held'[p]) {
      if p in held {
        assert Maps(spaces', held[p].0, held[p].1, p);
      }
      if p in held' {
        assert Maps(spaces', held'[p].0, held'[p].1, p);
      }
    }
  }

  /** The entry walk() ends at is the flat map's. */
  lemma LeafAt(tables: Tables, spaces: map<Page, Space>, r: Page, v: nat)
    requires Shapes(tables, spaces) && r in spaces
    ensures v in spaces[r].flat ==> v / 512 in spaces[r].low && Present(spaces[r].flat[v])
    ensures v / 512 in spaces[r].low ==>
              && IsTable(tables, spaces[r].low[v / 512])
              && tables[spaces[r].low[v / 512]][v % 512] == LeafOr(spaces[r].flat, v)
              && (Present(tables[spaces[r].low[v / 512]][v % 512]) <==> v in spaces[r].flat)
  {
    assert Shape(tables, r, spaces[r]);
    if v / 512 in spaces[r].low {
      assert LowOk(tables, spaces[r].low[v / 512], v / 512, spaces[r].flat);
    }
  }

  /** The flat map with n pages from v on mapped to those from p on. */
  function MapRange(flat: map<nat, Pte>, v: nat, p: Page, n: nat, perm: nat): map<nat, Pte>
    requires perm < 1024
  {
    if n == 0 then flat else MapRange(flat, v, p, n - 1, perm)[v + n - 1 := MakePte(p + n - 1, perm)]
  }

  /** Exactly the range is mapped, in order; every other translation is as it was. */
  lemma {:induction false} MapRangeAt(flat: map<nat, Pte>, v: nat, p: Page, n: nat, perm: nat, w: nat)
    requires perm < 1024
    ensures w in MapRange(flat, v, p, n, perm) <==> w in flat || v <= w < v + n
    ensures v <= w < v + n ==> MapRange(flat, v, p, n, perm)[w] == MakePte(p + (w - v), perm)
    ensures w in flat && !(v <= w < v + n) ==> MapRange(flat, v, p, n, perm)[w] == flat[w]
  {
    if n > 0 {
      MapRangeAt(flat, v, p, n - 1, perm, w);
    }
  }

  /** Who holds what once the range is mapped by page table r. */
  function HeldRange(held: map<Page, (Page, nat)>, r: Page, v: nat, p: Page, n: nat): map<Page, (Page, nat)> {
    if n == 0 then held
    else if v + n - 1 < USERPAGES then HeldRange(held, r, v, p, n - 1)[p + n - 1 := (r, v + n - 1)]
    else HeldRange(held, r, v, p, n - 1)
  }

  lemma {:induction false} HeldRangeAt(held: map<Page, (Page, nat)>, r: Page, v: nat, p: Page, n: nat, q: Page)
    ensures q in HeldRange(held, r, v, p, n) ==> q in held || (p <= q < p + n && v + (q - p) < USERPAGES)
    ensures q in held ==> q in HeldRange(held, r, v, p, n)
  {
    if n > 0 {
      HeldRangeAt(held, r, v, p, n - 1, q);
    }
  }

  function WithFlat(spaces: map<Page, Space>, r: Page, flat: map<nat, Pte>): map<Page, Space>
    requires r in spaces
  {
    spaces[r := spaces[r].(flat := flat)]
  }

  /** Growing page tables while mapping page after page. */
  lemma GrownLeaf(a: map<Page, Space>, b: map<Page, Space>, c: map<Page, Space>, r: Page, flat: map<nat, Pte>, v: nat,
                  pte: Pte)
    requires r in a && Grown(WithFlat(a, r, flat), b, r) && Grown(b, c, r)
    ensures r in c && Grown(WithFlat(a, r, SetFlat(flat, v, pte)), WithLeaf(c, r, v, pte), r)
  {}

  /** The flat map without the n pages from v on. */
  function UnmapRange(flat: map<nat, Pte>, v: nat, n: nat): map<nat, Pte> {
    map w | w in flat && !(v <= w < v + n) :: flat[w]
  }

  lemma UnmapNext(flat: map<nat, Pte>, v: nat, n: nat)
    ensures UnmapRange(flat, v, n + 1) == UnmapRange(flat, v, n) - {v + n}
    ensures v + n !in flat ==> UnmapRange(flat, v, n + 1) == UnmapRange(flat, v, n)
  {}

  /** The pages that page table r holds at n virtual pages from v on. */
  function Held(held: map<Page, (Page, nat)>, r: Page, v: nat, n: nat): set<Page> {
    set p | p in held && held[p].0 == r && v <= held[p].1 < v + n
  }

  /** A mapped user page is held where it is mapped. */
  lemma HeldAt(spaces: map<Page, Space>, held: map<Page, (Page, nat)>, r: Page, v: nat)
    requires Holds(spaces, held) && r in spaces && v in spaces[r].flat && v < USERPAGES
    ensures PageOf(spaces[r].flat[v]) in held && held[PageOf(spaces[r].flat[v])] == (r, v)
  {
    assert Maps(spaces, r, v, PageOf(spaces[r].flat[v]));
  }

  lemma HeldNext(spaces: map<Page, Space>, held: map<Page, (Page, nat)>, r: Page, v: nat, n: nat)
    requires Holds(spaces, held) && r in spaces
    ensures v + n in spaces[r].flat && v + n < USERPAGES ==>
              var p := PageOf(spaces[r].flat[v + n]);
              p in held && p !in Held(held, r, v, n) && Held(held, r, v, n + 1) == Held(held, r, v, n) + {p}
    ensures v + n !in spaces[r].flat || v + n >= USERPAGES ==> Held(held, r, v, n + 1) == Held(held, r, v, n)
  {
    forall p | p in held ensures Maps(spaces, held[p].0, held[p].1, p) {}
    if v + n in spaces[r].flat && v + n < USERPAGES {
      assert Maps(spaces, r, v + n, PageOf(spaces[r].flat[v + n]));
    }
  }

  lemma FlatOf(a: map<Page, Space>, b: map<Page, Space>, r: Page, flat: map<nat, Pte>)
    requires r in a && Grown(WithFlat(a, r, flat), b, r)
    ensures r in b && b[r].flat == flat
  {}

  lemma MapStarts(a: map<Page, Space>, r: Page, v: nat, p: Page, perm: nat, held: map<Page, (Page, nat)>)
    requires r in a && perm < 1024
    ensures Grown(WithFlat(a, r, MapRange(a[r].flat, v, p, 0, perm)), a, r) && HeldRange(held, r, v, p, 0) == held
  {
    assert WithFlat(a, r, a[r].flat) == a;
    GrownSelf(a, r);
  }

  /** One more page of the range. */
  lemma MapNext(flat: map<nat, Pte>, held: map<Page, (Page, nat)>, r: Page, v: nat, p: Page, n: nat, perm: nat)
    requires perm < 1024
    ensures var pte := MakePte(p + n, perm);
            && MapRange(flat, v, p, n + 1, perm) == SetFlat(MapRange(flat, v, p, n, perm), v + n, pte)
            && HeldRange(held, r, v, p, n + 1) == HeldWith(HeldRange(held, r, v, p, n), r, v + n, pte)
            && Present(pte) && PageOf(pte) == p + n
  {
    PteRoundTrip(p + n, perm);
  }

  lemma UnmapStarts(spaces: map<Page, Space>, r: Page, v: nat, held: map<Page, (Page, nat)>)
    requires r in spaces
    ensures WithFlat(spaces, r, UnmapRange(spaces[r].flat, v, 0)) == spaces && Held(held, r, v, 0) == {}
  {
    assert UnmapRange(spaces[r].flat, v, 0) == spaces[r].flat;
  }

  lemma UnmapLeaf(spaces: map<Page, Space>, r: Page, v: nat, n: nat)
    requires r in spaces
    ensures var a := WithFlat(spaces, r, UnmapRange(spaces[r].flat, v, n));
            && WithLeaf(a, r, v + n, 0) == WithFlat(spaces, r, UnmapRange(spaces[r].flat, v, n + 1))
            && (v + n in a[r].flat <==> v + n in spaces[r].flat)
            && (v + n in a[r].flat ==> a[r].flat[v + n] == spaces[r].flat[v + n])
            && (v + n !in a[r].flat ==> WithFlat(spaces, r, UnmapRange(spaces[r].flat, v, n + 1)) == a)
  {
    UnmapNext(spaces[r].flat, v, n);
  }

  /** The page-table pages of page table r. */
  function Own(owner: map<Page, Slot>, r: Page): set<Page> { set p | p in owner && owner[p].r == r }

  /** A page table without leaves goes, with all its pages. */
  lemma RemoveRoot(tables: Tables, spaces: map<Page, Space>, owner: map<Page, Slot>, held: map<Page, (Page, nat)>,
                   r: Page)
    requires Shapes(tables, spaces) && Unshared(tables, spaces, owner) && Holds(spaces, held)
    requires r in spaces && spaces[r].flat == map[]
    ensures Shapes(tables - Own(owner, r), spaces - {r}) && Holds(spaces - {r}, held)
    ensures Unshared(tables - Own(owner, r), spaces - {r}, owner - Own(owner, r))
  {
    hide Shape;
    var spaces', owner' := spaces - {r}, owner - Own(owner, r);
    OthersKeep(tables, tables - Own(owner, r), spaces, owner, r);
    forall q, slot ensures Hangs(spaces', q, slot) <==> q in owner' && owner'[q] == slot {
      assert Hangs(spaces', q, slot) <==> Hangs(spaces, q, slot) && slot.r != r;
    }
    forall p: Page, q: Page, v: nat ensures Maps(spaces', q, v, p) <==> p in held && held[p] == (q, v) {
      assert Maps(spaces', q, v, p) <==> Maps(spaces, q, v, p);
    }
  }

  lemma Owned(tables: Tables, spaces: map<Page, Space>, owner: map<Page, Slot>)
    requires Unshared(tables, spaces, owner)
    ensures tables.Keys == owner.Keys
  {}

  /** The page tables decide which pages are page-table pages. */
  lemma OwnerBySpaces(tables: Tables, owner: map<Page, Slot>, tables': Tables, owner': map<Page, Slot>,
                      spaces: map<Page, Space>)
    requires Unshared(tables, spaces, owner) && Unshared(tables', spaces, owner')
    ensures owner' == owner && tables'.Keys == tables.Keys
  {
    forall p ensures (p in owner <==> p in owner') && (p in owner ==> owner[p] == owner'[p]) {
      if p in owner {
        assert Hangs(spaces, p, owner[p]);
      }
      if p in owner' {
        assert Hangs(spaces, p, owner'[p]);
      }
    }
  }
}
