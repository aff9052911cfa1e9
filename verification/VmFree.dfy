/**
 Which pages freewalk() of kernel/vm.c visits: the tree below a page-table page,
 read off the entries alone, and its agreement with the page table it belongs to.
 */
module VmFree {
  import opened VmTree

  /** The pages of the tables under the first i entries of table t, level levels above the leaves' tables. */
  ghost function Below(tables: Tables, t: Page, level: nat, i: nat): set<Page>
    decreases level, i
  {
    if i == 0 || !IsTable(tables, t) || i > ENTRIES then {}
    else Below(tables, t, level, i - 1) + Under(tables, t, level, i - 1)
  }

  /** The pages under entry i of table t. */
  ghost function Under(tables: Tables, t: Page, level: nat, i: nat): set<Page>
    requires IsTable(tables, t) && i < ENTRIES
    decreases level, i, 0
  {
    if level > 0 && Present(tables[t][i]) then
      {PageOf(tables[t][i])} + Below(tables, PageOf(tables[t][i]), level - 1, ENTRIES)
    else {}
  }

  /** Table t and everything below it. */
  ghost function Subtree(tables: Tables, t: Page, level: nat): set<Page> {
    {t} + Below(tables, t, level, ENTRIES)
  }

  /** Table t is the root of a tree in which no page occurs twice and no entry is a leaf. */
  ghost predicate Bare(tables: Tables, t: Page, level: nat)
    decreases level
  {
    IsTable(tables, t) && forall i :: 0 <= i < ENTRIES ==> BareEntry(tables, t, level, i)
  }

  ghost predicate BareEntry(tables: Tables, t: Page, level: nat, i: nat)
    requires IsTable(tables, t) && i < ENTRIES
    decreases level, 0
  {
    var pte := tables[t][i];
    pte == 0 ||
    (&& level > 0 && Present(pte) && !IsLeaf(pte) && Bare(tables, PageOf(pte), level - 1)
     && t !in Under(tables, t, level, i) && Below(tables, t, level, i) !! Under(tables, t, level, i))
  }

  lemma BareChild(tables: Tables, t: Page, level: nat, i: nat)
    requires IsTable(tables, t) && i < ENTRIES && BareEntry(tables, t, level, i) && Present(tables[t][i])
    ensures level > 0 && !IsLeaf(tables[t][i])
    ensures var c := PageOf(tables[t][i]);
            && Bare(tables, c, level - 1) && IsTable(tables, c)
            && Under(tables, t, level, i) == Subtree(tables, c, level - 1)
            && c != t
  {
    assert Bare(tables, PageOf(tables[t][i]), level - 1);
  }

  lemma {:induction false} BelowGrows(tables: Tables, t: Page, level: nat, i: nat, k: nat)
    requires IsTable(tables, t) && i < k <= ENTRIES
    ensures Under(tables, t, level, i) <= Below(tables, t, level, k)
    decreases k
  {
    if i < k - 1 {
      BelowGrows(tables, t, level, i, k - 1);
    }
  }

  /** What is below a table depends on those tables alone. */
  lemma {:induction false} BelowFrame(tables: Tables, tables': Tables, t: Page, level: nat, i: nat)
    requires IsTable(tables, t) && t in tables' && tables'[t] == tables[t] && i <= ENTRIES
    requires forall p :: p in Below(tables, t, level, i) && p in tables ==> p in tables' && tables'[p] == tables[p]
    requires Bare(tables, t, level)
    ensures Below(tables', t, level, i) == Below(tables, t, level, i)
    decreases level, i
  {
    if i > 0 {
      BelowFrame(tables, tables', t, level, i - 1);
      if level > 0 && Present(tables[t][i - 1]) {
        BareChild(tables, t, level, i - 1);
        BelowFrame(tables, tables', PageOf(tables[t][i - 1]), level - 1, ENTRIES);
      }
    }
  }

  /** So does its being bare. */
  lemma {:induction false} BareFrame(tables: Tables, tables': Tables, t: Page, level: nat)
    requires Bare(tables, t, level)
    requires forall p :: p in Subtree(tables, t, level) && p in tables ==> p in tables' && tables'[p] == tables[p]
    ensures Bare(tables', t, level) && Subtree(tables', t, level) == Subtree(tables, t, level)
    decreases level
  {
    BelowFrame(tables, tables', t, level, ENTRIES);
    forall i | 0 <= i < ENTRIES ensures BareEntry(tables', t, level, i) {
      assert BareEntry(tables, t, level, i);
      if tables[t][i] != 0 {
        BareChild(tables, t, level, i);
        BelowGrows(tables, t, level, i, ENTRIES);
        BareFrame(tables, tables', PageOf(tables[t][i]), level - 1);
        BelowWithin(tables, t, level, i, ENTRIES);
        BelowFrame(tables, tables', t, level, i);
      }
    }
  }

  lemma {:induction false} BelowWithin(tables: Tables, t: Page, level: nat, i: nat, k: nat)
    requires IsTable(tables, t) && i <= k <= ENTRIES
    ensures Below(tables, t, level, i) <= Below(tables, t, level, k)
    decreases k
  {
    if i < k {
      BelowWithin(tables, t, level, i, k - 1);
    }
  }

  /** freewalk(t) has freed what is under the first i entries and cleared them. */
  ghost predicate FreedTo(was: Tables, tables: Tables, t: Page, level: nat, i: nat) {
    && IsTable(was, t) && IsTable(tables, t) && tables.Keys == was.Keys - Below(was, t, level, i)
    && (forall k :: i <= k < ENTRIES ==> tables[t][k] == was[t][k])
    && (forall p :: p in tables && p != t ==> tables[p] == was[p])
  }

  /** The next child is still a bare tree, of the pages it had at the start. */
  lemma ChildBare(was: Tables, tables: Tables, t: Page, level: nat, i: nat)
    requires Bare(was, t, level) && i < ENTRIES && FreedTo(was, tables, t, level, i) && Present(tables[t][i])
    ensures var c := PageOf(tables[t][i]);
            && level > 0 && !IsLeaf(tables[t][i]) && Bare(tables, c, level - 1)
            && Subtree(tables, c, level - 1) == Under(was, t, level, i)
  {
    assert BareEntry(was, t, level, i);
    BareChild(was, t, level, i);
    BareFrame(was, tables, PageOf(was[t][i]), level - 1);
  }

  lemma ChildFreed(was: Tables, tables: Tables, t: Page, level: nat, i: nat, tables': Tables)
    requires Bare(was, t, level) && i < ENTRIES && FreedTo(was, tables, t, level, i) && Present(tables[t][i])
    requires tables' == tables - Under(was, t, level, i)
    ensures IsTable(tables', t) && FreedTo(was, Put(tables', t, i, 0), t, level, i + 1)
  {
    assert BareEntry(was, t, level, i);
  }

  lemma ChildNone(was: Tables, tables: Tables, t: Page, level: nat, i: nat)
    requires Bare(was, t, level) && i < ENTRIES && FreedTo(was, tables, t, level, i) && !Present(tables[t][i])
    ensures FreedTo(was, tables, t, level, i + 1)
  {}

  lemma FreedAll(was: Tables, tables: Tables, t: Page, level: nat)
    requires Bare(was, t, level) && FreedTo(was, tables, t, level, ENTRIES)
    ensures tables - {t} == was - Subtree(was, t, level)
  {}

  // ---- Agreement with the page tables ----

  /** A table no leaf hangs from. */
  lemma LowBare(tables: Tables, spaces: map<Page, Space>, r: Page, d: nat)
    requires Shapes(tables, spaces) && r in spaces && spaces[r].flat == map[] && d in spaces[r].low
    ensures Bare(tables, spaces[r].low[d], 0) && Subtree(tables, spaces[r].low[d], 0) == {spaces[r].low[d]}
  {
    assert Shape(tables, r, spaces[r]);
    assert LowOk(tables, spaces[r].low[d], d, spaces[r].flat);
    NoneBelow(tables, spaces[r].low[d], ENTRIES);
  }

  lemma {:induction false} NoneBelow(tables: Tables, t: Page, i: nat)
    ensures Below(tables, t, 0, i) == {}
  {
    if i > 0 {
      NoneBelow(tables, t, i - 1);
    }
  }

  /** Slots of the level-0 tables under the first k entries of the i-th level-1 table. */
  predicate InMid(slot: Slot, r: Page, i: nat,
                  k: nat) { slot.Low? && slot.r == r && slot.d / 512 == i && slot.d % 512 < k }

  ghost predicate Emptied(tables: Tables, spaces: map<Page, Space>, owner: map<Page, Slot>, r: Page) {
    Shapes(tables, spaces) && Unshared(tables, spaces, owner) && r in spaces && spaces[r].flat == map[]
  }

  lemma MidEntry(tables: Tables, spaces: map<Page, Space>, owner: map<Page, Slot>, r: Page, i: nat, k: nat)
    requires Emptied(tables, spaces, owner, r) && i in spaces[r].mid && k < ENTRIES
    ensures var m, d := spaces[r].mid[i], i * 512 + k;
            && IsTable(tables, m) && owner.Keys == tables.Keys && m in owner && owner[m] == Mid(r, i)
            && (d in spaces[r].low ==>
                  && Present(tables[m][k]) && !IsLeaf(tables[m][k]) && PageOf(tables[m][k]) == spaces[r].low[d]
                  && Under(tables, m, 1, k) == {spaces[r].low[d]} && Bare(tables, spaces[r].low[d], 0)
                  && spaces[r].low[d] in owner && owner[spaces[r].low[d]] == Low(r, d))
            && (d !in spaces[r].low ==> tables[m][k] == 0 && Under(tables, m, 1, k) == {})
  {
    var m, d := spaces[r].mid[i], i * 512 + k;
    assert Shape(tables, r, spaces[r]) && MidOk(tables, m, i, spaces[r].low);
    assert Hangs(spaces, m, Mid(r, i));
    if d in spaces[r].low {
      LowBare(tables, spaces, r, d);
      PteRoundTrip(spaces[r].low[d], 0);
      assert Hangs(spaces, spaces[r].low[d], Low(r, d));
    }
  }

  lemma {:induction false} MidBelow(tables: Tables, spaces: map<Page, Space>, owner: map<Page, Slot>, r: Page, i: nat,
                                    k: nat, p: Page)
    requires Emptied(tables, spaces, owner, r) && i in spaces[r].mid && k <= ENTRIES
    ensures p in Below(tables, spaces[r].mid[i], 1, k) <==> p in owner && InMid(owner[p], r, i, k)
    decreases k
  {
    if k > 0 {
      MidBelow(tables, spaces, owner, r, i, k - 1, p);
      MidEntry(tables, spaces, owner, r, i, k - 1);
      var d := i * 512 + (k - 1);
      assert d / 512 == i && d % 512 == k - 1;
      if p in owner {
        assert Hangs(spaces, p, owner[p]);
        assert owner[p].Low? && owner[p].d / 512 == i && owner[p].d % 512 == k - 1 ==> owner[p].d == d;
      }
    }
  }

  lemma MidBareEntry(tables: Tables, spaces: map<Page, Space>, owner: map<Page, Slot>, r: Page, i: nat, k: nat)
    requires Emptied(tables, spaces, owner, r) && i in spaces[r].mid && k < ENTRIES
    ensures IsTable(tables, spaces[r].mid[i]) && BareEntry(tables, spaces[r].mid[i], 1, k)
  {
    hide Shapes, Unshared, Under, Below, Bare, Present, IsLeaf, IsTable;
    MidEntry(tables, spaces, owner, r, i, k);
    var d := i * 512 + k;
    if d in spaces[r].low {
      assert d % 512 == k;
      MidBelow(tables, spaces, owner, r, i, k, spaces[r].low[d]);
    }
  }

  lemma MidBare(tables: Tables, spaces: map<Page, Space>, owner: map<Page, Slot>, r: Page, i: nat)
    requires Emptied(tables, spaces, owner, r) && i in spaces[r].mid
    ensures Bare(tables, spaces[r].mid[i], 1)
  {
    hide Shapes, Unshared, BareEntry, IsTable;
    var m := spaces[r].mid[i];
    MidBareEntry(tables, spaces, owner, r, i, 0);
    forall k | 0 <= k < ENTRIES ensures BareEntry(tables, m, 1, k) {
      MidBareEntry(tables, spaces, owner, r, i, k);
    }
  }

  /** Slots of the tables under the first k entries of the root. */
  predicate InRoot(slot: Slot, r: Page, k: nat) {
    slot.r == r && ((slot.Mid? && slot.i < k) || (slot.Low? && slot.d / 512 < k))
  }

  lemma RootEntry(tables: Tables, spaces: map<Page, Space>, owner: map<Page, Slot>, r: Page, k: nat)
    requires Emptied(tables, spaces, owner, r) && k < ENTRIES
    ensures IsTable(tables, r) && owner.Keys == tables.Keys && r in owner && owner[r] == Root(r)
    ensures k in spaces[r].mid ==>
              var m := spaces[r].mid[k];
              && Present(tables[r][k]) && !IsLeaf(tables[r][k]) && PageOf(tables[r][k]) == m
              && Under(tables, r, 2, k) == {m} + Below(tables, m, 1, ENTRIES) && Bare(tables, m, 1)
              && m in owner && owner[m] == Mid(r, k)
    ensures k !in spaces[r].mid ==> tables[r][k] == 0 && Under(tables, r, 2, k) == {}
  {
    hide Below, Bare, Shapes, Unshared, Present, IsLeaf, PageOf, IsTable;
    RootLink(tables, spaces, r, k);
    Placed(tables, spaces, owner, r, Root(r));
    if k in spaces[r].mid {
      MidBare(tables, spaces, owner, r, k);
      Placed(tables, spaces, owner, spaces[r].mid[k], Mid(r, k));
    }
  }

  lemma RootLink(tables: Tables, spaces: map<Page, Space>, r: Page, k: nat)
    requires Shapes(tables, spaces) && r in spaces && k < ENTRIES
    ensures IsTable(tables, r) && var pte := tables[r][k];
            if k in spaces[r].mid then Present(pte) && !IsLeaf(pte) && PageOf(pte) == spaces[r].mid[k]
            else pte == 0 && !Present(pte)
  {
    hide MidOk, LowOk;
    assert Shape(tables, r, spaces[r]);
    if k in spaces[r].mid {
      PteRoundTrip(spaces[r].mid[k], 0);
    }
  }

  // A page-table page belongs where it hangs.
  lemma Placed(tables: Tables, spaces: map<Page, Space>, owner: map<Page, Slot>, p: Page, slot: Slot)
    requires Unshared(tables, spaces, owner) && Hangs(spaces, p, slot)
    ensures tables.Keys == owner.Keys && p in owner && owner[p] == slot
  {}

  lemma {:induction false} RootBelow(tables: Tables, spaces: map<Page, Space>, owner: map<Page, Slot>, r: Page,
                                     k: nat, p: Page)
    requires Emptied(tables, spaces, owner, r) && k <= ENTRIES
    ensures p in Below(tables, r, 2, k) <==> p in owner && InRoot(owner[p], r, k)
    decreases k
  {
    assert Shape(tables, r, spaces[r]);
    if k > 0 {
      RootBelow(tables, spaces, owner, r, k - 1, p);
      RootEntry(tables, spaces, owner, r, k - 1);
      if k - 1 in spaces[r].mid {
        MidBelow(tables, spaces, owner, r, k - 1, ENTRIES, p);
      }
      if p in owner {
        assert Hangs(spaces, p, owner[p]);
      }
    }
  }

  /** With its leaves gone, a page table is a bare tree of exactly its own pages. */
  lemma RootBare(tables: Tables, spaces: map<Page, Space>, owner: map<Page, Slot>, r: Page)
    requires Emptied(tables, spaces, owner, r)
    ensures Bare(tables, r, 2)
    ensures forall p :: p in Subtree(tables, r, 2) <==> Within(owner, r, p)
  {
    RootEntry(tables, spaces, owner, r, 0);
    forall k | 0 <= k < ENTRIES ensures BareEntry(tables, r, 2, k) {
      RootEntry(tables, spaces, owner, r, k);
      if k in spaces[r].mid {
        RootApart(tables, spaces, owner, r, k);
      }
    }
    forall p ensures p in Subtree(tables, r, 2) <==> Within(owner, r, p) {
      RootBelow(tables, spaces, owner, r, ENTRIES, p);
      if p in owner {
        assert Hangs(spaces, p, owner[p]);
        assert Shape(tables, r, spaces[r]);
      }
    }
  }

  lemma RootApart(tables: Tables, spaces: map<Page, Space>, owner: map<Page, Slot>, r: Page, k: nat)
    requires Emptied(tables, spaces, owner, r) && k < ENTRIES && k in spaces[r].mid && IsTable(tables, r)
    ensures r !in Under(tables, r, 2, k) && Below(tables, r, 2, k) !! Under(tables, r, 2, k)
  {
    RootEntry(tables, spaces, owner, r, k);
    forall p | p in Under(tables, r, 2, k) ensures p != r && p !in Below(tables, r, 2, k) {
      MidBelow(tables, spaces, owner, r, k, ENTRIES, p);
      RootBelow(tables, spaces, owner, r, k, p);
    }
  }
}
