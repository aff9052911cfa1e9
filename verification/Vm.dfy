/**
 Physical page allocation (kernel/kalloc.c) and user page tables (kernel/vm.c),
 updated in place.
 */
module Vm {
  import opened Bytes
  import opened Common
  import opened VmTree
  import opened VmFree

  type Frame = seq<byte>

  function ZeroPage(): (b: Frame)
    ensures |b| == PGSIZE && forall i :: 0 <= i < PGSIZE ==> b[i] == 0
  {
    seq(PGSIZE, _ => 0)
  }

  const FRESHPAGE: Frame := seq(PGSIZE, _ => 5)

  function PgRoundUp(sz: nat): nat { (sz + PGSIZE - 1) / PGSIZE * PGSIZE }

  function PgRoundDown(a: nat): nat { a / PGSIZE * PGSIZE }

  lemma RoundedUp(sz: nat)
    ensures PgRoundUp(sz) % PGSIZE == 0 && sz <= PgRoundUp(sz) && PgRoundUp(sz) / PGSIZE * PGSIZE == PgRoundUp(sz)
  {}

  /** A page that starts below sz is one of those rounding sz up takes in. */
  lemma RoundBelow(v: nat, sz: nat)
    requires v * PGSIZE < sz
    ensures v < PgRoundUp(sz) / PGSIZE
  {}

  lemma RoundAbove(v: nat, sz: nat)
    requires sz <= v * PGSIZE
    ensures PgRoundUp(sz) / PGSIZE <= v
  {}

  lemma RoundOrder(a: nat, b: nat)
    requires a <= b
    ensures PgRoundUp(a) <= PgRoundUp(b) && PgRoundUp(a) / PGSIZE <= PgRoundUp(b) / PGSIZE
  {}

  lemma RoundWhole(v: nat)
    ensures PgRoundUp(v * PGSIZE) == v * PGSIZE && v * PGSIZE / PGSIZE == v
  {}

  lemma HeadOnce(s: seq<Page>)
    requires NoDup(s) && s != []
    ensures s == [s[0]] + s[1..] && s[0] !in s[1..] && NoDup(s[1..])
    ensures forall p :: p in s[1..] ==> p in s
  {
    forall i | 0 <= i < |s[1..]| ensures s[1..][i] != s[0] {
      assert s[1..][i] == s[i + 1];
    }
  }

  /** No page is on the free list twice, nor free and in use, nor both a page table and data. */
  ghost predicate Apportioned(base: Page, stop: Page, free: seq<Page>, pages: map<Page, Frame>, tables: Tables) {
    && 0 < base && NoDup(free)
    && (forall p :: p in free ==> base <= p < stop && p !in pages && p !in tables)
    && (forall p :: p in pages ==> base <= p < stop && p !in tables && |pages[p]| == PGSIZE)
    && (forall p :: p in tables ==> base <= p < stop)
  }

  /** No page is lost. */
  ghost predicate Covered(base: Page, stop: Page, free: seq<Page>, pages: map<Page, Frame>, tables: Tables) {
    forall p :: base <= p < stop ==> p in free || p in pages || p in tables
  }

  /** Free, data and page-table pages partition memory. */
  ghost predicate Partition(base: Page, stop: Page, free: seq<Page>, pages: map<Page, Frame>, tables: Tables) {
    Apportioned(base, stop, free, pages, tables) && Covered(base, stop, free, pages, tables)
  }

  // How many data pages there are, and how many of those and free pages together.
  ghost function Count(pages: map<Page, Frame>): nat { |pages| }

  ghost function Stock(free: seq<Page>, pages: map<Page, Frame>): nat { |free| + Count(pages) }

  lemma PageCounted(pages: map<Page, Frame>, p: Page, bytes: Frame)
    requires p !in pages
    ensures Count(pages[p := bytes]) == Count(pages) + 1
  {}

  lemma PageReturned(free: seq<Page>, pages: map<Page, Frame>, p: Page)
    requires p in pages
    ensures Stock([p] + free, pages - {p}) == Stock(free, pages)
  {
    assert (pages - {p}).Keys == pages.Keys - {p};
  }

  /** After n data pages go back to a free list of at most one, no more than n + 1 are free. */
  lemma StockUndone(free: seq<Page>, pages: map<Page, Frame>, free': seq<Page>, pages': map<Page, Frame>, n: nat)
    requires Stock(free', pages') == Stock(free, pages) && |free| <= 1 && Count(pages) == Count(pages') + n
    ensures |free'| <= n + 1
  {}

  /** The page at the head of the free list, given to a page table. */
  lemma TableTaken(base: Page, stop: Page, free: seq<Page>, pages: map<Page, Frame>, tables: Tables, tables': Tables)
    requires Partition(base, stop, free, pages, tables) && free != [] && tables'.Keys == tables.Keys + {free[0]}
    ensures Partition(base, stop, free[1..], pages, tables')
  {
    HeadOnce(free);
  }

  lemma FreeUnused(base: Page, stop: Page, free: seq<Page>, pages: map<Page, Frame>, tables: Tables)
    requires Apportioned(base, stop, free, pages, tables) && free != []
    ensures 0 < free[0] && free[0] !in pages && free[0] !in tables
  {
    assert free[0] in free;
  }

  /** free' is what is left of free once pages have been taken from its head. */
  ghost predicate TakenFrom(free: seq<Page>, free': seq<Page>) {
    |free'| <= |free| && free' == free[|free| - |free'|..]
  }

  lemma OnPathRoot(spaces: map<Page, Space>, root: Page, va: nat, level: nat, pt: Page)
    requires OnPath(spaces, root, va, level, pt)
    ensures root in spaces && level <= 2
  {}

  lemma TakenOn(a: seq<Page>, b: seq<Page>)
    requires TakenFrom(a, b) && b != []
    ensures TakenFrom(a, b[1..])
  {}

  lemma PathStarts(spaces: map<Page, Space>, root: Page, va: nat)
    requires root in spaces && va < MAXVA
    ensures OnPath(spaces, root, va, 2, root)
  {}

  /** With no table at some level, there is none at level 0. */
  lemma NoPath(tables: Tables, spaces: map<Page, Space>, root: Page, va: nat, level: nat)
    requires Shapes(tables, spaces) && root in spaces && 0 < level <= 2 && NoTable(spaces[root], va, level)
    ensures va / PGSIZE / 512 !in spaces[root].low
  {
    assert Shape(tables, root, spaces[root]);
  }

  lemma TableNotNull(base: Page, stop: Page, free: seq<Page>, pages: map<Page, Frame>, tables: Tables,
                     spaces: map<Page, Space>, root: Page, va: nat)
    requires Apportioned(base, stop, free, pages, tables) && Shapes(tables, spaces)
    requires root in spaces && va / PGSIZE / 512 in spaces[root].low
    ensures var t := spaces[root].low[va / PGSIZE / 512]; t != 0 && IsTable(tables, t)
  {
    assert Shape(tables, root, spaces[root]);
    assert LowOk(tables, spaces[root].low[va / PGSIZE / 512], va / PGSIZE / 512, spaces[root].flat);
  }

  lemma PathEnds(spaces: map<Page, Space>, root: Page, va: nat, pt: Page, level: nat)
    requires OnPath(spaces, root, va, level, pt)
    ensures level == 0 ==> va / PGSIZE / 512 in spaces[root].low && pt == spaces[root].low[va / PGSIZE / 512]
  {}

  lemma TablesSame(base: Page, stop: Page, free: seq<Page>, pages: map<Page, Frame>, tables: Tables, tables': Tables)
    requires Partition(base, stop, free, pages, tables) && tables'.Keys == tables.Keys
    ensures Partition(base, stop, free, pages, tables')
  {}

  lemma PageInUse(base: Page, stop: Page, free: seq<Page>, pages: map<Page, Frame>, tables: Tables, p: Page)
    requires Apportioned(base, stop, free, pages, tables) && p in pages
    ensures 0 < base <= p < stop && p !in free && p !in tables && |pages[p]| == PGSIZE
  {}

  // ---- Adding user pages ----

  datatype Users = Users(spaces: map<Page, Space>, pages: map<Page, Frame>, held: map<Page, (Page, nat)>)

  /**
   Page table r has gained exactly the virtual pages of want, each on a page of its own with the
   flags and bytes asked for.
   */
  ghost predicate Added(s: Users, t: Users, r: Page, want: map<nat, (nat, Frame)>) {
    && r in s.spaces && r in t.spaces && Gained(s.spaces, t.spaces, r, want.Keys)
    && (forall w :: w in want ==> HasPage(s, t, r, w, want[w]))
    && PagesAdded(s, t, r, want.Keys)
  }

  /** No other page table changes, nor does any other translation of this one. */
  ghost predicate Gained(s: map<Page, Space>, t: map<Page, Space>, r: Page, added: set<nat>)
    requires r in s
  {
    && t.Keys == s.Keys && (forall q :: q in s && q != r ==> t[q] == s[q])
    && t[r].flat.Keys == s[r].flat.Keys + added
    && (forall w :: w in s[r].flat && w !in added ==> t[r].flat[w] == s[r].flat[w])
  }

  ghost predicate HasPage(s: Users, t: Users, r: Page, w: nat, x: (nat, Frame)) {
    && r in t.spaces && w in t.spaces[r].flat
    && var pte := t.spaces[r].flat[w];
       PteFlags(pte) == x.0 && PageOf(pte) in t.pages && PageOf(pte) !in s.pages && t.pages[PageOf(pte)] == x.1
  }

  /** No page from before changes, and every new one is held by an added mapping. */
  ghost predicate PagesAdded(s: Users, t: Users, r: Page, added: set<nat>) {
    && (forall p :: p in s.pages ==> p in t.pages && t.pages[p] == s.pages[p])
    && (forall p :: p in t.pages && p !in s.pages ==> p in t.held && t.held[p].0 == r && t.held[p].1 in added)
  }

  lemma AddedNone(s: Users, r: Page)
    requires r in s.spaces
    ensures Added(s, s, r, map[])
  {}

  lemma GainedOne(s: map<Page, Space>, t: map<Page, Space>, r: Page, added: set<nat>, u: map<Page, Space>, v: nat,
                  pte: Pte)
    requires r in s && Gained(s, t, r, added) && v !in t[r].flat
    requires Grown(WithFlat(t, r, t[r].flat[v := pte]), u, r)
    ensures Gained(s, u, r, added + {v})
  {
    assert u[r].flat == t[r].flat[v := pte];
  }

  lemma HasPageStill(s: Users, t: Users, r: Page, w: nat, x: (nat, Frame), u: Users, p: Page)
    requires HasPage(s, t, r, w, x) && r in u.spaces && w in u.spaces[r].flat
    requires u.spaces[r].flat[w] == t.spaces[r].flat[w] && p !in t.pages
    requires forall q :: q in t.pages ==> q in u.pages && u.pages[q] == t.pages[q]
    ensures HasPage(s, u, r, w, x)
  {}

  lemma PagesAddedOne(s: Users, t: Users, u: Users, r: Page, added: set<nat>, v: nat, p: Page, bytes: Frame)
    requires PagesAdded(s, t, r, added) && p !in t.pages
    requires u.pages == t.pages[p := bytes] && u.held == t.held[p := (r, v)]
    ensures PagesAdded(s, u, r, added + {v}) && forall q :: q in s.pages ==> q in t.pages
  {}

  lemma AddedOne(s: Users, t: Users, r: Page, want: map<nat, (nat, Frame)>, u: Users, v: nat, p: Page, perm: nat,
                 bytes: Frame)
    requires Added(s, t, r, want) && v !in t.spaces[r].flat && perm < 1024 && p !in t.pages
    requires Grown(WithFlat(t.spaces, r, t.spaces[r].flat[v := MakePte(p, perm)]), u.spaces, r)
    requires u.pages == t.pages[p := bytes] && u.held == t.held[p := (r, v)]
    ensures Added(s, u, r, want[v := (PteFlags(MakePte(p, perm)), bytes)])
  {
    hide HasPage, Gained, Grown, MakePte, PteFlags, PagesAdded;
    PagesAddedOne(s, t, u, r, want.Keys, v, p, bytes);
    var want' := want[v := (PteFlags(MakePte(p, perm)), bytes)];
    assert want'.Keys == want.Keys + {v};
    GainedOne(s.spaces, t.spaces, r, want.Keys, u.spaces, v, MakePte(p, perm));
    FlatOf(t.spaces, u.spaces, r, t.spaces[r].flat[v := MakePte(p, perm)]);
    NewPage(s, t, u, r, v, p, perm, bytes);
    forall w | w in want' ensures HasPage(s, u, r, w, want'[w]) {
      if w != v {
        WantMapped(s, t, r, want, w);
        HasPageStill(s, t, r, w, want[w], u, p);
      }
    }
  }

  lemma NewPage(s: Users, t: Users, u: Users, r: Page, v: nat, p: Page, perm: nat, bytes: Frame)
    requires perm < 1024 && p !in t.pages && (forall q :: q in s.pages ==> q in t.pages)
    requires r in u.spaces && v in u.spaces[r].flat && u.spaces[r].flat[v] == MakePte(p, perm)
    requires p in u.pages && u.pages[p] == bytes
    ensures HasPage(s, u, r, v, (PteFlags(MakePte(p, perm)), bytes))
  {
    PteRoundTrip(p, perm);
  }

  lemma WantMapped(s: Users, t: Users, r: Page, want: map<nat, (nat, Frame)>, w: nat)
    requires Added(s, t, r, want) && w in want
    ensures r in t.spaces && w in t.spaces[r].flat && HasPage(s, t, r, w, want[w])
  {}

  lemma AddedGrown(s: Users, t: Users, r: Page, want: map<nat, (nat, Frame)>, u: Users)
    requires Added(s, t, r, want) && Grown(t.spaces, u.spaces, r) && u.pages == t.pages && u.held == t.held
    ensures Added(s, u, r, want)
  {
    forall w | w in want ensures HasPage(s, u, r, w, want[w]) {
      assert HasPage(s, t, r, w, want[w]);
    }
  }

  /** The pages held in a range that holds everything added, and nothing from before, are exactly the pages added. */
  lemma AddedPages(s: Users, t: Users, r: Page, want: map<nat, (nat, Frame)>, v: nat, n: nat)
    requires Added(s, t, r, want) && Holds(t.spaces, t.held)
    requires forall w :: w in want ==> v <= w < v + n
    requires forall w :: v <= w < v + n ==> w !in s.spaces[r].flat
    ensures t.pages - Held(t.held, r, v, n) == s.pages
  {
    hide Added, Holds, HasPage;
    AddedKeys(s, t, r, want);
    forall p | p in Held(t.held, r, v, n) ensures p !in s.pages {
      NewlyHeld(s, t, r, want, p);
    }
    OnlyAdded(s, t, r, want);
  }

  lemma NewlyHeld(s: Users, t: Users, r: Page, want: map<nat, (nat, Frame)>, p: Page)
    requires Added(s, t, r, want) && Holds(t.spaces, t.held) && p in t.held && t.held[p].0 == r
    requires t.held[p].1 !in s.spaces[r].flat
    ensures p !in s.pages
  {
    assert Maps(t.spaces, r, t.held[p].1, p);
    assert HasPage(s, t, r, t.held[p].1, want[t.held[p].1]);
  }

  lemma OnlyAdded(s: Users, t: Users, r: Page, want: map<nat, (nat, Frame)>)
    requires Added(s, t, r, want)
    ensures PagesAdded(s, t, r, want.Keys)
  {}

  /** Unmapping such a range puts every mapping and page back. */
  lemma AddedUndone(s: Users, t: Users, r: Page, want: map<nat, (nat, Frame)>, v: nat, n: nat, u: Users)
    requires Added(s, t, r, want) && Holds(s.spaces, s.held)
    requires forall w :: w in want ==> v <= w < v + n
    requires forall w :: v <= w < v + n ==> w !in s.spaces[r].flat
    requires Holds(t.spaces, t.held) && Holds(u.spaces, u.held)
    requires u.spaces == WithFlat(t.spaces, r, UnmapRange(t.spaces[r].flat, v, n))
    requires u.pages == t.pages - Held(t.held, r, v, n)
    ensures SameFlats(s.spaces, u.spaces) && u.pages == s.pages && u.held == s.held
  {
    hide HasPage, Holds, PagesAdded;
    assert u.spaces[r].flat == s.spaces[r].flat;
    HeldByFlats(s.spaces, s.held, u.spaces, u.held);
    AddedPages(s, t, r, want, v, n);
  }

  lemma PageFilled(base: Page, stop: Page, free: seq<Page>, pages: map<Page, Frame>, tables: Tables, p: Page,
                   bytes: Frame)
    requires Partition(base, stop, free, pages, tables) && p in pages && |bytes| == PGSIZE
    ensures Partition(base, stop, free, pages[p := bytes], tables)
  {}

  lemma MapRangeOne(flat: map<nat, Pte>, held: map<Page, (Page, nat)>, r: Page, v: nat, p: Page, perm: nat)
    requires perm < 1024 && v < USERPAGES
    ensures MapRange(flat, v, p, 0, perm) == flat && HeldRange(held, r, v, p, 0) == held
    ensures MapRange(flat, v, p, 1, perm) == flat[v := MakePte(p, perm)]
            && HeldRange(held, r, v, p, 1) == held[p := (r, v)]
  {}

  /** Zeroed pages for the virtual pages from lo to hi. */
  function ZeroPages(lo: nat, hi: nat, flags: nat): (m: map<nat, (nat, Frame)>)
    ensures forall w: nat :: w in m <==> lo <= w < hi
    ensures forall w :: w in m ==> m[w] == (flags, ZeroPage())
  {
    if lo >= hi then map[] else ZeroPages(lo, hi - 1, flags)[hi - 1 := (flags, ZeroPage())]
  }

  lemma AddedKeys(s: Users, t: Users, r: Page, want: map<nat, (nat, Frame)>)
    requires Added(s, t, r, want)
    ensures r in s.spaces && r in t.spaces && t.spaces.Keys == s.spaces.Keys
    ensures t.spaces[r].flat.Keys == s.spaces[r].flat.Keys + want.Keys
  {}

  lemma NoZeroPages(v: nat, flags: nat)
    ensures ZeroPages(v, v + 0, flags) == map[]
  {}

  lemma ZeroOne(s: Users, t: Users, r: Page, v: nat, n: nat, u: Users, p: Page, perm: nat)
    requires perm < 1024 && !Present(perm) && Added(s, t, r, ZeroPages(v, v + n, perm + 1))
    requires v + n !in t.spaces[r].flat && p !in t.pages
    requires Grown(WithFlat(t.spaces, r, t.spaces[r].flat[v + n := MakePte(p, perm)]), u.spaces, r)
    requires u.pages == t.pages[p := ZeroPage()] && u.held == t.held[p := (r, v + n)]
    ensures Added(s, u, r, ZeroPages(v, v + (n + 1), perm + 1))
  {
    hide Added, Grown, MakePte, Present;
    PteRoundTrip(p, perm);
    AddedOne(s, t, r, ZeroPages(v, v + n, perm + 1), u, v + n, p, perm, ZeroPage());
  }

  lemma ZeroKeys(s: Users, t: Users, r: Page, v: nat, n: nat, flags: nat)
    requires Added(s, t, r, ZeroPages(v, v + n, flags))
    ensures r in s.spaces && r in t.spaces && (v + n !in s.spaces[r].flat ==> v + n !in t.spaces[r].flat)
  {}

  /** Unmapping the zeroed pages, if there are any. */
  lemma Undone(s: Users, t: Users, r: Page, v: nat, n: nat, flags: nat, u: Users)
    requires Added(s, t, r, ZeroPages(v, v + n, flags)) && Holds(s.spaces, s.held)
    requires forall w :: v <= w < v + n ==> w !in s.spaces[r].flat
    requires Holds(t.spaces, t.held) && Holds(u.spaces, u.held)
    requires if n == 0 then u == t
             else
               && u.spaces == WithFlat(t.spaces, r, UnmapRange(t.spaces[r].flat, v, n))
               && u.pages == t.pages - Held(t.held, r, v, n)
    ensures SameFlats(s.spaces, u.spaces) && u.pages == s.pages && u.held == s.held
  {
    hide Added, Holds;
    AddedKeys(s, t, r, ZeroPages(v, v + n, flags));
    if n == 0 {
      UnmapStarts(t.spaces, r, v, t.held);
    }
    AddedUndone(s, t, r, ZeroPages(v, v + n, flags), v, n, u);
  }

  /** The pages a flat map has below virtual page n, with their flags and bytes. */
  function Copies(flat: map<nat, Pte>, pages: map<Page, Frame>, n: nat): (m: map<nat, (nat, Frame)>)
    ensures forall w :: w in m <==> 0 <= w < n && w in flat && PageOf(flat[w]) in pages
    ensures forall w :: w in m ==> m[w] == (PteFlags(flat[w]), pages[PageOf(flat[w])])
  {
    if n == 0 then map[]
    else if n - 1 in flat && PageOf(flat[n - 1]) in pages then
      Copies(flat, pages, n - 1)[n - 1 := (PteFlags(flat[n - 1]), pages[PageOf(flat[n - 1])])]
    else Copies(flat, pages, n - 1)
  }

  /** How many pages that is. */
  function CopyCount(flat: map<nat, Pte>, pages: map<Page, Frame>, n: nat): nat {
    |Copies(flat, pages, n)|
  }

  lemma CopiesGrow(flat: map<nat, Pte>, pages: map<Page, Frame>, n: nat)
    ensures CopyCount(flat, pages, 0) == 0
    ensures CopyCount(flat, pages, n + 1) ==
            CopyCount(flat, pages, n) + if n in flat && PageOf(flat[n]) in pages then 1 else 0
  {}

  lemma {:induction false} CopiesUpTo(flat: map<nat, Pte>, pages: map<Page, Frame>, n: nat, m: nat)
    requires n <= m
    ensures CopyCount(flat, pages, n) <= CopyCount(flat, pages, m)
    decreases m
  {
    hide CopyCount;
    if n < m {
      CopiesUpTo(flat, pages, n, m - 1);
      CopiesGrow(flat, pages, m - 1);
    }
  }

  lemma CopiesNext(flat: map<nat, Pte>, pages: map<Page, Frame>, n: nat)
    ensures Copies(flat, pages, 0) == map[]
    ensures n !in flat ==> Copies(flat, pages, n + 1) == Copies(flat, pages, n)
  {}

  /** Adding to one page table leaves another's translations, and the pages from before, alone. */
  lemma AddedSource(s: Users, t: Users, r: Page, want: map<nat, (nat, Frame)>, q: Page)
    requires Added(s, t, r, want) && q in s.spaces && q != r
    ensures q in t.spaces && t.spaces[q] == s.spaces[q] && r in s.spaces && r in t.spaces
    ensures forall p :: p in s.pages ==> p in t.pages && t.pages[p] == s.pages[p]
  {}

  lemma CopyKeys(s: Users, t: Users, r: Page, flat: map<nat, Pte>, n: nat)
    requires Added(s, t, r, Copies(flat, s.pages, n)) && n !in s.spaces[r].flat
    ensures n !in t.spaces[r].flat
  {}

  lemma CopyOne(s: Users, t: Users, r: Page, flat: map<nat, Pte>, n: nat, u: Users, p: Page)
    requires n in flat && Present(flat[n]) && PageOf(flat[n]) in s.pages && Added(s, t, r, Copies(flat, s.pages, n))
    requires n !in t.spaces[r].flat && p !in t.pages
    requires Grown(WithFlat(t.spaces, r, t.spaces[r].flat[n := MakePte(p, PteFlags(flat[n]))]), u.spaces, r)
    requires u.pages == t.pages[p := s.pages[PageOf(flat[n])]] && u.held == t.held[p := (r, n)]
    ensures Added(s, u, r, Copies(flat, s.pages, n + 1))
  {
    hide Added, Grown, MakePte, PageOf;
    var flags := PteFlags(flat[n]);
    assert Present(flags);
    PteRoundTrip(p, flags);
    AddedOne(s, t, r, Copies(flat, s.pages, n), u, n, p, flags, s.pages[PageOf(flat[n])]);
  }

  lemma CopiesUndone(s: Users, t: Users, r: Page, flat: map<nat, Pte>, n: nat, u: Users)
    requires Added(s, t, r, Copies(flat, s.pages, n)) && Holds(s.spaces, s.held)
    requires forall w: nat :: w < n ==> w !in s.spaces[r].flat
    requires Holds(t.spaces, t.held) && Holds(u.spaces, u.held)
    requires u.spaces == WithFlat(t.spaces, r, UnmapRange(t.spaces[r].flat, 0, n))
             && u.pages == t.pages - Held(t.held, r, 0, n)
    ensures SameFlats(s.spaces, u.spaces) && u.pages == s.pages && u.held == s.held
  {
    hide Added, Holds;
    AddedUndone(s, t, r, Copies(flat, s.pages, n), 0, n, u);
  }

  lemma BareIsTable(tables: Tables, t: Page, level: nat)
    requires Bare(tables, t, level)
    ensures IsTable(tables, t) && FreedTo(tables, tables, t, level, 0)
  {}

  lemma RowCleared(base: Page, stop: Page, free: seq<Page>, pages: map<Page, Frame>, tables: Tables, t: Page, i: nat)
    requires Apportioned(base, stop, free, pages, tables) && IsTable(tables, t) && i < ENTRIES
    ensures Apportioned(base, stop, free, pages, Put(tables, t, i, 0))
    ensures Covered(base, stop, free, pages, tables) ==> Covered(base, stop, free, pages, Put(tables, t, i, 0))
  {}

  lemma TableInUse(base: Page, stop: Page, free: seq<Page>, pages: map<Page, Frame>, tables: Tables, t: Page)
    requires Apportioned(base, stop, free, pages, tables) && t in tables
    ensures base <= t < stop && t !in free && t !in pages
  {}

  /** Whatever was in use and is not any more is free. */
  ghost predicate Returned(free: seq<Page>, free': seq<Page>, pages: map<Page, Frame>, pages': map<Page, Frame>,
                           tables: Tables, tables': Tables) {
    forall p :: p in free' <==> p in free || ((p in pages || p in tables) && p !in pages' && p !in tables')
  }

  lemma AllReturned(base: Page, stop: Page, free: seq<Page>, free': seq<Page>, pages: map<Page, Frame>,
                    pages': map<Page, Frame>,
                    tables: Tables, tables': Tables)
    requires Partition(base, stop, free, pages, tables) && Partition(base, stop, free', pages', tables')
    requires pages'.Keys <= pages.Keys && tables'.Keys <= tables.Keys
    ensures Returned(free, free', pages, pages', tables, tables')
  {}

  lemma EmptyHolds(spaces: map<Page, Space>, held: map<Page, (Page, nat)>, p: Page)
    requires Holds(spaces, held) && p !in spaces
    ensures Holds(spaces[p := EMPTY], held)
  {
    var spaces' := spaces[p := EMPTY];
    forall q: Page, r: Page, v: nat ensures Maps(spaces', r, v, q) <==> q in held && held[q] == (r, v) {
      assert Maps(spaces', r, v, q) <==> Maps(spaces, r, v, q);
    }
  }

  lemma UnmapAll(flat: map<nat, Pte>, n: nat)
    requires forall v :: v in flat ==> v < n
    ensures UnmapRange(flat, 0, n) == map[]
  {}

  /** All that a page table holds, it holds below its last leaf. */
  lemma HeldBelow(spaces: map<Page, Space>, held: map<Page, (Page, nat)>, r: Page, n: nat)
    requires Holds(spaces, held) && r in spaces && n <= USERPAGES
    requires forall v :: v in spaces[r].flat ==> v < n
    ensures Held(held, r, 0, n) == Held(held, r, 0, USERPAGES)
  {
    forall p | p in held ensures Maps(spaces, held[p].0, held[p].1, p) {}
  }

  lemma OwnSubtree(tables: Tables, owner: map<Page, Slot>, r: Page)
    requires forall p :: p in Subtree(tables, r, 2) <==> Within(owner, r, p)
    ensures Subtree(tables, r, 2) == Own(owner, r)
  {}

  lemma KernelRange(flat: map<nat, Pte>, held: map<Page, (Page, nat)>, r: Page, v: nat, p: Page, perm: nat)
    requires perm < 1024 && v >= USERPAGES
    ensures MapRange(flat, v, p, 0, perm) == flat && MapRange(flat, v, p, 1, perm) == flat[v := MakePte(p, perm)]
    ensures HeldRange(held, r, v, p, 0) == held && HeldRange(held, r, v, p, 1) == held
  {}

  /** No page at or above the trapframe is held. */
  lemma KernelHeld(spaces: map<Page, Space>, held: map<Page, (Page, nat)>, r: Page)
    requires Holds(spaces, held)
    ensures Held(held, r, TRAMPOLINE / PGSIZE, 1) == {} && Held(held, r, TRAPFRAME / PGSIZE, 1) == {}
  {
    forall p | p in held ensures Maps(spaces, held[p].0, held[p].1, p) {}
  }

  lemma UnmapOnly(flat: map<nat, Pte>, v: nat)
    requires flat.Keys == {v}
    ensures UnmapRange(flat, v, 1) == map[]
  {}

  lemma UnmapTwo(flat: map<nat, Pte>, n: nat)
    requires forall v :: v in flat ==> v < n || v == TRAMPOLINE / PGSIZE || v == TRAPFRAME / PGSIZE
    ensures forall v :: v in UnmapRange(UnmapRange(flat, TRAMPOLINE / PGSIZE, 1), TRAPFRAME / PGSIZE, 1) ==> v < n
  {}

  lemma SameReturned(free: seq<Page>, free': seq<Page>, pages: map<Page, Frame>, pages': map<Page, Frame>,
                     tables: Tables, same: Tables, tables': Tables)
    requires Returned(free, free', pages, pages', same, tables') && same.Keys == tables.Keys
    ensures Returned(free, free', pages, pages', tables, tables')
  {}

  /** A page table without leaves holds nothing. */
  lemma EmptyHeld(spaces: map<Page, Space>, held: map<Page, (Page, nat)>, r: Page)
    requires Holds(spaces, held) && r in spaces && spaces[r].flat == map[]
    ensures Held(held, r, 0, USERPAGES) == {}
  {
    forall p | p in held ensures Maps(spaces, held[p].0, held[p].1, p) {}
  }

  /** A new page table has grown, and got a flat map; the others are as they were. */
  lemma OnlyNew(spaces0: map<Page, Space>, spaces: map<Page, Space>, p: Page, flat: map<nat, Pte>, made: map<Page,
                Space>)
    requires p !in spaces0 && p in made && made - {p} == spaces0 && made[p].flat == flat && Grown(made, spaces, p)
    ensures p in spaces && spaces[p].flat == flat && spaces - {p} == spaces0 && spaces.Keys == spaces0.Keys + {p}
    ensures forall q :: q in spaces0 ==> spaces[q] == spaces0[q]
  {
    assert forall q :: q in spaces0 ==> q in made && made[q] == spaces0[q] by {
      assert forall q :: q in spaces0 ==> q in made - {p};
    }
  }

  class Memory {
    const base: Page
    const stop: Page
    var freelist: seq<Page>
    var pages: map<Page, Frame>
    var tables: Tables
    ghost var spaces: map<Page, Space>
    ghost var owner: map<Page, Slot>
    ghost var held: map<Page, (Page, nat)>

    /** Memory is apportioned and the page tables are unshared trees. */
    ghost predicate Sound()
      reads this
    {
      && Partition(base, stop, freelist, pages, tables)
      && Shapes(tables, spaces) && Unshared(tables, spaces, owner) && Holds(spaces, held)
    }

    ghost predicate Valid()
      reads this
    {
      Sound() && held.Keys <= pages.Keys
    }

    /** kinit(): freerange() puts every whole page between the kernel's end and the top of memory on the free list. */
    constructor (start: nat, end: nat)
      requires 0 < start
      ensures Valid() && base == PgRoundUp(start) / PGSIZE && stop == end / PGSIZE
      ensures pages == map[] && tables == map[] && spaces == map[]
      ensures forall p :: p in freelist <==> base <= p < stop
    {
      base, stop := PgRoundUp(start) / PGSIZE, end / PGSIZE;
      freelist, pages, tables := [], map[], map[];
      spaces, owner, held := map[], map[], map[];
      new;
      var p := PgRoundUp(start);
      ghost var n := base;
      while p + PGSIZE <= end
        invariant p == n * PGSIZE && Apportioned(base, stop, freelist, pages, tables) && pages == map[]
                  && tables == map[]
        invariant forall q :: q in freelist <==> base <= q < n
        invariant spaces == map[] && owner == map[] && held == map[]
      {
        assert n < stop;
        KFree(p / PGSIZE);
        p := p + PGSIZE;
        n := n + 1;
      }
      assert n < stop ==> n * PGSIZE + PGSIZE <= end;
    }

    method KAlloc() returns (p: Page)
      requires Apportioned(base, stop, freelist, pages, tables)
      modifies `freelist, `pages
      ensures Apportioned(base, stop, freelist, pages, tables)
      ensures old(freelist) == [] ==> p == 0 && freelist == [] && pages == old(pages)
      ensures old(freelist) != [] ==>
                p == old(freelist)[0] && freelist == old(freelist)[1..] && pages == old(pages)[p := FRESHPAGE]
      ensures old(Covered(base, stop, freelist, pages, tables)) ==> Covered(base, stop, freelist, pages, tables)
    {
      p := 0;
      if freelist != [] {
        p := freelist[0];
        HeadOnce(freelist);
        freelist := freelist[1..];
        pages := pages[p := FRESHPAGE];
      }
    }

    method KFree(p: Page)
      requires Apportioned(base, stop, freelist, pages, tables) && base <= p < stop && p !in freelist
      modifies `freelist, `pages, `tables
      ensures Apportioned(base, stop, freelist, pages, tables)
      ensures freelist == [p] + old(freelist) && pages == old(pages) - {p} && tables == old(tables) - {p}
      ensures old(Covered(base, stop, freelist, pages, tables)) ==> Covered(base, stop, freelist, pages, tables)
    {
      pages := pages - {p};
      tables := tables - {p};
      freelist := [p] + freelist;
    }

    /**
     Allocates a zeroed page-table page and stores its address in the entry for va of pt, a table of
     walk()'s descent.
     */
    method HangTable(root: Page, va: nat, level: nat, pt: Page) returns (p: Page)
      requires Valid() && OnPath(spaces, root, va, level, pt) && 0 < level && IsTable(tables, pt)
      requires NoTable(spaces[root], va, level)
      modifies this
      ensures Valid() && pages == old(pages) && held == old(held) && Grown(old(spaces), spaces, root)
      ensures p == 0 ==> old(freelist) == [] && freelist == []
      ensures p != 0 ==> OnPath(spaces, root, va, level - 1, p) && old(freelist) != [] && freelist == old(freelist)[1..]
    {
      hide Apportioned, Covered, Shapes, Unshared, Holds, OnPath, NoTable, Grown, Link, PxShift;
      OnPathRoot(spaces, root, va, level, pt);
      GrownSelf(spaces, root);
      if freelist != [] { FreeUnused(base, stop, freelist, pages, tables); }
      p := KAlloc();
      if p == 0 { return; }
      pages := pages - {p};
      tables := tables[p := ZEROS];
      tables := Put(tables, pt, PX(level, va), Link(p));
      TableTaken(base, stop, old(freelist), old(pages), old(tables), tables);
      Hung(old(tables), spaces, owner, root, va, level, pt, p);
      owner := owner[p := HungSlot(root, va, level)];
      spaces := spaces[root := HungSpace(spaces[root], va, level, p)];
      GrownHolds(old(spaces), spaces, root, held);
      assert pages == old(pages);
    }

    method Walk(root: Page, va: nat, alloc: bool) returns (t: Page, k: nat)
      requires Valid() && root in spaces && va < MAXVA
      modifies this
      ensures Valid() && pages == old(pages) && held == old(held)
      ensures Grown(old(spaces), spaces, root) && TakenFrom(old(freelist), freelist)
      ensures !alloc ==>
                spaces == old(spaces) && tables == old(tables) && owner == old(owner) && freelist == old(freelist)
      ensures t != 0 ==>
                va / PGSIZE / 512 in spaces[root].low && t == spaces[root].low[va / PGSIZE / 512]
                && k == va / PGSIZE % 512
      ensures t == 0 ==> if alloc then freelist == [] else va / PGSIZE / 512 !in spaces[root].low
    {
      hide Apportioned, Covered, Shapes, Unshared, Holds, OnPath, NoTable, Grown;
      t, k := 0, 0;
      var pt, level := root, 2;
      GrownSelf(spaces, root);
      PathStarts(spaces, root, va);
      while level > 0
        invariant Valid() && pages == old(pages) && held == old(held) && level <= 2 && root in spaces
        invariant OnPath(spaces, root, va, level, pt)
        invariant Grown(old(spaces), spaces, root) && TakenFrom(old(freelist), freelist)
        invariant !alloc ==>
                    spaces == old(spaces) && tables == old(tables) && owner == old(owner) && freelist == old(freelist)
      {
        EntryAt(tables, spaces, root, va, level, pt);
        var pte := tables[pt][PX(level, va)];
        if Present(pte) {
          pt := PageOf(pte);
        } else {
          if !alloc {
            NoPath(tables, spaces, root, va, level);
            return;
          }
          ghost var was, free := spaces, freelist;
          pt := HangTable(root, va, level, pt);
          GrownOn(old(spaces), was, spaces, root);
          if pt == 0 { return; }
          OnPathRoot(spaces, root, va, level - 1, pt);
          TakenOn(old(freelist), free);
        }
        level := level - 1;
      }
      PathEnds(spaces, root, va, pt, level);
      PxSplit(va);
      TableNotNull(base, stop, freelist, pages, tables, spaces, root, va);
      t, k := pt, PX(0, va);
    }

    /** Stores a valid leaf entry for virtual page v. */
    method StoreLeaf(root: Page, v: nat, t: Page, k: nat, pte: Pte)
      requires Valid() && root in spaces && v / 512 in spaces[root].low && t == spaces[root].low[v / 512]
               && k == v % 512
      requires v !in spaces[root].flat && Present(pte)
      requires v < USERPAGES ==> PageOf(pte) in pages && PageOf(pte) !in held
      modifies `tables, `spaces, `held
      ensures Valid() && spaces == old(WithLeaf(spaces, root, v, pte)) && held == old(HeldWith(held, root, v, pte))
    {
      hide Apportioned, Covered, Shapes, Unshared, Holds, PageOf;
      LeafAt(tables, spaces, root, v);
      SetLeaf(tables, spaces, owner, root, v, pte);
      HoldsMapped(spaces, held, root, v, pte);
      tables := Put(tables, t, k, pte);
      TablesSame(base, stop, freelist, pages, old(tables), tables);
      held := HeldWith(held, root, v, pte);
      spaces := WithLeaf(spaces, root, v, pte);
    }

    /** Clears the valid leaf entry for virtual page v. */
    method ClearLeaf(root: Page, v: nat, t: Page, k: nat)
      requires Sound() && root in spaces && v / 512 in spaces[root].low && t == spaces[root].low[v / 512]
               && k == v % 512
      requires v in spaces[root].flat
      modifies `tables, `spaces, `held
      ensures Sound() && spaces == old(WithLeaf(spaces, root, v, 0))
      ensures held == old(HeldWithout(held, v, spaces[root].flat[v]))
    {
      hide Apportioned, Covered, Shapes, Unshared, Holds, PageOf;
      LeafAt(tables, spaces, root, v);
      SetLeaf(tables, spaces, owner, root, v, 0);
      HoldsUnmapped(spaces, held, root, v);
      tables := Put(tables, t, k, 0);
      TablesSame(base, stop, freelist, pages, old(tables), tables);
      held := HeldWithout(held, v, spaces[root].flat[v]);
      spaces := WithLeaf(spaces, root, v, 0);
    }

    /**
     The first m pages of the range get mapped, all of them on success; nothing else is,
     and no other translation changes in any page table.
     */
    method MapPages(root: Page, va: nat, size: nat, pa: nat, perm: nat) returns (r: int, ghost m: nat)
      requires Valid() && root in spaces && perm < 1024
      requires va % PGSIZE == 0 && size % PGSIZE == 0 && size > 0 && va + size <= MAXVA
      requires forall v :: va / PGSIZE <= v < (va + size) / PGSIZE ==> v !in spaces[root].flat
      requires forall p :: 0 <= p - pa / PGSIZE < size / PGSIZE && va / PGSIZE + (p - pa / PGSIZE) < USERPAGES ==>
                 p in pages && p !in held
      modifies this
      ensures Valid() && pages == old(pages) && TakenFrom(old(freelist), freelist)
      ensures if r == 0 then m == size / PGSIZE else r == -1 && m < size / PGSIZE && freelist == []
      ensures Grown(WithFlat(old(spaces), root, MapRange(old(spaces[root].flat), va / PGSIZE, pa / PGSIZE, m, perm)),
                    spaces, root)
      ensures held == HeldRange(old(held), root, va / PGSIZE, pa / PGSIZE, m)
    {
      hide Apportioned, Covered, Shapes, Unshared, Holds, Grown, MapRange, HeldRange, SetFlat, MakePte, PageOf, Present;
      var a, last, p := va, va + size - PGSIZE, pa;
      ghost var n, v0, p0, flat := size / PGSIZE, va / PGSIZE, pa / PGSIZE, spaces[root].flat;
      m := 0;
      MapStarts(spaces, root, v0, p0, perm, held);
      while true
        invariant Valid() && root in spaces && pages == old(pages) && TakenFrom(old(freelist), freelist)
        invariant m < n && a == va + m * PGSIZE && p == pa + m * PGSIZE
        invariant Grown(WithFlat(old(spaces), root, MapRange(flat, v0, p0, m, perm)), spaces, root)
        invariant held == HeldRange(old(held), root, v0, p0, m)
        decreases n - m
      {
        assert a / PGSIZE == v0 + m && p / PGSIZE == p0 + m;
        ghost var was, f := spaces, MapRange(flat, v0, p0, m, perm);
        var t, k := Walk(root, a, true);
        ghost var grown := spaces;
        GrownOn(WithFlat(old(spaces), root, f), was, spaces, root);
        if t == 0 { return -1, m; }
        FlatOf(old(spaces), spaces, root, f);
        MapRangeAt(flat, v0, p0, m, perm, v0 + m);
        HeldRangeAt(old(held), root, v0, p0, m, p0 + m);
        MapNext(flat, old(held), root, v0, p0, m, perm);
        StoreLeaf(root, a / PGSIZE, t, k, MakePte(p / PGSIZE, perm));
        GrownLeaf(old(spaces), was, grown, root, f, v0 + m, MakePte(p0 + m, perm));
        m := m + 1;
        if a == last { break; }
        a := a + PGSIZE;
        p := p + PGSIZE;
      }
      r := 0;
    }

    /** One page of uvmunmap(). */
    method UnmapOne(root: Page, va: nat, doFree: bool)
      requires Valid() && root in spaces && va < MAXVA && (doFree ==> va / PGSIZE < USERPAGES)
      modifies this
      ensures Valid() && owner == old(owner) && (!doFree ==> freelist == old(freelist) && pages == old(pages))
      ensures var v := va / PGSIZE;
              if v in old(spaces[root].flat) then
                && spaces == old(WithLeaf(spaces, root, v, 0))
                && held == old(HeldWithout(held, v, spaces[root].flat[v]))
                && (doFree ==> pages == old(pages - {PageOf(spaces[root].flat[v])}))
              else
                spaces == old(spaces) && held == old(held) && pages == old(pages)
      ensures Stock(freelist, pages) == old(Stock(freelist, pages))
    {
      hide Apportioned, Covered, Shapes, Unshared, Holds, Grown, PageOf, Present, Stock;
      ghost var v := va / PGSIZE;
      LeafAt(tables, spaces, root, v);
      var t, k := Walk(root, va, false);
      if t != 0 && Present(tables[t][k]) {
        if doFree {
          var p := PageOf(tables[t][k]);
          HeldAt(spaces, held, root, v);
          PageInUse(base, stop, freelist, pages, tables, p);
          PageReturned(freelist, pages, p);
          KFree(p);
          assert tables == old(tables);
        }
        ClearLeaf(root, va / PGSIZE, t, k);
      }
    }

    /** Exactly the mappings of the range go, whether or not they existed; with doFree so do the pages they held. */
    method UvmUnmap(root: Page, va: nat, npages: nat, doFree: bool)
      requires Valid() && root in spaces && va % PGSIZE == 0 && va + npages * PGSIZE <= MAXVA
      requires doFree ==> va / PGSIZE + npages <= USERPAGES
      modifies this
      ensures Valid() && spaces == WithFlat(old(spaces), root, UnmapRange(old(spaces[root].flat), va / PGSIZE, npages))
      ensures held == old(held) - Held(old(held), root, va / PGSIZE, npages)
      ensures pages == if doFree then old(pages) - Held(old(held), root, va / PGSIZE, npages) else old(pages)
      ensures owner == old(owner) && (!doFree ==> freelist == old(freelist))
      ensures Stock(freelist, pages) == old(Stock(freelist, pages))
    {
      hide Apportioned, Covered, Shapes, Unshared, Holds, UnmapRange, Held, PageOf, Stock;
      var a := va;
      ghost var n, v0, flat := 0, va / PGSIZE, spaces[root].flat;
      UnmapStarts(spaces, root, v0, held);
      while a < va + npages * PGSIZE
        invariant Valid() && n <= npages && a == va + n * PGSIZE
        invariant spaces == WithFlat(old(spaces), root, UnmapRange(flat, v0, n))
        invariant held == old(held) - Held(old(held), root, v0, n)
        invariant pages == if doFree then old(pages) - Held(old(held), root, v0, n) else old(pages)
        invariant owner == old(owner) && (!doFree ==> freelist == old(freelist))
        invariant Stock(freelist, pages) == old(Stock(freelist, pages))
      {
        assert a / PGSIZE == v0 + n;
        UnmapLeaf(old(spaces), root, v0, n);
        HeldNext(old(spaces), old(held), root, v0, n);
        UnmapOne(root, a, doFree);
        a := a + PGSIZE;
        n := n + 1;
      }
    }

    ghost function Now(): Users
      reads this
    {
      Users(spaces, pages, held)
    }

    /** kalloc() a page, fill it, and mappages() it at va; kfree() it again if that fails. */
    method AddPage(root: Page, va: nat, perm: nat, bytes: Frame) returns (p: Page)
      requires Valid() && root in spaces && perm < 1024 && va % PGSIZE == 0 && va / PGSIZE < USERPAGES
      requires va / PGSIZE !in spaces[root].flat && |bytes| == PGSIZE
      modifies this
      ensures Valid()
      ensures p == 0 ==> Grown(old(spaces), spaces, root) && pages == old(pages) && held == old(held) && |freelist| <= 1
      ensures p != 0 ==>
                && p !in old(pages) && pages == old(pages)[p := bytes] && held == old(held)[p := (root, va / PGSIZE)]
                && Grown(old(WithFlat(spaces, root, spaces[root].flat[va / PGSIZE := MakePte(p, perm)])), spaces, root)
    {
      hide Apportioned, Covered, Shapes, Unshared, Holds, Grown, MapRange, HeldRange, MakePte;
      GrownSelf(spaces, root);
      if freelist != [] { FreeUnused(base, stop, freelist, pages, tables); }
      p := KAlloc();
      if p == 0 { return; }
      pages := pages[p := bytes];
      PageFilled(base, stop, freelist, old(pages)[p := FRESHPAGE], tables, p, bytes);
      assert pages == old(pages)[p := bytes];
      assert p * PGSIZE / PGSIZE == p;
      ghost var v := va / PGSIZE;
      MapRangeOne(spaces[root].flat, held, root, v, p, perm);
      MapStarts(spaces, root, v, p, perm, held);
      var r, m := MapPages(root, va, PGSIZE, p * PGSIZE, perm);
      if r != 0 {
        assert WithFlat(old(spaces), root, old(spaces[root].flat)) == old(spaces);
        PageInUse(base, stop, freelist, pages, tables, p);
        ghost var t := tables;
        KFree(p);
        assert pages == old(pages) && tables == t;
        p := 0;
      }
    }

    method UvmDealloc(root: Page, oldsz: nat, newsz: nat) returns (sz: nat)
      requires Valid() && root in spaces && (newsz < oldsz ==> oldsz <= TRAPFRAME)
      modifies this
      ensures Valid() && owner == old(owner)
      ensures newsz >= oldsz ==> sz == oldsz && spaces == old(spaces) && pages == old(pages) && held == old(held)
      ensures newsz < oldsz ==>
                var v, n := PgRoundUp(newsz) / PGSIZE, (PgRoundUp(oldsz) - PgRoundUp(newsz)) / PGSIZE;
                && sz == newsz && spaces == WithFlat(old(spaces), root, UnmapRange(old(spaces[root].flat), v, n))
                && held == old(held) - Held(old(held), root, v, n) && pages == old(pages) - Held(old(held), root, v, n)
      ensures Stock(freelist, pages) == old(Stock(freelist, pages))
    {
      hide Sound, Held, UnmapRange, Stock;
      if newsz >= oldsz { return oldsz; }
      ghost var v := PgRoundUp(newsz) / PGSIZE;
      UnmapStarts(spaces, root, v, held);
      if PgRoundUp(newsz) < PgRoundUp(oldsz) {
        var npages := (PgRoundUp(oldsz) - PgRoundUp(newsz)) / PGSIZE;
        UvmUnmap(root, PgRoundUp(newsz), npages, true);
      }
      sz := newsz;
    }

    /**
     Growing maps exactly the pages between the two sizes, zeroed.  Failing undoes all of it, and then
     no more pages are free than the range has.
     */
    method UvmAlloc(root: Page, oldsz: nat, newsz: nat, xperm: nat) returns (sz: nat)
      requires Valid() && root in spaces && newsz <= TRAPFRAME && xperm in {0, PTE_W, PTE_X, PTE_W + PTE_X}
      requires forall v :: PgRoundUp(oldsz) / PGSIZE <= v < PgRoundUp(newsz) / PGSIZE ==> v !in spaces[root].flat
      modifies this
      ensures Valid()
      ensures newsz < oldsz ==> sz == oldsz && Now() == old(Now())
      ensures newsz >= oldsz && sz == newsz ==>
                Added(old(Now()), Now(), root,
                      ZeroPages(PgRoundUp(oldsz) / PGSIZE, PgRoundUp(newsz) / PGSIZE, PTE_R + PTE_U + xperm + 1))
      ensures newsz >= oldsz && sz != newsz ==>
                && sz == 0 && SameFlats(old(spaces), spaces) && pages == old(pages) && held == old(held)
                && |freelist| <= PgRoundUp(newsz) / PGSIZE - PgRoundUp(oldsz) / PGSIZE
    {
      hide Partition, Shapes, Unshared, Holds, Added, MakePte, Grown, Held, UnmapRange, ZeroPages, Stock, Count;
      hide PgRoundUp;
      if newsz < oldsz { return oldsz; }
      var start := PgRoundUp(oldsz);
      var a := start;
      ghost var v0, n, flags := start / PGSIZE, 0, PTE_R + PTE_U + xperm + 1;
      RoundedUp(oldsz);
      RoundOrder(oldsz, newsz);
      AddedNone(Now(), root);
      NoZeroPages(v0, flags);
      while a < newsz
        invariant Valid() && a == (v0 + n) * PGSIZE && v0 + n <= PgRoundUp(newsz) / PGSIZE
        invariant Added(old(Now()), Now(), root, ZeroPages(v0, v0 + n, flags))
        invariant Count(pages) == Count(old(pages)) + n
      {
        ghost var was := Now();
        RoundBelow(v0 + n, newsz);
        RoundWhole(v0 + n);
        ZeroKeys(old(Now()), was, root, v0, n, flags);
        var mem := AddPage(root, a, PTE_R + PTE_U + xperm, ZeroPage());
        if mem == 0 {
          AddedGrown(old(Now()), was, root, ZeroPages(v0, v0 + n, flags), Now());
          ghost var now, free := Now(), freelist;
          RoundWhole(v0);
          var _ := UvmDealloc(root, a, start);
          Undone(old(Now()), now, root, v0, n, flags, Now());
          StockUndone(free, now.pages, freelist, pages, n);
          return 0;
        }
        PageCounted(was.pages, mem, ZeroPage());
        ZeroOne(old(Now()), was, root, v0, n, Now(), mem, PTE_R + PTE_U + xperm);
        a := a + PGSIZE;
        n := n + 1;
      }
      RoundAbove(v0 + n, newsz);
      sz := newsz;
    }

    /**
     The child gets its own copy of every page the parent has below sz.  Failing undoes all of it, and
     then no more pages are free than the parent has there.
     */
    method UvmCopy(src: Page, dst: Page, sz: nat) returns (r: int)
      requires Valid() && src in spaces && dst in spaces && src != dst && sz <= TRAPFRAME
      requires forall v: nat :: v < PgRoundUp(sz) / PGSIZE ==> v !in spaces[dst].flat
      modifies this
      ensures Valid()
      ensures r == 0 ==>
                Added(old(Now()), Now(), dst, Copies(old(spaces[src].flat), old(pages), PgRoundUp(sz) / PGSIZE))
      ensures r != 0 ==> r == -1 && SameFlats(old(spaces), spaces) && pages == old(pages) && held == old(held)
      ensures r != 0 ==> |freelist| <= CopyCount(old(spaces[src].flat), old(pages), PgRoundUp(sz) / PGSIZE)
    {
      hide Apportioned, Covered, Shapes, Unshared, Holds, Added, MakePte, Grown, Held, UnmapRange, Copies, PageOf;
      hide Stock, Count, CopyCount;
      var i := 0;
      ghost var n, flat := 0, spaces[src].flat;
      AddedNone(Now(), dst);
      CopiesNext(flat, pages, 0);
      CopiesGrow(flat, pages, 0);
      while i < sz
        invariant Valid() && i == n * PGSIZE && n <= PgRoundUp(sz) / PGSIZE
        invariant Added(old(Now()), Now(), dst, Copies(flat, old(pages), n))
        invariant Count(pages) == Count(old(pages)) + CopyCount(flat, old(pages), n)
      {
        assert i / PGSIZE == n;
        AddedSource(old(Now()), Now(), dst, Copies(flat, old(pages), n), src);
        LeafAt(tables, spaces, src, n);
        CopiesNext(flat, old(pages), n);
        CopiesGrow(flat, old(pages), n);
        CopiesUpTo(flat, old(pages), n + 1, PgRoundUp(sz) / PGSIZE);
        var t, k := Walk(src, i, false);
        if t != 0 && Present(tables[t][k]) {
          HeldAt(spaces, held, src, n);
          var p, flags := PageOf(tables[t][k]), PteFlags(tables[t][k]);
          PageInUse(base, stop, freelist, pages, tables, p);
          HeldAt(old(spaces), old(held), src, n);
          assert pages[p] == old(pages)[p];
          ghost var was := Now();
          CopyKeys(old(Now()), was, dst, flat, n);
          var mem := AddPage(dst, i, flags, pages[p]);
          if mem == 0 {
            AddedGrown(old(Now()), was, dst, Copies(flat, old(pages), n), Now());
            ghost var now, free := Now(), freelist;
            UvmUnmap(dst, 0, i / PGSIZE, true);
            CopiesUndone(old(Now()), now, dst, flat, n, Now());
            StockUndone(free, now.pages, freelist, pages, CopyCount(flat, old(pages), n));
            return -1;
          }
          PageCounted(was.pages, mem, old(pages)[p]);
          CopyOne(old(Now()), was, dst, flat, n, Now(), mem);
        }
        i := i + PGSIZE;
        n := n + 1;
      }
      r := 0;
    }

    /** Frees a page-table page and every one below it, none of which may hold a leaf. */
    method FreeWalk(t: Page, ghost level: nat)
      requires Apportioned(base, stop, freelist, pages, tables) && Bare(tables, t, level)
      modifies `freelist, `pages, `tables
      ensures Apportioned(base, stop, freelist, pages, tables)
      ensures pages == old(pages) && tables == old(tables) - Subtree(old(tables), t, level)
      ensures old(Covered(base, stop, freelist, pages, tables)) ==> Covered(base, stop, freelist, pages, tables)
      decreases level
    {
      hide Apportioned, Covered, Bare, FreedTo, Subtree;
      BareIsTable(tables, t, level);
      for i := 0 to ENTRIES
        invariant Apportioned(base, stop, freelist, pages, tables) && pages == old(pages)
        invariant IsTable(tables, t) && FreedTo(old(tables), tables, t, level, i)
        invariant old(Covered(base, stop, freelist, pages, tables)) ==> Covered(base, stop, freelist, pages, tables)
      {
        var pte := tables[t][i];
        if Present(pte) && !IsLeaf(pte) {
          ghost var before := tables;
          ChildBare(old(tables), tables, t, level, i);
          FreeWalk(PageOf(pte), level - 1);
          ChildFreed(old(tables), before, t, level, i, tables);
          RowCleared(base, stop, freelist, pages, tables, t, i);
          tables := Put(tables, t, i, 0);
        } else if Present(pte) {
          // panic("freewalk: leaf")
          ChildBare(old(tables), tables, t, level, i);
          assert false;
        } else {
          ChildNone(old(tables), tables, t, level, i);
        }
      }
      FreedAll(old(tables), tables, t, level);
      TableInUse(base, stop, freelist, pages, tables, t);
      KFree(t);
      assert pages == old(pages);
    }

    method UvmCreate() returns (p: Page)
      requires Valid()
      modifies this
      ensures Valid() && pages == old(pages) && held == old(held)
      ensures p == 0 ==> spaces == old(spaces) && tables == old(tables) && owner == old(owner)
      ensures p != 0 ==>
                p !in old(tables) && p !in old(spaces) && spaces == old(spaces)[p := EMPTY]
                  && owner == old(owner)[p := Root(p)]
                && p in old(freelist) && tables.Keys == old(tables.Keys) + {p}
    {
      hide Apportioned, Covered, Shapes, Unshared, Holds;
      if freelist != [] { FreeUnused(base, stop, freelist, pages, tables); }
      p := KAlloc();
      if p == 0 { return; }
      pages := pages - {p};
      tables := tables[p := ZEROS];
      TableTaken(base, stop, old(freelist), old(pages), old(tables), tables);
      AddRoot(old(tables), spaces, owner, p);
      UnsharedRoot(old(tables), spaces, owner, p);
      EmptyHolds(spaces, held, p);
      spaces := spaces[p := EMPTY];
      owner := owner[p := Root(p)];
      assert pages == old(pages);
    }

    /** Frees a page table's user pages and every one of its page-table pages. */
    method UvmFree(root: Page, sz: nat)
      requires Valid() && root in spaces && sz <= TRAPFRAME
      requires forall v :: v in spaces[root].flat ==> v < PgRoundUp(sz) / PGSIZE
      modifies this
      ensures Valid() && spaces == old(spaces) - {root} && tables.Keys == old(tables.Keys) - Own(old(owner), root)
      ensures owner == old(owner) - Own(old(owner), root)
      ensures pages == old(pages) - Held(old(held), root, 0, USERPAGES)
              && held == old(held) - Held(old(held), root, 0, USERPAGES)
      ensures Returned(old(freelist), freelist, old(pages), pages, old(tables), tables)
    {
      hide Apportioned, Covered, Shapes, Unshared, Holds, Held, UnmapRange, Bare, Subtree, Returned, Stock;
      Owned(tables, spaces, owner);
      UnmapStarts(spaces, root, 0, held);
      HeldBelow(spaces, held, root, PgRoundUp(sz) / PGSIZE);
      UnmapAll(spaces[root].flat, PgRoundUp(sz) / PGSIZE);
      if sz > 0 {
        UvmUnmap(root, 0, PgRoundUp(sz) / PGSIZE, true);
      }
      assert spaces == WithFlat(old(spaces), root, map[]);
      Owned(tables, spaces, owner);
      RootBare(tables, spaces, owner, root);
      OwnSubtree(tables, owner, root);
      RemoveRoot(tables, spaces, owner, held, root);
      FreeWalk(root, 2);
      spaces := spaces - {root};
      owner := owner - Own(owner, root);
      AllReturned(base, stop, old(freelist), freelist, old(pages), pages, old(tables), tables);
    }

    /** mappages() of one page at or above the trapframe, on a page the page table does not own. */
    method MapKernelPage(root: Page, va: nat, p: Page, perm: nat) returns (r: int)
      requires Valid() && root in spaces && perm < 1024 && va % PGSIZE == 0 && TRAPFRAME <= va < MAXVA
      requires va / PGSIZE !in spaces[root].flat
      modifies this
      ensures Valid() && pages == old(pages) && held == old(held)
      ensures r == 0 ==>
              Grown(WithFlat(old(spaces), root, old(spaces[root].flat)[va / PGSIZE := MakePte(p, perm)]), spaces, root)
      ensures r != 0 ==> r == -1 && Grown(old(spaces), spaces, root)
    {
      hide Apportioned, Covered, Shapes, Unshared, Holds, MapRange, HeldRange, MakePte, Grown;
      assert p * PGSIZE / PGSIZE == p;
      assert WithFlat(spaces, root, spaces[root].flat) == spaces;
      KernelRange(spaces[root].flat, held, root, va / PGSIZE, p, perm);
      ghost var m;
      r, m := MapPages(root, va, PGSIZE, p * PGSIZE, perm);
    }

    /**
     A page table for a process: its trampoline and trapframe mapped, no user memory.  Failing
     leaves nothing behind.
     */
    method ProcPagetable(trampoline: Page, trapframe: Page) returns (p: Page)
      requires Valid()
      modifies this
      ensures Valid() && pages == old(pages) && held == old(held)
      ensures p == 0 ==> spaces == old(spaces) && tables.Keys == old(tables.Keys)
      ensures p != 0 ==>
                p !in old(spaces) && spaces.Keys == old(spaces.Keys) + {p}
                && (forall q :: q in old(spaces) ==> spaces[q] == old(spaces)[q])
                && spaces[p].flat == map[TRAMPOLINE / PGSIZE := MakePte(trampoline, PTE_R + PTE_X),
                                         TRAPFRAME / PGSIZE := MakePte(trapframe, PTE_R + PTE_W)]
    {
      hide Apportioned, Covered, Shapes, Unshared, Holds, Held, UnmapRange, MakePte, Returned, Own, Grown, Stock;
      p := UvmCreate();
      if p == 0 { return; }
      ghost var made := spaces;
      var r := MapKernelPage(p, TRAMPOLINE, trampoline, PTE_R + PTE_X);
      if r < 0 {
        OnlyNew(old(spaces), spaces, p, EMPTY.flat, made);
        FreeEmpty(p, old(spaces), old(tables), old(owner));
        p := 0;
        return;
      }
      ghost var flat := EMPTY.flat[TRAMPOLINE / PGSIZE := MakePte(trampoline, PTE_R + PTE_X)];
      OnlyNew(old(spaces), spaces, p, flat, WithFlat(made, p, flat));
      made := spaces;
      r := MapKernelPage(p, TRAPFRAME, trapframe, PTE_R + PTE_W);
      if r < 0 {
        OnlyNew(old(spaces), spaces, p, flat, made);
        UnmapOnly(flat, TRAMPOLINE / PGSIZE);
        KernelHeld(spaces, held, p);
        ghost var grown := spaces;
        UvmUnmap(p, TRAMPOLINE, 1, false);
        assert held == old(held) && spaces == WithFlat(grown, p, map[]);
        FreeEmpty(p, old(spaces), old(tables), old(owner));
        p := 0;
        return;
      }
      ghost var both := flat[TRAPFRAME / PGSIZE := MakePte(trapframe, PTE_R + PTE_W)];
      OnlyNew(old(spaces), spaces, p, both, WithFlat(made, p, both));
    }

    /** uvmfree() of a page table without leaves, when it is the only one that was not there before. */
    method FreeEmpty(p: Page, ghost spaces0: map<Page, Space>, ghost tables0: Tables, ghost owner0: map<Page, Slot>)
      requires Valid() && p in spaces && spaces[p].flat == map[]
      requires spaces - {p} == spaces0 && Unshared(tables0, spaces0, owner0)
      modifies this
      ensures Valid() && pages == old(pages) && held == old(held) && spaces == spaces0 && tables.Keys == tables0.Keys
    {
      hide Apportioned, Covered, Shapes, Unshared, Holds, Held, Returned, Own, Stock;
      EmptyHeld(spaces, held, p);
      UvmFree(p, 0);
      assert held == old(held) && pages == old(pages);
      OwnerBySpaces(tables0, owner0, tables, owner, spaces);
    }

    /**
     Frees a process's memory and page table: every page it held and every page-table page
     is free again, and freewalk() meets no leaf.
     */
    method ProcFreePagetable(root: Page, sz: nat)
      requires Valid() && root in spaces && sz <= TRAPFRAME
      requires forall v :: v in spaces[root].flat ==>
                 v < PgRoundUp(sz) / PGSIZE || v == TRAMPOLINE / PGSIZE || v == TRAPFRAME / PGSIZE
      modifies this
      ensures Valid() && spaces == old(spaces) - {root}
      ensures tables.Keys == old(tables.Keys) - Own(old(owner), root)
      ensures pages == old(pages) - Held(old(held), root, 0, USERPAGES)
              && held == old(held) - Held(old(held), root, 0, USERPAGES)
      ensures Returned(old(freelist), freelist, old(pages), pages, old(tables), tables)
    {
      hide Apportioned, Covered, Shapes, Unshared, Holds, Held, UnmapRange, Returned, Own, Stock;
      KernelHeld(spaces, held, root);
      Owned(tables, spaces, owner);
      UvmUnmap(root, TRAMPOLINE, 1, false);
      assert held == old(held);
      UvmUnmap(root, TRAPFRAME, 1, false);
      assert held == old(held);
      UnmapTwo(old(spaces[root].flat), PgRoundUp(sz) / PGSIZE);
      Owned(tables, spaces, owner);
      ghost var t := tables;
      UvmFree(root, sz);
      SameReturned(old(freelist), freelist, old(pages), pages, old(tables), t, tables);
    }
  }
}
