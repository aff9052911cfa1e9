/**
 User memory as the kernel sees it through a page table (kernel/vm.c): page faults
 on lazily allocated pages, and copies to and from user space that cross pages.
 */
module VmCopy {
  import opened Bytes
  import opened Common
  import opened VmTree
  import opened Vm

  /**
   The byte at user address a: what its page holds, zero on a page below the process's
   size that has not been allocated yet, and nothing where there is no user page.
   */
  ghost function UserByte(s: Users, r: Page, sz: nat, a: nat): Option<byte>
    requires r in s.spaces
  {
    var v := a / PGSIZE;
    if v in s.spaces[r].flat then
      var pte := s.spaces[r].flat[v];
      if User(pte) && PageOf(pte) in s.pages && |s.pages[PageOf(pte)]| == PGSIZE then
        Some(s.pages[PageOf(pte)][a % PGSIZE])
      else None
    else if v * PGSIZE < sz then Some(0)
    else None
  }

  /** Only user pages can be reached from user space. */
  ghost predicate UserOnly(flat: map<nat, Pte>) {
    forall v :: v in flat && User(flat[v]) ==> v < USERPAGES
  }

  /** Nothing outside page table r's own pages has changed. */
  ghost predicate Others(s: Users, t: Users, r: Page) {
    && t.spaces.Keys == s.spaces.Keys && (forall q :: q in s.spaces && q != r ==> t.spaces[q] == s.spaces[q])
    && (forall p :: p in s.pages ==> p in t.pages && (t.pages[p] == s.pages[p] || (p in s.held && s.held[p].0 == r)))
    && (forall p :: p in t.held && t.held[p].0 == r && p in s.pages ==> p in s.held && s.held[p].0 == r)
  }

  /** va's page table lookup, for user pages. */
  method WalkAddr(m: Memory, root: Page, va: nat) returns (p: Page)
    requires m.Valid() && root in m.spaces && UserOnly(m.spaces[root].flat)
    modifies m
    ensures m.Valid() && m.Now() == old(m.Now()) && m.freelist == old(m.freelist)
    ensures var v, flat := va / PGSIZE, m.spaces[root].flat;
            if va < MAXVA && v in flat && User(flat[v]) then
              p == PageOf(flat[v]) && p != 0 && p in m.pages && p in m.held && m.held[p] == (root, v)
            else p == 0
  {
    hide Partition, Shapes, Unshared, Holds, Grown, PageOf, User, Apportioned, Covered;
    p := 0;
    if va >= MAXVA { return; }
    LeafAt(m.tables, m.spaces, root, va / PGSIZE);
    var t, k := m.Walk(root, va, false);
    if t == 0 { return; }
    var pte := m.tables[t][k];
    if !Present(pte) { return; }
    if !User(pte) { return; }
    p := PageOf(pte);
    HeldAt(m.spaces, m.held, root, va / PGSIZE);
    InPages(m.base, m.stop, m.freelist, m.pages, m.tables, p);
  }

  lemma InPages(base: Page, stop: Page, free: seq<Page>, pages: map<Page, Frame>, tables: Tables, p: Page)
    requires Partition(base, stop, free, pages, tables) && p in pages
    ensures p != 0 && |pages[p]| == PGSIZE
  {}

  method IsMapped(m: Memory, root: Page, va: nat) returns (r: bool)
    requires m.Valid() && root in m.spaces && va < MAXVA
    modifies m
    ensures m.Valid() && m.Now() == old(m.Now()) && m.freelist == old(m.freelist)
    ensures r <==> va / PGSIZE in m.spaces[root].flat
  {
    hide Partition, Shapes, Unshared, Holds, Grown;
    LeafAt(m.tables, m.spaces, root, va / PGSIZE);
    var t, k := m.Walk(root, va, false);
    r := t != 0 && Present(m.tables[t][k]);
  }

  /** Allocates a lazily allocated page; user memory reads the same before and after. */
  method VmFault(m: Memory, root: Page, sz: nat, va: nat) returns (p: Page)
    requires m.Valid() && root in m.spaces && sz <= TRAPFRAME
    modifies m
    ensures m.Valid() && root in m.spaces && Others(old(m.Now()), m.Now(), root)
    ensures p == 0 ==>
              && SameFlats(old(m.spaces), m.spaces) && m.pages == old(m.pages) && m.held == old(m.held)
              && (va >= sz || va / PGSIZE in m.spaces[root].flat || |m.freelist| <= 1)
    ensures p != 0 ==>
              && va < sz && va / PGSIZE !in old(m.spaces[root].flat)
              && m.spaces[root].flat == old(m.spaces[root].flat)[va / PGSIZE := MakePte(p, PTE_W + PTE_U + PTE_R)]
              && p !in old(m.pages) && m.pages == old(m.pages)[p := ZeroPage()]
              && m.held == old(m.held)[p := (root, va / PGSIZE)]
  {
    hide Partition, Shapes, Unshared, Holds, MakePte;
    p := 0;
    if va >= sz { return; }
    var va0 := PgRoundDown(va);
    assert va0 / PGSIZE == va / PGSIZE;
    var mapped := IsMapped(m, root, va0);
    if mapped { return; }
    p := m.AddPage(root, va0, PTE_W + PTE_U + PTE_R, ZeroPage());
  }

  // ---- What writes and faults do to user memory ----

  /** t's user memory is s's with bytes stored from dst on. */
  ghost predicate Wrote(s: Users, t: Users, r: Page, sz: nat, dst: nat, bytes: seq<byte>) {
    && r in s.spaces && r in t.spaces
    && forall a: nat ::
         UserByte(t, r, sz, a) == if dst <= a < dst + |bytes| then Some(bytes[a - dst]) else UserByte(s, r, sz, a)
  }

  lemma WroteNothing(s: Users, r: Page, sz: nat, dst: nat)
    requires r in s.spaces
    ensures Wrote(s, s, r, sz, dst, [])
  {}

  lemma WroteMore(s: Users, t: Users, u: Users, r: Page, sz: nat, dst: nat, a: seq<byte>, b: seq<byte>)
    requires Wrote(s, t, r, sz, dst, a) && Wrote(t, u, r, sz, dst + |a|, b)
    ensures Wrote(s, u, r, sz, dst, a + b)
  {}

  lemma OthersMore(s: Users, t: Users, u: Users, r: Page)
    requires Others(s, t, r) && Others(t, u, r)
    ensures Others(s, u, r)
  {}

  /** What a user page's entry leads to. */
  lemma UserPage(s: Users, r: Page, v: nat)
    requires Holds(s.spaces, s.held) && s.held.Keys <= s.pages.Keys && r in s.spaces && UserOnly(s.spaces[r].flat)
    requires v in s.spaces[r].flat && User(s.spaces[r].flat[v])
    ensures var p := PageOf(s.spaces[r].flat[v]); p in s.pages && p in s.held && s.held[p] == (r, v)
  {
    HeldAt(s.spaces, s.held, r, v);
  }

  /** A fault changes no byte of user memory. */
  lemma FaultView(s: Users, t: Users, r: Page, sz: nat, va: nat, p: Page)
    requires r in s.spaces && r in t.spaces && UserOnly(s.spaces[r].flat)
    requires Holds(s.spaces, s.held) && s.held.Keys <= s.pages.Keys
    requires va < sz && va / PGSIZE !in s.spaces[r].flat && p !in s.pages
    requires t.spaces[r].flat == s.spaces[r].flat[va / PGSIZE := MakePte(p, PTE_W + PTE_U + PTE_R)]
    requires t.pages == s.pages[p := ZeroPage()]
    ensures Wrote(s, t, r, sz, va, [])
  {
    hide MakePte, PageOf, User, Holds, UserOnly;
    FaultPte(p);
    forall a: nat ensures UserByte(t, r, sz, a) == UserByte(s, r, sz, a) {
      var v := a / PGSIZE;
      if v != va / PGSIZE && v in s.spaces[r].flat && User(s.spaces[r].flat[v]) {
        UserPage(s, r, v);
      }
    }
  }

  lemma FaultPte(p: Page)
    ensures var pte := MakePte(p, PTE_W + PTE_U + PTE_R); PageOf(pte) == p && User(pte) && Writable(pte)
  {
    PteRoundTrip(p, PTE_W + PTE_U + PTE_R);
  }

  /** Storing bytes in a user page stores them at its addresses and nowhere else. */
  lemma WriteView(s: Users, r: Page, sz: nat, v: nat, off: nat, bytes: seq<byte>)
    requires r in s.spaces && UserOnly(s.spaces[r].flat) && Holds(s.spaces, s.held) && s.held.Keys <= s.pages.Keys
    requires v in s.spaces[r].flat && User(s.spaces[r].flat[v]) && PageOf(s.spaces[r].flat[v]) in s.pages
    requires |s.pages[PageOf(s.spaces[r].flat[v])]| == PGSIZE && off + |bytes| <= PGSIZE
    ensures var p := PageOf(s.spaces[r].flat[v]);
            Wrote(s, s.(pages := s.pages[p := Spliced(s.pages[p], off, bytes)]), r, sz, v * PGSIZE + off, bytes)
  {
    hide PageOf, User, Holds, UserOnly;
    var p := PageOf(s.spaces[r].flat[v]);
    var t := s.(pages := s.pages[p := Spliced(s.pages[p], off, bytes)]);
    UserPage(s, r, v);
    forall a: nat ensures UserByte(t, r, sz, a) ==
                          if v * PGSIZE + off <= a < v * PGSIZE + off + |bytes| then Some(bytes[a - (v * PGSIZE + off)])
                          else UserByte(s, r, sz, a) {
      var w := a / PGSIZE;
      if w != v && w in s.spaces[r].flat && User(s.spaces[r].flat[w]) {
        UserPage(s, r, w);
      }
    }
  }

  // ---- Copying ----

  /** The page at va0, allocated now if it is lazily allocated; 0 if there is none. */
  method Touch(m: Memory, root: Page, sz: nat, va0: nat) returns (p: Page)
    requires m.Valid() && root in m.spaces && UserOnly(m.spaces[root].flat) && sz <= TRAPFRAME && va0 % PGSIZE == 0
    modifies m
    ensures m.Valid() && root in m.spaces && UserOnly(m.spaces[root].flat) && Others(old(m.Now()), m.Now(), root)
    ensures Wrote(old(m.Now()), m.Now(), root, sz, va0, [])
    ensures var v, flat := va0 / PGSIZE, m.spaces[root].flat;
            if p != 0 then
              && va0 < MAXVA && v in flat && User(flat[v]) && PageOf(flat[v]) == p
              && p in m.pages && |m.pages[p]| == PGSIZE && p in m.held && m.held[p] == (root, v)
              && (if v in old(m.spaces[root].flat) then flat[v] == old(m.spaces[root].flat)[v] else Writable(flat[v]))
            else
              UserByte(old(m.Now()), root, sz, va0) == None || |m.freelist| <= 1
  {
    hide Partition, Shapes, Unshared, Holds, MakePte, PageOf, User, Writable;
    WroteNothing(m.Now(), root, sz, va0);
    p := WalkAddr(m, root, va0);
    if p == 0 {
      p := VmFault(m, root, sz, va0);
      if p == 0 {
        SameView(old(m.Now()), m.Now(), root, sz, va0);
        NoUserByte(old(m.Now()), root, sz, va0);
        return;
      }
      FaultView(old(m.Now()), m.Now(), root, sz, va0, p);
      FaultPte(p);
    }
    InPages(m.base, m.stop, m.freelist, m.pages, m.tables, p);
  }

  lemma SameView(s: Users, t: Users, r: Page, sz: nat, a: nat)
    requires r in s.spaces && SameFlats(s.spaces, t.spaces) && t.pages == s.pages
    ensures Wrote(s, t, r, sz, a, [])
  {}

  /** Where neither walkaddr() nor vmfault() finds a page there is no user memory. */
  lemma NoUserByte(s: Users, r: Page, sz: nat, va0: nat)
    requires r in s.spaces && va0 % PGSIZE == 0 && UserOnly(s.spaces[r].flat) && sz <= TRAPFRAME
    ensures va0 >= MAXVA || va0 / PGSIZE !in s.spaces[r].flat || !User(s.spaces[r].flat[va0 / PGSIZE]) ==>
              va0 >= sz || va0 / PGSIZE in s.spaces[r].flat ==> UserByte(s, r, sz, va0) == None
  {}

  /** No user byte there, or on a page the user may not write. */
  ghost predicate Unwritable(s: Users, r: Page, sz: nat, a: nat)
    requires r in s.spaces
  {
    UserByte(s, r, sz, a) == None || (a / PGSIZE in s.spaces[r].flat && !Writable(s.spaces[r].flat[a / PGSIZE]))
  }

  lemma SamePage(s: Users, r: Page, sz: nat, a: nat)
    requires r in s.spaces
    ensures UserByte(s, r, sz, PgRoundDown(a)) == None ==> UserByte(s, r, sz, a) == None
    ensures UserOnly(s.spaces[r].flat) && sz <= TRAPFRAME && a >= MAXVA ==> UserByte(s, r, sz, a) == None
  {
    assert PgRoundDown(a) / PGSIZE == a / PGSIZE;
  }

  lemma PageWritten(s: Users, r: Page, p: Page, bytes: Frame)
    requires p in s.pages && p in s.held && s.held[p].0 == r
    ensures Others(s, s.(pages := s.pages[p := bytes]), r)
  {}

  /** memmove() into a user page. */
  method Store(m: Memory, ghost root: Page, ghost sz: nat, ghost v: nat, p: Page, off: nat, bytes: seq<byte>)
    requires m.Valid() && root in m.spaces && UserOnly(m.spaces[root].flat)
    requires v in m.spaces[root].flat && User(m.spaces[root].flat[v]) && PageOf(m.spaces[root].flat[v]) == p
    requires p in m.pages && |m.pages[p]| == PGSIZE && p in m.held && m.held[p] == (root, v) && off + |bytes| <= PGSIZE
    modifies m`pages
    ensures m.Valid() && Others(old(m.Now()), m.Now(), root)
    ensures Wrote(old(m.Now()), m.Now(), root, sz, v * PGSIZE + off, bytes)
  {
    hide Partition, Shapes, Unshared, Holds, PageOf, User, Wrote, UserByte, Others, UserOnly;
    ghost var was := m.Now();
    WriteView(was, root, sz, v, off, bytes);
    m.pages := m.pages[p := Spliced(m.pages[p], off, bytes)];
    Vm.PageFilled(m.base, m.stop, m.freelist, was.pages, m.tables, p, m.pages[p]);
    PageWritten(was, root, p, m.pages[p]);
    assert m.Now() == was.(pages := m.pages);
  }

  /** An address and the page it is on. */
  lemma OnPage(a: nat)
    ensures var va0, v := PgRoundDown(a), PgRoundDown(a) / PGSIZE;
            && va0 % PGSIZE == 0 && va0 <= a < va0 + PGSIZE && v == a / PGSIZE && va0 == v * PGSIZE
            && (a + (PGSIZE - (a - va0))) % PGSIZE == 0
  {
    assert a + (PGSIZE - (a - PgRoundDown(a))) == (a / PGSIZE + 1) * PGSIZE;
  }

  /** One page's worth of copyout(): the bytes that fit on dstva's page, or none if it cannot be written. */
  method CopyOutPage(m: Memory, root: Page, sz: nat, dstva: nat, src: seq<byte>) returns (n: nat)
    requires m.Valid() && root in m.spaces && UserOnly(m.spaces[root].flat) && sz <= TRAPFRAME && src != []
    modifies m
    ensures m.Valid() && root in m.spaces && UserOnly(m.spaces[root].flat) && Others(old(m.Now()), m.Now(), root)
    ensures n <= |src| && Wrote(old(m.Now()), m.Now(), root, sz, dstva, src[..n])
    ensures n == 0 ==> Unwritable(m.Now(), root, sz, dstva) || |m.freelist| <= 1
    ensures n > 0 ==> n == |src| || (dstva + n) % PGSIZE == 0
  {
    hide Partition, Shapes, Unshared, Holds, MakePte, PageOf, User, Writable, Wrote, UserByte, Others, UserOnly;
    hide PgRoundDown;
    n := 0;
    var va0 := PgRoundDown(dstva);
    var v := va0 / PGSIZE;
    OnPage(dstva);
    SamePage(m.Now(), root, sz, dstva);
    if va0 >= MAXVA {
      SameOthers(m.Now(), root, sz, dstva);
      return;
    }
    var pa0 := Touch(m, root, sz, va0);
    WroteNone(old(m.Now()), m.Now(), root, sz, va0, dstva, src);
    if pa0 == 0 {
      return;
    }
    LeafAt(m.tables, m.spaces, root, v);
    var t, k := m.Walk(root, va0, false);
    if !Writable(m.tables[t][k]) {
      return;
    }
    ghost var was := m.Now();
    n := PGSIZE - (dstva - va0);
    if n > |src| { n := |src|; }
    Store(m, root, sz, v, pa0, dstva - va0, src[..n]);
    OthersMore(old(m.Now()), was, m.Now(), root);
    WroteMore(old(m.Now()), was, m.Now(), root, sz, dstva, [], src[..n]);
    assert [] + src[..n] == src[..n];
  }

  lemma SameOthers(s: Users, r: Page, sz: nat, a: nat)
    requires r in s.spaces
    ensures Others(s, s, r) && Wrote(s, s, r, sz, a, [])
  {}

  lemma WroteNone(s: Users, t: Users, r: Page, sz: nat, a: nat, b: nat, src: seq<byte>)
    requires Wrote(s, t, r, sz, a, [])
    ensures Wrote(s, t, r, sz, b, []) && Wrote(s, t, r, sz, b, src[..0])
    ensures UserByte(t, r, sz, b) == UserByte(s, r, sz, b)
  {}

  /**
   On success the len bytes from dstva on are the source's and no other byte of user memory
   has changed; on failure the same holds of the first k bytes, and the next cannot be written.
   */
  method CopyOut(m: Memory, root: Page, sz: nat, dstva: nat, src: seq<byte>) returns (r: int, ghost k: nat)
    requires m.Valid() && root in m.spaces && UserOnly(m.spaces[root].flat) && sz <= TRAPFRAME
    modifies m
    ensures m.Valid() && root in m.spaces && Others(old(m.Now()), m.Now(), root)
    ensures k <= |src| && Wrote(old(m.Now()), m.Now(), root, sz, dstva, src[..k])
    ensures if r == 0 then k == |src|
            else r == -1 && k < |src| && (Unwritable(m.Now(), root, sz, dstva + k) || |m.freelist| <= 1)
  {
    hide Partition, Shapes, Unshared, Holds, Wrote, UserByte, Others, UserOnly, Unwritable;
    var done, dst := 0, dstva;
    SameOthers(m.Now(), root, sz, dstva);
    WroteNone(m.Now(), m.Now(), root, sz, dstva, dstva, src);
    while done < |src|
      invariant m.Valid() && root in m.spaces && UserOnly(m.spaces[root].flat) && Others(old(m.Now()), m.Now(), root)
      invariant done <= |src| && dst == dstva + done && Wrote(old(m.Now()), m.Now(), root, sz, dstva, src[..done])
      decreases |src| - done
    {
      ghost var was := m.Now();
      var n := CopyOutPage(m, root, sz, dst, src[done..]);
      OthersMore(old(m.Now()), was, m.Now(), root);
      WroteMore(old(m.Now()), was, m.Now(), root, sz, dstva, src[..done], src[done..][..n]);
      assert src[..done] + src[done..][..n] == src[..done + n];
      if n == 0 {
        return -1, done;
      }
      done := done + n;
      dst := dst + n;
    }
    assert src[..done] == src;
    return 0, done;
  }

  /** User memory reads as bytes from src on. */
  ghost predicate Reads(s: Users, r: Page, sz: nat, src: nat, bytes: seq<byte>) {
    r in s.spaces && forall i :: 0 <= i < |bytes| ==> UserByte(s, r, sz, src + i) == Some(bytes[i])
  }

  lemma ReadsMore(s: Users, t: Users, r: Page, sz: nat, src: nat, a: seq<byte>, b: seq<byte>, at: nat)
    requires Reads(s, r, sz, src, a) && Wrote(s, t, r, sz, at, []) && Reads(t, r, sz, src + |a|, b)
    ensures Reads(s, r, sz, src, a + b)
  {
    forall i | 0 <= i < |a + b| ensures UserByte(s, r, sz, src + i) == Some((a + b)[i]) {
      if i >= |a| {
        assert UserByte(t, r, sz, src + |a| + (i - |a|)) == Some(b[i - |a|]);
      }
    }
  }

  lemma ReadsBefore(s: Users, t: Users, r: Page, sz: nat, at: nat, src: nat, b: seq<byte>)
    requires Wrote(s, t, r, sz, at, []) && Reads(t, r, sz, src, b)
    ensures Reads(s, r, sz, src, b)
  {}

  /** The bytes of a user page are user memory. */
  lemma ReadsPage(s: Users, r: Page, sz: nat, v: nat, off: nat, n: nat)
    requires r in s.spaces && v in s.spaces[r].flat && User(s.spaces[r].flat[v])
             && PageOf(s.spaces[r].flat[v]) in s.pages
    requires |s.pages[PageOf(s.spaces[r].flat[v])]| == PGSIZE && off + n <= PGSIZE
    ensures Reads(s, r, sz, v * PGSIZE + off, s.pages[PageOf(s.spaces[r].flat[v])][off..off + n])
  {
    hide PageOf, User;
    var page := s.pages[PageOf(s.spaces[r].flat[v])];
    var bytes := page[off..off + n];
    forall i | 0 <= i < n ensures UserByte(s, r, sz, v * PGSIZE + off + i) == Some(bytes[i]) {
      assert (v * PGSIZE + off + i) / PGSIZE == v && (v * PGSIZE + off + i) % PGSIZE == off + i;
    }
  }

  /** One page's worth of copyin(). */
  method CopyInPage(m: Memory, root: Page, sz: nat, srcva: nat, dst: array<byte>, at: nat, len: nat) returns (n: nat)
    requires m.Valid() && root in m.spaces && UserOnly(m.spaces[root].flat) && sz <= TRAPFRAME
    requires 0 < len && at + len <= dst.Length
    modifies m, dst
    ensures m.Valid() && root in m.spaces && UserOnly(m.spaces[root].flat) && Others(old(m.Now()), m.Now(), root)
    ensures n <= len && Wrote(old(m.Now()), m.Now(), root, sz, srcva, [])
    ensures Reads(m.Now(), root, sz, srcva, dst[at..at + n]) && dst[..at] == old(dst[..at])
            && dst[at + n..] == old(dst[at + n..])
    ensures n == 0 ==> UserByte(m.Now(), root, sz, srcva) == None || |m.freelist| <= 1
  {
    hide Partition, Shapes, Unshared, Holds, MakePte, PageOf, User, Wrote, UserByte, Others, UserOnly, Reads;
    n := 0;
    var va0 := PgRoundDown(srcva);
    var v := va0 / PGSIZE;
    assert v == srcva / PGSIZE && srcva == va0 + srcva % PGSIZE;
    SamePage(m.Now(), root, sz, srcva);
    var pa0 := Touch(m, root, sz, va0);
    WroteNone(old(m.Now()), m.Now(), root, sz, va0, srcva, []);
    ReadsNone(m.Now(), root, sz, srcva);
    if pa0 == 0 {
      assert dst[at..at + n] == [];
      return;
    }
    n := PGSIZE - (srcva - va0);
    if n > len { n := len; }
    var off := srcva - va0;
    ReadsPage(m.Now(), root, sz, v, off, n);
    forall i | 0 <= i < n {
      dst[at + i] := m.pages[pa0][off + i];
    }
    assert dst[at..at + n] == m.pages[pa0][off..off + n];
  }

  lemma ReadsNone(s: Users, r: Page, sz: nat, a: nat)
    requires r in s.spaces
    ensures Reads(s, r, sz, a, [])
  {}

  /** On success dst holds the len bytes of user memory from srcva on, which reads as it did before. */
  method CopyIn(m: Memory, root: Page, sz: nat, dst: array<byte>, srcva: nat, len: nat) returns (r: int, ghost k: nat)
    requires m.Valid() && root in m.spaces && UserOnly(m.spaces[root].flat) && sz <= TRAPFRAME && len <= dst.Length
    modifies m, dst
    ensures m.Valid() && root in m.spaces && Others(old(m.Now()), m.Now(), root)
            && Wrote(old(m.Now()), m.Now(), root, sz, srcva, [])
    ensures k <= len && Reads(old(m.Now()), root, sz, srcva, dst[..k]) && dst[k..] == old(dst[k..])
    ensures if r == 0 then k == len
            else r == -1 && k < len && (UserByte(m.Now(), root, sz, srcva + k) == None || |m.freelist| <= 1)
  {
    hide Partition, Shapes, Unshared, Holds, Wrote, UserByte, Others, UserOnly, Reads;
    var done, src := 0, srcva;
    SameOthers(m.Now(), root, sz, srcva);
    ReadsNone(m.Now(), root, sz, srcva);
    assert dst[..0] == [];
    while done < len
      invariant m.Valid() && root in m.spaces && UserOnly(m.spaces[root].flat) && Others(old(m.Now()), m.Now(), root)
      invariant done <= len && src == srcva + done && Wrote(old(m.Now()), m.Now(), root, sz, srcva, [])
      invariant Reads(old(m.Now()), root, sz, srcva, dst[..done]) && dst[done..] == old(dst[done..])
      decreases len - done
    {
      ghost var was, had := m.Now(), dst[..done];
      var n := CopyInPage(m, root, sz, src, dst, done, len - done);
      OthersMore(old(m.Now()), was, m.Now(), root);
      WroteNone(was, m.Now(), root, sz, src, srcva, []);
      WroteMore(old(m.Now()), was, m.Now(), root, sz, srcva, [], []);
      ReadsBefore(was, m.Now(), root, sz, src, src, dst[done..done + n]);
      ReadsMore(old(m.Now()), was, root, sz, srcva, had, dst[done..done + n], srcva);
      assert dst[..done + n] == had + dst[done..done + n];
      assert dst[done + n..] == old(dst[done..])[n..] == old(dst[done + n..]);
      if n == 0 {
        return -1, done;
      }
      done := done + n;
      src := src + n;
    }
    return 0, done;
  }
}
