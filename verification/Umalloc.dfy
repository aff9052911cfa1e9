/**
 The allocator of user/umalloc.c (section 8.7 of The C Programming Language, second
 edition).  Addresses and sizes are in units of one Header.
 */
module Umalloc {
  import opened Common

  type Addr = nat

  // ---- The circular list ----

  /** b comes after a: the next higher node, or base when there is none. */
  ghost predicate IsNext(base: Addr, nodes: set<Addr>, a: Addr, b: Addr) {
    b in nodes &&
    if b > a then forall c :: c in nodes ==> !(a < c < b)
    else b == base && forall c :: c in nodes ==> c <= a
  }

  /** The nodes form one circle in address order, with its one wrap at base. */
  ghost predicate Ring(base: Addr, nodes: set<Addr>, ptr: map<Addr, Addr>) {
    && base in nodes && (forall c :: c in nodes ==> base <= c)
    && (forall a {:trigger Follows(base, nodes, ptr, a)} :: a in nodes ==> Follows(base, nodes, ptr, a))
  }

  /** The link of a leads to the node after it. */
  ghost predicate Follows(base: Addr, nodes: set<Addr>, ptr: map<Addr, Addr>, a: Addr) {
    a in ptr && IsNext(base, nodes, a, ptr[a])
  }

  lemma RingRemoved(base: Addr, nodes: set<Addr>, ptr: map<Addr, Addr>, q: Addr, p: Addr)
    requires Ring(base, nodes, ptr) && q in nodes && p in nodes && q in ptr && p in ptr && ptr[q] == p && p != base
    ensures Ring(base, nodes - {p}, ptr[q := ptr[p]]) && q != p
  {
    var nodes', ptr' := nodes - {p}, ptr[q := ptr[p]];
    assert Follows(base, nodes, ptr, q) && Follows(base, nodes, ptr, p);
    forall a | a in nodes' ensures Follows(base, nodes', ptr', a) {
      assert Follows(base, nodes, ptr, a);
    }
  }

  /** Where a block belongs: after a, before the next node if that is higher. */
  ghost predicate Belongs(nodes: set<Addr>, ptr: map<Addr, Addr>, a: Addr, b: Addr) {
    a in nodes && a in ptr && a < b && (b < ptr[a] || ptr[a] <= a)
  }

  lemma RingInserted(base: Addr, nodes: set<Addr>, ptr: map<Addr, Addr>, a: Addr, b: Addr)
    requires Ring(base, nodes, ptr) && Belongs(nodes, ptr, a, b)
    ensures b !in nodes && Ring(base, nodes + {b}, ptr[b := ptr[a]][a := b])
  {
    var nodes', ptr' := nodes + {b}, ptr[b := ptr[a]][a := b];
    assert Follows(base, nodes, ptr, a);
    forall c | c in nodes' ensures Follows(base, nodes', ptr', c) {
      if c != b {
        assert Follows(base, nodes, ptr, c);
      }
    }
  }

  // ---- Blocks ----

  // Which block a unit of memory is in.
  datatype Block = Free(b: Addr) | Used(b: Addr)

  ghost predicate InBlock(nodes: set<Addr>, size: map<Addr, nat>, alloc: map<Addr, nat>, u: Addr, block: Block) {
    match block
    case Free(b) => b in nodes && b in size && b <= u < b + size[b]
    case Used(b) => b in alloc && b <= u < b + alloc[b]
  }

  /**
   Every unit obtained from the system is in exactly one block, free or allocated, which home
   records; the blocks hold nothing else.  Headers of blocks carry their sizes.
   */
  ghost predicate Laid(base: Addr, nodes: set<Addr>, size: map<Addr, nat>, alloc: map<Addr, nat>,
                       home: map<Addr, Block>) {
    && (forall b :: b in nodes ==> b in size && (size[b] == 0 <==> b == base))
    && (forall b :: b in alloc ==> b in size && size[b] == alloc[b] && alloc[b] > 0)
    && (forall u: nat, block :: InBlock(nodes, size, alloc, u, block) <==> u in home && home[u] == block)
  }

  // The units of [lo, hi) moved to another block.
  function Moved(home: map<Addr, Block>, lo: Addr, hi: Addr, block: Block): map<Addr, Block> {
    map u | u in home :: if lo <= u < hi then block else home[u]
  }

  /** A free node is no allocated block, and its first unit is its own. */
  lemma FreeNode(base: Addr, nodes: set<Addr>, size: map<Addr, nat>, alloc: map<Addr, nat>, home: map<Addr, Block>,
                 p: Addr)
    requires Laid(base, nodes, size, alloc, home) && p in nodes && p != base
    ensures p !in alloc && p in home && home[p] == Free(p)
  {
    assert InBlock(nodes, size, alloc, p, Free(p));
    assert p in alloc ==> InBlock(nodes, size, alloc, p, Used(p));
  }

  /** malloc() takes a whole free block. */
  lemma TakenWhole(base: Addr, nodes: set<Addr>, size: map<Addr, nat>, alloc: map<Addr, nat>, home: map<Addr, Block>,
                   p: Addr)
    requires Laid(base, nodes, size, alloc, home) && p in nodes && p != base
    ensures Laid(base, nodes - {p}, size, alloc[p := size[p]], Moved(home, p, p + size[p], Used(p)))
  {
    var nodes', alloc', home' := nodes - {p}, alloc[p := size[p]], Moved(home, p, p + size[p], Used(p));
    FreeNode(base, nodes, size, alloc, home, p);
    forall u: nat, block ensures InBlock(nodes', size, alloc', u, block) <==> u in home' && home'[u] == block {
      assert InBlock(nodes, size, alloc, u, Free(p)) <==> u in home && home[u] == Free(p);
      assert InBlock(nodes, size, alloc, u, block) <==> u in home && home[u] == block;
      assert InBlock(nodes', size, alloc', u, block) <==>
             if block == Used(p) then InBlock(nodes, size, alloc, u, Free(p))
             else block != Free(p) && InBlock(nodes, size, alloc, u, block);
    }
  }

  /** malloc() takes the upper n units of a free block. */
  lemma TakenTail(base: Addr, nodes: set<Addr>, size: map<Addr, nat>, alloc: map<Addr, nat>, home: map<Addr, Block>,
                  p: Addr, n: nat)
    requires Laid(base, nodes, size, alloc, home) && p in nodes && base <= p && 0 < n < size[p]
    ensures var q := p + (size[p] - n);
            && q !in nodes && q !in alloc
            && Laid(base, nodes, size[p := size[p] - n][q := n], alloc[q := n], Moved(home, q, q + n, Used(q)))
  {
    var q := p + (size[p] - n);
    var size', alloc', home' := size[p := size[p] - n][q := n], alloc[q := n], Moved(home, q, q + n, Used(q));
    FreeNode(base, nodes, size, alloc, home, p);
    assert InBlock(nodes, size, alloc, q, Free(p));
    assert q in nodes && q != base ==> InBlock(nodes, size, alloc, q, Free(q));
    assert q in alloc ==> InBlock(nodes, size, alloc, q, Used(q));
    assert q != base;
    forall u: nat, block ensures InBlock(nodes, size', alloc', u, block) <==> u in home' && home'[u] == block {
      assert InBlock(nodes, size, alloc, u, Free(p)) <==> u in home && home[u] == Free(p);
      assert InBlock(nodes, size, alloc, u, block) <==> u in home && home[u] == block;
      assert InBlock(nodes, size', alloc', u, block) <==>
             if block == Used(q) then q <= u < q + n
             else InBlock(nodes, size, alloc, u, block) && (block == Free(p) ==> u < q);
    }
  }

  /** An allocated block becomes a free node. */
  lemma Freed(base: Addr, nodes: set<Addr>, size: map<Addr, nat>, alloc: map<Addr, nat>, home: map<Addr, Block>,
              b: Addr)
    requires Laid(base, nodes, size, alloc, home) && b in alloc && b != base
    ensures b !in nodes && Laid(base, nodes + {b}, size, alloc - {b}, Moved(home, b, b + size[b], Free(b)))
  {
    var nodes', alloc', home' := nodes + {b}, alloc - {b}, Moved(home, b, b + size[b], Free(b));
    assert InBlock(nodes, size, alloc, b, Used(b));
    assert b in nodes ==> InBlock(nodes, size, alloc, b, Free(b));
    forall u: nat, block ensures InBlock(nodes', size, alloc', u, block) <==> u in home' && home'[u] == block {
      assert InBlock(nodes, size, alloc, u, Used(b)) <==> u in home && home[u] == Used(b);
      assert InBlock(nodes, size, alloc, u, block) <==> u in home && home[u] == block;
      assert InBlock(nodes', size, alloc', u, block) <==>
             if block == Free(b) then InBlock(nodes, size, alloc, u, Used(b))
             else block != Used(b) && InBlock(nodes, size, alloc, u, block);
    }
  }

  /** Two touching free blocks become one. */
  lemma Merged(base: Addr, nodes: set<Addr>, size: map<Addr, nat>, alloc: map<Addr, nat>, home: map<Addr, Block>,
               a: Addr, b: Addr)
    requires Laid(base, nodes, size, alloc, home) && a in nodes && b in nodes && a != base && b != base
             && a + size[a] == b
    ensures Laid(base, nodes - {b}, size[a := size[a] + size[b]], alloc, Moved(home, b, b + size[b], Free(a)))
  {
    var nodes', size', home' := nodes - {b}, size[a := size[a] + size[b]], Moved(home, b, b + size[b], Free(a));
    FreeNode(base, nodes, size, alloc, home, a);
    forall u: nat, block ensures InBlock(nodes', size', alloc, u, block) <==> u in home' && home'[u] == block {
      assert InBlock(nodes, size, alloc, u, Free(b)) <==> u in home && home[u] == Free(b);
      assert InBlock(nodes, size, alloc, u, Free(a)) <==> u in home && home[u] == Free(a);
      assert InBlock(nodes, size, alloc, u, block) <==> u in home && home[u] == block;
      assert InBlock(nodes', size', alloc, u, block) <==>
             if block == Free(a) then InBlock(nodes, size, alloc, u, Free(a)) || InBlock(nodes, size, alloc, u, Free(b))
             else block != Free(b) && InBlock(nodes, size, alloc, u, block);
    }
  }

  // Free block a ends where free block b starts.
  ghost predicate Touch(base: Addr, nodes: set<Addr>, size: map<Addr, nat>, a: Addr, b: Addr) {
    a in nodes && b in nodes && a != base && a in size && a + size[a] == b
  }

  ghost predicate Apart(base: Addr, nodes: set<Addr>, size: map<Addr, nat>) {
    forall a: nat, b: nat :: !Touch(base, nodes, size, a, b)
  }

  /** Two free nodes do not overlap. */
  lemma Disjoint(base: Addr, nodes: set<Addr>, size: map<Addr, nat>, alloc: map<Addr, nat>, home: map<Addr, Block>,
                 a: Addr, b: Addr)
    requires Laid(base, nodes, size, alloc, home) && a in nodes && b in nodes && a < b && b != base
    ensures a + size[a] <= b
  {
    assert InBlock(nodes, size, alloc, b, Free(b));
    assert InBlock(nodes, size, alloc, b, Free(a)) <==> b in home && home[b] == Free(a);
  }

  /** A new node can touch only the nodes next to it. */
  lemma OnlyNeighbours(base: Addr, nodes: set<Addr>, ptr: map<Addr, Addr>, size: map<Addr, nat>, alloc: map<Addr, nat>,
                       home: map<Addr, Block>, p: Addr, b: Addr, x: Addr, y: Addr)
    requires Ring(base, nodes, ptr) && Belongs(nodes, ptr, p, b) && Apart(base, nodes, size)
    requires Laid(base, nodes + {b}, size, alloc, home) && Touch(base, nodes + {b}, size, x, y)
    ensures (x == p && y == b) || (x == b && y == ptr[p] && ptr[p] > b)
  {
    assert !Touch(base, nodes, size, x, y);
    assert Follows(base, nodes, ptr, p);
    if y == b {
      if x < p {
        Disjoint(base, nodes + {b}, size, alloc, home, x, p);
      }
    } else {
      assert x == b;
      if ptr[p] > b && ptr[p] < y {
        Disjoint(base, nodes + {b}, size, alloc, home, b, ptr[p]);
      }
    }
  }

  // ---- free() ----

  datatype Heap = Heap(nodes: set<Addr>, ptr: map<Addr, Addr>, size: map<Addr, nat>, alloc: map<Addr, nat>,
                       home: map<Addr, Block>)

  ghost predicate Linked(base: Addr, h: Heap) {
    Ring(base, h.nodes, h.ptr) && Laid(base, h.nodes, h.size, h.alloc, h.home)
  }

  /** The list in order, every unit accounted for, no two free blocks touching. */
  ghost predicate Good(base: Addr, h: Heap) {
    Linked(base, h) && Apart(base, h.nodes, h.size)
  }

  /** Allocated block b linked in after p, as a node of its own. */
  ghost function Inserted(h: Heap, p: Addr, b: Addr): Heap
    requires p in h.ptr && b in h.size
  {
    Heap(h.nodes + {b}, h.ptr[b := h.ptr[p]][p := b], h.size, h.alloc - {b}, Moved(h.home, b, b + h.size[b], Free(b)))
  }

  /** The node after a, which touches it, joined to it. */
  ghost function Joined(h: Heap, a: Addr): Heap
    requires a in h.ptr && h.ptr[a] in h.ptr && a in h.size && h.ptr[a] in h.size
  {
    var n := h.ptr[a];
    Heap(h.nodes - {n}, h.ptr[a := h.ptr[n]], h.size[a := h.size[a] + h.size[n]], h.alloc,
         Moved(h.home, n, n + h.size[n], Free(a)))
  }

  lemma InsertedGood(base: Addr, h: Heap, p: Addr, b: Addr)
    requires Good(base, h) && Belongs(h.nodes, h.ptr, p, b) && b in h.alloc && b != base
    ensures b in h.size && Linked(base, Inserted(h, p, b)) && b in Inserted(h, p, b).nodes && p in h.ptr
    ensures forall x: nat, y: nat :: Touch(base, Inserted(h, p, b).nodes, h.size, x, y) ==>
              (x == p && y == b) || (x == b && y == h.ptr[p] && y > b)
  {
    var h' := Inserted(h, p, b);
    RingInserted(base, h.nodes, h.ptr, p, b);
    Freed(base, h.nodes, h.size, h.alloc, h.home, b);
    forall x: nat, y: nat | Touch(base, h'.nodes, h.size, x, y)
      ensures (x == p && y == b) || (x == b && y == h.ptr[p] && y > b)
    {
      OnlyNeighbours(base, h.nodes, h.ptr, h.size, h'.alloc, h'.home, p, b, x, y);
    }
  }

  lemma JoinedLinked(base: Addr, h: Heap, a: Addr)
    requires Linked(base, h) && a in h.ptr && Touch(base, h.nodes, h.size, a, h.ptr[a]) && h.ptr[a] != base
    ensures h.ptr[a] in h.ptr && h.ptr[a] in h.size && Linked(base, Joined(h, a))
  {
    assert Follows(base, h.nodes, h.ptr, a) && Follows(base, h.nodes, h.ptr, h.ptr[a]);
    RingRemoved(base, h.nodes, h.ptr, a, h.ptr[a]);
    Merged(base, h.nodes, h.size, h.alloc, h.home, a, h.ptr[a]);
  }

  /** Joining removes exactly the touching of the two. */
  lemma JoinedTouch(base: Addr, h: Heap, a: Addr, x: Addr, y: Addr)
    requires Linked(base, h) && a in h.ptr && Touch(base, h.nodes, h.size, a, h.ptr[a]) && h.ptr[a] != base
    requires h.ptr[a] in h.ptr && h.ptr[a] in h.size && Touch(base, Joined(h, a).nodes, Joined(h, a).size, x, y)
    ensures Touch(base, h.nodes, h.size, if x == a then h.ptr[a] else x, y)
  {}

  /** What free() makes of the list: b linked in after p, then joined to what it touches above and below. */
  ghost function AfterFree(h: Heap, p: Addr, b: Addr): Heap
    requires p in h.ptr && b in h.size && p in h.size && h.ptr[p] in h.size && h.ptr[p] in h.ptr
  {
    var h1 := Inserted(h, p, b);
    var h2 := if b + h.size[b] == h.ptr[p] then Joined(h1, b) else h1;
    if p + h.size[p] == b then Joined(h2, p) else h2
  }

  lemma FreeGood(base: Addr, h: Heap, p: Addr, b: Addr)
    requires Good(base, h) && Belongs(h.nodes, h.ptr, p, b) && b in h.alloc && base < b
    ensures p in h.ptr && b in h.size && p in h.size && h.ptr[p] in h.size && h.ptr[p] in h.ptr
    ensures Good(base, AfterFree(h, p, b)) && p in AfterFree(h, p, b).nodes
            && AfterFree(h, p, b).home.Keys == h.home.Keys
    ensures AfterFree(h, p, b).alloc == h.alloc - {b}
    ensures var g := if p + h.size[p] == b then p else b;
            var t := AfterFree(h, p, b);
            g in t.nodes && g in t.size && t.size[g] >= h.size[b]
  {
    hide Ring, Laid;
    InList(base, h, p);
    InsertedGood(base, h, p, b);
    var n := h.ptr[p];
    var h1 := Inserted(h, p, b);
    var h2 := if b + h.size[b] == n then Joined(h1, b) else h1;
    if b + h.size[b] == n {
      assert Touch(base, h1.nodes, h1.size, b, n);
      JoinedLinked(base, h1, b);
    }
    forall x: nat, y: nat | Touch(base, h2.nodes, h2.size, x, y) ensures x == p && y == b {
      if b + h.size[b] == n {
        JoinedTouch(base, h1, b, x, y);
        OnceOnly(base, h, n, y);
      }
    }
    if p + h.size[p] == b {
      BaseEmpty(base, h);
      assert Touch(base, h2.nodes, h2.size, p, b);
      JoinedLinked(base, h2, p);
      var h3 := Joined(h2, p);
      forall x: nat, y: nat ensures !Touch(base, h3.nodes, h3.size, x, y) {
        if Touch(base, h3.nodes, h3.size, x, y) {
          JoinedTouch(base, h2, p, x, y);
        }
      }
    }
  }

  lemma InList(base: Addr, h: Heap, p: Addr)
    requires Linked(base, h) && p in h.nodes
    ensures p in h.ptr && p in h.size && h.ptr[p] in h.nodes && h.ptr[p] in h.size && h.ptr[p] in h.ptr
            && base <= h.ptr[p]
    ensures base in h.nodes && base in h.size && h.size[base] == 0 && base <= p
    ensures h.ptr[p] <= p ==> h.ptr[p] == base
  {
    assert Follows(base, h.nodes, h.ptr, p) && Follows(base, h.nodes, h.ptr, h.ptr[p]);
  }

  lemma BaseEmpty(base: Addr, h: Heap)
    requires Linked(base, h)
    ensures base in h.size && h.size[base] == 0
  {}

  lemma OnceOnly(base: Addr, h: Heap, x: Addr, y: Addr)
    requires Apart(base, h.nodes, h.size)
    ensures !Touch(base, h.nodes, h.size, x, y)
  {}

  // ---- Going round the list ----

  ghost function Above(nodes: set<Addr>, p: Addr): set<Addr> { set c | c in nodes && c > p }

  lemma NextAbove(base: Addr, h: Heap, p: Addr)
    requires Linked(base, h) && p in h.nodes
    ensures p in h.ptr && h.ptr[p] in h.nodes && base <= h.ptr[p] && base <= p
    ensures if h.ptr[p] > p then |Above(h.nodes, h.ptr[p])| < |Above(h.nodes, p)|
            else h.ptr[p] == base && forall c :: c in h.nodes ==> c <= p
    ensures forall c :: c in h.nodes ==> !(p < c < h.ptr[p])
  {
    assert Follows(base, h.nodes, h.ptr, p);
    if h.ptr[p] > p {
      Smaller(Above(h.nodes, h.ptr[p]), Above(h.nodes, p), h.ptr[p]);
    }
  }

  lemma {:induction false} Smaller(a: set<Addr>, b: set<Addr>, x: Addr)
    requires a <= b && x in b && x !in a
    ensures |a| < |b|
  {
    if a != {} {
      var y :| y in a;
      Smaller(a - {y}, b - {y}, x);
    }
  }

  /** Going from p round to f, g is still to come, or is p. */
  ghost predicate Ahead(p: Addr, f: Addr, g: Addr) {
    if p <= f then p <= g <= f else g >= p || g <= f
  }

  lemma AheadNext(base: Addr, h: Heap, p: Addr, f: Addr, g: Addr)
    requires Linked(base, h) && p in h.nodes && f in h.nodes && g in h.nodes && p in h.ptr
    ensures Ahead(p, f, g) && g != p && p != f ==> Ahead(h.ptr[p], f, g)
    ensures f in h.ptr && Ahead(h.ptr[f], f, g)
    ensures p < f ==> p < h.ptr[p] <= f
  {
    hide Laid;
    NextAbove(base, h, p);
    NextAbove(base, h, f);
  }

  // ---- Memory from the system ----

  /** The n units from s on, as one allocated block. */
  function NewUnits(s: Addr, n: nat): (m: map<Addr, Block>)
    ensures forall u: nat :: u in m <==> s <= u < s + n
    ensures forall u :: u in m ==> m[u] == Used(s)
  {
    if n == 0 then map[] else NewUnits(s, n - 1)[s + n - 1 := Used(s)]
  }

  /** A region no block reaches into becomes an allocated block, on its way to being freed. */
  lemma Obtained(base: Addr, h: Heap, s: Addr, n: nat)
    requires Good(base, h) && n > 0 && base < s && forall u :: u in h.home ==> u < s
    requires forall b :: b in h.nodes ==> b < s
    ensures Good(base, Heap(h.nodes, h.ptr, h.size[s := n], h.alloc[s := n], h.home + NewUnits(s, n)))
  {
    var size', alloc', home' := h.size[s := n], h.alloc[s := n], h.home + NewUnits(s, n);
    assert s in h.alloc ==> InBlock(h.nodes, h.size, h.alloc, s, Used(s));
    forall u: nat, block ensures InBlock(h.nodes, size', alloc', u, block) <==> u in home' && home'[u] == block {
      assert InBlock(h.nodes, h.size, h.alloc, u, block) <==> u in h.home && h.home[u] == block;
      assert InBlock(h.nodes, size', alloc', u, block) <==>
             if block == Used(s) then s <= u < s + n else InBlock(h.nodes, h.size, h.alloc, u, block);
    }
    forall a: nat, b: nat ensures !Touch(base, h.nodes, size', a, b) {
      assert !Touch(base, h.nodes, h.size, a, b);
    }
  }

  /** No two allocated blocks share a unit, and none shares one with a free block. */
  lemma AllocatedApart(base: Addr, h: Heap, a: Addr, b: Addr, u: Addr)
    requires Good(base, h) && a in h.alloc && a <= u < a + h.alloc[a]
    ensures b in h.alloc && b <= u < b + h.alloc[b] ==> a == b
    ensures b in h.nodes ==> b in h.size && !(b <= u < b + h.size[b])
  {
    assert InBlock(h.nodes, h.size, h.alloc, u, Used(a));
    assert b in h.alloc && b <= u < b + h.alloc[b] ==> InBlock(h.nodes, h.size, h.alloc, u, Used(b));
    assert b in h.nodes && b <= u < b + h.size[b] ==> InBlock(h.nodes, h.size, h.alloc, u, Free(b));
  }

  /** The list and the blocks are below the break. */
  ghost predicate Under(base: Addr, nodes: set<Addr>, home: map<Addr, Block>, brk: Addr) {
    (forall b :: b in nodes ==> b < brk) && (forall u :: u in home ==> base < u < brk)
  }

  lemma AllocAbove(base: Addr, h: Heap, brk: Addr, b: Addr)
    requires Good(base, h) && b in h.alloc && Under(base, h.nodes, h.home, brk)
    ensures base < b && b in h.size && h.size[b] == h.alloc[b] && b !in h.nodes
  {
    assert InBlock(h.nodes, h.size, h.alloc, b, Used(b));
    assert b in h.nodes && b != base ==> InBlock(h.nodes, h.size, h.alloc, b, Free(b));
  }

  lemma FreedUnder(base: Addr, h: Heap, brk: Addr, p: Addr, b: Addr)
    requires Good(base, h) && Belongs(h.nodes, h.ptr, p, b) && b in h.alloc && base < b
             && Under(base, h.nodes, h.home, brk)
    requires p in h.ptr && b in h.size && p in h.size && h.ptr[p] in h.size && h.ptr[p] in h.ptr
    ensures Under(base, AfterFree(h, p, b).nodes, AfterFree(h, p, b).home, brk)
  {
    assert InBlock(h.nodes, h.size, h.alloc, b, Used(b));
  }

  lemma Fresh(base: Addr, h: Heap, brk: Addr, s: Addr, n: nat)
    requires Good(base, h) && Under(base, h.nodes, h.home, brk) && base < brk <= s && n > 0
    ensures s !in h.alloc
    ensures var h' := Heap(h.nodes, h.ptr, h.size[s := n], h.alloc[s := n], h.home + NewUnits(s, n));
            Good(base, h') && Under(base, h'.nodes, h'.home, s + n)
  {
    Obtained(base, h, s, n);
    assert s in h.alloc ==> InBlock(h.nodes, h.size, h.alloc, s, Used(s));
  }

  /** What malloc() makes of the list when it takes n units from the node after prevp. */
  ghost function AfterTake(h: Heap, prevp: Addr, n: nat): Heap
    requires prevp in h.ptr && h.ptr[prevp] in h.ptr && h.ptr[prevp] in h.size && n <= h.size[h.ptr[prevp]]
  {
    var p := h.ptr[prevp];
    if h.size[p] == n then
      Heap(h.nodes - {p}, h.ptr[prevp := h.ptr[p]], h.size, h.alloc[p := n], Moved(h.home, p, p + h.size[p], Used(p)))
    else
      var q := p + (h.size[p] - n);
      Heap(h.nodes, h.ptr, h.size[p := h.size[p] - n][q := n], h.alloc[q := n], Moved(h.home, q, q + n, Used(q)))
  }

  lemma TakeGood(base: Addr, h: Heap, brk: Addr, prevp: Addr, n: nat)
    requires Good(base, h) && Under(base, h.nodes, h.home, brk) && prevp in h.nodes
    requires prevp in h.ptr && h.ptr[prevp] in h.ptr && h.ptr[prevp] in h.size && 0 < n <= h.size[h.ptr[prevp]]
    ensures var p := h.ptr[prevp];
            var q := p + (h.size[p] - n);
            var t := AfterTake(h, prevp, n);
            Good(base, t) && Under(base, t.nodes, t.home, brk) && q !in h.alloc && base < q && prevp in t.nodes
  {
    var p := h.ptr[prevp];
    assert Follows(base, h.nodes, h.ptr, prevp);
    FreeNode(base, h.nodes, h.size, h.alloc, h.home, p);
    var t := AfterTake(h, prevp, n);
    if h.size[p] == n {
      RingRemoved(base, h.nodes, h.ptr, prevp, p);
      TakenWhole(base, h.nodes, h.size, h.alloc, h.home, p);
    } else {
      TakenTail(base, h.nodes, h.size, h.alloc, h.home, p, n);
    }
    forall a: nat, b: nat ensures !Touch(base, t.nodes, t.size, a, b) {
      assert !Touch(base, h.nodes, h.size, a, b);
    }
  }

  lemma EmptyGood(base: Addr, ptr: map<Addr, Addr>, size: map<Addr, nat>)
    requires base in ptr && ptr[base] == base && base in size && size[base] == 0
    ensures Good(base, Heap({base}, ptr, size, map[], map[]))
  {
    forall a | a in {base} ensures Follows(base, {base}, ptr, a) {}
  }

  /** One turn of malloc()'s search from node p towards f, where a big enough g may still be ahead. */
  lemma Node(base: Addr, h: Heap, p: Addr, f: Addr, g: Addr)
    requires Good(base, h) && p in h.nodes && f in h.nodes
    ensures p in h.ptr && p in h.size && h.ptr[p] in h.nodes && h.ptr[p] in h.ptr
    ensures g in h.nodes && Ahead(p, f, g) && p == f ==> g == p
    ensures g in h.nodes && Ahead(p, f, g) && p != f && g != p ==> Ahead(h.ptr[p], f, g)
    ensures g in h.nodes && p == f ==> Ahead(h.ptr[p], f, g)
    ensures p != f ==>
              if h.ptr[p] > p then |Above(h.nodes, h.ptr[p])| < |Above(h.nodes, p)| && (h.ptr[p] <= f <==> p <= f)
              else p > f && h.ptr[p] <= f
  {
    hide Apart;
    InList(base, h, p);
    NextAbove(base, h, p);
    InList(base, h, f);
    if g in h.nodes {
      AheadNext(base, h, p, f, g);
    }
    AheadNext(base, h, p, f, f);
  }

  /** No free block has n units. */
  ghost predicate NoneFits(h: Heap, n: nat) {
    forall b :: b in h.nodes ==> b in h.size && h.size[b] < n
  }

  /** Of the free blocks only those still ahead of p, on the way round to f, may have n units. */
  ghost predicate Searched(h: Heap, p: Addr, f: Addr, n: nat) {
    forall b :: b in h.nodes ==> b in h.size && (h.size[b] < n || Ahead(p, f, b))
  }

  lemma SearchBegun(base: Addr, h: Heap, f: Addr, n: nat)
    requires Good(base, h) && f in h.nodes
    ensures f in h.ptr && Searched(h, h.ptr[f], f, n)
  {
    hide Good, Ahead;
    Node(base, h, f, f, f);
    forall b | b in h.nodes ensures b in h.size && Ahead(h.ptr[f], f, b) {
      Node(base, h, f, f, b);
      Node(base, h, b, f, b);
    }
  }

  lemma SearchedMore(base: Addr, h: Heap, p: Addr, f: Addr, n: nat)
    requires Good(base, h) && p in h.nodes && f in h.nodes && Searched(h, p, f, n)
    requires p in h.size && h.size[p] < n
    ensures p in h.ptr
    ensures if p == f then NoneFits(h, n) else Searched(h, h.ptr[p], f, n)
  {
    hide Good, Ahead;
    Node(base, h, p, f, p);
    forall b | b in h.nodes ensures b in h.size && (h.size[b] < n || (p != f && Ahead(h.ptr[p], f, b))) {
      Node(base, h, p, f, b);
      Node(base, h, b, f, b);
    }
  }

  // Units that hold nbytes and a header.
  function Units(nbytes: nat): nat { (nbytes + 15) / 16 + 1 }

  /** What morecore()'s request of nu headers becomes as sbrk()'s int argument. */
  function SbrkArg(nu: nat): int {
    var x := nu * 16 % 0x1_0000_0000;
    if x < 0x8000_0000 then x else x - 0x1_0000_0000
  }

  // The headers that morecore() asks for.
  function Asked(nu: nat): nat { if nu < 4096 then 4096 else nu }

  /** sbrk() is asked for the bytes of nu headers exactly when those fit a positive int. */
  lemma SbrkArgExact(nu: nat)
    ensures SbrkArg(nu) == nu * 16 <==> nu * 16 < 0x8000_0000
  {}

  /** In terms of malloc()'s argument: up to 2^31 - 32 bytes; beyond that sbrk() may even be asked to shrink. */
  lemma LargestRequest(nbytes: nat)
    ensures SbrkArg(Asked(Units(nbytes))) == Asked(Units(nbytes)) * 16 <==> nbytes <= 0x7FFF_FFE0
    ensures SbrkArg(Asked(Units(0x7FFF_FFE1))) < 0
  {
    SbrkArgExact(Asked(Units(nbytes)));
  }

  class Allocator {
    const base: Addr
    var ptr: map<Addr, Addr>
    var size: map<Addr, nat>
    var freep: Addr                  // 0 before the first malloc()
    ghost var nodes: set<Addr>
    ghost var alloc: map<Addr, nat>
    ghost var home: map<Addr, Block>
    ghost var brk: Addr              // the end of the memory obtained so far

    ghost function Now(): Heap
      reads this
    {
      Heap(nodes, ptr, size, alloc, home)
    }

    ghost predicate Valid()
      reads this
    {
      && 0 < base < brk
      && (freep == 0 ==> alloc == map[] && home == map[])
      && (freep != 0 ==> Good(base, Now()) && freep in nodes && Under(base, nodes, home, brk))
    }

    constructor (base: Addr, brk: Addr)
      requires 0 < base < brk
      ensures Valid() && this.base == base && alloc == map[] && home == map[]
    {
      this.base, this.brk := base, brk;
      ptr, size, freep := map[], map[], 0;
      nodes, alloc, home := {}, map[], map[];
    }

    /** The node that a block at bp goes after. */
    method FindPlace(bp: Addr) returns (p: Addr)
      requires Good(base, Now()) && freep in nodes && base < bp && bp !in nodes
      ensures Belongs(nodes, ptr, p, bp)
    {
      hide Linked, Apart;
      p := freep;
      InList(base, Now(), p);
      NextAbove(base, Now(), p);
      while !(bp > p && bp < ptr[p])
        invariant p in nodes && p in ptr && ptr[p] in nodes
        invariant if ptr[p] > p then |Above(nodes, ptr[p])| < |Above(nodes, p)| else ptr[p] == base
        decreases if p < bp then 0 else 1, |Above(nodes, p)|
      {
        if p >= ptr[p] && (bp > p || bp < ptr[p]) {
          break;
        }
        p := ptr[p];
        InList(base, Now(), p);
        NextAbove(base, Now(), p);
      }
    }

    /** Links bp in after p and joins it to the blocks it touches. */
    method Link(p: Addr, bp: Addr)
      requires p in ptr && bp in size && p in size && ptr[p] in size && ptr[p] in ptr && p < bp && ptr[p] != bp
      modifies `ptr, `size
      ensures ptr == AfterFree(old(Now()), p, bp).ptr && size == AfterFree(old(Now()), p, bp).size
    {
      if bp + size[bp] == ptr[p] {
        size := size[bp := size[bp] + size[ptr[p]]];
        ptr := ptr[bp := ptr[ptr[p]]];
      } else {
        ptr := ptr[bp := ptr[p]];
      }
      if p + size[p] == bp {
        size := size[p := size[p] + size[bp]];
        ptr := ptr[p := ptr[bp]];
      } else {
        ptr := ptr[p := bp];
      }
    }

    /** free(): the block goes back into the list; every unit is still accounted for. */
    method Free(ap: Addr)
      requires Valid() && freep != 0 && 0 < ap && ap - 1 in alloc
      modifies `ptr, `size, `freep, `nodes, `alloc, `home
      ensures Valid() && freep != 0 && alloc == old(alloc) - {ap - 1} && home.Keys == old(home.Keys)
      ensures exists g :: g in nodes && g in size && size[g] >= old(alloc)[ap - 1]
    {
      hide Linked, Apart, Under, AfterFree;
      var bp := ap - 1;
      AllocAbove(base, Now(), brk, bp);
      var p := FindPlace(bp);
      InList(base, Now(), p);
      FreeGood(base, Now(), p, bp);
      FreedUnder(base, Now(), brk, p, bp);
      ghost var after := AfterFree(Now(), p, bp);
      ghost var g := if p + size[p] == bp then p else bp;
      assert after.size[g] >= alloc[bp];
      Link(p, bp);
      freep := p;
      nodes, alloc, home := after.nodes, after.alloc, after.home;
      assert Now() == after;
    }

    /**
     Gets nu units or more from sbrk() and frees them into the list; 0 if sbrk() fails.
     more is where sbrk() would put them, at or above the break.
     */
    method Morecore(nu: nat, more: Option<Addr>) returns (p: Addr)
      requires Valid() && freep != 0 && 0 < nu && nu * 16 < 0x8000_0000 && (more.Some? ==> brk <= more.value)
      modifies this
      ensures Valid() && freep != 0 && alloc == old(alloc)
      ensures more == None ==> p == 0 && Now() == old(Now())
      ensures more.Some? ==> p == freep && home.Keys == old(home.Keys) + NewUnits(more.value, Asked(nu)).Keys
      ensures more.Some? ==> exists g :: g in nodes && g in size && size[g] >= nu
    {
      hide Good, Under;
      var nu' := Asked(nu);
      if more == None {
        return 0;
      }
      var hp := more.value;
      Fresh(base, Now(), brk, hp, nu');
      size := size[hp := nu'];
      alloc, home, brk := alloc[hp := nu'], home + NewUnits(hp, nu'), hp + nu';
      assert alloc - {hp} == old(alloc);
      Free(hp + 1);
      p := freep;
    }

    /** Allocates n units from node p, whose predecessor is prevp. */
    method Take(prevp: Addr, p: Addr, n: nat) returns (q: Addr)
      requires Valid() && freep != 0 && prevp in nodes && prevp in ptr && ptr[prevp] == p && p in size && p in ptr
               && 0 < n <= size[p]
      modifies this
      ensures Valid() && freep == prevp != 0 && q !in old(alloc) && base < q && alloc == old(alloc)[q := n]
              && home.Keys == old(home.Keys)
    {
      hide Linked, Apart, Under;
      InList(base, Now(), prevp);
      TakeGood(base, Now(), brk, prevp, n);
      q := p;
      if size[p] == n {
        ptr := ptr[prevp := ptr[p]];
        nodes := nodes - {p};
        home := Moved(home, p, p + size[p], Used(p));
      } else {
        size := size[p := size[p] - n];
        q := p + size[p];
        size := size[q := n];
        home := Moved(home, q, q + n, Used(q));
      }
      alloc := alloc[q := n];
      freep := prevp;
      assert Now() == AfterTake(old(Now()), prevp, n);
    }

    /** malloc()'s first call makes base the only node. */
    method Start()
      requires Valid() && freep == 0
      modifies `ptr, `size, `freep, `nodes
      ensures Valid() && freep == base
    {
      ptr, freep := ptr[base := base], base;
      size := size[base := 0];
      nodes := {base};
      EmptyGood(base, ptr, size);
    }

    /**
     A block of the units asked for, disjoint from every other, or 0 when there is none and sbrk() fails.
     Memory is obtained only when no free block is large enough, and then one region of it.
     */
    method Malloc(nbytes: nat, more: Option<Addr>) returns (r: Addr)
      requires Valid() && Units(nbytes) * 16 < 0x8000_0000 && (more.Some? ==> brk <= more.value)
      modifies this
      ensures Valid() && freep != 0
      ensures r == 0 ==> more == None && alloc == old(alloc) && home.Keys == old(home.Keys)
      ensures r == 0 ==> NoneFits(Now(), Units(nbytes))
      ensures r != 0 ==> r - 1 !in old(alloc) && alloc == old(alloc)[r - 1 := Units(nbytes)]
      ensures home.Keys != old(home.Keys) ==>
                && more.Some? && home.Keys == old(home.Keys) + NewUnits(more.value, Asked(Units(nbytes))).Keys
                && (old(freep) == 0 || old(NoneFits(Now(), Units(nbytes))))
    {
      hide Good, Under, Ahead, Above, Searched, NoneFits;
      var nunits := Units(nbytes);
      if freep == 0 {
        Start();
      }
      ghost var start := Now();
      var prevp := freep;
      SearchBegun(base, Now(), freep, nunits);
      Node(base, Now(), prevp, freep, prevp);
      var p := ptr[prevp];
      ghost var called: bool, g: Addr := false, p;
      while true
        invariant Valid() && freep != 0 && prevp in nodes && prevp in ptr && ptr[prevp] == p && p in nodes
        invariant alloc == old(alloc)
        invariant !called ==> home.Keys == old(home.Keys) && brk == old(brk)
        invariant !called ==> Now() == start && Searched(start, p, freep, nunits)
        invariant called ==> more.Some? && home.Keys == old(home.Keys) + NewUnits(more.value, Asked(nunits)).Keys
        invariant called ==> NoneFits(start, nunits)
        invariant called ==> g in nodes && g in size && size[g] >= nunits && Ahead(p, freep, g)
        decreases if called then 0 else 1, if p <= freep then 0 else 1, |Above(nodes, p)|
      {
        Node(base, Now(), p, freep, g);
        if size[p] >= nunits {
          var q := Take(prevp, p, nunits);
          return q + 1;
        }
        if !called {
          SearchedMore(base, Now(), p, freep, nunits);
        }
        if p == freep {
          p := Morecore(nunits, more);
          if p == 0 {
            return 0;
          }
          called := true;
          g :| g in nodes && g in size && size[g] >= nunits;
          Node(base, Now(), p, freep, g);
        }
        prevp := p;
        p := ptr[p];
      }
    }
  }
}
