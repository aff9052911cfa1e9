/**
 The buffer cache of kernel/bio.c: NBUF buffers on a circular doubly linked list
 through a head, most recently released first.  Entry `n` of the array is
 bcache.head.
 */
module Bcache {
  import opened Bytes
  import opened Common
  import opened LogDisk

  datatype Buf = Buf(dev: nat, blockno: nat, refcnt: nat, valid: bool, data: Block, prev: nat, next: nat)

  // ---- The list ----

  /**
   r walks the list once around from the head back to the head, and the prev and next
   links of the entries on it agree with it.
   */
  ghost predicate Ring(s: seq<Buf>, r: seq<nat>) {
    && |r| >= 2 && r[0] == r[|r| - 1]
    && NoDup(r[..|r| - 1])
    && (forall i :: 0 <= i < |r| ==> r[i] < |s|)
    && (forall i :: 0 <= i < |r| - 1 ==> s[r[i]].next == r[i + 1])
    && (forall i :: 0 <= i < |r| - 1 ==> s[r[i + 1]].prev == r[i])
  }

  lemma RingDistinct(s: seq<Buf>, r: seq<nat>, i: nat, j: nat)
    requires Ring(s, r) && i < |r| - 1 && j < |r| - 1 && i != j
    ensures r[i] != r[j]
  {
    assert r[..|r| - 1][i] != r[..|r| - 1][j];
  }

  /** The two differ in list links only. */
  ghost predicate SameButLinks(s: seq<Buf>, t: seq<Buf>) {
    |s| == |t| && forall i :: 0 <= i < |s| ==>
      && t[i].dev == s[i].dev && t[i].blockno == s[i].blockno && t[i].refcnt == s[i].refcnt
      && t[i].valid == s[i].valid && t[i].data == s[i].data
  }

  /** b->next->prev = b->prev; b->prev->next = b->next; */
  function Unlinked(s: seq<Buf>, b: nat): (t: seq<Buf>)
    requires b < |s| && s[b].next < |s| && s[b].prev < |s|
    ensures SameButLinks(s, t)
  {
    var t := s[s[b].next := s[s[b].next].(prev := s[b].prev)];
    t[t[b].prev := t[t[b].prev].(next := t[b].next)]
  }

  /** b->next = head.next; b->prev = &head; head.next->prev = b; head.next = b; */
  function Pushed(s: seq<Buf>, head: nat, b: nat): (t: seq<Buf>)
    requires b < |s| && head < |s| && s[head].next < |s| && b != head
    ensures SameButLinks(s, t)
  {
    var t := s[b := s[b].(next := s[head].next, prev := head)];
    var f := t[head].next;
    var u := t[f := t[f].(prev := b)];
    u[head := u[head].(next := b)]
  }

  lemma UnlinkedAt(s: seq<Buf>, b: nat, x: nat)
    requires b < |s| && s[b].next < |s| && s[b].prev < |s| && s[b].next != b && s[b].prev != b && x < |s|
    ensures Unlinked(s, b)[x].next == if x == s[b].prev then s[b].next else s[x].next
    ensures Unlinked(s, b)[x].prev == if x == s[b].next then s[b].prev else s[x].prev
  {}

  /** The list without its k-th entry has no entry twice. */
  lemma RingWithout(s: seq<Buf>, r: seq<nat>, k: nat)
    requires Ring(s, r) && 0 < k < |r| - 1
    ensures var q := r[..k] + r[k + 1..];
            |q| == |r| - 1 >= 2 && q[0] == q[|q| - 1] && NoDup(q[..|q| - 1]) && r[k] !in q
  {
    var q := r[..k] + r[k + 1..];
    forall i, j | 0 <= i < j < |q| - 1 ensures q[i] != q[j] {
      RingDistinct(s, r, if i < k then i else i + 1, if j < k then j else j + 1);
    }
    forall i | 0 <= i < |q| ensures q[i] != r[k] {
      if i < |q| - 1 {
        RingDistinct(s, r, if i < k then i else i + 1, k);
      } else {
        RingDistinct(s, r, 0, k);
      }
    }
  }

  lemma UnlinkRing(s: seq<Buf>, r: seq<nat>, k: nat)
    requires Ring(s, r) && 0 < k < |r| - 1
    ensures s[r[k]].next < |s| && s[r[k]].prev < |s|
    ensures Ring(Unlinked(s, r[k]), r[..k] + r[k + 1..]) && r[k] !in r[..k] + r[k + 1..]
  {
    RingWithout(s, r, k);
    assert s[r[k]].next == r[k + 1] && s[r[k - 1 + 1]].prev == r[k - 1];
    var t, q := Unlinked(s, r[k]), r[..k] + r[k + 1..];
    RingDistinct(s, r, k - 1, k);
    assert r[k + 1] != r[k] by { RingDistinct(s, r, if k + 1 == |r| - 1 then 0 else k + 1, k); }
    forall i | 0 <= i < |q| - 1 ensures t[q[i]].next == q[i + 1] && t[q[i + 1]].prev == q[i] {
      UnlinkedAt(s, r[k], q[i]);
      UnlinkedAt(s, r[k], q[i + 1]);
      var o := if i < k then i else i + 1;
      if o != k - 1 {
        RingDistinct(s, r, o, k - 1);
        assert s[r[o]].next == r[o + 1] && s[r[o + 1]].prev == r[o];
        assert r[o + 1] != r[k + 1] by {
          if o + 1 == |r| - 1 {
            RingDistinct(s, r, 0, k + 1);
          } else if k + 1 == |r| - 1 {
            RingDistinct(s, r, o + 1, 0);
          } else {
            RingDistinct(s, r, o + 1, k + 1);
          }
        }
      }
    }
  }

  lemma PushRing(s: seq<Buf>, r: seq<nat>, b: nat)
    requires Ring(s, r) && b < |s| && b !in r
    ensures s[r[0]].next < |s| && Ring(Pushed(s, r[0], b), [r[0], b] + r[1..])
  {
    assert s[r[0]].next == r[1];
    var q := [r[0], b] + r[1..];
    forall i, j | 0 <= i < j < |q| - 1 ensures q[i] != q[j] {
      if i != 1 && j != 1 {
        RingDistinct(s, r, if i < 1 then i else i - 1, if j < 1 then j else j - 1);
      }
    }
    assert NoDup(q[..|q| - 1]);
  }

  /** A write to a buffer that leaves its links alone leaves the list alone. */
  lemma RingKept(s: seq<Buf>, r: seq<nat>, b: nat, x: Buf)
    requires Ring(s, r) && b < |s| && x.next == s[b].next && x.prev == s[b].prev
    ensures Ring(s[b := x], r)
  {}

  /** The list order after b is unlinked and pushed at the front. */
  ghost function ToFront(order: seq<nat>, b: nat): seq<nat>
    requires b in order
  {
    var k := Find(order, b);
    [b] + order[..k] + order[k + 1..]
  }

  lemma PushWalk(s: seq<Buf>, head: nat, order: seq<nat>, b: nat)
    requires Ring(s, [head] + order + [head]) && b < |s| && b !in order && b != head
    ensures head < |s| && s[head].next < |s| && Ring(Pushed(s, head, b), [head] + ([b] + order) + [head])
  {
    var r := [head] + order + [head];
    PushRing(s, r, b);
    assert [head, b] + r[1..] == [head] + ([b] + order) + [head];
  }

  lemma WalkToFront(head: nat, order: seq<nat>, b: nat)
    requires b in order
    ensures var r, k := [head] + order + [head], Find(order, b) + 1;
            r[k] == b && [head, b] + (r[..k] + r[k + 1..])[1..] == [head] + ToFront(order, b) + [head]
  {
    hide NoDup;
    var r, k := [head] + order + [head], Find(order, b) + 1;
    assert r[..k] == [head] + order[..k - 1];
    assert r[k + 1..] == order[k..] + [head];
    assert (r[..k] + r[k + 1..])[1..] == order[..k - 1] + order[k..] + [head];
  }

  /** brelse()'s unlink and push, on the whole list. */
  lemma FrontRing(s: seq<Buf>, head: nat, order: seq<nat>, b: nat)
    requires Ring(s, [head] + order + [head]) && b in order
    ensures b != head && b < |s| && s[b].next < |s| && s[b].prev < |s| && s[b].next != b && head < |s|
    ensures Unlinked(s, b)[head].next < |s|
    ensures Ring(Pushed(Unlinked(s, b), head, b), [head] + ToFront(order, b) + [head])
  {
    var r, k := [head] + order + [head], Find(order, b) + 1;
    WalkToFront(head, order, b);
    RingDistinct(s, r, 0, k);
    assert s[r[k]].next == r[k + 1];
    RingDistinct(s, r, if k + 1 == |r| - 1 then 0 else k + 1, k);
    UnlinkRing(s, r, k);
    PushRing(Unlinked(s, b), r[..k] + r[k + 1..], b);
  }

  lemma FrontSame(s: seq<Buf>, head: nat, b: nat)
    requires b < |s| && s[b].next < |s| && s[b].prev < |s| && head < |s| && b != head && Unlinked(s, b)[head].next < |s|
    ensures SameButLinks(s, Pushed(Unlinked(s, b), head, b))
  {}

  // ---- The cache ----

  predicate Holds(b: Buf, dev: nat, blockno: nat) {
    b.dev == dev && b.blockno == blockno
  }

  /** No two buffers are for the same block of a device. */
  ghost predicate Unique(s: seq<Buf>) {
    forall i, j :: 0 <= i < j < |s| - 1 ==> s[i].dev != 0 ==> !Holds(s[j], s[i].dev, s[i].blockno)
  }

  /** What bread() returns for a block: its buffer if that has been read, else the disk. */
  ghost function Logical(s: seq<Buf>, disk: map<(nat, nat), Block>, dev: nat, blockno: nat): Block
    requires (dev, blockno) in disk
  {
    if exists i :: 0 <= i < |s| - 1 && s[i].valid && Holds(s[i], dev, blockno)
    then var i :| 0 <= i < |s| - 1 && s[i].valid && Holds(s[i], dev, blockno); s[i].data
    else disk[(dev, blockno)]
  }

  lemma UniqueKept(s: seq<Buf>, b: nat, x: Buf)
    requires Unique(s) && b < |s| - 1
    requires forall i :: 0 <= i < |s| - 1 && i != b ==> x.dev != 0 ==> !Holds(s[i], x.dev, x.blockno)
    ensures Unique(s[b := x])
  {}

  /** The buffer that decides a block's contents. */
  lemma LogicalHit(s: seq<Buf>, disk: map<(nat, nat), Block>, i: nat)
    requires Unique(s) && i < |s| - 1 && s[i].valid && s[i].dev != 0 && (s[i].dev, s[i].blockno) in disk
    ensures Logical(s, disk, s[i].dev, s[i].blockno) == s[i].data
  {
    forall j | 0 <= j < |s| - 1 && Holds(s[j], s[i].dev, s[i].blockno) ensures j == i {}
  }

  /** Writing a buffer back to the disk changes no block. */
  lemma LogicalWritten(s: seq<Buf>, disk: map<(nat, nat), Block>, b: nat)
    requires Unique(s) && b < |s| - 1 && s[b].valid && s[b].dev != 0
    ensures forall dev, blockno :: (dev, blockno) in disk ==>
              Logical(s, disk[(s[b].dev, s[b].blockno) := s[b].data], dev, blockno) == Logical(s, disk, dev, blockno)
  {
    var disk' := disk[(s[b].dev, s[b].blockno) := s[b].data];
    forall dev, blockno | (dev, blockno) in disk
      ensures Logical(s, disk', dev, blockno) == Logical(s, disk, dev, blockno)
    {
      if (dev, blockno) == (s[b].dev, s[b].blockno) {
        LogicalHit(s, disk, b);
        LogicalHit(s, disk', b);
      }
    }
  }

  /** An unreferenced buffer agrees with the disk. */
  ghost predicate Clean(s: seq<Buf>, disk: map<(nat, nat), Block>) {
    forall i :: 0 <= i < |s| - 1 && s[i].refcnt == 0 && s[i].valid ==>
      (s[i].dev, s[i].blockno) in disk && s[i].data == disk[(s[i].dev, s[i].blockno)]
  }

  /** Every block of every device reads the same in both. */
  ghost predicate SameBlocks(s: seq<Buf>, t: seq<Buf>, disk: map<(nat, nat), Block>) {
    forall k | k in disk && k.0 != 0 :: Logical(t, disk, k.0, k.1) == Logical(s, disk, k.0, k.1)
  }

  lemma SameSelf(s: seq<Buf>, disk: map<(nat, nat), Block>)
    ensures SameBlocks(s, s, disk)
  {}

  /** Changing a buffer's links or count changes no block. */
  lemma SameContents(s: seq<Buf>, t: seq<Buf>, disk: map<(nat, nat), Block>)
    requires |s| == |t| && Unique(s) && Unique(t)
    requires forall i :: 0 <= i < |s| - 1 ==>
               && t[i].valid == s[i].valid && t[i].dev == s[i].dev && t[i].blockno == s[i].blockno
               && t[i].data == s[i].data
    ensures SameBlocks(s, t, disk)
  {
    forall k | k in disk && k.0 != 0 ensures Logical(t, disk, k.0, k.1) == Logical(s, disk, k.0, k.1) {
      if i :| 0 <= i < |s| - 1 && s[i].valid && Holds(s[i], k.0, k.1) {
        LogicalHit(s, disk, i);
        LogicalHit(t, disk, i);
      } else {
        assert forall i :: 0 <= i < |t| - 1 && t[i].valid ==> !Holds(t[i], k.0, k.1);
      }
    }
  }

  /** Reusing a clean buffer for a block that has none, or reading a block in, changes no block. */
  lemma RecycleContents(s: seq<Buf>, b: nat, x: Buf, disk: map<(nat, nat), Block>)
    requires b < |s| - 1 && Unique(s) && Unique(s[b := x])
    requires s[b].valid ==> (s[b].dev, s[b].blockno) in disk && s[b].data == disk[(s[b].dev, s[b].blockno)]
    requires x.valid ==> (x.dev, x.blockno) in disk && x.data == disk[(x.dev, x.blockno)]
    requires forall i :: 0 <= i < |s| - 1 && i != b && s[i].valid ==> !Holds(s[i], x.dev, x.blockno)
    ensures SameBlocks(s, s[b := x], disk)
  {
    var t := s[b := x];
    forall k | k in disk && k.0 != 0 ensures Logical(t, disk, k.0, k.1) == Logical(s, disk, k.0, k.1) {
      if i :| 0 <= i < |s| - 1 && i != b && s[i].valid && Holds(s[i], k.0, k.1) {
        LogicalHit(s, disk, i);
        LogicalHit(t, disk, i);
      } else {
        if s[b].valid && Holds(s[b], k.0, k.1) { LogicalHit(s, disk, b); }
        if x.valid && Holds(x, k.0, k.1) { LogicalHit(t, disk, b); }
        assert forall i :: 0 <= i < |t| - 1 && i != b && t[i].valid ==> !Holds(t[i], k.0, k.1);
        assert forall i :: 0 <= i < |s| - 1 && i != b && s[i].valid ==> !Holds(s[i], k.0, k.1);
      }
    }
  }

  /** Every buffer is listed, and the list is sorted by how recently each was put at the front. */
  ghost predicate Sorted(n: nat, order: seq<nat>, stamp: seq<nat>, clock: nat) {
    && |order| == n && |stamp| == n
    && (forall i :: 0 <= i < n ==> order[i] < n)
    && (forall b :: 0 <= b < n ==> b in order)
    && (forall b :: 0 <= b < n ==> stamp[b] <= clock)
    && (forall i, j :: 0 <= i < j < n ==> stamp[order[i]] > stamp[order[j]])
  }

  lemma ToFrontMember(order: seq<nat>, b: nat, c: nat)
    requires b in order && c in order
    ensures c in ToFront(order, b)
  {
    var k, i, o := Find(order, b), Find(order, c), ToFront(order, b);
    if i < k { assert o[i + 1] == c; } else if i > k { assert o[i] == c; } else { assert o[0] == c; }
  }

  lemma SortedDistinct(n: nat, order: seq<nat>, stamp: seq<nat>, clock: nat, i: nat, k: nat)
    requires Sorted(n, order, stamp, clock) && i < n && k < n && i != k
    ensures order[i] != order[k]
  {
    assert stamp[order[if i < k then i else k]] > stamp[order[if i < k then k else i]];
  }

  /** Where the i-th entry of the new order stood in the old one. */
  lemma ToFrontAt(order: seq<nat>, b: nat, i: nat)
    requires b in order && 0 < i < |order|
    ensures var k := Find(order, b);
            |ToFront(order, b)| == |order| && ToFront(order, b)[i] == order[if i <= k then i - 1 else i]
  {}

  lemma SortedToFront(n: nat, order: seq<nat>, stamp: seq<nat>, clock: nat, b: nat)
    requires Sorted(n, order, stamp, clock) && b < n
    ensures b in order && |stamp| == n && Sorted(n, ToFront(order, b), stamp[b := clock + 1], clock + 1)
  {
    var k := Find(order, b);
    var o, t := ToFront(order, b), stamp[b := clock + 1];
    forall c | 0 <= c < n ensures c in o { ToFrontMember(order, b, c); }
    forall i, j | 0 <= i < j < n ensures t[o[i]] > t[o[j]] {
      ToFrontAt(order, b, j);
      var j' := if j <= k then j - 1 else j;
      SortedDistinct(n, order, stamp, clock, j', k);
      if i > 0 {
        ToFrontAt(order, b, i);
        var i' := if i <= k then i - 1 else i;
        SortedDistinct(n, order, stamp, clock, i', k);
        assert stamp[order[i']] > stamp[order[j']];
      }
    }
    forall i | 0 <= i < n ensures o[i] < n {
      if i > 0 { ToFrontAt(order, b, i); }
    }
  }

  /** binit()'s list: the last buffer pushed is first. */
  ghost function Down(b: nat): (o: seq<nat>)
    ensures |o| == b && forall i :: 0 <= i < b ==> o[i] == b - 1 - i
  {
    if b == 0 then [] else [b - 1] + Down(b - 1)
  }

  lemma DownSorted(n: nat, stamp: seq<nat>)
    requires |stamp| == n && forall i :: 0 <= i < n ==> stamp[i] == i + 1
    ensures Sorted(n, Down(n), stamp, n)
  {
    forall c | 0 <= c < n ensures c in Down(n) {
      assert Down(n)[n - 1 - c] == c;
    }
  }

  /** What binit() leaves of static zeroed memory: no buffer in use, all for block 0 of device 0. */
  ghost predicate Unused(s: seq<Buf>) {
    forall i :: 0 <= i < |s| - 1 ==> s[i].refcnt == 0 && !s[i].valid && Holds(s[i], 0, 0)
  }

  lemma UnusedKept(s: seq<Buf>, t: seq<Buf>)
    requires SameButLinks(s, t) && Unused(s)
    ensures Unused(t)
  {}

  lemma LinksKeep(s: seq<Buf>, t: seq<Buf>, disk: map<(nat, nat), Block>)
    requires SameButLinks(s, t) && Unique(s) && Clean(s, disk)
    ensures Unique(t) && Clean(t, disk)
  {}

  class Cache {
    const n: nat                      // NBUF
    const buf: array<Buf>             // bcache.buf, then bcache.head
    var disk: map<(nat, nat), Block>
    ghost var order: seq<nat>         // the buffers in list order
    ghost var stamp: seq<nat>         // when each buffer was last put at the front
    ghost var clock: nat

    ghost function Walk(): seq<nat>
      reads this
    {
      [n] + order + [n]
    }

    ghost predicate Valid()
      reads this, buf
    {
      buf.Length == n + 1 && Sorted(n, order, stamp, clock) && Ring(buf[..], Walk()) && Unique(buf[..])
        && Clean(buf[..], disk)
    }

    /** The unreferenced buffer longest away from the front of the list. */
    ghost predicate LeastRecent(b: nat)
      reads this, buf
      requires buf.Length == n + 1 && |stamp| == n
    {
      b < n && buf[b].refcnt == 0 && forall c :: 0 <= c < n && buf[c].refcnt == 0 ==> stamp[b] <= stamp[c]
    }

    /** Write a buffer, keeping its place in the list. */
    method Store(b: nat, x: Buf)
      requires Valid() && b < n && x.next == buf[b].next && x.prev == buf[b].prev
      requires forall i :: 0 <= i < n && i != b ==> x.dev != 0 ==> !Holds(buf[i], x.dev, x.blockno)
      requires x.refcnt == 0 && x.valid ==> (x.dev, x.blockno) in disk && x.data == disk[(x.dev, x.blockno)]
      modifies buf
      ensures Valid() && buf[..] == old(buf[..])[b := x]
    {
      ghost var s := buf[..];
      RingKept(s, Walk(), b, x);
      UniqueKept(s, b, x);
      buf[b] := x;
      assert buf[..] == s[b := x];
    }

    /** First loop of bget(): walk forward looking for the block. */
    method Lookup(dev: nat, blockno: nat) returns (b: nat)
      requires Valid()
      ensures b <= n
      ensures b < n ==> Holds(buf[b], dev, blockno)
      ensures b == n ==> forall i :: 0 <= i < n ==> !Holds(buf[i], dev, blockno)
    {
      ghost var k := 1;
      b := buf[n].next;
      assert Walk()[0] == n;
      while b != n && !Holds(buf[b], dev, blockno)
        invariant 1 <= k <= n + 1 && b == Walk()[k]
        invariant forall i :: 0 <= i < k - 1 ==> !Holds(buf[order[i]], dev, blockno)
        decreases n + 1 - k
      {
        b := buf[b].next;
        k := k + 1;
      }
      if b == n {
        assert k == n + 1;
        forall c | 0 <= c < n ensures !Holds(buf[c], dev, blockno) {
          var i := Find(order, c);
          assert order[i] == c;
        }
      }
    }

    /** Second loop of bget(): walk backward to the first unreferenced buffer. */
    method Victim() returns (b: nat)
      requires Valid()
      ensures b <= n
      ensures b < n ==> LeastRecent(b)
      ensures b == n ==> forall i :: 0 <= i < n ==> buf[i].refcnt > 0
    {
      ghost var k := n;
      assert Walk()[n + 1] == n;
      b := buf[n].prev;
      while b != n && buf[b].refcnt != 0
        invariant 0 <= k <= n && b == Walk()[k]
        invariant forall i :: k <= i < n ==> buf[order[i]].refcnt > 0
        decreases k
      {
        assert Walk()[k - 1 + 1] == b;
        b := buf[b].prev;
        k := k - 1;
      }
      forall c | 0 <= c < n && buf[c].refcnt == 0 ensures b < n && stamp[b] <= stamp[c] {
        var i := Find(order, c);
        assert order[i] == c && i < k && b == order[k - 1];
      }
    }

    /** bget() of a cached block. */
    method Refer(b: nat)
      requires Valid() && b < n
      modifies buf
      ensures Valid() && buf[..] == old(buf[..])[b := old(buf[b]).(refcnt := old(buf[b]).refcnt + 1)]
      ensures SameBlocks(old(buf[..]), buf[..], disk)
    {
      ghost var s := buf[..];
      Store(b, buf[b].(refcnt := buf[b].refcnt + 1));
      SameContents(s, buf[..], disk);
    }

    /** bget() of a block that has no buffer, given an unreferenced one. */
    method Recycle(b: nat, dev: nat, blockno: nat)
      requires Valid() && b < n && buf[b].refcnt == 0
      requires forall i :: 0 <= i < n ==> !Holds(buf[i], dev, blockno)
      modifies buf
      ensures Valid()
      ensures buf[..] == old(buf[..])[b := old(buf[b]).(dev := dev, blockno := blockno, valid := false, refcnt := 1)]
      ensures SameBlocks(old(buf[..]), buf[..], disk)
    {
      ghost var s := buf[..];
      Store(b, buf[b].(dev := dev, blockno := blockno, valid := false, refcnt := 1));
      RecycleContents(s, b, buf[b], disk);
    }

    /**
     bget(): the block's buffer if it has one, else the least recently released unreferenced one; n
     if none is left.
     */
    method BGet(dev: nat, blockno: nat) returns (b: nat)
      requires Valid() && dev != 0
      modifies buf
      ensures Valid() && b <= n
      ensures (exists i :: 0 <= i < n && Holds(old(buf[i]), dev, blockno)) ==>
                b < n && Holds(old(buf[b]), dev, blockno) &&
                buf[..] == old(buf[..])[b := old(buf[b]).(refcnt := old(buf[b]).refcnt + 1)]
      ensures (forall i :: 0 <= i < n ==> !Holds(old(buf[i]), dev, blockno)) ==>
                if b < n then
                  var was := old(buf[b]);
                  old(LeastRecent(b)) &&
                  buf[..] == old(buf[..])[b := was.(dev := dev, blockno := blockno, valid := false, refcnt := 1)]
                else
                  buf[..] == old(buf[..]) && forall i :: 0 <= i < n ==> buf[i].refcnt > 0
      ensures b < n ==> Holds(buf[b], dev, blockno) && buf[b].refcnt > 0
      ensures SameBlocks(old(buf[..]), buf[..], disk)
    {
      hide Ring, Unique, Clean, Sorted, SameBlocks;
      b := Lookup(dev, blockno);
      if b < n {
        Refer(b);
      } else {
        SameSelf(buf[..], disk);
        b := Victim();
        if b < n {
          Recycle(b, dev, blockno);
        }
      }
    }

    /** bread(): a referenced buffer holding the block's current contents. */
    method BRead(dev: nat, blockno: nat) returns (b: nat)
      requires Valid() && dev != 0 && (dev, blockno) in disk
      modifies buf
      ensures Valid() && b <= n
      ensures b == n ==> buf[..] == old(buf[..])
      ensures b < n ==> Holds(buf[b], dev, blockno) && buf[b].refcnt > 0 && buf[b].valid
      ensures b < n ==> buf[b].data == old(Logical(buf[..], disk, dev, blockno))
      ensures SameBlocks(old(buf[..]), buf[..], disk)
    {
      b := BGet(dev, blockno);
      if b == n {
        assert buf[..] == old(buf[..]);
        return;
      }
      ghost var s := buf[..];
      if !buf[b].valid {
        Store(b, buf[b].(data := disk[(dev, blockno)], valid := true));
        RecycleContents(s, b, buf[b], disk);
      }
      LogicalHit(buf[..], disk, b);
    }

    /** A caller holding the buffer changes its contents. */
    method Modify(b: nat, x: Block)
      requires Valid() && b < n && buf[b].refcnt > 0 && buf[b].valid
      modifies buf
      ensures Valid() && buf[..] == old(buf[..])[b := old(buf[b]).(data := x)]
    {
      Store(b, buf[b].(data := x));
    }

    /** bwrite(): the buffer's contents reach the disk; no block reads differently for it. */
    method BWrite(b: nat)
      requires Valid() && b < n && buf[b].refcnt > 0 && buf[b].valid && buf[b].dev != 0
      modifies this`disk
      ensures Valid() && disk == old(disk)[(buf[b].dev, buf[b].blockno) := buf[b].data]
      ensures forall dev, blockno :: (dev, blockno) in old(disk) ==>
                Logical(buf[..], disk, dev, blockno) == old(Logical(buf[..], disk, dev, blockno))
    {
      LogicalWritten(buf[..], disk, b);
      disk := disk[(buf[b].dev, buf[b].blockno) := buf[b].data];
    }

    method BPin(b: nat)
      requires Valid() && b < n
      modifies buf
      ensures Valid() && buf[..] == old(buf[..])[b := old(buf[b]).(refcnt := old(buf[b]).refcnt + 1)]
    {
      Store(b, buf[b].(refcnt := buf[b].refcnt + 1));
    }

    /** bunpin(): a buffer may lose its last reference only when the disk has its contents. */
    method BUnpin(b: nat)
      requires Valid() && b < n && buf[b].refcnt > 0
      requires buf[b].refcnt == 1 && buf[b].valid ==>
                 (buf[b].dev, buf[b].blockno) in disk && buf[b].data == disk[(buf[b].dev, buf[b].blockno)]
      modifies buf
      ensures Valid() && buf[..] == old(buf[..])[b := old(buf[b]).(refcnt := old(buf[b]).refcnt - 1)]
    {
      Store(b, buf[b].(refcnt := buf[b].refcnt - 1));
    }

    method Unlink(b: nat)
      requires buf.Length == n + 1 && b < n && buf[b].next <= n && buf[b].prev <= n && buf[b].next != b
      modifies buf
      ensures buf[..] == Unlinked(old(buf[..]), b)
    {
      buf[buf[b].next] := buf[buf[b].next].(prev := buf[b].prev);
      buf[buf[b].prev] := buf[buf[b].prev].(next := buf[b].next);
    }

    method Push(b: nat)
      requires buf.Length == n + 1 && b < n && buf[n].next <= n
      modifies buf
      ensures buf[..] == Pushed(old(buf[..]), n, b)
    {
      buf[b] := buf[b].(next := buf[n].next);
      buf[b] := buf[b].(prev := n);
      buf[buf[n].next] := buf[buf[n].next].(prev := b);
      buf[n] := buf[n].(next := b);
    }

    /** The list surgery of brelse(): unlink a buffer and push it at the front. */
    method MoveToFront(b: nat)
      requires Valid() && b < n
      modifies buf, this`order, this`stamp, this`clock
      ensures Valid() && SameButLinks(old(buf[..]), buf[..])
      ensures b in old(order) && order == ToFront(old(order), b)
      ensures clock == old(clock) + 1 && stamp == old(stamp)[b := clock]
    {
      hide Ring, Unique, Clean, Sorted, Unlinked, Pushed, ToFront, SameButLinks;
      ghost var s := buf[..];
      SortedToFront(n, order, stamp, clock, b);
      FrontRing(s, n, order, b);
      FrontSame(s, n, b);
      Unlink(b);
      Push(b);
      LinksKeep(s, buf[..], disk);
      clock := clock + 1;
      stamp := stamp[b := clock];
      order := ToFront(order, b);
    }

    /** brelse(): drop a reference; the last one puts the buffer at the front of the list. */
    method BRelse(b: nat)
      requires Valid() && b < n && buf[b].refcnt > 0
      requires buf[b].refcnt == 1 && buf[b].valid ==>
                 (buf[b].dev, buf[b].blockno) in disk && buf[b].data == disk[(buf[b].dev, buf[b].blockno)]
      modifies buf, this`order, this`stamp, this`clock
      ensures Valid()
      ensures SameButLinks(old(buf[..])[b := old(buf[b]).(refcnt := old(buf[b]).refcnt - 1)], buf[..])
      ensures if old(buf[b]).refcnt > 1 then order == old(order) && stamp == old(stamp) && clock == old(clock)
              else b in old(order) && order == ToFront(old(order), b)
                   && clock == old(clock) + 1 && stamp == old(stamp)[b := clock]
    {
      BUnpin(b);
      if buf[b].refcnt == 0 {
        MoveToFront(b);
      }
    }

    /** The loop of binit(): push every buffer, none in use, on the empty list. */
    method LinkAll()
      requires buf.Length == n + 1 && order == [] && buf[n].next == n && buf[n].prev == n
      requires Unused(buf[..])
      modifies buf, this`order
      ensures order == Down(n) && Ring(buf[..], Walk()) && Unused(buf[..])
    {
      for b := 0 to n
        invariant order == Down(b) && Ring(buf[..], Walk()) && Unused(buf[..])
      {
        ghost var s := buf[..];
        PushWalk(s, n, order, b);
        Push(b);
        UnusedKept(s, buf[..]);
        order := [b] + order;
      }
    }

    /** binit() */
    constructor (n: nat, disk: map<(nat, nat), Block>)
      ensures Valid() && this.n == n && this.disk == disk && fresh(buf) && order == Down(n)
      ensures Unused(buf[..])
    {
      this.n, this.disk := n, disk;
      buf := new Buf[n + 1](_ => Buf(0, 0, 0, false, ZERO, n, n));
      order, clock := [], n;
      stamp := seq(n, i => i + 1);
      new;
      LinkAll();
      DownSorted(n, stamp);
    }
  }
}
