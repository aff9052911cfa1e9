/**
 The virtio disk queue of kernel/virtio_disk.c: descriptors, the available and used
 rings with their 16-bit indices (section 2.6 of VIRTIO 1.1), and the device as it
 may act between any two steps of the driver.
 */
module Virtio {
  import opened Common

  type Buf = nat
  type uint16 = x: int | 0 <= x < 0x1_0000

  // Of a descriptor, what the driver itself reads back.
  datatype Desc = Desc(chained: bool, next: nat)

  datatype Info = Info(b: Option<Buf>, status: nat)

  // Where a request is: in the available ring, taken by the device, in the used ring, or completed.
  datatype Phase = Waiting | Device | Posted | Done

  /** A request in flight, known by its first descriptor. */
  datatype Req = Req(d1: nat, d2: nat, b: Buf, id: nat, phase: Phase)

  // How a turn of the interrupt handler's loop ends.
  datatype Turn = Empty | More | Panic

  // ---- Rings ----

  lemma {:induction false} Product(a: nat, n: nat)
    ensures a * n >= 0
  {
    if a > 0 {
      Product(a - 1, n);
      assert a * n == (a - 1) * n + n;
    }
  }

  lemma Multiple(x: int, n: nat)
    requires x != 0
    ensures x * n >= n || x * n <= 0 - n
  {
    if x >= 1 {
      Product(x - 1, n);
      assert x * n == (x - 1) * n + n;
    } else {
      Product(0 - x - 1, n);
      assert x * n == 0 - ((0 - x - 1) * n + n);
    }
  }

  lemma ModUnique(a: nat, q: nat, n: nat, r: nat)
    requires 0 < n && r < n && a == q * n + r
    ensures a % n == r
  {
    var k := a / n;
    assert a == k * n + a % n;
    assert (q - k) * n == a % n - r;
    if q != k {
      Multiple(q - k, n);
    }
  }

  /** A 16-bit index finds the same ring slot as the count it has wrapped from. */
  lemma WrappedSlot(t: nat, n: nat)
    requires 0 < n && 0x1_0000 % n == 0
    ensures t % 0x1_0000 % n == t % n
  {
    var m := 0x1_0000;
    var c, w := m / n, t / m;
    var r, s := t % m / n, t % m % n;
    assert m == c * n && t == w * m + t % m && t % m == r * n + s;
    calc {
      t;
      w * (c * n) + (r * n + s);
      { assert w * (c * n) == w * c * n; }
      (w * c + r) * n + s;
    }
    ModUnique(t, w * c + r, n, s);
  }

  /** Slots less than a turn apart are different. */
  lemma SlotsDiffer(a: nat, b: nat, n: nat)
    requires a < b < a + n
    ensures a % n != b % n
  {
    var q, p := a / n, b / n;
    assert a == q * n + a % n && b == p * n + b % n;
    if a % n == b % n {
      assert (p - q) * n == b - a;
      Multiple(p - q, n);
    }
  }

  /** The ring holds q from slot start on. */
  ghost predicate RingHolds(ring: seq<nat>, start: nat, q: seq<nat>) {
    |ring| > 0 && |q| <= |ring| && forall i :: 0 <= i < |q| ==> ring[(start + i) % |ring|] == q[i]
  }

  /** Storing one more entry overwrites none that is still to be read. */
  lemma RingPushed(ring: seq<nat>, start: nat, q: seq<nat>, x: nat)
    requires RingHolds(ring, start, q) && |q| < |ring|
    ensures RingHolds(ring[(start + |q|) % |ring| := x], start, q + [x])
  {
    var ring' := ring[(start + |q|) % |ring| := x];
    forall i | 0 <= i < |q + [x]| ensures ring'[(start + i) % |ring|] == (q + [x])[i] {
      if i < |q| {
        SlotsDiffer(start + i, start + |q|, |ring|);
      }
    }
  }

  lemma RingPopped(ring: seq<nat>, start: nat, q: seq<nat>)
    requires RingHolds(ring, start, q) && q != []
    ensures ring[start % |ring|] == q[0] && RingHolds(ring, start + 1, q[1..])
  {
    assert ring[(start + 0) % |ring|] == q[0];
    forall i | 0 <= i < |q[1..]| ensures ring[(start + 1 + i) % |ring|] == q[1..][i] {
      assert ring[(start + (i + 1)) % |ring|] == q[i + 1];
    }
  }

  // A count as a 16-bit index holds it.
  function Wrap(t: nat): uint16 { t % 0x1_0000 }

  /** The ring, whose size divides 2^16, holds q from count start on, and idx is the count after it. */
  ghost predicate RingOk(ring: seq<nat>, start: nat, q: seq<nat>, idx: uint16) {
    0 < |ring| <= 0x8000 && 0x1_0000 % |ring| == 0 && RingHolds(ring, start, q) && idx == Wrap(start + |q|)
  }

  lemma Pushed(ring: seq<nat>, start: nat, q: seq<nat>, idx: uint16, x: nat)
    requires RingOk(ring, start, q, idx) && |q| < |ring|
    ensures RingOk(ring[idx % |ring| := x], start, q + [x], (idx + 1) % 0x1_0000)
  {
    hide RingHolds;
    WrappedSlot(start + |q|, |ring|);
    RingPushed(ring, start, q, x);
    Next(start + |q|);
  }

  lemma Next(t: nat)
    ensures (Wrap(t) + 1) % 0x1_0000 == Wrap(t + 1)
  {}

  lemma Popped(ring: seq<nat>, start: nat, q: seq<nat>, idx: uint16)
    requires RingOk(ring, start, q, idx) && q != []
    ensures RingOk(ring, start + 1, q[1..], idx) && (Wrap(start) + 1) % 0x1_0000 == Wrap(start + 1)
  {
    hide RingHolds;
    RingPopped(ring, start, q);
    Next(start);
  }

  /** The two indices of a ring differ exactly when it holds something, and the reader's leads to the oldest entry. */
  lemma NextEntry(ring: seq<nat>, start: nat, q: seq<nat>, idx: uint16)
    requires RingOk(ring, start, q, idx)
    ensures 0 < |ring| && (Wrap(start) == idx <==> q == []) && (q != [] ==> ring[Wrap(start) % |ring|] == q[0])
  {
    WrappedSlot(start, |ring|);
    Apart(start, |q|);
    if q != [] {
      RingPopped(ring, start, q);
    }
  }

  lemma Apart(t: nat, n: nat)
    requires n <= 0x8000
    ensures Wrap(t) == Wrap(t + n) <==> n == 0
  {}

  lemma {:induction false} Distinct(s: seq<nat>, all: set<nat>)
    requires NoDup(s) && forall x :: x in s ==> x in all
    ensures |s| <= |all|
  {
    if s != [] {
      var last := s[|s| - 1];
      var rest := s[..|s| - 1];
      forall x | x in rest ensures x in all - {last} {
        assert x in s;
      }
      Distinct(rest, all - {last});
      assert last in s;
    }
  }

  function Numbers(n: nat): (r: set<nat>)
    ensures |r| == n && forall x: nat :: x in r <==> x < n
  {
    if n == 0 then {} else Numbers(n - 1) + {n - 1}
  }

  /** Fewer than n different numbers below n, when one of those is not among them. */
  lemma Pigeons(s: seq<nat>, n: nat, missing: nat)
    requires NoDup(s) && missing < n && forall x :: x in s ==> x < n && x != missing
    ensures |s| < n
  {
    Distinct(s, Numbers(n) - {missing});
  }

  // ---- Descriptors ----

  // Descriptor d is part of the request with head h.
  ghost predicate PartOf(live: map<nat, Req>, d: nat, h: nat) {
    h in live && (d == h || d == live[h].d1 || d == live[h].d2)
  }

  /** A request's three descriptors form a chain in the table. */
  ghost predicate Chained(desc: seq<Desc>, h: nat, r: Req) {
    && h < |desc| && r.d1 < |desc| && r.d2 < |desc| && h != r.d1 && h != r.d2 && r.d1 != r.d2
    && desc[h] == Desc(true, r.d1) && desc[r.d1] == Desc(true, r.d2) && !desc[r.d2].chained
  }

  /** Free descriptors and the chains in flight partition the table. */
  ghost predicate Chains(free: seq<bool>, desc: seq<Desc>, live: map<nat, Req>, of: map<nat, nat>) {
    && |desc| == |free|
    && (forall h :: h in live ==> Chained(desc, h, live[h]))
    && (forall d: nat, h: nat :: PartOf(live, d, h) <==> d in of && of[d] == h)
    && (forall d: nat :: d < |free| ==> (free[d] <==> d !in of))
    && (forall d :: d in of ==> d < |free|)
  }

  /** The descriptor table with a chain written into it. */
  function Linked(desc: seq<Desc>, h: nat, d1: nat, d2: nat): seq<Desc>
    requires h < |desc| && d1 < |desc| && d2 < |desc|
  {
    desc[h := Desc(true, d1)][d1 := Desc(true, d2)][d2 := Desc(false, 0)]
  }

  function Claimed(of: map<nat, nat>, h: nat, d1: nat, d2: nat): map<nat, nat> { of[h := h][d1 := h][d2 := h] }

  lemma ChainAdded(free: seq<bool>, desc: seq<Desc>, live: map<nat, Req>, of: map<nat, nat>, h: nat, r: Req)
    requires Chains(free, desc, live, of) && h < |free| && r.d1 < |free| && r.d2 < |free|
    requires free[h] && free[r.d1] && free[r.d2] && h != r.d1 && h != r.d2 && r.d1 != r.d2
    ensures Chains(free[h := false][r.d1 := false][r.d2 := false], Linked(desc, h, r.d1, r.d2),
                   live[h := r], Claimed(of, h, r.d1, r.d2))
    ensures h !in live
  {
    var desc' := Linked(desc, h, r.d1, r.d2);
    var live', of' := live[h := r], Claimed(of, h, r.d1, r.d2);
    assert h in live ==> PartOf(live, h, h);
    forall g | g in live' ensures Chained(desc', g, live'[g]) {
      if g != h {
        assert Chained(desc, g, live[g]);
        assert PartOf(live, g, g) && PartOf(live, live[g].d1, g) && PartOf(live, live[g].d2, g);
      }
    }
    forall d: nat, g: nat ensures PartOf(live', d, g) <==> d in of' && of'[d] == g {
      assert !PartOf(live, d, h);
      assert PartOf(live', d, g) <==> if g == h then d == h || d == r.d1 || d == r.d2 else PartOf(live, d, g);
    }
  }

  /** A request's phase has nothing to do with its descriptors. */
  lemma ChainsPhase(free: seq<bool>, desc: seq<Desc>, live: map<nat, Req>, of: map<nat, nat>, h: nat, phase: Phase)
    requires Chains(free, desc, live, of) && h in live
    ensures Chains(free, desc, live[h := live[h].(phase := phase)], of)
  {
    var live' := live[h := live[h].(phase := phase)];
    forall g | g in live' ensures Chained(desc, g, live'[g]) {
      assert Chained(desc, g, live[g]);
    }
    forall d: nat, g: nat ensures PartOf(live', d, g) <==> d in of && of[d] == g {
      assert PartOf(live', d, g) <==> PartOf(live, d, g);
    }
  }

  lemma ChainFreed(free: seq<bool>, desc: seq<Desc>, live: map<nat, Req>, of: map<nat, nat>, h: nat, desc': seq<Desc>)
    requires Chains(free, desc, live, of) && h in live && |desc'| == |desc|
    requires forall d :: 0 <= d < |desc| && d != h && d != live[h].d1 && d != live[h].d2 ==> desc'[d] == desc[d]
    ensures Chained(desc, h, live[h])
    ensures var r := live[h];
            Chains(free[h := true][r.d1 := true][r.d2 := true], desc', live - {h}, of - {h, r.d1, r.d2})
  {
    var r := live[h];
    var live', of' := live - {h}, of - {h, r.d1, r.d2};
    assert Chained(desc, h, r);
    assert PartOf(live, h, h) && PartOf(live, r.d1, h) && PartOf(live, r.d2, h);
    forall g | g in live' ensures Chained(desc', g, live'[g]) {
      assert Chained(desc, g, live[g]);
      assert PartOf(live, g, g) && PartOf(live, live[g].d1, g) && PartOf(live, live[g].d2, g);
    }
    forall d: nat, g: nat ensures PartOf(live', d, g) <==> d in of' && of'[d] == g {
      assert PartOf(live', d, g) <==> PartOf(live, d, g) && g != h;
    }
  }

  // ---- Phases ----

  /** The rings hold exactly the requests that are in those phases. */
  ghost predicate Phases(live: map<nat, Req>, waiting: seq<nat>, posted: seq<nat>) {
    && NoDup(waiting) && NoDup(posted)
    && (forall h :: h in waiting <==> h in live && live[h].phase == Waiting)
    && (forall h :: h in posted <==> h in live && live[h].phase == Posted)
  }

  /** Identities are never reused; exactly the completed ones are in done, once each. */
  ghost predicate Ids(live: map<nat, Req>, nextId: nat, done: seq<nat>) {
    && NoDup(done) && (forall x :: x in done ==> x < nextId)
    && (forall h :: h in live ==> live[h].id < nextId && (live[h].id in done <==> live[h].phase == Done))
    && (forall g, h :: g in live && h in live && g != h ==> live[g].id != live[h].id)
  }

  /** info[] and the buffers' disk flags know the requests. */
  ghost predicate Infos(info: seq<Info>, live: map<nat, Req>, busy: set<Buf>) {
    && (forall h :: h in live ==> h < |info| && info[h].b == Some(live[h].b))
    && (forall h :: h in live ==> (live[h].b in busy <==> live[h].phase != Done))
    && (forall g, h :: g in live && h in live && g != h ==> live[g].b != live[h].b)
  }

  ghost predicate Requests(live: map<nat, Req>, waiting: seq<nat>, posted: seq<nat>, nextId: nat, done: seq<nat>,
                           info: seq<Info>, busy: set<Buf>) {
    Phases(live, waiting, posted) && Ids(live, nextId, done) && Infos(info, live, busy)
  }

  // ---- What each step does to the requests ----

  lemma Submitted(live: map<nat, Req>, waiting: seq<nat>, posted: seq<nat>, nextId: nat, done: seq<nat>,
                  info: seq<Info>, busy: set<Buf>, h: nat, r: Req, status: nat)
    requires Requests(live, waiting, posted, nextId, done, info, busy)
    requires h !in live && h < |info| && r.phase == Waiting && r.id == nextId &&
             forall g :: g in live ==> live[g].b != r.b
    ensures Requests(live[h := r], waiting + [h], posted, nextId + 1, done, info[h := Info(Some(r.b), status)],
                     busy + {r.b})
  {
    assert h !in waiting;
  }

  lemma TakenBy(live: map<nat, Req>, waiting: seq<nat>, posted: seq<nat>, nextId: nat, done: seq<nat>,
                info: seq<Info>, busy: set<Buf>)
    requires Requests(live, waiting, posted, nextId, done, info, busy) && waiting != []
    ensures waiting[0] in live
    ensures var live' := live[waiting[0] := live[waiting[0]].(phase := Device)];
            Requests(live', waiting[1..], posted, nextId, done, info, busy)
  {
    assert waiting[0] in waiting;
    HeadOnce(waiting);
  }

  lemma HeadOnce(s: seq<nat>)
    requires NoDup(s) && s != []
    ensures NoDup(s[1..]) && forall x :: x in s[1..] <==> x in s && x != s[0]
  {
    forall x | x in s && x != s[0] ensures x in s[1..] {
      var i :| 0 <= i < |s| && s[i] == x;
      assert s[1..][i - 1] == x;
    }
    forall i | 0 <= i < |s[1..]| ensures s[1..][i] != s[0] && s[1..][i] in s {
      assert s[1..][i] == s[i + 1];
    }
  }

  lemma PostedBy(live: map<nat, Req>, waiting: seq<nat>, posted: seq<nat>, nextId: nat, done: seq<nat>,
                 info: seq<Info>, busy: set<Buf>, h: nat, status: nat)
    requires Requests(live, waiting, posted, nextId, done, info, busy)
    requires h in live && live[h].phase == Device
    ensures h < |info| && h !in posted
    ensures var live' := live[h := live[h].(phase := Posted)];
            Requests(live', waiting, posted + [h], nextId, done, info[h := info[h].(status := status)], busy)
  {}

  lemma Completed(live: map<nat, Req>, waiting: seq<nat>, posted: seq<nat>, nextId: nat, done: seq<nat>,
                  info: seq<Info>, busy: set<Buf>)
    requires Requests(live, waiting, posted, nextId, done, info, busy) && posted != []
    ensures var h := posted[0];
            && h in live && live[h].phase == Posted && h < |info| && info[h].b == Some(live[h].b) && live[h].id !in done
            && var live' := live[h := live[h].(phase := Done)];
               Requests(live', waiting, posted[1..], nextId, done + [live[h].id], info, busy - {live[h].b})
  {
    assert posted[0] in posted;
    HeadOnce(posted);
  }

  lemma Finished(live: map<nat, Req>, waiting: seq<nat>, posted: seq<nat>, nextId: nat, done: seq<nat>,
                 info: seq<Info>, busy: set<Buf>, h: nat, x: Info)
    requires Requests(live, waiting, posted, nextId, done, info, busy)
    requires h in live && live[h].phase == Done
    ensures h < |info| && live[h].id in done
    ensures Requests(live - {h}, waiting, posted, nextId, done, info[h := x], busy)
  {}

  lemma SameLength(free: seq<bool>, desc: seq<Desc>, live: map<nat, Req>, of: map<nat, nat>)
    requires Chains(free, desc, live, of)
    ensures |free| == |desc|
  {}

  /** Descriptors that are free may hold anything. */
  lemma ChainsKept(free: seq<bool>, desc: seq<Desc>, live: map<nat, Req>, of: map<nat, nat>, desc': seq<Desc>)
    requires Chains(free, desc, live, of) && |desc'| == |desc|
    requires forall d :: 0 <= d < |desc| && !free[d] ==> desc'[d] == desc[d]
    ensures Chains(free, desc', live, of)
  {
    forall h | h in live ensures Chained(desc', h, live[h]) {
      assert Chained(desc, h, live[h]);
      assert PartOf(live, h, h) && PartOf(live, live[h].d1, h) && PartOf(live, live[h].d2, h);
    }
  }

  /** There is room in a ring for a request that is not in it. */
  lemma Room(live: map<nat, Req>, waiting: seq<nat>, posted: seq<nat>, nextId: nat, done: seq<nat>,
             info: seq<Info>, busy: set<Buf>, h: nat)
    requires Requests(live, waiting, posted, nextId, done, info, busy) && h < |info|
    ensures h !in live ==> |waiting| < |info|
    ensures h in live && live[h].phase == Device ==> |posted| < |info|
  {
    if h !in live { Pigeons(waiting, |info|, h); }
    if h in live && live[h].phase == Device { Pigeons(posted, |info|, h); }
  }

  lemma ChainBusy(free: seq<bool>, desc: seq<Desc>, live: map<nat, Req>, of: map<nat, nat>, h: nat)
    requires Chains(free, desc, live, of) && h in live
    ensures Chained(desc, h, live[h]) && |free| == |desc| && !free[h] && !free[live[h].d1] && !free[live[h].d2]
  {
    assert Chained(desc, h, live[h]);
    assert PartOf(live, h, h) && PartOf(live, live[h].d1, h) && PartOf(live, live[h].d2, h);
  }

  lemma Idle(live: map<nat, Req>, waiting: seq<nat>, posted: seq<nat>, nextId: nat, done: seq<nat>,
             info: seq<Info>, busy: set<Buf>, h: nat)
    requires Requests(live, waiting, posted, nextId, done, info, busy) && h in live
    ensures h < |info| && (live[h].b !in busy ==> live[h].phase == Done)
  {}

  class Disk {
    // The driver's own book-keeping.
    var free: seq<bool>
    var info: seq<Info>
    var usedIdx: uint16            // used_idx: how far the driver has read the used ring
    var busy: set<Buf>             // buffers whose disk flag is 1
    // Shared with the device.
    var desc: seq<Desc>
    var availRing: seq<nat>
    var availIdx: uint16
    var usedRing: seq<nat>
    var devIdx: uint16             // used->idx: how far the device has written it
    var devAvail: uint16           // how far the device has read the available ring
    // Counts that the indices have wrapped from, and what is between them.
    ghost var taken: nat           // available entries the device has taken
    ghost var read: nat            // used entries the driver has read
    ghost var waiting: seq<nat>
    ghost var posted: seq<nat>
    ghost var live: map<nat, Req>
    ghost var of: map<nat, nat>
    ghost var nextId: nat
    ghost var done: seq<nat>

    ghost predicate Queues()
      reads this
    {
      && |free| == |info| == |availRing| == |usedRing|
      && RingOk(availRing, taken, waiting, availIdx) && devAvail == Wrap(taken)
      && RingOk(usedRing, read, posted, devIdx) && usedIdx == Wrap(read)
    }

    /** What holds whenever vdisk_lock is free, whatever the driver and the device have done. */
    ghost predicate Valid()
      reads this
    {
      Queues() && Chains(free, desc, live, of) && Requests(live, waiting, posted, nextId, done, info, busy)
    }

    constructor (num: nat)
      requires 0 < num <= 0x8000 && 0x1_0000 % num == 0
      ensures Valid() && |free| == num && live == map[] && done == [] && nextId == 0
    {
      free := seq(num, _ => true);
      info := seq(num, _ => Info(None, 0));
      desc := seq(num, _ => Desc(false, 0));
      availRing, usedRing := seq(num, _ => 0), seq(num, _ => 0);
      usedIdx, availIdx, devIdx, devAvail, busy := 0, 0, 0, 0, {};
      taken, read, waiting, posted := 0, 0, [], [];
      live, of, nextId, done := map[], map[], 0, [];
    }

    /** The lowest free descriptor, now taken; -1 if there is none. */
    method AllocDesc() returns (i: int)
      modifies `free
      ensures |free| == |old(free)|
      ensures i == -1 ==> free == old(free) && forall d :: 0 <= d < |free| ==> !free[d]
      ensures i != -1 ==>
                0 <= i < |free| && old(free)[i] && free == old(free)[i := false] &&
                forall d :: 0 <= d < i ==> !old(free)[d]
    {
      for k := 0 to |free|
        invariant free == old(free) && forall d :: 0 <= d < k ==> !free[d]
      {
        if free[k] {
          free := free[k := false];
          return k;
        }
      }
      i := -1;
    }

    method FreeDesc(i: nat)
      requires i < |free| == |desc| && !free[i]
      modifies `free, `desc
      ensures free == old(free)[i := true] && desc == old(desc)[i := Desc(false, 0)]
    {
      desc := desc[i := Desc(false, 0)];
      free := free[i := true];
    }

    /** free_desc() of the first n descriptors in idx. */
    method GiveBack(idx: array<int>, n: nat, ghost got: seq<nat>)
      requires n == |got| <= idx.Length && |free| == |desc| && NoDup(got)
      requires forall k :: 0 <= k < n ==> idx[k] == got[k] < |free| && !free[got[k]]
      modifies `free, `desc
      ensures |free| == |desc| == |old(free)| && forall d :: 0 <= d < |free| ==> free[d] == (old(free)[d] || d in got)
      ensures forall d :: 0 <= d < |free| && d !in got ==> desc[d] == old(desc)[d]
    {
      for j := 0 to n
        invariant |free| == |desc| == |old(free)|
        invariant forall d :: 0 <= d < |free| ==> free[d] == (old(free)[d] || d in got[..j])
        invariant forall d :: 0 <= d < |free| && d !in got ==> desc[d] == old(desc)[d]
      {
        assert got[..j + 1] == got[..j] + [got[j]];
        FreeDesc(idx[j]);
      }
      assert got[..n] == got;
    }

    /** Three different free descriptors, or none at all. */
    method Alloc3Desc(idx: array<int>) returns (r: int)
      requires idx.Length == 3 && |free| == |desc|
      modifies `free, `desc, idx
      ensures |free| == |old(free)| && |desc| == |free|
      ensures r == 0 ==>
                && desc == old(desc) && (forall k :: 0 <= k < 3 ==> 0 <= idx[k] < |free| && old(free)[idx[k]])
                && idx[0] != idx[1] && idx[0] != idx[2] && idx[1] != idx[2]
                && free == old(free)[idx[0] := false][idx[1] := false][idx[2] := false]
      ensures r != 0 ==>
                r == -1 && free == old(free) && forall d :: 0 <= d < |desc| && !free[d] ==> desc[d] == old(desc)[d]
    {
      var i := 0;
      ghost var got: seq<nat> := [];
      while i < 3
        invariant i == |got| <= 3 && desc == old(desc) && |free| == |old(free)| && NoDup(got)
        invariant forall k :: 0 <= k < i ==> idx[k] == got[k] < |free| && old(free)[got[k]]
        invariant forall d :: 0 <= d < |free| ==> free[d] == (old(free)[d] && d !in got)
      {
        idx[i] := AllocDesc();
        if idx[i] < 0 {
          GiveBack(idx, i, got);
          assert free == old(free);
          return -1;
        }
        got := got + [idx[i]];
        i := i + 1;
      }
      assert got == [got[0], got[1], got[2]];
      assert free == old(free)[idx[0] := false][idx[1] := false][idx[2] := false];
      r := 0;
    }

    /**
     virtio_disk_rw() up to its wait: a chain for b goes into the available ring; -1 when it must
     sleep for descriptors.
     */
    method Submit(b: Buf) returns (r: int)
      requires Valid() && forall h :: h in live ==> live[h].b != b
      modifies this
      ensures Valid() && posted == old(posted) && done == old(done)
      ensures r == -1 ==> live == old(live) && waiting == old(waiting) && busy == old(busy) && nextId == old(nextId)
      ensures r != -1 ==>
                && nextId == old(nextId) + 1
                && 0 <= r && r !in old(live) && waiting == old(waiting) + [r] && r in live
                && live == old(live)[r := live[r]]
                && live[r].b == b && live[r].id == old(nextId) && live[r].phase == Waiting && b in busy
    {
      hide Chains, Requests, RingOk, Wrap;
      SameLength(free, desc, live, of);
      var idx := new int[3];
      r := Alloc3Desc(idx);
      if r != 0 {
        ChainsKept(old(free), old(desc), live, of, desc);
        return;
      }
      r := idx[0];
      Format(b, old(free), idx[0], idx[1], idx[2]);
      PushAvail(idx[0]);
    }

    /** Fills the three descriptors of a request for b, which is then ready to be made available. */
    method Format(b: Buf, ghost was: seq<bool>, h: nat, d1: nat, d2: nat)
      requires |free| == |info| && Chains(was, desc, live, of)
               && Requests(live, waiting, posted, nextId, done, info, busy)
      requires (forall g :: g in live ==> live[g].b != b) && |was| == |free| && h < |free| && d1 < |free| && d2 < |free|
      requires was[h] && was[d1] && was[d2] && h != d1 && h != d2 && d1 != d2
      requires free == was[h := false][d1 := false][d2 := false]
      modifies `desc, `busy, `info, `live, `of, `nextId
      ensures |free| == |info| && Chains(free, desc, live, of)
              && Requests(live, waiting + [h], posted, nextId, done, info, busy)
      ensures |waiting| < |free| && h !in old(live) && nextId == old(nextId) + 1
      ensures live == old(live)[h := Req(d1, d2, b, old(nextId), Waiting)] && b in busy
    {
      hide Chains, Requests, Linked, Claimed;
      ghost var req := Req(d1, d2, b, nextId, Waiting);
      SameLength(was, desc, live, of);
      ChainAdded(was, desc, live, of, h, req);
      Submitted(live, waiting, posted, nextId, done, info, busy, h, req, 0xff);
      Room(live, waiting, posted, nextId, done, info, busy, h);
      desc := Linked(desc, h, d1, d2);
      busy := busy + {b};
      info := info[h := Info(Some(b), 0xff)];
      live, of, nextId := live[h := req], Claimed(of, h, d1, d2), nextId + 1;
    }

    /** Makes a chain available to the device. */
    method PushAvail(h: nat)
      requires RingOk(availRing, taken, waiting, availIdx) && |waiting| < |availRing|
      modifies `availRing, `availIdx, `waiting
      ensures RingOk(availRing, taken, waiting, availIdx) && waiting == old(waiting) + [h]
              && |availRing| == |old(availRing)|
    {
      hide RingOk;
      Pushed(availRing, taken, waiting, availIdx, h);
      availRing := availRing[availIdx % |availRing| := h];
      availIdx := (availIdx + 1) % 0x1_0000;
      waiting := waiting + [h];
    }

    // ---- The device ----

    /** The device takes the oldest available chain; -1 if there is none. */
    method Take() returns (h: int)
      requires Valid()
      modifies `taken, `devAvail, `waiting, `live
      ensures Valid()
      ensures old(waiting) == [] ==> h == -1 && waiting == [] && live == old(live)
      ensures old(waiting) != [] ==>
                && h == old(waiting)[0] && waiting == old(waiting)[1..]
                && h in old(live) && live == old(live)[h := old(live)[h].(phase := Device)]
    {
      hide Chains, Requests, RingOk, Wrap;
      NextEntry(availRing, taken, waiting, availIdx);
      if devAvail == availIdx {
        return -1;
      }
      h := availRing[devAvail % |availRing|];
      TakenBy(live, waiting, posted, nextId, done, info, busy);
      ChainsPhase(free, desc, live, of, waiting[0], Device);
      live := live[waiting[0] := live[waiting[0]].(phase := Device)];
      Popped(availRing, taken, waiting, availIdx);
      devAvail := (devAvail + 1) % 0x1_0000;
      waiting, taken := waiting[1..], taken + 1;
    }

    /** The device finishes a request it has taken, in any order and with any status, and posts its head. */
    method Post(h: nat, status: nat)
      requires Valid() && h in live && live[h].phase == Device
      modifies `usedRing, `devIdx, `info, `posted, `live
      ensures Valid() && posted == old(posted) + [h] && live == old(live)[h := old(live)[h].(phase := Posted)]
      ensures h < |old(info)| && info == old(info)[h := old(info)[h].(status := status)]
    {
      hide Chains, Requests, RingOk, Wrap;
      PostedBy(live, waiting, posted, nextId, done, info, busy, h, status);
      Room(live, waiting, posted, nextId, done, info, busy, h);
      ChainsPhase(free, desc, live, of, h, Posted);
      info := info[h := info[h].(status := status)];
      Pushed(usedRing, read, posted, devIdx, h);
      usedRing := usedRing[devIdx % |usedRing| := h];
      devIdx := (devIdx + 1) % 0x1_0000;
      posted := posted + [h];
      live := live[h := live[h].(phase := Posted)];
    }

    // ---- Completion ----

    method PopUsed()
      requires RingOk(usedRing, read, posted, devIdx) && usedIdx == Wrap(read) && posted != []
      modifies `usedIdx, `posted, `read
      ensures RingOk(usedRing, read, posted, devIdx) && usedIdx == Wrap(read) && posted == old(posted)[1..]
    {
      hide RingOk;
      Popped(usedRing, read, posted, devIdx);
      usedIdx := (usedIdx + 1) % 0x1_0000;
      posted, read := posted[1..], read + 1;
    }

    /**
     One turn of virtio_disk_intr()'s loop: the oldest posted request completes, and never did before.
     It panics exactly when the device reported a failure in that one.
     */
    method IntrTurn() returns (r: Turn)
      requires Valid()
      modifies `busy, `usedIdx, `done, `live, `posted, `read
      ensures Valid() && (r == Empty <==> old(posted) == [])
      ensures r != More ==> live == old(live) && done == old(done) && busy == old(busy) && posted == old(posted)
      ensures r != Empty ==>
                var h := old(posted)[0];
                h < |info| && (r == Panic <==> info[h].status != 0)
      ensures r == More ==>
                var h := old(posted)[0];
                && h in old(live) && old(live)[h].phase == Posted && posted == old(posted)[1..]
                && live == old(live)[h := old(live)[h].(phase := Done)] && busy == old(busy) - {old(live)[h].b}
                && old(live)[h].id !in old(done) && done == old(done) + [old(live)[h].id]
    {
      hide Chains, Requests, RingOk, Wrap;
      NextEntry(usedRing, read, posted, devIdx);
      if usedIdx == devIdx {
        return Empty;
      }
      Completed(live, waiting, posted, nextId, done, info, busy);
      ghost var h := posted[0];
      ChainsPhase(free, desc, live, of, h, Done);
      var id := usedRing[usedIdx % |usedRing|];
      if info[id].status != 0 {
        return Panic;
      }
      busy := busy - {info[id].b.value};
      done := done + [live[h].id];
      live := live[h := live[h].(phase := Done)];
      PopUsed();
      r := More;
    }

    /** Frees the descriptors of a chain, following the links in the table. */
    method FreeChain(h: nat)
      requires Chains(free, desc, live, of) && h in live
      modifies `free, `desc
      ensures Chained(old(desc), h, live[h]) && |free| == |old(free)| == |old(desc)|
      ensures var r := live[h]; free == old(free)[h := true][r.d1 := true][r.d2 := true]
      ensures Chains(free, desc, live - {h}, of - {h, live[h].d1, live[h].d2})
    {
      hide Chains;
      ChainBusy(free, desc, live, of, h);
      SameLength(free, desc, live, of);
      ghost var r := live[h];
      var i := h;
      ghost var n := 0;
      while true
        invariant n < 3 && |free| == |desc| == |old(desc)| && i == if n == 0 then h else if n == 1 then r.d1 else r.d2
        invariant free == if n == 0 then old(free) else if n == 1 then old(free)[h := true]
                          else old(free)[h := true][r.d1 := true]
        invariant desc == if n == 0 then old(desc) else if n == 1 then old(desc)[h := Desc(false, 0)]
                          else old(desc)[h := Desc(false, 0)][r.d1 := Desc(false, 0)]
        decreases 3 - n
      {
        var flag, nxt := desc[i].chained, desc[i].next;
        FreeDesc(i);
        if flag {
          i := nxt;
          n := n + 1;
        } else {
          break;
        }
      }
      ChainFreed(old(free), old(desc), live, of, h, desc);
    }

    /**
     virtio_disk_rw() after its wait: once b's flag is clear its request has completed, and its
     descriptors are free again.
     */
    method Finish(h: nat)
      requires Valid() && h in live && live[h].b !in busy
      modifies `info, `free, `desc, `live, `of
      ensures Valid() && live == old(live) - {h} && old(live)[h].id in done
      ensures free[h] && free[old(live)[h].d1] && free[old(live)[h].d2]
    {
      hide Chains, Requests, RingOk, Wrap;
      Idle(live, waiting, posted, nextId, done, info, busy, h);
      ghost var r := live[h];
      Finished(live, waiting, posted, nextId, done, info, busy, h, info[h].(b := None));
      info := info[h := info[h].(b := None)];
      FreeChain(h);
      live, of := live - {h}, of - {h, r.d1, r.d2};
    }
  }

  // ---- Runs ----

  // What a process in virtio_disk_rw(), the device or the interrupt handler may do next.
  datatype Op = Ask(b: Buf) | Fetch | Answer(h: nat, status: nat) | Interrupt | Return(b: Buf)

  /** Each process in virtio_disk_rw() remembers its own request's first descriptor. */
  ghost predicate Callers(live: map<nat, Req>, calls: map<Buf, nat>) {
    && (forall h :: h in live ==> live[h].b in calls && calls[live[h].b] == h)
    && (forall b :: b in calls ==> calls[b] in live && live[calls[b]].b == b)
  }

  /** The device knows the chains it has taken. */
  ghost predicate AtDevice(live: map<nat, Req>, chains: set<nat>) {
    forall h :: h in chains ==> h in live && live[h].phase == Device
  }

  /** Every request accepted so far has completed or is in flight, in the chain that place records. */
  ghost predicate Accounted(live: map<nat, Req>, done: seq<nat>, n: nat, place: map<nat, nat>) {
    forall x: nat :: x < n ==> x in done || (x in place && place[x] in live && live[place[x]].id == x)
  }

  // What the processes and the device know of the requests in flight, and that none is missing.
  ghost predicate Followed(live: map<nat, Req>, done: seq<nat>, n: nat, calls: map<Buf, nat>, chains: set<nat>,
                           place: map<nat, nat>) {
    Callers(live, calls) && AtDevice(live, chains) && Accounted(live, done, n, place)
  }

  lemma NewCall(live: map<nat, Req>, calls: map<Buf, nat>, b: Buf)
    requires Callers(live, calls) && b !in calls
    ensures forall h :: h in live ==> live[h].b != b
  {}

  lemma AskFollowed(live: map<nat, Req>, done: seq<nat>, n: nat, calls: map<Buf, nat>, chains: set<nat>,
                    place: map<nat, nat>, b: Buf, h: nat, r: Req)
    requires Followed(live, done, n, calls, chains, place) && b !in calls && h !in live && r.b == b && r.id == n
    ensures Followed(live[h := r], done, n + 1, calls[b := h], chains, place[n := h])
  {}

  lemma FetchFollowed(live: map<nat, Req>, done: seq<nat>, n: nat, calls: map<Buf, nat>, chains: set<nat>,
                      place: map<nat, nat>, h: nat)
    requires Followed(live, done, n, calls, chains, place) && h in live
    ensures Followed(live[h := live[h].(phase := Device)], done, n, calls, chains + {h}, place)
  {}

  lemma AnswerFollowed(live: map<nat, Req>, done: seq<nat>, n: nat, calls: map<Buf, nat>, chains: set<nat>,
                       place: map<nat, nat>, h: nat)
    requires Followed(live, done, n, calls, chains, place) && h in chains
    ensures h in live && live[h].phase == Device
    ensures Followed(live[h := live[h].(phase := Posted)], done, n, calls, chains - {h}, place)
  {}

  lemma DoneFollowed(live: map<nat, Req>, done: seq<nat>, n: nat, calls: map<Buf, nat>, chains: set<nat>,
                     place: map<nat, nat>, h: nat)
    requires Followed(live, done, n, calls, chains, place) && h in live && live[h].phase == Posted
    ensures Followed(live[h := live[h].(phase := Done)], done + [live[h].id], n, calls, chains, place)
  {}

  lemma ReturnFollowed(live: map<nat, Req>, done: seq<nat>, n: nat, calls: map<Buf, nat>, chains: set<nat>,
                       place: map<nat, nat>, b: Buf)
    requires Followed(live, done, n, calls, chains, place) && b in calls
    requires calls[b] in live ==> live[calls[b]].phase == Done && live[calls[b]].id in done
    ensures calls[b] in live && live[calls[b]].b == b
    ensures Followed(live - {calls[b]}, done, n, calls - {b}, chains, place)
  {
    var h := calls[b];
    assert h in live && live[h].b == b;
    forall x: nat | x < n && x !in done ensures x in place && place[x] in live - {h} {
      assert live[place[x]].id == x;
    }
  }

  lemma CompletedIds(live: map<nat, Req>, waiting: seq<nat>, posted: seq<nat>, nextId: nat, done: seq<nat>,
                     info: seq<Info>, busy: set<Buf>)
    requires Requests(live, waiting, posted, nextId, done, info, busy)
    ensures NoDup(done) && forall x :: x in done ==> x < nextId
  {}

  lemma CallOf(live: map<nat, Req>, calls: map<Buf, nat>, b: Buf)
    requires Callers(live, calls) && b in calls
    ensures calls[b] in live && live[calls[b]].b == b
  {}

  // The knowledge of all who act on the queue.
  datatype Actors = Actors(calls: map<Buf, nat>, chains: set<nat>, n: nat)

  /** One step of a process, of the device or of the interrupt handler, if it can be taken. */
  method Act(d: Disk, a: Actors, op: Op, ghost place: map<nat, nat>)
    returns (a': Actors, panicked: bool, ghost place': map<nat, nat>)
    requires d.Valid() && d.nextId == a.n && Followed(d.live, d.done, a.n, a.calls, a.chains, place)
    modifies d
    ensures d.Valid() && d.nextId == a'.n && Followed(d.live, d.done, a'.n, a'.calls, a'.chains, place')
    ensures panicked ==> d.posted != [] && d.posted[0] < |d.info| && d.info[d.posted[0]].status != 0
  {
    hide Chains, Requests, RingOk, Wrap, Followed;
    a', panicked, place' := a, false, place;
    ghost var live, done := d.live, d.done;
    match op
    case Ask(b) =>
      if b !in a.calls {
        assert Callers(live, a.calls) by { Known(live, done, a.n, a.calls, a.chains, place); }
        NewCall(live, a.calls, b);
        var r := d.Submit(b);
        if r != -1 {
          AskFollowed(live, done, a.n, a.calls, a.chains, place, b, r, d.live[r]);
          a', place' := a.(calls := a.calls[b := r], n := a.n + 1), place[a.n := r];
        }
      }
    case Fetch =>
      var h := d.Take();
      if h != -1 {
        FetchFollowed(live, done, a.n, a.calls, a.chains, place, h);
        a' := a.(chains := a.chains + {h});
      }
    case Answer(h, status) =>
      if h in a.chains {
        AnswerFollowed(live, done, a.n, a.calls, a.chains, place, h);
        d.Post(h, status);
        a' := a.(chains := a.chains - {h});
      }
    case Interrupt =>
      var r := d.IntrTurn();
      if r == More {
        DoneFollowed(live, done, a.n, a.calls, a.chains, place, old(d.posted)[0]);
      }
      panicked := r == Panic;
    case Return(b) =>
      if b in a.calls && b !in d.busy {
        assert Callers(live, a.calls) by { Known(live, done, a.n, a.calls, a.chains, place); }
        CallOf(live, a.calls, b);
        Idle(live, d.waiting, d.posted, d.nextId, done, d.info, d.busy, a.calls[b]);
        d.Finish(a.calls[b]);
        ReturnFollowed(live, done, a.n, a.calls, a.chains, place, b);
        a' := a.(calls := a.calls - {b});
      }
  }

  lemma Known(live: map<nat, Req>, done: seq<nat>, n: nat, calls: map<Buf, nat>, chains: set<nat>, place: map<nat, nat>)
    requires Followed(live, done, n, calls, chains, place)
    ensures Callers(live, calls) && Accounted(live, done, n, place)
  {}

  /**
   Any interleaving of processes, device and interrupts on a new queue, up to the first panic: of the n
   requests accepted each has completed exactly once or is still in flight, and nothing else has completed.
   */
  method Interleave(num: nat, ops: seq<Op>) returns (d: Disk, n: nat, panicked: bool)
    requires 0 < num <= 0x8000 && 0x1_0000 % num == 0
    ensures d.Valid() && NoDup(d.done) && forall x :: x in d.done ==> x < n
    ensures exists place :: Accounted(d.live, d.done, n, place)
    ensures panicked ==> d.posted != [] && d.posted[0] < |d.info| && d.info[d.posted[0]].status != 0
  {
    hide Chains, Requests, RingOk, Wrap;
    d := new Disk(num);
    var a := Actors(map[], {}, 0);
    ghost var place: map<nat, nat> := map[];
    panicked := false;
    var k := 0;
    while k < |ops| && !panicked
      invariant d.Valid() && fresh(d) && a.n == d.nextId && Followed(d.live, d.done, a.n, a.calls, a.chains, place)
      invariant panicked ==> d.posted != [] && d.posted[0] < |d.info| && d.info[d.posted[0]].status != 0
    {
      a, panicked, place := Act(d, a, ops[k], place);
      k := k + 1;
    }
    n := a.n;
    Known(d.live, d.done, n, a.calls, a.chains, place);
    CompletedIds(d.live, d.waiting, d.posted, d.nextId, d.done, d.info, d.busy);
  }
}
