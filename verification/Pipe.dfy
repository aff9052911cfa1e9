/**
 The pipe of kernel/pipe.c: a ring of PIPESIZE bytes between two unsigned counters.
 Each method is what pipewrite() or piperead() does between two points where it can
 give up the lock, so that calls of them in any order are its interleavings.
 */
module Pipe {
  import opened Bytes

  const PIPESIZE := 512

  // A count as an unsigned counter holds it.
  function Wrap(t: nat): word { t % WORD }

  // The ring slot of the t-th byte.
  function Slot(t: nat): (k: nat)
    ensures k < PIPESIZE
  {
    t % PIPESIZE
  }

  /** PIPESIZE divides 2^32, so a wrapped counter finds the slot its count does. */
  lemma WrapSlot(t: nat)
    ensures Wrap(t) % PIPESIZE == Slot(t)
  {
    var q, r := t / WORD, t % WORD;
    assert t == PIPESIZE * (q * 0x80_0000) + r;
    ModPlus(q * 0x80_0000, r);
  }

  lemma ModPlus(a: nat, r: nat)
    ensures (512 * a + r) % 512 == r % 512
  {}

  lemma WrapNext(t: nat)
    ensures (Wrap(t) + 1) % WORD == Wrap(t + 1)
  {}

  /** Counters at most PIPESIZE apart tell an empty ring from a full one, and both from the rest. */
  lemma WrapApart(t: nat, d: nat)
    requires d <= PIPESIZE
    ensures Wrap(t) == Wrap(t + d) <==> d == 0
    ensures Wrap(t + d) == (Wrap(t) + PIPESIZE) % WORD <==> d == PIPESIZE
  {
    var q, r := t / WORD, t % WORD;
    assert t == WORD * q + r;
    Carry(q, r + d);
    Carry(0, r + PIPESIZE);
  }

  lemma Carry(q: nat, x: nat)
    requires x < 2 * WORD
    ensures (WORD * q + x) % WORD == if x < WORD then x else x - WORD
  {}

  lemma SlotsDiffer(a: nat, b: nat)
    requires a < b < a + PIPESIZE
    ensures Slot(a) != Slot(b)
  {}

  // How a stay inside pipewrite() ends.
  datatype WriteEnd = Finished | Full | Closed | Fault

  // What piperead() does before it reads: go on, sleep, or give up.
  datatype ReadStart = Ready | Wait | Killed

  /** Those of some consumed bytes that reached their reader, in order. */
  function Reached(bytes: seq<byte>, got: seq<bool>): seq<byte>
    requires |bytes| == |got|
  {
    if bytes == [] then []
    else
      var n := |bytes| - 1;
      Reached(bytes[..n], got[..n]) + if got[n] then [bytes[n]] else []
  }

  lemma ReachedMore(bytes: seq<byte>, got: seq<bool>, ch: byte, ok: bool)
    requires |bytes| == |got|
    ensures Reached(bytes + [ch], got + [ok]) == Reached(bytes, got) + if ok then [ch] else []
  {
    assert (bytes + [ch])[..|bytes|] == bytes && (got + [ok])[..|got|] == got;
  }

  /** When every copy succeeds they are all of them. */
  lemma {:induction false} AllReached(bytes: seq<byte>, got: seq<bool>)
    requires |bytes| == |got| && false !in got
    ensures Reached(bytes, got) == bytes
    decreases |bytes|
  {
    if bytes != [] {
      var n := |bytes| - 1;
      assert got[n] in got;
      AllReached(bytes[..n], got[..n]);
      assert bytes == bytes[..n] + [bytes[n]];
    }
  }

  class Ring {
    const data: array<byte>
    var nread: word
    var nwrite: word
    var readopen: bool
    var writeopen: bool
    ghost var stored: seq<byte>     // every byte ever stored, in order
    ghost var consumed: seq<byte>   // every byte ever read from the ring, in order
    ghost var got: seq<bool>        // which of those copyout() delivered
    ghost var delivered: seq<byte>  // the bytes that reached a reader

    ghost function Taken(): nat
      reads this
    {
      |consumed|
    }

    /**
     What has been read is a prefix of what was stored; the ring holds the rest, at most PIPESIZE bytes,
     and the counters are the counts wrapped.
     */
    ghost predicate Valid()
      reads this, data
    {
      && data.Length == PIPESIZE && Taken() <= |stored| <= Taken() + PIPESIZE
      && nread == Wrap(Taken()) && nwrite == Wrap(|stored|)
      && (forall k :: Taken() <= k < |stored| ==> data[Slot(k)] == stored[k])
      && consumed == stored[..Taken()]
      && |got| == Taken() && delivered == Reached(consumed, got)
    }

    constructor ()
      ensures Valid() && stored == [] && consumed == [] && delivered == [] && readopen && writeopen && fresh(data)
    {
      data := new byte[PIPESIZE](_ => 0);
      nread, nwrite, readopen, writeopen := 0, 0, true, true;
      stored, consumed, got, delivered := [], [], [], [];
    }

    /** The ring is full exactly when the counters differ by PIPESIZE, even after they wrap. */
    lemma FullExactly()
      requires Valid()
      ensures nwrite == (nread + PIPESIZE) % WORD <==> |stored| == Taken() + PIPESIZE
      ensures nread == nwrite <==> |stored| == Taken()
      ensures nwrite % PIPESIZE == Slot(|stored|) && nread % PIPESIZE == Slot(Taken())
    {
      hide Wrap, Slot;
      WrapApart(Taken(), |stored| - Taken());
      WrapSlot(Taken());
      WrapSlot(|stored|);
    }

    /**
     Stores src from i on, until it is all stored, the ring is full, or it cannot go on; ok is how
     much of src can be read.
     */
    method Write(src: seq<byte>, i: nat, ok: nat, killed: bool) returns (done: nat, end: WriteEnd)
      requires Valid() && i <= |src|
      modifies `nwrite, `stored, data
      ensures Valid() && i <= done <= |src| && stored == old(stored) + src[i..done]
      ensures end == Finished <==> done == |src|
      ensures end == Full ==> |stored| == Taken() + PIPESIZE
      ensures end == Closed <==> i < |src| && (!readopen || killed)
      ensures end == Closed ==> done == i
      ensures end == Fault ==> done >= ok
    {
      hide Wrap, Slot, Reached;
      done := i;
      while done < |src|
        invariant Valid() && i <= done <= |src| && stored == old(stored) + src[i..done]
        invariant i < done ==> readopen && !killed
      {
        FullExactly();
        if !readopen || killed {
          return done, Closed;
        }
        if nwrite == (nread + PIPESIZE) % WORD {
          return done, Full;
        }
        if done >= ok {
          return done, Fault;
        }
        Push(src[done]);
        done := done + 1;
      }
      end := Finished;
    }

    method Push(ch: byte)
      requires Valid() && |stored| < Taken() + PIPESIZE
      modifies `nwrite, `stored, data
      ensures Valid() && stored == old(stored) + [ch]
    {
      hide Wrap, Slot, Reached;
      FullExactly();
      WrapNext(|stored|);
      forall k | Taken() <= k < |stored| ensures Slot(k) != Slot(|stored|) { SlotsDiffer(k, |stored|); }
      data[nwrite % PIPESIZE] := ch;
      nwrite := (nwrite + 1) % WORD;
      stored := stored + [ch];
    }

    /** The test piperead() begins with: it goes on when there is a byte, or never will be another. */
    method Poll(killed: bool) returns (r: ReadStart)
      requires Valid()
      ensures r == Ready <==> Taken() < |stored| || !writeopen
      ensures r == Killed <==> Taken() == |stored| && writeopen && killed
    {
      hide Wrap, Slot, Reached;
      FullExactly();
      if nread == nwrite && writeopen {
        return if killed then Killed else Wait;
      }
      r := Ready;
    }

    /**
     Consumes up to n of the oldest bytes, of which the first ok reach the caller's buffer; the one
     after those, if it is reached, is consumed but lost.
     */
    method Read(n: nat, ok: nat) returns (out: seq<byte>)
      requires Valid()
      modifies `nread, `consumed, `got, `delivered
      ensures Valid() && |out| <= n && |out| <= ok
      ensures delivered == old(delivered) + out
      ensures var next := old(Taken()) + |out|;
              && next <= |stored| && out == stored[old(Taken())..next]
              && Taken() == next + if |out| == ok && |out| < n && next < |stored| then 1 else 0
      ensures |out| < n && |out| < ok ==> Taken() == |stored|
    {
      hide Wrap, Slot, Reached;
      out := [];
      while |out| < n
        invariant Valid() && |out| <= n && |out| <= ok && Taken() == old(Taken()) + |out|
        invariant out == stored[old(Taken())..Taken()] && delivered == old(delivered) + out
      {
        FullExactly();
        if nread == nwrite {
          return;
        }
        var ch := Pop(|out| < ok);
        if |out| >= ok {
          return;
        }
        out := out + [ch];
      }
    }

    /** The next byte, consumed whether or not copyout() then delivers it. */
    method Pop(ok: bool) returns (ch: byte)
      requires Valid() && Taken() < |stored|
      modifies `nread, `consumed, `got, `delivered
      ensures Valid() && ch == stored[old(Taken())]
      ensures consumed == old(consumed) + [ch] && got == old(got) + [ok]
      ensures delivered == old(delivered) + if ok then [ch] else []
    {
      hide Wrap, Slot, Reached;
      FullExactly();
      WrapNext(Taken());
      ch := data[nread % PIPESIZE];
      nread := (nread + 1) % WORD;
      ReachedMore(consumed, got, ch, ok);
      assert stored[..Taken() + 1] == stored[..Taken()] + [stored[Taken()]];
      consumed, got := consumed + [ch], got + [ok];
      if ok {
        delivered := delivered + [ch];
      }
    }

    /** pipeclose() of one end; the pipe is freed when both are closed. */
    method Close(writable: bool) returns (free: bool)
      requires Valid()
      modifies `readopen, `writeopen
      ensures Valid() && free == (!readopen && !writeopen)
      ensures readopen == (old(readopen) && writable) && writeopen == (old(writeopen) && !writable)
    {
      if writable {
        writeopen := false;
      } else {
        readopen := false;
      }
      free := !readopen && !writeopen;
    }

    /** Without a fault on the way, readers have got the bytes stored, in order, none missing and none twice. */
    lemma Fifo()
      requires Valid() && false !in got
      ensures delivered <= stored && |stored| - |delivered| <= PIPESIZE
    {
      AllReached(consumed, got);
    }
  }

  // What some process's call does before it next gives up the lock.
  datatype Op =
    | Put(src: seq<byte>, i: nat, fits: nat, killed: bool)
    | Get(n: nat, fits: nat, killed: bool)
    | Shut(writable: bool)

  /**
   Any interleaving of writers, readers and closings on a new pipe: the bytes read are a prefix of
   those stored, and the bytes delivered are those of them whose copyout() succeeded, in order.
   */
  method Interleave(ops: seq<Op>) returns (ring: Ring)
    requires forall op :: op in ops && op.Put? ==> op.i <= |op.src|
    ensures ring.Valid() && ring.consumed <= ring.stored && |ring.stored| <= |ring.consumed| + PIPESIZE
    ensures |ring.got| == |ring.consumed| && ring.delivered == Reached(ring.consumed, ring.got)
    ensures ring.readopen <==> Shut(false) !in ops
    ensures ring.writeopen <==> Shut(true) !in ops
  {
    hide Reached;
    ring := new Ring();
    for k := 0 to |ops|
      invariant ring.Valid() && fresh(ring) && fresh(ring.data)
      invariant (ring.readopen <==> Shut(false) !in ops[..k]) && (ring.writeopen <==> Shut(true) !in ops[..k])
    {
      assert ops[k] in ops && ops[..k + 1] == ops[..k] + [ops[k]];
      match ops[k]
      case Put(src, i, fits, killed) =>
        var _, _ := ring.Write(src, i, fits, killed);
      case Get(n, fits, killed) =>
        var start := ring.Poll(killed);
        if start == Ready {
          var _ := ring.Read(n, fits);
        }
      case Shut(writable) =>
        var _ := ring.Close(writable);
    }
    assert ops[..|ops|] == ops;
  }
}
