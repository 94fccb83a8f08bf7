/** The pipe: a ring of 512 bytes with 32-bit counters (kernel/pipe.c). A reader or writer gives the
    lock away only in sleep or when it returns; a method here is what runs in between, so any order of
    calls on one Pipe is an interleaving of readers and writers that sleep in the middle of their
    calls. */
module Pipe {

  import opened Common
  import opened Blocks

  const PIPESIZE: nat := 512
  const UINT: nat := 0x1_0000_0000

  /** Why a writer stops for now: all written, no room (it sleeps), the source byte cannot be read, or
      the pipe has no reader or the process is killed. */
  datatype WriteStop = Written | Full | BadSource | Broken

  /** Why a reader stops: it has what it gets, or it sleeps on an empty pipe, or it is killed. */
  datatype ReadStop = Finished | Empty | Killed

  /** 512 divides 2^32, so wrapped counters index the ring right. */
  lemma RingIndex(n: nat)
    ensures n % UINT % PIPESIZE == n % PIPESIZE
  {
    var q, r := n / UINT * 8388608, n % UINT;
    assert n == q * PIPESIZE + r;
    var y, z := r / PIPESIZE, r % PIPESIZE;
    ModOf(q + y, z, PIPESIZE);
    assert q * PIPESIZE + r == (q + y) * PIPESIZE + z;
  }

  /** The wrapped counters tell the occupancy. */
  lemma Occupancy(r: nat, w: nat)
    requires r <= w <= r + PIPESIZE
    ensures (w % UINT - r % UINT) % UINT == w - r
    ensures w % UINT == (r % UINT + PIPESIZE) % UINT <==> w == r + PIPESIZE
    ensures w % UINT == r % UINT <==> w == r
  {
    var q, x, k := r / UINT, r % UINT, w - r;
    if x + k < UINT {
      ModOf(q, x + k, UINT);
      assert w == q * UINT + (x + k);
    } else {
      ModOf(q + 1, x + k - UINT, UINT);
      assert w == (q + 1) * UINT + (x + k - UINT);
    }
  }

  lemma WrapNext(n: nat)
    ensures (n % UINT + 1) % UINT == (n + 1) % UINT
  {
    var q, r := n / UINT, n % UINT;
    if r + 1 < UINT {
      ModOf(q, r + 1, UINT);
    } else {
      ModOf(q + 1, 0, UINT);
    }
  }

  /** The ring holds the bytes from..|wrote| of what was written. */
  ghost predicate Holds(data: seq<Byte>, wrote: seq<Byte>, from: nat) {
    && |data| == PIPESIZE && from <= |wrote| <= from + PIPESIZE
    && forall k :: from <= k < |wrote| ==> data[k % PIPESIZE] == wrote[k]
  }

  lemma HoldsMore(data: seq<Byte>, wrote: seq<Byte>, from: nat, c: Byte)
    requires Holds(data, wrote, from) && |wrote| < from + PIPESIZE
    ensures Holds(data[|wrote| % PIPESIZE := c], wrote + [c], from)
  {
    var data', more := data[|wrote| % PIPESIZE := c], wrote + [c];
    forall k | from <= k < |more| ensures data'[k % PIPESIZE] == more[k] {
      if k < |wrote| {
        ModApart(k, |wrote| - k, PIPESIZE);
      }
    }
  }

  class Pipe {
    var data: array<Byte>
    var nread: Word
    var nwrite: Word
    var readopen: bool
    var writeopen: bool
    /** Every byte ever written into the pipe, and every byte ever taken out of it. */
    ghost var wrote: seq<Byte>
    ghost var took: seq<Byte>

    /** First in, first out: what was taken is the first part of what was written, the rest is in the
        ring, and the counters are the lengths of the two, wrapped at 2^32. */
    ghost predicate Valid()
      reads this, data
    {
      && data.Length == PIPESIZE
      && |took| <= |wrote| && took == wrote[..|took|] && Holds(data[..], wrote, |took|)
      && nread == |took| % UINT && nwrite == |wrote| % UINT
    }

    /** The bytes in the ring. */
    ghost function Contents(): seq<Byte>
      requires Valid()
      reads this, data
    {
      wrote[|took|..]
    }

    constructor ()
      ensures Valid() && fresh(data) && wrote == took == [] && readopen && writeopen
    {
      data := new Byte[PIPESIZE](_ => 0);
      nread, nwrite, readopen, writeopen := 0, 0, true, true;
      wrote, took := [], [];
    }

    /** The occupancy computed from the counters is the number of bytes in the ring. */
    method Used() returns (n: nat)
      requires Valid()
      ensures n == |Contents()| <= PIPESIZE
    {
      Occupancy(|took|, |wrote|);
      n := (nwrite - nread) % UINT;
    }

    method IsFull() returns (full: bool)
      requires Valid()
      ensures full <==> |Contents()| == PIPESIZE
      ensures |Contents()| <= PIPESIZE
    {
      Occupancy(|took|, |wrote|);
      full := nwrite == (nread + PIPESIZE) % UINT;
    }

    method IsEmpty() returns (empty: bool)
      requires Valid()
      ensures empty <==> Contents() == []
    {
      Occupancy(|took|, |wrote|);
      empty := nread == nwrite;
    }

    /** One byte goes in at the write counter. */
    method PutByte(c: Byte)
      requires Valid() && |Contents()| < PIPESIZE
      modifies `nwrite, `wrote, data
      ensures Valid() && wrote == old(wrote) + [c]
    {
      RingIndex(|wrote|);
      HoldsMore(data[..], wrote, |took|, c);
      WrapNext(|wrote|);
      data[nwrite % PIPESIZE] := c;
      nwrite := (nwrite + 1) % UINT;
      wrote := wrote + [c];
    }

    /** One byte comes out at the read counter. */
    method TakeByte() returns (c: Byte)
      requires Valid() && Contents() != []
      modifies `nread, `took
      ensures Valid() && c == old(Contents())[0] && took == old(took) + [c]
    {
      RingIndex(|took|);
      WrapNext(|took|);
      c := data[nread % PIPESIZE];
      nread := (nread + 1) % UINT;
      took := took + [c];
    }

    /** pipewrite() from the point where it has the lock and has written i bytes: bytes i..r of src go
        in behind all others. The bytes of src from fault on cannot be read, and the process is killed
        before it writes byte number killAt. */
    method Write(src: seq<Byte>, i: nat, fault: nat, killAt: nat) returns (r: nat, stop: WriteStop)
      requires Valid() && i <= |src|
      modifies this, data
      ensures Valid() && data == old(data) && took == old(took)
      ensures readopen == old(readopen) && writeopen == old(writeopen)
      ensures i <= r <= |src| && wrote == old(wrote) + src[i..r]
      ensures stop == Written <==> r == |src|
      ensures stop == Full ==> |Contents()| == PIPESIZE
      ensures stop == BadSource ==> r >= fault
      ensures stop == Broken ==> !readopen || r >= killAt
      ensures r > i ==> readopen && r <= killAt && r <= fault
    {
      hide Holds, Valid;
      r := i;
      while r < |src|
        invariant Valid() && data == old(data) && took == old(took)
        invariant readopen == old(readopen) && writeopen == old(writeopen)
        invariant i <= r <= |src| && wrote == old(wrote) + src[i..r]
        invariant r > i ==> readopen && r <= killAt && r <= fault
      {
        if !readopen || r >= killAt {
          return r, Broken;
        }
        var full := IsFull();
        if full {
          return r, Full;
        }
        if r >= fault {
          return r, BadSource;
        }
        PutByte(src[r]);
        assert src[i..r] + [src[r]] == src[i..r + 1];
        r := r + 1;
      }
      return r, Written;
    }

    /** piperead() from the point where it has the lock: up to n bytes are taken, oldest first. The
        bytes from fault on cannot be stored; then one byte is taken and lost. */
    method Read(n: nat, fault: nat, killed: bool) returns (out: seq<Byte>, stop: ReadStop)
      requires Valid()
      modifies this, data
      ensures Valid() && data == old(data) && wrote == old(wrote)
      ensures readopen == old(readopen) && writeopen == old(writeopen)
      ensures stop != Finished <==> old(Contents()) == [] && writeopen
      ensures stop == Killed ==> killed
      ensures stop != Finished ==> out == [] && took == old(took)
      ensures stop == Finished ==> out <= old(Contents()) && |out| == Min(Min(n, |old(Contents())|), fault)
      ensures stop == Finished ==> took == old(took) + old(Contents())[..|out| + Lost(n, |old(Contents())|, fault)]
    {
      hide Holds;
      ghost var all, start := Contents(), took;
      out := [];
      var empty := IsEmpty();
      if empty && writeopen {
        return [], if killed then Killed else Empty;
      }
      var i := 0;
      assert all[..0] == [];
      while i < n
        invariant Valid() && data == old(data) && wrote == old(wrote)
        invariant readopen == old(readopen) && writeopen == old(writeopen)
        invariant i == |out| <= n && i <= |all| && i <= fault && out == all[..i]
        invariant took == start + all[..i]
      {
        empty := IsEmpty();
        if empty {
          break;
        }
        var c := TakeByte();
        assert all[..i] + [c] == all[..i + 1];
        if i >= fault {
          break;
        }
        out := out + [c];
        i := i + 1;
      }
      stop := Finished;
    }

    /** pipeclose(). */
    method Close(writable: bool) returns (freed: bool)
      requires Valid()
      modifies `readopen, `writeopen
      ensures Valid() && wrote == old(wrote) && took == old(took)
      ensures writeopen == (old(writeopen) && !writable) && readopen == (old(readopen) && writable)
      ensures freed <==> !readopen && !writeopen
    {
      if writable {
        writeopen := false;
      } else {
        readopen := false;
      }
      freed := !readopen && !writeopen;
    }
  }

  function Min(a: nat, b: nat): nat { if a < b then a else b }

  /** One byte is lost when the destination fails before n bytes are read and before the pipe is empty. */
  function Lost(n: nat, avail: nat, fault: nat): nat { if fault < Min(n, avail) then 1 else 0 }
}
