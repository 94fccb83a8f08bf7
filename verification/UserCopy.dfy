/** Copies between kernel and user memory through a page table: walkaddr, copyout, copyin and
    copyinstr (kernel/vm.c). */
module UserCopy {

  import opened Common
  import opened Blocks
  import opened PageTable
  import opened VirtualMemory

  /** Page v is mapped for the user (PTE_V and PTE_U), and not to address 0, which stands for failure. */
  ghost predicate User(tables: Tables, dir: Dir, v: nat) {
    v < MAX_VPN && V(Leaf(tables, dir, v)) && UserBit(Leaf(tables, dir, v)) && Ppn(Leaf(tables, dir, v)) != 0
  }

  predicate UserBit(pte: nat) { pte / 16 % 2 == 1 }

  ghost function FrameOf(tables: Tables, dir: Dir, v: nat): nat {
    Ppn(Leaf(tables, dir, v))
  }

  ghost predicate FramesOk(tables: Tables, dir: Dir, frames: Frames) {
    forall v: nat :: User(tables, dir, v) ==>
      FrameOf(tables, dir, v) in frames && |frames[FrameOf(tables, dir, v)]| == PGSIZE
  }

  function Offset(va: nat): (o: nat)
    ensures o < PGSIZE
  {
    va % PGSIZE
  }

  /** The byte at a user address. */
  ghost function ByteOf(tables: Tables, dir: Dir, frames: Frames, va: nat): Byte
    requires FramesOk(tables, dir, frames) && User(tables, dir, Floor(va))
  {
    frames[FrameOf(tables, dir, Floor(va))][Offset(va)]
  }

  /** All bytes of the range are user memory. */
  ghost predicate UserRange(tables: Tables, dir: Dir, va: nat, n: nat) {
    forall a :: va <= a < va + n ==> User(tables, dir, Floor(a))
  }

  /** walkaddr(). */
  method WalkAddr(m: Memory, root: nat, va: nat, ghost dir: Dir) returns (r: Option<nat>)
    requires m.Valid() && Shape(m.tables, root, dir)
    modifies m`tables, m`pages
    ensures m.Valid() && m.tables == old(m.tables) && m.pages == old(m.pages)
    ensures r.Some? <==> User(m.tables, dir, Floor(va))
    ensures r.Some? ==> r.value == FrameOf(m.tables, dir, Floor(va))
  {
    hide Shape, Leaf, V, Ppn, NodeOf, Px, UserBit, SameLeaves, Apart;
    var vpn := Floor(va);
    if vpn >= MAX_VPN {
      return None;
    }
    var pte, _ := m.Walk(root, vpn, false, dir);
    if pte.None? {
      Unserved(m.tables, dir, vpn);
      return None;
    }
    TableAt(m.tables, root, dir, vpn);
    var entry := m.tables[pte.value.0][pte.value.1];
    if !V(entry) || !UserBit(entry) || Ppn(entry) == 0 {
      return None;
    }
    return Some(Ppn(entry));
  }

  lemma Unserved(tables: Tables, dir: Dir, vpn: nat)
    requires NodeOf(0, vpn) !in dir
    ensures !V(Leaf(tables, dir, vpn))
  {
    ZeroInvalid();
  }

  /** The bytes from va to the end of its page, at most n. */
  function Chunk(va: nat, n: nat): (k: nat)
    ensures k <= n && (n > 0 ==> k > 0) && Offset(va) + k <= PGSIZE
    ensures k < n ==> Offset(va) + k == PGSIZE
  {
    if PGSIZE - Offset(va) < n then PGSIZE - Offset(va) else n
  }

  lemma InPage(va: nat, a: nat, k: nat)
    requires va <= a < va + k && Offset(va) + k <= PGSIZE
    ensures Floor(a) == Floor(va) && Offset(a) == Offset(va) + (a - va)
  {
    assert va == va / PGSIZE * PGSIZE + va % PGSIZE;
    var q, o := va / PGSIZE, va % PGSIZE + (a - va);
    assert a == q * PGSIZE + o;
    assert (q * PGSIZE + o) / PGSIZE == q && (q * PGSIZE + o) % PGSIZE == o;
  }

  /** copyin(): n bytes from user address va; fails exactly when one of them is not user memory, and
      has then copied the bytes in front of the first that is not. */
  method Copyin(m: Memory, root: nat, va: nat, n: nat, ghost dir: Dir) returns (r: int, data: seq<Byte>)
    requires m.Valid() && Shape(m.tables, root, dir) && FramesOk(m.tables, dir, m.frames)
    modifies m`tables, m`pages
    ensures m.Valid() && m.tables == old(m.tables) && m.pages == old(m.pages)
    ensures r == 0 || r == -1
    ensures r == 0 <==> UserRange(m.tables, dir, va, n)
    ensures r == 0 <==> |data| == n
    ensures |data| <= n && UserRange(m.tables, dir, va, |data|)
    ensures |data| < n ==> !User(m.tables, dir, Floor(va + |data|))
    ensures forall k :: 0 <= k < |data| ==> data[k] == ByteOf(m.tables, dir, m.frames, va + k)
  {
    hide Shape, Leaf, V, Ppn, UserBit, Floor, Offset;
    data := [];
    while |data| < n
      invariant |data| <= n && m.Valid() && m.tables == old(m.tables) && m.pages == old(m.pages)
      invariant UserRange(m.tables, dir, va, |data|)
      invariant forall k :: 0 <= k < |data| ==> data[k] == ByteOf(m.tables, dir, m.frames, va + k)
    {
      var a := va + |data|;
      var pa := WalkAddr(m, root, a, dir);
      if pa.None? {
        return -1, data;
      }
      var k := Chunk(a, n - |data|);
      forall b | a <= b < a + k ensures Floor(b) == Floor(a) && Offset(b) == Offset(a) + (b - a) {
        InPage(a, b, k);
      }
      data := data + m.frames[pa.value][Offset(a)..Offset(a) + k];
    }
    return 0, data;
  }

  // copyout.

  /** Some address of the range lies at offset o of frame p. */
  ghost predicate Hit(tables: Tables, dir: Dir, va: nat, n: nat, p: nat, o: nat) {
    exists a :: va <= a < va + n && FrameOf(tables, dir, Floor(a)) == p && Offset(a) == o
  }

  /** Frames keep their size, and change only where the range lies. */
  ghost predicate OnlyRange(tables: Tables, dir: Dir, frames: Frames, frames': Frames, va: nat, n: nat) {
    && frames'.Keys == frames.Keys
    && (forall p :: p in frames ==> |frames'[p]| == |frames[p]|)
    && (forall p, o | p in frames && 0 <= o < |frames[p]| ::
          Hit(tables, dir, va, n, p, o) || frames'[p][o] == frames[p][o])
  }

  /** Different pages of the range have different frames. */
  ghost predicate DistinctFrames(tables: Tables, dir: Dir, va: nat, n: nat) {
    forall a, b :: va <= a < va + n && va <= b < va + n && Floor(a) != Floor(b) ==>
      FrameOf(tables, dir, Floor(a)) != FrameOf(tables, dir, Floor(b))
  }

  ghost predicate Holds(tables: Tables, dir: Dir, frames: Frames, va: nat, data: seq<Byte>)
    requires FramesOk(tables, dir, frames)
  {
    UserRange(tables, dir, va, |data|) &&
    forall a :: va <= a < va + |data| ==> ByteOf(tables, dir, frames, a) == data[a - va]
  }

  lemma FramesOkFrame(tables: Tables, dir: Dir, frames: Frames, frames': Frames, va: nat, n: nat)
    requires FramesOk(tables, dir, frames) && OnlyRange(tables, dir, frames, frames', va, n)
    ensures FramesOk(tables, dir, frames')
  {
    hide User, FrameOf, Hit;
    forall v: nat | User(tables, dir, v)
      ensures FrameOf(tables, dir, v) in frames' && |frames'[FrameOf(tables, dir, v)]| == PGSIZE
    {
      assert FrameOf(tables, dir, v) in frames.Keys;
    }
  }

  function SpliceAt(s: seq<Byte>, o: nat, data: seq<Byte>): (r: seq<Byte>)
    requires o + |data| <= |s|
    ensures |r| == |s| && forall k :: 0 <= k < |s| ==> r[k] == if o <= k < o + |data| then data[k - o] else s[k]
  {
    s[..o] + data + s[o + |data|..]
  }

  /** One turn of copyout's loop: the chunk goes to the frame of the page of a. */
  lemma WroteChunk(tables: Tables, dir: Dir, f0: Frames, frames: Frames, frames': Frames, va: nat, data: seq<Byte>,
                   a: nat, chunk: seq<Byte>)
    requires FramesOk(tables, dir, f0) && OnlyRange(tables, dir, f0, frames, va, |data|)
    requires FramesOk(tables, dir, frames)
    requires a == va + |data| && User(tables, dir, Floor(a)) && 0 < |chunk| && Offset(a) + |chunk| <= PGSIZE
    requires var p := FrameOf(tables, dir, Floor(a));
      p in frames && |frames[p]| == PGSIZE && frames' == frames[p := SpliceAt(frames[p], Offset(a), chunk)]
    ensures OnlyRange(tables, dir, f0, frames', va, |data + chunk|) && FramesOk(tables, dir, frames')
  {
    hide User, FrameOf, Floor, Offset, SpliceAt;
    var p := FrameOf(tables, dir, Floor(a));
    forall q, o | q in f0 && 0 <= o < |f0[q]|
      ensures Hit(tables, dir, va, |data + chunk|, q, o) || frames'[q][o] == f0[q][o]
    {
      if q == p && Offset(a) <= o < Offset(a) + |chunk| {
        var b := a + (o - Offset(a));
        InPage(a, b, |chunk|);
        assert FrameOf(tables, dir, Floor(b)) == p && Offset(b) == o;
      } else if Hit(tables, dir, va, |data|, q, o) {
        var b :| va <= b < va + |data| && FrameOf(tables, dir, Floor(b)) == q && Offset(b) == o;
      }
    }
    FramesOkFrame(tables, dir, f0, frames', va, |data + chunk|);
  }

  lemma ChunkHolds(tables: Tables, dir: Dir, frames: Frames, frames': Frames, va: nat, data: seq<Byte>, n: nat, a: nat,
                   chunk: seq<Byte>)
    requires FramesOk(tables, dir, frames) && FramesOk(tables, dir, frames') && Holds(tables, dir, frames, va, data)
    requires DistinctFrames(tables, dir, va, n) && |data + chunk| <= n
    requires a == va + |data| && User(tables, dir, Floor(a)) && 0 < |chunk| && Offset(a) + |chunk| <= PGSIZE
    requires var p := FrameOf(tables, dir, Floor(a));
      p in frames && |frames[p]| == PGSIZE && frames' == frames[p := SpliceAt(frames[p], Offset(a), chunk)]
    ensures Holds(tables, dir, frames', va, data + chunk)
  {
    hide User, FrameOf, Floor, Offset, SpliceAt;
    var more := data + chunk;
    forall b | va <= b < va + |more|
      ensures User(tables, dir, Floor(b)) && ByteOf(tables, dir, frames', b) == more[b - va]
    {
      if b >= a {
        InPage(a, b, |chunk|);
      } else {
        assert User(tables, dir, Floor(b)) && ByteOf(tables, dir, frames, b) == data[b - va];
        if Floor(b) == Floor(a) {
          BeforeIn(b, a);
        }
      }
    }
  }

  lemma BeforeIn(b: nat, a: nat)
    requires b < a && Floor(b) == Floor(a)
    ensures Offset(b) < Offset(a)
  {
  }

  /** copyout(): src to user address va. Of src, done bytes were copied. */
  method Copyout(m: Memory, root: nat, va: nat, src: seq<Byte>, ghost dir: Dir) returns (r: int, ghost done: nat)
    requires m.Valid() && Shape(m.tables, root, dir) && FramesOk(m.tables, dir, m.frames)
    modifies m`tables, m`pages, m`frames
    ensures m.Valid() && m.tables == old(m.tables) && m.pages == old(m.pages) && FramesOk(m.tables, dir, m.frames)
    ensures r == 0 || r == -1
    ensures r == 0 <==> UserRange(m.tables, dir, va, |src|)
    ensures done <= |src| && (r == 0 ==> done == |src|)
    ensures OnlyRange(m.tables, dir, old(m.frames), m.frames, va, done)
    ensures DistinctFrames(m.tables, dir, va, |src|) ==> Holds(m.tables, dir, m.frames, va, src[..done])
  {
    hide Shape, User, FrameOf, Floor, Offset, FramesOk, OnlyRange, Holds, DistinctFrames, SpliceAt;
    done := 0;
    var k := 0;
    CopyoutStart(m.tables, dir, m.frames, va);
    while k < |src|
      invariant done == k <= |src| && m.Valid() && m.tables == old(m.tables) && m.pages == old(m.pages)
      invariant FramesOk(m.tables, dir, m.frames) && OnlyRange(m.tables, dir, old(m.frames), m.frames, va, k)
      invariant UserRange(m.tables, dir, va, k)
      invariant DistinctFrames(m.tables, dir, va, |src|) ==> Holds(m.tables, dir, m.frames, va, src[..k])
    {
      var a := va + k;
      var pa := WalkAddr(m, root, a, dir);
      if pa.None? {
        return -1, done;
      }
      var n := Chunk(a, |src| - k);
      ghost var f1 := m.frames;
      FrameAt(m.tables, dir, m.frames, Floor(a));
      m.frames := m.frames[pa.value := SpliceAt(m.frames[pa.value], Offset(a), src[k..k + n])];
      WroteChunk(m.tables, dir, old(m.frames), f1, m.frames, va, src[..k], a, src[k..k + n]);
      assert src[..k] + src[k..k + n] == src[..k + n];
      if DistinctFrames(m.tables, dir, va, |src|) {
        ChunkHolds(m.tables, dir, f1, m.frames, va, src[..k], |src|, a, src[k..k + n]);
      }
      forall b | a <= b < a + n ensures User(m.tables, dir, Floor(b)) {
        InPage(a, b, n);
      }
      k := k + n;
      done := k;
    }
    return 0, done;
  }

  lemma CopyoutStart(tables: Tables, dir: Dir, frames: Frames, va: nat)
    requires FramesOk(tables, dir, frames)
    ensures OnlyRange(tables, dir, frames, frames, va, 0) && Holds(tables, dir, frames, va, [])
  {
  }

  lemma FrameAt(tables: Tables, dir: Dir, frames: Frames, v: nat)
    requires FramesOk(tables, dir, frames) && User(tables, dir, v)
    ensures FrameOf(tables, dir, v) in frames && |frames[FrameOf(tables, dir, v)]| == PGSIZE
  {
  }

  /** What copyout has put down, copyin brings back. */
  method RoundTrip(m: Memory, root: nat, va: nat, src: seq<Byte>, ghost dir: Dir) returns (ok: bool, data: seq<Byte>)
    requires m.Valid() && Shape(m.tables, root, dir) && FramesOk(m.tables, dir, m.frames)
    requires DistinctFrames(m.tables, dir, va, |src|)
    modifies m`tables, m`pages, m`frames
    ensures ok <==> UserRange(m.tables, dir, va, |src|)
    ensures ok ==> data == src
  {
    hide Shape, User, FrameOf, Floor, Offset;
    var r, _ := Copyout(m, root, va, src, dir);
    if r != 0 {
      return false, [];
    }
    r, data := Copyin(m, root, va, |src|, dir);
    ok := r == 0;
    assert src[..|src|] == src;
    forall k | 0 <= k < |src| ensures data[k] == src[k] {
      assert ByteOf(m.tables, dir, m.frames, va + k) == src[va + k - va];
    }
  }

  /** A string without its NUL stands at va, all of it and the NUL in user memory. */
  ghost predicate StringAt(tables: Tables, dir: Dir, frames: Frames, va: nat, s: seq<Byte>)
    requires FramesOk(tables, dir, frames)
  {
    && UserRange(tables, dir, va, |s| + 1) && 0 !in s
    && (forall a :: va <= a < va + |s| ==> ByteOf(tables, dir, frames, a) == s[a - va])
    && ByteOf(tables, dir, frames, va + |s|) == 0
  }

  /** Where a string starts there is one string only. */
  lemma OneString(tables: Tables, dir: Dir, frames: Frames, va: nat, s: seq<Byte>, t: seq<Byte>)
    requires FramesOk(tables, dir, frames) && StringAt(tables, dir, frames, va, s)
    requires StringAt(tables, dir, frames, va, t)
    ensures s == t
  {
    hide User, FrameOf, Floor, Offset;
    LongString(tables, dir, frames, va, s, t);
    LongString(tables, dir, frames, va, t, s);
    forall k | 0 <= k < |s| ensures s[k] == t[k] {
      assert s[va + k - va] == ByteOf(tables, dir, frames, va + k) == t[va + k - va];
    }
  }

  /** copyinstr(): the string at va, if it ends within max bytes; fails exactly when there is none. */
  method Copyinstr(m: Memory, root: nat, va: nat, max: nat, ghost dir: Dir) returns (r: int, data: seq<Byte>)
    requires m.Valid() && Shape(m.tables, root, dir) && FramesOk(m.tables, dir, m.frames)
    modifies m`tables, m`pages
    ensures m.Valid() && m.tables == old(m.tables) && m.pages == old(m.pages)
    ensures r == 0 || r == -1
    ensures r == 0 ==> |data| < max && StringAt(m.tables, dir, m.frames, va, data)
    ensures r == -1 ==> forall s :: |s| < max ==> !StringAt(m.tables, dir, m.frames, va, s)
  {
    hide Shape, User, FrameOf, Floor, Offset;
    data := [];
    while |data| < max
      invariant |data| <= max && m.Valid() && m.tables == old(m.tables) && m.pages == old(m.pages)
      invariant UserRange(m.tables, dir, va, |data|) && 0 !in data
      invariant forall a :: va <= a < va + |data| ==> ByteOf(m.tables, dir, m.frames, a) == data[a - va]
    {
      var a := va + |data|;
      var pa := WalkAddr(m, root, a, dir);
      if pa.None? {
        NoString(m.tables, dir, m.frames, va, data);
        return -1, data;
      }
      var n := Chunk(a, max - |data|);
      FrameAt(m.tables, dir, m.frames, Floor(a));
      var k := 0;
      while k < n
        invariant k <= n && |data| == a - va + k && m.tables == old(m.tables) && m.pages == old(m.pages)
        invariant UserRange(m.tables, dir, va, |data|) && 0 !in data
        invariant forall b :: va <= b < va + |data| ==> ByteOf(m.tables, dir, m.frames, b) == data[b - va]
      {
        InPage(a, a + k, n);
        var c := m.frames[pa.value][Offset(a) + k];
        if c == 0 {
          return 0, data;
        }
        data := data + [c];
        k := k + 1;
      }
    }
    forall s | |s| < max ensures !StringAt(m.tables, dir, m.frames, va, s) {
      LongString(m.tables, dir, m.frames, va, data, s);
    }
    return -1, data;
  }

  /** A string cannot end before the bytes seen, and not be there behind unmapped memory. */
  lemma NoString(tables: Tables, dir: Dir, frames: Frames, va: nat, data: seq<Byte>)
    requires FramesOk(tables, dir, frames) && UserRange(tables, dir, va, |data|) && 0 !in data
    requires forall a :: va <= a < va + |data| ==> ByteOf(tables, dir, frames, a) == data[a - va]
    requires !User(tables, dir, Floor(va + |data|))
    ensures forall s :: !StringAt(tables, dir, frames, va, s)
  {
    hide User, FrameOf, Floor, Offset;
    forall s ensures !StringAt(tables, dir, frames, va, s) {
      LongString(tables, dir, frames, va, data, s);
    }
  }

  lemma LongString(tables: Tables, dir: Dir, frames: Frames, va: nat, data: seq<Byte>, s: seq<Byte>)
    requires FramesOk(tables, dir, frames) && UserRange(tables, dir, va, |data|) && 0 !in data
    requires forall a :: va <= a < va + |data| ==> ByteOf(tables, dir, frames, a) == data[a - va]
    ensures StringAt(tables, dir, frames, va, s) ==> |s| >= |data|
  {
    hide User, FrameOf, Floor, Offset;
    if |s| < |data| {
      assert data[va + |s| - va] in data;
    }
  }
}
