/** The virtio block driver and its device over one split virtqueue (kernel/virtio_disk.c, sections
    2.6 and 5.2 of VIRTIO 1.1): requests, the interrupt handler and the device take turns in any
    order. The driver's code runs under vdisk_lock; the device takes no lock. */
module Virtqueue {

  import opened Common

  const NUM: nat := 8
  const WRAP: nat := 0x1_0000

  type Buf = nat

  /** What a descriptor points at: the command of the chain at h, the data of a buffer, or the
      status byte of the chain at h. */
  datatype Addr = Nothing | Command(h: nat) | Data(b: Buf) | StatusOf(h: nat)

  datatype Desc = Desc(addr: Addr, write: bool, chained: bool, next: nat)

  /** How far a request has got: chain built, published, fetched by the device, in the used ring,
      reported by the interrupt handler. */
  datatype Phase = Built | Avail | Device | Used | Done

  datatype Req = Req(h: nat, i: nat, j: nat, write: bool, phase: Phase)

  datatype Holder = Thread(b: Buf) | Interrupt

  /** The driver's and the device's data, and below it the history the proofs speak about: the active
      requests, who owns which descriptor, the requests between the indices of each ring, and the
      indices without wrap-around. */
  datatype State = State(
    free: seq<bool>, desc: seq<Desc>, info: seq<Option<Buf>>, status: seq<nat>, busy: set<Buf>, lock: Option<Holder>,
    aring: seq<nat>, aidx: nat, uring: seq<nat>, uidx: nat, seen: nat,
    last: nat, inflight: set<nat>,
    reqs: map<Buf, Req>, own: seq<Option<Buf>>, aq: seq<Buf>, uq: seq<Buf>, an: nat, fn: nat, un: nat, sn: nat,
    asked: map<Buf, nat>, done: map<Buf, nat>)

  ghost predicate Sized(s: State) {
    |s.free| == |s.desc| == |s.info| == |s.status| == |s.aring| == |s.uring| == |s.own| == NUM
  }

  // Descriptors, as the driver's loops treat them.

  /** alloc_desc: the first free descriptor from i on. */
  function FirstFree(free: seq<bool>, i: nat): Option<nat>
    decreases |free| - i
  {
    if i >= |free| then None else if free[i] then Some(i) else FirstFree(free, i + 1)
  }

  lemma {:induction false} FirstFreeIs(free: seq<bool>, i: nat)
    ensures var r := FirstFree(free, i);
      && (r.Some? ==> i <= r.value < |free| && free[r.value] && forall k :: i <= k < r.value ==> !free[k])
      && (r.None? ==> forall k :: i <= k < |free| ==> !free[k])
    decreases |free| - i
  {
    if i < |free| && !free[i] {
      FirstFreeIs(free, i + 1);
    }
  }

  method AllocDesc(free: array<bool>) returns (r: Option<nat>)
    modifies free
    ensures r == FirstFree(old(free[..]), 0)
    ensures r.None? ==> free[..] == old(free[..])
    ensures r.Some? ==> r.value < free.Length && free[..] == old(free[..])[r.value := false]
  {
    var i := 0;
    while i < free.Length
      invariant i <= free.Length && free[..] == old(free[..])
      invariant FirstFree(free[..], i) == FirstFree(free[..], 0)
    {
      if free[i] {
        free[i] := false;
        return Some(i);
      }
      i := i + 1;
    }
    return None;
  }

  datatype Triple = Triple(h: nat, i: nat, j: nat)

  /** alloc3_desc. */
  function Three(free: seq<bool>): Option<Triple> {
    var a := FirstFree(free, 0);
    if a.None? then None
    else
      FirstFreeIs(free, 0);
      var free1 := free[a.value := false];
      var b := FirstFree(free1, 0);
      if b.None? then None
      else
        FirstFreeIs(free1, 0);
        var c := FirstFree(free1[b.value := false], 0);
        if c.None? then None else Some(Triple(a.value, b.value, c.value))
  }

  lemma ThreeIs(free: seq<bool>)
    requires Three(free).Some?
    ensures var t := Three(free).value;
      t.h < |free| && t.i < |free| && t.j < |free| && free[t.h] && free[t.i] && free[t.j] && t.h != t.i && t.i != t.j &&
        t.h != t.j
  {
    FirstFreeIs(free, 0);
    var t := Three(free).value;
    FirstFreeIs(free[t.h := false], 0);
    FirstFreeIs(free[t.h := false][t.i := false], 0);
  }

  /** alloc3_desc gives three free descriptors or, when there are fewer, takes none. */
  method Alloc3(free: array<bool>) returns (r: Option<Triple>)
    modifies free
    ensures r == Three(old(free[..]))
    ensures r.None? ==> free[..] == old(free[..])
    ensures r.Some? ==> Three(old(free[..])).Some?
    ensures r.Some? ==> r.value.h < free.Length && r.value.i < free.Length && r.value.j < free.Length
    ensures r.Some? ==> free[..] == old(free[..])[r.value.h := false][r.value.i := false][r.value.j := false]
  {
    ghost var f := free[..];
    var a := AllocDesc(free);
    if a.None? {
      return None;
    }
    FirstFreeIs(f, 0);
    var b := AllocDesc(free);
    if b.None? {
      free[a.value] := true;
      assert free[..] == f;
      return None;
    }
    FirstFreeIs(f[a.value := false], 0);
    var c := AllocDesc(free);
    if c.None? {
      free[a.value] := true;
      free[b.value] := true;
      assert free[..] == f;
      return None;
    }
    return Some(Triple(a.value, b.value, c.value));
  }

  const EMPTY_DESC := Desc(Nothing, false, false, 0)

  /** Three descriptors form the chain h, i, j. */
  predicate Chained(desc: seq<Desc>, h: nat, i: nat, j: nat) {
    && h < |desc| && i < |desc| && j < |desc| && h != i && i != j && h != j
    && desc[h].chained && desc[h].next == i && desc[i].chained && desc[i].next == j && !desc[j].chained
  }

  /** free_desc, which panics if the descriptor is free already. */
  method FreeDesc(free: array<bool>, desc: array<Desc>, i: nat)
    requires i < free.Length == desc.Length && !free[i]
    modifies free, desc
    ensures free[..] == old(free[..])[i := true] && desc[..] == old(desc[..])[i := EMPTY_DESC]
  {
    desc[i] := EMPTY_DESC;
    free[i] := true;
  }

  /** free_chain on a chain of three: frees exactly these, and meets no free descriptor. */
  method FreeChain(free: array<bool>, desc: array<Desc>, h: nat, ghost i: nat, ghost j: nat)
    requires free.Length == desc.Length && Chained(desc[..], h, i, j)
    requires !free[h] && !free[i] && !free[j]
    modifies free, desc
    ensures free[..] == old(free[..])[h := true][i := true][j := true]
    ensures desc[..] == old(desc[..])[h := EMPTY_DESC][i := EMPTY_DESC][j := EMPTY_DESC]
  {
    var k := h;
    ghost var n := 0;
    while true
      invariant n < 3 && k == if n == 0 then h else if n == 1 then i else j
      invariant free[..] ==
        if n == 0 then old(free[..]) else if n == 1 then old(free[..])[h := true]
        else old(free[..])[h := true][i := true]
      invariant desc[..] ==
        if n == 0 then old(desc[..]) else if n == 1 then old(desc[..])[h := EMPTY_DESC]
        else old(desc[..])[h := EMPTY_DESC][i := EMPTY_DESC]
      decreases 3 - n
    {
      ghost var f, d := free[..], desc[..];
      assert free[k] == f[k] && desc[k] == d[k];
      var chained, next := desc[k].chained, desc[k].next;
      FreeDesc(free, desc, k);
      if !chained {
        return;
      }
      k := next;
      n := n + 1;
    }
  }

  // The protocol.

  datatype Action =
    | Take(b: Buf, write: bool) | Publish(b: Buf) | Wait(b: Buf) | Finish(b: Buf)
    | IntrBegin | IntrOne | IntrEnd
    | Fetch | Complete(h: nat)

  function Bump(m: map<Buf, nat>, b: Buf): map<Buf, nat> {
    m[b := 1 + if b in m then m[b] else 0]
  }

  /** virtio_disk_rw up to the notification: three descriptors are taken and formatted, and the head
      is put into the available ring; then the index is raised, which shows it to the device. */
  ghost predicate TakeStep(s: State, s': State, b: Buf, write: bool)
    requires Sized(s)
  {
    && s.lock.None? && b !in s.reqs && Three(s.free).Some?
    && var t := Three(s.free).value;
       && t.h < NUM && t.i < NUM && t.j < NUM
       && s' == s.(
         lock := Some(Thread(b)),
         free := s.free[t.h := false][t.i := false][t.j := false],
         desc := s.desc[t.h := Desc(Command(t.h), false, true, t.i)]
                       [t.i := Desc(Data(b), !write, true, t.j)][t.j := Desc(StatusOf(t.h), true, false, 0)],
         info := s.info[t.h := Some(b)],
         status := s.status[t.h := 0xff],
         busy := s.busy + {b},
         aring := s.aring[s.aidx % NUM := t.h],
         reqs := s.reqs[b := Req(t.h, t.i, t.j, write, Built)],
         own := s.own[t.h := Some(b)][t.i := Some(b)][t.j := Some(b)],
         asked := Bump(s.asked, b))
  }

  ghost predicate PublishStep(s: State, s': State, b: Buf)
    requires Sized(s)
  {
    && s.lock == Some(Thread(b)) && b in s.reqs && s.reqs[b].phase.Built?
    && s' == s.(aidx := (s.aidx + 1) % WRAP, an := s.an + 1, aq := s.aq + [b],
                reqs := s.reqs[b := s.reqs[b].(phase := Avail)])
  }

  /** The requester sleeps, giving the lock away, while its request is not done. */
  ghost predicate WaitStep(s: State, s': State, b: Buf)
    requires Sized(s)
  {
    && s.lock == Some(Thread(b)) && b in s.reqs && !s.reqs[b].phase.Built? && b in s.busy
    && s' == s.(lock := None)
  }

  /** The rest of virtio_disk_rw, once b->disk is 0. */
  ghost predicate FinishStep(s: State, s': State, b: Buf)
    requires Sized(s)
  {
    && s.lock.None? && b in s.reqs && b !in s.busy
    && var r := s.reqs[b];
       && r.h < NUM && r.i < NUM && r.j < NUM
       && s' == s.(
         info := s.info[r.h := None],
         free := s.free[r.h := true][r.i := true][r.j := true],
         desc := s.desc[r.h := EMPTY_DESC][r.i := EMPTY_DESC][r.j := EMPTY_DESC],
         own := s.own[r.h := None][r.i := None][r.j := None],
         reqs := s.reqs - {b})
  }

  /** The entry of the used ring that the handler looks at next names a request. */
  ghost predicate UsedFound(s: State)
    requires Sized(s)
  {
    var id := s.uring[s.seen % NUM];
    id < NUM && s.info[id].Some? && s.info[id].value in s.reqs && s.uq != []
  }

  /** virtio_disk_intr. */
  ghost predicate IntrStep(s: State, s': State, a: Action)
    requires Sized(s)
  {
    match a
    case IntrBegin => s.lock.None? && s' == s.(lock := Some(Interrupt))
    case IntrEnd => s.lock == Some(Interrupt) && s.seen == s.uidx && s' == s.(lock := None)
    case IntrOne =>
      && s.lock == Some(Interrupt) && s.seen != s.uidx && UsedFound(s)
      && var b := s.info[s.uring[s.seen % NUM]].value;
         s' == s.(busy := s.busy - {b}, seen := (s.seen + 1) % WRAP, sn := s.sn + 1, uq := s.uq[1..],
                  reqs := s.reqs[b := s.reqs[b].(phase := Done)], done := Bump(s.done, b))
    case _ => false
  }

  /** The entry of the available ring that the device looks at next is the head of a request. */
  ghost predicate AvailFound(s: State)
    requires Sized(s)
  {
    var h := s.aring[s.last % NUM];
    h < NUM && s.info[h].Some? && s.info[h].value in s.reqs && s.aq != []
  }

  /** The device takes the next head from the available ring. */
  ghost predicate FetchStep(s: State, s': State)
    requires Sized(s)
  {
    && s.last != s.aidx && AvailFound(s)
    && var h := s.aring[s.last % NUM];
       var b := s.info[h].value;
       s' == s.(last := (s.last + 1) % WRAP, fn := s.fn + 1, aq := s.aq[1..], inflight := s.inflight + {h},
                reqs := s.reqs[b := s.reqs[b].(phase := Device)])
  }

  /** The status byte that the chain at h ends with, as the device finds it. */
  ghost function StatusByte(desc: seq<Desc>, h: nat): Option<nat>
    requires |desc| == NUM
  {
    if h < NUM && desc[h].chained && desc[h].next < NUM && desc[desc[h].next].chained &&
      desc[desc[h].next].next < NUM then
      var last := desc[desc[desc[h].next].next];
      if last.addr.StatusOf? && last.addr.h < NUM then Some(last.addr.h) else None
    else None
  }

  /** The chain at h is whole and belongs to a request. */
  ghost predicate ChainFound(s: State, h: nat)
    requires Sized(s)
  {
    h < NUM && StatusByte(s.desc, h).Some? && s.info[h].Some? && s.info[h].value in s.reqs
  }

  /** The device finishes the request at h: it writes the status and puts h into the used ring. */
  ghost predicate CompleteStep(s: State, s': State, h: nat)
    requires Sized(s)
  {
    && h in s.inflight && ChainFound(s, h)
    && var b := s.info[h].value;
       s' == s.(status := s.status[StatusByte(s.desc, h).value := 0], uring := s.uring[s.uidx % NUM := h],
                uidx := (s.uidx + 1) % WRAP, un := s.un + 1, uq := s.uq + [b], inflight := s.inflight - {h},
                reqs := s.reqs[b := s.reqs[b].(phase := Used)])
  }

  ghost predicate Next(s: State, s': State, a: Action) {
    && Sized(s)
    && match a
       case Take(b, write) => TakeStep(s, s', b, write)
       case Publish(b) => PublishStep(s, s', b)
       case Wait(b) => WaitStep(s, s', b)
       case Finish(b) => FinishStep(s, s', b)
       case Fetch => FetchStep(s, s')
       case Complete(h) => CompleteStep(s, s', h)
       case _ => IntrStep(s, s', a)
  }

  ghost predicate Init(s: State) {
    && Sized(s)
    && (forall d :: 0 <= d < NUM ==> s.free[d] && s.info[d].None? && s.own[d].None?)
    && s.busy == {} && s.lock.None? && s.inflight == {} && s.reqs == map[] && s.aq == [] && s.uq == []
    && s.aidx == s.uidx == s.seen == s.last == s.an == s.fn == s.un == s.sn == 0
    && s.asked == map[] && s.done == map[]
  }

  // The invariant.

  ghost predicate In(r: Req, d: nat) {
    d == r.h || d == r.i || d == r.j
  }

  ghost predicate OwnsOk(own: seq<Option<Buf>>, b: Buf, r: Req)
    requires |own| == NUM
  {
    && r.h < NUM && r.i < NUM && r.j < NUM && r.h != r.i && r.i != r.j && r.h != r.j
    && own[r.h] == own[r.i] == own[r.j] == Some(b)
  }

  /** Free descriptors and the chains of the requests partition the descriptors. */
  ghost predicate Owned(free: seq<bool>, own: seq<Option<Buf>>, reqs: map<Buf, Req>) {
    && |free| == |own| == NUM
    && (forall b :: b in reqs ==> OwnsOk(own, b, reqs[b]))
    && (forall d :: 0 <= d < NUM ==> (free[d] <==> own[d].None?))
    && (forall d :: 0 <= d < NUM && own[d].Some? ==> own[d].value in reqs && In(reqs[own[d].value], d))
  }

  ghost predicate ChainOk(desc: seq<Desc>, info: seq<Option<Buf>>, b: Buf, r: Req)
    requires |desc| == |info| == NUM && r.h < NUM && r.i < NUM && r.j < NUM
  {
    && desc[r.h] == Desc(Command(r.h), false, true, r.i)
    && desc[r.i] == Desc(Data(b), !r.write, true, r.j)
    && desc[r.j] == Desc(StatusOf(r.h), true, false, 0)
    && info[r.h] == Some(b)
  }

  ghost predicate ChainsOk(desc: seq<Desc>, info: seq<Option<Buf>>, reqs: map<Buf, Req>) {
    && |desc| == |info| == NUM
    && forall b :: b in reqs ==>
      reqs[b].h < NUM && reqs[b].i < NUM && reqs[b].j < NUM && ChainOk(desc, info, b, reqs[b])
  }

  ghost predicate BusyOk(busy: set<Buf>, lock: Option<Holder>, reqs: map<Buf, Req>, asked: map<Buf, nat>,
                         done: map<Buf, nat>) {
    && (forall b :: b in busy ==> b in reqs)
    && (forall b :: b in reqs ==> (b in busy <==> !reqs[b].phase.Done?))
    && (forall b :: b in reqs && reqs[b].phase.Built? ==> lock == Some(Thread(b)))
    && (forall b :: lock == Some(Thread(b)) ==> b in reqs)
    && (forall b :: Count(asked, b) == Count(done, b) + if b in reqs && !reqs[b].phase.Done? then 1 else 0)
  }

  ghost function Count(m: map<Buf, nat>, b: Buf): nat {
    if b in m then m[b] else 0
  }

  ghost predicate Distinct(q: seq<Buf>) {
    forall k, m :: 0 <= k < m < |q| ==> q[k] != q[m]
  }

  /** From index n on, the ring holds the heads of the requests of q, which are all those in phase p. */
  ghost predicate Ring(ring: seq<nat>, n: nat, q: seq<Buf>, reqs: map<Buf, Req>, p: Phase) {
    && |ring| == NUM && Distinct(q)
    && (forall k :: 0 <= k < |q| ==> q[k] in reqs && reqs[q[k]].phase == p && Slot(ring, n + k) == reqs[q[k]].h)
    && (forall b :: b in reqs && reqs[b].phase == p ==> b in q)
  }

  function Slot(ring: seq<nat>, n: nat): nat
    requires |ring| == NUM
  {
    ring[n % NUM]
  }

  ghost predicate AvailOk(aring: seq<nat>, aidx: nat, last: nat, an: nat, fn: nat, aq: seq<Buf>, reqs: map<Buf, Req>) {
    && aidx == an % WRAP && last == fn % WRAP && an == fn + |aq|
    && Ring(aring, fn, aq, reqs, Avail)
    && (forall b :: b in reqs && reqs[b].phase.Built? ==> Slot(aring, an) == reqs[b].h)
  }

  ghost predicate UsedOk(uring: seq<nat>, uidx: nat, seen: nat, un: nat, sn: nat, uq: seq<Buf>, reqs: map<Buf, Req>,
                         status: seq<nat>) {
    && uidx == un % WRAP && seen == sn % WRAP && un == sn + |uq| && |status| == NUM
    && Ring(uring, sn, uq, reqs, Used)
    && (forall b :: b in reqs && reqs[b].phase.Used? ==> reqs[b].h < NUM && status[reqs[b].h] == 0)
  }

  ghost predicate DeviceOk(inflight: set<nat>, info: seq<Option<Buf>>, reqs: map<Buf, Req>) {
    && |info| == NUM
    && (forall h :: h in inflight ==> h < NUM && info[h].Some? && info[h].value in reqs)
    && (forall h :: h in inflight ==> reqs[info[h].value].h == h && reqs[info[h].value].phase.Device?)
    && (forall b :: b in reqs && reqs[b].phase.Device? ==> reqs[b].h in inflight)
  }

  ghost predicate Inv(s: State) {
    && Sized(s)
    && Owned(s.free, s.own, s.reqs)
    && ChainsOk(s.desc, s.info, s.reqs)
    && BusyOk(s.busy, s.lock, s.reqs, s.asked, s.done)
    && AvailOk(s.aring, s.aidx, s.last, s.an, s.fn, s.aq, s.reqs)
    && UsedOk(s.uring, s.uidx, s.seen, s.un, s.sn, s.uq, s.reqs, s.status)
    && DeviceOk(s.inflight, s.info, s.reqs)
  }

  // At most two requests.

  ghost function Parts(r: Req): set<nat> {
    {r.h, r.i, r.j}
  }

  lemma TwoRequests(free: seq<bool>, own: seq<Option<Buf>>, reqs: map<Buf, Req>)
    requires Owned(free, own, reqs)
    ensures |reqs| <= 2
  {
    var keys := reqs.Keys;
    if |keys| > 2 {
      var a :| a in keys;
      var rest := keys - {a};
      assert |rest| == |keys| - 1;
      var b :| b in rest;
      var rest2 := rest - {b};
      assert |rest2| == |rest| - 1;
      var c :| c in rest2;
      hide OwnsOk;
      NoThree(own, a, b, c, reqs[a], reqs[b], reqs[c]);
    }
  }

  lemma PartsSize(own: seq<Option<Buf>>, b: Buf, r: Req)
    requires |own| == NUM && OwnsOk(own, b, r)
    ensures |Parts(r)| == 3 && Parts(r) <= Below(NUM) && forall d :: d in Parts(r) ==> own[d] == Some(b)
  {
    hide Below;
    BelowSize(NUM);
  }

  ghost function Below(n: nat): set<nat> {
    if n == 0 then {} else Below(n - 1) + {n - 1}
  }

  lemma {:induction false} BelowSize(n: nat)
    ensures |Below(n)| == n && forall d :: d in Below(n) <==> 0 <= d < n
  {
    if n > 0 {
      BelowSize(n - 1);
    }
  }

  lemma DisjointSize(a: set<nat>, b: set<nat>)
    requires a !! b
    ensures |a + b| == |a| + |b|
  {
  }

  /** Three requests would need nine descriptors. */
  lemma NoThree(own: seq<Option<Buf>>, a: Buf, b: Buf, c: Buf, r: Req, s: Req, t: Req)
    requires |own| == NUM && a != b && b != c && a != c
    requires OwnsOk(own, a, r) && OwnsOk(own, b, s)
    ensures !OwnsOk(own, c, t)
  {
    hide OwnsOk, Parts, Below;
    if OwnsOk(own, c, t) {
      PartsSize(own, a, r);
      PartsSize(own, b, s);
      PartsSize(own, c, t);
      BelowSize(NUM);
      DisjointSize(Parts(r), Parts(s));
      DisjointSize(Parts(r) + Parts(s), Parts(t));
      SubsetSize(Parts(r) + Parts(s) + Parts(t), Below(NUM));
    }
  }

  ghost function Members(q: seq<Buf>): set<Buf> {
    set b | b in q
  }

  lemma {:induction false} DistinctSize(q: seq<Buf>)
    requires Distinct(q)
    ensures |Members(q)| == |q|
  {
    if q != [] {
      var n := |q| - 1;
      DistinctSize(q[..n]);
      assert Members(q) == Members(q[..n]) + {q[n]};
    }
  }

  /** A queue of requests has at most two elements, so a ring of eight never overflows. */
  lemma ShortQueue(free: seq<bool>, own: seq<Option<Buf>>, reqs: map<Buf, Req>, ring: seq<nat>, n: nat, q: seq<Buf>,
                   p: Phase)
    requires Owned(free, own, reqs) && Ring(ring, n, q, reqs, p)
    ensures |q| <= 2
  {
    TwoRequests(free, own, reqs);
    DistinctSize(q);
    assert Members(q) <= reqs.Keys;
    SubsetSize(Members(q), reqs.Keys);
  }

  // What the steps do to the rings.

  /** Indices that wrap at 2^16 and are at most two apart are equal exactly when the true ones are. */
  lemma WrapIs(n: nat, k: nat)
    requires k <= 2
    ensures n % WRAP == (n + k) % WRAP <==> k == 0
    ensures (n % WRAP + 1) % WRAP == (n + 1) % WRAP && n % WRAP % NUM == n % NUM
  {
    WrapAdd(n, k);
    WrapAdd(n, 1);
    WrapSlot(n, 0);
  }

  lemma WrapAdd(n: nat, k: nat)
    requires k <= 2
    ensures (n + k) % WRAP == if n % WRAP + k < WRAP then n % WRAP + k else n % WRAP + k - WRAP
  {
    var q, r := n / WRAP, n % WRAP;
    if r + k < WRAP {
      ModOf(q, r + k, WRAP);
      assert n + k == q * WRAP + (r + k);
    } else {
      ModOf(q + 1, r + k - WRAP, WRAP);
      assert n + k == (q + 1) * WRAP + (r + k - WRAP);
    }
  }

  lemma WrapSlot(n: nat, k: nat)
    ensures (n % WRAP + k) % NUM == (n + k) % NUM
  {
    var q, x := n / WRAP * 8192, n % WRAP + k;
    assert n + k == q * NUM + x;
    var y, z := x / NUM, x % NUM;
    ModOf(q + y, z, NUM);
    assert q * NUM + x == (q + y) * NUM + z;
  }

  lemma RingOther(ring: seq<nat>, n: nat, q: seq<Buf>, reqs: map<Buf, Req>, p: Phase, b: Buf, to: Phase)
    requires Ring(ring, n, q, reqs, p) && b in reqs && reqs[b].phase != p && to != p
    ensures Ring(ring, n, q, reqs[b := reqs[b].(phase := to)], p)
  {
    hide Slot;
  }

  lemma RingPush(ring: seq<nat>, n: nat, q: seq<Buf>, reqs: map<Buf, Req>, p: Phase, b: Buf)
    requires Ring(ring, n, q, reqs, p) && b in reqs && reqs[b].phase != p && Slot(ring, n + |q|) == reqs[b].h
    ensures Ring(ring, n, q + [b], reqs[b := reqs[b].(phase := p)], p)
  {
    hide Slot;
  }

  lemma RingPop(ring: seq<nat>, n: nat, q: seq<Buf>, reqs: map<Buf, Req>, p: Phase, to: Phase)
    requires Ring(ring, n, q, reqs, p) && q != [] && to != p
    ensures q[0] in reqs && Ring(ring, n + 1, q[1..], reqs[q[0] := reqs[q[0]].(phase := to)], p)
  {
    hide Slot;
    var reqs', rest := reqs[q[0] := reqs[q[0]].(phase := to)], q[1..];
    forall k | 0 <= k < |rest|
      ensures rest[k] in reqs' && reqs'[rest[k]].phase == p && Slot(ring, n + 1 + k) == reqs'[rest[k]].h
    {
      assert rest[k] == q[k + 1] && Slot(ring, n + (k + 1)) == reqs[q[k + 1]].h;
    }
    forall b | b in reqs' && reqs'[b].phase == p ensures b in rest {
      assert b in q;
      var k :| 0 <= k < |q| && q[k] == b;
      assert rest[k - 1] == b;
    }
  }

  lemma RingWrite(ring: seq<nat>, n: nat, q: seq<Buf>, reqs: map<Buf, Req>, p: Phase, h: nat)
    requires Ring(ring, n, q, reqs, p) && |q| <= 2
    ensures var ring' := PutSlot(ring, n + |q|, h); Ring(ring', n, q, reqs, p) && Slot(ring', n + |q|) == h
  {
    var ring' := PutSlot(ring, n + |q|, h);
    forall k | 0 <= k < |q| ensures q[k] in reqs && reqs[q[k]].phase == p && Slot(ring', n + k) == reqs[q[k]].h {
      ModApart(n + k, |q| - k, NUM);
    }
  }

  function PutSlot(ring: seq<nat>, n: nat, h: nat): (r: seq<nat>)
    requires |ring| == NUM
    ensures |r| == NUM
  {
    ring[n % NUM := h]
  }

  lemma RingAdd(ring: seq<nat>, n: nat, q: seq<Buf>, reqs: map<Buf, Req>, p: Phase, b: Buf, r: Req)
    requires Ring(ring, n, q, reqs, p) && b !in reqs && r.phase != p
    ensures Ring(ring, n, q, reqs[b := r], p)
  {
    hide Slot;
  }

  lemma RingDrop(ring: seq<nat>, n: nat, q: seq<Buf>, reqs: map<Buf, Req>, p: Phase, b: Buf)
    requires Ring(ring, n, q, reqs, p) && b in reqs && reqs[b].phase != p
    ensures Ring(ring, n, q, reqs - {b}, p)
  {
    hide Slot;
  }

  // A change of phase leaves descriptors and chains alone.

  lemma OwnedPhase(free: seq<bool>, own: seq<Option<Buf>>, reqs: map<Buf, Req>, b: Buf, to: Phase)
    requires Owned(free, own, reqs) && b in reqs
    ensures Owned(free, own, reqs[b := reqs[b].(phase := to)])
  {
    var reqs' := reqs[b := reqs[b].(phase := to)];
    forall c | c in reqs' ensures OwnsOk(own, c, reqs'[c]) {
      assert OwnsOk(own, c, reqs[c]);
    }
  }

  lemma ChainsPhase(desc: seq<Desc>, info: seq<Option<Buf>>, reqs: map<Buf, Req>, b: Buf, to: Phase)
    requires ChainsOk(desc, info, reqs) && b in reqs
    ensures ChainsOk(desc, info, reqs[b := reqs[b].(phase := to)])
  {
    var reqs' := reqs[b := reqs[b].(phase := to)];
    forall c | c in reqs'
      ensures reqs'[c].h < NUM && reqs'[c].i < NUM && reqs'[c].j < NUM && ChainOk(desc, info, c, reqs'[c])
    {
      assert ChainOk(desc, info, c, reqs[c]);
    }
  }

  // Every step keeps the invariant, part by part.

  lemma OwnAt(free: seq<bool>, own: seq<Option<Buf>>, reqs: map<Buf, Req>, b: Buf)
    requires Owned(free, own, reqs) && b in reqs
    ensures |own| == NUM && OwnsOk(own, b, reqs[b])
  {
  }

  lemma FreeAt(free: seq<bool>, own: seq<Option<Buf>>, reqs: map<Buf, Req>, d: nat)
    requires Owned(free, own, reqs) && d < NUM
    ensures |own| == |free| == NUM && (free[d] <==> own[d].None?)
  {
  }

  /** A request is known by its head. */
  lemma HeadsApart(free: seq<bool>, own: seq<Option<Buf>>, reqs: map<Buf, Req>, b: Buf)
    requires Owned(free, own, reqs) && b in reqs
    ensures forall c :: c in reqs && c != b ==> reqs[c].h != reqs[b].h
  {
    hide Owned;
    OwnAt(free, own, reqs, b);
    forall c | c in reqs && c != b ensures reqs[c].h != reqs[b].h {
      OwnAt(free, own, reqs, c);
    }
  }

  lemma HeadsTaken(free: seq<bool>, own: seq<Option<Buf>>, reqs: map<Buf, Req>, d: nat)
    requires Owned(free, own, reqs) && d < NUM && |free| == NUM && free[d]
    ensures forall c :: c in reqs ==> reqs[c].h != d
  {
    hide Owned;
    FreeAt(free, own, reqs, d);
    forall c | c in reqs ensures reqs[c].h != d {
      OwnAt(free, own, reqs, c);
    }
  }

  ghost function Mark3<T>(xs: seq<T>, t: Triple, x: T): (r: seq<T>)
    requires t.h < |xs| && t.i < |xs| && t.j < |xs|
    ensures |r| == |xs| && forall d :: 0 <= d < |xs| ==> r[d] == if d == t.h || d == t.i || d == t.j then x else xs[d]
  {
    xs[t.h := x][t.i := x][t.j := x]
  }

  lemma OwnedTake(free: seq<bool>, own: seq<Option<Buf>>, reqs: map<Buf, Req>, b: Buf, t: Triple, r: Req)
    requires Owned(free, own, reqs) && b !in reqs && t.h < NUM && t.i < NUM && t.j < NUM
    requires free[t.h] && free[t.i] && free[t.j] && t.h != t.i && t.i != t.j && t.h != t.j && r.h == t.h && r.i == t.i
    requires r.j == t.j
    ensures Owned(Mark3(free, t, false), Mark3(own, t, Some(b)), reqs[b := r])
  {
    hide Mark3;
    var own', reqs' := Mark3(own, t, Some(b)), reqs[b := r];
    forall c | c in reqs' ensures OwnsOk(own', c, reqs'[c]) {
      if c != b {
        assert OwnsOk(own, c, reqs[c]);
      }
    }
  }

  lemma OwnedDrop(free: seq<bool>, own: seq<Option<Buf>>, reqs: map<Buf, Req>, b: Buf, t: Triple)
    requires Owned(free, own, reqs) && b in reqs && t == Triple(reqs[b].h, reqs[b].i, reqs[b].j)
    ensures t.h < NUM && t.i < NUM && t.j < NUM && Owned(Mark3(free, t, true), Mark3(own, t, None), reqs - {b})
  {
    hide Mark3;
    assert OwnsOk(own, b, reqs[b]);
    var own', reqs' := Mark3(own, t, None), reqs - {b};
    forall c | c in reqs' ensures OwnsOk(own', c, reqs'[c]) {
      assert OwnsOk(own, c, reqs[c]);
    }
  }

  lemma ChainsTake(free: seq<bool>, own: seq<Option<Buf>>, desc: seq<Desc>, info: seq<Option<Buf>>, reqs: map<Buf, Req>,
                   b: Buf, t: Triple, r: Req)
    requires Owned(free, own, reqs) && ChainsOk(desc, info, reqs) && t.h < NUM && t.i < NUM && t.j < NUM
    requires free[t.h] && free[t.i] && free[t.j] && t.h != t.i && t.i != t.j && t.h != t.j && r.h == t.h && r.i == t.i
    requires r.j == t.j
    ensures ChainsOk(desc[t.h := Desc(Command(t.h), false, true, t.i)]
                         [t.i := Desc(Data(b), !r.write, true, t.j)][t.j := Desc(StatusOf(t.h), true, false, 0)],
                     info[t.h := Some(b)], reqs[b := r])
  {
    hide Owned;
    FreeAt(free, own, reqs, t.h);
    FreeAt(free, own, reqs, t.i);
    FreeAt(free, own, reqs, t.j);
    var desc' := desc[t.h := Desc(Command(t.h), false, true, t.i)]
                     [t.i := Desc(Data(b), !r.write, true, t.j)][t.j := Desc(StatusOf(t.h), true, false, 0)];
    var info', reqs' := info[t.h := Some(b)], reqs[b := r];
    forall c | c in reqs'
      ensures reqs'[c].h < NUM && reqs'[c].i < NUM && reqs'[c].j < NUM && ChainOk(desc', info', c, reqs'[c])
    {
      if c != b {
        OwnAt(free, own, reqs, c);
        assert ChainOk(desc, info, c, reqs[c]);
      }
    }
  }

  lemma ChainsDrop(free: seq<bool>, own: seq<Option<Buf>>, desc: seq<Desc>, info: seq<Option<Buf>>, reqs: map<Buf, Req>,
                   b: Buf, t: Triple)
    requires Owned(free, own, reqs) && ChainsOk(desc, info, reqs) && b in reqs
    requires t == Triple(reqs[b].h, reqs[b].i, reqs[b].j)
    ensures ChainsOk(Mark3(desc, t, EMPTY_DESC), info[t.h := None], reqs - {b})
  {
    hide Owned, Mark3;
    OwnAt(free, own, reqs, b);
    var desc', info', reqs' := Mark3(desc, t, EMPTY_DESC), info[t.h := None], reqs - {b};
    forall c | c in reqs'
      ensures reqs'[c].h < NUM && reqs'[c].i < NUM && reqs'[c].j < NUM && ChainOk(desc', info', c, reqs'[c])
    {
      OwnAt(free, own, reqs, c);
      assert ChainOk(desc, info, c, reqs[c]);
    }
  }

  lemma DevicePhase(inflight: set<nat>, info: seq<Option<Buf>>, reqs: map<Buf, Req>, b: Buf, to: Phase)
    requires DeviceOk(inflight, info, reqs) && b in reqs && !reqs[b].phase.Device? && !to.Device?
    ensures DeviceOk(inflight, info, reqs[b := reqs[b].(phase := to)])
  {
  }

  lemma DeviceTake(inflight: set<nat>, info: seq<Option<Buf>>, reqs: map<Buf, Req>, b: Buf, r: Req)
    requires DeviceOk(inflight, info, reqs) && b !in reqs && r.h < NUM && !r.phase.Device?
    requires forall c :: c in reqs ==> reqs[c].h != r.h
    ensures DeviceOk(inflight, info[r.h := Some(b)], reqs[b := r])
  {
  }

  lemma DeviceDrop(inflight: set<nat>, info: seq<Option<Buf>>, reqs: map<Buf, Req>, b: Buf)
    requires DeviceOk(inflight, info, reqs) && b in reqs && reqs[b].h < NUM && !reqs[b].phase.Device?
    requires forall c :: c in reqs && c != b ==> reqs[c].h != reqs[b].h
    ensures DeviceOk(inflight, info[reqs[b].h := None], reqs - {b})
  {
  }

  lemma DeviceFetch(inflight: set<nat>, info: seq<Option<Buf>>, reqs: map<Buf, Req>, b: Buf)
    requires DeviceOk(inflight, info, reqs) && b in reqs && reqs[b].h < NUM && info[reqs[b].h] == Some(b)
    ensures DeviceOk(inflight + {reqs[b].h}, info, reqs[b := reqs[b].(phase := Device)])
  {
  }

  lemma DeviceDone(inflight: set<nat>, info: seq<Option<Buf>>, reqs: map<Buf, Req>, b: Buf, to: Phase)
    requires DeviceOk(inflight, info, reqs) && b in reqs && reqs[b].phase.Device? && !to.Device?
    requires reqs[b].h < NUM && info[reqs[b].h] == Some(b)
    requires forall c :: c in reqs && c != b ==> reqs[c].h != reqs[b].h
    ensures DeviceOk(inflight - {reqs[b].h}, info, reqs[b := reqs[b].(phase := to)])
  {
  }

  lemma UsedPhase(uring: seq<nat>, uidx: nat, seen: nat, un: nat, sn: nat, uq: seq<Buf>, reqs: map<Buf, Req>,
                  status: seq<nat>, b: Buf, to: Phase)
    requires UsedOk(uring, uidx, seen, un, sn, uq, reqs, status) && b in reqs && !reqs[b].phase.Used? && !to.Used?
    ensures UsedOk(uring, uidx, seen, un, sn, uq, reqs[b := reqs[b].(phase := to)], status)
  {
    hide Ring;
    RingOther(uring, sn, uq, reqs, Used, b, to);
  }

  lemma AvailPhase(aring: seq<nat>, aidx: nat, last: nat, an: nat, fn: nat, aq: seq<Buf>, reqs: map<Buf, Req>, b: Buf,
                   to: Phase)
    requires AvailOk(aring, aidx, last, an, fn, aq, reqs) && b in reqs && !reqs[b].phase.Avail? && !to.Avail?
    requires !to.Built?
    ensures AvailOk(aring, aidx, last, an, fn, aq, reqs[b := reqs[b].(phase := to)])
  {
    hide Ring, Slot;
    RingOther(aring, fn, aq, reqs, Avail, b, to);
  }

  lemma BusyPhase(busy: set<Buf>, lock: Option<Holder>, reqs: map<Buf, Req>, asked: map<Buf, nat>, done: map<Buf, nat>,
                  b: Buf, to: Phase)
    requires BusyOk(busy, lock, reqs, asked, done) && b in reqs && !reqs[b].phase.Done? && !to.Done? && !to.Built?
    ensures BusyOk(busy, lock, reqs[b := reqs[b].(phase := to)], asked, done)
  {
    hide Count;
  }

  lemma TakeKeeps(s: State, s': State, b: Buf, write: bool)
    requires Inv(s) && TakeStep(s, s', b, write)
    ensures Inv(s')
  {
    hide Owned, ChainsOk, AvailOk, UsedOk, DeviceOk, Three, BusyOk;
    ThreeIs(s.free);
    var t := Three(s.free).value;
    var r := Req(t.h, t.i, t.j, write, Built);
    OwnedTake(s.free, s.own, s.reqs, b, t, r);
    ChainsTake(s.free, s.own, s.desc, s.info, s.reqs, b, t, r);
    HeadsTaken(s.free, s.own, s.reqs, t.h);
    DeviceTake(s.inflight, s.info, s.reqs, b, r);
    TakeRings(s, s', b, t, r);
    TakeBusy(s.busy, s.reqs, s.asked, s.done, b, r);
  }

  lemma TakeBusy(busy: set<Buf>, reqs: map<Buf, Req>, asked: map<Buf, nat>, done: map<Buf, nat>, b: Buf, r: Req)
    requires BusyOk(busy, None, reqs, asked, done) && b !in reqs && r.phase.Built?
    ensures BusyOk(busy + {b}, Some(Thread(b)), reqs[b := r], Bump(asked, b), done)
  {
  }

  lemma TakeRings(s: State, s': State, b: Buf, t: Triple, r: Req)
    requires Inv(s) && s.lock.None? && b !in s.reqs && r.phase.Built? && r.h == t.h < NUM
    requires forall c :: c in s.reqs ==> s.reqs[c].h != t.h
    requires s'.aring == s.aring[s.aidx % NUM := t.h] && s'.reqs == s.reqs[b := r] && s'.status == s.status[t.h := 0xff]
    ensures AvailOk(s'.aring, s.aidx, s.last, s.an, s.fn, s.aq, s'.reqs)
    ensures UsedOk(s.uring, s.uidx, s.seen, s.un, s.sn, s.uq, s'.reqs, s'.status)
  {
    hide Owned, ChainsOk, DeviceOk, Slot, PutSlot, Ring;
    ShortQueue(s.free, s.own, s.reqs, s.aring, s.fn, s.aq, Avail);
    WrapIs(s.an, 0);
    RingWrite(s.aring, s.fn, s.aq, s.reqs, Avail, r.h);
    PutSlotIs(s.aring, s.an, s.aidx, r.h);
    RingAdd(s'.aring, s.fn, s.aq, s.reqs, Avail, b, r);
    RingAdd(s.uring, s.sn, s.uq, s.reqs, Used, b, r);
  }

  lemma PutSlotIs(ring: seq<nat>, n: nat, idx: nat, h: nat)
    requires |ring| == NUM && idx % NUM == n % NUM
    ensures ring[idx % NUM := h] == PutSlot(ring, n, h)
  {
  }

  lemma PublishKeeps(s: State, s': State, b: Buf)
    requires Inv(s) && PublishStep(s, s', b)
    ensures Inv(s')
  {
    hide Owned, ChainsOk, UsedOk, DeviceOk, Ring, Slot;
    OwnedPhase(s.free, s.own, s.reqs, b, Avail);
    ChainsPhase(s.desc, s.info, s.reqs, b, Avail);
    DevicePhase(s.inflight, s.info, s.reqs, b, Avail);
    UsedPhase(s.uring, s.uidx, s.seen, s.un, s.sn, s.uq, s.reqs, s.status, b, Avail);
    WrapIs(s.an, 0);
    RingPush(s.aring, s.fn, s.aq, s.reqs, Avail, b);
  }

  lemma WaitKeeps(s: State, s': State, b: Buf)
    requires Inv(s) && WaitStep(s, s', b)
    ensures Inv(s')
  {
    hide Owned, ChainsOk, AvailOk, UsedOk, DeviceOk;
  }

  lemma FinishKeeps(s: State, s': State, b: Buf)
    requires Inv(s) && FinishStep(s, s', b)
    ensures Inv(s')
  {
    hide Owned, ChainsOk, DeviceOk, Ring, Slot;
    var r := s.reqs[b];
    var t := Triple(r.h, r.i, r.j);
    OwnedDrop(s.free, s.own, s.reqs, b, t);
    ChainsDrop(s.free, s.own, s.desc, s.info, s.reqs, b, t);
    HeadsApart(s.free, s.own, s.reqs, b);
    DeviceDrop(s.inflight, s.info, s.reqs, b);
    RingDrop(s.aring, s.fn, s.aq, s.reqs, Avail, b);
    RingDrop(s.uring, s.sn, s.uq, s.reqs, Used, b);
  }

  lemma ChainAt(desc: seq<Desc>, info: seq<Option<Buf>>, reqs: map<Buf, Req>, b: Buf)
    requires ChainsOk(desc, info, reqs) && b in reqs
    ensures |desc| == |info| == NUM
    ensures reqs[b].h < NUM && reqs[b].i < NUM && reqs[b].j < NUM && ChainOk(desc, info, b, reqs[b])
  {
  }

  /** Everything the interrupt handler relies on when it takes an entry from the used ring. */
  lemma UsedEntry(s: State)
    requires Inv(s) && s.seen != s.uidx
    ensures s.uq != [] && s.uq[0] in s.reqs
    ensures var b := s.uq[0]; var id := s.uring[s.seen % NUM];
      id == s.reqs[b].h < NUM && s.info[id] == Some(b) && b in s.busy && s.status[id] == 0 && s.reqs[b].phase.Used?
  {
    hide Owned, DeviceOk, AvailOk, ChainsOk;
    ShortQueue(s.free, s.own, s.reqs, s.uring, s.sn, s.uq, Used);
    WrapIs(s.sn, |s.uq|);
    WrapIs(s.sn, 0);
    assert Slot(s.uring, s.sn + 0) == s.reqs[s.uq[0]].h;
    ChainAt(s.desc, s.info, s.reqs, s.uq[0]);
  }

  lemma IntrKeeps(s: State, s': State, a: Action)
    requires Inv(s) && IntrStep(s, s', a)
    ensures Inv(s')
  {
    if a.IntrOne? {
      hide Inv;
      IntrOneKeeps(s, s');
    } else {
      hide Inv;
      IntrLockKeeps(s, s', a);
    }
  }

  lemma IntrLockKeeps(s: State, s': State, a: Action)
    requires Inv(s) && IntrStep(s, s', a) && !a.IntrOne?
    ensures Inv(s')
  {
    hide Owned, ChainsOk, AvailOk, UsedOk, DeviceOk;
  }

  lemma IntrOneKeeps(s: State, s': State)
    requires Inv(s) && IntrStep(s, s', IntrOne)
    ensures Inv(s')
  {
    hide Owned, ChainsOk, Ring, Slot, DeviceOk, AvailOk, BusyOk;
    UsedEntry(s);
    var b := s.uq[0];
    OwnedPhase(s.free, s.own, s.reqs, b, Done);
    ChainsPhase(s.desc, s.info, s.reqs, b, Done);
    DevicePhase(s.inflight, s.info, s.reqs, b, Done);
    AvailPhase(s.aring, s.aidx, s.last, s.an, s.fn, s.aq, s.reqs, b, Done);
    IntrBusy(s.busy, s.lock, s.reqs, s.asked, s.done, b);
    WrapIs(s.sn, 0);
    RingPop(s.uring, s.sn, s.uq, s.reqs, Used, Done);
  }

  lemma IntrBusy(busy: set<Buf>, lock: Option<Holder>, reqs: map<Buf, Req>, asked: map<Buf, nat>, done: map<Buf, nat>,
                 b: Buf)
    requires BusyOk(busy, lock, reqs, asked, done) && b in reqs && reqs[b].phase.Used?
    ensures BusyOk(busy - {b}, lock, reqs[b := reqs[b].(phase := Done)], asked, Bump(done, b))
  {
  }

  /** Everything the device relies on when it takes an entry from the available ring. */
  lemma AvailEntry(s: State)
    requires Inv(s) && s.last != s.aidx
    ensures s.aq != [] && s.aq[0] in s.reqs
    ensures var b := s.aq[0]; var h := s.aring[s.last % NUM];
      h == s.reqs[b].h < NUM && s.info[h] == Some(b) && s.reqs[b].phase.Avail?
  {
    hide Owned, DeviceOk, UsedOk, ChainsOk;
    ShortQueue(s.free, s.own, s.reqs, s.aring, s.fn, s.aq, Avail);
    WrapIs(s.fn, |s.aq|);
    WrapIs(s.fn, 0);
    assert Slot(s.aring, s.fn + 0) == s.reqs[s.aq[0]].h;
    ChainAt(s.desc, s.info, s.reqs, s.aq[0]);
  }

  lemma FetchKeeps(s: State, s': State)
    requires Inv(s) && FetchStep(s, s')
    ensures Inv(s')
  {
    hide Owned, ChainsOk, Ring, Slot, DeviceOk, UsedOk, BusyOk;
    AvailEntry(s);
    var b := s.aq[0];
    OwnedPhase(s.free, s.own, s.reqs, b, Device);
    ChainsPhase(s.desc, s.info, s.reqs, b, Device);
    DeviceFetch(s.inflight, s.info, s.reqs, b);
    UsedPhase(s.uring, s.uidx, s.seen, s.un, s.sn, s.uq, s.reqs, s.status, b, Device);
    BusyPhase(s.busy, s.lock, s.reqs, s.asked, s.done, b, Device);
    WrapIs(s.fn, 0);
    RingPop(s.aring, s.fn, s.aq, s.reqs, Avail, Device);
  }

  /** The chain of a request in the device leads to the status byte of its own head. */
  lemma InDevice(s: State, h: nat)
    requires Inv(s) && h in s.inflight
    ensures h < NUM && s.info[h].Some? && s.info[h].value in s.reqs && StatusByte(s.desc, h) == Some(h)
    ensures var b := s.info[h].value; s.reqs[b].h == h && s.reqs[b].phase.Device?
  {
    hide Owned, AvailOk, UsedOk, BusyOk, ChainsOk;
    ChainAt(s.desc, s.info, s.reqs, s.info[h].value);
  }

  lemma CompleteKeeps(s: State, s': State, h: nat)
    requires Inv(s) && CompleteStep(s, s', h)
    ensures Inv(s')
  {
    hide Owned, ChainsOk, DeviceOk, AvailOk, BusyOk, UsedOk, StatusByte;
    InDevice(s, h);
    var b := s.info[h].value;
    OwnedPhase(s.free, s.own, s.reqs, b, Used);
    ChainsPhase(s.desc, s.info, s.reqs, b, Used);
    HeadsApart(s.free, s.own, s.reqs, b);
    DeviceDone(s.inflight, s.info, s.reqs, b, Used);
    AvailPhase(s.aring, s.aidx, s.last, s.an, s.fn, s.aq, s.reqs, b, Used);
    BusyPhase(s.busy, s.lock, s.reqs, s.asked, s.done, b, Used);
    CompleteRing(s, b, h);
  }

  lemma CompleteRing(s: State, b: Buf, h: nat)
    requires Inv(s) && b in s.reqs && s.reqs[b].h == h < NUM && s.reqs[b].phase.Device?
    requires forall c :: c in s.reqs && c != b ==> s.reqs[c].h != h
    ensures UsedOk(s.uring[s.uidx % NUM := h], (s.uidx + 1) % WRAP, s.seen, s.un + 1, s.sn, s.uq + [b],
                   s.reqs[b := s.reqs[b].(phase := Used)], s.status[h := 0])
  {
    hide Owned, ChainsOk, DeviceOk, AvailOk, BusyOk, Ring, Slot, PutSlot;
    var uring := s.uring[s.uidx % NUM := h];
    WrapIs(s.un, 0);
    ShortQueue(s.free, s.own, s.reqs, s.uring, s.sn, s.uq, Used);
    RingWrite(s.uring, s.sn, s.uq, s.reqs, Used, h);
    PutSlotIs(s.uring, s.un, s.uidx, h);
    RingPush(uring, s.sn, s.uq, s.reqs, Used, b);
  }

  lemma KeepNext(s: State, s': State, a: Action)
    requires Inv(s) && Next(s, s', a)
    ensures Inv(s')
  {
    hide Inv, TakeStep, PublishStep, WaitStep, FinishStep, FetchStep, CompleteStep, IntrStep;
    match a {
      case Take(b, write) => TakeKeeps(s, s', b, write);
      case Publish(b) => PublishKeeps(s, s', b);
      case Wait(b) => WaitKeeps(s, s', b);
      case Finish(b) => FinishKeeps(s, s', b);
      case Fetch => FetchKeeps(s, s');
      case Complete(h) => CompleteKeeps(s, s', h);
      case _ => IntrKeeps(s, s', a);
    }
  }

  // Every run.

  ghost predicate Reaches(s: State, steps: seq<Action>, s': State)
    decreases |steps|
  {
    if steps == [] then s' == s
    else exists m :: Next(s, m, steps[0]) && Reaches(m, steps[1..], s')
  }

  ghost predicate Reachable(s: State) {
    exists s0, steps :: Init(s0) && Reaches(s0, steps, s)
  }

  lemma {:induction false} ReachesKeeps(s: State, steps: seq<Action>, s': State)
    requires Inv(s) && Reaches(s, steps, s')
    ensures Inv(s')
    decreases |steps|
  {
    hide Inv, Next;
    if steps != [] {
      var m :| Next(s, m, steps[0]) && Reaches(m, steps[1..], s');
      KeepNext(s, m, steps[0]);
      ReachesKeeps(m, steps[1..], s');
    }
  }

  lemma ReachableInv(s: State)
    requires Reachable(s)
    ensures Inv(s)
  {
    hide Next, Reaches;
    var s0, steps :| Init(s0) && Reaches(s0, steps, s);
    assert Inv(s0);
    ReachesKeeps(s0, steps, s);
  }

  /** Free descriptors and chains of three partition the descriptors, and at most two requests are
      outstanding. */
  lemma Partition(s: State)
    requires Reachable(s)
    ensures Sized(s) && |s.reqs| <= 2 && Parted(s.free, s.reqs)
    ensures forall b :: b in s.reqs ==> Chained(s.desc, s.reqs[b].h, s.reqs[b].i, s.reqs[b].j)
  {
    hide Reachable, AvailOk, UsedOk, DeviceOk, BusyOk, Owned, ChainsOk, Parted;
    ReachableInv(s);
    TwoRequests(s.free, s.own, s.reqs);
    OwnedParted(s.free, s.own, s.reqs);
    forall b | b in s.reqs ensures Chained(s.desc, s.reqs[b].h, s.reqs[b].i, s.reqs[b].j) {
      ChainAt(s.desc, s.info, s.reqs, b);
      OwnAt(s.free, s.own, s.reqs, b);
    }
  }

  ghost predicate Taken(free: seq<bool>, d: nat) {
    d < |free| && !free[d]
  }

  /** A descriptor is free or belongs to exactly one request. */
  ghost predicate Parted(free: seq<bool>, reqs: map<Buf, Req>) {
    && |free| == NUM
    && (forall b, d: nat :: b in reqs && In(reqs[b], d) ==> Taken(free, d))
    && (forall d: nat :: Taken(free, d) ==> exists b :: b in reqs && In(reqs[b], d))
    && (forall b, c, d: nat :: b in reqs && c in reqs && In(reqs[b], d) && In(reqs[c], d) ==> b == c)
  }

  lemma OwnedParted(free: seq<bool>, own: seq<Option<Buf>>, reqs: map<Buf, Req>)
    requires Owned(free, own, reqs)
    ensures Parted(free, reqs)
  {
    hide In, Owned;
    FreeAt(free, own, reqs, 0);
    forall b, d: nat | b in reqs && In(reqs[b], d) ensures Taken(free, d) {
      InTaken(free, own, reqs, b, d);
    }
    forall b, c, d: nat | b in reqs && c in reqs && In(reqs[b], d) && In(reqs[c], d) ensures b == c {
      InTaken(free, own, reqs, b, d);
      InTaken(free, own, reqs, c, d);
    }
    forall d: nat | Taken(free, d) ensures exists b :: b in reqs && In(reqs[b], d) {
      TakenIn(free, own, reqs, d);
    }
  }

  lemma InTaken(free: seq<bool>, own: seq<Option<Buf>>, reqs: map<Buf, Req>, b: Buf, d: nat)
    requires Owned(free, own, reqs) && b in reqs && In(reqs[b], d)
    ensures d < NUM == |free| == |own| && own[d] == Some(b) && !free[d]
  {
    hide Owned;
    OwnAt(free, own, reqs, b);
    InOwn(own, b, reqs[b], d);
    FreeAt(free, own, reqs, d);
  }

  lemma TakenIn(free: seq<bool>, own: seq<Option<Buf>>, reqs: map<Buf, Req>, d: nat)
    requires Owned(free, own, reqs) && d < NUM && |free| == NUM && !free[d]
    ensures exists b :: b in reqs && In(reqs[b], d)
  {
    hide In, Owned;
    FreeAt(free, own, reqs, d);
    OwnerAt(free, own, reqs, d);
    assert own[d].value in reqs && In(reqs[own[d].value], d);
  }

  lemma OwnerAt(free: seq<bool>, own: seq<Option<Buf>>, reqs: map<Buf, Req>, d: nat)
    requires Owned(free, own, reqs) && d < NUM
    ensures |own| == NUM && (own[d].Some? ==> own[d].value in reqs && In(reqs[own[d].value], d))
  {
    hide In;
  }

  lemma InOwn(own: seq<Option<Buf>>, b: Buf, r: Req, d: nat)
    requires |own| == NUM && OwnsOk(own, b, r) && In(r, d)
    ensures d < NUM && own[d] == Some(b)
  {
  }

  /** Every entry of the used ring that the driver has not looked at names the chain of a buffer with
      disk == 1 whose status is good, also when the 16-bit indices have wrapped. */
  lemma UsedNames(s: State, k: nat)
    requires Reachable(s) && k < (s.uidx - s.seen) % WRAP
    ensures Sized(s) && var id := s.uring[(s.seen + k) % NUM];
      id < NUM && s.info[id].Some? && s.info[id].value in s.busy && s.info[id].value in s.reqs
      && s.reqs[s.info[id].value].h == id && s.status[id] == 0
  {
    hide Reachable, Owned, AvailOk, DeviceOk, ChainsOk;
    ReachableInv(s);
    ShortQueue(s.free, s.own, s.reqs, s.uring, s.sn, s.uq, Used);
    WrapDiff(s.sn, |s.uq|, k);
    assert Slot(s.uring, s.sn + k) == s.reqs[s.uq[k]].h;
    ChainAt(s.desc, s.info, s.reqs, s.uq[k]);
  }

  lemma WrapDiff(n: nat, m: nat, k: nat)
    requires m <= 2
    ensures ((n + m) % WRAP - n % WRAP) % WRAP == m && (n % WRAP + k) % NUM == (n + k) % NUM
  {
    WrapAdd(n, m);
    WrapSlot(n, k);
    assert (m - WRAP) % WRAP == m;
  }

  /** Each request is reported exactly once: a buffer with disk == 1 has been reported once less than
      it has been asked for, any other buffer as often. */
  lemma ReportedOnce(s: State, b: Buf)
    requires Reachable(s)
    ensures Count(s.asked, b) == Count(s.done, b) + if b in s.busy then 1 else 0
  {
    hide Reachable, Owned, AvailOk, UsedOk, DeviceOk, ChainsOk, Count;
    ReachableInv(s);
  }

  /** The panics of free_desc are unreachable: a request's chain is whole and none of it is free. */
  lemma NoFreePanic(s: State, b: Buf)
    requires Reachable(s) && b in s.reqs
    ensures var r := s.reqs[b];
      Sized(s) && Chained(s.desc, r.h, r.i, r.j) && !s.free[r.h] && !s.free[r.i] && !s.free[r.j]
  {
    hide Reachable, Parted;
    Partition(s);
    PartedTaken(s.free, s.reqs, b);
  }

  lemma PartedTaken(free: seq<bool>, reqs: map<Buf, Req>, b: Buf)
    requires Parted(free, reqs) && b in reqs
    ensures var r := reqs[b]; Taken(free, r.h) && Taken(free, r.i) && Taken(free, r.j)
  {
    hide Taken;
    var r := reqs[b];
    assert In(r, r.h) && In(r, r.i) && In(r, r.j);
  }

  /** The interrupt handler always finds a running request with a good status, and the device a whole
      chain. */
  lemma NothingLost(s: State)
    requires Reachable(s)
    ensures Sized(s)
    ensures s.seen != s.uidx ==> UsedFound(s) && s.status[s.uring[s.seen % NUM]] == 0
    ensures s.last != s.aidx ==> AvailFound(s)
    ensures forall h :: h in s.inflight ==> ChainFound(s, h)
  {
    hide Reachable, Inv, StatusByte;
    ReachableInv(s);
    InvSized(s);
    if s.seen != s.uidx {
      UsedEntry(s);
    }
    if s.last != s.aidx {
      AvailEntry(s);
    }
    forall h | h in s.inflight ensures ChainFound(s, h) {
      InDevice(s, h);
    }
  }

  lemma InvSized(s: State)
    requires Inv(s)
    ensures Sized(s)
  {
  }

  /** Between two 16-bit indices the ring has this head. */
  ghost predicate Between(ring: seq<nat>, from: nat, to: nat, h: nat)
    requires |ring| == NUM
  {
    exists k: nat :: k < (to - from) % WRAP && SlotAt(ring, from, k, h)
  }

  ghost predicate SlotAt(ring: seq<nat>, from: nat, k: nat, h: nat)
    requires |ring| == NUM
  {
    Slot(ring, from + k) == h
  }

  lemma QueuedBetween(free: seq<bool>, own: seq<Option<Buf>>, reqs: map<Buf, Req>, ring: seq<nat>, n: nat, q: seq<Buf>,
                      p: Phase, b: Buf)
    requires Owned(free, own, reqs) && Ring(ring, n, q, reqs, p) && b in reqs && reqs[b].phase == p
    ensures Between(ring, n % WRAP, (n + |q|) % WRAP, reqs[b].h)
  {
    hide Owned;
    ShortQueue(free, own, reqs, ring, n, q, p);
    var k :| 0 <= k < |q| && q[k] == b;
    WrapDiff(n, |q|, k);
    assert Slot(ring, n + k) == reqs[b].h;
    assert SlotAt(ring, n % WRAP, k, reqs[b].h);
  }

  /** A buffer with disk == 1 whose request is published is in the available ring, with the device, or
      in the used ring, so it will be reported when the device and the handler go on. */
  lemma StillUnderWay(s: State, b: Buf)
    requires Reachable(s) && b in s.busy
    ensures Sized(s) && b in s.reqs
    ensures var h := s.reqs[b].h;
      || s.lock == Some(Thread(b))
      || Between(s.aring, s.last, s.aidx, h)
      || h in s.inflight
      || Between(s.uring, s.seen, s.uidx, h)
  {
    hide Reachable, Owned, ChainsOk, Ring, Slot, Between;
    ReachableInv(s);
    if s.reqs[b].phase.Avail? {
      QueuedBetween(s.free, s.own, s.reqs, s.aring, s.fn, s.aq, Avail, b);
    } else if s.reqs[b].phase.Used? {
      QueuedBetween(s.free, s.own, s.reqs, s.uring, s.sn, s.uq, Used, b);
    }
  }
}
