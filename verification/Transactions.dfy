/** The logging protocol under concurrency: any number of processes read and modify blocks through
    the cache, group commits write the log one block at a time, buffers are evicted at any moment,
    and the machine may crash between any two steps, also during recovery. Every run refines a
    block store whose contents become durable all at once. */
module Transactions {
  import opened Common
  import opened Blocks
  import opened LruList
  import opened RedoLog

  type Pid = nat

  /** A buffer in use for some block: refcnt counts holders, waiters and the log's pin. */
  datatype Slot = Slot(valid: bool, data: Block, refcnt: nat, lock: Option<Pid>)

  datatype Phase =
    | Idle
    | Writing(k: nat)      // in commit(), after k block writes
    | Cleared              // commit() has erased the log, committing is still set
    | Recovering(k: nat)   // in recover_from_log(), after k block writes

  datatype State = State(
    disk: Image,
    cache: map<Word, Slot>,
    list: seq<Word>,           // lh.block[..lh.n]
    outstanding: nat,
    phase: Phase,
    ops: map<Pid, nat>,        // the running operations, with the list entries each has added
    refs: set<(Pid, Word)>,    // who has got which block from bget and not released it
    dirty: set<Word>,          // modified by the holder and not yet passed to log_write
    base: Image,               // the disk when the current commit or recovery began
    current: Image,            // the last value given to each block
    durable: Image)            // the value each block would have after a crash

  /** The list entries whose pin install_trans has not dropped yet. */
  ghost function Pins(list: seq<Word>, phase: Phase): seq<Word> {
    if phase.Writing? && |list| + 1 < phase.k <= 2 * |list| + 1 then list[phase.k - |list| - 1..] else list
  }

  ghost function Holders(refs: set<(Pid, Word)>, b: Word): set<(Pid, Word)> {
    set r | r in refs && r.1 == b
  }

  // What the steps do.

  ghost predicate Running(s: State) {
    !s.phase.Recovering?
  }

  ghost predicate Init(s: State, lay: Layout) {
    && LogOk(s.disk, lay) && |s.disk| <= 0x1_0000_0000 && LOGSIZE < lay.size
    && s.cache == map[] && s.list == [] && s.outstanding == 0 && s.ops == map[] && s.refs == {} && s.dirty == {}
    && s.phase == Recovering(0) && s.base == s.disk
    && s.durable == Recovered(s.disk, lay) && s.current == s.durable
  }

  ghost predicate BeginOp(s: State, s': State, p: Pid) {
    && Running(s) && p !in s.ops
    && s.phase.Idle?
    && |s.list| + (s.outstanding + 1) * MAXOPBLOCKS <= LOGSIZE
    && s' == s.(outstanding := s.outstanding + 1, ops := s.ops[p := 0])
  }

  /** The caller has logged and released what it modified. */
  ghost predicate EndOp(s: State, s': State, p: Pid) {
    && Running(s) && p in s.ops
    && (forall b :: b in s.dirty && b in s.cache ==> s.cache[b].lock != Some(p))
    && s.outstanding >= 1
    && s' == s.(outstanding := s.outstanding - 1, ops := s.ops - {p},
                phase := if s.outstanding == 1 then Writing(0) else s.phase,
                base := if s.outstanding == 1 then s.disk else s.base)
  }

  ghost predicate GetCached(s: State, s': State, p: Pid, b: Word) {
    && Running(s) && (p, b) !in s.refs && b in s.cache
    && s' == s.(refs := s.refs + {(p, b)},
                cache := s.cache[b := s.cache[b].(refcnt := s.cache[b].refcnt + 1)])
  }

  /** A miss takes an unused buffer, or recycles any buffer nobody references. */
  ghost predicate GetFresh(s: State, s': State, p: Pid, b: Word, victim: Option<Word>, junk: Block, lay: Layout) {
    && Running(s) && (p, b) !in s.refs && b !in s.cache
    && b < |s.disk| && !InLog(lay, b)
    && (match victim
        case None => |s.cache| < NBUF
        case Some(v) => v in s.cache && s.cache[v].refcnt == 0)
    && s' == s.(refs := s.refs + {(p, b)},
                cache := (if victim.Some? then s.cache - {victim.value} else s.cache)[b := Slot(false, junk, 1, None)])
  }

  ghost predicate Lock(s: State, s': State, p: Pid, b: Word) {
    && Running(s) && (p, b) in s.refs && b in s.cache && s.cache[b].lock.None?
    && s' == s.(cache := s.cache[b := s.cache[b].(lock := Some(p))])
  }

  ghost predicate Holds(s: State, p: Pid, b: Word) {
    Running(s) && b in s.cache && s.cache[b].lock == Some(p)
  }

  ghost predicate Fill(s: State, s': State, p: Pid, b: Word) {
    && Holds(s, p, b) && !s.cache[b].valid && b < |s.disk|
    && s' == s.(cache := s.cache[b := s.cache[b].(valid := true, data := s.disk[b])])
  }

  ghost predicate Modify(s: State, s': State, p: Pid, b: Word, x: Block) {
    && Holds(s, p, b) && s.cache[b].valid && p in s.ops && b < |s.current|
    && s' == s.(cache := s.cache[b := s.cache[b].(data := x)],
                dirty := s.dirty + {b}, current := s.current[b := x])
  }

  /** log_write would panic. */
  ghost predicate TooBig(s: State, lay: Layout) {
    |s.list| >= LOGSIZE || |s.list| >= lay.size - 1 || s.outstanding < 1
  }

  /** Each operation adds at most limit blocks to the list. */
  ghost predicate LogWrite(s: State, s': State, p: Pid, b: Word, lay: Layout, limit: nat) {
    && Holds(s, p, b) && s.cache[b].valid && p in s.ops
    && !TooBig(s, lay)
    && if b in s.list
       then s' == s.(dirty := s.dirty - {b})
       else && s.ops[p] + 1 <= limit
            && s' == s.(dirty := s.dirty - {b}, list := s.list + [b], ops := s.ops[p := s.ops[p] + 1],
                        cache := s.cache[b := s.cache[b].(refcnt := s.cache[b].refcnt + 1)])
  }

  ghost predicate Release(s: State, s': State, p: Pid, b: Word) {
    && Holds(s, p, b) && b !in s.dirty && s.cache[b].refcnt >= 1
    && s' == s.(refs := s.refs - {(p, b)},
                cache := s.cache[b := s.cache[b].(refcnt := s.cache[b].refcnt - 1, lock := None)])
  }

  ghost function OnDisk(s: State, d: Image): State {
    s.(disk := d)
  }

  /** The disk after the next block write of commit(). */
  ghost function AfterCommitWrite(s: State, lay: Layout): Image
    requires s.phase.Writing? && s.phase.k <= 2 * |s.list| + 1 && HomeList(s.disk, lay, s.list)
  {
    CommitSet(s.disk, lay, s.list, s.phase.k,
              if s.phase.k < |s.list| && s.list[s.phase.k] in s.cache then s.cache[s.list[s.phase.k]].data
              else s.disk[lay.start])
  }

  ghost predicate CommitWrite(s: State, s': State, lay: Layout) {
    && s.phase.Writing? && s.list != [] && s.phase.k <= 2 * |s.list| + 1 && HomeList(s.disk, lay, s.list)
    && if s.phase.k < |s.list| then CopyToLog(s, s', lay)
       else if s.phase.k == |s.list| then WriteHead(s, s', lay)
       else if s.phase.k <= 2 * |s.list| then InstallHome(s, s', lay)
       else EraseLog(s, s', lay)
  }

  ghost predicate CopyToLog(s: State, s': State, lay: Layout)
    requires s.phase.Writing? && s.phase.k < |s.list| && HomeList(s.disk, lay, s.list)
  {
    && s.list[s.phase.k] in s.cache
    && s' == OnDisk(s, AfterCommitWrite(s, lay)).(phase := Writing(s.phase.k + 1))
  }

  ghost predicate WriteHead(s: State, s': State, lay: Layout)
    requires s.phase.Writing? && s.phase.k == |s.list| && HomeList(s.disk, lay, s.list)
  {
    s' == OnDisk(s, AfterCommitWrite(s, lay)).(phase := Writing(s.phase.k + 1), durable := s.current)
  }

  /** The cached copy is overwritten with the logged one and loses its pin. */
  ghost predicate InstallHome(s: State, s': State, lay: Layout)
    requires s.phase.Writing? && |s.list| < s.phase.k <= 2 * |s.list| && HomeList(s.disk, lay, s.list)
  {
    && s.list[s.phase.k - |s.list| - 1] in s.cache
    && s' == OnDisk(s, AfterCommitWrite(s, lay)).(phase := Writing(s.phase.k + 1),
                cache := Installed(s.cache, s.list[s.phase.k - |s.list| - 1],
                                   s.disk[lay.start + s.phase.k - |s.list|]))
  }

  ghost function Installed(cache: map<Word, Slot>, b: Word, x: Block): map<Word, Slot>
    requires b in cache
  {
    cache[b := cache[b].(data := x, refcnt := if cache[b].refcnt > 0 then cache[b].refcnt - 1 else 0)]
  }

  ghost predicate EraseLog(s: State, s': State, lay: Layout)
    requires s.phase.Writing? && s.phase.k == 2 * |s.list| + 1 && HomeList(s.disk, lay, s.list)
  {
    s' == OnDisk(s, AfterCommitWrite(s, lay)).(list := [], phase := Cleared)
  }

  /** commit() returns and committing is reset; with an empty list it has nothing to write. */
  ghost predicate CommitEnd(s: State, s': State) {
    && (s.phase.Cleared? || (s.phase.Writing? && s.list == []))
    && s' == s.(phase := Idle)
  }

  ghost predicate Crash(s: State, s': State) {
    s' == State(s.disk, map[], [], 0, Recovering(0), map[], {}, {}, s.disk, s.durable, s.durable)
  }

  ghost function AfterRecoverWrite(s: State, lay: Layout): Image
    requires s.phase.Recovering? && LogOk(s.base, lay) && |s.disk| == |s.base|
    requires s.phase.k <= HeaderCount(s.base[lay.start])
  {
    InstallWrite(s.disk, lay, HeaderList(s.base[lay.start]), s.phase.k)
  }

  /** The next block write of recover_from_log(). */
  ghost predicate RecoverWrite(s: State, s': State, lay: Layout) {
    && s.phase.Recovering? && LogOk(s.base, lay) && |s.disk| == |s.base|
    && s.phase.k <= HeaderCount(s.base[lay.start])
    && s' == OnDisk(s, AfterRecoverWrite(s, lay)).(
                phase := if s.phase.k < HeaderCount(s.base[lay.start]) then Recovering(s.phase.k + 1) else Idle)
  }

  datatype Action =
    | ABegin(p: Pid) | AEnd(p: Pid)
    | AGetCached(p: Pid, b: Word) | AGetFresh(p: Pid, b: Word, victim: Option<Word>, junk: Block)
    | ALock(p: Pid, b: Word) | AFill(p: Pid, b: Word) | AModify(p: Pid, b: Word, x: Block)
    | ALogWrite(p: Pid, b: Word) | ARelease(p: Pid, b: Word)
    | ACommitWrite | ACommitEnd | ACrash | ARecoverWrite

  ghost predicate Next(s: State, s': State, a: Action, lay: Layout, limit: nat) {
    match a
    case ABegin(p) => BeginOp(s, s', p)
    case AEnd(p) => EndOp(s, s', p)
    case AGetCached(p, b) => GetCached(s, s', p, b)
    case AGetFresh(p, b, v, junk) => GetFresh(s, s', p, b, v, junk, lay)
    case ALock(p, b) => Lock(s, s', p, b)
    case AFill(p, b) => Fill(s, s', p, b)
    case AModify(p, b, x) => Modify(s, s', p, b, x)
    case ALogWrite(p, b) => LogWrite(s, s', p, b, lay, limit)
    case ARelease(p, b) => Release(s, s', p, b)
    case ACommitWrite => CommitWrite(s, s', lay)
    case ACommitEnd => CommitEnd(s, s')
    case ACrash => Crash(s, s')
    case ARecoverWrite => RecoverWrite(s, s', lay)
  }

  // What every reachable state satisfies, in parts that each look only at the components they need.

  ghost predicate Sized(disk: Image, base: Image, current: Image, durable: Image, list: seq<Word>, lay: Layout) {
    && |disk| <= 0x1_0000_0000 && LOGSIZE < lay.size
    && |base| == |current| == |durable| == |disk|
    && HomeList(disk, lay, list)
    && (forall i, j :: 0 <= i < j < |list| ==> list[i] != list[j])
  }

  /** Only home blocks are cached, and a pinned block is. */
  ghost predicate Placed(cache: map<Word, Slot>, size: nat, pins: seq<Word>, lay: Layout) {
    && (forall b :: b in cache ==> b < size && !InLog(lay, b))
    && (forall b :: b in pins ==> b in cache && cache[b].valid)
  }

  /** The list entries the running operations may still add. */
  ghost function Spare(ops: map<Pid, nat>): int
    decreases |ops|
  {
    if ops == map[] then 0 else
    var p :| p in ops;
    MAXOPBLOCKS - ops[p] + Spare(ops - {p})
  }

  /** The list and what running operations may still add to it fit the log; no operation runs
      while a commit or recovery does. */
  ghost predicate Reserved(list: seq<Word>, outstanding: nat, phase: Phase, ops: map<Pid, nat>) {
    && outstanding == |ops|
    && (ops != map[] ==> phase.Idle?)
    && (forall p :: p in ops ==> ops[p] < MAXOPBLOCKS)
    && |list| + Spare(ops) <= LOGSIZE
  }

  /** A buffer's count is its holders and waiters, plus one for a log entry not yet installed. */
  ghost predicate Counted(cache: map<Word, Slot>, refs: set<(Pid, Word)>, pins: seq<Word>) {
    && (forall b :: b in cache ==> cache[b].refcnt == |Holders(refs, b)| + if b in pins then 1 else 0)
    && (forall r :: r in refs ==> r.1 in cache)
    && (forall b :: b in cache && cache[b].lock.Some? ==> (cache[b].lock.value, b) in refs)
  }

  ghost predicate Disciplined(dirty: set<Word>, cache: map<Word, Slot>, ops: map<Pid, nat>) {
    forall b :: b in dirty ==> b in cache && cache[b].valid && cache[b].lock.Some? && cache[b].lock.value in ops
  }

  /** A valid buffer holds the last value given to its block. */
  ghost predicate Fresh(cache: map<Word, Slot>, current: Image) {
    forall b :: b in cache && cache[b].valid ==> b < |current| && cache[b].data == current[b]
  }

  /** A block that is neither being modified nor waiting to be installed has its value on disk. */
  ghost predicate Settled(disk: Image, current: Image, dirty: set<Word>, pins: seq<Word>, lay: Layout) {
    |current| == |disk| &&
    forall b: Word :: b < |disk| && !InLog(lay, b) && b !in dirty && b !in pins ==> current[b] == disk[b]
  }

  /** How the disk relates to what a crash must bring back. */
  ghost predicate Logged(disk: Image, base: Image, current: Image, durable: Image, list: seq<Word>, phase: Phase,
                         lay: Layout)
    requires Sized(disk, base, current, durable, list, lay)
  {
    match phase
    case Idle =>
      HeaderCount(disk[lay.start]) == 0 && SameHome(disk, durable, lay)
    case Cleared =>
      HeaderCount(disk[lay.start]) == 0 && SameHome(disk, durable, lay) && list == []
    case Writing(k) =>
      && (if list == [] then k == 0 else k <= 2 * |list| + 1)
      && HeaderCount(base[lay.start]) == 0
      && disk == CommitState(base, lay, current, list, k)
      && (forall b: Word :: b < |disk| && !InLog(lay, b) && b !in list ==> current[b] == base[b])
      && SameHome(if k <= |list| then base else current, durable, lay)
    case Recovering(k) =>
      && LogOk(base, lay) && k <= HeaderCount(base[lay.start])
      && disk == RecoveryState(base, lay, k)
      && SameHome(Recovered(base, lay), durable, lay)
      && current == durable
  }

  ghost predicate Inv(s: State, lay: Layout) {
    var pins := Pins(s.list, s.phase);
    && Sized(s.disk, s.base, s.current, s.durable, s.list, lay)
    && Placed(s.cache, |s.disk|, pins, lay)
    && Reserved(s.list, s.outstanding, s.phase, s.ops)
    && Counted(s.cache, s.refs, pins)
    && Disciplined(s.dirty, s.cache, s.ops)
    && Fresh(s.cache, s.current)
    && (s.phase.Recovering? || Settled(s.disk, s.current, s.dirty, pins, lay))
    && Logged(s.disk, s.base, s.current, s.durable, s.list, s.phase, lay)
    && (s.phase.Recovering? ==> s.cache == map[] && s.list == [] && s.refs == {} && s.dirty == {})
  }

  // The reservation arithmetic.

  lemma {:induction false} SpareOf(ops: map<Pid, nat>, p: Pid)
    requires p in ops
    ensures Spare(ops) == MAXOPBLOCKS - ops[p] + Spare(ops - {p})
    decreases |ops|
  {
    var q :| q in ops && Spare(ops) == MAXOPBLOCKS - ops[q] + Spare(ops - {q});
    if q != p {
      SpareOf(ops - {q}, p);
      SpareOf(ops - {p}, q);
      assert ops - {q} - {p} == ops - {p} - {q};
    }
  }

  lemma {:induction false} SpareBounded(ops: map<Pid, nat>)
    requires forall p :: p in ops ==> ops[p] < MAXOPBLOCKS
    ensures 0 <= Spare(ops) <= |ops| * MAXOPBLOCKS
    ensures |ops| <= Spare(ops)
    decreases |ops|
  {
    if ops != map[] {
      var q :| q in ops && Spare(ops) == MAXOPBLOCKS - ops[q] + Spare(ops - {q});
      assert |ops - {q}| == |ops| - 1 by { assert (ops - {q}).Keys == ops.Keys - {q}; }
      SpareBounded(ops - {q});
    }
  }

  // Every step keeps the invariant.

  lemma KeepBegin(s: State, s': State, p: Pid, lay: Layout)
    requires Inv(s, lay) && BeginOp(s, s', p)
    ensures Inv(s', lay)
  {
    hide Sized, Placed, Counted, Fresh, Settled, Logged, Reserved;
    ReservedBegin(s.list, s.outstanding, s.ops, p);
  }

  /** begin_op's test leaves room for all the entries the new operation may add. */
  lemma ReservedBegin(list: seq<Word>, outstanding: nat, ops: map<Pid, nat>, p: Pid)
    requires Reserved(list, outstanding, Idle, ops) && p !in ops
    requires |list| + (outstanding + 1) * MAXOPBLOCKS <= LOGSIZE
    ensures Reserved(list, outstanding + 1, Idle, ops[p := 0])
  {
    hide Spare;
    var ops' := ops[p := 0];
    SpareBounded(ops);
    SpareOf(ops', p);
    assert ops' - {p} == ops;
    assert ops'.Keys == ops.Keys + {p};
  }

  lemma KeepEnd(s: State, s': State, p: Pid, lay: Layout)
    requires Inv(s, lay) && EndOp(s, s', p)
    ensures Inv(s', lay)
  {
    hide Sized, Placed, Counted, Fresh, Settled, Logged;
    SpareOf(s.ops, p);
    assert s'.ops.Keys == s.ops.Keys - {p};
    assert forall b :: b in s.dirty ==> s.cache[b].lock.value != p;
    if s.outstanding == 1 {
      assert s.ops.Keys == {p};
      assert s'.dirty == {};
      StartCommit(s.disk, s.base, s.current, s.durable, s.list, lay);
    }
  }

  lemma StartCommit(disk: Image, base: Image, current: Image, durable: Image, list: seq<Word>, lay: Layout)
    requires Sized(disk, base, current, durable, list, lay)
    requires Logged(disk, base, current, durable, list, Idle, lay)
    requires Settled(disk, current, {}, list, lay)
    ensures Sized(disk, disk, current, durable, list, lay)
    ensures Logged(disk, disk, current, durable, list, Writing(0), lay)
  {
    hide WordAt, CommitState;
    NoWrites(disk, lay, current, list);
  }

  lemma CountedTake(cache: map<Word, Slot>, refs: set<(Pid, Word)>, pins: seq<Word>, p: Pid, b: Word)
    requires Counted(cache, refs, pins) && b in cache && (p, b) !in refs
    ensures Counted(cache[b := cache[b].(refcnt := cache[b].refcnt + 1)], refs + {(p, b)}, pins)
  {
    var refs' := refs + {(p, b)};
    assert Holders(refs', b) == Holders(refs, b) + {(p, b)};
    forall c: Word | c != b ensures Holders(refs', c) == Holders(refs, c) {
    }
  }

  lemma KeepGetCached(s: State, s': State, p: Pid, b: Word, lay: Layout)
    requires Inv(s, lay) && GetCached(s, s', p, b)
    ensures Inv(s', lay)
  {
    hide Sized, Reserved, Settled, Logged, Counted;
    CountedTake(s.cache, s.refs, Pins(s.list, s.phase), p, b);
  }

  /** A recycled buffer has no holder, no waiter and no pin. */
  lemma CountedRecycle(cache: map<Word, Slot>, refs: set<(Pid, Word)>, pins: seq<Word>, v: Word)
    requires Counted(cache, refs, pins) && v in cache && cache[v].refcnt == 0
    ensures Counted(cache - {v}, refs, pins) && v !in pins && cache[v].lock.None?
  {
    assert Holders(refs, v) == {};
    forall r | r in refs ensures r.1 != v {
      assert r.1 == v ==> r in Holders(refs, v);
    }
  }

  lemma CountedFresh(cache: map<Word, Slot>, refs: set<(Pid, Word)>, pins: seq<Word>, p: Pid, b: Word, junk: Block)
    requires Counted(cache, refs, pins) && b !in cache && b !in pins
    ensures Counted(cache[b := Slot(false, junk, 1, None)], refs + {(p, b)}, pins)
  {
    var refs' := refs + {(p, b)};
    assert Holders(refs, b) == {};
    assert Holders(refs', b) == {(p, b)};
    forall c: Word | c != b ensures Holders(refs', c) == Holders(refs, c) {
    }
  }

  lemma KeepGetFresh(s: State, s': State, p: Pid, b: Word, v: Option<Word>, junk: Block, lay: Layout)
    requires Inv(s, lay) && GetFresh(s, s', p, b, v, junk, lay)
    ensures Inv(s', lay)
  {
    hide Sized, Reserved, Settled, Logged, Counted;
    var pins := Pins(s.list, s.phase);
    var cache := if v.Some? then s.cache - {v.value} else s.cache;
    if v.Some? {
      CountedRecycle(s.cache, s.refs, pins, v.value);
    }
    CountedFresh(cache, s.refs, pins, p, b, junk);
  }

  lemma LockerHolds(cache: map<Word, Slot>, refs: set<(Pid, Word)>, pins: seq<Word>, b: Word)
    requires Counted(cache, refs, pins) && b in cache && cache[b].lock.Some?
    ensures (cache[b].lock.value, b) in refs
  {
  }

  lemma IdleWhileRunning(list: seq<Word>, outstanding: nat, phase: Phase, ops: map<Pid, nat>, p: Pid)
    requires Reserved(list, outstanding, phase, ops) && p in ops
    ensures phase.Idle? && outstanding >= 1 && |list| < LOGSIZE
  {
    SpareBounded(ops);
    assert ops.Keys != {};
  }

  /** Neither contents nor the owner of the lock bear on the counts. */
  lemma CountedSlot(cache: map<Word, Slot>, refs: set<(Pid, Word)>, pins: seq<Word>, b: Word, slot: Slot)
    requires Counted(cache, refs, pins) && b in cache && slot.refcnt == cache[b].refcnt
    requires slot.lock.Some? ==> (slot.lock.value, b) in refs
    ensures Counted(cache[b := slot], refs, pins)
  {
    hide Holders;
  }

  lemma KeepLock(s: State, s': State, p: Pid, b: Word, lay: Layout)
    requires Inv(s, lay) && Lock(s, s', p, b)
    ensures Inv(s', lay)
  {
    hide Sized, Reserved, Settled, Logged, Counted;
    CountedSlot(s.cache, s.refs, Pins(s.list, s.phase), b, s'.cache[b]);
  }

  lemma KeepFill(s: State, s': State, p: Pid, b: Word, lay: Layout)
    requires Inv(s, lay) && Fill(s, s', p, b)
    ensures Inv(s', lay)
  {
    hide Sized, Reserved, Logged, Counted;
    LockerHolds(s.cache, s.refs, Pins(s.list, s.phase), b);
    CountedSlot(s.cache, s.refs, Pins(s.list, s.phase), b, s'.cache[b]);
    assert b !in Pins(s.list, s.phase) && b !in s.dirty;
  }

  lemma KeepModify(s: State, s': State, p: Pid, b: Word, x: Block, lay: Layout)
    requires Inv(s, lay) && Modify(s, s', p, b, x)
    ensures Inv(s', lay)
  {
    hide Reserved, Counted, SameHome, WordAt, HomeList;
    LockerHolds(s.cache, s.refs, Pins(s.list, s.phase), b);
    IdleWhileRunning(s.list, s.outstanding, s.phase, s.ops, p);
    CountedSlot(s.cache, s.refs, Pins(s.list, s.phase), b, s'.cache[b]);
  }

  lemma CountedPin(cache: map<Word, Slot>, refs: set<(Pid, Word)>, pins: seq<Word>, b: Word)
    requires Counted(cache, refs, pins) && b in cache && b !in pins
    ensures Counted(cache[b := cache[b].(refcnt := cache[b].refcnt + 1)], refs, pins + [b])
  {
    hide Holders;
  }

  lemma ReservedAdd(list: seq<Word>, outstanding: nat, phase: Phase, ops: map<Pid, nat>, p: Pid, b: Word)
    requires Reserved(list, outstanding, phase, ops) && p in ops && ops[p] + 1 < MAXOPBLOCKS
    ensures Reserved(list + [b], outstanding, phase, ops[p := ops[p] + 1])
  {
    var ops' := ops[p := ops[p] + 1];
    SpareOf(ops, p);
    SpareOf(ops', p);
    assert ops' - {p} == ops - {p};
    assert ops'.Keys == ops.Keys;
  }

  lemma KeepLogWrite(s: State, s': State, p: Pid, b: Word, lay: Layout, limit: nat)
    requires limit < MAXOPBLOCKS
    requires Inv(s, lay) && LogWrite(s, s', p, b, lay, limit)
    ensures Inv(s', lay)
  {
    hide Counted, Reserved, Sized, Placed, Settled, Logged, Fresh;
    IdleWhileRunning(s.list, s.outstanding, s.phase, s.ops, p);
    if b !in s.list {
      CountedPin(s.cache, s.refs, s.list, b);
      ReservedAdd(s.list, s.outstanding, s.phase, s.ops, p, b);
      PlacedPin(s.cache, |s.disk|, s.list, lay, b);
      SizedAdd(s.disk, s.base, s.current, s.durable, s.list, lay, b);
      FreshPin(s.cache, s.current, b);
      SettledAdd(s.disk, s.current, s.dirty, s.list, lay, b);
      LoggedAdd(s.disk, s.base, s.current, s.durable, s.list, lay, b);
    } else {
      SettledClean(s.disk, s.current, s.dirty, s.list, lay, b);
    }
  }

  ghost function WithPin(cache: map<Word, Slot>, b: Word): map<Word, Slot>
    requires b in cache
  {
    cache[b := cache[b].(refcnt := cache[b].refcnt + 1)]
  }

  lemma PlacedPin(cache: map<Word, Slot>, size: nat, list: seq<Word>, lay: Layout, b: Word)
    requires Placed(cache, size, list, lay) && b in cache && cache[b].valid
    ensures b < size && !InLog(lay, b) && Placed(WithPin(cache, b), size, list + [b], lay)
  {
  }

  lemma SizedAdd(disk: Image, base: Image, current: Image, durable: Image, list: seq<Word>, lay: Layout, b: Word)
    requires Sized(disk, base, current, durable, list, lay) && b !in list && b < |disk| && !InLog(lay, b)
    requires |list| < LOGSIZE
    ensures Sized(disk, base, current, durable, list + [b], lay)
  {
  }

  lemma FreshPin(cache: map<Word, Slot>, current: Image, b: Word)
    requires Fresh(cache, current) && b in cache
    ensures Fresh(WithPin(cache, b), current)
  {
  }

  lemma SettledAdd(disk: Image, current: Image, dirty: set<Word>, list: seq<Word>, lay: Layout, b: Word)
    requires Settled(disk, current, dirty, list, lay)
    ensures Settled(disk, current, dirty - {b}, list + [b], lay)
  {
  }

  lemma SettledClean(disk: Image, current: Image, dirty: set<Word>, list: seq<Word>, lay: Layout, b: Word)
    requires Settled(disk, current, dirty, list, lay) && b in list
    ensures Settled(disk, current, dirty - {b}, list, lay)
  {
  }

  lemma LoggedAdd(disk: Image, base: Image, current: Image, durable: Image, list: seq<Word>, lay: Layout, b: Word)
    requires Sized(disk, base, current, durable, list, lay) && Sized(disk, base, current, durable, list + [b], lay)
    requires Logged(disk, base, current, durable, list, Idle, lay)
    ensures Logged(disk, base, current, durable, list + [b], Idle, lay)
  {
    hide Sized, WordAt, SameHome;
  }

  lemma CountedDrop(cache: map<Word, Slot>, refs: set<(Pid, Word)>, pins: seq<Word>, p: Pid, b: Word)
    requires Counted(cache, refs, pins) && b in cache && (p, b) in refs
    ensures cache[b].refcnt >= 1
    ensures Counted(cache[b := cache[b].(refcnt := cache[b].refcnt - 1, lock := None)], refs - {(p, b)}, pins)
  {
    var refs' := refs - {(p, b)};
    assert (p, b) in Holders(refs, b);
    assert Holders(refs', b) == Holders(refs, b) - {(p, b)};
    forall c: Word | c != b ensures Holders(refs', c) == Holders(refs, c) {
    }
  }

  lemma KeepRelease(s: State, s': State, p: Pid, b: Word, lay: Layout)
    requires Inv(s, lay) && Release(s, s', p, b)
    ensures Inv(s', lay)
  {
    hide Sized, Reserved, Settled, Logged, Counted;
    LockerHolds(s.cache, s.refs, Pins(s.list, s.phase), b);
    CountedDrop(s.cache, s.refs, Pins(s.list, s.phase), p, b);
  }

  // The commit steps.

  lemma SettledByHome(disk: Image, disk': Image, current: Image, dirty: set<Word>, pins: seq<Word>, lay: Layout)
    requires Settled(disk, current, dirty, pins, lay) && SameHome(disk', disk, lay)
    ensures Settled(disk', current, dirty, pins, lay)
  {
  }

  /** A block copied to the log, or the header written: the home blocks stay as they are. */
  lemma LoggedBefore(disk: Image, base: Image, current: Image, durable: Image, list: seq<Word>, k: nat, x: Block,
                     lay: Layout)
    requires Sized(disk, base, current, durable, list, lay) && list != [] && k <= |list|
    requires Logged(disk, base, current, durable, list, Writing(k), lay)
    requires k < |list| ==> x == current[list[k]]
    ensures var disk' := CommitSet(disk, lay, list, k, x);
            var durable' := if k == |list| then current else durable;
            && Sized(disk', base, current, durable', list, lay)
            && Logged(disk', base, current, durable', list, Writing(k + 1), lay)
            && SameHome(disk', disk, lay)
  {
    hide WordAt, SetWord, PutHeader, CommitState, InstallWrite;
    CommitNext(base, lay, current, list, k, x);
  }

  lemma KeepCopyToLog(s: State, s': State, lay: Layout)
    requires Inv(s, lay) && CommitWrite(s, s', lay) && s.phase.k <= |s.list|
    ensures Inv(s', lay)
  {
    hide Sized, Counted, Settled, Logged, Disciplined, CommitSet, SameHome;
    var k := s.phase.k;
    var x := if k < |s.list| && s.list[k] in s.cache then s.cache[s.list[k]].data else s.disk[lay.start];
    if k < |s.list| {
      assert s.list[k] in Pins(s.list, s.phase);
    }
    LoggedBefore(s.disk, s.base, s.current, s.durable, s.list, k, x, lay);
    SettledByHome(s.disk, s'.disk, s.current, s.dirty, s.list, lay);
  }

  lemma CountedUnpin(cache: map<Word, Slot>, refs: set<(Pid, Word)>, pins: seq<Word>, x: Block)
    requires Counted(cache, refs, pins) && pins != [] && pins[0] in cache && pins[0] !in pins[1..]
    ensures cache[pins[0]].refcnt >= 1
    ensures Counted(Installed(cache, pins[0], x), refs, pins[1..])
  {
    hide Holders;
    assert pins == [pins[0]] + pins[1..];
  }

  /** A logged block installed: its home gets the last value given to it. */
  lemma LoggedInstall(disk: Image, base: Image, current: Image, durable: Image, list: seq<Word>, k: nat, x: Block,
                      lay: Layout)
    requires Sized(disk, base, current, durable, list, lay) && |list| < k <= 2 * |list|
    requires Logged(disk, base, current, durable, list, Writing(k), lay)
    ensures var disk' := CommitSet(disk, lay, list, k, x);
            && Sized(disk', base, current, durable, list, lay)
            && Logged(disk', base, current, durable, list, Writing(k + 1), lay)
            && disk[lay.start + k - |list|] == current[list[k - |list| - 1]]
            && disk' == disk[list[k - |list| - 1] := current[list[k - |list| - 1]]]
  {
    hide WordAt, SetWord, PutHeader, CommitState;
    CommitNext(base, lay, current, list, k, x);
    CommitSlots(base, lay, current, list, k, k - |list| - 1);
  }

  lemma SettledByInstall(disk: Image, current: Image, dirty: set<Word>, pins: seq<Word>, lay: Layout)
    requires Settled(disk, current, dirty, pins, lay) && pins != [] && pins[0] < |disk|
    ensures Settled(disk[pins[0] := current[pins[0]]], current, dirty, pins[1..], lay)
  {
    assert pins == [pins[0]] + pins[1..];
  }

  lemma NextPin(list: seq<Word>, k: nat)
    requires |list| < k <= 2 * |list|
    requires forall i, j :: 0 <= i < j < |list| ==> list[i] != list[j]
    ensures var pins := Pins(list, Writing(k));
            && pins != [] && pins[0] == list[k - |list| - 1]
            && pins[1..] == Pins(list, Writing(k + 1))
            && pins[0] !in pins[1..]
  {
    assert list[0..] == list;
  }

  lemma KeepInstallHome(s: State, s': State, lay: Layout)
    requires Inv(s, lay) && CommitWrite(s, s', lay) && |s.list| < s.phase.k <= 2 * |s.list|
    ensures Inv(s', lay)
  {
    hide Counted, Settled, Logged, CommitSet, SameHome, Pins, Placed, Fresh, Installed, Spare;
    var pins, k := Pins(s.list, s.phase), s.phase.k;
    NextPin(s.list, k);
    assert lay.start + k - |s.list| < |s.disk|;
    LoggedInstall(s.disk, s.base, s.current, s.durable, s.list, k, s.disk[lay.start], lay);
    CountedUnpin(s.cache, s.refs, pins, s.disk[lay.start + k - |s.list|]);
    SettledByInstall(s.disk, s.current, s.dirty, pins, lay);
    PlacedInstall(s.cache, |s.disk|, pins, s.current, s.disk[lay.start + k - |s.list|], lay);
    DisciplinedIdle(s.dirty, s.cache, s.ops, s.phase, s.list, s.outstanding);
  }

  lemma PlacedInstall(cache: map<Word, Slot>, size: nat, pins: seq<Word>, current: Image, x: Block, lay: Layout)
    requires Placed(cache, size, pins, lay) && Fresh(cache, current) && pins != []
    requires pins[0] < |current| && x == current[pins[0]]
    ensures pins[0] in cache
    ensures Placed(Installed(cache, pins[0], x), size, pins[1..], lay) && Fresh(Installed(cache, pins[0], x), current)
  {
    assert forall b :: b in pins[1..] ==> b in pins;
  }

  /** Nothing is being modified while a commit runs. */
  lemma DisciplinedIdle(dirty: set<Word>, cache: map<Word, Slot>, ops: map<Pid, nat>, phase: Phase, list: seq<Word>,
                        outstanding: nat)
    requires Disciplined(dirty, cache, ops) && Reserved(list, outstanding, phase, ops) && !phase.Idle?
    ensures dirty == {} && ops == map[]
  {
    if b :| b in dirty {
      assert cache[b].lock.value in ops;
    }
  }

  /** The last write leaves an empty log and every home block at its last value. */
  lemma LoggedErase(disk: Image, base: Image, current: Image, durable: Image, list: seq<Word>, x: Block, lay: Layout)
    requires Sized(disk, base, current, durable, list, lay) && list != []
    requires Logged(disk, base, current, durable, list, Writing(2 * |list| + 1), lay)
    ensures var disk' := CommitSet(disk, lay, list, 2 * |list| + 1, x);
            && Sized(disk', base, current, durable, [], lay)
            && Logged(disk', base, current, durable, [], Cleared, lay)
            && SameHome(disk', disk, lay)
  {
    hide WordAt, SetWord, PutHeader, CommitState, Committed, Recovered, RecoveryState;
    CommitNext(base, lay, current, list, 2 * |list| + 1, x);
    CommitEnds(base, lay, current, list);
    CommittedReaches(base, lay, current, list);
  }

  lemma CommitEnds(d: Image, lay: Layout, view: Image, l: seq<Word>)
    requires HomeList(d, lay, l) && |view| == |d|
    ensures CommitState(d, lay, view, l, 2 * |l| + 2) == Recovered(Committed(d, lay, view, l), lay)
  {
    hide WordAt, SetWord, PutHeader, Committed;
  }

  lemma KeepEraseLog(s: State, s': State, lay: Layout)
    requires Inv(s, lay) && CommitWrite(s, s', lay) && s.phase.k == 2 * |s.list| + 1
    ensures Inv(s', lay)
  {
    hide Sized, Counted, Settled, Logged, Disciplined, CommitSet, SameHome, Fresh;
    assert Pins(s.list, s.phase) == [];
    LoggedErase(s.disk, s.base, s.current, s.durable, s.list, s.disk[lay.start], lay);
    SettledByHome(s.disk, s'.disk, s.current, s.dirty, [], lay);
  }

  lemma KeepCommitEnd(s: State, s': State, lay: Layout)
    requires Inv(s, lay) && CommitEnd(s, s')
    ensures Inv(s', lay)
  {
    hide Sized, Placed, Counted, Settled, Disciplined, Fresh, Logged;
    LoggedDone(s.disk, s.base, s.current, s.durable, s.list, s.phase, lay);
  }

  lemma LoggedDone(disk: Image, base: Image, current: Image, durable: Image, list: seq<Word>, phase: Phase, lay: Layout)
    requires Sized(disk, base, current, durable, list, lay)
    requires Logged(disk, base, current, durable, list, phase, lay)
    requires phase.Cleared? || (phase.Writing? && list == [])
    ensures list == [] && Logged(disk, base, current, durable, list, Idle, lay)
  {
    hide WordAt, CommitState;
    NoWrites(base, lay, current, list);
  }

  // Crashes and recovery.

  /** In every phase, recovering the disk as it is would give exactly what is durable. */
  lemma Recoverable(disk: Image, base: Image, current: Image, durable: Image, list: seq<Word>, phase: Phase,
                    lay: Layout)
    requires Sized(disk, base, current, durable, list, lay)
    requires Logged(disk, base, current, durable, list, phase, lay)
    ensures LogOk(disk, lay) && SameHome(Recovered(disk, lay), durable, lay)
  {
    hide WordAt, SetWord, PutHeader, CommitState, RecoveryState, Recovered;
    match phase
    case Idle => EmptyLogRecovers(disk, lay);
    case Cleared => EmptyLogRecovers(disk, lay);
    case Writing(k) =>
      EmptyLogRecovers(base, lay);
      CommitSwitchesAtHeader(base, lay, current, list, k);
    case Recovering(k) => RecoveryRestarts(base, lay, k);
  }

  lemma KeepCrash(s: State, s': State, lay: Layout)
    requires Inv(s, lay) && Crash(s, s')
    ensures Inv(s', lay)
  {
    hide WordAt, Recovered, CommitState, Counted, Settled;
    Recoverable(s.disk, s.base, s.current, s.durable, s.list, s.phase, lay);
    Restart(s.disk, lay);
    assert Counted(map[], {}, []) by { CountedNone(); }
  }

  lemma CountedNone()
    ensures Counted(map[], {}, [])
  {
  }

  lemma Restart(d: Image, lay: Layout)
    requires LogOk(d, lay)
    ensures RecoveryState(d, lay, 0) == d
  {
    hide WordAt;
  }

  ghost predicate OneStepOn(disk: Image, base: Image, current: Image, durable: Image, k: nat, n: nat, lay: Layout) {
    && Sized(disk, base, current, durable, [], lay)
    && Logged(disk, base, current, durable, [], if k < n then Recovering(k + 1) else Idle, lay)
    && (k == n ==> SameHome(disk, current, lay))
  }

  lemma LoggedRecover(disk: Image, disk': Image, base: Image, current: Image, durable: Image, k: nat, lay: Layout)
    requires |disk| == |base| && LogOk(base, lay) && k <= HeaderCount(base[lay.start])
    requires disk' == InstallWrite(disk, lay, HeaderList(base[lay.start]), k)
    requires Sized(disk, base, current, durable, [], lay)
    requires Logged(disk, base, current, durable, [], Recovering(k), lay)
    ensures OneStepOn(disk', base, current, durable, k, HeaderCount(base[lay.start]), lay)
  {
    hide WordAt, SetWord, PutHeader, RecoveryState, InstallWrite;
    RecoveryNext(base, lay, k);
    RecoveryClears(base, lay);
  }

  lemma RecoveryClears(d: Image, lay: Layout)
    requires LogOk(d, lay)
    ensures Recovered(d, lay) == RecoveryState(d, lay, HeaderCount(d[lay.start]) + 1)
    ensures HeaderCount(Recovered(d, lay)[lay.start]) == 0
  {
    hide WordAt, SetWord, PutHeader;
  }

  lemma KeepRecoverWrite(s: State, s': State, lay: Layout)
    requires Inv(s, lay) && RecoverWrite(s, s', lay)
    ensures Inv(s', lay)
  {
    hide Sized, Logged, Counted, WordAt, LogOk, HeaderCount, HeaderList;
    LoggedRecover(s.disk, s'.disk, s.base, s.current, s.durable, s.phase.k, lay);
  }

  lemma KeepInit(s: State, lay: Layout)
    requires Init(s, lay)
    ensures Inv(s, lay)
  {
    hide WordAt, Recovered;
    Restart(s.disk, lay);
  }

  lemma KeepNext(s: State, s': State, a: Action, lay: Layout, limit: nat)
    requires limit < MAXOPBLOCKS
    requires Inv(s, lay) && Next(s, s', a, lay, limit)
    ensures Inv(s', lay)
  {
    hide Inv;
    match a
    case ABegin(p) => KeepBegin(s, s', p, lay);
    case AEnd(p) => KeepEnd(s, s', p, lay);
    case AGetCached(p, b) => KeepGetCached(s, s', p, b, lay);
    case AGetFresh(p, b, v, junk) => KeepGetFresh(s, s', p, b, v, junk, lay);
    case ALock(p, b) => KeepLock(s, s', p, b, lay);
    case AFill(p, b) => KeepFill(s, s', p, b, lay);
    case AModify(p, b, x) => KeepModify(s, s', p, b, x, lay);
    case ALogWrite(p, b) => KeepLogWrite(s, s', p, b, lay, limit);
    case ARelease(p, b) => KeepRelease(s, s', p, b, lay);
    case ACommitWrite =>
      if s.phase.k <= |s.list| {
        KeepCopyToLog(s, s', lay);
      } else if s.phase.k <= 2 * |s.list| {
        KeepInstallHome(s, s', lay);
      } else {
        KeepEraseLog(s, s', lay);
      }
    case ACommitEnd => KeepCommitEnd(s, s', lay);
    case ACrash => KeepCrash(s, s', lay);
    case ARecoverWrite => KeepRecoverWrite(s, s', lay);
  }

  // Runs.

  ghost predicate Steps(s: State, acts: seq<Action>, s': State, lay: Layout, limit: nat)
    decreases |acts|
  {
    if acts == [] then s' == s
    else exists m :: Next(s, m, acts[0], lay, limit) && Steps(m, acts[1..], s', lay, limit)
  }

  ghost predicate Reachable(s: State, lay: Layout, limit: nat) {
    exists s0, acts :: Init(s0, lay) && Steps(s0, acts, s, lay, limit)
  }

  lemma {:induction false} StepsKeep(s: State, acts: seq<Action>, s': State, lay: Layout, limit: nat)
    requires limit < MAXOPBLOCKS
    requires Inv(s, lay) && Steps(s, acts, s', lay, limit)
    ensures Inv(s', lay)
    decreases |acts|
  {
    hide Inv, Next;
    if acts != [] {
      var m :| Next(s, m, acts[0], lay, limit) && Steps(m, acts[1..], s', lay, limit);
      KeepNext(s, m, acts[0], lay, limit);
      StepsKeep(m, acts[1..], s', lay, limit);
    }
  }

  /** The invariant holds in every state of every run, crashes included, of operations that each
      add fewer than MAXOPBLOCKS blocks. */
  lemma ReachableInv(s: State, lay: Layout, limit: nat)
    requires limit < MAXOPBLOCKS && Reachable(s, lay, limit)
    ensures Inv(s, lay)
  {
    hide Inv, Next, Steps, Init;
    var s0, acts :| Init(s0, lay) && Steps(s0, acts, s, lay, limit);
    KeepInit(s0, lay);
    StepsKeep(s0, acts, s, lay, limit);
  }

  lemma SizedLengths(disk: Image, base: Image, current: Image, durable: Image, list: seq<Word>, lay: Layout)
    requires Sized(disk, base, current, durable, list, lay)
    ensures |base| == |current| == |durable| == |disk| && LOGSIZE < lay.size
  {
  }

  /** Whoever holds a valid buffer, whatever was evicted, logged or committed meanwhile, sees the
      last value given to the block; and an invalid one would be filled with it. */
  lemma ReadsLastValue(s: State, lay: Layout, limit: nat, p: Pid, b: Word)
    requires limit < MAXOPBLOCKS && Reachable(s, lay, limit) && Holds(s, p, b)
    ensures b < |s.current| == |s.disk|
    ensures s.current[b] == if s.cache[b].valid then s.cache[b].data else s.disk[b]
  {
    hide Reachable, Sized, Counted, Reserved, Logged;
    ReachableInv(s, lay, limit);
    SizedLengths(s.disk, s.base, s.current, s.durable, s.list, lay);
    if !s.cache[b].valid {
      assert b !in Pins(s.list, s.phase) && b !in s.dirty;
    }
  }

  /** A crash at any moment, followed by a complete recovery, brings back what is durable. */
  lemma CrashBringsBackDurable(s: State, lay: Layout, limit: nat)
    requires limit < MAXOPBLOCKS && Reachable(s, lay, limit)
    ensures LogOk(s.disk, lay) && SameHome(Recovered(s.disk, lay), s.durable, lay)
  {
    hide WordAt, Recovered, Reachable;
    ReachableInv(s, lay, limit);
    Recoverable(s.disk, s.base, s.current, s.durable, s.list, s.phase, lay);
  }

  /** No panic of log.c is reachable: the log never fills up, nothing is logged and no operation
      ends while a commit runs, and a pinned buffer is never without a reference. */
  lemma NoLogPanic(s: State, lay: Layout, limit: nat)
    requires limit < MAXOPBLOCKS && Reachable(s, lay, limit)
    ensures s.ops != map[] ==> !TooBig(s, lay) && s.phase.Idle?
    ensures forall b :: b in Pins(s.list, s.phase) ==> b in s.cache && s.cache[b].refcnt >= 1
  {
    hide Reachable, Sized, Reserved, Logged, Holders, Fresh, Settled;
    ReachableInv(s, lay, limit);
    SizedLengths(s.disk, s.base, s.current, s.durable, s.list, lay);
    if p :| p in s.ops {
      IdleWhileRunning(s.list, s.outstanding, s.phase, s.ops, p);
    }
  }

  // The store all this stands for.

  /** A block store with a volatile and a durable version and a set of open operations. */
  datatype Store = Store(current: Image, durable: Image, active: set<Pid>)

  ghost function Abs(s: State): Store {
    Store(s.current, s.durable, s.ops.Keys)
  }

  ghost predicate Opens(v: Store, v': Store, p: Pid) {
    v' == v.(active := v.active + {p})
  }

  ghost predicate Closes(v: Store, v': Store, p: Pid) {
    v' == v.(active := v.active - {p})
  }

  ghost predicate Writes(v: Store, v': Store, b: nat, x: Block) {
    v.active != {} && b < |v.current| && v' == v.(current := v.current[b := x])
  }

  /** Open operations write single blocks; a commit, possible only when none is open, makes the
      whole volatile version durable at once; a crash falls back to the durable version. */
  ghost predicate StoreNext(v: Store, v': Store) {
    || v' == v
    || (exists p :: Opens(v, v', p))
    || (exists p :: Closes(v, v', p))
    || (exists b, x :: Writes(v, v', b, x))
    || (v.active == {} && v' == v.(durable := v.current))
    || v' == Store(v.durable, v.durable, {})
  }

  /** Every step of the protocol is a step of that store, or invisible to it. */
  lemma Refines(s: State, s': State, a: Action, lay: Layout, limit: nat)
    requires limit < MAXOPBLOCKS && Reachable(s, lay, limit) && Next(s, s', a, lay, limit)
    ensures StoreNext(Abs(s), Abs(s'))
  {
    hide AfterCommitWrite, AfterRecoverWrite, HomeList, LogOk, HeaderCount, Inv, Reachable;
    match a
    case ABegin(p) =>
      assert s'.ops.Keys == s.ops.Keys + {p};
      assert Opens(Abs(s), Abs(s'), p);
    case AEnd(p) =>
      assert s'.ops.Keys == s.ops.Keys - {p};
      assert Closes(Abs(s), Abs(s'), p);
    case ALogWrite(p, b) => assert s'.ops.Keys == s.ops.Keys;
    case AModify(p, b, x) =>
      assert p in Abs(s).active;
      assert Writes(Abs(s), Abs(s'), b, x);
    case ACommitWrite => QuietCommit(s, lay, limit);
    case ACrash => assert Abs(s') == Store(s.durable, s.durable, {});
    case _ => assert Abs(s') == Abs(s);
  }

  /** Commits run only when no operation does. */
  lemma QuietCommit(s: State, lay: Layout, limit: nat)
    requires limit < MAXOPBLOCKS && Reachable(s, lay, limit) && !s.phase.Idle?
    ensures s.ops == map[]
  {
    hide Reachable, Sized, Placed, Counted, Disciplined, Fresh, Settled, Logged, Spare;
    ReachableInv(s, lay, limit);
  }

  // Why "fewer than": operations that each add exactly MAXOPBLOCKS blocks can fill the log, and
  // log_write panics on a full list before it looks whether the block is already on it.

  lemma OneStep(s: State, a: Action, s': State, lay: Layout, limit: nat)
    requires Next(s, s', a, lay, limit)
    ensures Steps(s, [a], s', lay, limit)
  {
    hide Next;
    assert Steps(s', [a][1..], s', lay, limit);
  }

  lemma {:induction false} StepsJoin(s: State, acts: seq<Action>, m: State, more: seq<Action>, s': State, lay: Layout,
                                     limit: nat)
    requires Steps(s, acts, m, lay, limit) && Steps(m, more, s', lay, limit)
    ensures Steps(s, acts + more, s', lay, limit)
    decreases |acts|
  {
    hide Next;
    if acts == [] {
      assert acts + more == more;
    } else {
      var n :| Next(s, n, acts[0], lay, limit) && Steps(n, acts[1..], m, lay, limit);
      StepsJoin(n, acts[1..], m, more, s', lay, limit);
      assert (acts + more)[1..] == acts[1..] + more;
    }
  }

  lemma ReachOn(s: State, acts: seq<Action>, s': State, lay: Layout, limit: nat)
    requires Reachable(s, lay, limit) && Steps(s, acts, s', lay, limit)
    ensures Reachable(s', lay, limit)
  {
    hide Next, Steps, Init;
    var s0, before :| Init(s0, lay) && Steps(s0, before, s, lay, limit);
    StepsJoin(s0, before, s, acts, s', lay, limit);
  }

  /** Reachable, one step further. */
  lemma Reach(s: State, a: Action, s': State, lay: Layout, limit: nat)
    requires Reachable(s, lay, limit) && Next(s, s', a, lay, limit)
    ensures Reachable(s', lay, limit)
  {
    hide Next, Steps, Reachable;
    OneStep(s, a, s', lay, limit);
    ReachOn(s, [a], s', lay, limit);
  }

  /** p reads block b into an unused buffer, logs it and releases it. */
  ghost function WithLogged(s: State, p: Pid, b: Word): State
    requires b < |s.disk| && p in s.ops
  {
    s.(list := s.list + [b], ops := s.ops[p := s.ops[p] + 1],
       cache := s.cache[b := Slot(true, s.disk[b], 1, None)])
  }

  ghost predicate CanLog(s: State, p: Pid, b: Word, lay: Layout) {
    && s.phase.Idle? && s.outstanding >= 1 && s.refs == {} && s.dirty == {} && p in s.ops && s.ops[p] < MAXOPBLOCKS
    && b < |s.disk| && !InLog(lay, b) && b !in s.cache && b !in s.list && |s.cache| < NBUF
    && |s.list| < LOGSIZE < lay.size
  }

  /** The same state with b read, and locked by p. */
  ghost function WithHeld(s: State, p: Pid, b: Word): State
    requires b < |s.disk|
  {
    s.(refs := {(p, b)}, cache := s.cache[b := Slot(true, s.disk[b], 1, Some(p))])
  }

  lemma ReadBlock(s: State, p: Pid, b: Word, lay: Layout)
    requires Reachable(s, lay, MAXOPBLOCKS) && CanLog(s, p, b, lay)
    ensures Reachable(WithHeld(s, p, b), lay, MAXOPBLOCKS)
  {
    hide Reachable;
    var x := s.disk[b];
    var s1 := s.(refs := {(p, b)}, cache := s.cache[b := Slot(false, x, 1, None)]);
    Reach(s, AGetFresh(p, b, None, x), s1, lay, MAXOPBLOCKS);
    var s2 := s.(refs := {(p, b)}, cache := s.cache[b := Slot(false, x, 1, Some(p))]);
    Reach(s1, ALock(p, b), s2, lay, MAXOPBLOCKS);
    Reach(s2, AFill(p, b), WithHeld(s, p, b), lay, MAXOPBLOCKS);
  }

  lemma LogStep(s: State, p: Pid, b: Word, lay: Layout)
    requires CanLog(s, p, b, lay)
    ensures Next(WithHeld(s, p, b), WithPinned(s, p, b), ALogWrite(p, b), lay, MAXOPBLOCKS)
  {
  }

  lemma ReleaseStep(s: State, p: Pid, b: Word, lay: Layout)
    requires CanLog(s, p, b, lay)
    ensures Next(WithPinned(s, p, b), WithLogged(s, p, b), ARelease(p, b), lay, MAXOPBLOCKS)
  {
  }

  lemma LogBlock(s: State, p: Pid, b: Word, lay: Layout)
    requires Reachable(s, lay, MAXOPBLOCKS) && CanLog(s, p, b, lay)
    ensures Reachable(WithLogged(s, p, b), lay, MAXOPBLOCKS)
  {
    hide Reachable, Next;
    ReadBlock(s, p, b, lay);
    LogStep(s, p, b, lay);
    ReleaseStep(s, p, b, lay);
    Reach(WithHeld(s, p, b), ALogWrite(p, b), WithPinned(s, p, b), lay, MAXOPBLOCKS);
    Reach(WithPinned(s, p, b), ARelease(p, b), WithLogged(s, p, b), lay, MAXOPBLOCKS);
  }

  ghost function WithPinned(s: State, p: Pid, b: Word): State
    requires p in s.ops && b < |s.disk|
  {
    WithLogged(s, p, b).(refs := {(p, b)}, cache := s.cache[b := Slot(true, s.disk[b], 2, Some(p))])
  }

  ghost function Clamp(x: int): nat {
    if x < 0 then 0 else if x > MAXOPBLOCKS then MAXOPBLOCKS else x
  }

  ghost function Shares(j: nat): (m: map<Pid, nat>)
    ensures m.Keys == {0, 1, 2}
  {
    map[0 := Clamp(j), 1 := Clamp(j - 10), 2 := Clamp(j - 20)]
  }

  /** Three operations have logged j blocks from c on, ten each, one after the other. */
  ghost predicate Filled(s: State, c: nat, j: nat) {
    && s.phase.Idle? && s.outstanding == 3 && s.refs == {} && s.dirty == {}
    && |s.list| == |s.cache| == j
    && (forall i :: 0 <= i < j ==> s.list[i] == c + i)
    && (forall b :: b in s.cache ==> c <= b < c + j && s.cache[b].valid && s.cache[b].lock.None?)
    && (forall b: Word :: b in s.list ==> b in s.cache)
    && s.ops == Shares(j)
  }

  lemma OpsNext(j: nat)
    requires j < 30
    ensures Shares(j)[j / 10 := Shares(j)[j / 10] + 1] == Shares(j + 1)
    ensures Shares(j)[j / 10] < MAXOPBLOCKS
  {
    if j < 10 {
    } else if j < 20 {
    } else {
      assert j / 10 == 2;
    }
  }

  lemma FillNext(s: State, c: nat, j: nat, lay: Layout)
    requires Filled(s, c, j) && j < 30 && c + j < |s.disk| <= 0x1_0000_0000 && LOGSIZE < lay.size && !InLog(lay, c + j)
    ensures j / 10 in s.ops && CanLog(s, j / 10, c + j, lay) && Filled(WithLogged(s, j / 10, c + j), c, j + 1)
  {
    hide Shares, CanLog;
    FillReady(s, c, j, lay);
    var b: Word := c + j;
    OpsNext(j);
    var s' := WithLogged(s, j / 10, b);
    CacheMore(s.cache, b, s'.cache[b]);
    assert s'.list[j] == b;
  }

  lemma FillReady(s: State, c: nat, j: nat, lay: Layout)
    requires Filled(s, c, j) && j < 30 && c + j < |s.disk| <= 0x1_0000_0000 && LOGSIZE < lay.size && !InLog(lay, c + j)
    ensures j / 10 in s.ops && CanLog(s, j / 10, c + j, lay)
  {
    hide Shares;
    OpsNext(j);
  }

  lemma CacheMore(cache: map<Word, Slot>, b: Word, x: Slot)
    requires b !in cache
    ensures |cache[b := x]| == |cache| + 1
  {
    assert cache[b := x].Keys == cache.Keys + {b};
    assert |cache[b := x]| == |cache[b := x].Keys| && |cache| == |cache.Keys|;
  }

  lemma {:induction false} FillUp(s: State, c: nat, j: nat, lay: Layout) returns (s': State)
    requires j <= 30 && c + j <= |s.disk| <= 0x1_0000_0000 && LOGSIZE < lay.size
    requires forall b :: c <= b < c + j ==> !InLog(lay, b)
    requires Filled(s, c, 0)
    requires Reachable(s, lay, MAXOPBLOCKS)
    ensures s'.disk == s.disk
    ensures Filled(s', c, j)
    ensures Reachable(s', lay, MAXOPBLOCKS)
  {
    hide Reachable, Filled, CanLog;
    s' := s;
    if j > 0 {
      var m := FillUp(s, c, j - 1, lay);
      FillNext(m, c, j - 1, lay);
      LogBlock(m, (j - 1) / 10, c + j - 1, lay);
      s' := WithLogged(m, (j - 1) / 10, c + j - 1);
    }
  }

  /** The first three operations are admitted at once. */
  lemma ThreeBegin(s0: State, lay: Layout) returns (s: State)
    requires Init(s0, lay) && HeaderCount(s0.disk[lay.start]) == 0
    ensures |s.disk| == |s0.disk|
    ensures Filled(s, 0, 0)
    ensures Reachable(s, lay, MAXOPBLOCKS)
  {
    hide Reachable, WordAt, SetWord, PutHeader, Recovered;
    StartsReachable(s0, lay);
    var s1 := OnDisk(s0, AfterRecoverWrite(s0, lay)).(phase := Idle);
    Reach(s0, ARecoverWrite, s1, lay, MAXOPBLOCKS);
    var s2 := s1.(outstanding := 1, ops := map[0 := 0]);
    Reach(s1, ABegin(0), s2, lay, MAXOPBLOCKS);
    var s3 := s1.(outstanding := 2, ops := map[0 := 0, 1 := 0]);
    Reach(s2, ABegin(1), s3, lay, MAXOPBLOCKS);
    s := s1.(outstanding := 3, ops := map[0 := 0, 1 := 0, 2 := 0]);
    Reach(s3, ABegin(2), s, lay, MAXOPBLOCKS);
  }

  /** log_write of a block already on the list panics. */
  ghost predicate AbsorbedPanic(s: State, lay: Layout) {
    exists p, b :: Holds(s, p, b) && s.cache[b].valid && p in s.ops && b in s.list && TooBig(s, lay)
  }

  lemma TouchAgain(s: State, c: nat, lay: Layout) returns (s': State)
    requires c < 0x1_0000_0000 && Filled(s, c, LOGSIZE)
    requires Reachable(s, lay, MAXOPBLOCKS)
    ensures AbsorbedPanic(s', lay)
    ensures Reachable(s', lay, MAXOPBLOCKS)
  {
    hide Reachable;
    var b: Word := c;
    assert s.list[0] == b;
    var s1 := s.(refs := {(0, b)}, cache := s.cache[b := s.cache[b].(refcnt := s.cache[b].refcnt + 1)]);
    Reach(s, AGetCached(0, b), s1, lay, MAXOPBLOCKS);
    s' := s1.(cache := s1.cache[b := s1.cache[b].(lock := Some(0))]);
    Reach(s1, ALock(0, b), s', lay, MAXOPBLOCKS);
    assert Holds(s', 0, b);
  }

  /** From any start with nothing to recover and LOGSIZE neighbouring home blocks, operations that
      stay within MAXOPBLOCKS new blocks each reach a state where logging a block that is already
      on the list panics. */
  lemma FullLogPanics(s0: State, c: nat, lay: Layout) returns (s: State)
    requires c + LOGSIZE <= |s0.disk| && forall b :: c <= b < c + LOGSIZE ==> !InLog(lay, b)
    requires Init(s0, lay) && HeaderCount(s0.disk[lay.start]) == 0
    ensures AbsorbedPanic(s, lay)
    ensures Reachable(s, lay, MAXOPBLOCKS)
  {
    hide Reachable, WordAt, Recovered, AbsorbedPanic;
    var s1 := ThreeBegin(s0, lay);
    assert Filled(s1, c, 0);
    hide Filled;
    var full := FillUp(s1, c, LOGSIZE, lay);
    s := TouchAgain(full, c, lay);
  }

  lemma StartsReachable(s0: State, lay: Layout)
    requires Init(s0, lay)
    ensures Reachable(s0, lay, MAXOPBLOCKS)
  {
    hide Init;
    assert Steps(s0, [], s0, lay, MAXOPBLOCKS);
  }

  lemma {:induction false} StepsLimit(s: State, acts: seq<Action>, s': State, lay: Layout, limit: nat, more: nat)
    requires Steps(s, acts, s', lay, limit) && limit <= more
    ensures Steps(s, acts, s', lay, more)
    decreases |acts|
  {
    if acts != [] {
      var m :| Next(s, m, acts[0], lay, limit) && Steps(m, acts[1..], s', lay, limit);
      StepsLimit(m, acts[1..], s', lay, limit, more);
      NextLimit(s, m, acts[0], lay, limit, more);
      hide Next;
    }
  }

  lemma NextLimit(s: State, s': State, a: Action, lay: Layout, limit: nat, more: nat)
    requires Next(s, s', a, lay, limit) && limit <= more
    ensures Next(s, s', a, lay, more)
  {
    hide BeginOp, EndOp, GetCached, GetFresh, Lock, Fill, Modify, Release, CommitWrite, CommitEnd, Crash, RecoverWrite;
  }

  /** The log panics on an absorbed write in some run exactly when operations may add MAXOPBLOCKS
      blocks or more each. */
  lemma PanicIff(s0: State, c: nat, lay: Layout, limit: nat)
    requires c + LOGSIZE <= |s0.disk| && forall b :: c <= b < c + LOGSIZE ==> !InLog(lay, b)
    requires Init(s0, lay) && HeaderCount(s0.disk[lay.start]) == 0
    ensures (exists s :: AbsorbedPanic(s, lay) && Reachable(s, lay, limit)) <==> limit >= MAXOPBLOCKS
  {
    hide WordAt, Recovered, Steps, Init, LogOk;
    if limit >= MAXOPBLOCKS {
      var s := FullLogPanics(s0, c, lay);
      var i, acts :| Init(i, lay) && Steps(i, acts, s, lay, MAXOPBLOCKS);
      StepsLimit(i, acts, s, lay, MAXOPBLOCKS, limit);
    } else {
      hide Reachable;
      forall s | AbsorbedPanic(s, lay) ensures !Reachable(s, lay, limit) {
        if Reachable(s, lay, limit) {
          NoLogPanic(s, lay, limit);
        }
      }
    }
  }
}
