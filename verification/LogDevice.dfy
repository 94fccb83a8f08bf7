/** The commit and recovery code itself, running over the buffer cache. Each method is tied to a
    function on snapshots of the cache; what those functions leave on disk is settled below them. */
module LogDevice {
  import opened Blocks
  import opened LruList
  import opened BufferCache
  import opened RedoLog

  /** The list names home blocks; nobody holds a buffer of the log area, where the cache agrees
      with the disk; at least one buffer is free. */
  ghost predicate Ready(s: Snap, lay: Layout, l: seq<Word>) {
    && 0 < lay.size && HomeList(s.disk, lay, l)
    && |s.store| == |s.refs| == |s.disk|
    && s.free > 0
    && (forall b :: 0 <= b < |s.disk| && InLog(lay, b) ==> s.refs[b] == 0 && s.store[b] == s.disk[b])
  }

  /** A block written through the cache to the disk. */
  ghost function Through(s: Snap, b: nat, x: Block): (s': Snap)
    requires b < |s.disk| == |s.store|
  {
    var d := s.disk[b := x];
    s.(disk := d, store := s.store[b := x], history := s.history + [d])
  }

  ghost function Unpin(s: Snap, b: nat): (s': Snap)
    requires b < |s.refs| && s.refs[b] > 0
  {
    s.(refs := Dropped(s.refs, b), free := s.free + if s.refs[b] == 1 then 1 else 0)
  }

  lemma ThroughReady(s: Snap, lay: Layout, l: seq<Word>, b: nat, x: Block)
    requires Ready(s, lay, l) && b < |s.disk|
    ensures Ready(Through(s, b, x), lay, l)
    ensures !InLog(lay, b) && s.refs[b] > 0 ==> Ready(Unpin(Through(s, b, x), b), lay, l)
  {
  }

  ghost predicate Pinned(r: seq<nat>, l: seq<Word>) {
    && (forall i :: 0 <= i < |l| ==> l[i] < |r| && r[l[i]] > 0)
    && (forall i, j :: 0 <= i < j < |l| ==> l[i] != l[j])
  }

  /** One iteration of write_log: a listed block copied from the cache to its slot in the log. */
  ghost function LogOne(s: Snap, lay: Layout, l: seq<Word>, i: nat): (s': Snap)
    requires Ready(s, lay, l) && i < |l|
    ensures Ready(s', lay, l) && |s'.disk| == |s.disk| && s'.refs == s.refs && s'.free == s.free
  {
    ThroughReady(s, lay, l, lay.start + i + 1, s.store[l[i]]);
    Through(s, lay.start + i + 1, s.store[l[i]])
  }

  /** write_log as a function: the first k listed blocks copied to the log. */
  ghost function LogRun(s: Snap, lay: Layout, l: seq<Word>, k: nat): (s': Snap)
    requires Ready(s, lay, l) && k <= |l|
    ensures Ready(s', lay, l) && |s'.disk| == |s.disk| && s'.refs == s.refs && s'.free == s.free
  {
    if k == 0 then s else
    LogOne(LogRun(s, lay, l, k - 1), lay, l, k - 1)
  }

  /** Writing the log changes what no home block reads as. */
  lemma {:induction false} LogRunKeepsHome(s: Snap, lay: Layout, l: seq<Word>, k: nat)
    requires Ready(s, lay, l) && k <= |l|
    ensures SameHome(LogRun(s, lay, l, k).store, s.store, lay)
  {
    if k > 0 {
      LogRunKeepsHome(s, lay, l, k - 1);
    }
  }

  lemma {:induction false} LogRunCopies(s: Snap, lay: Layout, l: seq<Word>, k: nat)
    requires Ready(s, lay, l) && k <= |l|
    ensures LogRun(s, lay, l, k).disk == LogCopy(s.disk, lay, s.store, l, k)
  {
    if k > 0 {
      LogRunCopies(s, lay, l, k - 1);
      LogRunKeepsHome(s, lay, l, k - 1);
      var p, x := LogRun(s, lay, l, k - 1), s.store[l[k - 1]];
      assert !InLog(lay, l[k - 1]);
      assert p.store[l[k - 1]] == x;
      assert LogRun(s, lay, l, k) == Through(p, lay.start + k, x);
      assert LogCopy(s.disk, lay, s.store, l, k) == p.disk[lay.start + k := x];
      hide LogRun, LogCopy;
    }
  }

  lemma {:induction false} LogRunTrace(s: Snap, lay: Layout, l: seq<Word>, k: nat)
    requires Ready(s, lay, l) && k <= |l|
    ensures LogRun(s, lay, l, k).history == s.history + CopyTrace(s.disk, lay, s.store, l, k)
  {
    if k > 0 {
      LogRunTrace(s, lay, l, k - 1);
      LogRunCopies(s, lay, l, k);
      hide LogCopy;
      var p, p' := LogRun(s, lay, l, k - 1), LogRun(s, lay, l, k);
      assert p'.history == p.history + [p'.disk];
      Associative(s.history, CopyTrace(s.disk, lay, s.store, l, k - 1), [p'.disk]);
    }
  }

  /** One iteration of install_trans: a logged block copied home, and unpinned if asked. */
  ghost function InstallOne(s: Snap, lay: Layout, l: seq<Word>, i: nat, unpin: bool): (s': Snap)
    requires Ready(s, lay, l) && i < |l|
    requires unpin ==> s.refs[l[i]] > 0
    ensures Ready(s', lay, l) && |s'.disk| == |s.disk|
  {
    ThroughReady(s, lay, l, l[i], s.disk[lay.start + i + 1]);
    var q := Through(s, l[i], s.disk[lay.start + i + 1]);
    if unpin then Unpin(q, l[i]) else q
  }

  /** install_trans as a function: the first k logged blocks copied home, and unpinned if asked. */
  ghost function InstallRun(s: Snap, lay: Layout, l: seq<Word>, k: nat, unpin: bool): (s': Snap)
    requires Ready(s, lay, l) && k <= |l|
    requires unpin ==> Pinned(s.refs, l)
    ensures Ready(s', lay, l) && |s'.disk| == |s.disk|
    ensures if unpin then forall i :: k <= i < |l| ==> s'.refs[l[i]] > 0
            else s'.refs == s.refs && s'.free == s.free
  {
    if k == 0 then s else
    InstallOne(InstallRun(s, lay, l, k - 1, unpin), lay, l, k - 1, unpin)
  }

  lemma {:induction false} InstallRunInstalls(s: Snap, lay: Layout, l: seq<Word>, k: nat, unpin: bool)
    requires Ready(s, lay, l) && k <= |l|
    requires unpin ==> Pinned(s.refs, l)
    ensures InstallRun(s, lay, l, k, unpin).disk == Install(s.disk, lay, l, k)
    ensures InstallRun(s, lay, l, k, unpin).store == Install(s.store, lay, l, k)
  {
    if k > 0 {
      InstallRunInstalls(s, lay, l, k - 1, unpin);
      assert InLog(lay, lay.start + k);
      assert s.store[lay.start + k] == s.disk[lay.start + k];
      hide Ready;
    }
  }

  lemma {:induction false} InstallRunTrace(s: Snap, lay: Layout, l: seq<Word>, k: nat, unpin: bool)
    requires Ready(s, lay, l) && k <= |l|
    requires unpin ==> Pinned(s.refs, l)
    ensures InstallRun(s, lay, l, k, unpin).history == s.history + InstallTrace(s.disk, lay, l, k)
  {
    if k > 0 {
      InstallRunTrace(s, lay, l, k - 1, unpin);
      InstallRunInstalls(s, lay, l, k, unpin);
      hide Install;
      var p, p' := InstallRun(s, lay, l, k - 1, unpin), InstallRun(s, lay, l, k, unpin);
      assert p'.history == p.history + [p'.disk];
      Associative(s.history, InstallTrace(s.disk, lay, l, k - 1), [p'.disk]);
    }
  }

  lemma InstallStepRefs(s: Snap, lay: Layout, l: seq<Word>, k: nat)
    requires Ready(s, lay, l) && 0 < k <= |l| && Pinned(s.refs, l)
    ensures InstallRun(s, lay, l, k - 1, true).refs[l[k - 1]] > 0
    ensures InstallRun(s, lay, l, k, true).refs == Dropped(InstallRun(s, lay, l, k - 1, true).refs, l[k - 1])
  {
    hide WordAt;
  }

  /** Each listed block loses exactly one reference, and no other block any. */
  lemma {:induction false} InstallRunUnpins(s: Snap, lay: Layout, l: seq<Word>, k: nat, b: nat)
    requires Ready(s, lay, l) && k <= |l| && Pinned(s.refs, l) && b < |s.refs|
    ensures InstallRun(s, lay, l, k, true).refs[b] == s.refs[b] - if b in l[..k] then 1 else 0
  {
    hide WordAt;
    if k > 0 {
      InstallRunUnpins(s, lay, l, k - 1, b);
      InstallStepRefs(s, lay, l, k);
      FirstMore(l, k);
    }
  }

  lemma FirstMore(l: seq<Word>, k: nat)
    requires 0 < k <= |l| && forall i, j :: 0 <= i < j < |l| ==> l[i] != l[j]
    ensures forall b :: b in l[..k] <==> b in l[..k - 1] || b == l[k - 1]
    ensures l[k - 1] !in l[..k - 1]
  {
    assert l[..k] == l[..k - 1] + [l[k - 1]];
  }

  /** commit as a function on snapshots, for a list that is not empty. */
  ghost function CommitRun(s: Snap, lay: Layout, l: seq<Word>): (s': Snap)
    requires Ready(s, lay, l) && Pinned(s.refs, l)
    ensures Ready(s', lay, l) && |s'.disk| == |s.disk|
  {
    hide WordAt, SetWord, PutHeader;
    var s1 := LogRun(s, lay, l, |l|);
    var h1 := PutHeader(s1.disk[lay.start], l);
    ThroughReady(s1, lay, l, lay.start, h1);
    var s2 := Through(s1, lay.start, h1);
    var s3 := InstallRun(s2, lay, l, |l|, true);
    var h3 := PutHeader(s3.disk[lay.start], []);
    ThroughReady(s3, lay, l, lay.start, h3);
    Through(s3, lay.start, h3)
  }

  /** The states a commit takes the disk through are the ones crash atomicity is proved for. */
  ghost function CommitTrace(s: Snap, lay: Layout, l: seq<Word>): (t: seq<Image>)
    requires Ready(s, lay, l)
    ensures |t| == 2 * |l| + 2
  {
    hide WordAt, SetWord, PutHeader, Committed;
    var c := Committed(s.disk, lay, s.store, l);
    CopyTrace(s.disk, lay, s.store, l, |l|) + [c] + InstallTrace(c, lay, l, |l|) + [Recovered(c, lay)]
  }

  lemma CommitTraceAt(s: Snap, lay: Layout, l: seq<Word>, k: nat)
    requires Ready(s, lay, l) && 1 <= k <= 2 * |l| + 2
    ensures CommitTrace(s, lay, l)[k - 1] == CommitState(s.disk, lay, s.store, l, k)
  {
    hide WordAt, SetWord, PutHeader, Committed, LogCopy, Install;
    var c, n := Committed(s.disk, lay, s.store, l), |l|;
    if k <= n {
      CopyTraceAt(s.disk, lay, s.store, l, n, k - 1);
    } else if n + 1 < k <= 2 * n + 1 {
      InstallTraceAt(c, lay, l, n, k - n - 2);
    } else if k == n + 1 {
      InstallNone(c, lay, l);
    }
  }

  lemma InstallNone(d: Image, lay: Layout, l: seq<Word>)
    requires HomeList(d, lay, l)
    ensures Install(d, lay, l, 0) == d
  {
  }

  lemma CommitRunTrace(s: Snap, lay: Layout, l: seq<Word>)
    requires Ready(s, lay, l) && Pinned(s.refs, l)
    ensures CommitRun(s, lay, l).history == s.history + CommitTrace(s, lay, l)
    ensures CommitRun(s, lay, l).disk == Recovered(Committed(s.disk, lay, s.store, l), lay)
  {
    hide WordAt, SetWord, PutHeader, LogCopy, Install, CopyTrace, InstallTrace, LogRun, InstallRun;
    LogRunCopies(s, lay, l, |l|);
    LogRunTrace(s, lay, l, |l|);
    LogCopyFills(s.disk, lay, s.store, l, |l|);
    var s1 := LogRun(s, lay, l, |l|);
    var s2 := Through(s1, lay.start, PutHeader(s1.disk[lay.start], l));
    ThroughReady(s1, lay, l, lay.start, PutHeader(s1.disk[lay.start], l));
    InstallRunInstalls(s2, lay, l, |l|, true);
    InstallRunTrace(s2, lay, l, |l|, true);
    assert s2.disk == Committed(s.disk, lay, s.store, l);
  }

  ghost function RecoveryTrace(d: Image, lay: Layout): (t: seq<Image>)
    requires LogOk(d, lay)
    ensures |t| == HeaderCount(d[lay.start]) + 1
  {
    InstallTrace(d, lay, HeaderList(d[lay.start]), HeaderCount(d[lay.start])) + [Recovered(d, lay)]
  }

  lemma RecoveryTraceAt(d: Image, lay: Layout, k: nat)
    requires LogOk(d, lay) && 1 <= k <= HeaderCount(d[lay.start]) + 1
    ensures RecoveryTrace(d, lay)[k - 1] == RecoveryState(d, lay, k)
  {
    hide WordAt, SetWord, PutHeader;
    if k <= HeaderCount(d[lay.start]) {
      InstallTraceAt(d, lay, HeaderList(d[lay.start]), HeaderCount(d[lay.start]), k - 1);
    }
  }

  /** Nothing is pending in the log on disk, and only listed blocks differ between cache and disk. */
  ghost predicate Clean(s: Snap, lay: Layout, l: seq<Word>)
    requires Ready(s, lay, l)
  {
    && HeaderCount(s.disk[lay.start]) == 0
    && forall b :: 0 <= b < |s.disk| && b !in l ==> s.store[b] == s.disk[b]
  }

  /** The disk after the first k block writes of the run from s to s'. */
  ghost predicate DiskAfter(s: Snap, s': Snap, k: nat, d: Image) {
    if k == 0 then d == s.disk
    else |s.history| + k <= |s'.history| && d == s'.history[|s.history| + k - 1]
  }

  ghost predicate Survives(ds: seq<Image>, lay: Layout, d: Image) {
    |ds| > 0 && LogOk(ds[|ds| - 1], lay) && SameHome(Recovered(ds[|ds| - 1], lay), d, lay)
  }

  /** The machine stops after any k of the writes Commit makes, then any number of times inside
      recovery: what finally comes back is the disk before the commit if k <= n, and the cache's
      view if k > n. */
  lemma CommitIsAtomic(s: Snap, lay: Layout, l: seq<Word>, k: nat, ds: seq<Image>)
    requires Ready(s, lay, l) && Pinned(s.refs, l) && Clean(s, lay, l)
    requires CrashChain(ds, lay) && DiskAfter(s, CommitRun(s, lay, l), k, ds[0])
    ensures Survives(ds, lay, if k <= |l| then s.disk else s.store)
  {
    hide WordAt, SetWord, PutHeader, Recovered, RecoveryState, Committed, CommitTrace, CommitRun, Install;
    CommitRunTrace(s, lay, l);
    EmptyLogRecovers(s.disk, lay);
    if k > 0 {
      CommitTraceAt(s, lay, l, k);
    } else {
      hide LogOk, HeaderCount;
    }
    CrashAtomicity(s.disk, lay, s.store, l, k, ds);
  }

  /** Every block is home and reads as before, the log is empty and the pins are gone. */
  ghost predicate CommitDone(s: Snap, s': Snap, lay: Layout, l: seq<Word>) {
    hide WordAt;
    && SameHome(s'.disk, s.store, lay)
    && SameHome(s'.store, s.store, lay)
    && Ready(s', lay, []) && Clean(s', lay, [])
    && OneLess(s.refs, s'.refs, l)
  }

  /** Each listed block has one reference less, every other block as many as before. */
  ghost predicate OneLess(r: seq<nat>, r': seq<nat>, l: seq<Word>) {
    |r'| == |r| && forall b :: 0 <= b < |r| ==> r'[b] + (if b in l then 1 else 0) == r[b]
  }

  lemma CommitRunRefs(s: Snap, lay: Layout, l: seq<Word>)
    requires Ready(s, lay, l) && Pinned(s.refs, l)
    ensures OneLess(s.refs, CommitRun(s, lay, l).refs, l)
  {
    hide WordAt, SetWord, PutHeader, LogRun, InstallRun;
    var s1 := LogRun(s, lay, l, |l|);
    ThroughReady(s1, lay, l, lay.start, PutHeader(s1.disk[lay.start], l));
    var s2 := Through(s1, lay.start, PutHeader(s1.disk[lay.start], l));
    assert l[..|l|] == l;
    forall b | 0 <= b < |s.refs|
      ensures InstallRun(s2, lay, l, |l|, true).refs[b] == s.refs[b] - if b in l then 1 else 0
    {
      InstallRunUnpins(s2, lay, l, |l|, b);
    }
  }

  lemma CommitRunStore(s: Snap, lay: Layout, l: seq<Word>)
    requires Ready(s, lay, l) && Pinned(s.refs, l)
    ensures SameHome(CommitRun(s, lay, l).store, s.store, lay)
  {
    hide WordAt, SetWord, PutHeader, LogRun, InstallRun, LogCopy, Install;
    LogRunCopies(s, lay, l, |l|);
    LogRunKeepsHome(s, lay, l, |l|);
    LogCopyFills(s.disk, lay, s.store, l, |l|);
    var s1 := LogRun(s, lay, l, |l|);
    ThroughReady(s1, lay, l, lay.start, PutHeader(s1.disk[lay.start], l));
    var s2 := Through(s1, lay.start, PutHeader(s1.disk[lay.start], l));
    InstallRunInstalls(s2, lay, l, |l|, true);
    var s3 := InstallRun(s2, lay, l, |l|, true);
    assert l[..|l|] == l;
    forall i | 0 <= i < |l| ensures s2.store[lay.start + 1 + i] == s.store[l[i]] {
      assert InLog(lay, lay.start + 1 + i);
    }
    forall b | 0 <= b < |s.store| && !InLog(lay, b) ensures s3.store[b] == s.store[b] {
      if b in l {
        InstallReaches(s2.store, lay, s.store, l, |l|, b);
      }
    }
  }

  lemma CommitCompletes(s: Snap, lay: Layout, l: seq<Word>)
    requires Ready(s, lay, l) && Pinned(s.refs, l) && Clean(s, lay, l)
    ensures CommitDone(s, CommitRun(s, lay, l), lay, l)
  {
    hide WordAt, SetWord, PutHeader, LogCopy, Install, CopyTrace, InstallTrace, LogRun, InstallRun;
    var s' := CommitRun(s, lay, l);
    CommitRunTrace(s, lay, l);
    CommittedReaches(s.disk, lay, s.store, l);
    CommitRunRefs(s, lay, l);
    CommitRunStore(s, lay, l);
  }

  /** The cache as it stands before recovery: nothing referenced, nothing newer than the disk. */
  ghost predicate Booted(s: Snap, lay: Layout) {
    && LogOk(s.disk, lay) && s.store == s.disk && s.free > 1
    && |s.refs| == |s.disk| && forall b :: 0 <= b < |s.refs| ==> s.refs[b] == 0
  }

  /** recover_from_log as a function on snapshots. */
  ghost function RecoverRun(s: Snap, lay: Layout): (s': Snap)
    requires Booted(s, lay)
    ensures Ready(s', lay, []) && s'.refs == s.refs && s'.free == s.free
  {
    hide WordAt, SetWord, PutHeader;
    var l := HeaderList(s.disk[lay.start]);
    var p := InstallRun(s, lay, l, |l|, false);
    ThroughReady(p, lay, l, lay.start, PutHeader(p.disk[lay.start], []));
    Through(p, lay.start, PutHeader(p.disk[lay.start], []))
  }

  ghost predicate RecoveryDone(s: Snap, s': Snap, lay: Layout) {
    hide WordAt, SetWord, PutHeader, RecoveryState;
    && LogOk(s.disk, lay)
    && s'.disk == Recovered(s.disk, lay) && s'.store == s'.disk
    && s'.history == s.history + RecoveryTrace(s.disk, lay)
  }

  /** Recovery leaves the recovered disk, by way of the states restarting is proved for. */
  lemma RecoverRunRecovers(s: Snap, lay: Layout)
    requires Booted(s, lay)
    ensures RecoveryDone(s, RecoverRun(s, lay), lay)
  {
    hide WordAt, SetWord, PutHeader, InstallRun, Install, InstallTrace;
    var l := HeaderList(s.disk[lay.start]);
    InstallRunInstalls(s, lay, l, |l|, false);
    InstallRunTrace(s, lay, l, |l|, false);
    var p := InstallRun(s, lay, l, |l|, false);
    assert p.disk[lay.start] == s.disk[lay.start];
    Associative(s.history, InstallTrace(s.disk, lay, l, |l|), [Recovered(s.disk, lay)]);
  }

  /** The machine stops after any k of the writes Recover makes, then any number of times inside later
      recoveries: what finally comes back is what one recovery without interruption leaves. */
  lemma RecoverIsRestartable(s: Snap, lay: Layout, k: nat, ds: seq<Image>)
    requires Booted(s, lay)
    requires CrashChain(ds, lay) && DiskAfter(s, RecoverRun(s, lay), k, ds[0])
    ensures Survives(ds, lay, Recovered(s.disk, lay))
  {
    hide WordAt, SetWord, PutHeader, Recovered, RecoveryState, RecoveryTrace, RecoverRun, Install;
    RecoverRunRecovers(s, lay);
    if k > 0 {
      RecoveryTraceAt(s.disk, lay, k);
      RecoveryRestarts(s.disk, lay, k);
    }
    ChainConverges(ds, lay);
  }

  class Log {
    const cache: Cache
    const lay: Layout
    var n: nat
    var block: seq<Word>

    constructor (cache: Cache, lay: Layout)
      ensures this.cache == cache && this.lay == lay && n == 0 && |block| == LOGSIZE
    {
      this.cache, this.lay := cache, lay;
      n, block := 0, seq(LOGSIZE, _ => 0);
    }

    ghost function List(): seq<Word>
      reads this
      requires n <= |block|
    {
      block[..n]
    }

    ghost predicate Valid()
      reads this, cache, cache.disk
    {
      cache.Valid() && n <= LOGSIZE == |block| && Ready(cache.Snapshot(), lay, List())
    }

    /** The header block with the in-memory header stored over it. */
    method FormatHeader(h: Block) returns (hb: Block)
      requires n <= LOGSIZE == |block|
      ensures hb == PutHeader(h, List())
    {
      hide WordAt, SetWord;
      hb := SetWord(h, 0, n);
      for i := 0 to n
        invariant hb == PutEntries(SetWord(h, 0, n), List(), i)
      {
        hb := SetWord(hb, i + 1, block[i]);
      }
    }

    /** Write the in-memory header to disk. */
    method WriteHead()
      requires Valid()
      modifies cache, cache.disk
      ensures Valid()
      ensures cache.Snapshot() ==
        old(var s := cache.Snapshot(); Through(s, lay.start, PutHeader(s.disk[lay.start], List())))
    {
      hide WordAt, SetWord, PutHeader, Linked, Stamped, Coherent, View, BlockRefs, CountFree;
      TakeDrop(cache.Refs(), lay.start, lay.start);
      var b := cache.Bread(ROOTDEV, lay.start);
      var hb := FormatHeader(cache.buf[b].data);
      cache.Overwrite(b, hb);
      cache.Brelse(b);
      ThroughReady(old(cache.Snapshot()), lay, List(), lay.start, hb);
    }

    /** One iteration of write_log: copy a listed block from the cache to its slot in the log. */
    method WriteLogBlock(tail: nat)
      requires Valid() && tail < n && cache.Snapshot().refs[block[tail]] > 0
      modifies cache, cache.disk
      ensures Valid()
      ensures cache.Snapshot() == LogOne(old(cache.Snapshot()), lay, List(), tail)
    {
      hide WordAt, SetWord, PutHeader, Linked, Stamped, Coherent, View, BlockRefs, CountFree;
      TakeDrop(cache.Refs(), lay.start + tail + 1, block[tail]);
      var to, from := cache.BreadPair(lay.start + tail + 1, block[tail]);
      cache.Overwrite(to, cache.buf[from].data);
      cache.BrelsePair(from, to);
      ThroughReady(old(cache.Snapshot()), lay, List(), lay.start + tail + 1, old(cache.Store()[block[tail]]));
    }

    /** Copy a logged block from the log to its home; both buffers stay held. */
    method CopyHome(tail: nat) returns (lbuf: nat, dbuf: nat)
      requires Valid() && tail < n
      requires var s := cache.Snapshot(); s.refs[block[tail]] == 0 ==> s.free > 1
      modifies cache`buf, cache.disk
      ensures cache.Valid() && lbuf < NBUF && dbuf < NBUF && lbuf != dbuf
      ensures var s, slot, home := old(cache.Snapshot()), lay.start + tail + 1, block[tail];
              && cache.Snapshot() == Through(s, home, s.disk[slot]).(
                   refs := Taken(Taken(s.refs, slot), home), free := s.free - if s.refs[home] == 0 then 2 else 1)
              && cache.buf[lbuf] == Buf(ROOTDEV, slot, true, 1, s.disk[slot])
              && cache.buf[dbuf] == Buf(ROOTDEV, home, true, s.refs[home] + 1, s.disk[slot])
    {
      hide WordAt, SetWord, PutHeader, Linked, Stamped, Coherent, View, BlockRefs, CountFree, Taken, Dropped;
      lbuf, dbuf := cache.BreadPair(lay.start + tail + 1, block[tail]);
      cache.Overwrite(dbuf, cache.buf[lbuf].data);
    }

    /** Release both buffers, and outside recovery the pin of the home block. */
    method LetGo(lbuf: nat, dbuf: nat, recovering: bool, ghost q: Snap, ghost slot: nat, ghost home: nat)
      requires cache.Valid() && lbuf < NBUF && dbuf < NBUF && lbuf != dbuf
      requires slot < |q.refs| == |q.disk| && home < |q.refs| && slot != home && q.refs[slot] == 0
      requires (recovering <==> q.refs[home] == 0) && q.free >= if recovering then 2 else 1
      requires cache.Snapshot() ==
        q.(refs := Taken(Taken(q.refs, slot), home), free := q.free - if q.refs[home] == 0 then 2 else 1)
      requires cache.buf[lbuf] == Buf(ROOTDEV, slot, true, 1, q.disk[slot])
      requires cache.buf[dbuf] == Buf(ROOTDEV, home, true, q.refs[home] + 1, q.disk[home])
      modifies cache
      ensures cache.Valid() && cache.Snapshot() == if recovering then q else Unpin(q, home)
    {
      hide Linked, Stamped, Coherent, View, BlockRefs, CountFree, Taken, Dropped;
      TakeDrop(q.refs, slot, home);
      if !recovering {
        cache.Bunpin(dbuf);
      }
      cache.BrelsePair(lbuf, dbuf);
    }

    /** One iteration of install_trans: copy home, and outside recovery let go of the pin. */
    method InstallBlock(tail: nat, recovering: bool)
      requires Valid() && tail < n
      requires var s := cache.Snapshot();
               if recovering then s.refs[block[tail]] == 0 && s.free > 1 else s.refs[block[tail]] > 0
      modifies cache, cache.disk
      ensures Valid()
      ensures cache.Snapshot() == InstallOne(old(cache.Snapshot()), lay, List(), tail, !recovering)
    {
      hide WordAt, SetWord, PutHeader, Taken, Dropped, Cache.Valid, Cache.Snapshot;
      ghost var s, slot, home := cache.Snapshot(), lay.start + tail + 1, block[tail];
      ThroughReady(s, lay, List(), home, s.disk[slot]);
      var lbuf, dbuf := CopyHome(tail);
      LetGo(lbuf, dbuf, recovering, Through(s, home, s.disk[slot]), slot, home);
    }

    /** Copy modified blocks from the cache to the log. */
    method WriteLog()
      requires Valid() && Pinned(cache.Snapshot().refs, List())
      modifies cache, cache.disk
      ensures Valid()
      ensures cache.Snapshot() == LogRun(old(cache.Snapshot()), lay, List(), n)
    {
      hide WordAt, SetWord, PutHeader, Cache.Valid, Cache.Snapshot, LogOne, InstallOne;
      ghost var s, l := cache.Snapshot(), List();
      for tail := 0 to n
        invariant Valid()
        invariant cache.Snapshot() == LogRun(s, lay, l, tail)
      {
        WriteLogBlock(tail);
      }
    }

    /** Copy committed blocks from the log to their homes. */
    method InstallTrans(recovering: bool)
      requires Valid()
      requires var s := cache.Snapshot();
               if recovering then s.free > 1 && forall i :: 0 <= i < n ==> s.refs[block[i]] == 0
               else Pinned(s.refs, List())
      modifies cache, cache.disk
      ensures Valid()
      ensures cache.Snapshot() == InstallRun(old(cache.Snapshot()), lay, List(), n, !recovering)
    {
      hide WordAt, SetWord, PutHeader, Cache.Valid, Cache.Snapshot, LogOne, InstallOne;
      ghost var s, l := cache.Snapshot(), List();
      for tail := 0 to n
        invariant Valid()
        invariant cache.Snapshot() == InstallRun(s, lay, l, tail, !recovering)
      {
        InstallBlock(tail, recovering);
      }
    }

    /** Commit the listed blocks. The disk passes through exactly the states of CommitState, so by
        CrashAtomicity a crash anywhere inside leaves all of the transaction or none of it. */
    method Commit()
      requires Valid() && Pinned(cache.Snapshot().refs, List())
      modifies this`n, cache, cache.disk
      ensures Valid() && n == 0
      ensures old(n) == 0 ==> cache.Snapshot() == old(cache.Snapshot())
      ensures old(n) > 0 ==> cache.Snapshot() == CommitRun(old(cache.Snapshot()), lay, old(List()))
    {
      hide WordAt, SetWord, PutHeader, Cache.Valid, Cache.Snapshot, LogOne, InstallOne;
      if n > 0 {
        WriteLog();
        WriteHead();
        InstallTrans(false);
        n := 0;
        WriteHead();
      }
    }

    /** Read the log header from disk. */
    method ReadHead()
      requires cache.Valid() && |block| == LOGSIZE && Booted(cache.Snapshot(), lay)
      modifies this`n, this`block, cache
      ensures cache.Valid() && cache.Snapshot() == old(cache.Snapshot())
      ensures |block| == LOGSIZE && n <= LOGSIZE && List() == HeaderList(cache.Snapshot().disk[lay.start])
    {
      hide WordAt, SetWord, PutHeader, Linked, Stamped, Coherent, View, BlockRefs, CountFree, Taken, Dropped;
      TakeDrop(cache.Refs(), lay.start, lay.start);
      var b := cache.Bread(ROOTDEV, lay.start);
      var lh := cache.buf[b].data;
      n := HeaderCount(lh);
      for i := 0 to n
        modifies this`block
        invariant |block| == LOGSIZE && n == HeaderCount(lh)
        invariant forall j :: 0 <= j < i ==> block[j] == HeaderEntry(lh, j)
      {
        block := block[i := HeaderEntry(lh, i)];
      }
      cache.Brelse(b);
      assert List() == HeaderList(lh);
    }

    /** Redo a committed transaction, if there is one, and clear the log. The disk passes through
        exactly the states of RecoveryState, so a crash anywhere inside only means starting over. */
    method Recover()
      requires cache.Valid() && |block| == LOGSIZE && Booted(cache.Snapshot(), lay)
      modifies this`n, this`block, cache, cache.disk
      ensures Valid() && n == 0
      ensures cache.Snapshot() == RecoverRun(old(cache.Snapshot()), lay)
    {
      hide WordAt, SetWord, PutHeader, Cache.Valid, Cache.Snapshot;
      ReadHead();
      InstallTrans(true);
      n := 0;
      WriteHead();
    }
  }
}
