/** What the commit and recovery code does to the disk, one block write at a time, and why a
    crash between any two of those writes loses nothing and halves nothing. */
module RedoLog {
  import opened Blocks

  const LOGSIZE: nat := 30

  type Image = seq<Block>

  lemma Associative<T>(a: seq<T>, b: seq<T>, c: seq<T>)
    ensures a + b + c == a + (b + c)
  {
  }

  /** Where the superblock puts the log: a header block at start, then size - 1 data blocks. */
  datatype Layout = Layout(start: nat, size: nat)

  ghost predicate InLog(lay: Layout, b: nat) {
    lay.start <= b < lay.start + lay.size
  }

  // The header block: word 0 is n, words 1.. are the home block numbers.

  function HeaderCount(b: Block): Word {
    WordAt(b, 0)
  }

  function HeaderEntry(b: Block, i: nat): Word
    requires i < LOGSIZE
  {
    WordAt(b, i + 1)
  }

  function HeaderList(b: Block): (l: seq<Word>)
    requires HeaderCount(b) <= LOGSIZE
    ensures |l| == HeaderCount(b)
  {
    seq(HeaderCount(b), i requires 0 <= i < HeaderCount(b) => HeaderEntry(b, i))
  }

  /** The header block after its first k entries have been stored. */
  function PutEntries(b: Block, l: seq<Word>, k: nat): (r: Block)
    requires k <= |l| <= LOGSIZE
    ensures HeaderCount(r) == HeaderCount(b)
    ensures forall i :: 0 <= i < k ==> HeaderEntry(r, i) == l[i]
  {
    if k == 0 then b else SetWord(PutEntries(b, l, k - 1), k, l[k - 1])
  }

  /** write_head: count and entries stored over whatever the block held. */
  function PutHeader(b: Block, l: seq<Word>): (r: Block)
    requires |l| <= LOGSIZE
    ensures HeaderCount(r) == |l| && HeaderList(r) == l
  {
    PutEntries(SetWord(b, 0, |l|), l, |l|)
  }

  ghost predicate HomeList(d: Image, lay: Layout, l: seq<Word>) {
    && |l| <= LOGSIZE && |l| < lay.size && lay.start + lay.size <= |d|
    && (forall i :: 0 <= i < |l| ==> l[i] < |d| && !InLog(lay, l[i]))
  }

  /** The log area fits the disk and its header names home blocks only. */
  ghost predicate LogOk(d: Image, lay: Layout) {
    && 0 < lay.size && lay.start + lay.size <= |d|
    && HeaderCount(d[lay.start]) <= LOGSIZE
    && HomeList(d, lay, HeaderList(d[lay.start]))
  }

  ghost predicate SameHome(a: Image, b: Image, lay: Layout) {
    |a| == |b| && forall i :: 0 <= i < |a| && !InLog(lay, i) ==> a[i] == b[i]
  }

  ghost predicate SameLog(a: Image, b: Image, lay: Layout) {
    |a| == |b| && forall i :: 0 <= i < |a| && InLog(lay, i) ==> a[i] == b[i]
  }

  /** write_log: the first k listed blocks copied from the cache's view to the log. */
  ghost function LogCopy(d: Image, lay: Layout, view: Image, l: seq<Word>, k: nat): (r: Image)
    requires HomeList(d, lay, l) && |view| == |d| && k <= |l|
    ensures |r| == |d|
  {
    if k == 0 then d else LogCopy(d, lay, view, l, k - 1)[lay.start + k := view[l[k - 1]]]
  }

  /** Only the first k log slots change, and they hold the view's blocks. */
  lemma {:induction false} LogCopyFills(d: Image, lay: Layout, view: Image, l: seq<Word>, k: nat)
    requires HomeList(d, lay, l) && |view| == |d| && k <= |l|
    ensures var r := LogCopy(d, lay, view, l, k);
            && SameHome(r, d, lay) && r[lay.start] == d[lay.start]
            && forall i :: 0 <= i < k ==> r[lay.start + 1 + i] == view[l[i]]
  {
    if k > 0 {
      LogCopyFills(d, lay, view, l, k - 1);
    }
  }

  /** install_trans: the first k logged blocks copied from the log to their homes. */
  ghost function Install(d: Image, lay: Layout, l: seq<Word>, k: nat): (r: Image)
    requires HomeList(d, lay, l) && k <= |l|
    ensures SameLog(r, d, lay)
    ensures forall b :: 0 <= b < |d| && b !in l[..k] ==> r[b] == d[b]
  {
    if k == 0 then d else
    assert l[..k - 1] <= l[..k];
    Install(d, lay, l, k - 1)[l[k - 1] := d[lay.start + k]]
  }

  /** The disk after each of the first k log writes, in order. */
  ghost function CopyTrace(d: Image, lay: Layout, view: Image, l: seq<Word>, k: nat): (t: seq<Image>)
    requires HomeList(d, lay, l) && |view| == |d| && k <= |l|
    ensures |t| == k
  {
    if k == 0 then [] else CopyTrace(d, lay, view, l, k - 1) + [LogCopy(d, lay, view, l, k)]
  }

  /** The disk after each of the first k home writes, in order. */
  ghost function InstallTrace(d: Image, lay: Layout, l: seq<Word>, k: nat): (t: seq<Image>)
    requires HomeList(d, lay, l) && k <= |l|
    ensures |t| == k
  {
    if k == 0 then [] else InstallTrace(d, lay, l, k - 1) + [Install(d, lay, l, k)]
  }

  lemma {:induction false} CopyTraceAt(d: Image, lay: Layout, view: Image, l: seq<Word>, k: nat, i: nat)
    requires HomeList(d, lay, l) && |view| == |d| && i < k <= |l|
    ensures CopyTrace(d, lay, view, l, k)[i] == LogCopy(d, lay, view, l, i + 1)
  {
    if i < k - 1 {
      CopyTraceAt(d, lay, view, l, k - 1, i);
    }
  }

  lemma {:induction false} InstallTraceAt(d: Image, lay: Layout, l: seq<Word>, k: nat, i: nat)
    requires HomeList(d, lay, l) && i < k <= |l|
    ensures InstallTrace(d, lay, l, k)[i] == Install(d, lay, l, i + 1)
  {
    if i < k - 1 {
      InstallTraceAt(d, lay, l, k - 1, i);
    }
  }

  /** The disk after the first k writes of a recovery that starts from d. */
  ghost function RecoveryState(d: Image, lay: Layout, k: nat): (r: Image)
    requires LogOk(d, lay) && k <= HeaderCount(d[lay.start]) + 1
    ensures |r| == |d|
  {
    var h := d[lay.start];
    if k <= HeaderCount(h) then Install(d, lay, HeaderList(h), k)
    else Install(d, lay, HeaderList(h), HeaderCount(h))[lay.start := PutHeader(h, [])]
  }

  /** The disk after a recovery that ran to its end. */
  ghost function Recovered(d: Image, lay: Layout): (r: Image)
    requires LogOk(d, lay)
    ensures |r| == |d|
  {
    RecoveryState(d, lay, HeaderCount(d[lay.start]) + 1)
  }

  /** The disk after the first k writes of a commit of the blocks listed in l. */
  ghost function CommitState(d: Image, lay: Layout, view: Image, l: seq<Word>, k: nat): (r: Image)
    requires HomeList(d, lay, l) && |view| == |d| && k <= 2 * |l| + 2
    ensures |r| == |d|
  {
    if k <= |l| then LogCopy(d, lay, view, l, k)
    else RecoveryState(Committed(d, lay, view, l), lay, k - |l| - 1)
  }

  /** The disk right after the header write. */
  ghost function Committed(d: Image, lay: Layout, view: Image, l: seq<Word>): (r: Image)
    requires HomeList(d, lay, l) && |view| == |d|
    ensures |r| == |d| && LogOk(r, lay) && HeaderList(r[lay.start]) == l
    ensures SameHome(r, d, lay)
    ensures forall i :: 0 <= i < |l| ==> r[lay.start + 1 + i] == view[l[i]]
  {
    LogCopyFills(d, lay, view, l, |l|);
    LogCopy(d, lay, view, l, |l|)[lay.start := PutHeader(d[lay.start], l)]
  }

  lemma NoWrites(d: Image, lay: Layout, view: Image, l: seq<Word>)
    requires HomeList(d, lay, l) && |view| == |d|
    ensures CommitState(d, lay, view, l, 0) == d
  {
  }

  // Each state follows from the one before by one block write.

  /** Write number k + 1 of installing the list l and erasing the log. */
  ghost function InstallWrite(m: Image, lay: Layout, l: seq<Word>, k: nat): (r: Image)
    requires HomeList(m, lay, l) && k <= |l|
    ensures |r| == |m|
  {
    if k < |l| then m[l[k] := m[lay.start + 1 + k]] else m[lay.start := PutHeader(m[lay.start], [])]
  }

  lemma RecoveryNext(d: Image, lay: Layout, k: nat)
    requires LogOk(d, lay) && k <= HeaderCount(d[lay.start])
    ensures RecoveryState(d, lay, k + 1) == InstallWrite(RecoveryState(d, lay, k), lay, HeaderList(d[lay.start]), k)
  {
    hide WordAt, SetWord, PutHeader;
    var m := RecoveryState(d, lay, k);
    assert m[lay.start] == d[lay.start];
    if k < HeaderCount(d[lay.start]) {
      assert InLog(lay, lay.start + 1 + k);
    }
  }

  /** Write number k + 1 of a commit of the list l, where x is the cached copy of l[k]. */
  ghost function CommitSet(m: Image, lay: Layout, l: seq<Word>, k: nat, x: Block): (r: Image)
    requires HomeList(m, lay, l) && k <= 2 * |l| + 1
    ensures |r| == |m|
  {
    if k < |l| then m[lay.start + 1 + k := x]
    else if k == |l| then m[lay.start := PutHeader(m[lay.start], l)]
    else InstallWrite(m, lay, l, k - |l| - 1)
  }

  lemma CommitNext(d: Image, lay: Layout, view: Image, l: seq<Word>, k: nat, x: Block)
    requires HomeList(d, lay, l) && |view| == |d| && k <= 2 * |l| + 1
    requires k < |l| ==> x == view[l[k]]
    ensures CommitState(d, lay, view, l, k + 1) == CommitSet(CommitState(d, lay, view, l, k), lay, l, k, x)
  {
    hide WordAt, SetWord, PutHeader;
    if k == |l| {
      LogCopyFills(d, lay, view, l, |l|);
    } else if k > |l| {
      hide Committed, RecoveryState, InstallWrite;
      RecoveryNext(Committed(d, lay, view, l), lay, k - |l| - 1);
    }
  }

  /** Installing again from a half-installed disk reaches what installing once reaches. */
  lemma {:induction false} InstallAgain(d: Image, lay: Layout, l: seq<Word>, k: nat, j: nat, b: nat)
    requires HomeList(d, lay, l) && k <= |l| && j <= |l| && b < |d|
    ensures HomeList(Install(d, lay, l, k), lay, l)
    ensures Install(Install(d, lay, l, k), lay, l, j)[b] ==
            if b in l[..j] then Install(d, lay, l, j)[b] else Install(d, lay, l, k)[b]
  {
    if j > 0 {
      InstallAgain(d, lay, l, k, j - 1, b);
      assert l[..j] == l[..j - 1] + [l[j - 1]];
    }
  }

  /** Recovery interrupted after any number of writes and started over ends as if never interrupted. */
  lemma RecoveryRestarts(d: Image, lay: Layout, k: nat)
    requires LogOk(d, lay) && k <= HeaderCount(d[lay.start]) + 1
    ensures LogOk(RecoveryState(d, lay, k), lay)
    ensures SameHome(Recovered(RecoveryState(d, lay, k), lay), Recovered(d, lay), lay)
  {
    hide WordAt, SetWord, PutHeader;
    var h := d[lay.start];
    var l, n := HeaderList(h), HeaderCount(h);
    var m := RecoveryState(d, lay, k);
    if k <= n {
      assert m[lay.start] == h;
      forall b | 0 <= b < |d| && !InLog(lay, b) ensures Recovered(m, lay)[b] == Recovered(d, lay)[b] {
        InstallAgain(d, lay, l, k, n, b);
        assert l[..n] == l;
        if b !in l {
          assert b !in l[..k];
        }
      }
    } else {
      assert HeaderList(m[lay.start]) == [];
    }
  }

  /** A chain of disks, each left behind by a crash somewhere inside recovery from the one before. */
  ghost predicate CrashChain(ds: seq<Image>, lay: Layout) {
    |ds| > 0 && forall i :: 0 <= i < |ds| - 1 ==> InterruptedRecovery(ds[i], ds[i + 1], lay)
  }

  ghost predicate InterruptedRecovery(d: Image, d': Image, lay: Layout) {
    LogOk(d, lay) && exists k :: 0 <= k <= HeaderCount(d[lay.start]) + 1 && d' == RecoveryState(d, lay, k)
  }

  lemma {:induction false} ChainConverges(ds: seq<Image>, lay: Layout)
    requires CrashChain(ds, lay) && LogOk(ds[0], lay)
    ensures LogOk(ds[|ds| - 1], lay)
    ensures SameHome(Recovered(ds[|ds| - 1], lay), Recovered(ds[0], lay), lay)
  {
    hide WordAt, SetWord, PutHeader, Recovered, RecoveryState;
    if |ds| > 1 {
      ChainConverges(ds[..|ds| - 1], lay);
      var d, d' := ds[|ds| - 2], ds[|ds| - 1];
      assert InterruptedRecovery(d, d', lay);
      var k :| 0 <= k <= HeaderCount(d[lay.start]) + 1 && d' == RecoveryState(d, lay, k);
      RecoveryRestarts(d, lay, k);
    }
  }

  /** Installing a log that holds the view's blocks makes those homes equal to the view. */
  lemma {:induction false} InstallReaches(d: Image, lay: Layout, view: Image, l: seq<Word>, k: nat, b: nat)
    requires HomeList(d, lay, l) && |view| == |d| && k <= |l| && b in l[..k]
    requires forall i :: 0 <= i < |l| ==> d[lay.start + 1 + i] == view[l[i]]
    ensures Install(d, lay, l, k)[b] == view[b]
  {
    assert l[..k] == l[..k - 1] + [l[k - 1]];
    if b != l[k - 1] {
      InstallReaches(d, lay, view, l, k - 1, b);
    }
  }

  /** Once the header is written, recovery makes every home block equal to the view. */
  lemma CommittedReaches(d: Image, lay: Layout, view: Image, l: seq<Word>)
    requires HomeList(d, lay, l) && |view| == |d|
    requires forall b :: 0 <= b < |d| && !InLog(lay, b) && b !in l ==> view[b] == d[b]
    ensures SameHome(Recovered(Committed(d, lay, view, l), lay), view, lay)
  {
    hide WordAt, SetWord, PutHeader, LogCopy, Committed;
    var c := Committed(d, lay, view, l);
    assert l[..|l|] == l;
    forall b | 0 <= b < |d| && !InLog(lay, b) ensures Recovered(c, lay)[b] == view[b] {
      if b in l {
        InstallReaches(c, lay, view, l, |l|, b);
      }
    }
  }

  /** While the transaction is being installed the log slots hold the view's blocks. */
  lemma CommitSlots(d: Image, lay: Layout, view: Image, l: seq<Word>, k: nat, i: nat)
    requires HomeList(d, lay, l) && |view| == |d| && |l| < k <= 2 * |l| + 1 && i < |l|
    ensures CommitState(d, lay, view, l, k)[lay.start + 1 + i] == view[l[i]]
  {
    hide WordAt, SetWord, PutHeader, LogCopy;
    assert InLog(lay, lay.start + 1 + i);
  }

  lemma EmptyLogRecovers(d: Image, lay: Layout)
    requires 0 < lay.size && lay.start + lay.size <= |d| && HeaderCount(d[lay.start]) == 0
    ensures LogOk(d, lay) && SameHome(Recovered(d, lay), d, lay)
  {
    hide WordAt, SetWord, PutHeader;
    assert HeaderList(d[lay.start]) == [];
  }

  /** Before the header write a crash leaves nothing of the transaction; from then on, all of it. */
  lemma CommitSwitchesAtHeader(d: Image, lay: Layout, view: Image, l: seq<Word>, k: nat)
    requires LogOk(d, lay) && HeaderCount(d[lay.start]) == 0
    requires HomeList(d, lay, l) && |view| == |d| && k <= 2 * |l| + 2
    requires forall b :: 0 <= b < |d| && !InLog(lay, b) && b !in l ==> view[b] == d[b]
    ensures LogOk(CommitState(d, lay, view, l, k), lay)
    ensures SameHome(Recovered(CommitState(d, lay, view, l, k), lay), if k <= |l| then d else view, lay)
  {
    hide WordAt, SetWord, PutHeader, LogCopy, Committed, Recovered, RecoveryState;
    if k <= |l| {
      LogCopyFills(d, lay, view, l, k);
      EmptyLogRecovers(CommitState(d, lay, view, l, k), lay);
    } else {
      CommittedReaches(d, lay, view, l);
      RecoveryRestarts(Committed(d, lay, view, l), lay, k - |l| - 1);
    }
  }

  lemma SameHomeTrans(a: Image, b: Image, c: Image, lay: Layout)
    requires SameHome(a, b, lay) && SameHome(b, c, lay)
    ensures SameHome(a, c, lay)
  {
  }

  /** Crash atomicity. The machine stops after any k of the 2n + 2 writes of a commit, and then
      any number of times inside recovery. The next recovery to complete leaves every home block
      old when k <= n and every home block new when k > n. */
  lemma CrashAtomicity(d: Image, lay: Layout, view: Image, l: seq<Word>, k: nat, ds: seq<Image>)
    requires LogOk(d, lay) && HeaderCount(d[lay.start]) == 0
    requires HomeList(d, lay, l) && |view| == |d| && k <= 2 * |l| + 2
    requires forall b :: 0 <= b < |d| && !InLog(lay, b) && b !in l ==> view[b] == d[b]
    requires CrashChain(ds, lay) && ds[0] == CommitState(d, lay, view, l, k)
    ensures LogOk(ds[|ds| - 1], lay)
    ensures SameHome(Recovered(ds[|ds| - 1], lay), if k <= |l| then d else view, lay)
  {
    hide WordAt, SetWord, PutHeader, Recovered, CommitState, LogOk, HomeList, SameHome, InterruptedRecovery;
    CommitSwitchesAtHeader(d, lay, view, l, k);
    ChainConverges(ds, lay);
    SameHomeTrans(Recovered(ds[|ds| - 1], lay), Recovered(ds[0], lay), if k <= |l| then d else view, lay);
  }
}
