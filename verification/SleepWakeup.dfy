/** Scheduling, sleep and wakeup, fork, exit and wait as an interleaving of steps of the harts.
    p->lock is taken by a process and given back by the scheduler, or the other way round; the
    condition lock is dropped inside sleep while p->lock is held. */
module SleepWakeup {

  import opened Common

  const NPROC: nat := 64
  const INIT: Pid := 0

  type Pid = p: nat | p < NPROC
  type Hart = nat

  datatype ProcState = Unused | Used | Sleeping | Runnable | Running | Zombie

  /** What a process sleeps on: a parent waiting for its children, or anything else x, whose
      condition is protected by spin lock number lk. */
  datatype Chan = ChildOf(q: Pid) | Other(x: nat, lk: nat)

  datatype Lock = WaitLock | OtherLock(lk: nat)

  function LockOf(c: Chan): Lock {
    match c case ChildOf(_) => WaitLock case Other(_, lk) => OtherLock(lk)
  }

  /** Where a call of wakeup or sleep goes on. */
  datatype Ret = ToRun | ToReparent(i: nat) | ToExitLock | ToWait

  /** Where a process that is switched away goes on. */
  datatype Why = FromSleep(c: Chan, r: Ret) | FromYield(code: Code) | FromExit | Fresh

  /** The kernel code a hart is executing for a process or, for Run, Waking and Killing only, for
      an interrupt. */
  datatype Code =
    | Run
    | Waking(c: Chan, i: nat, locked: bool, r: Ret)  // wakeup(c), at process i
    | SleepLocked(c: Chan, r: Ret)                   // sleep: p->lock taken, lk still held
    | SleepReleased(c: Chan, r: Ret)                 // sleep: lk released, state not yet changed
    | Leaving(w: Why)                                // sched: state changed, p->lock held
    | Resumed(w: Why)                                // switched back, still holding p->lock
    | Reacquire(c: Chan, r: Ret)                     // sleep: wants lk back
    | Killing(q: Pid)                                // kill: q->lock held
    | ForkLocked(k: Pid)                             // fork: child allocated, its lock held
    | ForkParent(k: Pid) | ForkStart(k: Pid)         // fork: no lock held
    | Reparent(i: nat) | ExitLock | ExitZombie | ExitRelease
    | WaitScan(i: nat) | WaitLocked(k: Pid)

  datatype HartPc =
    | Idle                                    // scheduler loop, no lock held
    | Picked(p: Pid)                          // scheduler holds p->lock
    | Exec(self: Option<Pid>, code: Code, below: Option<Code>)  // c->proc == self; below: what a trap interrupted
    | Back(p: Pid)                            // switched back from p: c->proc == p, p->lock held

  datatype State = State(
    st: seq<ProcState>, chan: seq<Option<Chan>>, parent: seq<Option<Pid>>,
    why: seq<Why>,              // the saved context of a process that is switched away
    plock: seq<Option<Hart>>,   // p->lock
    forker: seq<Option<Pid>>,   // whose fork() is making this process
    died: seq<nat>, reaped: seq<nat>,  // how often it has become a zombie and been reaped
    harts: seq<HartPc>,
    owner: map<Lock, Hart>,     // the condition locks that are held
    ready: set<Chan>,           // the conditions of Other channels that hold
    swept: map<Chan, nat>,      // how far wakeup(c) has got since LockOf(c) was taken
    owed: set<Chan>)            // made true since LockOf(c) was taken, wakeup(c) not yet through

  ghost predicate Sized(s: State) {
    && |s.st| == |s.chan| == |s.parent| == |s.why| == |s.plock| == NPROC
    && |s.forker| == |s.died| == |s.reaped| == NPROC
  }

  ghost function Goto(s: State, h: Hart, c: Code): State
    requires h < |s.harts| && s.harts[h].Exec?
  {
    s.(harts := s.harts[h := Exec(s.harts[h].self, c, s.harts[h].below)])
  }

  // Conditions and the bookkeeping of wakeups.

  ghost predicate HasZombie(st: seq<ProcState>, parent: seq<Option<Pid>>, q: Pid) {
    exists k :: 0 <= k < |st| && k < |parent| && st[k].Zombie? && parent[k] == Some(q)
  }

  ghost predicate Cond(st: seq<ProcState>, parent: seq<Option<Pid>>, ready: set<Chan>, c: Chan) {
    match c
    case ChildOf(q) => HasZombie(st, parent, q)
    case Other(_, _) => c in ready
  }

  ghost function Swept(swept: map<Chan, nat>, c: Chan): nat {
    if c in swept then swept[c] else 0
  }

  /** The holder of c's lock has visited process i in wakeup(c). */
  ghost function Sweep(swept: map<Chan, nat>, owner: map<Lock, Hart>, h: Hart, c: Chan, i: nat): map<Chan, nat> {
    if LockOf(c) in owner && owner[LockOf(c)] == h && i == Swept(swept, c) then swept[c := i + 1] else swept
  }

  /** c may have become true: its sleepers must all be visited before the lock goes. */
  ghost function Owe(owed: set<Chan>, swept: map<Chan, nat>, c: Chan): set<Chan> {
    if Swept(swept, c) < NPROC then owed + {c} else owed
  }

  ghost function Forget(swept: map<Chan, nat>, l: Lock): map<Chan, nat> {
    map c | c in swept && LockOf(c) != l :: swept[c]
  }

  ghost function Unlock(s: State, l: Lock): State {
    s.(owner := s.owner - {l}, swept := Forget(s.swept, l))
  }

  /** No wakeup is owed on a channel of this lock. */
  ghost predicate Settled(owed: set<Chan>, l: Lock) {
    forall c :: c in owed ==> LockOf(c) != l
  }

  ghost predicate OwnsNothing(owner: map<Lock, Hart>, h: Hart) {
    forall l :: l in owner ==> owner[l] != h
  }

  ghost predicate Owns(owner: map<Lock, Hart>, h: Hart, l: Lock) {
    l in owner && owner[l] == h
  }

  ghost function Woken(st: ProcState, chan: Option<Chan>, c: Chan): ProcState {
    if st.Sleeping? && chan == Some(c) then Runnable else st
  }

  function After(r: Ret): Code {
    match r
    case ToRun => Run
    case ToReparent(i) => Reparent(i)
    case ToExitLock => ExitLock
    case ToWait => WaitScan(0)
  }

  // The steps of hart h.

  datatype Action =
    | SchedPick(p: Pid) | SchedSkip | SchedRun | SchedDone | IrqEnter | IrqLeave | Switch
    | TrapEnter | TrapLeave | TrapYield
    | Acquire(l: Lock) | Release(l: Lock) | MakeReady(c: Chan) | MakeUnready(c: Chan)
    | CallWakeup(c: Chan) | WakeSkip | WakeLock | WakeVisit | WakeReturn
    | CallSleep(c: Chan) | SleepUnlock | SleepSet | SleepResume | SleepReacquire
    | Yield | YieldResume | KillLock(q: Pid) | KillSkip | KillSet
    | ForkAlloc(k: Pid) | ForkFail | ForkUnlock | ForkAdopt | ForkGo
    | ExitBegin | ReparentOne | ReparentDone | ExitTake | ExitDie | ExitUnlock
    | WaitBegin | WaitOther | WaitTake | WaitReap | WaitFault | WaitAlive | WaitReturn | WaitSleep

  /** scheduler(), and the half of sched() that switches to it. */
  ghost predicate SchedNext(s: State, s': State, h: Hart, a: Action) {
    && Sized(s) && h < |s.harts|
    && match a
       case SchedPick(p) =>
         && s.harts[h].Idle? && s.plock[p].None?
         && s' == s.(plock := s.plock[p := Some(h)], harts := s.harts[h := Picked(p)])
       case SchedSkip =>
         && s.harts[h].Picked? && !s.st[s.harts[h].p].Runnable?
         && s' == s.(plock := s.plock[s.harts[h].p := None], harts := s.harts[h := Idle])
       case SchedRun =>
         && s.harts[h].Picked? && s.st[s.harts[h].p].Runnable?
         && s' == s.(st := s.st[s.harts[h].p := Running],
                     harts := s.harts[h := Exec(Some(s.harts[h].p), Resumed(s.why[s.harts[h].p]), None)])
       case SchedDone =>
         && s.harts[h].Back?
         && s' == s.(plock := s.plock[s.harts[h].p := None], harts := s.harts[h := Idle])
       case IrqEnter =>
         && s.harts[h].Idle?
         && s' == s.(harts := s.harts[h := Exec(None, Run, None)])
       case IrqLeave =>
         && s.harts[h] == Exec(None, Run, None) && OwnsNothing(s.owner, h)
         && s' == s.(harts := s.harts[h := Idle])
       case Switch =>
         && s.harts[h].Exec? && s.harts[h].self.Some? && s.harts[h].code.Leaving?
         && s' == s.(why := s.why[s.harts[h].self.value := s.harts[h].code.w],
                     harts := s.harts[h := Back(s.harts[h].self.value)])
       case _ => false
  }

  /** Kernel code at a point where it holds no lock, so that interrupts are on. */
  ghost predicate LockFree(code: Code) {
    code.Run? || code.Reacquire? || code.ForkParent? || code.ForkStart? ||
      (code.Waking? && !code.locked && code.r.ToRun?)
  }

  /** kerneltrap(): a device interrupt arrives in the code of a process, runs its handler as Run code
      with wakeups, and returns or, on a timer tick, yields. */
  ghost predicate TrapNext(s: State, s': State, h: Hart, a: Action) {
    && Sized(s) && h < |s.harts| && s.harts[h].Exec? && s.harts[h].self.Some? && OwnsNothing(s.owner, h)
    && var code, p := s.harts[h].code, s.harts[h].self.value;
       match a
       case TrapEnter =>
         && s.harts[h].below.None? && LockFree(code)
         && s' == s.(harts := s.harts[h := Exec(Some(p), Run, Some(code))])
       case TrapLeave =>
         && s.harts[h].below.Some? && code.Run?
         && s' == s.(harts := s.harts[h := Exec(Some(p), s.harts[h].below.value, None)])
       case TrapYield =>
         && s.harts[h].below.Some? && code.Run? && s.plock[p].None? && s.st[p].Running?
         && s' == s.(harts := s.harts[h := Exec(Some(p), Leaving(FromYield(s.harts[h].below.value)), None)],
                     plock := s.plock[p := Some(h)], st := s.st[p := Runnable])
       case _ => false
  }

  /** Client code that protects conditions with locks, and kill(). */
  ghost predicate ClientNext(s: State, s': State, h: Hart, a: Action) {
    && Sized(s) && h < |s.harts| && s.harts[h].Exec?
    && var code := s.harts[h].code;
       match a
       case Acquire(l) =>
         code.Run? && l !in s.owner && s' == s.(owner := s.owner[l := h])
       case Release(l) =>
         code.Run? && Owns(s.owner, h, l) && Settled(s.owed, l) && s' == Unlock(s, l)
       case MakeReady(c) =>
         && code.Run? && c.Other? && Owns(s.owner, h, LockOf(c))
         && s' == s.(ready := s.ready + {c}, owed := Owe(s.owed, s.swept, c))
       case MakeUnready(c) =>
         && code.Run? && c.Other? && Owns(s.owner, h, LockOf(c))
         && s' == s.(ready := s.ready - {c}, owed := s.owed - {c})
       case KillLock(q) =>
         && code.Run? && s.plock[q].None?
         && s' == Goto(s, h, Killing(q)).(plock := s.plock[q := Some(h)])
       case KillSkip =>
         code.Killing? && s' == Goto(s, h, Run).(plock := s.plock[code.q := None])
       case KillSet =>
         && code.Killing?
         && s' == Goto(s, h, Run).(st := s.st[code.q := if s.st[code.q].Sleeping? then Runnable else s.st[code.q]],
                                   plock := s.plock[code.q := None])
       case _ => false
  }

  /** wakeup(). */
  ghost predicate WakeNext(s: State, s': State, h: Hart, a: Action) {
    && Sized(s) && h < |s.harts| && s.harts[h].Exec?
    && var code := s.harts[h].code;
       match a
       case CallWakeup(c) =>
         code.Run? && s' == Goto(s, h, Waking(c, 0, false, ToRun))
       case WakeSkip =>
         && code.Waking? && !code.locked && code.i < NPROC && s.harts[h].self == Some(code.i)
         && s' == Goto(s, h, Waking(code.c, code.i + 1, false, code.r)).(
                    swept := Sweep(s.swept, s.owner, h, code.c, code.i))
       case WakeLock =>
         && code.Waking? && !code.locked && code.i < NPROC && s.harts[h].self != Some(code.i) && s.plock[code.i].None?
         && s' == Goto(s, h, Waking(code.c, code.i, true, code.r)).(plock := s.plock[code.i := Some(h)])
       case WakeVisit =>
         && code.Waking? && code.locked && code.i < NPROC
         && s' == Goto(s, h, Waking(code.c, code.i + 1, false, code.r)).(
                    st := s.st[code.i := Woken(s.st[code.i], s.chan[code.i], code.c)],
                    plock := s.plock[code.i := None],
                    swept := Sweep(s.swept, s.owner, h, code.c, code.i))
       case WakeReturn =>
         && code.Waking? && !code.locked && code.i == NPROC
         && s' == Goto(s, h, After(code.r)).(
                    owed := if Owns(s.owner, h, LockOf(code.c)) then s.owed - {code.c} else s.owed)
       case _ => false
  }

  /** The hart runs kernel code of some process, not of an interrupt. */
  ghost predicate InProcess(s: State, h: Hart) {
    Sized(s) && h < |s.harts| && s.harts[h].Exec? && s.harts[h].self.Some? && s.harts[h].below.None?
  }

  /** sleep() and yield(). */
  ghost predicate SleepNext(s: State, s': State, h: Hart, a: Action) {
    && InProcess(s, h)
    && var code, p := s.harts[h].code, s.harts[h].self.value;
       match a
       case CallSleep(c) =>
         && code.Run? && c.Other? && s.plock[p].None?
         && Owns(s.owner, h, LockOf(c)) && OwnsNothing(s.owner - {LockOf(c)}, h) && Settled(s.owed, LockOf(c))
         && !Cond(s.st, s.parent, s.ready, c)
         && s' == Goto(s, h, SleepLocked(c, ToRun)).(plock := s.plock[p := Some(h)])
       case SleepUnlock =>
         && code.SleepLocked?
         && s' == Unlock(Goto(s, h, SleepReleased(code.c, code.r)), LockOf(code.c))
       case SleepSet =>
         && code.SleepReleased?
         && s' == Goto(s, h, Leaving(FromSleep(code.c, code.r))).(
                    chan := s.chan[p := Some(code.c)], st := s.st[p := Sleeping])
       case SleepResume =>
         && code.Resumed? && code.w.FromSleep?
         && s' == Goto(s, h, Reacquire(code.w.c, code.w.r)).(chan := s.chan[p := None], plock := s.plock[p := None])
       case SleepReacquire =>
         && code.Reacquire? && LockOf(code.c) !in s.owner
         && s' == Goto(s, h, After(code.r)).(owner := s.owner[LockOf(code.c) := h])
       case Yield =>
         && code.Run? && OwnsNothing(s.owner, h) && s.plock[p].None?
         && s' == Goto(s, h, Leaving(FromYield(Run))).(plock := s.plock[p := Some(h)], st := s.st[p := Runnable])
       case YieldResume =>
         && code.Resumed? && (code.w.FromYield? || code.w.Fresh?)
         && s' == Goto(s, h, if code.w.FromYield? then code.w.code else Run).(plock := s.plock[p := None])
       case _ => false
  }

  /** fork(): allocate the child, give it back if memory runs out, make it a child of the caller,
      start it. */
  ghost predicate ForkNext(s: State, s': State, h: Hart, a: Action) {
    && InProcess(s, h)
    && var code, p := s.harts[h].code, s.harts[h].self.value;
       match a
       case ForkAlloc(k) =>
         && code.Run? && OwnsNothing(s.owner, h) && s.plock[k].None? && s.st[k].Unused?
         && s' == Goto(s, h, ForkLocked(k)).(st := s.st[k := Used], why := s.why[k := Fresh],
                    plock := s.plock[k := Some(h)], forker := s.forker[k := Some(p)])
       case ForkFail =>
         && code.ForkLocked?
         && s' == Goto(s, h, Run).(st := s.st[code.k := Unused], parent := s.parent[code.k := None],
                    chan := s.chan[code.k := None], plock := s.plock[code.k := None],
                    forker := s.forker[code.k := None])
       case ForkUnlock =>
         && code.ForkLocked?
         && s' == Goto(s, h, ForkParent(code.k)).(plock := s.plock[code.k := None])
       case ForkAdopt =>
         && code.ForkParent? && WaitLock !in s.owner
         && s' == Goto(s, h, ForkStart(code.k)).(parent := s.parent[code.k := Some(p)])
       case ForkGo =>
         && code.ForkStart? && s.plock[code.k].None?
         && s' == Goto(s, h, Run).(st := s.st[code.k := Runnable], forker := s.forker[code.k := None])
       case _ => false
  }

  /** exit(), up to the point where no child is left and the parent has been woken. */
  ghost predicate ReparentNext(s: State, s': State, h: Hart, a: Action) {
    && InProcess(s, h)
    && var code, p := s.harts[h].code, s.harts[h].self.value;
       match a
       case ExitBegin =>
         && code.Run? && p != INIT && OwnsNothing(s.owner, h) && WaitLock !in s.owner
         && s' == Goto(s, h, Reparent(0)).(owner := s.owner[WaitLock := h])
       case ReparentOne =>
         && code.Reparent? && code.i < NPROC
         && s' == if s.parent[code.i] == Some(p)
                  then Goto(s, h, Waking(ChildOf(INIT), 0, false, ToReparent(code.i + 1))).(
                         parent := s.parent[code.i := Some(INIT)], owed := Owe(s.owed, s.swept, ChildOf(INIT)))
                  else Goto(s, h, Reparent(code.i + 1))
       case ReparentDone =>
         && code.Reparent? && code.i == NPROC
         && s' == if s.parent[p].Some? then Goto(s, h, Waking(ChildOf(s.parent[p].value), 0, false, ToExitLock))
                  else Goto(s, h, ExitLock)
       case _ => false
  }

  /** exit(), from there on. */
  ghost predicate ExitNext(s: State, s': State, h: Hart, a: Action) {
    && InProcess(s, h)
    && var code, p := s.harts[h].code, s.harts[h].self.value;
       match a
       case ExitTake =>
         && code.ExitLock? && s.plock[p].None?
         && s' == Goto(s, h, ExitZombie).(plock := s.plock[p := Some(h)])
       case ExitDie =>
         && code.ExitZombie?
         && s' == Goto(s, h, ExitRelease).(st := s.st[p := Zombie], died := s.died[p := s.died[p] + 1],
                    owed := if s.parent[p].Some? then Owe(s.owed, s.swept, ChildOf(s.parent[p].value)) else s.owed)
       case ExitUnlock =>
         code.ExitRelease? && s' == Unlock(Goto(s, h, Leaving(FromExit)), WaitLock)
       case _ => false
  }

  /** wait(): the scan for a zombie child. */
  ghost predicate ScanNext(s: State, s': State, h: Hart, a: Action) {
    && InProcess(s, h)
    && var code, p := s.harts[h].code, s.harts[h].self.value;
       match a
       case WaitBegin =>
         && code.Run? && OwnsNothing(s.owner, h) && WaitLock !in s.owner
         && s' == Goto(s, h, WaitScan(0)).(owner := s.owner[WaitLock := h])
       case WaitOther =>
         && code.WaitScan? && code.i < NPROC && s.parent[code.i] != Some(p)
         && s' == Goto(s, h, WaitScan(code.i + 1))
       case WaitTake =>
         && code.WaitScan? && code.i < NPROC && s.parent[code.i] == Some(p) && s.plock[code.i].None?
         && s' == Goto(s, h, WaitLocked(code.i)).(plock := s.plock[code.i := Some(h)])
       case WaitAlive =>
         && code.WaitLocked? && !s.st[code.k].Zombie?
         && s' == Goto(s, h, WaitScan(code.k + 1)).(plock := s.plock[code.k := None])
       case _ => false
  }

  /** wait(): reap a zombie, fail to copy its status out, give up, or sleep. Which of the last two
      happens after a scan that found nothing is left open. */
  ghost predicate WaitNext(s: State, s': State, h: Hart, a: Action) {
    && InProcess(s, h)
    && var code, p := s.harts[h].code, s.harts[h].self.value;
       match a
       case WaitReap =>
         && code.WaitLocked? && s.st[code.k].Zombie?
         && s' == Unlock(Goto(s, h, Run), WaitLock).(
                    st := s.st[code.k := Unused], parent := s.parent[code.k := None], chan := s.chan[code.k := None],
                    why := s.why[code.k := Fresh], plock := s.plock[code.k := None],
                    reaped := s.reaped[code.k := s.reaped[code.k] + 1])
       case WaitFault =>
         && code.WaitLocked? && s.st[code.k].Zombie?
         && s' == Unlock(Goto(s, h, Run), WaitLock).(plock := s.plock[code.k := None])
       case WaitReturn =>
         && code.WaitScan? && code.i == NPROC
         && s' == Unlock(Goto(s, h, Run), WaitLock)
       case WaitSleep =>
         && code.WaitScan? && code.i == NPROC && s.plock[p].None?
         && s' == Goto(s, h, SleepLocked(ChildOf(p), ToWait)).(plock := s.plock[p := Some(h)])
       case _ => false
  }

  ghost predicate Next(s: State, s': State, h: Hart, a: Action) {
    || SchedNext(s, s', h, a) || TrapNext(s, s', h, a) || ClientNext(s, s', h, a) || WakeNext(s, s', h, a) ||
      SleepNext(s, s', h, a)
    || ForkNext(s, s', h, a) || ReparentNext(s, s', h, a) || ExitNext(s, s', h, a) || ScanNext(s, s', h, a)
    || WaitNext(s, s', h, a)
  }

  /** Everything free, only the first process ready to run. */
  ghost predicate Init(s: State) {
    && Sized(s)
    && (forall p :: 0 <= p < NPROC ==> s.st[p] == if p == INIT then Runnable else Unused)
    && (forall p :: 0 <= p < NPROC ==> s.chan[p].None? && s.parent[p].None? && s.why[p].Fresh? && s.plock[p].None?)
    && (forall p :: 0 <= p < NPROC ==> s.forker[p].None? && s.died[p] == s.reaped[p] == 0)
    && (forall h :: 0 <= h < |s.harts| ==> s.harts[h].Idle?)
    && s.owner == map[] && s.ready == {} && s.swept == map[] && s.owed == {}
  }

  // What every reachable state satisfies.

  /** The code runs with the process's own p->lock held. */
  ghost predicate HoldsOwn(code: Code) {
    code.SleepLocked? || code.SleepReleased? || code.Leaving? || code.Resumed? || code.ExitZombie? || code.ExitRelease?
  }

  ghost function StateIn(code: Code): ProcState {
    match code
    case Leaving(FromSleep(_, _)) => Sleeping
    case Leaving(FromYield(_)) => Runnable
    case Leaving(FromExit) => Zombie
    case ExitRelease => Zombie
    case _ => Running
  }

  /** The process whose lock the code has taken besides its own. */
  ghost function OtherHeld(code: Code): Option<nat> {
    match code
    case Waking(_, i, locked, _) => if locked then Some(i) else None
    case Killing(q) => Some(q)
    case WaitLocked(k) => Some(k)
    case ForkLocked(k) => Some(k)
    case _ => None
  }

  /** Code of process p that can be interrupted, and gone on with later. */
  ghost predicate FrameOk(p: nat, code: Code) {
    && LockFree(code)
    && (code.Waking? ==> code.i <= NPROC)
    && (code.Reacquire? ==> code.r == ToRun || (code.r == ToWait && code.c.ChildOf? && code.c.q == p))
  }

  /** A hart's position fits the p->locks it must hold and the state of the process it runs. */
  ghost predicate HartOk(hp: HartPc, h: Hart, plock: seq<Option<Hart>>, st: seq<ProcState>, chan: seq<Option<Chan>>)
    requires |plock| == |st| == |chan| == NPROC
  {
    match hp
    case Idle => true
    case Picked(p) => plock[p] == Some(h)
    case Back(p) => plock[p] == Some(h)
    case Exec(self, code, below) =>
      && (self.None? || below.Some? ==> code.Run? || code.Killing? || (code.Waking? && code.r.ToRun?))
      && (below.Some? ==> self.Some? && FrameOk(self.value, below.value))
      && (self.Some? ==> st[self.value] == StateIn(code))
      && (self.Some? && HoldsOwn(code) ==> plock[self.value] == Some(h))
      && (OtherHeld(code).Some? ==> OtherHeld(code).value < NPROC && plock[OtherHeld(code).value] == Some(h))
      && (code.Waking? ==> code.i <= NPROC && (code.locked ==> self != Some(code.i)))
      && (code.Leaving? && code.w.FromSleep? && self.Some? ==> chan[self.value] == Some(code.w.c))
      && (code.Leaving? ==> !code.w.Fresh?)
      && (code.Resumed? ==> !code.w.FromExit?)
      && (code.Leaving? && code.w.FromYield? ==> self.Some? && FrameOk(self.value, code.w.code))
      && (code.Resumed? && code.w.FromYield? ==> self.Some? && FrameOk(self.value, code.w.code))
      && RetOk(self, code)
  }

  /** wait() alone sleeps on the caller's own children, and then goes on in wait(). */
  ghost predicate RetOk(self: Option<Pid>, code: Code) {
    match code
    case SleepLocked(c, r) => r == ToRun || (r == ToWait && self.Some? && c == ChildOf(self.value))
    case SleepReleased(c, r) => r == ToRun || (r == ToWait && self.Some? && c == ChildOf(self.value))
    case Reacquire(c, r) => r == ToRun || (r == ToWait && self.Some? && c == ChildOf(self.value))
    case Leaving(FromSleep(c, r)) => r == ToRun || (r == ToWait && self.Some? && c == ChildOf(self.value))
    case Resumed(FromSleep(c, r)) => r == ToRun || (r == ToWait && self.Some? && c == ChildOf(self.value))
    case _ => true
  }

  ghost predicate HartsOk(harts: seq<HartPc>, plock: seq<Option<Hart>>, st: seq<ProcState>, chan: seq<Option<Chan>>) {
    && |plock| == |st| == |chan| == NPROC
    && forall h :: 0 <= h < |harts| ==> HartOk(harts[h], h, plock, st, chan)
  }

  /** c->proc == p on this hart. */
  ghost predicate Has(hp: HartPc, p: nat) {
    match hp
    case Exec(self, _, _) => self == Some(p)
    case Back(q) => q == p
    case _ => false
  }

  /** At most one hart has c->proc == p. */
  ghost predicate Exclusive(harts: seq<HartPc>) {
    forall g, h, p :: 0 <= g < h < |harts| && Has(harts[g], p) ==> !Has(harts[h], p)
  }

  ghost predicate Executes(hp: HartPc, p: nat) {
    hp.Exec? && hp.self == Some(p)
  }

  ghost predicate Away(harts: seq<HartPc>, p: nat) {
    forall h :: 0 <= h < |harts| ==> !Executes(harts[h], p)
  }

  /** The state of a process that is switched away fits its saved context. */
  ghost predicate AwayOk(st: ProcState, chan: Option<Chan>, why: Why, p: nat) {
    match why
    case FromSleep(c, r) =>
      (st.Sleeping? || st.Runnable?) && chan == Some(c) &&
      (r == ToRun || (r == ToWait && c.ChildOf? && c.q == p))
    case FromYield(code) => st.Runnable? && FrameOk(p, code)
    case FromExit => st.Zombie?
    case Fresh => st.Unused? || st.Used? || st.Runnable?
  }

  ghost predicate AllAway(harts: seq<HartPc>, st: seq<ProcState>, chan: seq<Option<Chan>>, why: seq<Why>) {
    && |st| == |chan| == |why| == NPROC
    && forall p :: 0 <= p < NPROC && Away(harts, p) ==> AwayOk(st[p], chan[p], why[p], p)
  }

  /** The child a process is making where it was switched away. */
  ghost function ForkSaved(w: Why): Option<Pid> {
    if w.FromYield? then ForkOf(w.code) else None
  }

  ghost function ForkOf(code: Code): Option<Pid> {
    match code
    case ForkLocked(k) => Some(k)
    case ForkParent(k) => Some(k)
    case ForkStart(k) => Some(k)
    case _ => None
  }

  ghost function ForkHere(code: Code): Option<Pid> {
    match code
    case Leaving(w) => ForkSaved(w)
    case Resumed(w) => ForkSaved(w)
    case _ => ForkOf(code)
  }

  ghost function ForkIn(hp: HartPc): Option<Pid> {
    if !hp.Exec? then None
    else if ForkHere(hp.code).Some? || hp.below.None? then ForkHere(hp.code)
    else ForkOf(hp.below.value)
  }

  /** A child between allocproc and its start belongs to one fork() only, wherever that one is; a
      process that is unused, or not yet adopted, has no parent. */
  ghost predicate Forks(harts: seq<HartPc>, st: seq<ProcState>, parent: seq<Option<Pid>>, why: seq<Why>,
                        forker: seq<Option<Pid>>) {
    && |st| == |parent| == |why| == |forker| == NPROC
    && (forall h :: 0 <= h < |harts| && ForkIn(harts[h]).Some? ==>
          harts[h].self.Some? && ForkMine(ForkIn(harts[h]).value, harts[h].self.value, st, forker))
    && (forall p :: 0 <= p < NPROC && Away(harts, p) && ForkSaved(why[p]).Some? ==>
         ForkMine(ForkSaved(why[p]).value, p, st, forker))
    && (forall k :: 0 <= k < NPROC && st[k].Unused? ==> parent[k].None?)
    && (forall h :: 0 <= h < |harts| && harts[h].Exec? && harts[h].code.ForkLocked? ==> parent[harts[h].code.k].None?)
  }

  ghost predicate ForkMine(k: Pid, p: Pid, st: seq<ProcState>, forker: seq<Option<Pid>>)
    requires |st| == |forker| == NPROC
  {
    st[k].Used? && forker[k] == Some(p)
  }

  /** A p->lock is held where the code says so. */
  ghost predicate HeldAt(hp: HartPc, q: nat) {
    match hp
    case Idle => false
    case Picked(p) => p == q
    case Back(p) => p == q
    case Exec(self, code, _) => (self == Some(q) && HoldsOwn(code)) || OtherHeld(code) == Some(q)
  }

  ghost predicate Held(harts: seq<HartPc>, plock: seq<Option<Hart>>) {
    && |plock| == NPROC
    && forall q :: 0 <= q < NPROC && plock[q].Some? ==> plock[q].value < |harts| && HeldAt(harts[plock[q].value], q)
  }

  /** Every death but the latest has been reaped, and that one, too, unless the process is a zombie. */
  ghost predicate Deaths(st: seq<ProcState>, died: seq<nat>, reaped: seq<nat>) {
    && |st| == |died| == |reaped| == NPROC
    && forall p :: 0 <= p < NPROC ==> died[p] == reaped[p] + if st[p].Zombie? then 1 else 0
  }

  ghost predicate MayOwn(code: Code, l: Lock) {
    match code
    case Run => true
    case Killing(_) => true
    case Waking(_, _, _, r) => r.ToRun? || l == WaitLock
    case SleepLocked(c, _) => l == LockOf(c)
    case Reparent(_) => l == WaitLock
    case ExitLock => l == WaitLock
    case ExitZombie => l == WaitLock
    case ExitRelease => l == WaitLock
    case WaitScan(_) => l == WaitLock
    case WaitLocked(_) => l == WaitLock
    case _ => false
  }

  ghost predicate MustOwn(code: Code, l: Lock) {
    !code.Run? && !code.Killing? && !(code.Waking? && code.r.ToRun?) && MayOwn(code, l)
  }

  /** The condition locks are held by harts whose code may hold them, and by those that must. */
  ghost predicate Owners(harts: seq<HartPc>, owner: map<Lock, Hart>) {
    && (forall l :: l in owner ==> owner[l] < |harts| && harts[owner[l]].Exec? && MayOwn(harts[owner[l]].code, l))
    && (forall h, l :: 0 <= h < |harts| && harts[h].Exec? && MustOwn(harts[h].code, l) ==> Owns(owner, h, l))
  }

  /** A process wakeup(c) has visited since c's lock was taken is not, and is not about to be,
      asleep on c. */
  ghost predicate SweptOk(harts: seq<HartPc>, st: seq<ProcState>, chan: seq<Option<Chan>>,
                          owner: map<Lock, Hart>, swept: map<Chan, nat>) {
    && |st| == |chan| == NPROC
    && (forall c :: c in swept ==> LockOf(c) in owner && swept[c] <= NPROC)
    && (forall c, q :: c in swept && 0 <= q < swept[c] && q < NPROC ==> !(st[q].Sleeping? && chan[q] == Some(c)))
    && (forall c, h :: c in swept && 0 <= h < |harts| && Dropping(harts[h], c) ==> harts[h].self.value >= swept[c])
  }

  /** In sleep(c, lk): lk is released and the state is not changed yet. */
  ghost predicate Dropping(hp: HartPc, c: Chan) {
    hp.Exec? && hp.self.Some? && hp.code.SleepReleased? && hp.code.c == c
  }

  /** No lost wakeup: when the condition of a process asleep, or about to be, holds, the holder of
      the condition's lock still owes a wakeup. */
  ghost predicate NoLost(harts: seq<HartPc>, st: seq<ProcState>, chan: seq<Option<Chan>>, parent: seq<Option<Pid>>,
                         ready: set<Chan>, owner: map<Lock, Hart>, owed: set<Chan>) {
    && |st| == |chan| == |parent| == NPROC
    && (forall c :: c in owed ==> LockOf(c) in owner)
    && (forall q :: 0 <= q < NPROC && st[q].Sleeping? && chan[q].Some? && Cond(st, parent, ready, chan[q].value) ==>
          chan[q].value in owed)
    && (forall h, c :: 0 <= h < |harts| && Dropping(harts[h], c) && Cond(st, parent, ready, c) ==> c in owed)
  }

  ghost predicate NoZombieBelow(st: seq<ProcState>, parent: seq<Option<Pid>>, q: Option<Pid>, i: nat)
    requires |st| == |parent| == NPROC
  {
    forall k :: 0 <= k < i && k < NPROC && parent[k] == q ==> !st[k].Zombie?
  }

  /** What the code of a hart knows about the conditions whose lock it holds. */
  ghost predicate WatchOk(hp: HartPc, h: Hart, st: seq<ProcState>, parent: seq<Option<Pid>>, ready: set<Chan>,
                          owner: map<Lock, Hart>, swept: map<Chan, nat>, owed: set<Chan>)
    requires |st| == |parent| == NPROC
  {
    hp.Exec? ==>
      match hp.code
      case SleepLocked(c, _) => !Cond(st, parent, ready, c) && Settled(owed, LockOf(c))
      case Waking(c, i, _, r) =>
        && (Owns(owner, h, LockOf(c)) ==> i <= Swept(swept, c))
        && (r.ToReparent? ==> c == ChildOf(INIT) && forall d :: d in owed && LockOf(d) == WaitLock ==> d == c)
        && (r.ToExitLock? ==> hp.self.Some? && parent[hp.self.value].Some? && c == ChildOf(parent[hp.self.value].value)
                              && Settled(owed, WaitLock))
        && !r.ToWait?
      case Reparent(_) => Settled(owed, WaitLock)
      case ExitLock => Settled(owed, WaitLock) && ParentSwept(hp.self, parent, swept)
      case ExitZombie => Settled(owed, WaitLock) && ParentSwept(hp.self, parent, swept)
      case ExitRelease => Settled(owed, WaitLock)
      case WaitScan(i) => Settled(owed, WaitLock) && NoZombieBelow(st, parent, hp.self, i)
      case WaitLocked(k) => Settled(owed, WaitLock) && NoZombieBelow(st, parent, hp.self, k)
      case _ => true
  }

  ghost predicate ParentSwept(self: Option<Pid>, parent: seq<Option<Pid>>, swept: map<Chan, nat>)
    requires |parent| == NPROC
  {
    self.Some? && parent[self.value].Some? ==> Swept(swept, ChildOf(parent[self.value].value)) == NPROC
  }

  ghost predicate Watch(s: State)
    requires Sized(s)
  {
    forall h :: 0 <= h < |s.harts| ==> WatchOk(s.harts[h], h, s.st, s.parent, s.ready, s.owner, s.swept, s.owed)
  }

  /** Hart h has left alone the conditions whose lock another hart holds. */
  ghost predicate ForeignKept(s: State, s': State, h: Hart)
    requires Sized(s) && Sized(s')
  {
    && (forall l :: l in s'.owner && s'.owner[l] != h ==> l in s.owner && s.owner[l] == s'.owner[l])
    && (forall c :: LockOf(c) in s.owner && s.owner[LockOf(c)] != h ==>
          && Swept(s'.swept, c) == Swept(s.swept, c)
          && (c in s'.owed <==> c in s.owed) && (c in s'.ready <==> c in s.ready))
    && (WaitLock in s.owner && s.owner[WaitLock] != h ==>
          s'.parent == s.parent && forall k :: 0 <= k < NPROC ==> s'.st[k].Zombie? == s.st[k].Zombie?)
  }

  lemma Untouched(s: State, s': State, h: Hart)
    requires Sized(s) && Sized(s')
    requires s'.owner == s.owner && s'.swept == s.swept && s'.owed == s.owed && s'.ready == s.ready
    requires s'.parent == s.parent
    requires forall k :: 0 <= k < NPROC ==> s'.st[k].Zombie? == s.st[k].Zombie?
    ensures ForeignKept(s, s', h)
  {
  }

  // One hart moves; what that means for the others.

  lemma HartsMove(harts: seq<HartPc>, h: Hart, hp: HartPc, plock: seq<Option<Hart>>, plock': seq<Option<Hart>>,
                  st: seq<ProcState>, st': seq<ProcState>, chan: seq<Option<Chan>>, chan': seq<Option<Chan>>)
    requires HartsOk(harts, plock, st, chan) && h < |harts|
    requires |plock'| == |st'| == |chan'| == NPROC
    requires HartOk(hp, h, plock', st', chan')
    requires forall p :: 0 <= p < NPROC ==> plock'[p] == plock[p] || plock[p] == None || plock[p] == Some(h)
    requires forall p, g :: 0 <= p < NPROC && 0 <= g < |harts| && g != h && Executes(harts[g], p) ==>
               st'[p] == st[p] && chan'[p] == chan[p]
    ensures HartsOk(harts[h := hp], plock', st', chan')
  {
    forall g | 0 <= g < |harts| && g != h ensures HartOk(harts[g], g, plock', st', chan') {
      assert HartOk(harts[g], g, plock, st, chan);
      if harts[g].Exec? && harts[g].self.Some? {
        assert Executes(harts[g], harts[g].self.value);
      }
    }
  }

  lemma HartAt(harts: seq<HartPc>, plock: seq<Option<Hart>>, st: seq<ProcState>, chan: seq<Option<Chan>>, h: Hart)
    requires HartsOk(harts, plock, st, chan) && h < |harts|
    ensures |plock| == |st| == |chan| == NPROC && HartOk(harts[h], h, plock, st, chan)
  {
  }

  /** A process that another hart executes, and whose lock that hart does not hold, is RUNNING. */
  lemma OthersRun(harts: seq<HartPc>, plock: seq<Option<Hart>>, st: seq<ProcState>, chan: seq<Option<Chan>>, h: Hart,
                  i: Pid)
    requires HartsOk(harts, plock, st, chan) && (plock[i] == Some(h) || plock[i] == None)
    ensures forall g :: 0 <= g < |harts| && g != h && Executes(harts[g], i) ==> st[i].Running?
  {
    forall g | 0 <= g < |harts| && g != h && Executes(harts[g], i) ensures st[i].Running? {
      assert HartOk(harts[g], g, plock, st, chan);
    }
  }

  /** Hart h takes a step that makes no child; no child that is being made changes. */
  lemma ForksMove(harts: seq<HartPc>, h: Hart, hp: HartPc, st: seq<ProcState>, st': seq<ProcState>,
                  parent: seq<Option<Pid>>, parent': seq<Option<Pid>>, why: seq<Why>, why': seq<Why>,
                  forker: seq<Option<Pid>>)
    requires Forks(harts, st, parent, why, forker) && h < |harts| && |st'| == |parent'| == |why'| == NPROC
    requires hp.Exec? && harts[h].Exec? && hp.self == harts[h].self
    requires ForkIn(hp).None? || ForkIn(hp) == ForkIn(harts[h])
    requires hp.code.ForkLocked? ==> parent'[hp.code.k].None?
    requires forall k :: 0 <= k < NPROC && st[k].Used? ==> st'[k].Used?
    requires forall k :: 0 <= k < NPROC && st'[k].Unused? ==> parent'[k].None?
    requires forall k :: 0 <= k < NPROC && parent[k].None? ==> parent'[k].None?
    requires forall k :: 0 <= k < NPROC && ForkSaved(why'[k]).Some? ==> why'[k] == why[k]
    ensures Forks(harts[h := hp], st', parent', why', forker)
  {
    hide ForkIn, ForkSaved, ForkOf;
    var harts' := harts[h := hp];
    forall p | 0 <= p < NPROC && Away(harts', p) && ForkSaved(why'[p]).Some?
      ensures ForkMine(ForkSaved(why'[p]).value, p, st', forker)
    {
      forall g | 0 <= g < |harts| ensures !Executes(harts[g], p) {
        assert !Executes(harts'[g], p);
      }
    }
  }

  /** Hart h takes a step of its fork of k. */
  lemma ForksChild(harts: seq<HartPc>, h: Hart, hp: HartPc, k: Pid, st: seq<ProcState>, st': seq<ProcState>,
                   parent: seq<Option<Pid>>, parent': seq<Option<Pid>>, why: seq<Why>, why': seq<Why>,
                   forker: seq<Option<Pid>>, forker': seq<Option<Pid>>)
    requires Forks(harts, st, parent, why, forker) && Exclusive(harts) && h < |harts|
    requires |st'| == |parent'| == |why'| == |forker'| == NPROC
    requires hp.Exec? && harts[h].Exec? && hp.self.Some? && hp.self == harts[h].self
    requires forall q :: 0 <= q < NPROC && q != k ==>
      st'[q] == st[q] && parent'[q] == parent[q] && forker'[q] == forker[q]
    requires forall q :: 0 <= q < NPROC && why'[q] != why[q] ==> why'[q].Fresh?
    requires st[k].Unused? || forker[k] == hp.self
    requires ForkIn(hp).Some? ==> ForkIn(hp).value == k && ForkMine(k, hp.self.value, st', forker')
    requires hp.code.ForkLocked? || st'[k].Unused? ==> parent'[k].None?
    requires hp.code.ForkLocked? ==> hp.code.k == k
    ensures Forks(harts[h := hp], st', parent', why', forker')
  {
    hide ForkHere, Exclusive;
    OnlyHere(harts, h, hp.self.value);
    var harts' := harts[h := hp];
    forall g | 0 <= g < |harts| && g != h && ForkIn(harts[g]).Some? ensures ForkIn(harts[g]).value != k {
      assert Has(harts[g], harts[g].self.value);
    }
    forall g | 0 <= g < |harts| && g != h && harts[g].Exec? && harts[g].code.ForkLocked? ensures harts[g].code.k != k {
      LockedIn(harts[g]);
    }
    forall q | 0 <= q < NPROC && Away(harts', q) && ForkSaved(why'[q]).Some?
      ensures ForkMine(ForkSaved(why'[q]).value, q, st', forker')
    {
      assert !Executes(harts'[h], q);
      forall g | 0 <= g < |harts| ensures !Executes(harts[g], q) {
        assert !Executes(harts'[g], q);
      }
    }
  }

  lemma LockedIn(hp: HartPc)
    requires hp.Exec? && hp.code.ForkLocked?
    ensures ForkIn(hp) == Some(hp.code.k)
  {
  }

  lemma ForksKnown(harts: seq<HartPc>, st: seq<ProcState>, parent: seq<Option<Pid>>, why: seq<Why>,
                   forker: seq<Option<Pid>>)
    requires Forks(harts, st, parent, why, forker)
    ensures |st| == |parent| == |why| == |forker| == NPROC
    ensures forall k :: 0 <= k < NPROC && st[k].Unused? ==> parent[k].None?
    ensures forall h :: 0 <= h < |harts| && harts[h].Exec? && harts[h].code.ForkLocked? ==>
      parent[harts[h].code.k].None?
  {
  }

  lemma AwayMove(harts: seq<HartPc>, h: Hart, hp: HartPc, st: seq<ProcState>, st': seq<ProcState>,
                 chan: seq<Option<Chan>>, chan': seq<Option<Chan>>, why: seq<Why>, why': seq<Why>)
    requires AllAway(harts, st, chan, why) && h < |harts| && |st'| == |chan'| == |why'| == NPROC
    requires hp.Exec? && harts[h].Exec? && hp.self == harts[h].self
    requires forall q :: 0 <= q < NPROC && hp.self != Some(q) && AwayOk(st[q], chan[q], why[q], q) ==>
      AwayOk(st'[q], chan'[q], why'[q], q)
    ensures AllAway(harts[h := hp], st', chan', why')
  {
    hide AwayOk;
    var harts' := harts[h := hp];
    forall q | 0 <= q < NPROC && Away(harts', q) ensures AwayOk(st'[q], chan'[q], why'[q], q) {
      assert !Executes(harts'[h], q);
      forall g | 0 <= g < |harts| ensures !Executes(harts[g], q) {
        assert !Executes(harts'[g], q);
      }
    }
  }

  /** What a process's own code says about its state and the condition locks. */
  lemma OwnFacts(s: State, h: Hart)
    requires Sized(s) && h < |s.harts| && s.harts[h].Exec?
    requires HartsOk(s.harts, s.plock, s.st, s.chan) && Owners(s.harts, s.owner)
    ensures var code := s.harts[h].code;
      && (code.SleepLocked? ==> Owns(s.owner, h, LockOf(code.c)))
      && (InWaitOrExit(code) || code.Reparent? || (code.Waking? && !code.r.ToRun?) ==> Owns(s.owner, h, WaitLock))
      && (forall l :: l in s.owner && s.owner[l] == h ==> MayOwn(code, l))
      && (s.harts[h].self.Some? && !code.Leaving? && !code.ExitRelease? ==> s.st[s.harts[h].self.value].Running?)
      && (s.harts[h].self.None? || s.harts[h].below.Some? ==>
            code.Run? || code.Killing? || (code.Waking? && code.r.ToRun?))
      && (s.harts[h].below.Some? ==> LockFree(s.harts[h].below.value))
      && (code.Resumed? && code.w.FromYield? ==> LockFree(code.w.code))
      && (code.Reacquire? ==> code.r.ToRun? || (code.r.ToWait? && LockOf(code.c) == WaitLock))
  {
    HartAt(s.harts, s.plock, s.st, s.chan, h);
    var code := s.harts[h].code;
    assert code.SleepLocked? ==> MustOwn(code, LockOf(code.c));
    assert InWaitOrExit(code) || code.Reparent? || (code.Waking? && !code.r.ToRun?) ==> MustOwn(code, WaitLock);
  }

  lemma SchedOwns(harts: seq<HartPc>, owner: map<Lock, Hart>, h: Hart)
    requires Owners(harts, owner) && h < |harts|
    ensures !harts[h].Exec? || harts[h].code.Leaving? ==> OwnsNothing(owner, h)
  {
  }

  /** The p->locks the code of hart h holds. */
  lemma LocksHeld(harts: seq<HartPc>, plock: seq<Option<Hart>>, st: seq<ProcState>, chan: seq<Option<Chan>>, h: Hart)
    requires HartsOk(harts, plock, st, chan) && h < |harts|
    ensures harts[h].Picked? || harts[h].Back? ==> plock[harts[h].p] == Some(h)
    ensures harts[h].Exec? && harts[h].self.Some? && HoldsOwn(harts[h].code) ==> plock[harts[h].self.value] == Some(h)
    ensures harts[h].Exec? && OtherHeld(harts[h].code).Some? ==>
              OtherHeld(harts[h].code).value < NPROC && plock[OtherHeld(harts[h].code).value] == Some(h)
  {
    HartAt(harts, plock, st, chan, h);
  }

  lemma ForkFacts(s: State, h: Hart)
    requires InProcess(s, h) && HartsOk(s.harts, s.plock, s.st, s.chan)
    requires Forks(s.harts, s.st, s.parent, s.why, s.forker)
    ensures var code := s.harts[h].code;
      && (code.ForkLocked? ==> s.parent[code.k].None? && s.plock[code.k] == Some(h))
      && (ForkOf(code).Some? ==> s.st[ForkOf(code).value].Used? && s.forker[ForkOf(code).value] == s.harts[h].self)
    ensures !HoldsOwn(s.harts[h].code) ==> s.st[s.harts[h].self.value].Running?
  {
    HartAt(s.harts, s.plock, s.st, s.chan, h);
    assert ForkOf(s.harts[h].code).Some? ==> ForkIn(s.harts[h]) == ForkOf(s.harts[h].code);
  }

  /** A process the scheduler has picked, ready to run, is executed nowhere. */
  lemma PickedAway(harts: seq<HartPc>, plock: seq<Option<Hart>>, st: seq<ProcState>, chan: seq<Option<Chan>>, h: Hart)
    requires HartsOk(harts, plock, st, chan) && h < |harts| && harts[h].Picked? && st[harts[h].p].Runnable?
    ensures Away(harts, harts[h].p)
  {
    assert HartOk(harts[h], h, plock, st, chan);
    forall g | 0 <= g < |harts| ensures !Executes(harts[g], harts[h].p) {
      assert HartOk(harts[g], g, plock, st, chan);
    }
  }

  lemma OwnersMove(harts: seq<HartPc>, h: Hart, hp: HartPc, owner: map<Lock, Hart>, owner': map<Lock, Hart>)
    requires Owners(harts, owner) && h < |harts|
    requires forall l :: l in owner' && owner'[l] != h ==> l in owner && owner[l] == owner'[l]
    requires forall l :: l in owner && owner[l] != h ==> l in owner' && owner'[l] == owner[l]
    requires forall l :: l in owner' && owner'[l] == h ==> hp.Exec? && MayOwn(hp.code, l)
    requires forall l :: hp.Exec? && MustOwn(hp.code, l) ==> Owns(owner', h, l)
    ensures Owners(harts[h := hp], owner')
  {
  }

  /** Conditions depend on the ready set and on which processes are zombies of whom. */
  lemma CondSame(st: seq<ProcState>, parent: seq<Option<Pid>>, ready: set<Chan>,
                 st': seq<ProcState>, parent': seq<Option<Pid>>, ready': set<Chan>, c: Chan)
    requires |st| == |parent| == |st'| == |parent'| == NPROC
    requires c.Other? ==> (c in ready <==> c in ready')
    requires c.ChildOf? ==> forall k :: 0 <= k < NPROC ==>
               ((st[k].Zombie? && parent[k] == Some(c.q)) <==> (st'[k].Zombie? && parent'[k] == Some(c.q)))
    ensures Cond(st, parent, ready, c) == Cond(st', parent', ready', c)
  {
    if c.ChildOf? {
      ZombieStays(st, parent, st', parent', c.q);
      ZombieStays(st', parent', st, parent, c.q);
    }
  }

  lemma ZombieStays(st: seq<ProcState>, parent: seq<Option<Pid>>, st': seq<ProcState>, parent': seq<Option<Pid>>,
                    q: Pid)
    requires |st| == |parent| == |st'| == |parent'| == NPROC
    requires forall k :: 0 <= k < NPROC && st[k].Zombie? && parent[k] == Some(q) ==>
      st'[k].Zombie? && parent'[k] == Some(q)
    ensures HasZombie(st, parent, q) ==> HasZombie(st', parent', q)
  {
    if HasZombie(st, parent, q) {
      var k :| 0 <= k < |st| && k < |parent| && st[k].Zombie? && parent[k] == Some(q);
      assert st'[k].Zombie? && parent'[k] == Some(q);
    }
  }

  /** The other harts' knowledge survives. */
  lemma WatchOthers(s: State, s': State, h: Hart, g: Hart)
    requires Sized(s) && Sized(s') && Watch(s) && Owners(s.harts, s.owner) && ForeignKept(s, s', h)
    requires g < |s.harts| && g != h
    ensures WatchOk(s.harts[g], g, s'.st, s'.parent, s'.ready, s'.owner, s'.swept, s'.owed)
  {
    hide Cond, HasZombie;
    var hp := s.harts[g];
    assert WatchOk(hp, g, s.st, s.parent, s.ready, s.owner, s.swept, s.owed);
    if hp.Exec? {
      if hp.code.SleepLocked? {
        assert MustOwn(hp.code, LockOf(hp.code.c));
        CondSame(s.st, s.parent, s.ready, s'.st, s'.parent, s'.ready, hp.code.c);
      } else if !hp.code.Run? {
        assert MustOwn(hp.code, WaitLock) ==> Owns(s.owner, g, WaitLock);
      }
    }
  }

  /** No process falls asleep and none becomes a zombie child. */
  lemma NoLostMove(harts: seq<HartPc>, h: Hart, hp: HartPc, st: seq<ProcState>, st': seq<ProcState>,
                   chan: seq<Option<Chan>>, chan': seq<Option<Chan>>,
                   parent: seq<Option<Pid>>, parent': seq<Option<Pid>>,
                   ready: set<Chan>, owner: map<Lock, Hart>, owner': map<Lock, Hart>, owed: set<Chan>)
    requires NoLost(harts, st, chan, parent, ready, owner, owed) && h < |harts|
    requires |st'| == |chan'| == |parent'| == NPROC && forall l :: l in owner ==> l in owner'
    requires hp.Exec? ==> !hp.code.SleepReleased?
    requires forall q :: 0 <= q < NPROC && st'[q].Sleeping? ==> st[q].Sleeping? && chan'[q] == chan[q]
    requires forall k :: 0 <= k < NPROC && st'[k].Zombie? && parent'[k].Some? ==>
      st[k].Zombie? && parent'[k] == parent[k]
    ensures NoLost(harts[h := hp], st', chan', parent', ready, owner', owed)
  {
    hide HasZombie;
    forall q: Pid ensures HasZombie(st', parent', q) ==> HasZombie(st, parent, q) {
      ZombieStays(st', parent', st, parent, q);
    }
  }

  lemma SweptMove(harts: seq<HartPc>, h: Hart, hp: HartPc, st: seq<ProcState>, st': seq<ProcState>,
                  chan: seq<Option<Chan>>, chan': seq<Option<Chan>>, owner: map<Lock, Hart>, owner': map<Lock, Hart>,
                  swept: map<Chan, nat>)
    requires SweptOk(harts, st, chan, owner, swept) && h < |harts|
    requires |st'| == |chan'| == NPROC
    requires forall l :: l in owner ==> l in owner'
    requires forall q :: 0 <= q < NPROC && st'[q].Sleeping? ==> st[q].Sleeping? && chan'[q] == chan[q]
    requires hp.Exec? ==> !hp.code.SleepReleased?
    ensures SweptOk(harts[h := hp], st', chan', owner', swept)
  {
  }

  lemma SweptForget(harts: seq<HartPc>, st: seq<ProcState>, chan: seq<Option<Chan>>, owner: map<Lock, Hart>,
                    swept: map<Chan, nat>, l: Lock)
    requires SweptOk(harts, st, chan, owner, swept)
    ensures SweptOk(harts, st, chan, owner - {l}, Forget(swept, l))
  {
  }

  lemma SweptDrop(harts: seq<HartPc>, h: Hart, st: seq<ProcState>, chan: seq<Option<Chan>>, owner: map<Lock, Hart>,
                  swept: map<Chan, nat>, hp: HartPc, c: Chan)
    requires SweptOk(harts, st, chan, owner, swept) && h < |harts|
    requires hp.Exec? && hp.self.Some? && hp.code.SleepReleased? && hp.code.c == c
    ensures SweptOk(harts[h := hp], st, chan, owner - {LockOf(c)}, Forget(swept, LockOf(c)))
  {
  }

  lemma SweptSleep(harts: seq<HartPc>, h: Hart, st: seq<ProcState>, chan: seq<Option<Chan>>, owner: map<Lock, Hart>,
                   swept: map<Chan, nat>, hp: HartPc)
    requires SweptOk(harts, st, chan, owner, swept) && h < |harts|
    requires harts[h].Exec? && harts[h].self.Some? && harts[h].code.SleepReleased?
    requires hp.Exec? && !hp.code.SleepReleased?
    ensures SweptOk(harts[h := hp], st[harts[h].self.value := Sleeping],
                    chan[harts[h].self.value := Some(harts[h].code.c)], owner, swept)
  {
    assert Dropping(harts[h], harts[h].code.c);
  }

  lemma SweepOn(harts: seq<HartPc>, st: seq<ProcState>, chan: seq<Option<Chan>>, owner: map<Lock, Hart>,
                swept: map<Chan, nat>, h: Hart, c: Chan, i: nat)
    requires SweptOk(harts, st, chan, owner, swept) && i < NPROC
    requires !(st[i].Sleeping? && chan[i] == Some(c))
    requires forall g :: 0 <= g < |harts| && Dropping(harts[g], c) ==> harts[g].self.value != i
    ensures SweptOk(harts, st, chan, owner, Sweep(swept, owner, h, c, i))
  {
  }

  /** A process whose lock another hart holds, or that runs elsewhere, is not dropping off here. */
  lemma NotDropping(harts: seq<HartPc>, plock: seq<Option<Hart>>, st: seq<ProcState>, chan: seq<Option<Chan>>,
                    h: Hart, c: Chan, i: Pid, g: Hart)
    requires HartsOk(harts, plock, st, chan) && Exclusive(harts) && h < |harts| && g < |harts|
    requires plock[i] == Some(h) || Has(harts[h], i)
    requires !Dropping(harts[h], c)
    ensures Dropping(harts[g], c) ==> harts[g].self.value != i
  {
    if Dropping(harts[g], c) && harts[g].self.value == i {
      assert HartOk(harts[g], g, plock, st, chan);
      assert Has(harts[g], i);
    }
  }

  lemma WakeHolds(s: State, h: Hart)
    requires Sized(s) && HartsOk(s.harts, s.plock, s.st, s.chan) && h < |s.harts|
    requires s.harts[h].Exec? && s.harts[h].code.Waking? && s.harts[h].code.locked
    ensures s.harts[h].code.i < NPROC && s.plock[s.harts[h].code.i] == Some(h)
  {
    assert HartOk(s.harts[h], h, s.plock, s.st, s.chan);
  }

  lemma SleepFacts(s: State, h: Hart)
    requires InProcess(s, h) && HartsOk(s.harts, s.plock, s.st, s.chan) && Watch(s)
    ensures var code := s.harts[h].code;
      && (code.SleepLocked? ==> !Cond(s.st, s.parent, s.ready, code.c) && Settled(s.owed, LockOf(code.c)))
      && (!code.Leaving? && !code.ExitRelease? ==> s.st[s.harts[h].self.value].Running?)
      && (code.Resumed? && code.w.FromYield? ==> LockFree(code.w.code))
  {
    assert WatchOk(s.harts[h], h, s.st, s.parent, s.ready, s.owner, s.swept, s.owed);
    assert HartOk(s.harts[h], h, s.plock, s.st, s.chan);
  }

  ghost predicate InWaitOrExit(code: Code) {
    code.ExitLock? || code.ExitZombie? || code.ExitRelease? || code.WaitScan? || code.WaitLocked?
  }

  lemma ExitFacts(s: State, h: Hart)
    requires InProcess(s, h) && HartsOk(s.harts, s.plock, s.st, s.chan) && Owners(s.harts, s.owner) && Watch(s)
    ensures var code := s.harts[h].code;
      && (InWaitOrExit(code) ==> Owns(s.owner, h, WaitLock) && Settled(s.owed, WaitLock))
      && (code.ExitZombie? ==> s.st[s.harts[h].self.value].Running?)
  {
    assert WatchOk(s.harts[h], h, s.st, s.parent, s.ready, s.owner, s.swept, s.owed);
    assert HartOk(s.harts[h], h, s.plock, s.st, s.chan);
    assert InWaitOrExit(s.harts[h].code) ==> MustOwn(s.harts[h].code, WaitLock);
  }

  /** Nobody but hart h runs p. */
  lemma OnlyHere(harts: seq<HartPc>, h: Hart, p: nat)
    requires Exclusive(harts) && h < |harts| && Has(harts[h], p)
    ensures forall g :: 0 <= g < |harts| && g != h ==> !Has(harts[g], p) && !Executes(harts[g], p)
  {
  }

  lemma SchedKeepsOwn(s: State, s': State, h: Hart, a: Action)
    requires SchedNext(s, s', h, a)
    requires HartsOk(s.harts, s.plock, s.st, s.chan) && Exclusive(s.harts) && AllAway(s.harts, s.st, s.chan, s.why)
    ensures Sized(s') && HartOk(s'.harts[h], h, s'.plock, s'.st, s'.chan)
  {
    hide HartsOk, Exclusive, Sweep, Owe, Forget, Settled, OwnsNothing, Owns, Cond;
    HartAt(s.harts, s.plock, s.st, s.chan, h);
    if a.SchedRun? {
      PickedAway(s.harts, s.plock, s.st, s.chan, h);
    }
  }

  lemma SchedKeepsHarts(s: State, s': State, h: Hart, a: Action)
    requires SchedNext(s, s', h, a)
    requires HartsOk(s.harts, s.plock, s.st, s.chan) && Exclusive(s.harts) && AllAway(s.harts, s.st, s.chan, s.why)
    ensures HartsOk(s'.harts, s'.plock, s'.st, s'.chan)
  {
    hide HartsOk, HartOk, Exclusive, Forks, AllAway, Sweep, Owe, Forget, Settled, OwnsNothing, Owns, Cond;
    SchedKeepsOwn(s, s', h, a);
    LocksHeld(s.harts, s.plock, s.st, s.chan, h);
    if a.SchedRun? {
      PickedAway(s.harts, s.plock, s.st, s.chan, h);
    }
    HartsMove(s.harts, h, s'.harts[h], s.plock, s'.plock, s.st, s'.st, s.chan, s'.chan);
    assert s.harts[h := s'.harts[h]] == s'.harts;
  }

  lemma SchedKeepsExclusive(s: State, s': State, h: Hart, a: Action)
    requires SchedNext(s, s', h, a)
    requires HartsOk(s.harts, s.plock, s.st, s.chan) && Exclusive(s.harts)
    ensures Exclusive(s'.harts)
  {
    hide Sweep, Owe, Forget, Settled, OwnsNothing, Owns, Cond;
  }

  lemma SchedKeepsAway(s: State, s': State, h: Hart, a: Action)
    requires SchedNext(s, s', h, a)
    requires HartsOk(s.harts, s.plock, s.st, s.chan) && Exclusive(s.harts) && AllAway(s.harts, s.st, s.chan, s.why)
    ensures AllAway(s'.harts, s'.st, s'.chan, s'.why)
  {
    hide Sweep, Owe, Forget, Settled, OwnsNothing, Owns, Cond;
    assert HartOk(s.harts[h], h, s.plock, s.st, s.chan);
    forall q | 0 <= q < NPROC && Away(s'.harts, q) ensures AwayOk(s'.st[q], s'.chan[q], s'.why[q], q) {
      assert !Executes(s'.harts[h], q);
      if !Executes(s.harts[h], q) {
        forall g | 0 <= g < |s.harts| ensures !Executes(s.harts[g], q) {
          assert g != h ==> !Executes(s'.harts[g], q);
        }
      }
    }
  }

  lemma SchedKeepsForks(s: State, s': State, h: Hart, a: Action)
    requires SchedNext(s, s', h, a)
    requires HartsOk(s.harts, s.plock, s.st, s.chan) && Exclusive(s.harts)
    requires Forks(s.harts, s.st, s.parent, s.why, s.forker)
    ensures Forks(s'.harts, s'.st, s'.parent, s'.why, s'.forker)
  {
    hide HartsOk, Exclusive, Sweep, Owe, Forget, Settled, OwnsNothing, Owns, Cond;
    HartAt(s.harts, s.plock, s.st, s.chan, h);
    if a.SchedRun? {
      PickedAway(s.harts, s.plock, s.st, s.chan, h);
    }
    forall q | 0 <= q < NPROC && Away(s'.harts, q) && ForkSaved(s'.why[q]).Some?
      ensures ForkMine(ForkSaved(s'.why[q]).value, q, s'.st, s'.forker)
    {
      assert !Executes(s'.harts[h], q);
      if !Executes(s.harts[h], q) {
        forall g | 0 <= g < |s.harts| ensures !Executes(s.harts[g], q) {
          assert g != h ==> !Executes(s'.harts[g], q);
        }
      }
    }
  }

  lemma SchedKeepsHeld(s: State, s': State, h: Hart, a: Action)
    requires SchedNext(s, s', h, a)
    requires HartsOk(s.harts, s.plock, s.st, s.chan) && Held(s.harts, s.plock)
    ensures Held(s'.harts, s'.plock)
  {
    hide Sweep, Owe, Forget, Settled, OwnsNothing, Owns, Cond;
    assert HartOk(s.harts[h], h, s.plock, s.st, s.chan);
  }

  lemma SchedKeepsDeaths(s: State, s': State, h: Hart, a: Action)
    requires SchedNext(s, s', h, a)
    requires HartsOk(s.harts, s.plock, s.st, s.chan) && Deaths(s.st, s.died, s.reaped)
    ensures Deaths(s'.st, s'.died, s'.reaped)
  {
    hide Sweep, Owe, Forget, Settled, OwnsNothing, Owns, Cond;
    assert HartOk(s.harts[h], h, s.plock, s.st, s.chan);
  }

  lemma SchedKeepsOwners(s: State, s': State, h: Hart, a: Action)
    requires SchedNext(s, s', h, a)
    requires HartsOk(s.harts, s.plock, s.st, s.chan) && Owners(s.harts, s.owner)
    ensures Owners(s'.harts, s'.owner)
  {
    hide HartsOk, Owners, Sweep, Owe, Forget, Settled, Cond, Woken;
    SchedOwns(s.harts, s.owner, h);
    OwnersMove(s.harts, h, s'.harts[h], s.owner, s'.owner);
    assert s.harts[h := s'.harts[h]] == s'.harts;
  }

  lemma TrapKeepsOwn(s: State, s': State, h: Hart, a: Action)
    requires TrapNext(s, s', h, a)
    requires HartsOk(s.harts, s.plock, s.st, s.chan)
    ensures Sized(s') && HartOk(s'.harts[h], h, s'.plock, s'.st, s'.chan)
  {
    hide HartsOk, Forks, Exclusive, Sweep, Owe, Forget, Settled, OwnsNothing, Owns, Cond;
    HartAt(s.harts, s.plock, s.st, s.chan, h);
  }

  lemma TrapKeepsHarts(s: State, s': State, h: Hart, a: Action)
    requires TrapNext(s, s', h, a)
    requires HartsOk(s.harts, s.plock, s.st, s.chan) && Exclusive(s.harts)
    ensures HartsOk(s'.harts, s'.plock, s'.st, s'.chan)
  {
    hide HartsOk, HartOk, Exclusive, Forks, AllAway, Sweep, Owe, Forget, Settled, OwnsNothing, Owns, Cond;
    TrapKeepsOwn(s, s', h, a);
    OnlyHere(s.harts, h, s.harts[h].self.value);
    LocksHeld(s.harts, s.plock, s.st, s.chan, h);
    HartsMove(s.harts, h, s'.harts[h], s.plock, s'.plock, s.st, s'.st, s.chan, s'.chan);
    assert s.harts[h := s'.harts[h]] == s'.harts;
  }

  lemma TrapKeepsExclusive(s: State, s': State, h: Hart, a: Action)
    requires TrapNext(s, s', h, a)
    requires Exclusive(s.harts)
    ensures Exclusive(s'.harts)
  {
    hide Sweep, Owe, Forget, Settled, OwnsNothing, Owns, Cond;
  }

  lemma TrapKeepsAway(s: State, s': State, h: Hart, a: Action)
    requires TrapNext(s, s', h, a)
    requires HartsOk(s.harts, s.plock, s.st, s.chan) && Exclusive(s.harts) && AllAway(s.harts, s.st, s.chan, s.why)
    ensures AllAway(s'.harts, s'.st, s'.chan, s'.why)
  {
    hide HartsOk, Exclusive, AllAway, Forks, Sweep, Owe, Forget, Settled, OwnsNothing, Owns, Cond;
    HartAt(s.harts, s.plock, s.st, s.chan, h);
    AwayMove(s.harts, h, s'.harts[h], s.st, s'.st, s.chan, s'.chan, s.why, s'.why);
    assert s.harts[h := s'.harts[h]] == s'.harts;
  }

  lemma TrapKeepsForks(s: State, s': State, h: Hart, a: Action)
    requires TrapNext(s, s', h, a)
    requires HartsOk(s.harts, s.plock, s.st, s.chan) && Forks(s.harts, s.st, s.parent, s.why, s.forker)
    ensures Forks(s'.harts, s'.st, s'.parent, s'.why, s'.forker)
  {
    hide HartsOk, Forks, Sweep, Owe, Forget, Settled, OwnsNothing, Owns, Cond;
    HartAt(s.harts, s.plock, s.st, s.chan, h);
    ForksKnown(s.harts, s.st, s.parent, s.why, s.forker);
    ForksMove(s.harts, h, s'.harts[h], s.st, s'.st, s.parent, s'.parent, s.why, s'.why, s.forker);
    assert s.harts[h := s'.harts[h]] == s'.harts;
  }

  lemma TrapKeepsHeld(s: State, s': State, h: Hart, a: Action)
    requires TrapNext(s, s', h, a)
    requires HartsOk(s.harts, s.plock, s.st, s.chan) && Held(s.harts, s.plock)
    ensures Held(s'.harts, s'.plock)
  {
    hide Sweep, Owe, Forget, Settled, OwnsNothing, Owns, Cond;
    assert HartOk(s.harts[h], h, s.plock, s.st, s.chan);
  }

  lemma TrapKeepsDeaths(s: State, s': State, h: Hart, a: Action)
    requires TrapNext(s, s', h, a)
    requires HartsOk(s.harts, s.plock, s.st, s.chan) && Deaths(s.st, s.died, s.reaped)
    ensures Deaths(s'.st, s'.died, s'.reaped)
  {
    hide Sweep, Owe, Forget, Settled, OwnsNothing, Owns, Cond;
    assert HartOk(s.harts[h], h, s.plock, s.st, s.chan);
  }

  lemma TrapKeepsOwners(s: State, s': State, h: Hart, a: Action)
    requires TrapNext(s, s', h, a)
    requires HartsOk(s.harts, s.plock, s.st, s.chan) && Owners(s.harts, s.owner)
    ensures Owners(s'.harts, s'.owner)
  {
    hide HartsOk, Owners, Sweep, Owe, Forget, Settled, Cond, Woken;
    OwnFacts(s, h);
    OwnersMove(s.harts, h, s'.harts[h], s.owner, s'.owner);
    assert s.harts[h := s'.harts[h]] == s'.harts;
  }

  lemma ClientKeepsOwn(s: State, s': State, h: Hart, a: Action)
    requires ClientNext(s, s', h, a)
    requires HartsOk(s.harts, s.plock, s.st, s.chan)
    ensures Sized(s') && HartOk(s'.harts[h], h, s'.plock, s'.st, s'.chan)
  {
    hide HartsOk, Forks, Exclusive, Sweep, Owe, Forget, Settled, OwnsNothing, Owns, Cond;
    HartAt(s.harts, s.plock, s.st, s.chan, h);
  }

  lemma ClientKeepsHarts(s: State, s': State, h: Hart, a: Action)
    requires ClientNext(s, s', h, a)
    requires HartsOk(s.harts, s.plock, s.st, s.chan) && Exclusive(s.harts)
    ensures HartsOk(s'.harts, s'.plock, s'.st, s'.chan)
  {
    hide HartsOk, HartOk, Exclusive, Forks, AllAway, Sweep, Owe, Forget, Settled, OwnsNothing, Owns, Cond;
    ClientKeepsOwn(s, s', h, a);
    LocksHeld(s.harts, s.plock, s.st, s.chan, h);
    if a.KillSet? {
      OthersRun(s.harts, s.plock, s.st, s.chan, h, s.harts[h].code.q);
    }
    HartsMove(s.harts, h, s'.harts[h], s.plock, s'.plock, s.st, s'.st, s.chan, s'.chan);
    assert s.harts[h := s'.harts[h]] == s'.harts;
  }

  lemma ClientKeepsExclusive(s: State, s': State, h: Hart, a: Action)
    requires ClientNext(s, s', h, a)
    requires Exclusive(s.harts)
    ensures Exclusive(s'.harts)
  {
    hide Sweep, Owe, Forget, Settled, OwnsNothing, Owns, Cond;
  }

  lemma ClientKeepsAway(s: State, s': State, h: Hart, a: Action)
    requires ClientNext(s, s', h, a)
    requires HartsOk(s.harts, s.plock, s.st, s.chan) && Exclusive(s.harts) && AllAway(s.harts, s.st, s.chan, s.why)
    ensures AllAway(s'.harts, s'.st, s'.chan, s'.why)
  {
    hide HartsOk, Exclusive, AllAway, Forks, Sweep, Owe, Forget, Settled, OwnsNothing, Owns, Cond;
    HartAt(s.harts, s.plock, s.st, s.chan, h);
    AwayMove(s.harts, h, s'.harts[h], s.st, s'.st, s.chan, s'.chan, s.why, s'.why);
    assert s.harts[h := s'.harts[h]] == s'.harts;
  }

  lemma ClientKeepsForks(s: State, s': State, h: Hart, a: Action)
    requires ClientNext(s, s', h, a)
    requires Forks(s.harts, s.st, s.parent, s.why, s.forker)
    ensures Forks(s'.harts, s'.st, s'.parent, s'.why, s'.forker)
  {
    hide HartsOk, Forks, Sweep, Owe, Forget, Settled, OwnsNothing, Owns, Cond;
    ForksKnown(s.harts, s.st, s.parent, s.why, s.forker);
    ForksMove(s.harts, h, s'.harts[h], s.st, s'.st, s.parent, s'.parent, s.why, s'.why, s.forker);
    assert s.harts[h := s'.harts[h]] == s'.harts;
  }

  lemma ClientKeepsHeld(s: State, s': State, h: Hart, a: Action)
    requires ClientNext(s, s', h, a)
    requires HartsOk(s.harts, s.plock, s.st, s.chan) && Held(s.harts, s.plock)
    ensures Held(s'.harts, s'.plock)
  {
    hide Sweep, Owe, Forget, Settled, OwnsNothing, Owns, Cond;
    assert HartOk(s.harts[h], h, s.plock, s.st, s.chan);
  }

  lemma ClientKeepsDeaths(s: State, s': State, h: Hart, a: Action)
    requires ClientNext(s, s', h, a)
    requires HartsOk(s.harts, s.plock, s.st, s.chan) && Deaths(s.st, s.died, s.reaped)
    ensures Deaths(s'.st, s'.died, s'.reaped)
  {
    hide Sweep, Owe, Forget, Settled, OwnsNothing, Owns, Cond;
    assert HartOk(s.harts[h], h, s.plock, s.st, s.chan);
  }

  lemma ClientKeepsOwners(s: State, s': State, h: Hart, a: Action)
    requires ClientNext(s, s', h, a)
    requires HartsOk(s.harts, s.plock, s.st, s.chan) && Owners(s.harts, s.owner)
    ensures Owners(s'.harts, s'.owner)
  {
    hide HartsOk, Owners, Sweep, Owe, Forget, Settled, Cond, Woken;
    OwnFacts(s, h);
    OwnersMove(s.harts, h, s'.harts[h], s.owner, s'.owner);
    assert s.harts[h := s'.harts[h]] == s'.harts;
  }

  lemma WakeKeepsOwn(s: State, s': State, h: Hart, a: Action)
    requires WakeNext(s, s', h, a)
    requires HartsOk(s.harts, s.plock, s.st, s.chan)
    ensures Sized(s') && HartOk(s'.harts[h], h, s'.plock, s'.st, s'.chan)
  {
    hide HartsOk, Forks, Exclusive, Sweep, Owe, Forget, Settled, OwnsNothing, Owns, Cond;
    HartAt(s.harts, s.plock, s.st, s.chan, h);
  }

  lemma WakeKeepsHarts(s: State, s': State, h: Hart, a: Action)
    requires WakeNext(s, s', h, a)
    requires HartsOk(s.harts, s.plock, s.st, s.chan) && Exclusive(s.harts)
    ensures HartsOk(s'.harts, s'.plock, s'.st, s'.chan)
  {
    hide HartsOk, HartOk, Exclusive, Forks, AllAway, Sweep, Owe, Forget, Settled, OwnsNothing, Owns, Cond;
    WakeKeepsOwn(s, s', h, a);
    LocksHeld(s.harts, s.plock, s.st, s.chan, h);
    if a.WakeVisit? {
      OthersRun(s.harts, s.plock, s.st, s.chan, h, s.harts[h].code.i);
    }
    HartsMove(s.harts, h, s'.harts[h], s.plock, s'.plock, s.st, s'.st, s.chan, s'.chan);
    assert s.harts[h := s'.harts[h]] == s'.harts;
  }

  lemma WakeKeepsExclusive(s: State, s': State, h: Hart, a: Action)
    requires WakeNext(s, s', h, a)
    requires Exclusive(s.harts)
    ensures Exclusive(s'.harts)
  {
    hide Sweep, Owe, Forget, Settled, OwnsNothing, Owns, Cond;
  }

  lemma WakeKeepsAway(s: State, s': State, h: Hart, a: Action)
    requires WakeNext(s, s', h, a)
    requires HartsOk(s.harts, s.plock, s.st, s.chan) && Exclusive(s.harts) && AllAway(s.harts, s.st, s.chan, s.why)
    ensures AllAway(s'.harts, s'.st, s'.chan, s'.why)
  {
    hide HartsOk, Exclusive, AllAway, Forks, Sweep, Owe, Forget, Settled, OwnsNothing, Owns, Cond;
    HartAt(s.harts, s.plock, s.st, s.chan, h);
    AwayMove(s.harts, h, s'.harts[h], s.st, s'.st, s.chan, s'.chan, s.why, s'.why);
    assert s.harts[h := s'.harts[h]] == s'.harts;
  }

  lemma WakeKeepsForks(s: State, s': State, h: Hart, a: Action)
    requires WakeNext(s, s', h, a)
    requires Forks(s.harts, s.st, s.parent, s.why, s.forker)
    ensures Forks(s'.harts, s'.st, s'.parent, s'.why, s'.forker)
  {
    hide HartsOk, Forks, Sweep, Owe, Forget, Settled, OwnsNothing, Owns, Cond;
    ForksKnown(s.harts, s.st, s.parent, s.why, s.forker);
    ForksMove(s.harts, h, s'.harts[h], s.st, s'.st, s.parent, s'.parent, s.why, s'.why, s.forker);
    assert s.harts[h := s'.harts[h]] == s'.harts;
  }

  lemma WakeKeepsHeld(s: State, s': State, h: Hart, a: Action)
    requires WakeNext(s, s', h, a)
    requires HartsOk(s.harts, s.plock, s.st, s.chan) && Held(s.harts, s.plock)
    ensures Held(s'.harts, s'.plock)
  {
    hide Sweep, Owe, Forget, Settled, OwnsNothing, Owns, Cond;
    assert HartOk(s.harts[h], h, s.plock, s.st, s.chan);
  }

  lemma WakeKeepsDeaths(s: State, s': State, h: Hart, a: Action)
    requires WakeNext(s, s', h, a)
    requires HartsOk(s.harts, s.plock, s.st, s.chan) && Deaths(s.st, s.died, s.reaped)
    ensures Deaths(s'.st, s'.died, s'.reaped)
  {
    hide Sweep, Owe, Forget, Settled, OwnsNothing, Owns, Cond;
    assert HartOk(s.harts[h], h, s.plock, s.st, s.chan);
  }

  lemma WakeKeepsOwners(s: State, s': State, h: Hart, a: Action)
    requires WakeNext(s, s', h, a)
    requires HartsOk(s.harts, s.plock, s.st, s.chan) && Owners(s.harts, s.owner)
    ensures Owners(s'.harts, s'.owner)
  {
    hide HartsOk, Owners, Sweep, Owe, Forget, Settled, Cond, Woken;
    OwnFacts(s, h);
    OwnersMove(s.harts, h, s'.harts[h], s.owner, s'.owner);
    assert s.harts[h := s'.harts[h]] == s'.harts;
  }

  lemma SleepKeepsOwnDown(s: State, s': State, h: Hart, a: Action)
    requires SleepNext(s, s', h, a)
    requires HartsOk(s.harts, s.plock, s.st, s.chan) && (a.CallSleep? || a.SleepUnlock? || a.SleepSet?)
    ensures Sized(s') && HartOk(s'.harts[h], h, s'.plock, s'.st, s'.chan)
  {
    hide HartsOk, Forks, Exclusive, Sweep, Owe, Forget, Settled, OwnsNothing, Owns, Cond;
    HartAt(s.harts, s.plock, s.st, s.chan, h);
  }

  lemma SleepKeepsOwnUp(s: State, s': State, h: Hart, a: Action)
    requires SleepNext(s, s', h, a)
    requires HartsOk(s.harts, s.plock, s.st, s.chan) && !a.CallSleep? && !a.SleepUnlock? && !a.SleepSet?
    ensures Sized(s') && HartOk(s'.harts[h], h, s'.plock, s'.st, s'.chan)
  {
    hide HartsOk, Forks, Exclusive, Sweep, Owe, Forget, Settled, OwnsNothing, Owns, Cond;
    HartAt(s.harts, s.plock, s.st, s.chan, h);
  }

  lemma SleepKeepsOwn(s: State, s': State, h: Hart, a: Action)
    requires SleepNext(s, s', h, a)
    requires HartsOk(s.harts, s.plock, s.st, s.chan)
    ensures Sized(s') && HartOk(s'.harts[h], h, s'.plock, s'.st, s'.chan)
  {
    hide SleepNext, HartsOk, HartOk;
    if a.CallSleep? || a.SleepUnlock? || a.SleepSet? {
      SleepKeepsOwnDown(s, s', h, a);
    } else {
      SleepKeepsOwnUp(s, s', h, a);
    }
  }

  lemma SleepKeepsHarts(s: State, s': State, h: Hart, a: Action)
    requires SleepNext(s, s', h, a)
    requires HartsOk(s.harts, s.plock, s.st, s.chan) && Exclusive(s.harts)
    ensures HartsOk(s'.harts, s'.plock, s'.st, s'.chan)
  {
    hide HartsOk, HartOk, Exclusive, Forks, AllAway, Sweep, Owe, Forget, Settled, OwnsNothing, Owns, Cond;
    SleepKeepsOwn(s, s', h, a);
    OnlyHere(s.harts, h, s.harts[h].self.value);
    LocksHeld(s.harts, s.plock, s.st, s.chan, h);
    HartsMove(s.harts, h, s'.harts[h], s.plock, s'.plock, s.st, s'.st, s.chan, s'.chan);
    assert s.harts[h := s'.harts[h]] == s'.harts;
  }

  lemma SleepKeepsExclusive(s: State, s': State, h: Hart, a: Action)
    requires SleepNext(s, s', h, a)
    requires Exclusive(s.harts)
    ensures Exclusive(s'.harts)
  {
    hide Sweep, Owe, Forget, Settled, OwnsNothing, Owns, Cond;
  }

  lemma SleepKeepsAway(s: State, s': State, h: Hart, a: Action)
    requires SleepNext(s, s', h, a)
    requires HartsOk(s.harts, s.plock, s.st, s.chan) && Exclusive(s.harts) && AllAway(s.harts, s.st, s.chan, s.why)
    ensures AllAway(s'.harts, s'.st, s'.chan, s'.why)
  {
    hide HartsOk, Exclusive, AllAway, Forks, Sweep, Owe, Forget, Settled, OwnsNothing, Owns, Cond;
    HartAt(s.harts, s.plock, s.st, s.chan, h);
    AwayMove(s.harts, h, s'.harts[h], s.st, s'.st, s.chan, s'.chan, s.why, s'.why);
    assert s.harts[h := s'.harts[h]] == s'.harts;
  }

  lemma SleepKeepsForks(s: State, s': State, h: Hart, a: Action)
    requires SleepNext(s, s', h, a)
    requires HartsOk(s.harts, s.plock, s.st, s.chan) && Forks(s.harts, s.st, s.parent, s.why, s.forker)
    ensures Forks(s'.harts, s'.st, s'.parent, s'.why, s'.forker)
  {
    hide HartsOk, Forks, Sweep, Owe, Forget, Settled, OwnsNothing, Owns, Cond;
    HartAt(s.harts, s.plock, s.st, s.chan, h);
    ForksKnown(s.harts, s.st, s.parent, s.why, s.forker);
    ForksMove(s.harts, h, s'.harts[h], s.st, s'.st, s.parent, s'.parent, s.why, s'.why, s.forker);
    assert s.harts[h := s'.harts[h]] == s'.harts;
  }

  lemma SleepKeepsHeld(s: State, s': State, h: Hart, a: Action)
    requires SleepNext(s, s', h, a)
    requires HartsOk(s.harts, s.plock, s.st, s.chan) && Held(s.harts, s.plock)
    ensures Held(s'.harts, s'.plock)
  {
    hide Sweep, Owe, Forget, Settled, OwnsNothing, Owns, Cond;
    assert HartOk(s.harts[h], h, s.plock, s.st, s.chan);
  }

  lemma SleepKeepsDeaths(s: State, s': State, h: Hart, a: Action)
    requires SleepNext(s, s', h, a)
    requires HartsOk(s.harts, s.plock, s.st, s.chan) && Deaths(s.st, s.died, s.reaped)
    ensures Deaths(s'.st, s'.died, s'.reaped)
  {
    hide Sweep, Owe, Forget, Settled, OwnsNothing, Owns, Cond;
    assert HartOk(s.harts[h], h, s.plock, s.st, s.chan);
  }

  lemma SleepKeepsOwners(s: State, s': State, h: Hart, a: Action)
    requires SleepNext(s, s', h, a)
    requires HartsOk(s.harts, s.plock, s.st, s.chan) && Owners(s.harts, s.owner)
    ensures Owners(s'.harts, s'.owner)
  {
    hide HartsOk, Owners, Sweep, Owe, Forget, Settled, Cond, Woken;
    OwnFacts(s, h);
    if a.CallSleep? {
      assert forall l :: l in s.owner && l != LockOf(a.c) ==> l in s.owner - {LockOf(a.c)};
    }
    OwnersMove(s.harts, h, s'.harts[h], s.owner, s'.owner);
    assert s.harts[h := s'.harts[h]] == s'.harts;
  }

  lemma ForkKeepsOwn(s: State, s': State, h: Hart, a: Action)
    requires ForkNext(s, s', h, a)
    requires HartsOk(s.harts, s.plock, s.st, s.chan) && Forks(s.harts, s.st, s.parent, s.why, s.forker)
    ensures Sized(s') && HartOk(s'.harts[h], h, s'.plock, s'.st, s'.chan)
  {
    hide HartsOk, Forks, Exclusive, Sweep, Owe, Forget, Settled, OwnsNothing, Owns, Cond;
    HartAt(s.harts, s.plock, s.st, s.chan, h);
    ForkFacts(s, h);
  }

  lemma ForkKeepsHarts(s: State, s': State, h: Hart, a: Action)
    requires ForkNext(s, s', h, a)
    requires HartsOk(s.harts, s.plock, s.st, s.chan) && Exclusive(s.harts)
    requires Forks(s.harts, s.st, s.parent, s.why, s.forker)
    ensures HartsOk(s'.harts, s'.plock, s'.st, s'.chan)
  {
    hide HartsOk, HartOk, Exclusive, Forks, AllAway, Sweep, Owe, Forget, Settled, OwnsNothing, Owns, Cond;
    ForkKeepsOwn(s, s', h, a);
    OnlyHere(s.harts, h, s.harts[h].self.value);
    LocksHeld(s.harts, s.plock, s.st, s.chan, h);
    ForkFacts(s, h);
    if a.ForkAlloc? {
      OthersRun(s.harts, s.plock, s.st, s.chan, h, a.k);
    } else if a.ForkGo? || a.ForkFail? {
      OthersRun(s.harts, s.plock, s.st, s.chan, h, s.harts[h].code.k);
    }
    HartsMove(s.harts, h, s'.harts[h], s.plock, s'.plock, s.st, s'.st, s.chan, s'.chan);
    assert s.harts[h := s'.harts[h]] == s'.harts;
  }

  lemma ForkKeepsExclusive(s: State, s': State, h: Hart, a: Action)
    requires ForkNext(s, s', h, a)
    requires Exclusive(s.harts)
    ensures Exclusive(s'.harts)
  {
    hide Sweep, Owe, Forget, Settled, OwnsNothing, Owns, Cond;
  }

  lemma ForkKeepsAway(s: State, s': State, h: Hart, a: Action)
    requires ForkNext(s, s', h, a)
    requires HartsOk(s.harts, s.plock, s.st, s.chan) && Exclusive(s.harts) && AllAway(s.harts, s.st, s.chan, s.why)
    requires Forks(s.harts, s.st, s.parent, s.why, s.forker)
    ensures AllAway(s'.harts, s'.st, s'.chan, s'.why)
  {
    hide HartsOk, Exclusive, AllAway, Forks, Sweep, Owe, Forget, Settled, OwnsNothing, Owns, Cond;
    ForkFacts(s, h);
    AwayMove(s.harts, h, s'.harts[h], s.st, s'.st, s.chan, s'.chan, s.why, s'.why);
    assert s.harts[h := s'.harts[h]] == s'.harts;
  }

  lemma ForkKeepsForks(s: State, s': State, h: Hart, a: Action)
    requires ForkNext(s, s', h, a)
    requires HartsOk(s.harts, s.plock, s.st, s.chan) && Exclusive(s.harts)
    requires Forks(s.harts, s.st, s.parent, s.why, s.forker)
    ensures Forks(s'.harts, s'.st, s'.parent, s'.why, s'.forker)
  {
    hide HartsOk, Forks, Exclusive, OwnsNothing;
    ForkFacts(s, h);
    ForksKnown(s.harts, s.st, s.parent, s.why, s.forker);
    var k := if a.ForkAlloc? then a.k else s.harts[h].code.k;
    ForksChild(s.harts, h, s'.harts[h], k, s.st, s'.st, s.parent, s'.parent, s.why, s'.why, s.forker, s'.forker);
    assert s.harts[h := s'.harts[h]] == s'.harts;
  }

  lemma ForkKeepsHeld(s: State, s': State, h: Hart, a: Action)
    requires ForkNext(s, s', h, a)
    requires HartsOk(s.harts, s.plock, s.st, s.chan) && Held(s.harts, s.plock)
    ensures Held(s'.harts, s'.plock)
  {
    hide Sweep, Owe, Forget, Settled, OwnsNothing, Owns, Cond;
    assert HartOk(s.harts[h], h, s.plock, s.st, s.chan);
  }

  lemma ForkKeepsDeaths(s: State, s': State, h: Hart, a: Action)
    requires ForkNext(s, s', h, a)
    requires HartsOk(s.harts, s.plock, s.st, s.chan) && Forks(s.harts, s.st, s.parent, s.why, s.forker)
    requires Deaths(s.st, s.died, s.reaped)
    ensures Deaths(s'.st, s'.died, s'.reaped)
  {
    hide HartsOk, Forks;
    ForkFacts(s, h);
  }

  lemma ForkKeepsOwners(s: State, s': State, h: Hart, a: Action)
    requires ForkNext(s, s', h, a)
    requires HartsOk(s.harts, s.plock, s.st, s.chan) && Owners(s.harts, s.owner)
    ensures Owners(s'.harts, s'.owner)
  {
    hide HartsOk, Owners, Sweep, Owe, Forget, Settled, Cond, Woken;
    OwnFacts(s, h);
    OwnersMove(s.harts, h, s'.harts[h], s.owner, s'.owner);
    assert s.harts[h := s'.harts[h]] == s'.harts;
  }

  lemma ReparentKeepsOwn(s: State, s': State, h: Hart, a: Action)
    requires ReparentNext(s, s', h, a)
    requires HartsOk(s.harts, s.plock, s.st, s.chan)
    ensures Sized(s') && HartOk(s'.harts[h], h, s'.plock, s'.st, s'.chan)
  {
    hide HartsOk, Forks, Exclusive, Sweep, Owe, Forget, Settled, OwnsNothing, Owns, Cond;
    HartAt(s.harts, s.plock, s.st, s.chan, h);
  }

  lemma ReparentKeepsHarts(s: State, s': State, h: Hart, a: Action)
    requires ReparentNext(s, s', h, a)
    requires HartsOk(s.harts, s.plock, s.st, s.chan) && Exclusive(s.harts)
    ensures HartsOk(s'.harts, s'.plock, s'.st, s'.chan)
  {
    hide HartsOk, HartOk, Exclusive, Forks, AllAway, Sweep, Owe, Forget, Settled, OwnsNothing, Owns, Cond;
    ReparentKeepsOwn(s, s', h, a);
    OnlyHere(s.harts, h, s.harts[h].self.value);
    LocksHeld(s.harts, s.plock, s.st, s.chan, h);
    HartsMove(s.harts, h, s'.harts[h], s.plock, s'.plock, s.st, s'.st, s.chan, s'.chan);
    assert s.harts[h := s'.harts[h]] == s'.harts;
  }

  lemma ReparentKeepsExclusive(s: State, s': State, h: Hart, a: Action)
    requires ReparentNext(s, s', h, a)
    requires Exclusive(s.harts)
    ensures Exclusive(s'.harts)
  {
    hide Sweep, Owe, Forget, Settled, OwnsNothing, Owns, Cond;
  }

  lemma ReparentKeepsAway(s: State, s': State, h: Hart, a: Action)
    requires ReparentNext(s, s', h, a)
    requires HartsOk(s.harts, s.plock, s.st, s.chan) && Exclusive(s.harts) && AllAway(s.harts, s.st, s.chan, s.why)
    ensures AllAway(s'.harts, s'.st, s'.chan, s'.why)
  {
    hide HartsOk, Exclusive, AllAway, Forks, Sweep, Owe, Forget, Settled, OwnsNothing, Owns, Cond;
    HartAt(s.harts, s.plock, s.st, s.chan, h);
    AwayMove(s.harts, h, s'.harts[h], s.st, s'.st, s.chan, s'.chan, s.why, s'.why);
    assert s.harts[h := s'.harts[h]] == s'.harts;
  }

  lemma ReparentKeepsForks(s: State, s': State, h: Hart, a: Action)
    requires ReparentNext(s, s', h, a)
    requires HartsOk(s.harts, s.plock, s.st, s.chan) && Forks(s.harts, s.st, s.parent, s.why, s.forker)
    ensures Forks(s'.harts, s'.st, s'.parent, s'.why, s'.forker)
  {
    hide HartsOk, Forks, Sweep, Owe, Forget, Settled, OwnsNothing, Owns, Cond;
    HartAt(s.harts, s.plock, s.st, s.chan, h);
    ForksKnown(s.harts, s.st, s.parent, s.why, s.forker);
    ForksMove(s.harts, h, s'.harts[h], s.st, s'.st, s.parent, s'.parent, s.why, s'.why, s.forker);
    assert s.harts[h := s'.harts[h]] == s'.harts;
  }

  lemma ReparentKeepsHeld(s: State, s': State, h: Hart, a: Action)
    requires ReparentNext(s, s', h, a)
    requires HartsOk(s.harts, s.plock, s.st, s.chan) && Held(s.harts, s.plock)
    ensures Held(s'.harts, s'.plock)
  {
    hide Sweep, Owe, Forget, Settled, OwnsNothing, Owns, Cond;
    assert HartOk(s.harts[h], h, s.plock, s.st, s.chan);
  }

  lemma ReparentKeepsDeaths(s: State, s': State, h: Hart, a: Action)
    requires ReparentNext(s, s', h, a)
    requires HartsOk(s.harts, s.plock, s.st, s.chan) && Deaths(s.st, s.died, s.reaped)
    ensures Deaths(s'.st, s'.died, s'.reaped)
  {
    hide Sweep, Owe, Forget, Settled, OwnsNothing, Owns, Cond;
    assert HartOk(s.harts[h], h, s.plock, s.st, s.chan);
  }

  lemma ReparentKeepsOwners(s: State, s': State, h: Hart, a: Action)
    requires ReparentNext(s, s', h, a)
    requires HartsOk(s.harts, s.plock, s.st, s.chan) && Owners(s.harts, s.owner)
    ensures Owners(s'.harts, s'.owner)
  {
    hide HartsOk, Owners, Sweep, Owe, Forget, Settled, Cond, Woken;
    OwnFacts(s, h);
    OwnersMove(s.harts, h, s'.harts[h], s.owner, s'.owner);
    assert s.harts[h := s'.harts[h]] == s'.harts;
  }

  lemma ExitKeepsOwn(s: State, s': State, h: Hart, a: Action)
    requires ExitNext(s, s', h, a)
    requires HartsOk(s.harts, s.plock, s.st, s.chan)
    ensures Sized(s') && HartOk(s'.harts[h], h, s'.plock, s'.st, s'.chan)
  {
    hide HartsOk, Forks, Exclusive, Sweep, Owe, Forget, Settled, OwnsNothing, Owns, Cond;
    HartAt(s.harts, s.plock, s.st, s.chan, h);
  }

  lemma ExitKeepsHarts(s: State, s': State, h: Hart, a: Action)
    requires ExitNext(s, s', h, a)
    requires HartsOk(s.harts, s.plock, s.st, s.chan) && Exclusive(s.harts)
    ensures HartsOk(s'.harts, s'.plock, s'.st, s'.chan)
  {
    hide HartsOk, HartOk, Exclusive, Forks, AllAway, Sweep, Owe, Forget, Settled, OwnsNothing, Owns, Cond;
    ExitKeepsOwn(s, s', h, a);
    OnlyHere(s.harts, h, s.harts[h].self.value);
    LocksHeld(s.harts, s.plock, s.st, s.chan, h);
    HartsMove(s.harts, h, s'.harts[h], s.plock, s'.plock, s.st, s'.st, s.chan, s'.chan);
    assert s.harts[h := s'.harts[h]] == s'.harts;
  }

  lemma ExitKeepsExclusive(s: State, s': State, h: Hart, a: Action)
    requires ExitNext(s, s', h, a)
    requires Exclusive(s.harts)
    ensures Exclusive(s'.harts)
  {
    hide Sweep, Owe, Forget, Settled, OwnsNothing, Owns, Cond;
  }

  lemma ExitKeepsAway(s: State, s': State, h: Hart, a: Action)
    requires ExitNext(s, s', h, a)
    requires HartsOk(s.harts, s.plock, s.st, s.chan) && Exclusive(s.harts) && AllAway(s.harts, s.st, s.chan, s.why)
    ensures AllAway(s'.harts, s'.st, s'.chan, s'.why)
  {
    hide HartsOk, Exclusive, AllAway, Forks, Sweep, Owe, Forget, Settled, OwnsNothing, Owns, Cond;
    HartAt(s.harts, s.plock, s.st, s.chan, h);
    AwayMove(s.harts, h, s'.harts[h], s.st, s'.st, s.chan, s'.chan, s.why, s'.why);
    assert s.harts[h := s'.harts[h]] == s'.harts;
  }

  lemma ExitKeepsForks(s: State, s': State, h: Hart, a: Action)
    requires ExitNext(s, s', h, a)
    requires HartsOk(s.harts, s.plock, s.st, s.chan) && Forks(s.harts, s.st, s.parent, s.why, s.forker)
    ensures Forks(s'.harts, s'.st, s'.parent, s'.why, s'.forker)
  {
    hide HartsOk, Forks, Sweep, Owe, Forget, Settled, OwnsNothing, Owns, Cond;
    HartAt(s.harts, s.plock, s.st, s.chan, h);
    ForksKnown(s.harts, s.st, s.parent, s.why, s.forker);
    ForksMove(s.harts, h, s'.harts[h], s.st, s'.st, s.parent, s'.parent, s.why, s'.why, s.forker);
    assert s.harts[h := s'.harts[h]] == s'.harts;
  }

  lemma ExitKeepsHeld(s: State, s': State, h: Hart, a: Action)
    requires ExitNext(s, s', h, a)
    requires HartsOk(s.harts, s.plock, s.st, s.chan) && Held(s.harts, s.plock)
    ensures Held(s'.harts, s'.plock)
  {
    hide Sweep, Owe, Forget, Settled, OwnsNothing, Owns, Cond;
    assert HartOk(s.harts[h], h, s.plock, s.st, s.chan);
  }

  lemma ExitKeepsDeaths(s: State, s': State, h: Hart, a: Action)
    requires ExitNext(s, s', h, a)
    requires HartsOk(s.harts, s.plock, s.st, s.chan) && Deaths(s.st, s.died, s.reaped)
    ensures Deaths(s'.st, s'.died, s'.reaped)
  {
    hide Sweep, Owe, Forget, Settled, OwnsNothing, Owns, Cond;
    assert HartOk(s.harts[h], h, s.plock, s.st, s.chan);
  }

  lemma ExitKeepsOwners(s: State, s': State, h: Hart, a: Action)
    requires ExitNext(s, s', h, a)
    requires HartsOk(s.harts, s.plock, s.st, s.chan) && Owners(s.harts, s.owner)
    ensures Owners(s'.harts, s'.owner)
  {
    hide HartsOk, Owners, Sweep, Owe, Forget, Settled, Cond, Woken;
    OwnFacts(s, h);
    OwnersMove(s.harts, h, s'.harts[h], s.owner, s'.owner);
    assert s.harts[h := s'.harts[h]] == s'.harts;
  }

  lemma ScanKeepsOwn(s: State, s': State, h: Hart, a: Action)
    requires ScanNext(s, s', h, a)
    requires HartsOk(s.harts, s.plock, s.st, s.chan)
    ensures Sized(s') && HartOk(s'.harts[h], h, s'.plock, s'.st, s'.chan)
  {
    hide HartsOk, Forks, Exclusive, Sweep, Owe, Forget, Settled, OwnsNothing, Owns, Cond;
    HartAt(s.harts, s.plock, s.st, s.chan, h);
  }

  lemma ScanKeepsHarts(s: State, s': State, h: Hart, a: Action)
    requires ScanNext(s, s', h, a)
    requires HartsOk(s.harts, s.plock, s.st, s.chan) && Exclusive(s.harts)
    ensures HartsOk(s'.harts, s'.plock, s'.st, s'.chan)
  {
    hide HartsOk, HartOk, Exclusive, Forks, AllAway, Sweep, Owe, Forget, Settled, OwnsNothing, Owns, Cond;
    ScanKeepsOwn(s, s', h, a);
    OnlyHere(s.harts, h, s.harts[h].self.value);
    LocksHeld(s.harts, s.plock, s.st, s.chan, h);
    HartsMove(s.harts, h, s'.harts[h], s.plock, s'.plock, s.st, s'.st, s.chan, s'.chan);
    assert s.harts[h := s'.harts[h]] == s'.harts;
  }

  lemma ScanKeepsExclusive(s: State, s': State, h: Hart, a: Action)
    requires ScanNext(s, s', h, a)
    requires Exclusive(s.harts)
    ensures Exclusive(s'.harts)
  {
    hide Sweep, Owe, Forget, Settled, OwnsNothing, Owns, Cond;
  }

  lemma ScanKeepsAway(s: State, s': State, h: Hart, a: Action)
    requires ScanNext(s, s', h, a)
    requires HartsOk(s.harts, s.plock, s.st, s.chan) && Exclusive(s.harts) && AllAway(s.harts, s.st, s.chan, s.why)
    ensures AllAway(s'.harts, s'.st, s'.chan, s'.why)
  {
    hide HartsOk, Exclusive, AllAway, Forks, Sweep, Owe, Forget, Settled, OwnsNothing, Owns, Cond;
    HartAt(s.harts, s.plock, s.st, s.chan, h);
    AwayMove(s.harts, h, s'.harts[h], s.st, s'.st, s.chan, s'.chan, s.why, s'.why);
    assert s.harts[h := s'.harts[h]] == s'.harts;
  }

  lemma ScanKeepsForks(s: State, s': State, h: Hart, a: Action)
    requires ScanNext(s, s', h, a)
    requires HartsOk(s.harts, s.plock, s.st, s.chan) && Forks(s.harts, s.st, s.parent, s.why, s.forker)
    ensures Forks(s'.harts, s'.st, s'.parent, s'.why, s'.forker)
  {
    hide HartsOk, Forks, Sweep, Owe, Forget, Settled, OwnsNothing, Owns, Cond;
    HartAt(s.harts, s.plock, s.st, s.chan, h);
    ForksKnown(s.harts, s.st, s.parent, s.why, s.forker);
    ForksMove(s.harts, h, s'.harts[h], s.st, s'.st, s.parent, s'.parent, s.why, s'.why, s.forker);
    assert s.harts[h := s'.harts[h]] == s'.harts;
  }

  lemma ScanKeepsHeld(s: State, s': State, h: Hart, a: Action)
    requires ScanNext(s, s', h, a)
    requires HartsOk(s.harts, s.plock, s.st, s.chan) && Held(s.harts, s.plock)
    ensures Held(s'.harts, s'.plock)
  {
    hide Sweep, Owe, Forget, Settled, OwnsNothing, Owns, Cond;
    assert HartOk(s.harts[h], h, s.plock, s.st, s.chan);
  }

  lemma ScanKeepsDeaths(s: State, s': State, h: Hart, a: Action)
    requires ScanNext(s, s', h, a)
    requires HartsOk(s.harts, s.plock, s.st, s.chan) && Deaths(s.st, s.died, s.reaped)
    ensures Deaths(s'.st, s'.died, s'.reaped)
  {
    hide Sweep, Owe, Forget, Settled, OwnsNothing, Owns, Cond;
    assert HartOk(s.harts[h], h, s.plock, s.st, s.chan);
  }

  lemma ScanKeepsOwners(s: State, s': State, h: Hart, a: Action)
    requires ScanNext(s, s', h, a)
    requires HartsOk(s.harts, s.plock, s.st, s.chan) && Owners(s.harts, s.owner)
    ensures Owners(s'.harts, s'.owner)
  {
    hide HartsOk, Owners, Sweep, Owe, Forget, Settled, Cond, Woken;
    OwnFacts(s, h);
    OwnersMove(s.harts, h, s'.harts[h], s.owner, s'.owner);
    assert s.harts[h := s'.harts[h]] == s'.harts;
  }

  lemma WaitKeepsOwn(s: State, s': State, h: Hart, a: Action)
    requires WaitNext(s, s', h, a)
    requires HartsOk(s.harts, s.plock, s.st, s.chan)
    ensures Sized(s') && HartOk(s'.harts[h], h, s'.plock, s'.st, s'.chan)
  {
    hide HartsOk, Forks, Exclusive, Sweep, Owe, Forget, Settled, OwnsNothing, Owns, Cond;
    HartAt(s.harts, s.plock, s.st, s.chan, h);
  }

  lemma WaitKeepsHarts(s: State, s': State, h: Hart, a: Action)
    requires WaitNext(s, s', h, a)
    requires HartsOk(s.harts, s.plock, s.st, s.chan) && Exclusive(s.harts)
    ensures HartsOk(s'.harts, s'.plock, s'.st, s'.chan)
  {
    hide HartsOk, HartOk, Exclusive, Forks, AllAway, Sweep, Owe, Forget, Settled, OwnsNothing, Owns, Cond;
    WaitKeepsOwn(s, s', h, a);
    OnlyHere(s.harts, h, s.harts[h].self.value);
    LocksHeld(s.harts, s.plock, s.st, s.chan, h);
    if a.WaitReap? {
      OthersRun(s.harts, s.plock, s.st, s.chan, h, s.harts[h].code.k);
    }
    HartsMove(s.harts, h, s'.harts[h], s.plock, s'.plock, s.st, s'.st, s.chan, s'.chan);
    assert s.harts[h := s'.harts[h]] == s'.harts;
  }

  lemma WaitKeepsExclusive(s: State, s': State, h: Hart, a: Action)
    requires WaitNext(s, s', h, a)
    requires Exclusive(s.harts)
    ensures Exclusive(s'.harts)
  {
    hide Sweep, Owe, Forget, Settled, OwnsNothing, Owns, Cond;
  }

  lemma WaitKeepsAway(s: State, s': State, h: Hart, a: Action)
    requires WaitNext(s, s', h, a)
    requires HartsOk(s.harts, s.plock, s.st, s.chan) && Exclusive(s.harts) && AllAway(s.harts, s.st, s.chan, s.why)
    ensures AllAway(s'.harts, s'.st, s'.chan, s'.why)
  {
    hide HartsOk, Exclusive, AllAway, Forks, Sweep, Owe, Forget, Settled, OwnsNothing, Owns, Cond;
    HartAt(s.harts, s.plock, s.st, s.chan, h);
    AwayMove(s.harts, h, s'.harts[h], s.st, s'.st, s.chan, s'.chan, s.why, s'.why);
    assert s.harts[h := s'.harts[h]] == s'.harts;
  }

  lemma WaitKeepsForks(s: State, s': State, h: Hart, a: Action)
    requires WaitNext(s, s', h, a)
    requires HartsOk(s.harts, s.plock, s.st, s.chan) && Forks(s.harts, s.st, s.parent, s.why, s.forker)
    ensures Forks(s'.harts, s'.st, s'.parent, s'.why, s'.forker)
  {
    hide HartsOk, Forks, Sweep, Owe, Forget, Settled, OwnsNothing, Owns, Cond;
    HartAt(s.harts, s.plock, s.st, s.chan, h);
    ForksKnown(s.harts, s.st, s.parent, s.why, s.forker);
    ForksMove(s.harts, h, s'.harts[h], s.st, s'.st, s.parent, s'.parent, s.why, s'.why, s.forker);
    assert s.harts[h := s'.harts[h]] == s'.harts;
  }

  lemma WaitKeepsHeld(s: State, s': State, h: Hart, a: Action)
    requires WaitNext(s, s', h, a)
    requires HartsOk(s.harts, s.plock, s.st, s.chan) && Held(s.harts, s.plock)
    ensures Held(s'.harts, s'.plock)
  {
    hide Sweep, Owe, Forget, Settled, OwnsNothing, Owns, Cond;
    assert HartOk(s.harts[h], h, s.plock, s.st, s.chan);
  }

  lemma WaitKeepsDeaths(s: State, s': State, h: Hart, a: Action)
    requires WaitNext(s, s', h, a)
    requires HartsOk(s.harts, s.plock, s.st, s.chan) && Deaths(s.st, s.died, s.reaped)
    ensures Deaths(s'.st, s'.died, s'.reaped)
  {
    hide Sweep, Owe, Forget, Settled, OwnsNothing, Owns, Cond;
    assert HartOk(s.harts[h], h, s.plock, s.st, s.chan);
  }

  lemma WaitKeepsOwners(s: State, s': State, h: Hart, a: Action)
    requires WaitNext(s, s', h, a)
    requires HartsOk(s.harts, s.plock, s.st, s.chan) && Owners(s.harts, s.owner)
    ensures Owners(s'.harts, s'.owner)
  {
    hide HartsOk, Owners, Sweep, Owe, Forget, Settled, Cond, Woken;
    OwnFacts(s, h);
    OwnersMove(s.harts, h, s'.harts[h], s.owner, s'.owner);
    assert s.harts[h := s'.harts[h]] == s'.harts;
  }

  lemma SchedKeepsForeign(s: State, s': State, h: Hart, a: Action)
    requires SchedNext(s, s', h, a)
    requires Sized(s)
    ensures Sized(s') && ForeignKept(s, s', h)
  {
    hide ForeignKept, OwnsNothing, LockFree;
    Untouched(s, s', h);
  }

  lemma SchedKeepsWatchSelf(s: State, s': State, h: Hart, a: Action)
    requires SchedNext(s, s', h, a)
    requires HartsOk(s.harts, s.plock, s.st, s.chan) && Exclusive(s.harts) && Owners(s.harts, s.owner)
    requires SweptOk(s.harts, s.st, s.chan, s.owner, s.swept) && Watch(s)
    requires NoLost(s.harts, s.st, s.chan, s.parent, s.ready, s.owner, s.owed)
    ensures Sized(s') && WatchOk(s'.harts[h], h, s'.st, s'.parent, s'.ready, s'.owner, s'.swept, s'.owed)
  {
    assert HartOk(s.harts[h], h, s.plock, s.st, s.chan);
    assert WatchOk(s.harts[h], h, s.st, s.parent, s.ready, s.owner, s.swept, s.owed);
  }

  lemma SchedKeepsSwept(s: State, s': State, h: Hart, a: Action)
    requires SchedNext(s, s', h, a)
    requires HartsOk(s.harts, s.plock, s.st, s.chan) && Exclusive(s.harts) && Owners(s.harts, s.owner)
    requires SweptOk(s.harts, s.st, s.chan, s.owner, s.swept)
    ensures SweptOk(s'.harts, s'.st, s'.chan, s'.owner, s'.swept)
  {
    hide Owe, Settled, Cond, OwnsNothing, RetOk, SweptOk, Sweep, Forget;
    var owner := s'.owner;
    SweptMove(s.harts, h, s'.harts[h], s.st, s'.st, s.chan, s'.chan, s.owner, owner, s.swept);
    assert s.harts[h := s'.harts[h]] == s'.harts;
  }

  lemma SchedKeepsNoLost(s: State, s': State, h: Hart, a: Action)
    requires SchedNext(s, s', h, a)
    requires HartsOk(s.harts, s.plock, s.st, s.chan)
    requires NoLost(s.harts, s.st, s.chan, s.parent, s.ready, s.owner, s.owed)
    ensures NoLost(s'.harts, s'.st, s'.chan, s'.parent, s'.ready, s'.owner, s'.owed)
  {
    hide HartsOk, Forks, NoLost, OwnsNothing, Forget, Sweep, Owns, Settled;
    HartAt(s.harts, s.plock, s.st, s.chan, h);
    NoLostMove(s.harts, h, s'.harts[h], s.st, s'.st, s.chan, s'.chan, s.parent, s'.parent, s.ready, s.owner, s'.owner,
      s.owed);
    assert s.harts[h := s'.harts[h]] == s'.harts;
  }

  lemma TrapKeepsForeign(s: State, s': State, h: Hart, a: Action)
    requires TrapNext(s, s', h, a)
    requires Sized(s)
    ensures Sized(s') && ForeignKept(s, s', h)
  {
    hide ForeignKept, OwnsNothing, LockFree;
    Untouched(s, s', h);
  }

  lemma TrapKeepsWatchSelf(s: State, s': State, h: Hart, a: Action)
    requires TrapNext(s, s', h, a)
    requires HartsOk(s.harts, s.plock, s.st, s.chan) && Exclusive(s.harts) && Owners(s.harts, s.owner)
    requires SweptOk(s.harts, s.st, s.chan, s.owner, s.swept) && Watch(s)
    requires NoLost(s.harts, s.st, s.chan, s.parent, s.ready, s.owner, s.owed)
    ensures Sized(s') && WatchOk(s'.harts[h], h, s'.st, s'.parent, s'.ready, s'.owner, s'.swept, s'.owed)
  {
    assert HartOk(s.harts[h], h, s.plock, s.st, s.chan);
    assert WatchOk(s.harts[h], h, s.st, s.parent, s.ready, s.owner, s.swept, s.owed);
  }

  lemma TrapKeepsSwept(s: State, s': State, h: Hart, a: Action)
    requires TrapNext(s, s', h, a)
    requires HartsOk(s.harts, s.plock, s.st, s.chan) && Exclusive(s.harts) && Owners(s.harts, s.owner)
    requires SweptOk(s.harts, s.st, s.chan, s.owner, s.swept)
    ensures SweptOk(s'.harts, s'.st, s'.chan, s'.owner, s'.swept)
  {
    hide Owe, Settled, Cond, OwnsNothing, RetOk, SweptOk, Sweep, Forget;
    var owner := s'.owner;
    SweptMove(s.harts, h, s'.harts[h], s.st, s'.st, s.chan, s'.chan, s.owner, owner, s.swept);
    assert s.harts[h := s'.harts[h]] == s'.harts;
  }

  lemma TrapKeepsNoLost(s: State, s': State, h: Hart, a: Action)
    requires TrapNext(s, s', h, a)
    requires HartsOk(s.harts, s.plock, s.st, s.chan)
    requires NoLost(s.harts, s.st, s.chan, s.parent, s.ready, s.owner, s.owed)
    ensures NoLost(s'.harts, s'.st, s'.chan, s'.parent, s'.ready, s'.owner, s'.owed)
  {
    hide HartsOk, Forks, NoLost, OwnsNothing, Forget, Sweep, Owns, Settled;
    HartAt(s.harts, s.plock, s.st, s.chan, h);
    NoLostMove(s.harts, h, s'.harts[h], s.st, s'.st, s.chan, s'.chan, s.parent, s'.parent, s.ready, s.owner, s'.owner,
      s.owed);
    assert s.harts[h := s'.harts[h]] == s'.harts;
  }

  lemma ClientKeepsForeign(s: State, s': State, h: Hart, a: Action)
    requires ClientNext(s, s', h, a)
    requires Sized(s)
    ensures Sized(s') && ForeignKept(s, s', h)
  {
    hide Cond, HasZombie, OwnsNothing, Settled, RetOk;
  }

  lemma ClientKeepsWatchSelf(s: State, s': State, h: Hart, a: Action)
    requires ClientNext(s, s', h, a)
    requires HartsOk(s.harts, s.plock, s.st, s.chan) && Exclusive(s.harts) && Owners(s.harts, s.owner)
    requires SweptOk(s.harts, s.st, s.chan, s.owner, s.swept) && Watch(s)
    requires NoLost(s.harts, s.st, s.chan, s.parent, s.ready, s.owner, s.owed)
    ensures Sized(s') && WatchOk(s'.harts[h], h, s'.st, s'.parent, s'.ready, s'.owner, s'.swept, s'.owed)
  {
    assert HartOk(s.harts[h], h, s.plock, s.st, s.chan);
    assert WatchOk(s.harts[h], h, s.st, s.parent, s.ready, s.owner, s.swept, s.owed);
  }

  lemma ClientKeepsSwept(s: State, s': State, h: Hart, a: Action)
    requires ClientNext(s, s', h, a)
    requires HartsOk(s.harts, s.plock, s.st, s.chan) && Exclusive(s.harts) && Owners(s.harts, s.owner)
    requires SweptOk(s.harts, s.st, s.chan, s.owner, s.swept)
    ensures SweptOk(s'.harts, s'.st, s'.chan, s'.owner, s'.swept)
  {
    hide Owe, Settled, Cond, OwnsNothing, RetOk, SweptOk, Sweep, Forget;
    var owner := if a.Release? then s.owner else s'.owner;
    SweptMove(s.harts, h, s'.harts[h], s.st, s'.st, s.chan, s'.chan, s.owner, owner, s.swept);
    assert s.harts[h := s'.harts[h]] == s'.harts;
    if a.Release? {
      SweptForget(s'.harts, s'.st, s'.chan, owner, s.swept, a.l);
    }
  }

  lemma ClientKeepsNoLost(s: State, s': State, h: Hart, a: Action)
    requires ClientNext(s, s', h, a)
    requires SweptOk(s.harts, s.st, s.chan, s.owner, s.swept)
    requires NoLost(s.harts, s.st, s.chan, s.parent, s.ready, s.owner, s.owed)
    ensures NoLost(s'.harts, s'.st, s'.chan, s'.parent, s'.ready, s'.owner, s'.owed)
  {
    hide HasZombie, OwnsNothing, Forget, Sweep;
    forall q: Pid ensures HasZombie(s'.st, s'.parent, q) ==> HasZombie(s.st, s.parent, q) {
      ZombieStays(s'.st, s'.parent, s.st, s.parent, q);
    }
  }

  lemma WakeKeepsForeign(s: State, s': State, h: Hart, a: Action)
    requires WakeNext(s, s', h, a)
    requires Sized(s)
    ensures Sized(s') && ForeignKept(s, s', h)
  {
    hide Cond, HasZombie, OwnsNothing, Settled, RetOk;
  }

  lemma WakeKeepsWatchSelf(s: State, s': State, h: Hart, a: Action)
    requires WakeNext(s, s', h, a)
    requires HartsOk(s.harts, s.plock, s.st, s.chan) && Exclusive(s.harts) && Owners(s.harts, s.owner)
    requires SweptOk(s.harts, s.st, s.chan, s.owner, s.swept) && Watch(s)
    requires NoLost(s.harts, s.st, s.chan, s.parent, s.ready, s.owner, s.owed)
    ensures Sized(s') && WatchOk(s'.harts[h], h, s'.st, s'.parent, s'.ready, s'.owner, s'.swept, s'.owed)
  {
    assert HartOk(s.harts[h], h, s.plock, s.st, s.chan);
    assert WatchOk(s.harts[h], h, s.st, s.parent, s.ready, s.owner, s.swept, s.owed);
  }

  lemma WakeKeepsSwept(s: State, s': State, h: Hart, a: Action)
    requires WakeNext(s, s', h, a)
    requires HartsOk(s.harts, s.plock, s.st, s.chan) && Exclusive(s.harts) && Owners(s.harts, s.owner)
    requires SweptOk(s.harts, s.st, s.chan, s.owner, s.swept)
    ensures SweptOk(s'.harts, s'.st, s'.chan, s'.owner, s'.swept)
  {
    hide Owe, Settled, Cond, OwnsNothing, RetOk, SweptOk, Sweep;
    var code := s.harts[h].code;
    SweptMove(s.harts, h, s'.harts[h], s.st, s'.st, s.chan, s'.chan, s.owner, s'.owner, s.swept);
    assert s.harts[h := s'.harts[h]] == s'.harts;
    if a.WakeSkip? || a.WakeVisit? {
      if a.WakeVisit? {
        WakeHolds(s, h);
      }
      forall g | 0 <= g < |s'.harts| && Dropping(s'.harts[g], code.c) ensures s'.harts[g].self.value != code.i {
        NotDropping(s.harts, s.plock, s.st, s.chan, h, code.c, code.i, g);
      }
      hide HartsOk, Exclusive;
      SweepOn(s'.harts, s'.st, s'.chan, s.owner, s.swept, h, code.c, code.i);
    }
  }

  lemma WakeKeepsNoLost(s: State, s': State, h: Hart, a: Action)
    requires WakeNext(s, s', h, a)
    requires SweptOk(s.harts, s.st, s.chan, s.owner, s.swept) && Watch(s)
    requires NoLost(s.harts, s.st, s.chan, s.parent, s.ready, s.owner, s.owed)
    ensures NoLost(s'.harts, s'.st, s'.chan, s'.parent, s'.ready, s'.owner, s'.owed)
  {
    assert WatchOk(s.harts[h], h, s.st, s.parent, s.ready, s.owner, s.swept, s.owed);
    hide HasZombie, OwnsNothing, Forget, Sweep;
    forall q: Pid ensures HasZombie(s'.st, s'.parent, q) ==> HasZombie(s.st, s.parent, q) {
      ZombieStays(s'.st, s'.parent, s.st, s.parent, q);
    }
  }

  lemma SleepKeepsForeign(s: State, s': State, h: Hart, a: Action)
    requires SleepNext(s, s', h, a)
    requires HartsOk(s.harts, s.plock, s.st, s.chan) && Owners(s.harts, s.owner)
    ensures Sized(s') && ForeignKept(s, s', h)
  {
    hide HartsOk, Forks, Owners, Cond, HasZombie, OwnsNothing, Settled;
    OwnFacts(s, h);
  }

  lemma SleepKeepsWatchSelf(s: State, s': State, h: Hart, a: Action)
    requires SleepNext(s, s', h, a)
    requires HartsOk(s.harts, s.plock, s.st, s.chan) && Exclusive(s.harts) && Owners(s.harts, s.owner)
    requires SweptOk(s.harts, s.st, s.chan, s.owner, s.swept) && Watch(s)
    requires NoLost(s.harts, s.st, s.chan, s.parent, s.ready, s.owner, s.owed)
    ensures Sized(s') && WatchOk(s'.harts[h], h, s'.st, s'.parent, s'.ready, s'.owner, s'.swept, s'.owed)
  {
    assert HartOk(s.harts[h], h, s.plock, s.st, s.chan);
    assert s.harts[h].code.SleepLocked? ==> MustOwn(s.harts[h].code, LockOf(s.harts[h].code.c));
    assert WatchOk(s.harts[h], h, s.st, s.parent, s.ready, s.owner, s.swept, s.owed);
  }

  lemma SleepKeepsSwept(s: State, s': State, h: Hart, a: Action)
    requires SleepNext(s, s', h, a)
    requires HartsOk(s.harts, s.plock, s.st, s.chan) && Exclusive(s.harts) && Owners(s.harts, s.owner)
    requires SweptOk(s.harts, s.st, s.chan, s.owner, s.swept)
    ensures SweptOk(s'.harts, s'.st, s'.chan, s'.owner, s'.swept)
  {
    hide Owe, Settled, Cond, OwnsNothing, RetOk, SweptOk, Sweep, Forget;
    assert s'.harts == s.harts[h := s'.harts[h]];
    if a.SleepUnlock? {
      SweptDrop(s.harts, h, s.st, s.chan, s.owner, s.swept, s'.harts[h], s.harts[h].code.c);
    } else if a.SleepSet? {
      SweptSleep(s.harts, h, s.st, s.chan, s.owner, s.swept, s'.harts[h]);
    } else {
      SweptMove(s.harts, h, s'.harts[h], s.st, s'.st, s.chan, s'.chan, s.owner, s'.owner, s.swept);
    }
  }

  lemma SleepKeepsNoLost(s: State, s': State, h: Hart, a: Action)
    requires SleepNext(s, s', h, a)
    requires HartsOk(s.harts, s.plock, s.st, s.chan) && Watch(s)
    requires NoLost(s.harts, s.st, s.chan, s.parent, s.ready, s.owner, s.owed)
    ensures NoLost(s'.harts, s'.st, s'.chan, s'.parent, s'.ready, s'.owner, s'.owed)
  {
    hide HartsOk, Watch, Swept;
    SleepFacts(s, h);
    hide HasZombie, OwnsNothing, Forget;
    forall q: Pid ensures HasZombie(s'.st, s'.parent, q) ==> HasZombie(s.st, s.parent, q) {
      ZombieStays(s'.st, s'.parent, s.st, s.parent, q);
    }
  }

  lemma ForkKeepsForeign(s: State, s': State, h: Hart, a: Action)
    requires ForkNext(s, s', h, a)
    requires HartsOk(s.harts, s.plock, s.st, s.chan) && Forks(s.harts, s.st, s.parent, s.why, s.forker)
    requires Owners(s.harts, s.owner)
    ensures Sized(s') && ForeignKept(s, s', h)
  {
    hide HartsOk, Forks, Owners, Cond, HasZombie, OwnsNothing, Settled;
    OwnFacts(s, h);
    ForkFacts(s, h);
  }

  lemma ForkKeepsWatchSelf(s: State, s': State, h: Hart, a: Action)
    requires ForkNext(s, s', h, a)
    requires HartsOk(s.harts, s.plock, s.st, s.chan) && Exclusive(s.harts) && Owners(s.harts, s.owner)
    requires SweptOk(s.harts, s.st, s.chan, s.owner, s.swept) && Watch(s)
    requires NoLost(s.harts, s.st, s.chan, s.parent, s.ready, s.owner, s.owed)
    ensures Sized(s') && WatchOk(s'.harts[h], h, s'.st, s'.parent, s'.ready, s'.owner, s'.swept, s'.owed)
  {
    assert HartOk(s.harts[h], h, s.plock, s.st, s.chan);
    assert WatchOk(s.harts[h], h, s.st, s.parent, s.ready, s.owner, s.swept, s.owed);
  }

  lemma ForkKeepsSwept(s: State, s': State, h: Hart, a: Action)
    requires ForkNext(s, s', h, a)
    requires HartsOk(s.harts, s.plock, s.st, s.chan) && Exclusive(s.harts) && Owners(s.harts, s.owner)
    requires SweptOk(s.harts, s.st, s.chan, s.owner, s.swept)
    ensures SweptOk(s'.harts, s'.st, s'.chan, s'.owner, s'.swept)
  {
    hide Owe, Settled, Cond, OwnsNothing, RetOk, SweptOk, Sweep, Forget;
    var owner := s'.owner;
    SweptMove(s.harts, h, s'.harts[h], s.st, s'.st, s.chan, s'.chan, s.owner, owner, s.swept);
    assert s.harts[h := s'.harts[h]] == s'.harts;
  }

  lemma ForkKeepsNoLost(s: State, s': State, h: Hart, a: Action)
    requires ForkNext(s, s', h, a)
    requires HartsOk(s.harts, s.plock, s.st, s.chan) && Forks(s.harts, s.st, s.parent, s.why, s.forker)
    requires NoLost(s.harts, s.st, s.chan, s.parent, s.ready, s.owner, s.owed)
    ensures NoLost(s'.harts, s'.st, s'.chan, s'.parent, s'.ready, s'.owner, s'.owed)
  {
    hide HartsOk, Forks, NoLost, OwnsNothing, Forget, Sweep, Owns, Settled;
    ForkFacts(s, h);
    NoLostMove(s.harts, h, s'.harts[h], s.st, s'.st, s.chan, s'.chan, s.parent, s'.parent, s.ready, s.owner, s'.owner,
      s.owed);
    assert s.harts[h := s'.harts[h]] == s'.harts;
  }

  lemma ReparentKeepsForeign(s: State, s': State, h: Hart, a: Action)
    requires ReparentNext(s, s', h, a)
    requires HartsOk(s.harts, s.plock, s.st, s.chan) && Owners(s.harts, s.owner)
    ensures Sized(s') && ForeignKept(s, s', h)
  {
    hide HartsOk, Forks, Owners, Cond, HasZombie, OwnsNothing, Settled;
    OwnFacts(s, h);
  }

  lemma ReparentKeepsWatchSelf(s: State, s': State, h: Hart, a: Action)
    requires ReparentNext(s, s', h, a)
    requires HartsOk(s.harts, s.plock, s.st, s.chan) && Exclusive(s.harts) && Owners(s.harts, s.owner)
    requires SweptOk(s.harts, s.st, s.chan, s.owner, s.swept) && Watch(s)
    requires NoLost(s.harts, s.st, s.chan, s.parent, s.ready, s.owner, s.owed)
    ensures Sized(s') && WatchOk(s'.harts[h], h, s'.st, s'.parent, s'.ready, s'.owner, s'.swept, s'.owed)
  {
    assert HartOk(s.harts[h], h, s.plock, s.st, s.chan);
    assert !s.harts[h].code.Run? ==> MustOwn(s.harts[h].code, WaitLock);
    assert WatchOk(s.harts[h], h, s.st, s.parent, s.ready, s.owner, s.swept, s.owed);
  }

  lemma ReparentKeepsSwept(s: State, s': State, h: Hart, a: Action)
    requires ReparentNext(s, s', h, a)
    requires HartsOk(s.harts, s.plock, s.st, s.chan) && Exclusive(s.harts) && Owners(s.harts, s.owner)
    requires SweptOk(s.harts, s.st, s.chan, s.owner, s.swept)
    ensures SweptOk(s'.harts, s'.st, s'.chan, s'.owner, s'.swept)
  {
    hide Owe, Settled, Cond, OwnsNothing, RetOk, SweptOk, Sweep, Forget;
    var owner := s'.owner;
    SweptMove(s.harts, h, s'.harts[h], s.st, s'.st, s.chan, s'.chan, s.owner, owner, s.swept);
    assert s.harts[h := s'.harts[h]] == s'.harts;
  }

  lemma ReparentKeepsNoLost(s: State, s': State, h: Hart, a: Action)
    requires ReparentNext(s, s', h, a)
    requires HartsOk(s.harts, s.plock, s.st, s.chan) && Owners(s.harts, s.owner)
    requires SweptOk(s.harts, s.st, s.chan, s.owner, s.swept)
    requires NoLost(s.harts, s.st, s.chan, s.parent, s.ready, s.owner, s.owed)
    ensures NoLost(s'.harts, s'.st, s'.chan, s'.parent, s'.ready, s'.owner, s'.owed)
  {
    hide HartsOk, Owners, OwnsNothing, RetOk, Exclusive;
    OwnFacts(s, h);
  }

  lemma ExitKeepsForeign(s: State, s': State, h: Hart, a: Action)
    requires ExitNext(s, s', h, a)
    requires HartsOk(s.harts, s.plock, s.st, s.chan) && Owners(s.harts, s.owner)
    ensures Sized(s') && ForeignKept(s, s', h)
  {
    hide HartsOk, Forks, Owners, Cond, HasZombie, OwnsNothing, Settled;
    OwnFacts(s, h);
  }

  lemma ExitKeepsWatchSelf(s: State, s': State, h: Hart, a: Action)
    requires ExitNext(s, s', h, a)
    requires HartsOk(s.harts, s.plock, s.st, s.chan) && Exclusive(s.harts) && Owners(s.harts, s.owner)
    requires SweptOk(s.harts, s.st, s.chan, s.owner, s.swept) && Watch(s)
    requires NoLost(s.harts, s.st, s.chan, s.parent, s.ready, s.owner, s.owed)
    ensures Sized(s') && WatchOk(s'.harts[h], h, s'.st, s'.parent, s'.ready, s'.owner, s'.swept, s'.owed)
  {
    assert HartOk(s.harts[h], h, s.plock, s.st, s.chan);
    assert !s.harts[h].code.Run? ==> MustOwn(s.harts[h].code, WaitLock);
    assert WatchOk(s.harts[h], h, s.st, s.parent, s.ready, s.owner, s.swept, s.owed);
  }

  lemma ExitKeepsSwept(s: State, s': State, h: Hart, a: Action)
    requires ExitNext(s, s', h, a)
    requires HartsOk(s.harts, s.plock, s.st, s.chan) && Exclusive(s.harts) && Owners(s.harts, s.owner)
    requires SweptOk(s.harts, s.st, s.chan, s.owner, s.swept)
    ensures SweptOk(s'.harts, s'.st, s'.chan, s'.owner, s'.swept)
  {
    hide Owe, Settled, Cond, OwnsNothing, RetOk, SweptOk, Sweep, Forget;
    var owner := if a.ExitUnlock? then s.owner else s'.owner;
    SweptMove(s.harts, h, s'.harts[h], s.st, s'.st, s.chan, s'.chan, s.owner, owner, s.swept);
    assert s.harts[h := s'.harts[h]] == s'.harts;
    if a.ExitUnlock? {
      SweptForget(s'.harts, s'.st, s'.chan, owner, s.swept, WaitLock);
    }
  }

  lemma ExitKeepsNoLost(s: State, s': State, h: Hart, a: Action)
    requires ExitNext(s, s', h, a)
    requires HartsOk(s.harts, s.plock, s.st, s.chan) && Owners(s.harts, s.owner)
    requires SweptOk(s.harts, s.st, s.chan, s.owner, s.swept) && Watch(s)
    requires NoLost(s.harts, s.st, s.chan, s.parent, s.ready, s.owner, s.owed)
    ensures NoLost(s'.harts, s'.st, s'.chan, s'.parent, s'.ready, s'.owner, s'.owed)
  {
    hide HartsOk, Owners, Watch, Forget, OwnsNothing;
    ExitFacts(s, h);
  }

  lemma ScanKeepsForeign(s: State, s': State, h: Hart, a: Action)
    requires ScanNext(s, s', h, a)
    requires HartsOk(s.harts, s.plock, s.st, s.chan) && Owners(s.harts, s.owner)
    ensures Sized(s') && ForeignKept(s, s', h)
  {
    hide HartsOk, Forks, Owners, Cond, HasZombie, OwnsNothing, Settled;
    OwnFacts(s, h);
  }

  lemma ScanKeepsWatchSelf(s: State, s': State, h: Hart, a: Action)
    requires ScanNext(s, s', h, a)
    requires HartsOk(s.harts, s.plock, s.st, s.chan) && Exclusive(s.harts) && Owners(s.harts, s.owner)
    requires SweptOk(s.harts, s.st, s.chan, s.owner, s.swept) && Watch(s)
    requires NoLost(s.harts, s.st, s.chan, s.parent, s.ready, s.owner, s.owed)
    ensures Sized(s') && WatchOk(s'.harts[h], h, s'.st, s'.parent, s'.ready, s'.owner, s'.swept, s'.owed)
  {
    assert HartOk(s.harts[h], h, s.plock, s.st, s.chan);
    assert !s.harts[h].code.Run? ==> MustOwn(s.harts[h].code, WaitLock);
    assert WatchOk(s.harts[h], h, s.st, s.parent, s.ready, s.owner, s.swept, s.owed);
  }

  lemma ScanKeepsSwept(s: State, s': State, h: Hart, a: Action)
    requires ScanNext(s, s', h, a)
    requires HartsOk(s.harts, s.plock, s.st, s.chan) && Exclusive(s.harts) && Owners(s.harts, s.owner)
    requires SweptOk(s.harts, s.st, s.chan, s.owner, s.swept)
    ensures SweptOk(s'.harts, s'.st, s'.chan, s'.owner, s'.swept)
  {
    hide Owe, Settled, Cond, OwnsNothing, RetOk, SweptOk, Sweep, Forget;
    var owner := s'.owner;
    SweptMove(s.harts, h, s'.harts[h], s.st, s'.st, s.chan, s'.chan, s.owner, owner, s.swept);
    assert s.harts[h := s'.harts[h]] == s'.harts;
  }

  lemma ScanKeepsNoLost(s: State, s': State, h: Hart, a: Action)
    requires ScanNext(s, s', h, a)
    requires HartsOk(s.harts, s.plock, s.st, s.chan)
    requires NoLost(s.harts, s.st, s.chan, s.parent, s.ready, s.owner, s.owed)
    ensures NoLost(s'.harts, s'.st, s'.chan, s'.parent, s'.ready, s'.owner, s'.owed)
  {
    hide HartsOk, Forks, NoLost, OwnsNothing, Forget, Sweep, Owns, Settled;
    HartAt(s.harts, s.plock, s.st, s.chan, h);
    NoLostMove(s.harts, h, s'.harts[h], s.st, s'.st, s.chan, s'.chan, s.parent, s'.parent, s.ready, s.owner, s'.owner,
      s.owed);
    assert s.harts[h := s'.harts[h]] == s'.harts;
  }

  lemma WaitKeepsForeign(s: State, s': State, h: Hart, a: Action)
    requires WaitNext(s, s', h, a)
    requires HartsOk(s.harts, s.plock, s.st, s.chan) && Owners(s.harts, s.owner)
    ensures Sized(s') && ForeignKept(s, s', h)
  {
    hide HartsOk, Forks, Owners, Cond, HasZombie, OwnsNothing, Settled;
    OwnFacts(s, h);
  }

  lemma WaitKeepsWatchSelf(s: State, s': State, h: Hart, a: Action)
    requires WaitNext(s, s', h, a)
    requires HartsOk(s.harts, s.plock, s.st, s.chan) && Exclusive(s.harts) && Owners(s.harts, s.owner)
    requires SweptOk(s.harts, s.st, s.chan, s.owner, s.swept) && Watch(s)
    requires NoLost(s.harts, s.st, s.chan, s.parent, s.ready, s.owner, s.owed)
    ensures Sized(s') && WatchOk(s'.harts[h], h, s'.st, s'.parent, s'.ready, s'.owner, s'.swept, s'.owed)
  {
    assert HartOk(s.harts[h], h, s.plock, s.st, s.chan);
    assert !s.harts[h].code.Run? ==> MustOwn(s.harts[h].code, WaitLock);
    assert WatchOk(s.harts[h], h, s.st, s.parent, s.ready, s.owner, s.swept, s.owed);
  }

  lemma WaitKeepsSwept(s: State, s': State, h: Hart, a: Action)
    requires WaitNext(s, s', h, a)
    requires HartsOk(s.harts, s.plock, s.st, s.chan) && Exclusive(s.harts) && Owners(s.harts, s.owner)
    requires SweptOk(s.harts, s.st, s.chan, s.owner, s.swept)
    ensures SweptOk(s'.harts, s'.st, s'.chan, s'.owner, s'.swept)
  {
    hide Owe, Settled, Cond, OwnsNothing, RetOk, SweptOk, Sweep, Forget;
    var owner := if a.WaitSleep? then s'.owner else s.owner;
    SweptMove(s.harts, h, s'.harts[h], s.st, s'.st, s.chan, s'.chan, s.owner, owner, s.swept);
    assert s.harts[h := s'.harts[h]] == s'.harts;
    if !a.WaitSleep? {
      SweptForget(s'.harts, s'.st, s'.chan, owner, s.swept, WaitLock);
    }
  }

  lemma WaitKeepsNoLost(s: State, s': State, h: Hart, a: Action)
    requires WaitNext(s, s', h, a)
    requires HartsOk(s.harts, s.plock, s.st, s.chan) && Owners(s.harts, s.owner) && Watch(s)
    requires NoLost(s.harts, s.st, s.chan, s.parent, s.ready, s.owner, s.owed)
    ensures NoLost(s'.harts, s'.st, s'.chan, s'.parent, s'.ready, s'.owner, s'.owed)
  {
    hide HartsOk, Owners, Watch, Swept;
    ExitFacts(s, h);
    hide HasZombie, OwnsNothing, Forget, Sweep;
    forall q: Pid ensures HasZombie(s'.st, s'.parent, q) ==> HasZombie(s.st, s.parent, q) {
      ZombieStays(s'.st, s'.parent, s.st, s.parent, q);
    }
  }

  // The invariant, and every run.

  ghost predicate Inv(s: State) {
    && Sized(s)
    && HartsOk(s.harts, s.plock, s.st, s.chan)
    && Exclusive(s.harts)
    && AllAway(s.harts, s.st, s.chan, s.why)
    && Forks(s.harts, s.st, s.parent, s.why, s.forker)
    && Held(s.harts, s.plock)
    && Deaths(s.st, s.died, s.reaped)
    && Owners(s.harts, s.owner)
    && SweptOk(s.harts, s.st, s.chan, s.owner, s.swept)
    && NoLost(s.harts, s.st, s.chan, s.parent, s.ready, s.owner, s.owed)
    && Watch(s)
  }

  lemma WatchAll(s: State, s': State, h: Hart)
    requires Sized(s) && Sized(s') && Watch(s) && Owners(s.harts, s.owner) && ForeignKept(s, s', h)
    requires h < |s.harts| == |s'.harts| && forall g :: 0 <= g < |s.harts| && g != h ==> s'.harts[g] == s.harts[g]
    requires WatchOk(s'.harts[h], h, s'.st, s'.parent, s'.ready, s'.owner, s'.swept, s'.owed)
    ensures Watch(s')
  {
    hide WatchOk, ForeignKept, Owners;
    forall g | 0 <= g < |s'.harts|
      ensures WatchOk(s'.harts[g], g, s'.st, s'.parent, s'.ready, s'.owner, s'.swept, s'.owed)
    {
      if g != h {
        WatchOthers(s, s', h, g);
      }
    }
  }

  lemma SchedKeeps(s: State, s': State, h: Hart, a: Action)
    requires Inv(s) && SchedNext(s, s', h, a)
    ensures Inv(s')
  {
    SchedKeepsHarts(s, s', h, a);
    SchedKeepsExclusive(s, s', h, a);
    SchedKeepsAway(s, s', h, a);
    SchedKeepsForks(s, s', h, a);
    SchedKeepsHeld(s, s', h, a);
    SchedKeepsDeaths(s, s', h, a);
    SchedKeepsOwners(s, s', h, a);
    SchedKeepsSwept(s, s', h, a);
    SchedKeepsNoLost(s, s', h, a);
    SchedKeepsForeign(s, s', h, a);
    SchedKeepsWatchSelf(s, s', h, a);
    hide HartsOk, Exclusive, AllAway, Forks, Held, Deaths, Owners, SweptOk, NoLost, Watch, WatchOk, ForeignKept;
    WatchAll(s, s', h);
  }

  lemma TrapKeeps(s: State, s': State, h: Hart, a: Action)
    requires Inv(s) && TrapNext(s, s', h, a)
    ensures Inv(s')
  {
    TrapKeepsHarts(s, s', h, a);
    TrapKeepsExclusive(s, s', h, a);
    TrapKeepsAway(s, s', h, a);
    TrapKeepsForks(s, s', h, a);
    TrapKeepsHeld(s, s', h, a);
    TrapKeepsDeaths(s, s', h, a);
    TrapKeepsOwners(s, s', h, a);
    TrapKeepsSwept(s, s', h, a);
    TrapKeepsNoLost(s, s', h, a);
    TrapKeepsForeign(s, s', h, a);
    TrapKeepsWatchSelf(s, s', h, a);
    hide HartsOk, Exclusive, AllAway, Forks, Held, Deaths, Owners, SweptOk, NoLost, Watch, WatchOk, ForeignKept;
    WatchAll(s, s', h);
  }

  lemma ClientKeeps(s: State, s': State, h: Hart, a: Action)
    requires Inv(s) && ClientNext(s, s', h, a)
    ensures Inv(s')
  {
    ClientKeepsHarts(s, s', h, a);
    ClientKeepsExclusive(s, s', h, a);
    ClientKeepsAway(s, s', h, a);
    ClientKeepsForks(s, s', h, a);
    ClientKeepsHeld(s, s', h, a);
    ClientKeepsDeaths(s, s', h, a);
    ClientKeepsOwners(s, s', h, a);
    ClientKeepsSwept(s, s', h, a);
    ClientKeepsNoLost(s, s', h, a);
    ClientKeepsForeign(s, s', h, a);
    ClientKeepsWatchSelf(s, s', h, a);
    hide HartsOk, Exclusive, AllAway, Forks, Held, Deaths, Owners, SweptOk, NoLost, Watch, WatchOk, ForeignKept;
    WatchAll(s, s', h);
  }

  lemma WakeKeeps(s: State, s': State, h: Hart, a: Action)
    requires Inv(s) && WakeNext(s, s', h, a)
    ensures Inv(s')
  {
    WakeKeepsHarts(s, s', h, a);
    WakeKeepsExclusive(s, s', h, a);
    WakeKeepsAway(s, s', h, a);
    WakeKeepsForks(s, s', h, a);
    WakeKeepsHeld(s, s', h, a);
    WakeKeepsDeaths(s, s', h, a);
    WakeKeepsOwners(s, s', h, a);
    WakeKeepsSwept(s, s', h, a);
    WakeKeepsNoLost(s, s', h, a);
    WakeKeepsForeign(s, s', h, a);
    WakeKeepsWatchSelf(s, s', h, a);
    hide HartsOk, Exclusive, AllAway, Forks, Held, Deaths, Owners, SweptOk, NoLost, Watch, WatchOk, ForeignKept;
    WatchAll(s, s', h);
  }

  lemma SleepKeeps(s: State, s': State, h: Hart, a: Action)
    requires Inv(s) && SleepNext(s, s', h, a)
    ensures Inv(s')
  {
    SleepKeepsHarts(s, s', h, a);
    SleepKeepsExclusive(s, s', h, a);
    SleepKeepsAway(s, s', h, a);
    SleepKeepsForks(s, s', h, a);
    SleepKeepsHeld(s, s', h, a);
    SleepKeepsDeaths(s, s', h, a);
    SleepKeepsOwners(s, s', h, a);
    SleepKeepsSwept(s, s', h, a);
    SleepKeepsNoLost(s, s', h, a);
    SleepKeepsForeign(s, s', h, a);
    SleepKeepsWatchSelf(s, s', h, a);
    hide HartsOk, Exclusive, AllAway, Forks, Held, Deaths, Owners, SweptOk, NoLost, Watch, WatchOk, ForeignKept;
    WatchAll(s, s', h);
  }

  lemma ForkKeeps(s: State, s': State, h: Hart, a: Action)
    requires Inv(s) && ForkNext(s, s', h, a)
    ensures Inv(s')
  {
    ForkKeepsHarts(s, s', h, a);
    ForkKeepsExclusive(s, s', h, a);
    ForkKeepsAway(s, s', h, a);
    ForkKeepsForks(s, s', h, a);
    ForkKeepsHeld(s, s', h, a);
    ForkKeepsDeaths(s, s', h, a);
    ForkKeepsOwners(s, s', h, a);
    ForkKeepsSwept(s, s', h, a);
    ForkKeepsNoLost(s, s', h, a);
    ForkKeepsForeign(s, s', h, a);
    ForkKeepsWatchSelf(s, s', h, a);
    hide HartsOk, Exclusive, AllAway, Forks, Held, Deaths, Owners, SweptOk, NoLost, Watch, WatchOk, ForeignKept;
    WatchAll(s, s', h);
  }

  lemma ReparentKeeps(s: State, s': State, h: Hart, a: Action)
    requires Inv(s) && ReparentNext(s, s', h, a)
    ensures Inv(s')
  {
    ReparentKeepsHarts(s, s', h, a);
    ReparentKeepsExclusive(s, s', h, a);
    ReparentKeepsAway(s, s', h, a);
    ReparentKeepsForks(s, s', h, a);
    ReparentKeepsHeld(s, s', h, a);
    ReparentKeepsDeaths(s, s', h, a);
    ReparentKeepsOwners(s, s', h, a);
    ReparentKeepsSwept(s, s', h, a);
    ReparentKeepsNoLost(s, s', h, a);
    ReparentKeepsForeign(s, s', h, a);
    ReparentKeepsWatchSelf(s, s', h, a);
    hide HartsOk, Exclusive, AllAway, Forks, Held, Deaths, Owners, SweptOk, NoLost, Watch, WatchOk, ForeignKept;
    WatchAll(s, s', h);
  }

  lemma ExitKeeps(s: State, s': State, h: Hart, a: Action)
    requires Inv(s) && ExitNext(s, s', h, a)
    ensures Inv(s')
  {
    ExitKeepsHarts(s, s', h, a);
    ExitKeepsExclusive(s, s', h, a);
    ExitKeepsAway(s, s', h, a);
    ExitKeepsForks(s, s', h, a);
    ExitKeepsHeld(s, s', h, a);
    ExitKeepsDeaths(s, s', h, a);
    ExitKeepsOwners(s, s', h, a);
    ExitKeepsSwept(s, s', h, a);
    ExitKeepsNoLost(s, s', h, a);
    ExitKeepsForeign(s, s', h, a);
    ExitKeepsWatchSelf(s, s', h, a);
    hide HartsOk, Exclusive, AllAway, Forks, Held, Deaths, Owners, SweptOk, NoLost, Watch, WatchOk, ForeignKept;
    WatchAll(s, s', h);
  }

  lemma ScanKeeps(s: State, s': State, h: Hart, a: Action)
    requires Inv(s) && ScanNext(s, s', h, a)
    ensures Inv(s')
  {
    ScanKeepsHarts(s, s', h, a);
    ScanKeepsExclusive(s, s', h, a);
    ScanKeepsAway(s, s', h, a);
    ScanKeepsForks(s, s', h, a);
    ScanKeepsHeld(s, s', h, a);
    ScanKeepsDeaths(s, s', h, a);
    ScanKeepsOwners(s, s', h, a);
    ScanKeepsSwept(s, s', h, a);
    ScanKeepsNoLost(s, s', h, a);
    ScanKeepsForeign(s, s', h, a);
    ScanKeepsWatchSelf(s, s', h, a);
    hide HartsOk, Exclusive, AllAway, Forks, Held, Deaths, Owners, SweptOk, NoLost, Watch, WatchOk, ForeignKept;
    WatchAll(s, s', h);
  }

  lemma WaitKeeps(s: State, s': State, h: Hart, a: Action)
    requires Inv(s) && WaitNext(s, s', h, a)
    ensures Inv(s')
  {
    WaitKeepsHarts(s, s', h, a);
    WaitKeepsExclusive(s, s', h, a);
    WaitKeepsAway(s, s', h, a);
    WaitKeepsForks(s, s', h, a);
    WaitKeepsHeld(s, s', h, a);
    WaitKeepsDeaths(s, s', h, a);
    WaitKeepsOwners(s, s', h, a);
    WaitKeepsSwept(s, s', h, a);
    WaitKeepsNoLost(s, s', h, a);
    WaitKeepsForeign(s, s', h, a);
    WaitKeepsWatchSelf(s, s', h, a);
    hide HartsOk, Exclusive, AllAway, Forks, Held, Deaths, Owners, SweptOk, NoLost, Watch, WatchOk, ForeignKept;
    WatchAll(s, s', h);
  }

  lemma KeepNext(s: State, s': State, h: Hart, a: Action)
    requires Inv(s) && Next(s, s', h, a)
    ensures Inv(s')
  {
    hide Inv, SchedNext, TrapNext, ClientNext, WakeNext, SleepNext, ForkNext, ReparentNext, ExitNext, ScanNext,
      WaitNext;
    if SchedNext(s, s', h, a) {
      SchedKeeps(s, s', h, a);
    } else if TrapNext(s, s', h, a) {
      TrapKeeps(s, s', h, a);
    } else if ClientNext(s, s', h, a) {
      ClientKeeps(s, s', h, a);
    } else if WakeNext(s, s', h, a) {
      WakeKeeps(s, s', h, a);
    } else if SleepNext(s, s', h, a) {
      SleepKeeps(s, s', h, a);
    } else if ForkNext(s, s', h, a) {
      ForkKeeps(s, s', h, a);
    } else if ReparentNext(s, s', h, a) {
      ReparentKeeps(s, s', h, a);
    } else if ExitNext(s, s', h, a) {
      ExitKeeps(s, s', h, a);
    } else if ScanNext(s, s', h, a) {
      ScanKeeps(s, s', h, a);
    } else {
      WaitKeeps(s, s', h, a);
    }
  }

  lemma InitInv(s: State)
    requires Init(s)
    ensures Inv(s)
  {
  }

  ghost predicate Reaches(s: State, steps: seq<(Hart, Action)>, s': State)
    decreases |steps|
  {
    if steps == [] then s' == s
    else exists m :: Next(s, m, steps[0].0, steps[0].1) && Reaches(m, steps[1..], s')
  }

  ghost predicate Reachable(s: State) {
    exists s0, steps :: Init(s0) && Reaches(s0, steps, s)
  }

  lemma {:induction false} ReachesKeeps(s: State, steps: seq<(Hart, Action)>, s': State)
    requires Inv(s) && Reaches(s, steps, s')
    ensures Inv(s')
    decreases |steps|
  {
    hide Inv, Next;
    if steps != [] {
      var m :| Next(s, m, steps[0].0, steps[0].1) && Reaches(m, steps[1..], s');
      KeepNext(s, m, steps[0].0, steps[0].1);
      ReachesKeeps(m, steps[1..], s');
    }
  }

  lemma ReachableInv(s: State)
    requires Reachable(s)
    ensures Inv(s)
  {
    hide Inv, Next, Init, Reaches;
    var s0, steps :| Init(s0) && Reaches(s0, steps, s);
    InitInv(s0);
    ReachesKeeps(s0, steps, s);
  }

  // What follows from it.

  /** No lost wakeup. If q sleeps on c and the awaited condition holds, then c's lock is held by a
      hart that owes a complete wakeup(c) before it may release the lock and has not visited q yet:
      it is in wakeup(c) short of q, or in client code or in another wakeup of that code. Where
      wait_lock is held by reparent, it is in wakeup(c). */
  lemma NoLostWakeup(s: State, q: Pid, c: Chan)
    requires Reachable(s) && Sized(s)
    requires s.st[q].Sleeping? && s.chan[q] == Some(c) && Cond(s.st, s.parent, s.ready, c)
    ensures LockOf(c) in s.owner && c in s.owed && Swept(s.swept, c) <= q
    ensures s.owner[LockOf(c)] < |s.harts| && s.harts[s.owner[LockOf(c)]].Exec?
    ensures var code := s.harts[s.owner[LockOf(c)]].code;
      && (code.Run? || code.Killing? || code.Waking?)
      && (code.Waking? && code.c == c ==> code.i <= q)
      && (c.ChildOf? ==>
            code.Run? || code.Killing? || (code.Waking? && (code.r.ToRun? || (code.c == c && code.i <= q))))
  {
    hide Reachable, HartsOk, AllAway, Forks, Exclusive, Held, Deaths;
    ReachableInv(s);
    var h := s.owner[LockOf(c)];
    assert MayOwn(s.harts[h].code, LockOf(c));
    assert WatchOk(s.harts[h], h, s.st, s.parent, s.ready, s.owner, s.swept, s.owed);
  }

  /** Whenever wait_lock is free, no process asleep in wait() has a zombie child. */
  lemma WaitMissesNoZombie(s: State, q: Pid)
    requires Reachable(s) && Sized(s)
    requires WaitLock !in s.owner && s.st[q].Sleeping? && s.chan[q] == Some(ChildOf(q))
    ensures !HasZombie(s.st, s.parent, q)
  {
    hide Reachable;
    if HasZombie(s.st, s.parent, q) {
      NoLostWakeup(s, q, ChildOf(q));
    }
  }

  /** At most one hart has c->proc == p; and while p->lock is free, p is RUNNING exactly when one has. */
  lemma OneHart(s: State, p: Pid)
    requires Reachable(s) && Sized(s)
    ensures forall g, h :: 0 <= g < h < |s.harts| ==> !(Has(s.harts[g], p) && Has(s.harts[h], p))
    ensures s.plock[p].None? ==> (s.st[p].Running? <==> exists h :: 0 <= h < |s.harts| && Has(s.harts[h], p))
  {
    hide Reachable, Forks, Held, Deaths, Owners, SweptOk, NoLost, Watch;
    ReachableInv(s);
    if s.plock[p].None? {
      if h :| 0 <= h < |s.harts| && Has(s.harts[h], p) {
        assert HartOk(s.harts[h], h, s.plock, s.st, s.chan);
      }
      if s.st[p].Running? && Away(s.harts, p) {
        assert AwayOk(s.st[p], s.chan[p], s.why[p], p);
      }
      if h :| 0 <= h < |s.harts| && Executes(s.harts[h], p) {
        assert Has(s.harts[h], p);
      }
    }
  }

  /** wait() finds a zombie only after the zombie's hart has left its stack for good. */
  lemma ReapedOffStack(s: State, h: Hart, k: Pid)
    requires Reachable(s) && Sized(s) && h < |s.harts|
    requires s.harts[h].Exec? && s.harts[h].code == WaitLocked(k) && s.st[k].Zombie?
    ensures forall g :: 0 <= g < |s.harts| ==> !Has(s.harts[g], k)
    ensures s.why[k].FromExit?
  {
    hide Reachable, Forks, Held, Deaths, SweptOk, NoLost, Watch;
    ReachableInv(s);
    assert HartOk(s.harts[h], h, s.plock, s.st, s.chan);
    forall g | 0 <= g < |s.harts| ensures !Has(s.harts[g], k) {
      assert HartOk(s.harts[g], g, s.plock, s.st, s.chan);
    }
    forall g | 0 <= g < |s.harts| ensures !Executes(s.harts[g], k) {
      assert !Has(s.harts[g], k);
    }
    assert Away(s.harts, k);
  }

  /** Every death is reaped at most once: as often as it died, or once less while it is a zombie. */
  lemma ReapedOnce(s: State, p: Pid)
    requires Reachable(s) && Sized(s)
    ensures s.died[p] == s.reaped[p] + if s.st[p].Zombie? then 1 else 0
  {
    hide Reachable, HartsOk, AllAway, Forks, Exclusive, Held, Owners, SweptOk, NoLost, Watch;
    ReachableInv(s);
  }

  /** The panics of sched() and exit() are unreachable: a process that switches away holds its own
      p->lock, no other p->lock and no condition lock, is not RUNNING, and is never switched to again
      once it has exited. */
  lemma NoSchedPanic(s: State, h: Hart, p: Pid)
    requires Reachable(s) && Sized(s) && h < |s.harts|
    requires s.harts[h].Exec? && s.harts[h].self == Some(p)
    ensures s.harts[h].code.Leaving? ==> s.plock[p] == Some(h) && !s.st[p].Running?
    ensures s.harts[h].code.Leaving? ==>
      OwnsNothing(s.owner, h) && forall q :: 0 <= q < NPROC && q != p ==> s.plock[q] != Some(h)
    ensures s.harts[h].code.Resumed? ==> !s.harts[h].code.w.FromExit?
  {
    hide Reachable, Forks, Deaths, SweptOk, NoLost, Watch, AllAway;
    ReachableInv(s);
    assert HartOk(s.harts[h], h, s.plock, s.st, s.chan);
  }
}
