/** Sleeping on the clock: sleep_n_ticks, sleep, wakeup and the clock interrupt, as atomic
    steps of N processes, one clock handler and the rest of the kernel, in any interleaving.
    The rest of the kernel (scheduler, yield, wakeups on other channels) is over-approximated:
    it may take any free process lock and, holding it, move a process that is not asleep on
    the tick channel between states. */
module SleepWakeup {
  import opened Arith

  const WORD: nat := 0x1_0000_0000_0000_0000

  datatype Owner = Free | Process(p: nat) | Handler | Other

  datatype RunState = Runnable | Running | Sleeping

  datatype Chan = NoChan | Ticks | OtherChan

  /** Where a process stands in sleep_n_ticks and the sleep it calls. */
  datatype Pc =
    | Out        // not in sleep_n_ticks
    | Want       // about to take the timer lock
    | Read       // holds it, about to read the start tick
    | Test       // holds it, about to test the loop condition
    | Commit     // decided to sleep, about to take its process lock
    | Drop       // holds both locks, about to release the timer lock
    | Mark       // about to set channel and state
    | Switch     // marked, about to switch away
    | Asleep     // switched away
    | Resumed    // dispatched again, holds its process lock
    | Leave      // channel cleared, about to release the process lock
    | Again      // about to take the timer lock back
    | Finish(code: int)  // about to release the timer lock and return

  /** A completed call: result, request, and the true tick counts at start and return. */
  datatype Return = None | Return(code: int, n: int, since: nat, at: nat, killed: bool)

  /** since and tested are true (unbounded) tick counts; the code keeps them modulo WORD. */
  datatype Proc = Proc(pc: Pc, state: RunState, chan: Chan, killed: bool, n: int, since: nat, tested: nat, last: Return)

  datatype Clock = Idle | Entered | Scan(i: nat) | Hold(i: nat) | Done(i: nat)

  /** ticks counts all clock interrupts; _ticks is ticks % WORD. */
  datatype State = State(ticks: nat, timer: Owner, locks: seq<Owner>, procs: seq<Proc>, clock: Clock)

  /** The loop condition of sleep_n_ticks, in 64-bit arithmetic. */
  predicate MustWait(ticks: nat, since: nat, n: int) {
    (ticks % WORD - since % WORD) % WORD < n
  }

  datatype Step =
    | Call(p: nat, n: int)
    | LockTimer(p: nat)
    | ReadTicks(p: nat)
    | TestTicks(p: nat)
    | LockSelf(p: nat)
    | UnlockTimer(p: nat)
    | MarkAsleep(p: nat)
    | SwitchAway(p: nat)
    | Dispatch(p: nat)
    | ClearChan(p: nat)
    | UnlockSelf(p: nat)
    | RelockTimer(p: nat)
    | ReturnFrom(p: nat)
    | Kill(p: nat)
    | OtherLock(p: nat)
    | OtherMove(p: nat, state: RunState, chan: Chan)
    | OtherUnlock(p: nat)
    | ClockEnter
    | ClockTick
    | ClockTake
    | ClockWake
    | ClockDrop
    | ClockLeave

  predicate ClockStep(e: Step) {
    e.ClockEnter? || e.ClockTick? || e.ClockTake? || e.ClockWake? || e.ClockDrop? || e.ClockLeave?
  }

  predicate Enabled(s: State, e: Step)
    requires |s.locks| == |s.procs|
  {
    if ClockStep(e) then
      match e
      case ClockEnter => s.clock.Idle? && s.timer.Free?
      case ClockTick => s.clock.Entered?
      case ClockTake => s.clock.Scan? && s.clock.i < |s.procs| && s.locks[s.clock.i].Free?
      case ClockWake => s.clock.Hold? && s.clock.i < |s.procs|
      case ClockDrop => s.clock.Done? && s.clock.i < |s.procs|
      case _ => s.clock.Scan? && s.clock.i == |s.procs|
    else
      e.p < |s.procs| && ProcEnabled(s.timer, s.locks[e.p], s.procs[e.p], e)
  }

  predicate ProcEnabled(timer: Owner, lock: Owner, q: Proc, e: Step)
    requires !ClockStep(e)
  {
    match e
    case Call(_, _) => q.pc.Out? && q.state.Running?
    case LockTimer(_) => q.pc.Want? && timer.Free?
    case ReadTicks(_) => q.pc.Read?
    case TestTicks(_) => q.pc.Test?
    case LockSelf(_) => q.pc.Commit? && lock.Free?
    case UnlockTimer(_) => q.pc.Drop?
    case MarkAsleep(_) => q.pc.Mark?
    case SwitchAway(_) => q.pc.Switch?
    case Dispatch(_) => q.pc.Asleep? && q.state.Runnable? && lock.Other?
    case ClearChan(_) => q.pc.Resumed?
    case UnlockSelf(_) => q.pc.Leave?
    case RelockTimer(_) => q.pc.Again? && timer.Free?
    case ReturnFrom(_) => q.pc.Finish?
    case Kill(_) => true
    case OtherLock(_) => lock.Free?
    case OtherMove(_, state, chan) =>
      lock.Other? && chan != Ticks && (q.pc.Out? || ((q.pc.Want? || q.pc.Again?) && !state.Sleeping?))
    case OtherUnlock(_) => lock.Other?
  }

  /** The process that a process step moves. */
  function MoveProc(ticks: nat, q: Proc, e: Step): Proc
    requires !ClockStep(e)
  {
    match e
    case Call(_, n) =>
      if n < 0 then q.(last := Return(-1, n, ticks, ticks, q.killed)) else q.(pc := Want, n := n)
    case LockTimer(_) => q.(pc := Read)
    case ReadTicks(_) => q.(pc := Test, since := ticks)
    case TestTicks(_) =>
      if !MustWait(ticks, q.since, q.n) then q.(pc := Finish(0))
      else if q.killed then q.(pc := Finish(-2))
      else q.(pc := Commit, tested := ticks)
    case LockSelf(_) => q.(pc := Drop)
    case UnlockTimer(_) => q.(pc := Mark)
    case MarkAsleep(_) => q.(pc := Switch, chan := Ticks, state := Sleeping)
    case SwitchAway(_) => q.(pc := Asleep)
    case Dispatch(_) => q.(pc := Resumed, state := Running)
    case ClearChan(_) => q.(pc := Leave, chan := NoChan)
    case UnlockSelf(_) => q.(pc := Again)
    case RelockTimer(_) => q.(pc := Test)
    case ReturnFrom(_) =>
      if q.pc.Finish? then q.(pc := Out, last := Return(q.pc.code, q.n, q.since, ticks, q.killed)) else q
    case Kill(_) => q.(killed := true)
    case OtherMove(_, state, chan) => q.(state := state, chan := chan)
    case _ => q
  }

  function MoveTimer(timer: Owner, e: Step): Owner
    requires !ClockStep(e)
  {
    match e
    case LockTimer(p) => Process(p)
    case RelockTimer(p) => Process(p)
    case UnlockTimer(_) => Free
    case ReturnFrom(_) => Free
    case _ => timer
  }

  function MoveLock(lock: Owner, e: Step): Owner
    requires !ClockStep(e)
  {
    match e
    case LockSelf(p) => Process(p)
    case SwitchAway(_) => Other     // swtch hands the lock to the scheduler
    case Dispatch(p) => Process(p)  // and back
    case UnlockSelf(_) => Free
    case OtherLock(_) => Other
    case OtherUnlock(_) => Free
    case _ => lock
  }

  function Next(s: State, e: Step): State
    requires |s.locks| == |s.procs| && Enabled(s, e)
  {
    match e
    case ClockEnter => s.(timer := Handler, clock := Entered)
    case ClockTick => s.(ticks := s.ticks + 1, clock := Scan(0))
    case ClockTake => s.(locks := s.locks[s.clock.i := Handler], clock := Hold(s.clock.i))
    case ClockWake =>
      var q := s.procs[s.clock.i];
      s.(clock := Done(s.clock.i),
         procs := if q.state.Sleeping? && q.chan.Ticks? then s.procs[s.clock.i := q.(state := Runnable)] else s.procs)
    case ClockDrop => s.(locks := s.locks[s.clock.i := Free], clock := Scan(s.clock.i + 1))
    case ClockLeave => s.(timer := Free, clock := Idle)
    case _ =>
      s.(timer := MoveTimer(s.timer, e),
         locks := s.locks[e.p := MoveLock(s.locks[e.p], e)],
         procs := s.procs[e.p := MoveProc(s.ticks, s.procs[e.p], e)])
  }

  // ----------------------------------------------------------- invariant

  predicate HoldsTimer(pc: Pc) {
    pc.Read? || pc.Test? || pc.Commit? || pc.Drop? || pc.Finish?
  }

  predicate HoldsSelf(pc: Pc) {
    pc.Drop? || pc.Mark? || pc.Switch? || pc.Resumed? || pc.Leave?
  }

  /** Every lock is held by whoever stands where the code holds it. */
  ghost predicate LockOk(timer: Owner, lock: Owner, clock: Clock, p: nat, pc: Pc) {
    && (timer == Process(p) <==> HoldsTimer(pc))
    && (lock == Process(p) <==> HoldsSelf(pc))
    && (lock.Process? ==> lock.p == p)
    && (lock.Handler? <==> clock == Hold(p) || clock == Done(p))
  }

  /** The clock has ticked and has not looked at process p yet. */
  predicate ClockComing(clock: Clock, p: nat) {
    (clock.Scan? && clock.i <= p) || (clock.Hold? && clock.i <= p) || (clock.Done? && clock.i < p)
  }

  /** p decided to sleep and nothing has woken it. */
  predicate Committed(q: Proc) {
    q.pc.Commit? || q.pc.Drop? || q.pc.Mark? || q.pc.Switch? || (q.pc.Asleep? && q.state.Sleeping?)
  }

  /** The heart: a process on its way to sleep has seen the current tick, or the handler is
      about to come by and wake it. */
  ghost predicate Fresh(ticks: nat, clock: Clock, p: nat, q: Proc) {
    && (Committed(q) ==> MustWait(q.tested, q.since, q.n))
    && (Committed(q) ==> q.tested == ticks || (q.tested + 1 == ticks && ClockComing(clock, p) && !HoldsTimer(q.pc)))
    && (q.pc.Switch? || (q.pc.Asleep? && q.state.Sleeping?) ==> q.chan == Ticks && q.state.Sleeping?)
    && (q.pc.Asleep? ==> q.state.Sleeping? || q.state.Runnable?)
    && (q.chan == Ticks && q.state.Sleeping? ==> q.pc.Switch? || q.pc.Asleep?)
    && (q.chan == Ticks ==> q.pc.Switch? || q.pc.Asleep? || q.pc.Resumed?)
  }

  ghost predicate ReturnOk(ticks: nat, q: Proc) {
    && (!q.pc.Out? ==> q.n >= 0)
    && (!q.pc.Out? && !q.pc.Want? && !q.pc.Read? ==> q.since <= ticks)
    && (q.pc.Finish? ==> (q.pc.code == 0 && q.since + q.n <= ticks) || (q.pc.code == -2 && q.killed))
    && (q.last.Return? ==> Kept(q.last, ticks))
  }

  /** What sleep_n_ticks promises about a completed call. */
  predicate Kept(r: Return, ticks: nat)
    requires r.Return?
  {
    && r.since <= r.at <= ticks
    && (r.code == -1 <==> r.n < 0)
    && (r.code == 0 ==> r.since + r.n <= r.at)
    && (r.code == -2 ==> r.killed)
    && -2 <= r.code <= 0
  }

  ghost predicate Inv(s: State) {
    && |s.locks| == |s.procs|
    && (forall p: nat :: p < |s.procs| ==> LockOk(s.timer, s.locks[p], s.clock, p, s.procs[p].pc))
    && (forall p: nat :: p < |s.procs| ==> Fresh(s.ticks, s.clock, p, s.procs[p]))
    && (forall p: nat :: p < |s.procs| ==> ReturnOk(s.ticks, s.procs[p]))
    && (s.timer.Handler? <==> !s.clock.Idle?)
    && (s.timer.Process? ==> s.timer.p < |s.procs|)
    && (s.clock.Hold? || s.clock.Done? ==> s.clock.i < |s.procs|)
    && !s.timer.Other?
  }

  ghost predicate Init(s: State) {
    && |s.locks| == |s.procs| && s.timer.Free? && s.clock.Idle?
    && (forall p: nat :: p < |s.procs| ==> s.locks[p].Free?)
    && (forall p: nat :: p < |s.procs| ==> s.procs[p].pc.Out? && s.procs[p].chan != Ticks && s.procs[p].last.None?)
  }

  lemma InitInv(s: State)
    requires Init(s)
    ensures Inv(s)
  {}

  /** The code's test is on the true number of ticks elapsed, modulo 2^64. */
  lemma ElapsedModWord(ticks: nat, since: nat, n: int)
    requires since <= ticks
    ensures MustWait(ticks, since, n) <==> (ticks - since) % WORD < n
  {
    ModDiff(ticks, since, WORD);
  }

  /** As long as fewer than 2^64 ticks have passed, the code waits exactly until n of them have. */
  lemma WaitsExactly(ticks: nat, since: nat, n: int)
    requires since <= ticks < since + WORD
    ensures MustWait(ticks, since, n) <==> ticks < since + n
  {
    ElapsedModWord(ticks, since, n);
    ModSmaller(ticks - since, WORD);
  }

  /** 64-bit wrap-around can only make elapsed time look shorter. */
  lemma WrapIsShort(ticks: nat, since: nat, n: int)
    requires since <= ticks && !MustWait(ticks, since, n)
    ensures since + n <= ticks
  {
    ModDiff(ticks, since, WORD);
  }

  lemma SelfLock(timer: Owner, lock: Owner, clock: Clock, ticks: nat, q: Proc, e: Step)
    requires !ClockStep(e) && ProcEnabled(timer, lock, q, e) && LockOk(timer, lock, clock, e.p, q.pc)
    ensures LockOk(MoveTimer(timer, e), MoveLock(lock, e), clock, e.p, MoveProc(ticks, q, e).pc)
  {}

  lemma OthersLock(timer: Owner, lock: Owner, clock: Clock, q: Proc, e: Step, r: nat, rlock: Owner, rpc: Pc)
    requires !ClockStep(e) && ProcEnabled(timer, lock, q, e) && LockOk(timer, lock, clock, e.p, q.pc) && e.p != r
    requires LockOk(timer, rlock, clock, r, rpc)
    ensures LockOk(MoveTimer(timer, e), rlock, clock, r, rpc)
  {}

  lemma SelfFresh(timer: Owner, lock: Owner, clock: Clock, ticks: nat, q: Proc, e: Step)
    requires !ClockStep(e) && ProcEnabled(timer, lock, q, e) && LockOk(timer, lock, clock, e.p, q.pc)
    requires timer.Handler? <==> !clock.Idle?
    requires Fresh(ticks, clock, e.p, q)
    ensures Fresh(ticks, clock, e.p, MoveProc(ticks, q, e))
  {
    hide MustWait;
  }

  lemma SelfReturn(timer: Owner, lock: Owner, ticks: nat, q: Proc, e: Step)
    requires !ClockStep(e) && ProcEnabled(timer, lock, q, e) && ReturnOk(ticks, q)
    ensures ReturnOk(ticks, MoveProc(ticks, q, e))
  {
    if e.TestTicks? && !MustWait(ticks, q.since, q.n) { WrapIsShort(ticks, q.since, q.n); }
    hide MustWait;
  }

  lemma ProcStepInv(s: State, e: Step)
    requires Inv(s) && !ClockStep(e) && Enabled(s, e)
    ensures Inv(Next(s, e))
  {
    hide MoveProc, Fresh, ReturnOk, LockOk;
    var s', p := Next(s, e), e.p;
    SelfLock(s.timer, s.locks[p], s.clock, s.ticks, s.procs[p], e);
    SelfFresh(s.timer, s.locks[p], s.clock, s.ticks, s.procs[p], e);
    SelfReturn(s.timer, s.locks[p], s.ticks, s.procs[p], e);
    forall r: nat | r < |s.procs| && r != p ensures LockOk(s'.timer, s'.locks[r], s'.clock, r, s'.procs[r].pc) {
      OthersLock(s.timer, s.locks[p], s.clock, s.procs[p], e, r, s.locks[r], s.procs[r].pc);
    }
    TimerStaysOurs(s.timer, s.locks[p], s.clock, s.procs[p], e);
    assert forall r: nat :: r < |s.procs| && r != p ==> s'.procs[r] == s.procs[r];
  }

  lemma TimerStaysOurs(timer: Owner, lock: Owner, clock: Clock, q: Proc, e: Step)
    requires !ClockStep(e) && ProcEnabled(timer, lock, q, e) && LockOk(timer, lock, clock, e.p, q.pc)
    requires timer.Handler? <==> !clock.Idle?
    ensures MoveTimer(timer, e).Handler? <==> timer.Handler?
    ensures MoveTimer(timer, e) == timer || MoveTimer(timer, e).Free? || MoveTimer(timer, e) == Process(e.p)
  {}

  lemma ClockStepInv(s: State, e: Step)
    requires Inv(s) && ClockStep(e) && Enabled(s, e)
    ensures Inv(Next(s, e))
  {
    hide LockOk, Fresh, ReturnOk;
    var s' := Next(s, e);
    forall q: nat | q < |s.procs|
      ensures LockOk(s'.timer, s'.locks[q], s'.clock, q, s'.procs[q].pc) && Fresh(s'.ticks, s'.clock, q, s'.procs[q])
    {
      ClockPasses(s, e, q);
    }
    forall q: nat | q < |s.procs| ensures ReturnOk(s'.ticks, s'.procs[q]) {
      LaterOk(s.ticks, s'.ticks, s.procs[q]);
    }
  }

  lemma ClockPasses(s: State, e: Step, q: nat)
    requires |s.locks| == |s.procs| && ClockStep(e) && Enabled(s, e) && q < |s.procs|
    requires LockOk(s.timer, s.locks[q], s.clock, q, s.procs[q].pc) && Fresh(s.ticks, s.clock, q, s.procs[q])
    requires s.timer.Handler? <==> !s.clock.Idle?
    ensures var s' := Next(s, e);
            LockOk(s'.timer, s'.locks[q], s'.clock, q, s'.procs[q].pc) && Fresh(s'.ticks, s'.clock, q, s'.procs[q])
  {
    hide MustWait;
  }

  lemma LaterOk(ticks: nat, ticks': nat, q: Proc)
    requires ReturnOk(ticks, q) && ticks <= ticks'
    ensures ReturnOk(ticks', q) && ReturnOk(ticks', q.(state := Runnable))
  {}

  // ------------------------------------------------------------ theorems

  /** A run: any start, any number of processes, any interleaving. */
  ghost predicate Run(s: seq<State>, es: seq<Step>) {
    && |s| == |es| + 1 && Init(s[0])
    && forall i :: 0 <= i < |es| ==> |s[i].locks| == |s[i].procs| && Enabled(s[i], es[i]) && s[i + 1] == Next(s[i], es[i])
  }

  lemma {:induction false} RunInv(s: seq<State>, es: seq<Step>, k: nat)
    requires Run(s, es) && k < |s|
    ensures Inv(s[k])
  {
    if k == 0 {
      InitInv(s[0]);
    } else {
      RunInv(s, es, k - 1);
      assert s[k - 1 + 1] == Next(s[k - 1], es[k - 1]);
      if ClockStep(es[k - 1]) { ClockStepInv(s[k - 1], es[k - 1]); } else { ProcStepInv(s[k - 1], es[k - 1]); }
    }
  }

  /** No lost wakeup: whenever the timer lock is free, every process asleep on the tick channel tested its
      condition against the current tick count. Fewer than n ticks, modulo 2^64, have passed since its call began. */
  lemma NoLostWakeup(s: seq<State>, es: seq<Step>, k: nat, p: nat)
    requires Run(s, es) && k < |s| && s[k].timer.Free? && p < |s[k].procs|
    requires s[k].procs[p].state.Sleeping? && s[k].procs[p].chan.Ticks?
    ensures var t, q := s[k].ticks, s[k].procs[p];
            q.tested == t && q.since <= t && (t - q.since) % WORD < q.n && (t < q.since + WORD ==> t < q.since + q.n)
  {
    RunInv(s, es, k);
    var t, q := s[k].ticks, s[k].procs[p];
    assert Fresh(t, s[k].clock, p, q) && ReturnOk(t, q);
    ElapsedModWord(t, q.since, q.n);
    ModSmaller(t - q.since, WORD);
  }

  /** No oversleeping: a process that tests its condition returns 0 if at least n, and fewer than 2^64, ticks have passed;
      with fewer than n it returns -2 if it was killed and otherwise goes to sleep. */
  lemma TestDecides(s: seq<State>, es: seq<Step>, k: nat, p: nat)
    requires Run(s, es) && k < |es| && es[k] == TestTicks(p)
    requires s[k].ticks < s[k].procs[p].since + WORD
    ensures p < |s[k].procs| && s[k].procs[p].since <= s[k].ticks && p < |s[k + 1].procs|
    ensures var q, t := s[k].procs[p], s[k].ticks;
            s[k + 1].procs[p].pc == if q.since + q.n <= t then Finish(0) else if q.killed then Finish(-2) else Commit
  {
    RunInv(s, es, k);
    assert s[k + 1] == Next(s[k], es[k]);
    assert ReturnOk(s[k].ticks, s[k].procs[p]);
    WaitsExactly(s[k].ticks, s[k].procs[p].since, s[k].procs[p].n);
  }

  /** Every completed sleep_n_ticks(n): 0 means that at least n ticks passed, -2 that the process was
      killed, -1 exactly that n was negative. */
  lemma SleepIsLongEnough(s: seq<State>, es: seq<Step>, k: nat, p: nat)
    requires Run(s, es) && k < |s| && p < |s[k].procs| && s[k].procs[p].last.Return?
    ensures Kept(s[k].procs[p].last, s[k].ticks)
  {
    RunInv(s, es, k);
    assert ReturnOk(s[k].ticks, s[k].procs[p]);
  }

  /** The locks exclude: between them, processes and handler never hold the timer lock twice. */
  lemma TimerLockExcludes(s: seq<State>, es: seq<Step>, k: nat, p: nat, q: nat)
    requires Run(s, es) && k < |s| && p < |s[k].procs| && q < |s[k].procs|
    requires HoldsTimer(s[k].procs[p].pc)
    ensures s[k].clock.Idle? && (HoldsTimer(s[k].procs[q].pc) ==> p == q)
  {
    RunInv(s, es, k);
    assert LockOk(s[k].timer, s[k].locks[p], s[k].clock, p, s[k].procs[p].pc);
    assert LockOk(s[k].timer, s[k].locks[q], s[k].clock, q, s[k].procs[q].pc);
  }

  // ----------------------------------------------- nothing is in the way

  /** The steps can be taken one after the other from s, and lead to t. */
  ghost predicate Reach(s: State, es: seq<Step>, t: State)
    decreases |es|
  {
    if es == [] then s == t
    else |s.locks| == |s.procs| && Enabled(s, es[0]) && Reach(Next(s, es[0]), es[1..], t)
  }

  lemma {:induction false} Do(s: State, es: seq<Step>, t: State, e: Step) returns (es': seq<Step>, t': State)
    requires Reach(s, es, t) && |t.locks| == |t.procs| && Enabled(t, e)
    ensures es' == es + [e] && t' == Next(t, e) && Reach(s, es', t')
    decreases |es|
  {
    hide Enabled, Next;
    es', t' := es + [e], Next(t, e);
    if es == [] {
      assert es' == [e] && es'[1..] == [];
    } else {
      var rest, u := Do(Next(s, es[0]), es[1..], t, e);
      assert es'[1..] == es[1..] + [e];
    }
  }

  /** s with process p, its lock and the timer lock as given. */
  function Put(s: State, p: nat, timer: Owner, lock: Owner, q: Proc): State
    requires p < |s.procs| == |s.locks|
  {
    s.(timer := timer, locks := s.locks[p := lock], procs := s.procs[p := q])
  }

  /** A step of process p. */
  lemma DoProc(s: State, es: seq<Step>, u: State, p: nat, timer: Owner, lock: Owner, q: Proc, e: Step)
      returns (es': seq<Step>, timer': Owner, lock': Owner, q': Proc)
    requires p < |u.procs| == |u.locks| && Reach(s, es, Put(u, p, timer, lock, q)) && !ClockStep(e) && e.p == p
    requires ProcEnabled(timer, lock, q, e)
    ensures es' == es + [e] && timer' == MoveTimer(timer, e) && lock' == MoveLock(lock, e) && q' == MoveProc(u.ticks, q, e)
    ensures Reach(s, es', Put(u, p, timer', lock', q'))
  {
    hide Reach, MoveProc, MoveTimer, MoveLock, ProcEnabled;
    var t := Put(u, p, timer, lock, q);
    var t';
    es', t' := Do(s, es, t, e);
    timer', lock', q' := MoveTimer(timer, e), MoveLock(lock, e), MoveProc(u.ticks, q, e);
    assert t'.procs == u.procs[p := q'] && t'.locks == u.locks[p := lock'];
  }

  /** Nobody holds a lock and no clock interrupt is under way. */
  ghost predicate Quiet(s: State) {
    |s.locks| == |s.procs| && s.timer.Free? && s.clock.Idle? && forall p: nat :: p < |s.procs| ==> s.locks[p].Free?
  }

  /** p sleeps in sleep_n_ticks(n), called at tick since. */
  predicate Dozing(q: Proc, n: int, since: nat, killed: bool) {
    q.pc.Asleep? && q.chan.Ticks? && q.n == n && q.since == since && q.killed == killed
  }

  /** From the test on: back to sleep, or out of the call. */
  lemma TestAlone(s: State, es: seq<Step>, u: State, p: nat, q: Proc) returns (es': seq<Step>, t: State)
    requires p < |u.procs| && Quiet(u) && Reach(s, es, Put(u, p, Process(p), Free, q)) && q.pc.Test?
    requires q.since <= u.ticks < q.since + WORD
    ensures Reach(s, es', t) && Quiet(t) && t.ticks == u.ticks && |t.procs| == |u.procs|
    ensures u.ticks < q.since + q.n && !q.killed ==> Dozing(t.procs[p], q.n, q.since, false) && t.procs[p].state.Sleeping?
    ensures u.ticks >= q.since + q.n ==> t.procs[p] == q.(pc := Out, last := Return(0, q.n, q.since, u.ticks, q.killed))
    ensures u.ticks < q.since + q.n && q.killed ==> t.procs[p] == q.(pc := Out, last := Return(-2, q.n, q.since, u.ticks, true))
    ensures forall r: nat :: r < |u.procs| && r != p ==> t.procs[r] == u.procs[r]
  {
    hide Reach, MustWait;
    WaitsExactly(u.ticks, q.since, q.n);
    var timer, lock, q1;
    es', timer, lock, q1 := DoProc(s, es, u, p, Process(p), Free, q, TestTicks(p));
    if u.ticks < q.since + q.n && !q.killed {
      es', q1 := FallAsleep(s, es', u, p, q1);
    } else {
      es', timer, lock, q1 := DoProc(s, es', u, p, timer, lock, q1, ReturnFrom(p));
    }
    t := Put(u, p, Free, Free, q1);
  }

  lemma FallAsleep(s: State, es: seq<Step>, u: State, p: nat, q: Proc) returns (es': seq<Step>, q': Proc)
    requires p < |u.procs| == |u.locks| && Reach(s, es, Put(u, p, Process(p), Free, q)) && q.pc.Commit?
    ensures q' == q.(pc := Asleep, state := Sleeping, chan := Ticks) && Reach(s, es', Put(u, p, Free, Free, q'))
  {
    hide Reach, Put;
    var timer, lock;
    es', timer, lock, q' := DoProc(s, es, u, p, Process(p), Free, q, LockSelf(p));
    es', timer, lock, q' := DoProc(s, es', u, p, timer, lock, q', UnlockTimer(p));
    es', timer, lock, q' := DoProc(s, es', u, p, timer, lock, q', MarkAsleep(p));
    es', timer, lock, q' := DoProc(s, es', u, p, timer, lock, q', SwitchAway(p));
    es', timer, lock, q' := DoProc(s, es', u, p, timer, lock, q', OtherUnlock(p));
  }

  lemma CallAlone(s: State, p: nat, n: nat) returns (es: seq<Step>, t: State)
    requires Quiet(s) && p < |s.procs| && s.procs[p].pc.Out? && s.procs[p].state.Running? && !s.procs[p].killed
    ensures Reach(s, es, t) && Quiet(t) && t.ticks == s.ticks && |t.procs| == |s.procs|
    ensures n > 0 ==> Dozing(t.procs[p], n, s.ticks, false) && t.procs[p].state.Sleeping?
    ensures n == 0 ==> t.procs[p].pc.Out? && t.procs[p].state.Running? && t.procs[p].last == Return(0, 0, s.ticks, s.ticks, false)
    ensures n == 0 ==> t.procs[p].chan == s.procs[p].chan
    ensures forall r: nat :: r < |s.procs| && r != p ==> t.procs[r] == s.procs[r]
  {
    hide Reach, MustWait;
    assert Reach(s, [], s) by { StandStill(s); }
    assert s == Put(s, p, Free, Free, s.procs[p]);
    var timer, lock, q;
    es, timer, lock, q := DoProc(s, [], s, p, Free, Free, s.procs[p], Call(p, n));
    es, timer, lock, q := DoProc(s, es, s, p, timer, lock, q, LockTimer(p));
    es, timer, lock, q := DoProc(s, es, s, p, timer, lock, q, ReadTicks(p));
    es, t := TestAlone(s, es, s, p, q);
  }

  lemma StandStill(s: State)
    ensures Reach(s, [], s)
  {}

  /** After a tick: p is dispatched and tests again. */
  lemma ResumeAlone(s: State, es: seq<Step>, u: State, p: nat) returns (es': seq<Step>, t: State)
    requires Reach(s, es, u) && Quiet(u) && p < |u.procs| && u.procs[p].pc.Asleep? && u.procs[p].state.Runnable?
    requires u.procs[p].since <= u.ticks < u.procs[p].since + WORD
    ensures Reach(s, es', t) && Quiet(t) && t.ticks == u.ticks && |t.procs| == |u.procs|
    ensures var q := u.procs[p];
            if u.ticks < q.since + q.n && !q.killed then Dozing(t.procs[p], q.n, q.since, false) && t.procs[p].state.Sleeping?
            else t.procs[p].pc.Out? && t.procs[p].state.Running? && t.procs[p].chan.NoChan?
                 && t.procs[p].last == Return(if u.ticks < q.since + q.n then -2 else 0, q.n, q.since, u.ticks, q.killed)
  {
    hide Reach, MustWait;
    assert u == Put(u, p, Free, Free, u.procs[p]);
    var timer, lock, q;
    es', timer, lock, q := DoProc(s, es, u, p, Free, Free, u.procs[p], OtherLock(p));
    es', timer, lock, q := DoProc(s, es', u, p, timer, lock, q, Dispatch(p));
    es', timer, lock, q := DoProc(s, es', u, p, timer, lock, q, ClearChan(p));
    es', timer, lock, q := DoProc(s, es', u, p, timer, lock, q, UnlockSelf(p));
    es', timer, lock, q := DoProc(s, es', u, p, timer, lock, q, RelockTimer(p));
    es', t := TestAlone(s, es', u, p, q);
  }

  /** What the handler's pass makes of a process. */
  function Roused(q: Proc): Proc {
    if q.state.Sleeping? && q.chan.Ticks? then q.(state := Runnable) else q
  }

  /** The handler has ticked and visited the first i processes of u. */
  ghost predicate Scanning(u: State, t: State, i: nat) {
    && |t.locks| == |t.procs| == |u.procs| && i <= |u.procs| && t.timer.Handler? && t.clock == Scan(i) && t.ticks == u.ticks + 1
    && (forall r: nat :: r < |u.procs| ==> t.locks[r].Free?)
    && (forall r: nat :: r < |u.procs| ==> t.procs[r] == if r < i then Roused(u.procs[r]) else u.procs[r])
  }

  /** One clock interrupt, start to end: one tick, and exactly the sleepers on the tick channel are made runnable. */
  lemma TickAlone(s: State, es: seq<Step>, u: State) returns (es': seq<Step>, t: State)
    requires Reach(s, es, u) && Quiet(u)
    ensures Reach(s, es', t) && Quiet(t) && t.ticks == u.ticks + 1 && |t.procs| == |u.procs|
    ensures forall r: nat :: r < |u.procs| ==> t.procs[r] == Roused(u.procs[r])
  {
    hide Reach;
    es', t := Do(s, es, u, ClockEnter);
    es', t := Do(s, es', t, ClockTick);
    es', t := ScanAlone(s, es', t, u, 0);
    es', t := Do(s, es', t, ClockLeave);
  }

  lemma {:induction false} ScanAlone(s: State, es: seq<Step>, v: State, u: State, i: nat) returns (es': seq<Step>, t: State)
    requires Reach(s, es, v) && Scanning(u, v, i)
    ensures Reach(s, es', t) && Scanning(u, t, |u.procs|)
    decreases |u.procs| - i
  {
    hide Reach;
    es', t := es, v;
    if i < |u.procs| {
      es', t := Do(s, es', t, ClockTake);
      es', t := Do(s, es', t, ClockWake);
      es', t := Do(s, es', t, ClockDrop);
      es', t := ScanAlone(s, es', t, u, i + 1);
    }
  }

  /** Left alone with the clock, a sleeper returns 0 exactly n ticks after its call. */
  lemma {:induction false} DozeAlone(s: State, es: seq<Step>, u: State, p: nat, n: nat, since: nat) returns (es': seq<Step>, t: State)
    requires Reach(s, es, u) && Quiet(u) && p < |u.procs| && Dozing(u.procs[p], n, since, false) && u.procs[p].state.Sleeping?
    requires since <= u.ticks < since + n < since + WORD
    ensures Reach(s, es', t) && Quiet(t) && |t.procs| == |u.procs| && t.ticks == since + n
    ensures t.procs[p].pc.Out? && t.procs[p].state.Running? && t.procs[p].chan.NoChan? && t.procs[p].last == Return(0, n, since, since + n, false)
    decreases since + n - u.ticks
  {
    hide Reach;
    es', t := TickAlone(s, es, u);
    es', t := ResumeAlone(s, es', t, p);
    if t.ticks < since + n {
      es', t := DozeAlone(s, es', t, p, n, since);
    }
  }

  /** The call does what it is for: from any quiet state, with only the clock and the scheduler acting, sleep_n_ticks(n) can
      run to its end, and returns 0 exactly n ticks later. */
  lemma SleepCompletes(s: State, p: nat, n: nat) returns (es: seq<Step>, t: State)
    requires Quiet(s) && p < |s.procs| && s.procs[p].pc.Out? && s.procs[p].state.Running? && !s.procs[p].killed && n < WORD
    ensures Reach(s, es, t) && Quiet(t) && |t.procs| == |s.procs| && t.ticks == s.ticks + n
    ensures t.procs[p].pc.Out? && t.procs[p].state.Running? && t.procs[p].last == Return(0, n, s.ticks, s.ticks + n, false)
    ensures t.procs[p].chan == if n > 0 then NoChan else s.procs[p].chan
  {
    hide Reach;
    es, t := CallAlone(s, p, n);
    if n > 0 { es, t := DozeAlone(s, es, t, p, n, s.ticks); }
  }

  /** A kill does not wake a sleeper, but the next tick does, and then its call returns -2 unless n ticks have passed. */
  lemma KilledSleepEnds(s: State, p: nat) returns (es: seq<Step>, t: State)
    requires Quiet(s) && p < |s.procs| && s.procs[p].pc.Asleep? && s.procs[p].state.Sleeping? && s.procs[p].chan.Ticks?
    requires s.procs[p].since <= s.ticks < s.procs[p].since + WORD - 1
    ensures Reach(s, [Kill(p)] + es, t) && Quiet(t) && |t.procs| == |s.procs| && t.ticks == s.ticks + 1 && t.procs[p].pc.Out?
    ensures var q := s.procs[p];
            t.procs[p].last == Return(if t.ticks < q.since + q.n then -2 else 0, q.n, q.since, t.ticks, true)
  {
    var u := Next(s, Kill(p));
    assert u.procs[p] == s.procs[p].(killed := true) && u.locks == s.locks;
    StandStill(u);
    hide Reach, Next;
    es, t := TickAlone(u, [], u);
    es, t := ResumeAlone(u, es, t, p);
    ReachFirst(s, Kill(p), es, t);
  }

  lemma ReachFirst(s: State, e: Step, es: seq<Step>, t: State)
    requires |s.locks| == |s.procs| && Enabled(s, e) && Reach(Next(s, e), es, t)
    ensures Reach(s, [e] + es, t)
  {
    assert ([e] + es)[1..] == es;
  }
}
