/** Switching between processes and the scheduler on the dispatching CPU: yield, sleep and the end
    of exit on one side, the dispatch on the other. Steps are single lock operations, state writes
    and switches; wakeups may happen between any two. */
module ContextSwitch {
  import opened SpinLocks
  import opened Wrappers

  datatype ProcState = Unused | Runnable | Running | Sleeping | Zombie

  datatype Kind = FromYield | FromSleep | FromExit

  datatype Pc =
    | New                   // never dispatched
    | FirstRun              // fork_ret: about to release the process lock
    | Run(holds: bool)      // running; holds tells whether it holds a lock, which sleep and exit are passed
    | YieldMark             // yield: holds the process lock, about to set the state
    | SleepDrop             // sleep: holds both, about to release the caller's lock
    | SleepMark             // about to set the state
    | ExitMark              // exit: holds both, about to become a zombie
    | ExitDrop              // about to release the wait lock
    | CallSched(kind: Kind) // at the assertions of call_sched
    | Away(kind: Kind)      // switched out
    | Back(kind: Kind)      // switched in, about to restore int_ena
    | Unlock(kind: Kind)    // about to release the process lock
    | Relock                // sleep: about to take the caller's lock back

  /** entry is the interrupt state outside the caller's locks when yield or sleep was called, saved the
      local of call_sched; calls lists (before, after) of the completed calls. */
  datatype Proc = Proc(pc: Pc, state: ProcState, locked: bool, saved: bool, entry: bool, calls: seq<(bool, bool)>)

  datatype Sched = Loop | Taken(p: nat) | Gave(p: nat)

  /** runs is the process on the CPU; Nothing is the scheduler. */
  datatype State = State(cpu: Intr, runs: Wrap<nat>, sched: Sched, procs: seq<Proc>)

  datatype Step =
    | SchedOn | SchedTake(p: nat) | SchedGo | SchedSkip | SchedBack
    | Wakeup(p: nat)
    | SetIntr(on: bool) | LockOne | UnlockOne | Exec | YieldCall | SleepCall | ExitCall
    | Advance

  predicate ProcStep(e: Step) {
    e.SetIntr? || e.LockOne? || e.UnlockOne? || e.Exec? || e.YieldCall? || e.SleepCall? || e.ExitCall? || e.Advance?
  }

  predicate Enabled(s: State, e: Step) {
    if ProcStep(e) then
      s.runs.Just? && s.runs.value < |s.procs| && ProcEnabled(s.cpu, s.procs[s.runs.value], e)
    else
      match e
      case SchedOn => s.runs.Nothing? && s.sched.Loop?
      case SchedTake(p) => s.runs.Nothing? && s.sched.Loop? && p < |s.procs| && !s.procs[p].locked
      case SchedGo => s.runs.Nothing? && s.sched.Taken? && s.sched.p < |s.procs| && s.procs[s.sched.p].state.Runnable?
      case SchedSkip => s.runs.Nothing? && s.sched.Taken? && s.sched.p < |s.procs| && !s.procs[s.sched.p].state.Runnable? && s.cpu.off > 0
      case SchedBack => s.runs.Nothing? && s.sched.Gave? && s.sched.p < |s.procs| && s.cpu.off > 0
      case Wakeup(p) => p < |s.procs| && !s.procs[p].locked && s.procs[p].state.Sleeping?
      case _ => false
  }

  predicate ProcEnabled(cpu: Intr, q: Proc, e: Step) {
    match e
    case SetIntr(_) => q.pc == Run(false) && cpu.off == 0
    case LockOne => q.pc == Run(false)
    case UnlockOne => q.pc == Run(true) && cpu.off > 0
    case Exec => q.pc.Run?
    case YieldCall => q.pc == Run(false)
    case SleepCall => q.pc == Run(true)
    case ExitCall => q.pc == Run(true)
    case _ => !q.pc.New? && !q.pc.Run? && !q.pc.Away? && (NeedsPop(q.pc) ==> cpu.off > 0)
  }

  predicate NeedsPop(pc: Pc) { pc.FirstRun? || pc.SleepDrop? || pc.ExitDrop? || pc.Unlock? }

  /** The running process inside yield, sleep, exit or fork_ret: the CPU and the process after one step. */
  function Advanced(cpu: Intr, q: Proc): (Intr, Proc)
    requires NeedsPop(q.pc) ==> cpu.off > 0
  {
    match q.pc
    case FirstRun => (Popped(cpu), q.(pc := Run(false), locked := false))
    case YieldMark => (cpu, q.(pc := CallSched(FromYield), state := Runnable))
    case SleepDrop => (Popped(cpu), q.(pc := SleepMark))
    case SleepMark => (cpu, q.(pc := CallSched(FromSleep), state := Sleeping))
    case ExitMark => (cpu, q.(pc := ExitDrop, state := Zombie))
    case ExitDrop => (Popped(cpu), q.(pc := CallSched(FromExit)))
    case CallSched(k) => (cpu, q.(pc := Away(k), saved := cpu.ena))
    case Back(k) => (cpu.(ena := q.saved), q.(pc := Unlock(k)))
    case Unlock(k) =>
      if k.FromSleep? then (Popped(cpu), q.(pc := Relock, locked := false))
      else (Popped(cpu), q.(pc := Run(false), locked := false, calls := q.calls + [(q.entry, Popped(cpu).intr)]))
    case Relock => (Pushed(cpu), q.(pc := Run(true), calls := q.calls + [(q.entry, Pushed(cpu).ena)]))
    case _ => (cpu, q)
  }

  /** A step of the running process. */
  function Moved(cpu: Intr, q: Proc, e: Step): (Intr, Proc)
    requires ProcStep(e) && ProcEnabled(cpu, q, e)
  {
    if e.Advance? then Advanced(cpu, q)
    else
      match e
      case SetIntr(on) => (cpu.(intr := on), q)
      case LockOne => (Pushed(cpu), q.(pc := Run(true)))
      case UnlockOne => (Popped(cpu), q.(pc := Run(false)))
      case Exec => (cpu, q.(state := Runnable))  // execve stores runnable into the current process
      case YieldCall => (Pushed(cpu), q.(pc := YieldMark, locked := true, entry := cpu.intr))
      case SleepCall => (Pushed(cpu), q.(pc := SleepDrop, locked := true, entry := cpu.ena))
      case ExitCall => (Pushed(cpu), q.(pc := ExitMark, locked := true))
      case _ => (cpu, q)
  }

  function Dispatched(q: Proc): Proc {
    q.(state := Running, pc := match q.pc case New => FirstRun case Away(k) => Back(k) case _ => q.pc)
  }

  function Next(s: State, e: Step): State
    requires Enabled(s, e)
  {
    if ProcStep(e) then
      var p := s.runs.value;
      var r := Moved(s.cpu, s.procs[p], e);
      s.(cpu := r.0, procs := s.procs[p := r.1], runs := if r.1.pc.Away? then Nothing else s.runs)
    else
      match e
      case SchedOn => s.(cpu := s.cpu.(intr := true))
      case SchedTake(p) => s.(cpu := Pushed(s.cpu), sched := Taken(p), procs := s.procs[p := s.procs[p].(locked := true)])
      case SchedGo => s.(sched := Gave(s.sched.p), runs := Just(s.sched.p), procs := s.procs[s.sched.p := Dispatched(s.procs[s.sched.p])])
      case SchedSkip =>
        s.(cpu := Popped(s.cpu), sched := Loop, procs := s.procs[s.sched.p := s.procs[s.sched.p].(locked := false)])
      case SchedBack =>
        s.(cpu := Popped(s.cpu), sched := Loop, procs := s.procs[s.sched.p := s.procs[s.sched.p].(locked := false)])
      case Wakeup(p) => s.(procs := s.procs[p := s.procs[p].(state := Runnable)])
      case _ => s
  }

  // ----------------------------------------------------------- invariant

  /** Locks held on the CPU while the process runs at pc. */
  function LocksAt(pc: Pc): nat {
    match pc
    case Run(holds) => if holds then 1 else 0
    case Relock => 0
    case SleepDrop => 2
    case ExitMark => 2
    case ExitDrop => 2
    case _ => 1
  }

  predicate OffCpu(pc: Pc) { pc.New? || pc.Away? }

  /** What holds of the process on the CPU. */
  ghost predicate RunningOk(cpu: Intr, q: Proc) {
    && !OffCpu(q.pc)
    && cpu.off == LocksAt(q.pc)
    && (q.locked <==> !q.pc.Run? && !q.pc.Relock?)
    && (q.pc.CallSched? ==> q.state == match q.pc.kind case FromYield => Runnable case FromSleep => Sleeping case FromExit => Zombie)
    && (q.pc.ExitDrop? ==> q.state.Zombie?)
    && (q.pc.YieldMark? || q.pc.SleepDrop? || q.pc.SleepMark? || (q.pc.CallSched? && !q.pc.kind.FromExit?) || q.pc.Unlock? ==>
          cpu.ena == q.entry)
    && (q.pc.Back? ==> q.saved == q.entry)
    && (q.pc.Relock? ==> cpu.intr == q.entry)
    && (q.pc.Back? || q.pc.Unlock? ==> !q.pc.kind.FromExit?)
  }

  /** What holds of a process that is not on the CPU; locked tells whether the scheduler has its lock. */
  ghost predicate WaitingOk(q: Proc, locked: bool) {
    && OffCpu(q.pc) && (q.locked <==> locked)
    && (q.pc.Away? ==> if q.pc.kind.FromExit? then q.state.Zombie? else q.saved == q.entry)
  }

  ghost predicate CallsOk(q: Proc) {
    forall i :: 0 <= i < |q.calls| ==> q.calls[i].0 == q.calls[i].1
  }

  ghost predicate Inv(s: State) {
    && (s.cpu.off > 0 ==> !s.cpu.intr)
    && (forall p: nat :: p < |s.procs| ==> CallsOk(s.procs[p]))
    && (s.runs.Just? ==>
          && s.sched == Gave(s.runs.value) && s.runs.value < |s.procs| && RunningOk(s.cpu, s.procs[s.runs.value])
          && forall p: nat :: p < |s.procs| && p != s.runs.value ==> WaitingOk(s.procs[p], false))
    && (s.runs.Nothing? ==>
          && s.cpu.off == (if s.sched.Loop? then 0 else 1)
          && (!s.sched.Loop? ==> s.sched.p < |s.procs|)
          && forall p: nat :: p < |s.procs| ==> WaitingOk(s.procs[p], !s.sched.Loop? && p == s.sched.p))
  }

  ghost predicate Boot(s: State) {
    && s.cpu.off == 0 && s.runs.Nothing? && s.sched.Loop?
    && forall p: nat :: p < |s.procs| ==> s.procs[p].pc.New? && !s.procs[p].locked && s.procs[p].calls == []
  }

  lemma AdvancedOk(cpu: Intr, q: Proc)
    requires RunningOk(cpu, q) && (cpu.off > 0 ==> !cpu.intr) && !q.pc.Run?
    ensures var r := Advanced(cpu, q);
            && (r.0.off > 0 ==> !r.0.intr)
            && (if r.1.pc.Away? then WaitingOk(r.1, true) && r.0.off == 1 else RunningOk(r.0, r.1))
  {
    if q.pc.CallSched? {
    } else {
      AdvancedRuns(cpu, q);
    }
  }

  lemma AdvancedRuns(cpu: Intr, q: Proc)
    requires RunningOk(cpu, q) && (cpu.off > 0 ==> !cpu.intr) && !q.pc.Run? && !q.pc.CallSched?
    ensures var r := Advanced(cpu, q);
            (r.0.off > 0 ==> !r.0.intr) && !r.1.pc.Away? && RunningOk(r.0, r.1)
  {}

  lemma AdvancedCalls(cpu: Intr, q: Proc)
    requires RunningOk(cpu, q) && (cpu.off > 0 ==> !cpu.intr) && CallsOk(q) && !q.pc.Run?
    ensures CallsOk(Advanced(cpu, q).1)
  {
    if q.pc.Unlock? || q.pc.Relock? {
    } else {
      CallsDepend(q, Advanced(cpu, q).1);
    }
  }

  lemma MovedOk(cpu: Intr, q: Proc, e: Step)
    requires ProcStep(e) && ProcEnabled(cpu, q, e) && RunningOk(cpu, q) && (cpu.off > 0 ==> !cpu.intr) && CallsOk(q)
    ensures var r := Moved(cpu, q, e);
            && (r.0.off > 0 ==> !r.0.intr) && CallsOk(r.1)
            && (if r.1.pc.Away? then WaitingOk(r.1, true) && r.0.off == 1 else RunningOk(r.0, r.1))
  {
    hide CallsOk, Advanced;
    if e.Advance? { AdvancedOk(cpu, q); AdvancedCalls(cpu, q); } else { CallsSame(cpu, q, e); }
  }

  lemma CallsSame(cpu: Intr, q: Proc, e: Step)
    requires ProcStep(e) && ProcEnabled(cpu, q, e) && !e.Advance? && CallsOk(q)
    ensures CallsOk(Moved(cpu, q, e).1)
  {
    hide CallsOk, Advanced;
    assert Moved(cpu, q, e).1.calls == q.calls;
    CallsDepend(q, Moved(cpu, q, e).1);
  }

  lemma CallsDepend(q: Proc, r: Proc)
    requires CallsOk(q) && q.calls == r.calls
    ensures CallsOk(r)
  {}

  lemma ProcStepInv(s: State, e: Step)
    requires Inv(s) && Enabled(s, e) && ProcStep(e)
    ensures Inv(Next(s, e))
  {
    hide Moved, ProcEnabled, RunningOk, CallsOk;
    MovedOk(s.cpu, s.procs[s.runs.value], e);
  }

  lemma SchedStepInv(s: State, e: Step)
    requires Inv(s) && Enabled(s, e) && !ProcStep(e)
    ensures Inv(Next(s, e))
  {
    hide Moved, ProcEnabled;
    var s' := Next(s, e);
    forall p: nat | p < |s.procs| ensures CallsOk(s'.procs[p]) {
      assert CallsOk(s.procs[p]);
    }
    if s.runs.Just? && e.Wakeup? { assert RunningOk(s.cpu, s.procs[s.runs.value]); }
  }

  /** Any run from boot, with any number of processes. */
  ghost predicate Runs(s: seq<State>, es: seq<Step>) {
    && |s| == |es| + 1 && Boot(s[0])
    && forall i :: 0 <= i < |es| ==> Enabled(s[i], es[i]) && s[i + 1] == Next(s[i], es[i])
  }

  lemma {:induction false} RunInv(s: seq<State>, es: seq<Step>, k: nat)
    requires Runs(s, es) && k < |s|
    ensures Inv(s[k])
  {
    hide Inv, Next, Enabled;
    if k == 0 {
      BootInv(s[0]);
    } else {
      RunInv(s, es, k - 1);
      assert s[k - 1 + 1] == Next(s[k - 1], es[k - 1]);
      if ProcStep(es[k - 1]) { ProcStepInv(s[k - 1], es[k - 1]); } else { SchedStepInv(s[k - 1], es[k - 1]); }
    }
  }

  lemma BootInv(s: State)
    requires Boot(s)
    ensures Inv(s)
  {}

  // ------------------------------------------------------------- theorems

  /** The four assertions of call_sched hold whenever it is called. */
  lemma CallSchedAsserts(s: seq<State>, es: seq<Step>, k: nat, p: nat)
    requires Runs(s, es) && k < |s| && s[k].runs == Just(p) && p < |s[k].procs| && s[k].procs[p].pc.CallSched?
    ensures s[k].procs[p].locked
    ensures s[k].cpu.off == 1
    ensures s[k].procs[p].state != Running
    ensures !s[k].cpu.intr
  {
    RunInv(s, es, k);
  }

  /** Across every switch, in either direction, exactly the lock of the process concerned is held. */
  lemma LockAcrossSwitch(s: seq<State>, es: seq<Step>, k: nat, p: nat, q: nat)
    requires Runs(s, es) && k < |es| && s[k].runs != s[k + 1].runs && p < |s[k].procs| && q < |s[k].procs|
    requires p == if s[k].runs.Just? then s[k].runs.value else s[k + 1].runs.value
    ensures s[k].cpu.off == s[k + 1].cpu.off == 1 && !s[k].cpu.intr && !s[k + 1].cpu.intr
    ensures |s[k + 1].procs| == |s[k].procs|
    ensures s[k].procs[p].locked && s[k + 1].procs[p].locked
    ensures q != p ==> !s[k].procs[q].locked && !s[k + 1].procs[q].locked
  {
    RunInv(s, es, k);
    RunInv(s, es, k + 1);
    assert s[k + 1] == Next(s[k], es[k]) && Enabled(s[k], es[k]);
  }

  /** yield and sleep return with the interrupt state that they were called with, even though other
      processes and the scheduler changed it in between. */
  lemma InterruptStateRestored(s: seq<State>, es: seq<Step>, k: nat, p: nat, i: nat)
    requires Runs(s, es) && k < |s| && p < |s[k].procs| && i < |s[k].procs[p].calls|
    ensures s[k].procs[p].calls[i].0 == s[k].procs[p].calls[i].1
  {
    RunInv(s, es, k);
    assert CallsOk(s[k].procs[p]);
  }

  // ----------------------------------------------- nothing is in the way

  /** The steps can be taken one after the other from s, and lead to t. */
  ghost predicate Reach(s: State, es: seq<Step>, t: State)
    decreases |es|
  {
    if es == [] then s == t else Enabled(s, es[0]) && Reach(Next(s, es[0]), es[1..], t)
  }

  lemma {:induction false} Do(s: State, es: seq<Step>, t: State, e: Step) returns (es': seq<Step>, t': State)
    requires Reach(s, es, t) && Enabled(t, e)
    ensures es' == es + [e] && t' == Next(t, e) && Reach(s, es', t')
    decreases |es|
  {
    hide Enabled, Next;
    es', t' := es + [e], Next(t, e);
    if es == [] {
      assert es' == [e] && es'[1..] == [];
    } else {
      var rest, u := Do(Next(s, es[0]), es[1..], t, e);
      assert es'[1..] == es[1..] + [e];
    }
  }

  /** u with process p on the CPU. */
  function On(u: State, p: nat, cpu: Intr, q: Proc): State
    requires p < |u.procs|
  {
    State.State(cpu, Just(p), Gave(p), u.procs[p := q])
  }

  /** u with the scheduler looking for a process, and p waiting. */
  function Off(u: State, p: nat, cpu: Intr, q: Proc): State
    requires p < |u.procs|
  {
    State.State(cpu, Nothing, Loop, u.procs[p := q])
  }

  /** A step of the running process that keeps the CPU. */
  lemma DoRun(s: State, es: seq<Step>, u: State, p: nat, cpu: Intr, q: Proc, e: Step) returns (es': seq<Step>, cpu': Intr, q': Proc)
    requires p < |u.procs| && Reach(s, es, On(u, p, cpu, q)) && ProcStep(e) && ProcEnabled(cpu, q, e) && !Moved(cpu, q, e).1.pc.Away?
    ensures (cpu', q') == Moved(cpu, q, e) && Reach(s, es', On(u, p, cpu', q'))
  {
    hide Reach, Moved, ProcEnabled;
    var t := On(u, p, cpu, q);
    var t';
    es', t' := Do(s, es, t, e);
    cpu', q' := Moved(cpu, q, e).0, Moved(cpu, q, e).1;
    assert t'.procs == u.procs[p := q'];
  }

  /** From the assertions of call_sched back to the scheduler's loop. */
  lemma GiveUpCpu(s: State, es: seq<Step>, u: State, p: nat, cpu: Intr, q: Proc) returns (es': seq<Step>)
    requires p < |u.procs| && Reach(s, es, On(u, p, cpu, q)) && q.pc.CallSched? && q.locked && cpu.off == 1
    ensures Reach(s, es', Off(u, p, Popped(cpu), q.(pc := Away(q.pc.kind), saved := cpu.ena, locked := false)))
  {
    hide Reach;
    var t;
    es', t := Do(s, es, On(u, p, cpu, q), Step.Advance);
    assert t.procs == u.procs[p := q.(pc := Away(q.pc.kind), saved := cpu.ena)];
    es', t := Do(s, es', t, SchedBack);
    assert t.procs == u.procs[p := q.(pc := Away(q.pc.kind), saved := cpu.ena, locked := false)];
  }

  /** The scheduler comes to a runnable process and switches to it. */
  lemma Dispatch(s: State, es: seq<Step>, u: State, p: nat, cpu: Intr, q: Proc) returns (es': seq<Step>)
    requires p < |u.procs| && Reach(s, es, Off(u, p, cpu, q)) && q.state.Runnable? && !q.locked
    ensures Reach(s, es', On(u, p, Pushed(cpu), q.(locked := true, state := Running, pc := Dispatched(q).pc)))
  {
    hide Reach;
    var t;
    es', t := Do(s, es, Off(u, p, cpu, q), SchedTake(p));
    assert t.procs == u.procs[p := q.(locked := true)];
    es', t := Do(s, es', t, SchedGo);
    assert t.procs == u.procs[p := q.(locked := true, state := Running, pc := Dispatched(q).pc)];
  }

  /** yield: the CPU goes to the scheduler and comes back. */
  lemma YieldReturns(s: State, es: seq<Step>, u: State, p: nat, cpu: Intr, q: Proc) returns (es': seq<Step>, cpu': Intr, q': Proc)
    requires p < |u.procs| && Reach(s, es, On(u, p, cpu, q)) && q.pc == Run(false) && !q.locked && cpu.off == 0
    ensures Reach(s, es', On(u, p, cpu', q')) && cpu'.off == 0 && cpu'.intr == cpu.intr
    ensures q' == q.(state := Running, entry := cpu.intr, saved := cpu.intr, calls := q.calls + [(cpu.intr, cpu.intr)])
  {
    hide Reach, On, Off;
    es', cpu', q' := DoRun(s, es, u, p, cpu, q, YieldCall);
    es', cpu', q' := DoRun(s, es', u, p, cpu', q', Step.Advance);
    es' := GiveUpCpu(s, es', u, p, cpu', q');
    cpu', q' := Popped(cpu'), q'.(pc := Away(FromYield), saved := cpu'.ena, locked := false);
    es' := Dispatch(s, es', u, p, cpu', q');
    cpu', q' := Pushed(cpu'), q'.(locked := true, state := Running, pc := Back(FromYield));
    es', cpu', q' := DoRun(s, es', u, p, cpu', q', Step.Advance);
    es', cpu', q' := DoRun(s, es', u, p, cpu', q', Step.Advance);
  }

  /** sleep with a lock, until somebody wakes the process. */
  lemma SleepReturns(s: State, es: seq<Step>, u: State, p: nat, cpu: Intr, q: Proc) returns (es': seq<Step>, cpu': Intr, q': Proc)
    requires p < |u.procs| && Reach(s, es, On(u, p, cpu, q)) && q.pc == Run(true) && !q.locked && cpu.off == 1 && !cpu.intr
    ensures Reach(s, es', On(u, p, cpu', q')) && cpu' == cpu
    ensures q' == q.(state := Running, entry := cpu.ena, saved := cpu.ena, calls := q.calls + [(cpu.ena, cpu.ena)])
  {
    hide Reach, On, Off;
    es', cpu', q' := FallAsleep(s, es, u, p, cpu, q);
    es' := WokenUp(s, es', u, p, cpu', q');
    q' := q'.(state := Runnable);
    es' := Dispatch(s, es', u, p, cpu', q');
    cpu', q' := Pushed(cpu'), q'.(locked := true, state := Running, pc := Back(FromSleep));
    es', cpu', q' := DoRun(s, es', u, p, cpu', q', Step.Advance);
    es', cpu', q' := DoRun(s, es', u, p, cpu', q', Step.Advance);
    es', cpu', q' := DoRun(s, es', u, p, cpu', q', Step.Advance);
  }

  lemma FallAsleep(s: State, es: seq<Step>, u: State, p: nat, cpu: Intr, q: Proc) returns (es': seq<Step>, cpu': Intr, q': Proc)
    requires p < |u.procs| && Reach(s, es, On(u, p, cpu, q)) && q.pc == Run(true) && !q.locked && cpu.off == 1 && !cpu.intr
    ensures Reach(s, es', Off(u, p, cpu', q')) && cpu' == Intr(0, cpu.ena, cpu.ena)
    ensures q' == q.(pc := Away(FromSleep), state := Sleeping, entry := cpu.ena, saved := cpu.ena)
  {
    hide Reach, On, Off;
    es', cpu', q' := DoRun(s, es, u, p, cpu, q, SleepCall);
    es', cpu', q' := DoRun(s, es', u, p, cpu', q', Step.Advance);
    es', cpu', q' := DoRun(s, es', u, p, cpu', q', Step.Advance);
    es' := GiveUpCpu(s, es', u, p, cpu', q');
    cpu', q' := Popped(cpu'), q'.(pc := Away(FromSleep), saved := cpu'.ena, locked := false);
  }

  lemma WokenUp(s: State, es: seq<Step>, u: State, p: nat, cpu: Intr, q: Proc) returns (es': seq<Step>)
    requires p < |u.procs| && Reach(s, es, Off(u, p, cpu, q)) && q.state.Sleeping? && !q.locked
    ensures Reach(s, es', Off(u, p, cpu, q.(state := Runnable)))
  {
    hide Reach;
    var t;
    es', t := Do(s, es, Off(u, p, cpu, q), Wakeup(p));
    assert t.procs == u.procs[p := q.(state := Runnable)];
  }

  /** The end of exit: the process is a zombie, and the scheduler passes it over from then on. */
  lemma ExitLeaves(s: State, es: seq<Step>, u: State, p: nat, cpu: Intr, q: Proc) returns (es': seq<Step>, cpu': Intr, q': Proc)
    requires p < |u.procs| && Reach(s, es, On(u, p, cpu, q)) && q.pc == Run(true) && !q.locked && cpu.off == 1 && !cpu.intr
    ensures Reach(s, es', Off(u, p, cpu', q')) && cpu'.off == 0 && cpu'.intr == cpu.ena
    ensures q' == q.(pc := Away(FromExit), state := Zombie, saved := cpu.ena)
  {
    hide Reach, On, Off;
    es', cpu', q' := DoRun(s, es, u, p, cpu, q, ExitCall);
    es', cpu', q' := DoRun(s, es', u, p, cpu', q', Step.Advance);
    es', cpu', q' := DoRun(s, es', u, p, cpu', q', Step.Advance);
    es' := GiveUpCpu(s, es', u, p, cpu', q');
    cpu', q' := Popped(cpu'), q'.(pc := Away(FromExit), saved := cpu'.ena, locked := false);
    es' := PassedOver(s, es', u, p, cpu', q');
    cpu' := Popped(Pushed(cpu'));
  }

  lemma PassedOver(s: State, es: seq<Step>, u: State, p: nat, cpu: Intr, q: Proc) returns (es': seq<Step>)
    requires p < |u.procs| && Reach(s, es, Off(u, p, cpu, q)) && !q.state.Runnable? && !q.locked
    ensures Reach(s, es', Off(u, p, Popped(Pushed(cpu)), q))
  {
    hide Reach;
    var t;
    es', t := Do(s, es, Off(u, p, cpu, q), SchedTake(p));
    assert t.procs == u.procs[p := q.(locked := true)];
    es', t := Do(s, es', t, SchedSkip);
    assert t.procs == u.procs[p := q.(locked := false)];
    assert q.(locked := false) == q;
  }

  /** The switches do what they are for. In any state of a run in which the scheduler looks for work, a new process can be
      dispatched, set its interrupts, execute a program, yield and run on, take a lock, sleep with it, be woken and run on,
      release it, and exit: each call returns to where it was made with the interrupt state of then, and at the end the
      scheduler is back in its loop with nothing held and every other process as it was. */
  lemma Career(s: State, p: nat, on: bool) returns (es: seq<Step>, t: State)
    requires Inv(s) && s.runs.Nothing? && s.sched.Loop? && p < |s.procs| && s.procs[p].pc.New? && s.procs[p].state.Runnable?
    ensures Reach(s, es, t) && t.runs.Nothing? && t.sched.Loop? && t.cpu.off == 0 && t.cpu.intr == on && |t.procs| == |s.procs| && t.procs == s.procs[p := t.procs[p]]
    ensures t.procs[p].pc == Away(FromExit) && t.procs[p].state.Zombie? && !t.procs[p].locked
    ensures t.procs[p].calls == s.procs[p].calls + [(on, on), (on, on)]
  {
    hide Reach, Inv, On;
    assert !s.procs[p].locked && s.cpu.off == 0 by { AtLoop(s, p); }
    es := [];
    assert Reach(s, [], s) by { StandStill(s); }
    assert s == Off(s, p, s.cpu, s.procs[p]);
    var cpu, q;
    es, cpu, q := StartUp(s, p, on);
    es, cpu, q := YieldReturns(s, es, s, p, cpu, q);
    es, cpu, q := DoRun(s, es, s, p, cpu, q, LockOne);
    es, cpu, q := SleepReturns(s, es, s, p, cpu, q);
    es, cpu, q := ReleaseAndTake(s, es, s, p, cpu, q);
    es, cpu, q := ExitLeaves(s, es, s, p, cpu, q);
    t := Off(s, p, cpu, q);
  }

  lemma ReleaseAndTake(s: State, es: seq<Step>, u: State, p: nat, cpu: Intr, q: Proc) returns (es': seq<Step>, cpu': Intr, q': Proc)
    requires p < |u.procs| && Reach(s, es, On(u, p, cpu, q)) && q.pc == Run(true) && cpu.off == 1 && !cpu.intr
    ensures Reach(s, es', On(u, p, cpu', q')) && cpu' == cpu && q' == q
  {
    hide Reach, On;
    es', cpu', q' := DoRun(s, es, u, p, cpu, q, UnlockOne);
    es', cpu', q' := DoRun(s, es', u, p, cpu', q', LockOne);
  }

  /** From the first dispatch to a running program. */
  lemma StartUp(s: State, p: nat, on: bool) returns (es: seq<Step>, cpu: Intr, q: Proc)
    requires s.runs.Nothing? && s.sched.Loop? && p < |s.procs| && s.procs[p].pc.New? && s.procs[p].state.Runnable? && !s.procs[p].locked && s.cpu.off == 0
    ensures Reach(s, es, On(s, p, cpu, q)) && cpu.off == 0 && cpu.intr == on && q.state.Runnable?
    ensures q.pc == Run(false) && !q.locked && q.calls == s.procs[p].calls
  {
    hide Reach, On;
    StandStill(s);
    assert s == Off(s, p, s.cpu, s.procs[p]);
    es := Dispatch(s, [], s, p, s.cpu, s.procs[p]);
    cpu, q := Pushed(s.cpu), s.procs[p].(locked := true, state := Running, pc := FirstRun);
    es, cpu, q := DoRun(s, es, s, p, cpu, q, Step.Advance);
    es, cpu, q := DoRun(s, es, s, p, cpu, q, Step.SetIntr(on));
    es, cpu, q := DoRun(s, es, s, p, cpu, q, Exec);
  }

  lemma StandStill(s: State)
    ensures Reach(s, [], s)
  {}

  lemma AtLoop(s: State, p: nat)
    requires Inv(s) && s.runs.Nothing? && s.sched.Loop? && p < |s.procs|
    ensures !s.procs[p].locked && s.cpu.off == 0
  {
    assert WaitingOk(s.procs[p], false);
  }
}
