/** Spinlocks on N CPUs and the nesting of interrupt disabling. */
module SpinLocks {
  import opened Wrappers

  // ------------------------------------------------- one CPU's interrupt state

  /** off counts the pushes, ena is the state before the outermost push, intr whether
      interrupts are on. */
  datatype Intr = Intr(off: nat, ena: bool, intr: bool)

  function Pushed(c: Intr): Intr {
    Intr(c.off + 1, if c.off == 0 then c.intr else c.ena, false)
  }

  function Popped(c: Intr): Intr
    requires c.off > 0
  {
    Intr(c.off - 1, c.ena, if c.off == 1 && c.ena then true else c.intr)
  }

  /** virtual_cpu.cc: the per-CPU counter and flag. */
  class VirtualCpu {
    var numOff: nat
    var intEna: bool
    var interruptible: bool

    function State(): Intr
      reads this
    {
      Intr(numOff, intEna, interruptible)
    }

    method PushInterruptOff()
      modifies this
      ensures State() == Pushed(old(State()))
    {
      var was := interruptible;
      interruptible := false;
      if numOff == 0 {
        intEna := was;
      }
      numOff := numOff + 1;
    }

    /** False stands for one of the two panics. */
    method PopInterruptOff() returns (ok: bool)
      modifies this
      ensures ok <==> !old(interruptible) && old(numOff) > 0
      ensures State() == if ok then Popped(old(State())) else old(State())
    {
      if interruptible || numOff < 1 {
        return false;
      }
      numOff := numOff - 1;
      if numOff == 0 && intEna {
        interruptible := true;
      }
      return true;
    }
  }

  // ------------------------------------------------------------- N CPUs

  /** Where a CPU stands in acquire or release. */
  datatype Pc =
    | Idle
    | Read(lock: nat)             // acquire: about to read the interrupt flag
    | TurnOff(lock: nat, was: bool)
    | Count(lock: nat, was: bool) // interrupts off, about to count
    | Check(lock: nat)            // about to test is_held
    | Spin(lock: nat)             // compare-exchange until it succeeds
    | Test(lock: nat)             // release: about to test is_held
    | Clear(lock: nat)            // compare-exchange back
    | Pop                         // about to pop
    | Panic

  /** outer is the interrupt state outside all locks; held lists the locks whose acquire has
      returned and whose release has not begun to clear them. Both are for the proof only. */
  datatype Cpu = Cpu(i: Intr, pc: Pc, held: set<nat>, outer: bool)

  datatype State = State(owner: seq<Wrap<nat>>, cpus: seq<Cpu>)

  datatype Step =
    | Acquire(c: nat, lock: nat)
    | Release(c: nat, lock: nat)
    | SetIntr(c: nat, on: bool)  // interrupts switched on or off outside all locks
    | Advance(c: nat)            // one step inside acquire or release

  predicate Enabled(s: State, e: Step) {
    e.c < |s.cpus| &&
    var q := s.cpus[e.c];
    match e
    case Acquire(_, l) => q.pc.Idle? && l < |s.owner|
    case Release(_, l) => q.pc.Idle? && l < |s.owner|
    case SetIntr(_, _) => q.pc.Idle? && q.i.off == 0
    case Advance(_) => !q.pc.Idle? && !q.pc.Panic? && (q.pc.Pop? || q.pc.lock < |s.owner|)
  }

  /** One step inside acquire or release: the CPU and the lock word after it. */
  function Stepped(c: nat, q: Cpu, word: Wrap<nat>): (Cpu, Wrap<nat>) {
    match q.pc
    case Read(l) => (q.(pc := TurnOff(l, q.i.intr)), word)
    case TurnOff(l, was) => (q.(pc := Count(l, was), i := q.i.(intr := false)), word)
    case Count(l, was) => (q.(pc := Check(l), i := Intr(q.i.off + 1, if q.i.off == 0 then was else q.i.ena, q.i.intr)), word)
    case Check(l) => (q.(pc := if word == Just(c) then Panic else Spin(l)), word)
    case Spin(l) => if word.Nothing? then (q.(pc := Idle, held := q.held + {l}), Just(c)) else (q, word)
    case Test(l) => (q.(pc := if word == Just(c) then Clear(l) else Panic), word)
    case Clear(l) => if word == Just(c) then (q.(pc := Pop, held := q.held - {l}), Nothing) else (q, word)
    case Pop => (q.(pc := if q.i.intr || q.i.off < 1 then Panic else Idle,
                    i := if q.i.intr || q.i.off < 1 then q.i else Popped(q.i)), word)
    case _ => (q, word)
  }

  function Next(s: State, e: Step): State
    requires Enabled(s, e)
  {
    var q := s.cpus[e.c];
    match e
    case Acquire(c, l) => s.(cpus := s.cpus[c := q.(pc := Read(l))])
    case Release(c, l) => s.(cpus := s.cpus[c := q.(pc := Test(l))])
    case SetIntr(c, on) => s.(cpus := s.cpus[c := q.(i := q.i.(intr := on), outer := on)])
    case Advance(c) =>
      if q.pc.Pop? then s.(cpus := s.cpus[c := Stepped(c, q, Nothing).0])
      else
        var r := Stepped(c, q, s.owner[q.pc.lock]);
        State(s.owner[q.pc.lock := r.1], s.cpus[c := r.0])
  }

  /** The three steps of push_interrupt_off, which other CPUs cannot disturb, add up to Pushed. */
  lemma PushInSteps(c: nat, q: Cpu, w1: Wrap<nat>, w2: Wrap<nat>, w3: Wrap<nat>)
    requires q.pc.Read?
    ensures Stepped(c, Stepped(c, Stepped(c, q, w1).0, w2).0, w3).0 == q.(pc := Check(q.pc.lock), i := Pushed(q.i))
  {}

  /** The step that pops does what pop_intterupt_off does, and panics where it does. */
  lemma PopInStep(c: nat, q: Cpu, word: Wrap<nat>)
    requires q.pc.Pop?
    ensures Stepped(c, q, word).0 == if q.i.intr || q.i.off == 0 then q.(pc := Panic) else q.(pc := Idle, i := Popped(q.i))
  {}

  // ----------------------------------------------------------- invariant

  /** Acquires past their push and releases before their pop. */
  function InProgress(pc: Pc): nat {
    if pc.Check? || pc.Spin? || pc.Pop? then 1 else 0
  }

  ghost predicate CountOk(q: Cpu) {
    !q.pc.Panic? ==> q.i.off == |q.held| + InProgress(q.pc)
  }

  ghost predicate IntrOk(q: Cpu) {
    CountOk(q) && FlagsOk(q)
  }

  ghost predicate FlagsOk(q: Cpu) {
    && (q.i.off > 0 || q.pc.Count? ==> !q.i.intr)
    && (q.i.off > 0 ==> q.i.ena == q.outer)
    && (q.i.off == 0 && !q.pc.Count? ==> q.i.intr == q.outer)
    && (q.i.off == 0 && q.pc.Count? ==> q.pc.was == q.outer)
    && (q.pc.TurnOff? ==> q.pc.was == q.i.intr)
  }

  ghost predicate HeldOk(owner: seq<Wrap<nat>>, c: nat, q: Cpu) {
    && (forall l: nat :: l in q.held <==> l < |owner| && owner[l] == Just(c))
    && (q.pc.Clear? ==> q.pc.lock in q.held)
    && (q.pc.Spin? ==> q.pc.lock !in q.held)
  }

  ghost predicate Inv(s: State) {
    && (forall c: nat :: c < |s.cpus| ==> IntrOk(s.cpus[c]))
    && (forall c: nat :: c < |s.cpus| ==> HeldOk(s.owner, c, s.cpus[c]))
    && (forall l: nat :: l < |s.owner| && s.owner[l].Just? ==> s.owner[l].value < |s.cpus|)
  }

  ghost predicate Boot(s: State) {
    && (forall l: nat :: l < |s.owner| ==> s.owner[l].Nothing?)
    && (forall c: nat :: c < |s.cpus| ==>
          var q := s.cpus[c]; q.pc.Idle? && q.held == {} && q.i.off == 0 && q.i.intr == q.outer)
  }

  lemma SizeUp(a: set<nat>, l: nat)
    ensures l !in a ==> |a + {l}| == |a| + 1
    ensures l in a ==> |a - {l}| == |a| - 1
  {}

  lemma SteppedFlags(c: nat, q: Cpu, word: Wrap<nat>)
    requires FlagsOk(q)
    ensures FlagsOk(Stepped(c, q, word).0)
  {}

  lemma SteppedCount(c: nat, q: Cpu, word: Wrap<nat>)
    requires IntrOk(q) && (q.pc.Spin? ==> q.pc.lock !in q.held) && (q.pc.Clear? ==> q.pc.lock in q.held)
    ensures CountOk(Stepped(c, q, word).0)
  {
    if q.pc.Spin? || q.pc.Clear? { SizeUp(q.held, q.pc.lock); }
  }

  lemma IntrStep(s: State, e: Step)
    requires Inv(s) && Enabled(s, e)
    ensures IntrOk(Next(s, e).cpus[e.c])
  {
    hide Stepped;
    var q := s.cpus[e.c];
    assert IntrOk(q) && HeldOk(s.owner, e.c, q);
    if e.Advance? {
      var word := if q.pc.Pop? then Nothing else s.owner[q.pc.lock];
      SteppedFlags(e.c, q, word);
      SteppedCount(e.c, q, word);
    }
  }

  lemma HeldStep(s: State, e: Step, c: nat)
    requires Inv(s) && Enabled(s, e) && c < |s.cpus|
    ensures HeldOk(Next(s, e).owner, c, Next(s, e).cpus[c])
  {
    hide IntrOk;
    assert HeldOk(s.owner, c, s.cpus[c]) && HeldOk(s.owner, e.c, s.cpus[e.c]);
  }

  lemma StepInv(s: State, e: Step)
    requires Inv(s) && Enabled(s, e)
    ensures Inv(Next(s, e))
  {
    hide IntrOk, HeldOk;
    IntrStep(s, e);
    forall c: nat | c < |s.cpus| ensures HeldOk(Next(s, e).owner, c, Next(s, e).cpus[c]) {
      HeldStep(s, e, c);
    }
  }

  /** A run of any number of CPUs over any number of locks. */
  ghost predicate Run(s: seq<State>, es: seq<Step>) {
    && |s| == |es| + 1 && Boot(s[0])
    && forall i :: 0 <= i < |es| ==> Enabled(s[i], es[i]) && s[i + 1] == Next(s[i], es[i])
  }

  lemma {:induction false} RunInv(s: seq<State>, es: seq<Step>, k: nat)
    requires Run(s, es) && k < |s|
    ensures Inv(s[k]) && |s[k].cpus| == |s[0].cpus|
  {
    if k > 0 {
      RunInv(s, es, k - 1);
      assert s[k - 1 + 1] == Next(s[k - 1], es[k - 1]);
      StepInv(s[k - 1], es[k - 1]);
    }
  }

  // ------------------------------------------------------------- theorems

  /** No two CPUs are between acquire and release of the same lock. */
  lemma MutualExclusion(s: seq<State>, es: seq<Step>, k: nat, c: nat, d: nat, l: nat)
    requires Run(s, es) && k < |s| && c < |s[k].cpus| && d < |s[k].cpus|
    requires l in s[k].cpus[c].held && l in s[k].cpus[d].held
    ensures c == d
  {
    RunInv(s, es, k);
    assert HeldOk(s[k].owner, c, s[k].cpus[c]) && HeldOk(s[k].owner, d, s[k].cpus[d]);
  }

  /** A CPU's off-count is the number of locks it holds plus its acquire or release in progress,
      and interrupts are off while it is positive. */
  lemma OffCount(s: seq<State>, es: seq<Step>, k: nat, c: nat)
    requires Run(s, es) && k < |s| && c < |s[k].cpus|
    ensures var q := s[k].cpus[c];
            && (!q.pc.Panic? ==> q.i.off == |q.held| + InProgress(q.pc))
            && (q.i.off > 0 ==> !q.i.intr)
  {
    RunInv(s, es, k);
    assert IntrOk(s[k].cpus[c]);
  }

  /** The panics of pop_intterupt_off cannot happen, and release clears the lock word at the first try. */
  lemma ReleaseNeverStalls(s: seq<State>, es: seq<Step>, k: nat, c: nat)
    requires Run(s, es) && k < |es| && es[k] == Advance(c) && (s[k].cpus[c].pc.Pop? || s[k].cpus[c].pc.Clear?)
    ensures s[k + 1].cpus[c].pc == if s[k].cpus[c].pc.Pop? then Idle else Pop
  {
    RunInv(s, es, k);
    assert s[k + 1] == Next(s[k], es[k]);
    assert IntrOk(s[k].cpus[c]) && HeldOk(s[k].owner, c, s[k].cpus[c]);
  }

  /** No CPU is between acquire and release of lock l. */
  ghost predicate NobodyHolds(s: State, l: nat) {
    forall d: nat :: d < |s.cpus| ==> l !in s.cpus[d].held
  }

  /** What acquire and release do with the lock. acquire panics exactly if this CPU holds the lock already; its
      compare-exchange takes the lock exactly if nobody holds it, and else changes nothing. release panics exactly if this
      CPU does not hold the lock, and gives it up otherwise. */
  lemma LockOutcome(s: seq<State>, es: seq<Step>, k: nat, c: nat)
    requires Run(s, es) && k < |es| && es[k] == Advance(c)
    ensures c < |s[k].cpus| && c < |s[k + 1].cpus|
    ensures var q, q' := s[k].cpus[c], s[k + 1].cpus[c];
            && (q.pc.Check? ==> q'.pc == if q.pc.lock in q.held then Panic else Spin(q.pc.lock))
            && (q.pc.Spin? && NobodyHolds(s[k], q.pc.lock) ==> q' == q.(pc := Idle, held := q.held + {q.pc.lock}))
            && (q.pc.Spin? && !NobodyHolds(s[k], q.pc.lock) ==> s[k + 1] == s[k])
            && (q.pc.Test? ==> q'.pc == if q.pc.lock in q.held then Clear(q.pc.lock) else Panic)
            && (q.pc.Clear? ==> q' == q.(pc := Pop, held := q.held - {q.pc.lock}) && NobodyHolds(s[k + 1], q.pc.lock))
    ensures !s[k].cpus[c].pc.Spin? && !s[k].cpus[c].pc.Clear? ==> s[k + 1].cpus[c].held == s[k].cpus[c].held
  {
    RunInv(s, es, k);
    RunInv(s, es, k + 1);
    var q := s[k].cpus[c];
    assert s[k + 1] == Next(s[k], es[k]) && Enabled(s[k], es[k]) && HeldOk(s[k].owner, c, q);
    if q.pc.Spin? || q.pc.Clear? {
      OwnerHolds(s[k], q.pc.lock);
      OwnerHolds(s[k + 1], q.pc.lock);
    }
  }

  lemma OwnerHolds(s: State, l: nat)
    requires Inv(s) && l < |s.owner|
    ensures NobodyHolds(s, l) <==> s.owner[l].Nothing?
  {
    if s.owner[l].Just? { assert HeldOk(s.owner, s.owner[l].value, s.cpus[s.owner[l].value]); }
    forall d: nat | d < |s.cpus| ensures l in s.cpus[d].held ==> s.owner[l].Just? {
      assert HeldOk(s.owner, d, s.cpus[d]);
    }
  }

  lemma OuterStep(s: State, e: Step, c: nat)
    requires Enabled(s, e) && c < |s.cpus| && !(e.SetIntr? && e.c == c)
    ensures |Next(s, e).cpus| == |s.cpus| && Next(s, e).cpus[c].outer == s.cpus[c].outer
  {}

  lemma {:induction false} OuterKept(s: seq<State>, es: seq<Step>, i: nat, j: nat, c: nat)
    requires Run(s, es) && i <= j < |s| && c < |s[0].cpus|
    requires forall k :: i <= k < j ==> !(es[k].SetIntr? && es[k].c == c)
    ensures |s[j].cpus| == |s[i].cpus| == |s[0].cpus| && s[j].cpus[c].outer == s[i].cpus[c].outer
  {
    hide Inv, Next, Enabled, Boot;
    RunInv(s, es, i);
    RunInv(s, es, j);
    if i < j {
      OuterKept(s, es, i, j - 1, c);
      assert s[j - 1 + 1] == Next(s[j - 1], es[j - 1]);
      OuterStep(s[j - 1], es[j - 1], c);
    }
  }

  /** Whatever a CPU acquires and releases in between, in any order, once it holds nothing again its
      interrupts are as they were. */
  lemma BalancedRestores(s: seq<State>, es: seq<Step>, i: nat, j: nat, c: nat)
    requires Run(s, es) && i <= j < |s| && c < |s[0].cpus| && |s[i].cpus| == |s[j].cpus| == |s[0].cpus|
    requires s[i].cpus[c].pc.Idle? && s[i].cpus[c].held == {}
    requires s[j].cpus[c].pc.Idle? && s[j].cpus[c].held == {}
    requires forall k :: i <= k < j ==> !(es[k].SetIntr? && es[k].c == c)
    ensures s[j].cpus[c].i.off == 0 && s[j].cpus[c].i.intr == s[i].cpus[c].i.intr
  {
    RunInv(s, es, i);
    RunInv(s, es, j);
    OuterKept(s, es, i, j, c);
    assert IntrOk(s[i].cpus[c]) && IntrOk(s[j].cpus[c]);
  }
}
