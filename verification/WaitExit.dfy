/** fork, exit and wait as atomic steps of a pool of processes, in any interleaving.
    One step is one lock operation or one action under a lock; a visit of a slot by wait,
    wakeup or alloc_proc, which takes and releases that slot's lock, is one step that needs
    the lock free. The rest of the kernel (scheduler, yield, other channels) may take any
    free process lock and move processes that are outside the protocol. */
module WaitExit {
  import opened Wrappers

  datatype Owner = Free | Self | Other

  datatype ProcState = Unused | Used | Runnable | Running | Sleeping | Zombie

  datatype Chan = NoChan | OfProc(p: nat) | OtherChan

  datatype Pc =
    | Gone                        // no thread in this slot
    | Idle                        // outside the protocol
    | WaitEnter                   // wait: about to take the wait lock, first time or again
    | Scan(i: nat, have: bool)    // holds it, about to visit slot i
    | WaitEnd(code: int, status: int)  // about to release it and return; status is what was stored for the caller
    | Commit                      // found no zombie: sleep, about to take the own lock
    | Drop                        // holds both, about to release the wait lock
    | Mark                        // about to set channel and state
    | Switch                      // about to switch away
    | Asleep
    | Resumed                     // dispatched, holds the own lock
    | ExitEnter                   // exit: about to take the wait lock
    | Reparent                    // holds it
    | Wake(i: nat, target: nat)   // wakeup(parent) at slot i
    | Last                        // about to take the own lock
    | Die                         // holds both, about to become a zombie
    | Bury                        // zombie, about to release the wait lock
    | LeaveCpu                    // about to switch away for good
    | Dead
    | Made(child: nat)            // fork: slot allocated, copying memory
    | Link(child: nat)            // holds the wait lock, about to set the parent
    | Linked(child: nat)          // about to release it
    | Start(child: nat)           // about to make the child runnable

  datatype Proc = Proc(pc: Pc, lock: Owner, state: ProcState, chan: Chan, pid: nat, parent: Wrap<nat>, killed: bool, request: int, xstate: int)

  /** What a successful wait gave its caller. */
  datatype Answer = Answer(pid: int, status: int)

  /** waitLock is held by nobody or by one process. exited maps the pid of every process that became a zombie to the
      argument of its exit, reaped lists the pids of all processes freed by a wait, and returned all answers of waits. */
  datatype State = State(procs: seq<Proc>, waitLock: Wrap<nat>, nextPid: nat, init: nat, exited: map<nat, int>, reaped: seq<nat>,
                         returned: seq<Answer>)

  const ECHILD: int := 10

  predicate Live(state: ProcState) { !state.Unused? && !state.Used? }

  predicate Matches(request: int, pid: nat) { request > 0 ==> pid == request }

  /** Slot c holds a child of p that p's wait asks for. */
  predicate Child(s: State, p: nat, c: nat)
    requires p < |s.procs| && c < |s.procs|
  {
    s.procs[c].parent == Just(p) && Matches(s.procs[p].request, s.procs[c].pid)
  }

  /** Steps that change only the process itself and perhaps the wait lock. */
  datatype Move =
    | WaitCall(request: int)
    | WaitLock
    | WaitDecide
    | WaitReturn
    | SleepLock
    | SleepUnlock
    | SleepMark
    | SwitchAway
    | Dispatch
    | SleepEnd
    | ExitCall
    | ExitLock
    | ExitWoken
    | ExitSelf
    | ExitUnlock
    | ForkLock
    | ForkUnlock
    | Kill
    | OtherLock
    | OtherUnlock
    | OtherMove(state: ProcState, chan: Chan)

  datatype Step =
    | Alone(p: nat, m: Move)
    | WaitVisit(p: nat, copyFails: bool)
    | ExitReparent(p: nat)
    | ExitWake(p: nat)
    | ExitDie(p: nat, state: int)
    | ForkAlloc(p: nat, child: nat)
    | ForkFail(p: nat)
    | ForkLink(p: nat)
    | ForkStart(p: nat)

  predicate Active(q: Proc) { q.pc.Idle? && (q.state.Running? || q.state.Runnable?) }

  /** The early check of wait: for a given pid there must be such a child, else it returns -1 at once. */
  predicate SomeChild(s: State, p: nat, request: int) {
    request > 0 ==> exists c :: 0 <= c < |s.procs| && s.procs[c].parent == Just(p) && s.procs[c].pid == request
  }

  predicate MoveEnabled(s: State, p: nat, m: Move)
    requires p < |s.procs|
  {
    var q := s.procs[p];
    match m
    case WaitCall(request) => Active(q) && SomeChild(s, p, request)
    case WaitLock => q.pc.WaitEnter? && s.waitLock.Nothing?
    case WaitDecide => q.pc.Scan? && q.pc.i == |s.procs|
    case WaitReturn => q.pc.WaitEnd?
    case SleepLock => q.pc.Commit? && q.lock.Free?
    case SleepUnlock => q.pc.Drop?
    case SleepMark => q.pc.Mark?
    case SwitchAway => q.pc.Switch? || q.pc.LeaveCpu?
    case Dispatch => q.pc.Asleep? && q.state.Runnable? && q.lock.Other?
    case SleepEnd => q.pc.Resumed?
    case ExitCall => Active(q) && p != s.init
    case ExitLock => q.pc.ExitEnter? && s.waitLock.Nothing?
    case ExitWoken => q.pc.Wake? && q.pc.i == |s.procs|
    case ExitSelf => q.pc.Last? && q.lock.Free?
    case ExitUnlock => q.pc.Bury?
    case ForkLock => q.pc.Made? && s.waitLock.Nothing?
    case ForkUnlock => q.pc.Linked?
    case Kill => true
    case OtherLock => q.lock.Free?
    case OtherUnlock => q.lock.Other?
    case OtherMove(state, chan) =>
      q.lock.Other? && !chan.OfProc? && (state.Running? || state.Runnable? || (state.Sleeping? && q.pc.Idle?))
      && (q.pc.Idle? || q.pc.WaitEnter? || q.pc.ExitEnter? || q.pc.Made? || q.pc.Start?)
  }

  predicate Enabled(s: State, e: Step) {
    e.p < |s.procs| &&
    var q := s.procs[e.p];
    match e
    case Alone(p, m) => MoveEnabled(s, p, m)
    case WaitVisit(p, _) => q.pc.Scan? && q.pc.i < |s.procs| && (Child(s, p, q.pc.i) ==> s.procs[q.pc.i].lock.Free?)
    case ExitReparent(_) => q.pc.Reparent?
    case ExitWake(_) => q.pc.Wake? && q.pc.i < |s.procs| && s.procs[q.pc.i].lock.Free?
    case ExitDie(_, _) => q.pc.Die?
    case ForkAlloc(_, c) => Active(q) && c < |s.procs| && s.procs[c].state.Unused? && s.procs[c].lock.Free?
    case ForkFail(_) => q.pc.Made?
    case ForkLink(_) => q.pc.Link?
    case ForkStart(_) => q.pc.Start?
  }

  /** The 32 bits of the exit status word: the argument, shifted up by a byte. */
  function Status(state: int): int { state * 0x100 % 0x1_0000_0000 }

  /** The step is the successful return of a wait. */
  predicate Answers(e: Step, q: Proc) {
    e.Alone? && e.m.WaitReturn? && q.pc.WaitEnd? && q.pc.code > 0
  }

  /** freeproc. */
  function Freed(q: Proc): Proc {
    q.(pc := Gone, state := Unused, chan := NoChan, pid := 0, parent := Nothing, killed := false, xstate := 0)
  }

  /** wait reaps the zombie child in slot r. */
  predicate Reaps(s: State, e: Step, r: nat)
    requires Enabled(s, e) && r < |s.procs|
  {
    e.WaitVisit? && !e.copyFails && r == s.procs[e.p].pc.i && Child(s, e.p, r) && s.procs[r].state.Zombie?
  }

  /** The wakeup loop of exit meets a process asleep on the channel. */
  predicate Rouses(s: State, e: Step, r: nat)
    requires Enabled(s, e) && r < |s.procs|
  {
    e.ExitWake? && r == s.procs[e.p].pc.i && s.procs[r].state.Sleeping? && s.procs[r].chan == OfProc(s.procs[e.p].pc.target)
  }

  function Moved(p: nat, q: Proc, m: Move): Proc {
    match m
    case WaitCall(request) => q.(pc := WaitEnter, request := request)
    case WaitLock => q.(pc := Scan(0, false))
    case WaitDecide => q.(pc := if (q.pc.Scan? && !q.pc.have) || q.killed then WaitEnd(-ECHILD, 0) else Commit)
    case WaitReturn => q.(pc := Idle)
    case SleepLock => q.(pc := Drop, lock := Self)
    case SleepUnlock => q.(pc := Mark)
    case SleepMark => q.(pc := Switch, chan := OfProc(p), state := Sleeping)
    case SwitchAway => q.(pc := if q.pc.Switch? then Asleep else Dead, lock := Other)
    case Dispatch => q.(pc := Resumed, lock := Self, state := Running)
    case SleepEnd => q.(pc := WaitEnter, lock := Free, chan := NoChan)
    case ExitCall => q.(pc := ExitEnter)
    case ExitLock => q.(pc := Reparent)
    case ExitWoken => q.(pc := Last)
    case ExitSelf => q.(pc := Die, lock := Self)
    case ExitUnlock => q.(pc := LeaveCpu)
    case ForkLock => if q.pc.Made? then q.(pc := Link(q.pc.child)) else q
    case ForkUnlock => if q.pc.Linked? then q.(pc := Start(q.pc.child)) else q
    case Kill => q.(killed := true)
    case OtherLock => q.(lock := Other)
    case OtherUnlock => q.(lock := Free)
    case OtherMove(state, chan) => q.(state := state, chan := chan)
  }

  /** How a step changes the process that takes it. */
  function Own(s: State, e: Step): Proc
    requires Enabled(s, e)
  {
    var p, q := e.p, s.procs[e.p];
    match e
    case Alone(_, m) => Moved(p, q, m)
    case WaitVisit(_, copyFails) =>
      var i := q.pc.i;
      if !Child(s, p, i) then q.(pc := Scan(i + 1, q.pc.have))
      else if !s.procs[i].state.Zombie? then q.(pc := Scan(i + 1, true))
      else q.(pc := if copyFails then WaitEnd(-1, 0) else WaitEnd(s.procs[i].pid, s.procs[i].xstate))
    case ExitReparent(_) => q.(pc := if q.parent.Just? then Wake(0, q.parent.value) else Last)
    case ExitWake(_) => q.(pc := Wake(q.pc.i + 1, q.pc.target), state := if Rouses(s, e, p) then Runnable else q.state)
    case ExitDie(_, state) => q.(pc := Bury, state := Zombie, xstate := Status(state))
    case ForkAlloc(_, c) => q.(pc := Made(c))
    case ForkFail(_) => q.(pc := Idle)
    case ForkLink(_) => q.(pc := Linked(q.pc.child))
    case ForkStart(_) => q.(pc := Idle)
  }

  /** How a step of e.p changes another slot. */
  function Touched(s: State, e: Step, r: nat): Proc
    requires Enabled(s, e) && r < |s.procs|
  {
    var q, t := s.procs[e.p], s.procs[r];
    match e
    case WaitVisit(_, _) => if Reaps(s, e, r) then Freed(t) else t
    case ExitReparent(p) => if t.parent == Just(p) then t.(parent := Just(s.init)) else t
    case ExitWake(_) => if Rouses(s, e, r) then t.(state := Runnable) else t
    case ForkAlloc(_, c) => if r == c then t.(state := Used, pid := s.nextPid) else t
    case ForkFail(_) => if r == q.pc.child then Freed(t) else t
    case ForkLink(p) => if r == q.pc.child then t.(parent := Just(p)) else t
    case ForkStart(_) => if r == q.pc.child then t.(state := Runnable, pc := Idle) else t
    case _ => t
  }

  function WaitLockAfter(waitLock: Wrap<nat>, e: Step): Wrap<nat> {
    if !e.Alone? then waitLock
    else if e.m.WaitLock? || e.m.ExitLock? || e.m.ForkLock? then Just(e.p)
    else if e.m.WaitReturn? || e.m.SleepUnlock? || e.m.ExitUnlock? || e.m.ForkUnlock? then Nothing
    else waitLock
  }

  function Next(s: State, e: Step): (s': State)
    requires Enabled(s, e)
    ensures |s'.procs| == |s.procs|
  {
    var q := s.procs[e.p];
    State(seq(|s.procs|, r requires 0 <= r < |s.procs| => if r == e.p then Own(s, e) else Touched(s, e, r)),
          WaitLockAfter(s.waitLock, e),
          if e.ForkAlloc? then s.nextPid + 1 else s.nextPid,
          s.init,
          if e.ExitDie? then s.exited[q.pid := e.state] else s.exited,
          if e.WaitVisit? && Reaps(s, e, q.pc.i) then s.reaped + [s.procs[q.pc.i].pid] else s.reaped,
          if Answers(e, q) then s.returned + [Answer(q.pc.code, q.pc.status)] else s.returned)
  }

  // ----------------------------------------------------------- invariant

  predicate HoldsWait(pc: Pc) {
    pc.Scan? || pc.WaitEnd? || pc.Commit? || pc.Drop? || pc.Reparent? || pc.Wake? || pc.Last? || pc.Die? || pc.Bury?
    || pc.Link? || pc.Linked?
  }

  predicate HoldsSelf(pc: Pc) {
    pc.Drop? || pc.Mark? || pc.Switch? || pc.Resumed? || pc.Die? || pc.Bury? || pc.LeaveCpu?
  }

  predicate Exited(pc: Pc) { pc.Bury? || pc.LeaveCpu? || pc.Dead? }

  /** In exit, with the children already given away. */
  predicate Childless(pc: Pc) { pc.Wake? || pc.Last? || pc.Die? || Exited(pc) }

  predicate Exiting(pc: Pc) { pc.ExitEnter? || pc.Reparent? || Childless(pc) }

  predicate Forking(pc: Pc) { pc.Made? || pc.Link? || pc.Linked? || pc.Start? }

  /** On the way to sleep in wait, or asleep and not woken. */
  predicate Committed(q: Proc) {
    q.pc.Commit? || q.pc.Drop? || q.pc.Mark? || q.pc.Switch? || (q.pc.Asleep? && q.state.Sleeping?)
  }

  /** The locks are held exactly where the code holds them. */
  ghost predicate LockOk(waitLock: Wrap<nat>, p: nat, q: Proc) {
    && (waitLock == Just(p) <==> HoldsWait(q.pc))
    && (q.lock.Self? <==> HoldsSelf(q.pc))
  }

  ghost predicate LocalOk(waitLock: Wrap<nat>, p: nat, q: Proc) {
    LockOk(waitLock, p, q) && StateOk(p, q)
  }

  ghost predicate StateOk(p: nat, q: Proc) {
    && (q.pc.Gone? <==> !Live(q.state))
    && (Exited(q.pc) <==> q.state.Zombie?)
    && (q.pc.Switch? ==> q.state.Sleeping?)
    && (q.pc.Asleep? ==> q.state.Sleeping? || q.state.Runnable?)
    && (q.state.Sleeping? && (q.pc.Switch? || q.pc.Asleep?) ==> q.chan == OfProc(p))
    && (q.state.Unused? ==> q.parent.Nothing?)
  }

  ghost predicate Locals(s: State) {
    && (forall p: nat :: p < |s.procs| ==> LocalOk(s.waitLock, p, s.procs[p]))
    && (s.waitLock.Just? ==> s.waitLock.value < |s.procs|)
  }

  /** A child's parent is a live process that is older and has not given its children away. */
  ghost predicate ParentOk(s: State, c: nat, p: nat)
    requires c < |s.procs|
  {
    && p < |s.procs| && Live(s.procs[p].state) && !Childless(s.procs[p].pc)
    && s.procs[p].pid < s.procs[c].pid
  }

  ghost predicate Family(s: State) {
    forall c: nat :: c < |s.procs| && s.procs[c].parent.Just? ==> ParentOk(s, c, s.procs[c].parent.value)
  }

  ghost predicate PidOk(s: State, p: nat)
    requires p < |s.procs|
  {
    !s.procs[p].state.Unused? ==> 0 < s.procs[p].pid < s.nextPid && s.procs[p].pid !in s.reaped
  }

  ghost predicate Pids(s: State) {
    && s.nextPid > 0
    && (forall p: nat :: p < |s.procs| ==> PidOk(s, p))
    && (forall p: nat, q: nat :: p < q < |s.procs| && !s.procs[p].state.Unused? && !s.procs[q].state.Unused? ==>
          s.procs[p].pid != s.procs[q].pid)
    && (forall x :: x in s.reaped ==> 0 < x < s.nextPid)
    && (forall i, j :: 0 <= i < j < |s.reaped| ==> s.reaped[i] != s.reaped[j])
  }

  ghost predicate InitOk(s: State) {
    && s.init < |s.procs| && Live(s.procs[s.init].state) && !Exiting(s.procs[s.init].pc) && s.procs[s.init].parent.Nothing?
    && (forall p: nat :: p < |s.procs| && p != s.init && !s.procs[p].state.Unused? ==> s.procs[s.init].pid < s.procs[p].pid)
  }

  ghost predicate ForkOk(s: State, p: nat)
    requires p < |s.procs|
  {
    var q := s.procs[p];
    Forking(q.pc) ==>
      && q.pc.child < |s.procs| && q.pc.child != p
      && s.procs[q.pc.child].state.Used?
      && q.pid < s.procs[q.pc.child].pid
      && s.procs[q.pc.child].parent == if q.pc.Made? || q.pc.Link? then Nothing else Just(p)
  }

  ghost predicate Forks(s: State) {
    && (forall p: nat :: p < |s.procs| ==> ForkOk(s, p))
    && (forall p: nat, q: nat :: p < q < |s.procs| && Forking(s.procs[p].pc) && Forking(s.procs[q].pc) ==>
          s.procs[p].pc.child != s.procs[q].pc.child)
  }

  predicate ZombieChild(s: State, p: nat, c: nat)
    requires p < |s.procs| && c < |s.procs|
  {
    Child(s, p, c) && s.procs[c].state.Zombie?
  }

  /** What the scan of wait has found out so far. */
  ghost predicate ScanOk(s: State, p: nat)
    requires p < |s.procs|
  {
    var pc := s.procs[p].pc;
    pc.Scan? ==>
      && pc.i <= |s.procs|
      && (forall c: nat :: c < pc.i ==> !ZombieChild(s, p, c))
      && (pc.have <==> exists c: nat :: c < pc.i && Child(s, p, c))
  }

  /** A process other than init that is going to sleep in wait, or sleeps there, has no
      zombie child that its request matches. */
  ghost predicate SleepOk(s: State, p: nat)
    requires p < |s.procs|
  {
    p != s.init && Committed(s.procs[p]) ==> forall c: nat :: c < |s.procs| ==> !ZombieChild(s, p, c)
  }

  /** An exiting process that has passed its parent in the wakeup loop left it awake. */
  ghost predicate WakeOk(s: State, p: nat)
    requires p < |s.procs|
  {
    var q := s.procs[p];
    && (q.pc.Wake? ==> q.pc.i <= |s.procs| && q.pc.target < |s.procs| && q.parent == Just(q.pc.target)
                       && (q.pc.target < q.pc.i ==> !Committed(s.procs[q.pc.target])))
    && (q.pc.Last? || q.pc.Die? ==> q.parent.Just? ==> q.parent.value < |s.procs| && !Committed(s.procs[q.parent.value]))
  }

  ghost predicate Waits(s: State) {
    forall p: nat :: p < |s.procs| ==> ScanOk(s, p) && SleepOk(s, p) && WakeOk(s, p)
  }

  /** Exited pids are those of today's zombies and those that were reaped. */
  ghost predicate Ledger(s: State) {
    && (forall x :: x in s.reaped ==> x in s.exited)
    && (forall x :: x in s.exited ==> x < s.nextPid && (x in s.reaped || exists p: nat :: p < |s.procs| && IsZombie(s.procs[p], x)))
    && (forall p: nat :: p < |s.procs| && !s.procs[p].state.Unused? ==>
          (s.procs[p].state.Zombie? <==> s.procs[p].pid in s.exited))
    && (forall p: nat :: p < |s.procs| && s.procs[p].state.Zombie? ==> StatusKept(s, p))
  }

  /** A zombie keeps the status it exited with. */
  predicate StatusKept(s: State, p: nat)
    requires p < |s.procs|
  {
    s.procs[p].pid in s.exited && s.procs[p].xstate == Status(s.exited[s.procs[p].pid])
  }

  predicate IsZombie(q: Proc, pid: nat) { q.state.Zombie? && q.pid == pid }

  /** The answer names process x and the status it exited with. */
  ghost predicate Told(s: State, a: Answer, x: nat) {
    a.pid == x && x in s.exited && a.status == Status(s.exited[x])
  }

  /** A wait about to return a pid returns the one reaped last, which is the one asked for. */
  ghost predicate ReplyOk(s: State, p: nat)
    requires p < |s.procs|
  {
    var q := s.procs[p];
    q.pc.WaitEnd? && q.pc.code > 0 ==>
      && |s.reaped| == |s.returned| + 1 && Told(s, Answer(q.pc.code, q.pc.status), s.reaped[|s.returned|])
      && (q.request > 0 ==> q.pc.code == q.request)
  }

  predicate Replying(pc: Pc) { pc.WaitEnd? && pc.code > 0 }

  /** What waits returned is what they reaped, in order; at most one return is outstanding, that of the wait lock's holder. */
  ghost predicate Replies(s: State) {
    && |s.returned| <= |s.reaped| <= |s.returned| + 1
    && (forall i :: 0 <= i < |s.returned| ==> Told(s, s.returned[i], s.reaped[i]))
    && (forall p: nat :: p < |s.procs| ==> ReplyOk(s, p))
    && (|s.reaped| > |s.returned| ==>
          s.waitLock.Just? && s.waitLock.value < |s.procs| && Replying(s.procs[s.waitLock.value].pc))
  }

  ghost predicate Inv(s: State) {
    Locals(s) && Family(s) && Pids(s) && InitOk(s) && Forks(s) && Waits(s) && Ledger(s) && Replies(s)
  }

  /** At boot only init runs. */
  ghost predicate Boot(s: State) {
    && s.init < |s.procs| && s.waitLock.Nothing? && s.exited == map[] && s.reaped == [] && s.returned == []
    && (forall p: nat :: p < |s.procs| ==> s.procs[p].parent.Nothing? && !s.procs[p].lock.Self?)
    && (forall p: nat :: p < |s.procs| && p != s.init ==> s.procs[p].pc.Gone? && s.procs[p].state.Unused?)
    && s.procs[s.init].pc.Idle? && s.procs[s.init].state.Runnable? && 0 < s.procs[s.init].pid < s.nextPid
  }

  lemma BootInv(s: State)
    requires Boot(s)
    ensures Inv(s)
  {
    BootFamilies(s);
    BootWaits(s);
    hide Boot, Locals, Family, Pids, InitOk, Forks, Waits, Ledger, Replies;
  }

  lemma BootFamilies(s: State)
    requires Boot(s)
    ensures Locals(s) && Family(s) && Pids(s) && InitOk(s)
  {}

  lemma BootWaits(s: State)
    requires Boot(s)
    ensures Forks(s) && Waits(s) && Ledger(s) && Replies(s)
  {
    forall p: nat | p < |s.procs| ensures s.procs[p].pc.Idle? || s.procs[p].pc.Gone? {}
  }

  /** Moves, seen from the invariants about locks and states. */
  lemma MoveLocal(s: State, p: nat, m: Move)
    requires p < |s.procs| && MoveEnabled(s, p, m) && LocalOk(s.waitLock, p, s.procs[p])
    ensures LocalOk(WaitLockAfter(s.waitLock, Alone(p, m)), p, Moved(p, s.procs[p], m))
  {
    hide MoveEnabled, Moved, LockOk, StateOk;
    MoveLock(s, p, m);
    MoveState(s, p, m);
  }

  lemma MoveLock(s: State, p: nat, m: Move)
    requires p < |s.procs| && MoveEnabled(s, p, m) && LocalOk(s.waitLock, p, s.procs[p])
    ensures LockOk(WaitLockAfter(s.waitLock, Alone(p, m)), p, Moved(p, s.procs[p], m))
  {
    hide SomeChild, StateOk;
  }

  lemma MoveState(s: State, p: nat, m: Move)
    requires p < |s.procs| && MoveEnabled(s, p, m) && LocalOk(s.waitLock, p, s.procs[p])
    ensures StateOk(p, Moved(p, s.procs[p], m))
  {
    hide SomeChild, LockOk;
  }

  /** Moves, seen from the invariants about families. */
  lemma MoveKeeps(s: State, p: nat, m: Move)
    requires p < |s.procs| && MoveEnabled(s, p, m) && LocalOk(s.waitLock, p, s.procs[p])
    ensures var q, q' := s.procs[p], Moved(p, s.procs[p], m);
            && q'.pid == q.pid && q'.parent == q.parent && q'.xstate == q.xstate
            && (q'.state.Unused? <==> q.state.Unused?) && (Live(q'.state) <==> Live(q.state))
            && (q'.state.Zombie? <==> q.state.Zombie?)
            && (Childless(q'.pc) <==> Childless(q.pc)) && (Forking(q'.pc) <==> Forking(q.pc))
            && (Exiting(q'.pc) ==> Exiting(q.pc) || p != s.init)
            && (Forking(q.pc) ==> q'.pc.child == q.pc.child && ((q'.pc.Made? || q'.pc.Link?) <==> (q.pc.Made? || q.pc.Link?)))
  {
    hide SomeChild, HoldsWait, HoldsSelf;
  }

  lemma OwnLocal(s: State, e: Step)
    requires Enabled(s, e) && LocalOk(s.waitLock, e.p, s.procs[e.p])
    ensures LocalOk(WaitLockAfter(s.waitLock, e), e.p, Own(s, e))
  {
    hide MoveEnabled, Moved, Child;
    if e.Alone? { MoveLocal(s, e.p, e.m); }
  }

  lemma TouchedLocal(s: State, e: Step, r: nat)
    requires Enabled(s, e) && LocalOk(s.waitLock, e.p, s.procs[e.p]) && r < |s.procs| && r != e.p
    requires LocalOk(s.waitLock, r, s.procs[r]) && ForkOk(s, e.p)
    ensures LocalOk(WaitLockAfter(s.waitLock, e), r, Touched(s, e, r))
  {
    hide MoveEnabled, Moved, Child;
    if e.Alone? { LockTransfer(s, e.p, e.m, r); }
  }

  lemma LockTransfer(s: State, p: nat, m: Move, r: nat)
    requires p < |s.procs| && MoveEnabled(s, p, m) && LocalOk(s.waitLock, p, s.procs[p]) && r != p
    ensures WaitLockAfter(s.waitLock, Alone(p, m)) == Just(r) <==> s.waitLock == Just(r)
  {
    hide SomeChild, StateOk;
  }

  lemma StepSlots(s: State, e: Step)
    requires Enabled(s, e)
    ensures e.p < |s.procs| && Next(s, e).procs[e.p] == Own(s, e)
    ensures forall r: nat :: r < |s.procs| && r != e.p ==> Next(s, e).procs[r] == Touched(s, e, r)
    ensures Next(s, e).waitLock == WaitLockAfter(s.waitLock, e)
    ensures WaitLockAfter(s.waitLock, e) in {Nothing, Just(e.p), s.waitLock}
  {
    hide Own, Touched;
  }

  lemma LocalsStep(s: State, e: Step)
    requires Locals(s) && Forks(s) && Enabled(s, e)
    ensures Locals(Next(s, e))
  {
    hide LockOk, StateOk, Own, Touched, ForkOk, Enabled, Next;
    StepSlots(s, e);
    OwnLocal(s, e);
    forall r: nat | r < |s.procs| && r != e.p ensures LocalOk(WaitLockAfter(s.waitLock, e), r, Touched(s, e, r)) {
      TouchedLocal(s, e, r);
    }
  }

  lemma OwnKeeps(s: State, e: Step)
    requires Enabled(s, e) && LocalOk(s.waitLock, e.p, s.procs[e.p])
    ensures Own(s, e).pid == s.procs[e.p].pid && Own(s, e).parent == s.procs[e.p].parent
    ensures Own(s, e).xstate == if e.ExitDie? then Status(e.state) else s.procs[e.p].xstate
    ensures Own(s, e).state.Unused? <==> s.procs[e.p].state.Unused?
    ensures Live(Own(s, e).state) <==> Live(s.procs[e.p].state)
    ensures Own(s, e).state.Zombie? <==> s.procs[e.p].state.Zombie? || e.ExitDie?
    ensures Childless(Own(s, e).pc) <==> Childless(s.procs[e.p].pc) || e.ExitReparent?
    ensures e.ExitReparent? ==> !Childless(s.procs[e.p].pc)
    ensures Exiting(Own(s, e).pc) ==> Exiting(s.procs[e.p].pc) || e.p != s.init
  {
    hide MoveEnabled, Moved, Child, HoldsWait, HoldsSelf;
    if e.Alone? { MoveKeeps(s, e.p, e.m); }
  }

  lemma FamilyAt(s: State, e: Step, c: nat)
    requires Locals(s) && Family(s) && InitOk(s) && Forks(s) && Enabled(s, e) && c < |s.procs|
    requires Next(s, e).procs[c].parent.Just?
    ensures ParentOk(Next(s, e), c, Next(s, e).procs[c].parent.value)
  {
    hide MoveEnabled, Own, Next, Matches, HoldsWait, HoldsSelf;
    var s', p := Next(s, e), e.p;
    StepSlots(s, e);
    OwnKeeps(s, e);
    assert LocalOk(s.waitLock, p, s.procs[p]) && LocalOk(s.waitLock, c, s.procs[c]) && ForkOk(s, p);
    var d := s'.procs[c].parent.value;
    if s.procs[c].parent == Just(d) {
      assert ParentOk(s, c, d);
      assert LocalOk(s.waitLock, d, s.procs[d]);
    }
  }

  lemma FamilyStep(s: State, e: Step)
    requires Locals(s) && Family(s) && InitOk(s) && Forks(s) && Enabled(s, e)
    ensures Family(Next(s, e))
  {
    hide Enabled, Next, ParentOk, Locals, InitOk, Forks;
    forall c: nat | c < |s.procs| && Next(s, e).procs[c].parent.Just?
      ensures ParentOk(Next(s, e), c, Next(s, e).procs[c].parent.value)
    {
      FamilyAt(s, e, c);
    }
  }

  /** Where the pid of slot r comes from, if it has one after the step. */
  predicate PidMove(s: State, e: Step, s': State, r: nat)
    requires Enabled(s, e) && r < |s.procs| == |s'.procs|
  {
    !s'.procs[r].state.Unused? ==>
      if e.ForkAlloc? && r == e.child then s'.procs[r].pid == s.nextPid
      else s'.procs[r].pid == s.procs[r].pid && !s.procs[r].state.Unused? && !Reaps(s, e, r)
  }

  lemma PidMoves(s: State, e: Step, r: nat)
    requires Locals(s) && Forks(s) && Enabled(s, e) && r < |s.procs|
    ensures PidMove(s, e, Next(s, e), r)
  {
    hide MoveEnabled, Own, Next, Matches, HoldsWait, HoldsSelf;
    StepSlots(s, e);
    OwnKeeps(s, e);
    assert LocalOk(s.waitLock, e.p, s.procs[e.p]) && LocalOk(s.waitLock, r, s.procs[r]) && ForkOk(s, e.p);
  }

  lemma StepLists(s: State, e: Step)
    requires Enabled(s, e)
    ensures Next(s, e).nextPid == if e.ForkAlloc? then s.nextPid + 1 else s.nextPid
    ensures Next(s, e).init == s.init
    ensures Next(s, e).exited == if e.ExitDie? then s.exited[s.procs[e.p].pid := e.state] else s.exited
    ensures e.WaitVisit? && Reaps(s, e, s.procs[e.p].pc.i) ==> Next(s, e).reaped == s.reaped + [s.procs[s.procs[e.p].pc.i].pid]
    ensures !(e.WaitVisit? && Reaps(s, e, s.procs[e.p].pc.i)) ==> Next(s, e).reaped == s.reaped
    ensures Next(s, e).returned == if Answers(e, s.procs[e.p]) then s.returned + [Answer(s.procs[e.p].pc.code, s.procs[e.p].pc.status)] else s.returned
  {
    hide Own, Touched, MoveEnabled, Child;
  }

  lemma PidsStep(s: State, e: Step)
    requires Locals(s) && Forks(s) && Pids(s) && Enabled(s, e)
    ensures Pids(Next(s, e))
  {
    hide MoveEnabled, Own, Touched, Matches, Locals, Forks, Next, Child;
    var s' := Next(s, e);
    StepLists(s, e);
    forall r: nat | r < |s.procs| ensures PidMove(s, e, s', r) && PidOk(s', r) {
      PidMoves(s, e, r);
      assert PidOk(s, r);
      if e.WaitVisit? && Reaps(s, e, s.procs[e.p].pc.i) {
        assert r == s.procs[e.p].pc.i || s'.procs[r].state.Unused? || s.procs[r].pid != s.procs[s.procs[e.p].pc.i].pid;
      }
    }
    forall p: nat, q: nat | p < q < |s.procs| && !s'.procs[p].state.Unused? && !s'.procs[q].state.Unused?
      ensures s'.procs[p].pid != s'.procs[q].pid
    {
      assert PidMove(s, e, s', p) && PidMove(s, e, s', q) && PidOk(s, p) && PidOk(s, q);
    }
    if e.WaitVisit? && Reaps(s, e, s.procs[e.p].pc.i) { assert PidOk(s, s.procs[e.p].pc.i); }
  }

  lemma InitStep(s: State, e: Step)
    requires Locals(s) && Forks(s) && Pids(s) && InitOk(s) && Family(s) && Enabled(s, e)
    ensures InitOk(Next(s, e))
  {
    hide MoveEnabled, Own, Touched, Next, Locals, Forks, Exiting;
    var s', i := Next(s, e), s.init;
    StepLists(s, e);
    InitSlot(s, e);
    assert PidOk(s, i);
    forall p: nat | p < |s.procs| && p != i && !s'.procs[p].state.Unused? ensures s'.procs[i].pid < s'.procs[p].pid {
      PidMoves(s, e, p);
      PidMoves(s, e, i);
    }
  }

  lemma InitSlot(s: State, e: Step)
    requires Locals(s) && Forks(s) && InitOk(s) && Enabled(s, e)
    ensures var q := Next(s, e).procs[s.init]; Live(q.state) && !Exiting(q.pc) && q.parent.Nothing?
  {
    hide MoveEnabled, Own, Next, Matches, HoldsWait, HoldsSelf;
    var i := s.init;
    StepSlots(s, e);
    OwnKeeps(s, e);
    assert LocalOk(s.waitLock, e.p, s.procs[e.p]) && LocalOk(s.waitLock, i, s.procs[i]) && ForkOk(s, e.p);
  }

  /** Which slots are being forked into, and by whom. */
  lemma ForkMoves(s: State, e: Step, p: nat)
    requires Locals(s) && Forks(s) && Enabled(s, e) && p < |s.procs|
    ensures var q, q' := s.procs[p], Next(s, e).procs[p];
            && (Forking(q'.pc) ==> q'.pid == q.pid)
            && (Forking(q'.pc) ==> (p == e.p && e.ForkAlloc? && q'.pc == Made(e.child)) || (Forking(q.pc) && q'.pc.child == q.pc.child))
            && (Forking(q'.pc) && p != e.p ==> q'.pc == q.pc)
  {
    hide MoveEnabled, Own, Next, Matches, HoldsWait, HoldsSelf;
    StepSlots(s, e);
    OwnKeeps(s, e);
    OwnForks(s, e);
    assert LocalOk(s.waitLock, e.p, s.procs[e.p]) && LocalOk(s.waitLock, p, s.procs[p]) && ForkOk(s, p) && ForkOk(s, e.p);
  }

  /** The slot that is being forked into changes only by its own fork. */
  lemma ForkSlot(s: State, e: Step, p: nat)
    requires Locals(s) && Forks(s) && Enabled(s, e) && p < |s.procs| && Forking(s.procs[p].pc)
    requires e.ForkFail? || e.ForkStart? ==> p != e.p
    ensures var c := s.procs[p].pc.child;
            && c < |s.procs| && c != p
            && Next(s, e).procs[c].state.Used? && Next(s, e).procs[c].pid == s.procs[c].pid
            && Next(s, e).procs[c].parent == if p == e.p && e.ForkLink? then Just(p) else s.procs[c].parent
  {
    hide MoveEnabled, Own, Next, Matches, HoldsWait, HoldsSelf;
    var c := s.procs[p].pc.child;
    assert ForkOk(s, p) && ForkOk(s, e.p);
    StepSlots(s, e);
    OwnKeeps(s, e);
    assert LocalOk(s.waitLock, e.p, s.procs[e.p]) && LocalOk(s.waitLock, c, s.procs[c]) && LocalOk(s.waitLock, p, s.procs[p]);
  }

  lemma ForkKept(s: State, e: Step, p: nat)
    requires Locals(s) && Forks(s) && Pids(s) && Enabled(s, e) && p < |s.procs|
    ensures ForkOk(Next(s, e), p)
  {
    hide MoveEnabled, Own, Next, Matches, HoldsWait, HoldsSelf, Touched;
    ForkMoves(s, e, p);
    assert ForkOk(s, p) && PidOk(s, p);
    StepSlots(s, e);
    if Forking(Next(s, e).procs[p].pc) {
      OwnForks(s, e) by { assert LocalOk(s.waitLock, e.p, s.procs[e.p]); }
      if Forking(s.procs[p].pc) {
        ForkSlot(s, e, p);
      } else {
        ForkBirth(s, e);
      }
    }
  }

  lemma ForkBirth(s: State, e: Step)
    requires Locals(s) && Pids(s) && Enabled(s, e) && e.ForkAlloc?
    ensures var t := Next(s, e).procs[e.child];
            e.child != e.p && t.state.Used? && t.pid == s.nextPid && t.parent.Nothing? && s.procs[e.p].pid < s.nextPid
  {
    assert LocalOk(s.waitLock, e.p, s.procs[e.p]) && LocalOk(s.waitLock, e.child, s.procs[e.child]) && PidOk(s, e.p);
  }

  lemma OwnForks(s: State, e: Step)
    requires Enabled(s, e) && LocalOk(s.waitLock, e.p, s.procs[e.p])
    ensures var q, q' := s.procs[e.p], Own(s, e);
            && (Forking(q.pc) && !e.ForkFail? && !e.ForkStart? ==> Forking(q'.pc) && q'.pc.child == q.pc.child)
            && (Forking(q'.pc) ==> Forking(q.pc) || (e.ForkAlloc? && q'.pc == Made(e.child)))
            && (Forking(q'.pc) && Forking(q.pc) ==> (q'.pc.Made? || q'.pc.Link? <==> (q.pc.Made? || q.pc.Link?) && !e.ForkLink?))
            && (e.ForkFail? || e.ForkStart? ==> !Forking(q'.pc))
            && (e.ForkAlloc? ==> !Forking(q.pc))
  {
    hide MoveEnabled, Moved, Child, HoldsWait, HoldsSelf;
    if e.Alone? { MoveKeeps(s, e.p, e.m); }
  }

  lemma ForksStep(s: State, e: Step)
    requires Locals(s) && Forks(s) && Pids(s) && Enabled(s, e)
    ensures Forks(Next(s, e))
  {
    hide Enabled, Own, Next, Touched, ForkOk, Locals, Pids;
    var s' := Next(s, e);
    forall p: nat | p < |s.procs|
      ensures ForkOk(s', p)
    {
      ForkKept(s, e, p);
    }
    forall p: nat, q: nat | p < q < |s.procs| && Forking(s'.procs[p].pc) && Forking(s'.procs[q].pc)
      ensures s'.procs[p].pc.child != s'.procs[q].pc.child
    {
      ForkMoves(s, e, p);
      ForkMoves(s, e, q);
      ForkPair(s, e, p);
      ForkPair(s, e, q);
    }
  }

  lemma ForkPair(s: State, e: Step, p: nat)
    requires Forks(s) && Enabled(s, e) && p < |s.procs|
    ensures Forking(s.procs[p].pc) && e.ForkAlloc? ==> s.procs[p].pc.child != e.child
  {
    hide MoveEnabled;
    assert ForkOk(s, p);
  }

  // ------------------------------------------------- wait and exit in step

  /** Only a process that holds the wait lock and has finished its scan newly commits to sleep. */
  lemma CommitMoves(s: State, e: Step, t: nat)
    requires Locals(s) && Forks(s) && Enabled(s, e) && t < |s.procs|
    requires Committed(Next(s, e).procs[t]) && !Committed(s.procs[t])
    ensures e == Alone(t, WaitDecide) && s.procs[t].pc.Scan? && s.procs[t].pc.i == |s.procs|
  {
    hide Next, Matches, HoldsSelf, MoveEnabled, Moved;
    StepSlots(s, e);
    assert LocalOk(s.waitLock, t, s.procs[t]) && ForkOk(s, e.p);
    if e.Alone? && e.p == t { MoveCommits(s, t, e.m); }
  }

  lemma MoveCommits(s: State, p: nat, m: Move)
    requires p < |s.procs| && MoveEnabled(s, p, m) && LocalOk(s.waitLock, p, s.procs[p])
    ensures Committed(Moved(p, s.procs[p], m)) && !Committed(s.procs[p]) ==>
              m.WaitDecide? && s.procs[p].pc.Scan? && s.procs[p].pc.i == |s.procs|
  {
    hide SomeChild, HoldsWait, HoldsSelf;
  }

  lemma MoveWakes(s: State, p: nat, m: Move)
    requires p < |s.procs| && MoveEnabled(s, p, m)
    ensures var q, q' := s.procs[p], Moved(p, s.procs[p], m);
            q'.pc.Wake? || q'.pc.Last? || q'.pc.Die? ==>
              || q'.pc == q.pc
              || (m.ExitWoken? && q.pc.Wake? && q.pc.i == |s.procs| && q'.pc == Last)
              || (m.ExitSelf? && q.pc.Last? && q'.pc == Die)
  {
    hide SomeChild;
  }

  /** Who else may change families while p holds the wait lock: nobody. */
  lemma OthersQuiet(s: State, e: Step, p: nat)
    requires Locals(s) && Enabled(s, e) && s.waitLock == Just(p) && e.p != p
    ensures e.Alone? || e.ForkAlloc? || e.ForkFail? || e.ForkStart?
  {
    hide MoveEnabled;
    assert LocalOk(s.waitLock, e.p, s.procs[e.p]);
  }

  /** Steps that do not need the wait lock leave the children of p as they were. */
  lemma ChildrenKept(s: State, e: Step, p: nat, c: nat)
    requires Locals(s) && Forks(s) && Enabled(s, e) && p < |s.procs| && c < |s.procs|
    requires e.Alone? || e.ForkAlloc? || e.ForkFail? || e.ForkStart?
    requires Next(s, e).procs[p].request == s.procs[p].request
    ensures Child(Next(s, e), p, c) == Child(s, p, c) && ZombieChild(Next(s, e), p, c) == ZombieChild(s, p, c)
  {
    hide MoveEnabled, Own, Next, HoldsSelf, HoldsWait;
    StepSlots(s, e);
    OwnKeeps(s, e);
    assert LocalOk(s.waitLock, c, s.procs[c]) && LocalOk(s.waitLock, e.p, s.procs[e.p]) && ForkOk(s, e.p);
  }

  /** A new zombie child comes from an exit; init may also inherit one. */
  lemma ZombieMoves(s: State, e: Step, p: nat, c: nat)
    requires Locals(s) && Forks(s) && Enabled(s, e) && p < |s.procs| && c < |s.procs| && p != s.init
    requires Next(s, e).procs[p].request == s.procs[p].request
    requires ZombieChild(Next(s, e), p, c) && !ZombieChild(s, p, c)
    ensures e.ExitDie? && c == e.p && s.procs[c].parent == Just(p)
  {
    hide MoveEnabled, Own, Next, HoldsSelf, HoldsWait;
    StepSlots(s, e);
    OwnKeeps(s, e);
    assert LocalOk(s.waitLock, c, s.procs[c]) && LocalOk(s.waitLock, e.p, s.procs[e.p]) && ForkOk(s, e.p);
  }

  lemma RequestKept(s: State, e: Step, p: nat)
    requires Locals(s) && Enabled(s, e) && p < |s.procs|
    requires Next(s, e).procs[p].pc.Scan? || Committed(Next(s, e).procs[p])
    ensures Next(s, e).procs[p].request == s.procs[p].request
  {
    hide Next, HoldsSelf, HoldsWait, SomeChild, Child;
    StepSlots(s, e);
  }

  /** Which steps leave a process scanning. */
  lemma ScanMoves(s: State, e: Step, p: nat)
    requires Locals(s) && Forks(s) && Enabled(s, e) && p < |s.procs| && Next(s, e).procs[p].pc.Scan?
    ensures var pc, pc' := s.procs[p].pc, Next(s, e).procs[p].pc;
            || (pc == pc' && (p == e.p ==> e.Alone?))
            || (e == Alone(p, WaitLock) && pc' == Scan(0, false))
            || (e.WaitVisit? && e.p == p && pc' == Scan(pc.i + 1, pc.have || Child(s, p, pc.i)) && !ZombieChild(s, p, pc.i))
  {
    hide Next, HoldsSelf, HoldsWait, SomeChild, Matches;
    StepSlots(s, e);
    assert ForkOk(s, e.p);
  }

  lemma ScanKept(s: State, e: Step, p: nat)
    requires Locals(s) && Forks(s) && Enabled(s, e) && p < |s.procs| && ScanOk(s, p)
    ensures ScanOk(Next(s, e), p)
  {
    hide Own, Touched, Next, MoveEnabled, HoldsSelf, HoldsWait, SomeChild, Child, ZombieChild;
    var s' := Next(s, e);
    if s'.procs[p].pc.Scan? {
      ScanMoves(s, e, p);
      RequestKept(s, e, p);
      if e != Alone(p, WaitLock) || s'.procs[p].pc == s.procs[p].pc {
        ScanChildren(s, e, p);
        var pc, pc' := s.procs[p].pc, s'.procs[p].pc;
        assert pc' == pc || pc'.i == pc.i + 1;
        if pc' != pc && Child(s, p, pc.i) { assert Child(s', p, pc.i); }
        if pc.have {
          var c: nat :| c < pc.i && Child(s, p, c);
          assert Child(s', p, c);
        }
      }
    }
  }

  /** While p scans, its children stay what they are. */
  lemma ScanChildren(s: State, e: Step, p: nat)
    requires Locals(s) && Forks(s) && Enabled(s, e) && p < |s.procs| && s.procs[p].pc.Scan? && Next(s, e).procs[p].pc.Scan?
    requires Next(s, e).procs[p].request == s.procs[p].request && (p == e.p ==> e.Alone? || e.WaitVisit?)
    ensures forall c: nat :: c < |s.procs| ==>
              Child(Next(s, e), p, c) == Child(s, p, c) && ZombieChild(Next(s, e), p, c) == ZombieChild(s, p, c)
  {
    hide Own, Touched, Next, MoveEnabled, HoldsSelf, SomeChild, Child, ZombieChild;
    forall c: nat | c < |s.procs|
      ensures Child(Next(s, e), p, c) == Child(s, p, c) && ZombieChild(Next(s, e), p, c) == ZombieChild(s, p, c)
    {
      if e.WaitVisit? && e.p == p {
        VisitKeeps(s, e, c);
      } else {
        if e.p != p { OthersQuiet(s, e, p) by { assert LocalOk(s.waitLock, p, s.procs[p]); } }
        ChildrenKept(s, e, p, c);
      }
    }
  }

  lemma VisitKeeps(s: State, e: Step, c: nat)
    requires Enabled(s, e) && e.WaitVisit? && Next(s, e).procs[e.p].pc.Scan? && c < |s.procs|
    ensures Child(Next(s, e), e.p, c) == Child(s, e.p, c) && ZombieChild(Next(s, e), e.p, c) == ZombieChild(s, e.p, c)
  {
    hide Next, MoveEnabled, Moved;
    StepSlots(s, e);
  }

  lemma SleepKept(s: State, e: Step, p: nat)
    requires Locals(s) && Forks(s) && Waits(s) && Enabled(s, e) && p < |s.procs|
    ensures SleepOk(Next(s, e), p)
  {
    hide Own, Touched, Next, HoldsSelf, HoldsWait, SomeChild, Child, Committed;
    var s' := Next(s, e);
    StepLists(s, e);
    if p != s.init && Committed(s'.procs[p]) {
      RequestKept(s, e, p);
      assert ScanOk(s, p) && SleepOk(s, p) && WakeOk(s, e.p);
      if !Committed(s.procs[p]) { CommitMoves(s, e, p); }
      forall c: nat | c < |s.procs| ensures !ZombieChild(s', p, c) {
        if ZombieChild(s', p, c) && !ZombieChild(s, p, c) { ZombieMoves(s, e, p, c); }
      }
    }
  }

  /** A process in the wakeup loop or past it keeps its parent. */
  lemma WakeMoves(s: State, e: Step, x: nat)
    requires Locals(s) && Forks(s) && Enabled(s, e) && x < |s.procs|
    requires var pc := Next(s, e).procs[x].pc; pc.Wake? || pc.Last? || pc.Die?
    ensures s.waitLock == Just(x) && Next(s, e).procs[x].parent == s.procs[x].parent
    ensures var q, pc' := s.procs[x], Next(s, e).procs[x].pc;
            || pc' == q.pc
            || (e == ExitReparent(x) && pc' == if q.parent.Just? then Wake(0, q.parent.value) else Last)
            || (e == ExitWake(x) && q.pc.Wake? && pc' == Wake(q.pc.i + 1, q.pc.target))
            || (e == Alone(x, ExitWoken) && q.pc.Wake? && q.pc.i == |s.procs| && pc' == Last)
            || (e == Alone(x, ExitSelf) && q.pc.Last? && pc' == Die)
  {
    hide Next, HoldsSelf, MoveEnabled, Moved, Matches;
    if e.Alone? && e.p == x { MoveWakes(s, x, e.m); MoveKeeps(s, x, e.m) by { assert LocalOk(s.waitLock, x, s.procs[x]); } }
    StepSlots(s, e);
    assert LocalOk(s.waitLock, x, s.procs[x]) && LocalOk(s.waitLock, e.p, s.procs[e.p]) && ForkOk(s, e.p);
  }

  lemma Roused(s: State, e: Step)
    requires Locals(s) && Forks(s) && Family(s) && Enabled(s, e) && e.ExitWake? && WakeOk(s, e.p)
    requires s.procs[e.p].pc.target == s.procs[e.p].pc.i
    ensures !Committed(Next(s, e).procs[s.procs[e.p].pc.i])
  {
    hide Next, Own, MoveEnabled;
    var t := s.procs[e.p].pc.i;
    StepSlots(s, e);
    assert ParentOk(s, e.p, t);
    assert LocalOk(s.waitLock, t, s.procs[t]) && LocalOk(s.waitLock, e.p, s.procs[e.p]);
  }

  lemma WakeKept(s: State, e: Step, x: nat)
    requires Locals(s) && Forks(s) && Family(s) && Enabled(s, e) && x < |s.procs| && WakeOk(s, x)
    ensures WakeOk(Next(s, e), x)
  {
    hide Own, Touched, Next, HoldsSelf, SomeChild, Child, Committed, MoveEnabled;
    var s', q := Next(s, e), s.procs[x];
    var pc' := s'.procs[x].pc;
    if pc'.Wake? || pc'.Last? || pc'.Die? {
      WakeMoves(s, e, x);
      if q.parent.Just? {
        var t := q.parent.value;
        assert ParentOk(s, x, t);
        if Committed(s'.procs[t]) && !Committed(s.procs[t]) {
          CommitMoves(s, e, t);
          OnlyHolder(s, x, t);
        }
        if e == ExitWake(x) && t == q.pc.i { Roused(s, e); }
      }
    }
  }

  lemma OnlyHolder(s: State, x: nat, t: nat)
    requires Locals(s) && s.waitLock == Just(x) && x < |s.procs| && t < |s.procs| && s.procs[t].pc.Scan?
    ensures x == t
  {
    assert LocalOk(s.waitLock, t, s.procs[t]);
  }

  lemma WaitsStep(s: State, e: Step)
    requires Locals(s) && Forks(s) && Family(s) && Waits(s) && Enabled(s, e)
    ensures Waits(Next(s, e))
  {
    hide Next, ScanOk, SleepOk, WakeOk, Locals, Forks, Family, Enabled;
    forall p: nat | p < |s.procs| ensures ScanOk(Next(s, e), p) && SleepOk(Next(s, e), p) && WakeOk(Next(s, e), p) {
      ScanKept(s, e, p);
      SleepKept(s, e, p);
      WakeKept(s, e, p);
    }
  }

  /** Zombies appear by exit and disappear by being reaped. */
  lemma ZombieSlot(s: State, e: Step, r: nat)
    requires Locals(s) && Forks(s) && Enabled(s, e) && r < |s.procs|
    ensures var t, t' := s.procs[r], Next(s, e).procs[r];
            && (t'.state.Zombie? <==> (t.state.Zombie? && !Reaps(s, e, r)) || (e.ExitDie? && r == e.p))
            && (t'.state.Zombie? ==> t'.pid == t.pid && t'.xstate == if e.ExitDie? && r == e.p then Status(e.state) else t.xstate)
  {
    hide MoveEnabled, Own, Next, Matches, HoldsWait, HoldsSelf;
    StepSlots(s, e);
    OwnKeeps(s, e);
    assert LocalOk(s.waitLock, e.p, s.procs[e.p]) && LocalOk(s.waitLock, r, s.procs[r]) && ForkOk(s, e.p);
    if r == e.p && Reaps(s, e, r) { assert false; }
  }

  /** exited grows by the exiting process, reaped by a pid that had exited. */
  lemma LedgerStep(s: State, e: Step)
    requires Locals(s) && Forks(s) && Pids(s) && Ledger(s) && Enabled(s, e)
    ensures Ledger(Next(s, e))
  {
    hide MoveEnabled, Own, Touched, Next, Matches, Locals, Forks, Child;
    var s' := Next(s, e);
    StepLists(s, e);
    forall x | x in s'.exited
      ensures x < s'.nextPid && (x in s'.reaped || exists p: nat :: p < |s.procs| && IsZombie(s'.procs[p], x))
    {
      if x in s.exited && x !in s.reaped {
        var p: nat :| p < |s.procs| && IsZombie(s.procs[p], x);
        ZombieSlot(s, e, p);
        assert IsZombie(s'.procs[p], x) || x in s'.reaped;
      } else if x !in s.exited {
        ZombieSlot(s, e, e.p);
        assert PidOk(s, e.p);
        DyingHasPid(s, e);
        assert IsZombie(s'.procs[e.p], x);
      }
    }
    forall p: nat | p < |s.procs| && !s'.procs[p].state.Unused?
      ensures s'.procs[p].state.Zombie? <==> s'.procs[p].pid in s'.exited
    {
      ZombieSlot(s, e, p);
      PidMoves(s, e, p);
      assert PidOk(s, p);
      if e.ExitDie? { DyingHasPid(s, e); }
    }
    forall p: nat | p < |s.procs| && s'.procs[p].state.Zombie? ensures StatusKept(s', p) {
      ZombieSlot(s, e, p);
      assert PidOk(s, p) && PidOk(s, e.p);
      assert s.procs[p].state.Zombie? ==> StatusKept(s, p);
      if e.ExitDie? { DyingHasPid(s, e); }
    }
  }

  lemma DyingHasPid(s: State, e: Step)
    requires Locals(s) && Enabled(s, e) && e.ExitDie?
    ensures !s.procs[e.p].state.Unused?
  {
    assert LocalOk(s.waitLock, e.p, s.procs[e.p]);
  }

  /** How a process comes to stand before the return of wait. */
  lemma EndMoves(s: State, e: Step, p: nat)
    requires Locals(s) && Forks(s) && Enabled(s, e) && p < |s.procs| && Next(s, e).procs[p].pc.WaitEnd?
    ensures var q, q' := s.procs[p], Next(s, e).procs[p];
            || (q'.pc == q.pc && q'.request == q.request && e != Alone(p, WaitReturn))
            || q'.pc.code == -ECHILD
            || (e.WaitVisit? && e.p == p && q.pc.Scan? && ZombieChild(s, p, q.pc.i) && q'.request == q.request
                && q'.pc == if e.copyFails then WaitEnd(-1, 0) else WaitEnd(s.procs[q.pc.i].pid, s.procs[q.pc.i].xstate))
  {
    hide Next, HoldsSelf, HoldsWait, SomeChild, Matches, MoveEnabled, Moved;
    StepSlots(s, e);
    if e.Alone? && e.p == p { MoveEnds(s, p, e.m); }
    assert ForkOk(s, e.p);
  }

  lemma MoveEnds(s: State, p: nat, m: Move)
    requires p < |s.procs| && MoveEnabled(s, p, m) && Moved(p, s.procs[p], m).pc.WaitEnd?
    ensures var q, q' := s.procs[p], Moved(p, s.procs[p], m);
            (q'.pc == q.pc && q'.request == q.request && !m.WaitReturn?) || q'.pc.code == -ECHILD
  {
    hide SomeChild;
  }

  /** A process that is answering goes on until it returns, and nobody else answers. */
  lemma AnswerAlone(s: State, e: Step)
    requires Locals(s) && Forks(s) && Replies(s) && Enabled(s, e)
    ensures Answers(e, s.procs[e.p]) ==> s.waitLock == Just(e.p) && |s.reaped| == |s.returned| + 1
    ensures e.WaitVisit? ==> s.waitLock == Just(e.p) && |s.reaped| == |s.returned|
    ensures |s.reaped| > |s.returned| && !Answers(e, s.procs[e.p]) ==>
              && Next(s, e).waitLock == s.waitLock
              && Next(s, e).procs[s.waitLock.value].pc == s.procs[s.waitLock.value].pc
  {
    hide Next, HoldsSelf, SomeChild, Matches;
    StepSlots(s, e);
    assert ForkOk(s, e.p) && LocalOk(s.waitLock, e.p, s.procs[e.p]) && ReplyOk(s, e.p);
    if s.waitLock.Just? { assert LocalOk(s.waitLock, s.waitLock.value, s.procs[s.waitLock.value]); }
  }

  /** Nobody changes its exit argument later. */
  lemma ToldKept(s: State, e: Step, a: Answer, x: nat)
    requires Locals(s) && Ledger(s) && Pids(s) && Enabled(s, e) && Told(s, a, x)
    ensures Told(Next(s, e), a, x)
  {
    hide Next, Own, Touched, Status, MoveEnabled;
    StepLists(s, e);
    if e.ExitDie? {
      assert LocalOk(s.waitLock, e.p, s.procs[e.p]);
    }
  }

  lemma ReplyKept(s: State, e: Step, p: nat)
    requires Locals(s) && Forks(s) && Pids(s) && Ledger(s) && Replies(s) && Enabled(s, e) && p < |s.procs|
    ensures ReplyOk(Next(s, e), p)
  {
    hide Next, Own, Touched, Status, MoveEnabled, Told, Locals, Forks, Matches;
    var s' := Next(s, e);
    var q, q' := s.procs[p], s'.procs[p];
    if Replying(q'.pc) {
      EndMoves(s, e, p);
      AnswerAlone(s, e);
      StepLists(s, e);
      if q'.pc == q.pc {
        assert ReplyOk(s, p);
        ToldKept(s, e, Answer(q.pc.code, q.pc.status), s.reaped[|s.returned|]);
        HolderReplies(s, p);
      } else {
        VisitTells(s, e);
      }
    }
  }

  lemma HolderReplies(s: State, p: nat)
    requires Locals(s) && p < |s.procs| && Replying(s.procs[p].pc)
    ensures s.waitLock == Just(p)
  {
    assert LocalOk(s.waitLock, p, s.procs[p]);
  }

  /** Reaping a child, wait answers with its pid and status. */
  lemma VisitTells(s: State, e: Step)
    requires Ledger(s) && Pids(s) && Enabled(s, e) && e.WaitVisit? && !e.copyFails
    requires ZombieChild(s, e.p, s.procs[e.p].pc.i)
    ensures var c, request := s.procs[e.p].pc.i, s.procs[e.p].request;
            && Reaps(s, e, c) && s.procs[c].pid > 0 && (request > 0 ==> s.procs[c].pid == request)
            && Told(Next(s, e), Answer(s.procs[c].pid, s.procs[c].xstate), s.procs[c].pid)
  {
    hide Next, Own, Touched, Status;
    var c := s.procs[e.p].pc.i;
    StepLists(s, e);
    assert PidOk(s, c) && StatusKept(s, c);
  }

  lemma RepliesStep(s: State, e: Step)
    requires Locals(s) && Forks(s) && Pids(s) && Ledger(s) && Replies(s) && Enabled(s, e)
    ensures Replies(Next(s, e))
  {
    hide Next, Own, Touched, Status, MoveEnabled, Told, Locals, Forks, Ledger, Pids, ReplyOk;
    var s' := Next(s, e);
    AnswerAlone(s, e);
    StepLists(s, e);
    forall p: nat | p < |s.procs| ensures ReplyOk(s', p) {
      ReplyKept(s, e, p);
    }
    forall i | 0 <= i < |s'.returned| ensures i < |s'.reaped| && Told(s', s'.returned[i], s'.reaped[i]) {
      if i == |s.returned| { AnswerTold(s, e); }
      ToldKept(s, e, s'.returned[i], s'.reaped[i]);
    }
    if e.WaitVisit? && Reaps(s, e, s.procs[e.p].pc.i) { VisitReplies(s, e); }
  }

  lemma AnswerTold(s: State, e: Step)
    requires Replies(s) && Enabled(s, e) && Answers(e, s.procs[e.p])
    ensures |s.reaped| == |s.returned| + 1
    ensures Told(s, Answer(s.procs[e.p].pc.code, s.procs[e.p].pc.status), s.reaped[|s.returned|])
  {
    assert ReplyOk(s, e.p);
  }

  lemma VisitReplies(s: State, e: Step)
    requires Locals(s) && Pids(s) && Enabled(s, e) && e.WaitVisit? && Reaps(s, e, s.procs[e.p].pc.i)
    ensures Next(s, e).waitLock == Just(e.p) && Replying(Next(s, e).procs[e.p].pc)
  {
    hide Next, Touched;
    StepSlots(s, e);
    assert LocalOk(s.waitLock, e.p, s.procs[e.p]) && PidOk(s, s.procs[e.p].pc.i);
  }

  // ------------------------------------------------------------- theorems

  lemma StepInv(s: State, e: Step)
    requires Inv(s) && Enabled(s, e)
    ensures Inv(Next(s, e))
  {
    hide Locals, Family, Pids, InitOk, Forks, Waits, Ledger, Replies, Next, Enabled;
    LocalsStep(s, e);
    FamilyStep(s, e);
    PidsStep(s, e);
    InitStep(s, e);
    ForksStep(s, e);
    WaitsStep(s, e);
    LedgerStep(s, e);
    RepliesStep(s, e);
  }

  /** A run from boot, with any number of slots and any interleaving. */
  ghost predicate Run(s: seq<State>, es: seq<Step>) {
    && |s| == |es| + 1 && Boot(s[0])
    && forall i :: 0 <= i < |es| ==> Enabled(s[i], es[i]) && s[i + 1] == Next(s[i], es[i])
  }

  lemma {:induction false} RunInv(s: seq<State>, es: seq<Step>, k: nat)
    requires Run(s, es) && k < |s|
    ensures Inv(s[k])
  {
    hide Inv, Next, Enabled, Boot;
    if k == 0 {
      BootInv(s[0]);
    } else {
      RunInv(s, es, k - 1);
      assert s[k - 1 + 1] == Next(s[k - 1], es[k - 1]);
      StepInv(s[k - 1], es[k - 1]);
    }
  }

  /** A process other than init is never asleep in wait while a child that it waits for is a zombie. */
  lemma NoMissedExit(s: seq<State>, es: seq<Step>, k: nat, p: nat, c: nat)
    requires Run(s, es) && k < |s| && p < |s[k].procs| && c < |s[k].procs| && p != s[k].init
    requires s[k].procs[p].pc.Asleep? && s[k].procs[p].state.Sleeping?
    ensures !(AskedFor(s[k], p, c) && s[k].procs[c].state.Zombie?)
  {
    RunInv(s, es, k);
    assert SleepOk(s[k], p);
    assert !ZombieChild(s[k], p, c);
  }

  /** What waits give their callers: no pid twice, only pids of exited processes, each with the status of its exit; and an
      exited process whose pid was not returned is still there as a zombie, or its pid is about to be returned. */
  lemma ReapedOnce(s: seq<State>, es: seq<Step>, k: nat)
    requires Run(s, es) && k < |s|
    ensures forall i, j :: 0 <= i < j < |s[k].returned| ==> s[k].returned[i].pid != s[k].returned[j].pid
    ensures forall i :: 0 <= i < |s[k].returned| ==>
              var a := s[k].returned[i]; a.pid > 0 && a.pid in s[k].exited && a.status == Status(s[k].exited[a.pid])
    ensures forall x :: x in s[k].exited && !Returned(s[k], x) ==>
              exists p: nat :: p < |s[k].procs| && (IsZombie(s[k].procs[p], x) || IsReply(s[k].procs[p].pc, x))
  {
    hide Inv, Replies, Ledger, Pids, Status;
    RunInv(s, es, k);
    InvAnswers(s[k]);
    TrueAnswers(s[k]);
    NoneForgotten(s[k]);
  }

  lemma InvAnswers(s: State)
    requires Inv(s)
    ensures Replies(s) && Ledger(s) && Pids(s)
  {}

  lemma TrueAnswers(s: State)
    requires Replies(s) && Pids(s)
    ensures forall i :: 0 <= i < |s.returned| ==>
              var a := s.returned[i]; a.pid == s.reaped[i] > 0 && a.pid in s.exited && a.status == Status(s.exited[a.pid])
    ensures forall i, j :: 0 <= i < j < |s.returned| ==> s.returned[i].pid != s.returned[j].pid
  {
    hide Status;
    forall i | 0 <= i < |s.returned|
      ensures s.returned[i].pid == s.reaped[i] > 0 && s.reaped[i] in s.exited && s.returned[i].status == Status(s.exited[s.reaped[i]])
    {
      assert Told(s, s.returned[i], s.reaped[i]) && s.reaped[i] in s.reaped;
    }
  }

  lemma NoneForgotten(s: State)
    requires Replies(s) && Ledger(s) && Pids(s)
    ensures forall x :: x in s.exited && !Returned(s, x) ==>
              exists p: nat :: p < |s.procs| && (IsZombie(s.procs[p], x) || IsReply(s.procs[p].pc, x))
  {
    hide Status, StatusKept;
    forall x | x in s.exited && !Returned(s, x)
      ensures exists p: nat :: p < |s.procs| && (IsZombie(s.procs[p], x) || IsReply(s.procs[p].pc, x))
    {
      if x in s.reaped {
        PendingReply(s, x);
      } else {
        var p: nat :| p < |s.procs| && IsZombie(s.procs[p], x);
      }
    }
  }

  lemma PendingReply(s: State, x: nat)
    requires Replies(s) && x in s.reaped && !Returned(s, x)
    ensures s.waitLock.Just? && s.waitLock.value < |s.procs| && IsReply(s.procs[s.waitLock.value].pc, x)
  {
    var i :| 0 <= i < |s.reaped| && s.reaped[i] == x;
    if i < |s.returned| { assert false; }
    assert ReplyOk(s, s.waitLock.value);
  }

  predicate IsReply(pc: Pc, pid: nat) { pc.WaitEnd? && pc.code == pid }

  ghost predicate Returned(s: State, pid: nat) {
    exists i :: 0 <= i < |s.returned| && s.returned[i].pid == pid
  }

  /** The parent finds the low byte of the exit argument in bits 8 to 15 of the status, and zeros below them. */
  lemma StatusHoldsByte(state: int)
    ensures 0 <= Status(state) && Status(state) % 0x100 == 0 && Status(state) / 0x100 % 0x100 == state % 0x100
  {
    var q := state * 0x100 / 0x1_0000_0000;
    ShiftBack(state - 0x100 * (0x1_0000 * q));
    SameByte(state, 0x1_0000 * q);
  }

  lemma ShiftBack(x: int)
    ensures 0x100 * x % 0x100 == 0 && 0x100 * x / 0x100 == x
  {}

  lemma SameByte(x: int, r: int)
    ensures (x - 0x100 * r) % 0x100 == x % 0x100
  {}

  /** Whoever a wait answers with was a zombie child of the caller, in slot c at an earlier step i, and the one asked for. */
  lemma {:induction false} AnswerIsChild(s: seq<State>, es: seq<Step>, k: nat, p: nat) returns (i: nat, c: nat)
    requires Run(s, es) && k < |s| && p < |s[k].procs| && Replying(s[k].procs[p].pc)
    ensures i < k && es[i] == WaitVisit(p, false) && c < |s[i].procs| && p < |s[i].procs|
    ensures s[i].procs[c].pid == s[k].procs[p].pc.code && s[i].procs[c].parent == Just(p) && s[i].procs[c].state.Zombie?
    ensures |s[i + 1].procs| == |s[i].procs| && Blank(s[i + 1].procs[c])
    ensures s[i].procs[p].request == s[k].procs[p].request && (s[k].procs[p].request > 0 ==> s[k].procs[p].pc.code == s[k].procs[p].request)
  {
    hide Inv, Next, Own, Touched, Locals, Forks, Boot, MoveEnabled, Enabled;
    if k == 0 { NobodyReplies(s[0], p); }
    var t := s[k - 1];
    RunInv(s, es, k - 1);
    assert Enabled(t, es[k - 1]) && s[k - 1 + 1] == Next(t, es[k - 1]);
    InvParts(t);
    EndMoves(t, es[k - 1], p);
    if t.procs[p].pc == s[k].procs[p].pc {
      i, c := AnswerIsChild(s, es, k - 1, p);
    } else {
      i, c := k - 1, t.procs[p].pc.i;
      ReapedSlot(t, es[i]);
    }
  }

  /** A slot as freeproc leaves it. */
  predicate Blank(q: Proc) {
    q.pc.Gone? && q.state.Unused? && q.chan.NoChan? && q.pid == 0 && q.parent.Nothing? && !q.killed && q.xstate == 0
  }

  lemma NobodyReplies(s: State, p: nat)
    requires Boot(s) && p < |s.procs|
    ensures !Replying(s.procs[p].pc)
  {}

  lemma InvParts(s: State)
    requires Inv(s)
    ensures Locals(s) && Forks(s)
  {}

  lemma ReapedSlot(s: State, e: Step)
    requires Locals(s) && Enabled(s, e) && e.WaitVisit? && !e.copyFails && ZombieChild(s, e.p, s.procs[e.p].pc.i)
    ensures var c := s.procs[e.p].pc.i; c < |s.procs| && Blank(Next(s, e).procs[c]) && (s.procs[e.p].request > 0 ==> s.procs[c].pid == s.procs[e.p].request)
  {
    hide Next, Own, MoveEnabled;
    StepSlots(s, e);
    assert LocalOk(s.waitLock, e.p, s.procs[e.p]);
  }

  /** After a full scan wait returns -ECHILD if and only if the process is killed or has no child that it asked for; else it
      goes to sleep. */
  lemma NoChildMeansNone(s: seq<State>, es: seq<Step>, k: nat, p: nat)
    requires Run(s, es) && k < |es| && es[k] == Alone(p, WaitDecide)
    ensures p < |s[k].procs| && p < |s[k + 1].procs|
    ensures s[k + 1].procs[p].pc ==
            if s[k].procs[p].killed || forall c :: 0 <= c < |s[k].procs| ==> !AskedFor(s[k], p, c) then WaitEnd(-ECHILD, 0) else Commit
  {
    RunInv(s, es, k);
    var t := s[k];
    assert s[k + 1] == Next(t, es[k]) && Enabled(t, es[k]);
    StepSlots(t, es[k]);
    assert ScanOk(t, p);
    forall c: nat | c < |t.procs| ensures AskedFor(t, p, c) <==> Child(t, p, c) {}
    if t.procs[p].pc.have {
      var c: nat :| c < t.procs[p].pc.i && Child(t, p, c);
      assert AskedFor(t, p, c);
    }
  }

  /** Slot c holds a child of p, and one with the right pid if p named one. */
  predicate AskedFor(s: State, p: nat, c: nat)
    requires p < |s.procs| && c < |s.procs|
  {
    s.procs[c].parent == Just(p) && (s.procs[p].request > 0 ==> s.procs[c].pid == s.procs[p].request)
  }

  /** A kill is not forgotten: it lasts as long as the slot is in use. */
  lemma {:induction false} KilledStays(s: seq<State>, es: seq<Step>, i: nat, k: nat, p: nat)
    requires Run(s, es) && i < k < |s| && es[i] == Alone(p, Kill)
    requires forall j :: i < j <= k && p < |s[j].procs| ==> !s[j].procs[p].state.Unused?
    ensures p < |s[k].procs| && s[k].procs[p].killed
  {
    hide Inv, Boot, MoveEnabled, Own, Touched, Next;
    var t := s[k - 1];
    assert Enabled(t, es[k - 1]) && s[k - 1 + 1] == Next(t, es[k - 1]);
    StepSlots(t, es[k - 1]);
    if i < k - 1 { KilledStays(s, es, i, k - 1, p); }
    KillKept(t, es[k - 1], p);
  }

  lemma KillKept(s: State, e: Step, p: nat)
    requires Enabled(s, e) && p < |s.procs| && (s.procs[p].killed || e == Alone(p, Kill))
    ensures Next(s, e).procs[p].killed || Next(s, e).procs[p].state.Unused?
  {
    hide Next, MoveEnabled, Child;
    StepSlots(s, e);
  }

  /** A process killed at any point since it was made does not go to sleep in wait: its next decision ends the call. */
  lemma KilledWaitEnds(s: seq<State>, es: seq<Step>, i: nat, k: nat, p: nat)
    requires Run(s, es) && i < k < |es| && es[i] == Alone(p, Kill) && es[k] == Alone(p, WaitDecide)
    requires forall j :: i < j <= k && p < |s[j].procs| ==> !s[j].procs[p].state.Unused?
    ensures p < |s[k + 1].procs| && s[k + 1].procs[p].pc == WaitEnd(-ECHILD, 0)
  {
    KilledStays(s, es, i, k, p);
    NoChildMeansNone(s, es, k, p);
  }

  /** Orphans go to init: the exiting process has no children left, and exactly its children have a new parent. */
  lemma OrphansGoToInit(s: seq<State>, es: seq<Step>, k: nat, p: nat, c: nat)
    requires Run(s, es) && k < |es| && es[k] == ExitReparent(p) && c < |s[k].procs|
    ensures c < |s[k + 1].procs| && s[k + 1].procs[c].parent == if s[k].procs[c].parent == Just(p) then Just(s[k].init) else s[k].procs[c].parent
    ensures s[k + 1].procs[c].parent != Just(p)
  {
    RunInv(s, es, k);
    var t := s[k];
    assert s[k + 1] == Next(t, es[k]) && Enabled(t, es[k]);
    StepSlots(t, es[k]);
    assert LocalOk(t.waitLock, t.init, t.procs[t.init]);
    if t.procs[c].parent.Just? { assert ParentOk(t, c, t.procs[c].parent.value); }
  }

  /** The process on the other end of n parent links, if there is one. */
  function Ancestor(s: State, p: nat, n: nat): Wrap<nat> {
    if n == 0 then Just(p)
    else
      var a := Ancestor(s, p, n - 1);
      if a.Just? && a.value < |s.procs| then s.procs[a.value].parent else Nothing
  }

  lemma {:induction false} AncestorsAreOlder(s: State, p: nat, n: nat)
    requires Family(s) && p < |s.procs| && n > 0 && Ancestor(s, p, n).Just?
    ensures Ancestor(s, p, n).value < |s.procs|
    ensures s.procs[Ancestor(s, p, n).value].pid < s.procs[p].pid
  {
    var b := Ancestor(s, p, n - 1);
    if n > 1 { AncestorsAreOlder(s, p, n - 1); }
    assert ParentOk(s, b.value, Ancestor(s, p, n).value);
  }

  /** Parent links form a forest of live processes, and live pids are distinct. */
  lemma ProcessForest(s: seq<State>, es: seq<Step>, k: nat, p: nat, q: nat, n: nat)
    requires Run(s, es) && k < |s| && p < |s[k].procs| && q < |s[k].procs| && n > 0
    ensures Ancestor(s[k], p, n) != Just(p)
    ensures s[k].procs[p].parent.Just? ==>
              s[k].procs[p].parent.value < |s[k].procs| && Live(s[k].procs[s[k].procs[p].parent.value].state)
    ensures p != q && !s[k].procs[p].state.Unused? && !s[k].procs[q].state.Unused? ==> s[k].procs[p].pid != s[k].procs[q].pid
    ensures !s[k].procs[p].state.Unused? ==> s[k].procs[p].pid < s[k].nextPid
  {
    RunInv(s, es, k);
    if Ancestor(s[k], p, n).Just? { AncestorsAreOlder(s[k], p, n); }
    assert PidOk(s[k], p);
    if s[k].procs[p].parent.Just? { assert ParentOk(s[k], p, s[k].procs[p].parent.value); }
  }

  // ----------------------------------------------- nothing is in the way

  /** The steps can be taken one after the other from s, and lead to t. */
  ghost predicate Reach(s: State, es: seq<Step>, t: State)
    decreases |es|
  {
    if es == [] then s == t else Enabled(s, es[0]) && Reach(Next(s, es[0]), es[1..], t)
  }

  lemma StandStill(s: State)
    ensures Reach(s, [], s)
  {}

  lemma {:induction false} Do(s: State, es: seq<Step>, t: State, e: Step) returns (es': seq<Step>, t': State)
    requires Reach(s, es, t) && Enabled(t, e)
    ensures es' == es + [e] && t' == Next(t, e) && Reach(s, es', t')
    decreases |es|
  {
    hide Enabled, Next;
    es', t' := es + [e], Next(t, e);
    if es == [] {
      assert es' == [e] && es'[1..] == [];
    } else {
      var rest, u := Do(Next(s, es[0]), es[1..], t, e);
      assert es'[1..] == es[1..] + [e];
    }
  }

  /** Any step, seen slot by slot. */
  lemma DoStep(s: State, es: seq<Step>, t: State, e: Step) returns (es': seq<Step>, t': State)
    requires Reach(s, es, t) && Enabled(t, e)
    ensures Reach(s, es', t') && t'.waitLock == WaitLockAfter(t.waitLock, e) && t'.init == t.init && |t'.procs| == |t.procs|
    ensures t'.procs[e.p] == Own(t, e) && forall r: nat :: r < |t.procs| && r != e.p ==> t'.procs[r] == Touched(t, e, r)
    ensures t'.nextPid == if e.ForkAlloc? then t.nextPid + 1 else t.nextPid
    ensures t'.exited == if e.ExitDie? then t.exited[t.procs[e.p].pid := e.state] else t.exited
    ensures t'.reaped == if e.WaitVisit? && Reaps(t, e, t.procs[e.p].pc.i) then t.reaped + [t.procs[t.procs[e.p].pc.i].pid] else t.reaped
    ensures t'.returned == if Answers(e, t.procs[e.p]) then t.returned + [Answer(t.procs[e.p].pc.code, t.procs[e.p].pc.status)] else t.returned
  {
    hide Reach, Own, Touched, Next, MoveEnabled, WaitLockAfter, Child;
    es', t' := Do(s, es, t, e);
    StepSlots(t, e);
    StepLists(t, e);
  }

  /** A step that concerns only the process that takes it. */
  lemma DoAlone(s: State, es: seq<Step>, t: State, x: nat, m: Move) returns (es': seq<Step>, t': State)
    requires Reach(s, es, t) && x < |t.procs| && MoveEnabled(t, x, m)
    ensures Reach(s, es', t') && t'.procs == t.procs[x := Moved(x, t.procs[x], m)] && t'.waitLock == WaitLockAfter(t.waitLock, Alone(x, m))
    ensures t'.nextPid == t.nextPid && t'.init == t.init && t'.exited == t.exited && t'.reaped == t.reaped
    ensures t'.returned == if Answers(Alone(x, m), t.procs[x]) then t.returned + [Answer(t.procs[x].pc.code, t.procs[x].pc.status)] else t.returned
  {
    hide Reach, Moved, MoveEnabled, WaitLockAfter;
    es', t' := DoStep(s, es, t, Alone(x, m));
    assert t'.procs == t.procs[x := Moved(x, t.procs[x], m)];
  }

  /** p and c are the only actors: all other locks are free, and c, which has no children, is the one process that a wait
      of p for req is after. */
  ghost predicate Scene(t: State, p: nat, c: nat, pid: nat, req: int) {
    && p < |t.procs| && c < |t.procs| && p != c && c != t.init && pid > 0 && (req > 0 ==> req == pid)
    && (forall r: nat :: r < |t.procs| && r != p && r != c ==> t.procs[r].lock.Free?)
    && (forall r: nat :: r < |t.procs| ==> t.procs[r].parent != Just(c))
    && (forall r: nat :: r < |t.procs| && r != c && t.procs[r].parent == Just(p) ==> req > 0 && t.procs[r].pid != req)
  }

  /** What the scene is about besides p and c. */
  ghost predicate SameElse(s: State, t: State) {
    |t.procs| == |s.procs| && t.init == s.init && t.nextPid == s.nextPid && t.exited == s.exited && t.reaped == s.reaped
    && t.returned == s.returned
  }

  /** p, outside the protocol and at rest. */
  predicate AtRest(q: Proc) { Active(q) && q.lock.Free? }

  predicate Offspring(q: Proc, p: nat, pid: nat) { q.parent == Just(p) && q.pid == pid && q.lock.Free? }

  /** fork, start to end. */
  lemma ForkAlone(s: State, p: nat, c: nat, req: int) returns (es: seq<Step>, t: State)
    requires Inv(s) && s.waitLock.Nothing? && p < |s.procs| && c < |s.procs| && AtRest(s.procs[p]) && s.procs[c].state.Unused?
    requires req == s.nextPid || (req <= 0 && forall r: nat :: r < |s.procs| ==> s.procs[r].parent != Just(p))
    requires forall r: nat :: r < |s.procs| ==> s.procs[r].lock.Free?
    ensures Reach(s, es, t) && SameElse(s.(nextPid := s.nextPid + 1), t) && t.waitLock.Nothing? && Scene(t, p, c, s.nextPid, req)
    ensures t.procs[p] == s.procs[p] && AtRest(t.procs[c]) && t.procs[c].state.Runnable? && Offspring(t.procs[c], p, s.nextPid)
    ensures t.procs[c].killed == s.procs[c].killed
  {
    hide Reach, MoveEnabled, Moved, Inv;
    FreeSlot(s, p, c);
    StandStill(s);
    var u;
    es, u := DoStep(s, [], s, ForkAlloc(p, c));
    assert u.procs == s.procs[p := s.procs[p].(pc := Made(c))][c := s.procs[c].(state := Used, pid := s.nextPid)];
    es, t := Linking(s, es, u, p, c);
    assert t.procs == s.procs[c := s.procs[c].(state := Runnable, pid := s.nextPid, parent := Just(p), pc := Idle)];
  }

  lemma FreeSlot(s: State, p: nat, c: nat)
    requires Inv(s) && p < |s.procs| && c < |s.procs| && s.procs[c].state.Unused? && Active(s.procs[p])
    ensures p != c && c != s.init && s.nextPid > 0 && s.procs[c].pc.Gone? && s.procs[c].parent.Nothing?
    ensures forall r: nat :: r < |s.procs| ==> s.procs[r].parent != Just(c)
    ensures forall r: nat :: r < |s.procs| && s.procs[r].parent == Just(p) ==> s.procs[r].pid != s.nextPid
  {
    assert LocalOk(s.waitLock, c, s.procs[c]) && LocalOk(s.waitLock, p, s.procs[p]);
    forall r: nat | r < |s.procs| && s.procs[r].parent.Just? ensures s.procs[r].parent != Just(c) && s.procs[r].pid != s.nextPid {
      assert ParentOk(s, r, s.procs[r].parent.value) && LocalOk(s.waitLock, r, s.procs[r]) && PidOk(s, r);
    }
  }

  lemma Linking(s: State, es: seq<Step>, u: State, p: nat, c: nat) returns (es': seq<Step>, t: State)
    requires Reach(s, es, u) && u.waitLock.Nothing? && p < |u.procs| && c < |u.procs| && p != c && u.procs[p].pc == Made(c)
    ensures Reach(s, es', t) && SameElse(u, t) && t.waitLock.Nothing?
    ensures t.procs == u.procs[p := u.procs[p].(pc := Idle)][c := u.procs[c].(parent := Just(p), state := Runnable, pc := Idle)]
  {
    hide Reach;
    es', t := DoAlone(s, es, u, p, ForkLock);
    var v := t;
    es', t := DoStep(s, es', v, ForkLink(p));
    assert t.procs == u.procs[p := u.procs[p].(pc := Linked(c))][c := u.procs[c].(parent := Just(p))];
    v := t;
    es', t := Starting(s, es', v, p, c);
    assert t.procs == u.procs[p := t.procs[p]][c := t.procs[c]];
  }

  lemma Starting(s: State, es: seq<Step>, u: State, p: nat, c: nat) returns (es': seq<Step>, t: State)
    requires Reach(s, es, u) && p < |u.procs| && c < |u.procs| && p != c && u.procs[p].pc == Linked(c)
    ensures Reach(s, es', t) && SameElse(u, t) && t.waitLock.Nothing?
    ensures t.procs == u.procs[p := u.procs[p].(pc := Idle)][c := u.procs[c].(state := Runnable, pc := Idle)]
  {
    hide Reach, SomeChild;
    es', t := DoAlone(s, es, u, p, ForkUnlock);
    es', t := DoStep(s, es', t, ForkStart(p));
  }

  /** p scans for pid and finds only c, in slot c. */
  lemma {:induction false} ScanAlone(s: State, es: seq<Step>, u: State, p: nat, c: nat, pid: nat, req: int, i: nat, stop: nat) returns (es': seq<Step>, t: State)
    requires Reach(s, es, u) && Scene(u, p, c, pid, req) && Offspring(u.procs[c], p, pid) && i <= stop <= |u.procs|
    requires u.procs[p].request == req && u.procs[p].pc == Scan(i, c < i) && u.procs[p].parent != Just(p)
    requires u.procs[c].state.Zombie? ==> stop <= c
    ensures Reach(s, es', t) && SameElse(u, t) && t.waitLock == u.waitLock && t.procs == u.procs[p := u.procs[p].(pc := Scan(stop, c < stop))]
    decreases stop - i
  {
    hide Reach;
    es', t := es, u;
    if i < stop {
      es', t := DoStep(s, es, u, WaitVisit(p, false));
      assert t.procs == u.procs[p := u.procs[p].(pc := Scan(i + 1, c < i + 1))];
      es', t := ScanAlone(s, es', t, p, c, pid, req, i + 1, stop);
    }
  }

  /** wait(req) while c runs: p goes to sleep on its own address. */
  lemma WaitAlone(s: State, es: seq<Step>, u: State, p: nat, c: nat, pid: nat, req: int) returns (es': seq<Step>, t: State)
    requires Reach(s, es, u) && Scene(u, p, c, pid, req) && Offspring(u.procs[c], p, pid) && !u.procs[c].state.Zombie? && u.waitLock.Nothing?
    requires AtRest(u.procs[p]) && !u.procs[p].killed && u.procs[p].parent != Just(p)
    ensures Reach(s, es', t) && SameElse(u, t) && t.waitLock.Nothing?
    ensures t.procs == u.procs[p := u.procs[p].(pc := Asleep, state := Sleeping, chan := OfProc(p), request := req)]
  {
    hide Reach;
    es', t := DoAlone(s, es, u, p, WaitCall(req));
    es', t := DoAlone(s, es', t, p, WaitLock);
    es', t := ScanAlone(s, es', t, p, c, pid, req, 0, |u.procs|);
    es', t := DoAlone(s, es', t, p, WaitDecide);
    es', t := SleepAlone(s, es', t, p);
  }

  lemma SleepAlone(s: State, es: seq<Step>, u: State, p: nat) returns (es': seq<Step>, t: State)
    requires Reach(s, es, u) && p < |u.procs| && u.procs[p].pc.Commit? && u.procs[p].lock.Free?
    ensures Reach(s, es', t) && SameElse(u, t) && t.waitLock.Nothing?
    ensures t.procs == u.procs[p := u.procs[p].(pc := Asleep, state := Sleeping, chan := OfProc(p))]
  {
    hide Reach, SomeChild;
    es', t := DoAlone(s, es, u, p, SleepLock);
    es', t := DoAlone(s, es', t, p, SleepUnlock);
    es', t := DoAlone(s, es', t, p, SleepMark);
    es', t := LeaveAlone(s, es', t, p);
    assert t.procs == u.procs[p := t.procs[p]];
  }

  /** Switching away, the process's lock passes through the scheduler's hands. */
  lemma LeaveAlone(s: State, es: seq<Step>, u: State, p: nat) returns (es': seq<Step>, t: State)
    requires Reach(s, es, u) && p < |u.procs| && (u.procs[p].pc.Switch? || u.procs[p].pc.LeaveCpu?)
    ensures Reach(s, es', t) && SameElse(u, t) && t.waitLock == u.waitLock
    ensures t.procs == u.procs[p := u.procs[p].(pc := if u.procs[p].pc.Switch? then Asleep else Dead, lock := Free)]
  {
    hide Reach, SomeChild;
    es', t := DoAlone(s, es, u, p, SwitchAway);
    es', t := DoAlone(s, es', t, p, OtherUnlock);
  }

  /** What a pass of wakeup(p) makes of a process. */
  function Awoken(q: Proc, p: nat): Proc {
    if q.state.Sleeping? && q.chan == OfProc(p) then q.(state := Runnable) else q
  }

  /** The wakeup loop of c's exit, from slot i on: exactly the sleepers on p's address are made runnable. */
  lemma {:induction false} WakeAlone(s: State, es: seq<Step>, u: State, p: nat, c: nat, i: nat) returns (es': seq<Step>, t: State)
    requires Reach(s, es, u) && c < |u.procs| && i <= |u.procs| && u.procs[c].pc == Wake(i, p) && !u.procs[c].state.Sleeping?
    requires forall r: nat :: r < |u.procs| ==> u.procs[r].lock.Free?
    ensures Reach(s, es', t) && SameElse(u, t) && t.waitLock == u.waitLock && t.procs[c] == u.procs[c].(pc := Wake(|u.procs|, p))
    ensures forall r: nat :: r < |u.procs| && r != c ==> t.procs[r] == if r >= i then Awoken(u.procs[r], p) else u.procs[r]
    decreases |u.procs| - i
  {
    hide Reach;
    es', t := es, u;
    if i < |u.procs| {
      es', t := DoStep(s, es, u, ExitWake(c));
      assert forall r: nat :: r < |u.procs| && r != c ==> t.procs[r] == if r == i then Awoken(u.procs[r], p) else u.procs[r];
      es', t := WakeAlone(s, es', t, p, c, i + 1);
    }
  }

  /** exit(x) of c, start to end: c is a zombie, and its parent p is awake. */
  lemma ExitAlone(s: State, es: seq<Step>, u: State, p: nat, c: nat, pid: nat, req: int, x: int) returns (es': seq<Step>, t: State)
    requires Reach(s, es, u) && Scene(u, p, c, pid, req) && Offspring(u.procs[c], p, pid) && Active(u.procs[c]) && u.waitLock.Nothing? && u.procs[p].lock.Free?
    ensures Reach(s, es', t) && SameElse(u.(exited := u.exited[pid := x]), t) && t.waitLock.Nothing? && Scene(t, p, c, pid, req)
    ensures t.procs[p] == Awoken(u.procs[p], p) && Offspring(t.procs[c], p, pid) && t.procs[c].state.Zombie? && t.procs[c].xstate == Status(x)
  {
    hide Reach, Status;
    es', t := DoAlone(s, es, u, c, ExitCall);
    es', t := DoAlone(s, es', t, c, ExitLock);
    es', t := DoStep(s, es', t, ExitReparent(c));
    assert t.procs == u.procs[c := u.procs[c].(pc := Wake(0, p))];
    es', t := WakeAlone(s, es', t, p, c, 0);
    es', t := DieAlone(s, es', t, c, x);
  }

  lemma DieAlone(s: State, es: seq<Step>, u: State, c: nat, x: int) returns (es': seq<Step>, t: State)
    requires Reach(s, es, u) && c < |u.procs| && u.procs[c].pc.Wake? && u.procs[c].pc.i == |u.procs| && u.procs[c].lock.Free?
    ensures Reach(s, es', t) && SameElse(u.(exited := u.exited[u.procs[c].pid := x]), t) && t.waitLock.Nothing?
    ensures t.procs == u.procs[c := u.procs[c].(pc := Dead, state := Zombie, xstate := Status(x))]
  {
    hide Reach, SomeChild, Status;
    es', t := DoAlone(s, es, u, c, ExitWoken);
    es', t := DoAlone(s, es', t, c, ExitSelf);
    var v := t;
    es', t := BuryAlone(s, es', v, c, x);
    assert t.procs == u.procs[c := t.procs[c]];
  }

  lemma BuryAlone(s: State, es: seq<Step>, u: State, c: nat, x: int) returns (es': seq<Step>, t: State)
    requires Reach(s, es, u) && c < |u.procs| && u.procs[c].pc.Die?
    ensures Reach(s, es', t) && SameElse(u.(exited := u.exited[u.procs[c].pid := x]), t) && t.waitLock.Nothing?
    ensures t.procs == u.procs[c := u.procs[c].(pc := Dead, lock := Free, state := Zombie, xstate := Status(x))]
  {
    hide Reach, SomeChild, Status, Moved;
    es', t := DoStep(s, es, u, ExitDie(c, x));
    assert t.procs == u.procs[c := u.procs[c].(pc := Bury, state := Zombie, xstate := Status(x))];
    var v := t;
    es', t := UnlockAlone(s, es', v, c);
    assert t.procs == u.procs[c := t.procs[c]];
  }

  lemma UnlockAlone(s: State, es: seq<Step>, u: State, c: nat) returns (es': seq<Step>, t: State)
    requires Reach(s, es, u) && c < |u.procs| && u.procs[c].pc.Bury?
    ensures Reach(s, es', t) && SameElse(u, t) && t.waitLock.Nothing? && t.procs == u.procs[c := u.procs[c].(pc := Dead, lock := Free)]
  {
    hide Reach, SomeChild;
    es', t := DoAlone(s, es, u, c, ExitUnlock);
    es', t := LeaveAlone(s, es', t, c);
    assert t.procs == u.procs[c := t.procs[c]];
  }

  /** p, woken, scans again, finds the zombie and returns. */
  lemma ReapAlone(s: State, es: seq<Step>, u: State, p: nat, c: nat, pid: nat, req: int) returns (es': seq<Step>, t: State)
    requires Reach(s, es, u) && Scene(u, p, c, pid, req) && Offspring(u.procs[c], p, pid) && u.procs[c].state.Zombie? && u.waitLock.Nothing?
    requires u.procs[p].pc.Asleep? && u.procs[p].state.Runnable? && u.procs[p].lock.Free? && u.procs[p].request == req && u.procs[p].parent != Just(p)
    ensures Reach(s, es', t) && t.waitLock.Nothing? && |t.procs| == |u.procs| && t.nextPid == u.nextPid
    ensures t.returned == u.returned + [Answer(pid, u.procs[c].xstate)] && t.reaped == u.reaped + [pid] && t.exited == u.exited
    ensures Blank(t.procs[c])
    ensures AtRest(t.procs[p]) && t.procs[p].state.Running? && t.procs[p].chan.NoChan?
  {
    hide Reach;
    es', t := ResumeAlone(s, es, u, p);
    es', t := DoAlone(s, es', t, p, WaitLock);
    es', t := ScanAlone(s, es', t, p, c, pid, req, 0, c);
    es', t := CollectAlone(s, es', t, p, c, pid);
  }

  lemma CollectAlone(s: State, es: seq<Step>, u: State, p: nat, c: nat, pid: nat) returns (es': seq<Step>, t: State)
    requires Reach(s, es, u) && p < |u.procs| && c < |u.procs| && p != c && pid > 0 && u.procs[p].pc.Scan? && u.procs[p].pc.i == c
    requires Offspring(u.procs[c], p, pid) && u.procs[c].state.Zombie? && Matches(u.procs[p].request, pid)
    ensures Reach(s, es', t) && t.waitLock.Nothing? && |t.procs| == |u.procs| && t.nextPid == u.nextPid
    ensures t.returned == u.returned + [Answer(pid, u.procs[c].xstate)] && t.reaped == u.reaped + [pid] && t.exited == u.exited
    ensures Blank(t.procs[c]) && t.procs[p] == u.procs[p].(pc := Idle)
  {
    hide Reach, SomeChild;
    es', t := DoStep(s, es, u, WaitVisit(p, false));
    es', t := DoAlone(s, es', t, p, WaitReturn);
  }

  lemma ResumeAlone(s: State, es: seq<Step>, u: State, p: nat) returns (es': seq<Step>, t: State)
    requires Reach(s, es, u) && p < |u.procs| && u.waitLock.Nothing? && u.procs[p].pc.Asleep? && u.procs[p].state.Runnable? && u.procs[p].lock.Free?
    ensures Reach(s, es', t) && SameElse(u, t) && t.waitLock.Nothing?
    ensures t.procs == u.procs[p := u.procs[p].(pc := WaitEnter, state := Running, chan := NoChan)]
  {
    hide Reach, SomeChild;
    es', t := DoAlone(s, es, u, p, OtherLock);
    es', t := DoAlone(s, es', t, p, Dispatch);
    es', t := DoAlone(s, es', t, p, SleepEnd);
  }

  /** The protocol does what it is for: from any state of a run in which nobody holds a lock, a process can fork into any free
      slot, wait for the child (by its pid, or for any if it has no other) and sleep; the child can exit with x and thereby wake it; and the wait then returns the
      child's pid and the status of x, and frees the slot. */
  lemma ForkExitWait(s: State, p: nat, c: nat, req: int, x: int) returns (es: seq<Step>, t: State)
    requires Inv(s) && s.waitLock.Nothing? && p < |s.procs| && c < |s.procs| && AtRest(s.procs[p]) && !s.procs[p].killed
    requires s.procs[c].state.Unused? && forall r: nat :: r < |s.procs| ==> s.procs[r].lock.Free?
    requires req == s.nextPid || (req <= 0 && forall r: nat :: r < |s.procs| ==> s.procs[r].parent != Just(p))
    ensures Reach(s, es, t) && t.waitLock.Nothing? && |t.procs| == |s.procs|
    ensures t.returned == s.returned + [Answer(s.nextPid, Status(x))] && t.exited == s.exited[s.nextPid := x]
    ensures Blank(t.procs[c]) && AtRest(t.procs[p]) && t.nextPid == s.nextPid + 1
  {
    hide Reach, Inv, Status;
    NotOwnParent(s, p);
    var pid := s.nextPid;
    es, t := ForkAlone(s, p, c, req);
    es, t := WaitAlone(s, es, t, p, c, pid, req);
    es, t := ExitAlone(s, es, t, p, c, pid, req, x);
    es, t := ReapAlone(s, es, t, p, c, pid, req);
  }

  /** kill takes its argument for a slot number and does not ask whether the slot is in use, and a new process keeps the
      slot's flag: a kill of an empty slot strikes the process that is made there next. */
  lemma KilledAtBirth(s: State, p: nat, c: nat) returns (es: seq<Step>, t: State)
    requires Inv(s) && s.waitLock.Nothing? && p < |s.procs| && c < |s.procs| && AtRest(s.procs[p]) && s.procs[c].state.Unused?
    requires forall r: nat :: r < |s.procs| ==> s.procs[r].lock.Free?
    ensures Reach(s, [Alone(c, Kill)] + es, t)
    ensures |t.procs| == |s.procs| && Offspring(t.procs[c], p, s.nextPid) && AtRest(t.procs[c]) && t.procs[c].killed
  {
    hide Inv;
    var e := Alone(c, Kill);
    assert Enabled(s, e);
    StepSlots(s, e);
    StepLists(s, e);
    StepInv(s, e);
    hide Reach, Next, Enabled;
    es, t := ForkAlone(Next(s, e), p, c, s.nextPid);
    ReachFirst(s, e, es, t);
  }

  lemma ReachFirst(s: State, e: Step, es: seq<Step>, t: State)
    requires Enabled(s, e) && Reach(Next(s, e), es, t)
    ensures Reach(s, [e] + es, t)
  {
    assert ([e] + es)[1..] == es;
  }

  lemma NotOwnParent(s: State, p: nat)
    requires Inv(s) && p < |s.procs|
    ensures s.procs[p].parent != Just(p)
  {
    if s.procs[p].parent.Just? { assert ParentOk(s, p, s.procs[p].parent.value); }
  }
}
