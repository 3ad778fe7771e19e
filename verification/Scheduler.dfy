/** The dispatch loop: priorities, one slot per step. */
module Scheduler {
  import opened Wrappers

  const LOWEST_PRIO: int := 19

  datatype Task = Task(prio: int, runnable: bool)

  /** The result of get_highest_proirity over the first n tasks. */
  function BestOf(pool: seq<Task>, n: nat): (b: int)
    requires n <= |pool|
    ensures b <= LOWEST_PRIO
    ensures forall i :: 0 <= i < n && pool[i].runnable ==> b <= pool[i].prio || pool[i].prio > LOWEST_PRIO
    ensures b < LOWEST_PRIO ==> exists i :: 0 <= i < n && pool[i].runnable && pool[i].prio == b
  {
    if n == 0 then LOWEST_PRIO
    else
      var b := BestOf(pool, n - 1);
      if pool[n - 1].prio < b && pool[n - 1].runnable then pool[n - 1].prio else b
  }

  method GetHighestPriority(pool: seq<Task>) returns (prio: int)
    ensures prio == BestOf(pool, |pool|)
  {
    prio := LOWEST_PRIO;
    for i := 0 to |pool|
      invariant prio == BestOf(pool, i)
    {
      if pool[i].prio < prio && pool[i].runnable {
        prio := pool[i].prio;
      }
    }
  }

  /** The variables of start_schedule, and whom the last step dispatched. */
  datatype State = State(pos: nat, needed: bool, prio: int, pool: seq<Task>, last: Wrap<nat>)

  /** One step of the inner loop. A dispatched task is no longer runnable. */
  function Turn(s: State): State
    requires s.pos < |s.pool|
  {
    var prio := if s.needed then BestOf(s.pool, |s.pool|) else s.prio;
    var q := s.pool[s.pos];
    var next := if s.pos + 1 == |s.pool| then 0 else s.pos + 1;
    if !q.runnable || q.prio > prio then State(next, false, prio, s.pool, Nothing)
    else State(next, true, prio, s.pool[s.pos := q.(runnable := false)], Just(s.pos))
  }

  /** What the rest of the kernel may do between two steps, a dispatched task's own run included:
      anything, except that a task waiting to be dispatched keeps waiting at its priority. */
  ghost predicate Between(pool: seq<Task>, pool': seq<Task>) {
    |pool'| == |pool| && forall i :: 0 <= i < |pool| && pool[i].runnable ==> pool'[i] == pool[i]
  }

  /** s lists the states before each step, after the kernel's changes. */
  ghost predicate Run(s: seq<State>) {
    && |s| > 0 && s[0].needed && s[0].pos < |s[0].pool| && s[0].last.Nothing?
    && forall i :: 0 <= i < |s| - 1 ==> Step(s[i], s[i + 1])
  }

  /** Whom step j of a run dispatched. */
  function Ran(s: seq<State>, j: nat): Wrap<nat>
    requires j + 1 < |s|
  {
    s[j + 1].last
  }

  ghost predicate Step(s: State, s': State) {
    && s.pos < |s.pool|
    && var t := Turn(s); s' == t.(pool := s'.pool) && Between(t.pool, s'.pool)
  }

  /** A priority that is not due for recomputation is the lowest one, or that of a task that is still waiting. */
  ghost predicate Inv(s: State) {
    && s.pos < |s.pool|
    && (!s.needed ==> s.prio <= LOWEST_PRIO)
    && (!s.needed && s.prio < LOWEST_PRIO ==> exists i :: 0 <= i < |s.pool| && Waiting(s.pool, i, s.prio))
  }

  predicate Waiting(pool: seq<Task>, i: nat, prio: int)
    requires i < |pool|
  {
    pool[i].runnable && pool[i].prio == prio
  }

  /** No waiting task has a better (smaller) priority value. */
  ghost predicate NoneAbove(pool: seq<Task>, prio: int) {
    forall i :: 0 <= i < |pool| && pool[i].runnable ==> prio <= pool[i].prio
  }

  lemma StepInv(s: State, s': State)
    requires Inv(s) && Step(s, s')
    ensures Inv(s')
  {
    var t := Turn(s);
    if !t.needed && t.prio < LOWEST_PRIO {
      if s.needed { BestWaits(s.pool); }
      var i: nat :| i < |s.pool| && Waiting(s.pool, i, t.prio);
      assert Waiting(s'.pool, i, s'.prio);
    }
  }

  lemma {:induction false} RunInv(s: seq<State>, k: nat)
    requires Run(s) && k < |s|
    ensures Inv(s[k]) && |s[k].pool| == |s[0].pool|
  {
    if k > 0 {
      RunInv(s, k - 1);
      assert Step(s[k - 1], s[k - 1 + 1]);
      StepInv(s[k - 1], s[k]);
    }
  }

  /** Slots come by in cyclic order. */
  lemma {:induction false} PosAfter(s: seq<State>, k: nat, i: nat)
    requires Run(s) && k + i < |s| && i <= |s[0].pool|
    ensures var n := |s[0].pool|;
            s[k].pos < n && s[k + i].pos == if s[k].pos + i < n then s[k].pos + i else s[k].pos + i - n
  {
    RunInv(s, k);
    if i > 0 {
      PosAfter(s, k, i - 1);
      RunInv(s, k + i - 1);
      assert Step(s[k + i - 1], s[k + i - 1 + 1]);
    }
  }

  /** The step of one sweep in which slot m comes by. */
  function TurnOf(pos: nat, m: nat, n: nat): (i: nat)
    requires pos < n && m < n
    ensures i < n && m == if pos + i < n then pos + i else pos + i - n
  {
    if m >= pos then m - pos else m + n - pos
  }

  /** A waiting task is still waiting i steps later, unless one of them dispatched it. */
  lemma {:induction false} StillWaiting(s: seq<State>, k: nat, i: nat, m: nat)
    requires Run(s) && k + i < |s| && m < |s[k].pool| && s[k].pool[m].runnable
    ensures |s[k + i].pool| == |s[k].pool|
    ensures s[k + i].pool[m] == s[k].pool[m] || exists j: nat :: k <= j < k + i && Ran(s, j) == Just(m)
  {
    RunInv(s, k);
    RunInv(s, k + i);
    if i > 0 {
      StillWaiting(s, k, i - 1, m);
      var t := s[k + i - 1];
      RunInv(s, k + i - 1);
      assert Step(t, s[k + i - 1 + 1]);
      assert s[k + i].pool[m] == t.pool[m] || !t.pool[m].runnable || Ran(s, k + i - 1) == Just(m);
    }
  }

  /** Bounded bypass: a waiting task whose priority value is minimal is dispatched within one sweep, and
      until then no slot is dispatched twice. */
  lemma MinimalRunsSoon(s: seq<State>, k: nat, m: nat) returns (j: nat)
    requires Run(s) && k + |s[0].pool| < |s| && m < |s[k].pool| == |s[0].pool| && s[k].pool[m].runnable
    requires s[k].pool[m].prio <= LOWEST_PRIO
    requires forall i :: k <= i < |s| ==> NoneAbove(s[i].pool, s[k].pool[m].prio)
    ensures k <= j < k + |s[0].pool| && Ran(s, j) == Just(m)
    ensures forall a: nat, b: nat :: k <= a < b <= j && Ran(s, a).Just? ==> Ran(s, b) != Ran(s, a)
  {
    RunInv(s, k);
    var n := |s[0].pool|;
    var i := TurnOf(s[k].pos, m, n);
    j := k + i;
    StillWaiting(s, k, i, m);
    if s[j].pool[m] == s[k].pool[m] {
      MinimalPasses(s, k, i, m);
    } else {
      j :| k <= j < k + i && Ran(s, j) == Just(m);
    }
    forall a: nat, b: nat | k <= a < b <= j && Ran(s, a).Just? ensures Ran(s, b) != Ran(s, a) {
      NoSlotTwice(s, a, b);
    }
  }

  lemma MinimalPasses(s: seq<State>, k: nat, i: nat, m: nat)
    requires Run(s) && k + i + 1 < |s| && m < |s[k].pool| == |s[0].pool| && s[k].pos < |s[k].pool| && i == TurnOf(s[k].pos, m, |s[0].pool|)
    requires |s[k + i].pool| == |s[0].pool| && s[k + i].pool[m].runnable && s[k + i].pool[m].prio <= LOWEST_PRIO
    requires NoneAbove(s[k + i].pool, s[k + i].pool[m].prio)
    ensures Ran(s, k + i) == Just(m)
  {
    var t := s[k + i];
    RunInv(s, k + i);
    PosAfter(s, k, i);
    assert Step(t, s[k + i + 1]);
    if t.needed && BestOf(t.pool, |t.pool|) < LOWEST_PRIO { BestWaits(t.pool); }
    var prio := Due(t);
    if prio < LOWEST_PRIO {
      var r: nat :| r < |t.pool| && Waiting(t.pool, r, prio);
    }
  }

  lemma NoSlotTwice(s: seq<State>, a: nat, b: nat)
    requires Run(s) && a < b < a + |s[0].pool| && b + 1 < |s| && Ran(s, a).Just?
    ensures Ran(s, b) != Ran(s, a)
  {
    PosAfter(s, a, b - a);
    RunInv(s, a);
    RunInv(s, b);
    assert Step(s[a], s[a + 1]) && Step(s[b], s[b + 1]);
  }

  /** Progress: if any task of priority value at most 19 is waiting, some task is dispatched within one sweep. */
  lemma SomethingRuns(s: seq<State>, k: nat, m: nat) returns (j: nat)
    requires Run(s) && k + |s[0].pool| < |s| && m < |s[k].pool| == |s[0].pool| && s[k].pool[m].runnable
    requires s[k].pool[m].prio <= LOWEST_PRIO
    ensures k <= j < k + |s[0].pool| && Ran(s, j).Just?
  {
    RunInv(s, k);
    var n := |s[0].pool|;
    var prio := Due(s[k]);
    var r: nat := m;  // the task that will be dispatched unless another is
    if prio < LOWEST_PRIO {
      if s[k].needed { BestWaits(s[k].pool); }
      r :| r < n && Waiting(s[k].pool, r, prio);
    }
    var i := TurnOf(s[k].pos, r, n);
    j := FirstDispatch(s, k, i, r, prio);
  }

  lemma BestWaits(pool: seq<Task>)
    requires BestOf(pool, |pool|) < LOWEST_PRIO
    ensures exists r: nat :: r < |pool| && Waiting(pool, r, BestOf(pool, |pool|))
  {
    var r :| 0 <= r < |pool| && pool[r].runnable && pool[r].prio == BestOf(pool, |pool|);
    assert Waiting(pool, r, BestOf(pool, |pool|));
  }

  /** Without a dispatch the priority stays as it is, and slot r gets its turn. */
  lemma FirstDispatch(s: seq<State>, k: nat, i: nat, r: nat, prio: int) returns (j: nat)
    requires Run(s) && k + i + 1 < |s| && r < |s[k].pool| == |s[0].pool| && s[k].pos < |s[k].pool| && i == TurnOf(s[k].pos, r, |s[0].pool|)
    requires s[k].pool[r].runnable && s[k].pool[r].prio <= prio
    requires prio == Due(s[k])
    ensures k <= j <= k + i && Ran(s, j).Just?
  {
    j := k;
    RunInv(s, k);
    while s[j + 1].last.Nothing?
      invariant k <= j <= k + i
      invariant |s[j].pool| == |s[0].pool| && s[j].pool[r] == s[k].pool[r] && Due(s[j]) == prio
      decreases k + i - j
    {
      RunInv(s, j);
      PosAfter(s, k, j - k);
      QuietStep(s[j], s[j + 1], r);
      RunInv(s, j + 1);
      j := j + 1;
    }
  }

  /** The priority that the next step goes by. */
  function Due(s: State): int {
    if s.needed then BestOf(s.pool, |s.pool|) else s.prio
  }

  /** A step that dispatches nobody leaves waiting tasks and the priority alone, and was not r's to take. */
  lemma QuietStep(s: State, s': State, r: nat)
    requires Step(s, s') && s'.last.Nothing? && r < |s.pool| && s.pool[r].runnable
    ensures |s'.pool| == |s.pool| && s'.pool[r] == s.pool[r] && Due(s') == Due(s)
    ensures !(s.pos == r && s.pool[r].prio <= Due(s))
  {
    hide BestOf;
  }

  /** Priorities are respected: a dispatched task is waiting, and its priority value is no larger than that of any task of
      value at most 19 that was waiting when the priority was last computed, at step j. */
  lemma {:induction false} DispatchedIsBest(s: seq<State>, k: nat, m: nat) returns (j: nat)
    requires Run(s) && k + 1 < |s| && Ran(s, k) == Just(m)
    ensures j <= k && s[j].needed && forall i :: j < i <= k ==> !s[i].needed
    ensures m == s[k].pos < |s[k].pool| && s[k].pool[m].runnable && s[k].pool[m].prio <= LOWEST_PRIO
    ensures forall r: nat :: r < |s[j].pool| && s[j].pool[r].runnable && s[j].pool[r].prio <= LOWEST_PRIO ==>
              s[k].pool[m].prio <= s[j].pool[r].prio
  {
    hide BestOf;
    RunInv(s, k);
    assert Step(s[k], s[k + 1]);
    j := LastComputed(s, k);
  }

  /** The step at which the priority in use at step k was computed. */
  lemma {:induction false} LastComputed(s: seq<State>, k: nat) returns (j: nat)
    requires Run(s) && k < |s|
    ensures j <= k && s[j].needed && (forall i :: j < i <= k ==> !s[i].needed)
    ensures Due(s[k]) == BestOf(s[j].pool, |s[j].pool|)
  {
    if s[k].needed {
      j := k;
    } else {
      j := LastComputed(s, k - 1);
      assert Step(s[k - 1], s[k - 1 + 1]);
    }
  }

  /** A task whose priority value exceeds 19 is never dispatched. */
  lemma BelowLowestNeverRuns(s: seq<State>, k: nat)
    requires Run(s) && k + 1 < |s| && s[k].pos < |s[k].pool| && s[k].pool[s[k].pos].prio > LOWEST_PRIO
    ensures s[k + 1].last.Nothing?
  {
    RunInv(s, k);
    assert Step(s[k], s[k + 1]);
  }
}
