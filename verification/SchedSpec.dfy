/**
 The scheduler: what one kernel call, through its switch, does to the tasks, the
 ready, sleep and dead lists and the semaphores.

 Task control blocks are addresses; their fields are words in maps.  A smaller
 priority number is more urgent.  A call and the switch it ends in are one step.
*/
module SchedSpec {
  import opened Arith
  import opened Chains

  type Task = Addr
  type SemId = Addr

  const T_READY := 1
  const T_RUN := 2
  const T_WAIT := 3
  const T_DEAD := 4

  const MAX_PRIORITY := 8

  datatype Kernel = Kernel(
    prio: map<Task, int>, state: map<Task, int>, timeout: map<Task, int>, retv: map<Task, int>,
    ready: seq<Task>, sleep: seq<Task>, dead: seq<Task>,
    current: Task, ticks: int,
    value: map<SemId, int>, waiter: map<SemId, Task>)

  // ----- ordered lists -----

  /** Insertion before the first element with a larger key, so after those with the same. */
  ghost function Insert(key: map<Task, int>, l: seq<Task>, t: Task): seq<Task> {
    if l == [] then [t]
    else if At(key, t) < At(key, l[0]) then [t] + l
    else [l[0]] + Insert(key, l[1..], t)
  }

  ghost predicate Sorted(key: map<Task, int>, l: seq<Task>) {
    l != [] ==> (forall t :: t in l[1..] ==> At(key, l[0]) <= At(key, t)) && Sorted(key, l[1..])
  }

  lemma {:induction false} InsertElems(key: map<Task, int>, l: seq<Task>, t: Task)
    ensures forall x :: x in Insert(key, l, t) <==> x == t || x in l
    ensures |Insert(key, l, t)| == |l| + 1
  {
    if l != [] && At(key, t) >= At(key, l[0]) {
      InsertElems(key, l[1..], t);
      assert forall x :: x in l <==> x == l[0] || x in l[1..];
      assert forall x :: x in Insert(key, l, t) <==> x == l[0] || x in Insert(key, l[1..], t);
    }
  }

  lemma {:induction false} InsertKeeps(key: map<Task, int>, l: seq<Task>, t: Task)
    requires NoDup(l) && t !in l && Sorted(key, l)
    ensures NoDup(Insert(key, l, t)) && Sorted(key, Insert(key, l, t))
  {
    if l != [] {
      if At(key, t) < At(key, l[0]) {
        assert ([t] + l)[1..] == l;
        assert forall x :: x in l <==> x == l[0] || x in l[1..];
      } else {
        InsertKeeps(key, l[1..], t);
        InsertElems(key, l[1..], t);
        assert Insert(key, l, t)[1..] == Insert(key, l[1..], t);
      }
    }
  }

  /** The elements already there keep their order. */
  lemma {:induction false} InsertKeepsOrder(key: map<Task, int>, l: seq<Task>, t: Task, x: Task, y: Task)
    requires Before(l, x, y) && x != t
    ensures Before(Insert(key, l, t), x, y)
  {
    if At(key, t) < At(key, l[0]) {
      assert ([t] + l)[1..] == l;
    } else {
      assert Insert(key, l, t)[1..] == Insert(key, l[1..], t);
      if l[0] == x {
        InsertElems(key, l[1..], t);
      } else {
        InsertKeepsOrder(key, l[1..], t, x, y);
      }
    }
  }

  /** A new element goes behind every one whose key is not larger. */
  lemma {:induction false} InsertGoesBehind(key: map<Task, int>, l: seq<Task>, t: Task, x: Task)
    requires Sorted(key, l) && x in l && At(key, x) <= At(key, t)
    ensures Before(Insert(key, l, t), x, t)
  {
    assert At(key, l[0]) <= At(key, x) by {
      assert x == l[0] || x in l[1..];
    }
    assert Insert(key, l, t)[1..] == Insert(key, l[1..], t);
    if l[0] == x {
      InsertElems(key, l[1..], t);
    } else {
      InsertGoesBehind(key, l[1..], t, x);
    }
  }

  lemma {:induction false} SortedAgree(key: map<Task, int>, key': map<Task, int>, l: seq<Task>)
    requires Sorted(key, l) && forall t :: t in l ==> At(key', t) == At(key, t)
    ensures Sorted(key', l)
  {
    if l != [] {
      assert l[0] in l;
      assert forall t :: t in l[1..] ==> t in l;
      SortedAgree(key, key', l[1..]);
    }
  }

  lemma {:induction false} WithoutSorted(key: map<Task, int>, l: seq<Task>, t: Task)
    requires Sorted(key, l)
    ensures Sorted(key, Without(l, t)) && forall x :: x in Without(l, t) ==> x in l
  {
    if l != [] && l[0] != t {
      WithoutSorted(key, l[1..], t);
      assert Without(l, t)[1..] == Without(l[1..], t);
    }
  }

  // ----- time -----

  /** The end of a sleep, a signed word; for ticks below 2^31. */
  function Until(ticks: int, n: int): int {
    if ticks + n >= 0x8000_0000 then ticks + n - WORD else ticks + n
  }

  /** The time of a sleeper as it is compared with the ticks, which are unsigned. */
  function Unsigned(timeout: int): int {
    if timeout < 0 then timeout + WORD else timeout
  }

  // ----- kernel calls -----

  /** _task_ready */
  ghost function MakeReady(k: Kernel, t: Task): Kernel {
    k.(ready := Insert(k.prio, k.ready, t), state := k.state[t := T_READY])
  }

  /** _task_switch; `self` when the running task gives up the processor. */
  ghost function Switch(k: Kernel, self: bool): Kernel
    requires k.ready != []
  {
    var high := k.ready[0];
    if !self && At(k.prio, k.current) < At(k.prio, high) then k
    else
      var state := if At(k.state, k.current) == T_RUN then k.state[k.current := T_READY] else k.state;
      var ready := if At(state, k.current) == T_READY then Insert(k.prio, k.ready, k.current) else k.ready;
      k.(state := state[high := T_RUN], ready := Without(ready, high), current := high)
  }

  /** The loop of _tick_handle. */
  ghost function Wake(k: Kernel): Kernel
    decreases |k.sleep|
  {
    if k.sleep == [] || k.ticks < Unsigned(At(k.timeout, k.sleep[0])) then k
    else
      var t := k.sleep[0];
      Wake(MakeReady(k.(sleep := k.sleep[1..], timeout := k.timeout[t := 0]), t))
  }

  ghost function SwitchIf(k: Kernel, wanted: bool, self: bool): Kernel {
    if wanted && k.ready != [] then Switch(k, self) else k
  }

  /** The new control block of a task. */
  ghost function Fresh(k: Kernel, t: Task, prio: int): Kernel {
    k.(prio := k.prio[t := prio], timeout := k.timeout[t := 0], retv := k.retv[t := 0])
  }

  /** The running task goes to sleep until the given tick. */
  ghost function FallAsleep(k: Kernel, until: int): Kernel {
    var timeout := k.timeout[k.current := until];
    k.(state := k.state[k.current := T_WAIT], timeout := timeout, sleep := Insert(timeout, k.sleep, k.current))
  }

  /** A give: the recorded waiter gets the token and no longer sleeps, or the value grows. */
  ghost function Hand(k: Kernel, s: SemId): Kernel {
    var t := At(k.waiter, s);
    if t == NULL then k.(waiter := k.waiter[s := NULL], value := k.value[s := At(k.value, s) + 1])
    else
      var k1 := k.(waiter := k.waiter[s := NULL], retv := k.retv[t := 0]);
      if At(k.timeout, t) > 0 then k1.(sleep := Without(k.sleep, t), timeout := k.timeout[t := 0]) else k1
  }

  ghost predicate Wakes(k: Kernel, s: SemId) {
    At(k.waiter, s) != NULL && At(k.state, At(k.waiter, s)) == T_WAIT
  }

  /** The running task is recorded as the one waiter of a semaphore. */
  ghost function Record(k: Kernel, s: SemId): Kernel {
    k.(state := k.state[k.current := T_WAIT], waiter := k.waiter[s := k.current], timeout := k.timeout[k.current := 0])
  }

  /** A take that has to wait. */
  ghost function Block(k: Kernel, s: SemId, timeout: int): Kernel {
    if timeout <= 0 then Record(k, s)
    else FallAsleep(Record(k, s), Until(k.ticks, timeout)).(retv := k.retv[k.current := -1])
  }

  ghost predicate Blocks(k: Kernel, s: SemId, timeout: int) {
    At(k.value, s) == 0 && timeout != 0
  }

  /** The control blocks of a list are released. */
  ghost function Buried(state: map<Task, int>, l: seq<Task>): map<Task, int>
    decreases |l|
  {
    if l == [] then state else Buried(state[l[0] := 0], l[1..])
  }

  lemma {:induction false} BuriedAre(state: map<Task, int>, l: seq<Task>)
    ensures forall t :: At(Buried(state, l), t) == if t in l then 0 else At(state, t)
    decreases |l|
  {
    if l != [] {
      Wrote(state, state[l[0] := 0], l[0], 0);
      BuriedAre(state[l[0] := 0], l[1..]);
      assert forall t :: t in l <==> t == l[0] || t in l[1..];
    }
  }

  // ----- steps -----

  datatype Op =
    | Tick
    | Create(t: Task, prio: int)
    | Exit
    | Delay(n: int)
    | Yield
    | Give(s: SemId)
    | Take(s: SemId, timeout: int)
    | Reap

  /** What a call does before the switch it may end in. */
  ghost function Middle(k: Kernel, op: Op): Kernel {
    match op
    case Tick => Wake(k.(ticks := k.ticks + 1))
    case Create(t, prio) =>
      if k.current == NULL then Fresh(k, t, prio).(state := k.state[t := T_RUN], current := t)
      else MakeReady(Fresh(k, t, prio), t)
    case Exit => k.(state := k.state[k.current := T_DEAD], dead := [k.current] + k.dead)
    case Delay(n) => FallAsleep(k, Until(k.ticks, n))
    case Yield => k.(state := k.state[k.current := T_READY])
    case Give(s) => if Wakes(k, s) then MakeReady(Hand(k, s), At(k.waiter, s)) else Hand(k, s)
    case Take(s, timeout) =>
      if At(k.value, s) != 0 then k.(value := k.value[s := At(k.value, s) - 1])
      else if timeout == 0 then k
      else Block(k, s, timeout)
    case Reap => k.(dead := [], state := Buried(k.state, k.dead))
  }

  /** Whether the running task gives up the processor. */
  ghost predicate Leaves(k: Kernel, op: Op) {
    op.Exit? || op.Delay? || op.Yield? || (op.Take? && Blocks(k, op.s, op.timeout))
  }

  /** Whether a task became ready that may be more urgent. */
  ghost predicate Readies(k: Kernel, op: Op) {
    match op
    case Tick => Middle(k, op).sleep != k.sleep
    case Create(_, _) => k.current != NULL
    case Give(s) => Wakes(k, s)
    case _ => false
  }

  ghost function Step(k: Kernel, op: Op): Kernel {
    SwitchIf(Middle(k, op), Leaves(k, op) || Readies(k, op), Leaves(k, op))
  }

  /**
   When a call is allowed: the idle task never gives up the processor by itself, a
   control block is not in use, ticks do not wrap, and a sleep ends after tick 0 and
   below 2^31.
  */
  ghost predicate Allowed(k: Kernel, op: Op, idle: Task) {
    match op
    case Tick => k.ticks + 1 < 0x8000_0000
    case Create(t, prio) => t != NULL && At(k.state, t) == 0 && 0 <= prio < 256
    case Exit => k.current != idle
    case Delay(n) => k.current != idle && 0 < k.ticks + n < 0x8000_0000
    case Yield => k.current != idle
    case Give(s) => true
    case Take(s, timeout) => Blocks(k, s, timeout) ==> k.current != idle && k.ticks + timeout < 0x8000_0000
    case Reap => true
  }

  /** The kernel after initialisation, with the idle task running. */
  ghost function Booted(idle: Task, value: map<SemId, int>): Kernel {
    Step(Kernel(map[], map[], map[], map[], [], [], [], NULL, 0, value, map[]), Create(idle, MAX_PRIORITY))
  }

  // ----- the invariant -----

  /** Which list a task is on, read off its fields; the running task may be about to leave the processor. */
  ghost predicate Placed(k: Kernel) {
    && (forall t :: t in k.ready <==> At(k.state, t) == T_READY && t != k.current)
    && (forall t :: t in k.sleep <==> At(k.state, t) == T_WAIT && At(k.timeout, t) > 0)
    && (forall t :: t in k.dead <==> At(k.state, t) == T_DEAD)
    && (forall t :: At(k.state, t) == T_RUN ==> t == k.current)
    && (forall t :: At(k.timeout, t) != 0 ==> t in k.sleep)
  }

  ghost predicate Ordered(k: Kernel) {
    && NoDup(k.ready) && NoDup(k.sleep) && NoDup(k.dead)
    && Sorted(k.prio, k.ready) && Sorted(k.timeout, k.sleep)
  }

  ghost predicate Semaphores(k: Kernel) {
    forall s :: At(k.value, s) >= 0 && (At(k.waiter, s) != NULL ==> At(k.value, s) == 0)
  }

  ghost predicate Mid(k: Kernel, idle: Task) {
    && Placed(k) && Ordered(k) && Semaphores(k)
    && k.current != NULL && At(k.state, NULL) == 0
    && (At(k.state, idle) == T_READY || At(k.state, idle) == T_RUN)
    && k.ticks >= 0
  }

  /** No sleeper is overdue. */
  ghost predicate InTime(k: Kernel) {
    forall t :: t in k.sleep ==> At(k.timeout, t) >= k.ticks
  }

  ghost predicate Inv(k: Kernel, idle: Task) {
    Mid(k, idle) && At(k.state, k.current) == T_RUN
  }
}
