/**
 What every run of the scheduler keeps, and what its clients may rely on.
*/
module SchedRuns {
  import opened Chains
  import opened SchedSpec

  // ----- the parts of a step keep the invariant -----

  lemma {:induction false} MakeReadyPlaces(k: Kernel, t: Task)
    requires Placed(k) && t != k.current && t !in k.sleep
    requires At(k.state, t) == 0 || At(k.state, t) == T_WAIT
    ensures Placed(MakeReady(k, t))
  {
    InsertElems(k.prio, k.ready, t);
  }

  lemma {:induction false} MakeReadyKeeps(k: Kernel, idle: Task, t: Task)
    requires Mid(k, idle) && t != k.current && t != NULL && t !in k.sleep
    requires At(k.state, t) == 0 || At(k.state, t) == T_WAIT
    ensures Mid(MakeReady(k, t), idle)
    ensures forall x :: x in MakeReady(k, t).ready <==> x == t || x in k.ready
  {
    assert t !in k.ready;
    MakeReadyPlaces(k, t);
    InsertKeeps(k.prio, k.ready, t);
    InsertElems(k.prio, k.ready, t);
  }

  /** The switch to `high` is made. */
  ghost predicate Switches(k: Kernel, self: bool) {
    k.ready != [] && (self || At(k.prio, k.current) >= At(k.prio, k.ready[0]))
  }

  /** The ready list after the switch. */
  lemma {:induction false} SwitchReady(k: Kernel, idle: Task, self: bool)
    requires Mid(k, idle) && Switches(k, self)
    ensures var high := k.ready[0];
      var back := At(k.state, k.current) == T_RUN || At(k.state, k.current) == T_READY;
      var k' := Switch(k, self);
      && NoDup(k'.ready) && Sorted(k.prio, k'.ready)
      && (forall t :: t in k'.ready <==> (t in k.ready && t != high) || (back && t == k.current))
      && high != k.current
  {
    hide NoDup;
    hide Sorted;
    hide Insert;
    var high := k.ready[0];
    assert high in k.ready;
    var back := At(k.state, k.current) == T_RUN || At(k.state, k.current) == T_READY;
    var l := if back then Insert(k.prio, k.ready, k.current) else k.ready;
    InsertKeeps(k.prio, k.ready, k.current);
    InsertElems(k.prio, k.ready, k.current);
    WithoutElems(l, high);
    WithoutSorted(k.prio, l, high);
  }

  lemma {:induction false} SwitchPlaces(k: Kernel, high: Task, back: bool, ready: seq<Task>, state: map<Task, int>)
    requires Placed(k) && high in k.ready
    requires back <==> At(k.state, k.current) == T_RUN || At(k.state, k.current) == T_READY
    requires state ==
      (if At(k.state, k.current) == T_RUN then k.state[k.current := T_READY] else k.state)[high := T_RUN]
    requires forall t :: t in ready <==> (t in k.ready && t != high) || (back && t == k.current)
    ensures Placed(k.(state := state, ready := ready, current := high))
  {
  }

  lemma {:induction false} SwitchKeeps(k: Kernel, idle: Task, self: bool)
    requires Mid(k, idle) && k.ready != []
    requires self || At(k.state, k.current) == T_RUN
    ensures Mid(Switch(k, self), idle) && At(Switch(k, self).state, Switch(k, self).current) == T_RUN
  {
    if Switches(k, self) {
      SwitchReady(k, idle, self);
      assert k.ready[0] in k.ready;
      var back := At(k.state, k.current) == T_RUN || At(k.state, k.current) == T_READY;
      SwitchPlaces(k, k.ready[0], back, Switch(k, self).ready, Switch(k, self).state);
    }
  }

  /** The first sleeper is taken off the sleep list. */
  ghost function Unsleep(k: Kernel): Kernel
    requires k.sleep != []
  {
    k.(sleep := k.sleep[1..], timeout := k.timeout[k.sleep[0] := 0])
  }

  lemma {:induction false} UnsleepPlaces(k: Kernel)
    requires Placed(k) && k.sleep != [] && NoDup(k.sleep)
    ensures Placed(Unsleep(k)) && k.sleep[0] in k.sleep
    ensures forall x :: x in k.sleep <==> x == k.sleep[0] || x in k.sleep[1..]
  {
    hide Placed;
    HeadAndRest(k.sleep);
    Wrote(k.timeout, k.timeout[k.sleep[0] := 0], k.sleep[0], 0);
    LessOnePlaced(k, k.sleep[0], k.sleep[1..], k.timeout[k.sleep[0] := 0]);
  }

  lemma {:induction false} HeadAndRest(l: seq<Task>)
    requires l != []
    ensures l[0] in l && forall x :: x in l <==> x == l[0] || x in l[1..]
  {
  }

  lemma {:induction false} LessOnePlaced(k: Kernel, t: Task, rest: seq<Task>, timeout: map<Task, int>)
    requires Placed(k) && t !in rest && forall x :: x in k.sleep <==> x == t || x in rest
    requires forall x :: At(timeout, x) == if x == t then 0 else At(k.timeout, x)
    ensures Placed(k.(sleep := rest, timeout := timeout))
  {
  }

  lemma {:induction false} UnsleepKeeps(k: Kernel, idle: Task)
    requires Mid(k, idle) && k.sleep != []
    ensures Mid(Unsleep(k), idle)
    ensures At(k.state, k.sleep[0]) == T_WAIT && k.sleep[0] != NULL
  {
    UnsleepPlaces(k);
    SortedAgree(k.timeout, Unsleep(k).timeout, k.sleep[1..]);
  }

  /** Exactly the sleepers whose time has come are ready now; nothing else changed. */
  ghost predicate WakesTo(k: Kernel, k': Kernel) {
    && (forall t :: t in k'.sleep <==> t in k.sleep && At(k.timeout, t) > k.ticks)
    && (forall t :: t in k'.sleep ==> At(k'.timeout, t) == At(k.timeout, t))
    && (forall t :: t in k'.ready <==> t in k.ready || (t in k.sleep && At(k.timeout, t) <= k.ticks))
    && (forall t :: t !in k.sleep || At(k.timeout, t) > k.ticks ==> At(k'.state, t) == At(k.state, t))
    && k'.current == k.current && k'.ticks == k.ticks && k'.prio == k.prio
    && k'.value == k.value && k'.waiter == k.waiter && k'.retv == k.retv && k'.dead == k.dead
  }

  /** One round of the loop of a tick. */
  ghost function WakeFirst(k: Kernel): Kernel
    requires k.sleep != []
  {
    MakeReady(Unsleep(k), k.sleep[0])
  }

  ghost predicate WakesFirst(k: Kernel, k1: Kernel) {
    && k.sleep != []
    && (forall t :: t in k.sleep <==> t == k.sleep[0] || t in k1.sleep) && k.sleep[0] !in k1.sleep
    && (forall t :: t in k1.sleep ==> At(k1.timeout, t) == At(k.timeout, t))
    && (forall t :: t in k1.ready <==> t == k.sleep[0] || t in k.ready)
    && (forall t :: t != k.sleep[0] ==> At(k1.state, t) == At(k.state, t))
    && k1.current == k.current && k1.ticks == k.ticks && k1.prio == k.prio
    && k1.value == k.value && k1.waiter == k.waiter && k1.retv == k.retv && k1.dead == k.dead
  }

  lemma {:induction false} FirstWakes(k: Kernel, idle: Task)
    requires Mid(k, idle) && At(k.state, k.current) == T_RUN && k.sleep != []
    ensures Mid(WakeFirst(k), idle) && At(WakeFirst(k).state, k.current) == T_RUN && WakesFirst(k, WakeFirst(k))
  {
    UnsleepPlaces(k);
    UnsleepKeeps(k, idle);
    Wrote(k.timeout, Unsleep(k).timeout, k.sleep[0], 0);
    MakeReadyKeeps(Unsleep(k), idle, k.sleep[0]);
    Wrote(k.state, WakeFirst(k).state, k.sleep[0], T_READY);
  }

  lemma {:induction false} ThenTheRest(k: Kernel, k1: Kernel, k': Kernel)
    requires WakesFirst(k, k1) && At(k.timeout, k.sleep[0]) <= k.ticks && WakesTo(k1, k')
    ensures WakesTo(k, k')
  {
  }

  /** One round of the wake loop, with the times of sleepers as they are in order. */
  lemma {:induction false} WakeOpens(k: Kernel, idle: Task)
    requires Mid(k, idle)
    ensures Wake(k) == if k.sleep != [] && At(k.timeout, k.sleep[0]) <= k.ticks then Wake(WakeFirst(k)) else k
  {
    assert k.sleep != [] ==> k.sleep[0] in k.sleep;
  }

  lemma {:induction false} WakeKeeps(k: Kernel, idle: Task)
    requires Mid(k, idle) && At(k.state, k.current) == T_RUN
    ensures Mid(Wake(k), idle) && At(Wake(k).state, k.current) == T_RUN && WakesTo(k, Wake(k))
    decreases |k.sleep|
  {
    hide Wake;
    hide Mid;
    hide WakesTo;
    hide WakesFirst;
    WakeOpens(k, idle);
    if k.sleep != [] && At(k.timeout, k.sleep[0]) <= k.ticks {
      FirstWakes(k, idle);
      WakeKeeps(WakeFirst(k), idle);
      ThenTheRest(k, WakeFirst(k), Wake(WakeFirst(k)));
    } else {
      NoneToWake(k, idle);
    }
  }

  lemma {:induction false} NoneToWake(k: Kernel, idle: Task)
    requires Mid(k, idle) && (k.sleep != [] ==> k.ticks < At(k.timeout, k.sleep[0]))
    ensures WakesTo(k, k)
  {
    LateSleepers(k.timeout, k.sleep, k.ticks);
  }

  lemma {:induction false} LateSleepers(timeout: map<Task, int>, l: seq<Task>, ticks: int)
    requires Sorted(timeout, l) && (l != [] ==> ticks < At(timeout, l[0]))
    ensures forall t :: t in l ==> ticks < At(timeout, t)
  {
    assert forall t :: t in l ==> t == l[0] || t in l[1..];
  }

  // ----- every step keeps the invariant -----

  /** The kernel before the switch that ends a call in which the running task leaves, or stays. */
  ghost predicate BeforeSwitch(k: Kernel, idle: Task, leaves: bool) {
    && Mid(k, idle)
    && if leaves then k.current != idle && At(k.state, k.current) != T_RUN else At(k.state, k.current) == T_RUN
  }

  /** A task other than the idle task that leaves the processor finds a ready one. */
  lemma {:induction false} IdleIsReady(k: Kernel, idle: Task)
    requires Mid(k, idle) && k.current != idle
    ensures idle in k.ready && k.ready != []
  {
    assert At(k.state, idle) == T_READY;
  }

  lemma {:induction false} SwitchEnds(k: Kernel, idle: Task, wanted: bool, self: bool)
    requires BeforeSwitch(k, idle, self) && (self ==> wanted)
    ensures Inv(SwitchIf(k, wanted, self), idle) && (self ==> k.ready != [])
  {
    if self {
      IdleIsReady(k, idle);
    }
    if wanted && k.ready != [] {
      SwitchKeeps(k, idle, self);
    }
  }

  ghost function Clocked(k: Kernel): Kernel {
    k.(ticks := k.ticks + 1)
  }

  lemma {:induction false} ClockedIs(k: Kernel, idle: Task)
    requires Inv(k, idle)
    ensures Mid(Clocked(k), idle) && At(k.state, k.current) == T_RUN
  {
  }

  /** The sleepers whose time has come at the next tick wake. */
  lemma {:induction false} TickKeeps(k: Kernel, idle: Task)
    requires Inv(k, idle)
    ensures BeforeSwitch(Middle(k, Tick), idle, false) && WakesTo(Clocked(k), Middle(k, Tick))
  {
    hide Inv;
    hide Mid;
    hide Wake;
    hide WakesTo;
    ClockedIs(k, idle);
    WakeKeeps(Clocked(k), idle);
    WokenRuns(Clocked(k), Wake(Clocked(k)));
  }

  lemma {:induction false} WokenRuns(k: Kernel, k1: Kernel)
    requires WakesTo(k, k1)
    ensures InTime(k1) && k1.current == k.current
  {
  }

  lemma {:induction false} FreshKeeps(k: Kernel, idle: Task, t: Task, prio: int)
    requires Inv(k, idle) && t != NULL && At(k.state, t) == 0
    ensures Inv(Fresh(k, t, prio), idle)
  {
    assert t !in k.ready && t !in k.sleep;
    SortedAgree(k.prio, k.prio[t := prio], k.ready);
    SortedAgree(k.timeout, k.timeout[t := 0], k.sleep);
  }

  lemma {:induction false} ReadyKeeps(k: Kernel, idle: Task, t: Task)
    requires Inv(k, idle) && t != NULL && t != k.current && t !in k.sleep
    requires At(k.state, t) == 0 || At(k.state, t) == T_WAIT
    ensures BeforeSwitch(MakeReady(k, t), idle, false)
  {
    MakeReadyKeeps(k, idle, t);
  }

  lemma {:induction false} CreateKeeps(k: Kernel, idle: Task, t: Task, prio: int)
    requires Inv(k, idle) && t != NULL && At(k.state, t) == 0
    ensures BeforeSwitch(Middle(k, Create(t, prio)), idle, false)
  {
    FreshKeeps(k, idle, t, prio);
    ReadyKeeps(Fresh(k, t, prio), idle, t);
  }

  lemma {:induction false} ExitKeeps(k: Kernel, idle: Task)
    requires Inv(k, idle) && k.current != idle
    ensures BeforeSwitch(Middle(k, Exit), idle, true)
  {
    var k1 := Middle(k, Exit);
    assert k.current !in k.dead && k1.dead[1..] == k.dead;
    Wrote(k.state, k1.state, k.current, T_DEAD);
    assert Placed(k1);
  }

  lemma {:induction false} FallAsleepKeeps(k: Kernel, idle: Task, until: int)
    requires Mid(k, idle) && k.current != idle && k.current !in k.sleep && At(k.state, k.current) != T_DEAD
    requires 0 < until
    ensures BeforeSwitch(FallAsleep(k, until), idle, true)
  {
    var timeout := k.timeout[k.current := until];
    SortedAgree(k.timeout, timeout, k.sleep);
    InsertKeeps(timeout, k.sleep, k.current);
    FallAsleepPlaces(k, until);
  }

  lemma {:induction false} FallAsleepPlaces(k: Kernel, until: int)
    requires Placed(k) && k.current !in k.sleep && At(k.state, k.current) != T_DEAD && 0 < until
    ensures Placed(FallAsleep(k, until))
  {
    var timeout := k.timeout[k.current := until];
    InsertElems(timeout, k.sleep, k.current);
    Wrote(k.state, FallAsleep(k, until).state, k.current, T_WAIT);
    Wrote(k.timeout, timeout, k.current, until);
  }

  lemma {:induction false} YieldKeeps(k: Kernel, idle: Task)
    requires Inv(k, idle) && k.current != idle
    ensures BeforeSwitch(Middle(k, Yield), idle, true)
  {
    var k1 := Middle(k, Yield);
    Wrote(k.state, k1.state, k.current, T_READY);
    assert Placed(k1);
  }

  /** A task leaves the sleep list before its time. */
  lemma {:induction false} TakenOffKeeps(k: Kernel, idle: Task, t: Task)
    requires Inv(k, idle)
    ensures var k' := k.(sleep := Without(k.sleep, t), timeout := k.timeout[t := 0]);
      Inv(k', idle) && (forall x :: x in k'.sleep <==> x in k.sleep && x != t)
  {
    var timeout := k.timeout[t := 0];
    WithoutElems(k.sleep, t);
    WithoutSorted(k.timeout, k.sleep, t);
    Wrote(k.timeout, timeout, t, 0);
    SortedAgree(k.timeout, timeout, Without(k.sleep, t));
  }

  /** The semaphore's record of its waiter is cleared. */
  lemma {:induction false} ClearKeeps(k: Kernel, idle: Task, s: SemId, v: int)
    requires Inv(k, idle) && v >= At(k.value, s)
    ensures Inv(k.(waiter := k.waiter[s := NULL], value := k.value[s := v]), idle)
  {
    var k' := k.(waiter := k.waiter[s := NULL], value := k.value[s := v]);
    Wrote(k.waiter, k'.waiter, s, NULL);
    Wrote(k.value, k'.value, s, v);
    assert Semaphores(k');
  }

  lemma {:induction false} HandOverKeeps(k: Kernel, idle: Task, s: SemId, t: Task)
    requires Inv(k, idle) && t == At(k.waiter, s) != NULL
    ensures Inv(Hand(k, s), idle) && t !in Hand(k, s).sleep
  {
    var k1 := k.(waiter := k.waiter[s := NULL], retv := k.retv[t := 0]);
    Wrote(k.waiter, k1.waiter, s, NULL);
    assert Semaphores(k1);
    if At(k.timeout, t) > 0 {
      TakenOffKeeps(k1, idle, t);
    }
  }

  lemma {:induction false} GiveKeeps(k: Kernel, idle: Task, s: SemId)
    requires Inv(k, idle)
    ensures BeforeSwitch(Middle(k, Give(s)), idle, false)
  {
    hide Inv;
    var t := At(k.waiter, s);
    if t == NULL {
      ClearKeeps(k, idle, s, At(k.value, s) + 1);
    } else {
      HandOverKeeps(k, idle, s, t);
      if Wakes(k, s) {
        ReadyKeeps(Hand(k, s), idle, t);
      }
    }
  }

  lemma {:induction false} RecordKeeps(k: Kernel, idle: Task, s: SemId)
    requires Inv(k, idle) && k.current != idle && At(k.value, s) == 0
    ensures BeforeSwitch(Record(k, s), idle, true) && k.current !in k.sleep
      && At(Record(k, s).state, k.current) == T_WAIT
    ensures 0 <= k.ticks == Record(k, s).ticks && Record(k, s).current == k.current
  {
    var k1 := Record(k, s);
    Wrote(k.state, k1.state, k.current, T_WAIT);
    Wrote(k.timeout, k1.timeout, k.current, 0);
    assert k.current !in k.sleep;
    SortedAgree(k.timeout, k1.timeout, k.sleep);
    assert Placed(k1);
  }

  lemma {:induction false} SleepingTakeKeeps(k: Kernel, idle: Task, until: int, retv: map<Task, int>)
    requires BeforeSwitch(k, idle, true) && k.current !in k.sleep && At(k.state, k.current) == T_WAIT
    requires 0 < until
    ensures BeforeSwitch(FallAsleep(k, until).(retv := retv), idle, true)
  {
    FallAsleepKeeps(k, idle, until);
  }

  lemma {:induction false} PassingTakeKeeps(k: Kernel, idle: Task, s: SemId, timeout: int)
    requires Inv(k, idle) && !Blocks(k, s, timeout)
    ensures BeforeSwitch(Middle(k, Take(s, timeout)), idle, false)
  {
    var k' := Middle(k, Take(s, timeout));
    if At(k.value, s) != 0 {
      Wrote(k.value, k'.value, s, At(k.value, s) - 1);
    }
    assert Semaphores(k');
  }

  lemma {:induction false} TakeKeeps(k: Kernel, idle: Task, s: SemId, timeout: int)
    requires Inv(k, idle) && Allowed(k, Take(s, timeout), idle)
    ensures BeforeSwitch(Middle(k, Take(s, timeout)), idle, Blocks(k, s, timeout))
  {
    hide Inv;
    hide BeforeSwitch;
    if Blocks(k, s, timeout) {
      RecordKeeps(k, idle, s);
      if timeout > 0 {
        SleepingTakeKeeps(Record(k, s), idle, Until(k.ticks, timeout), k.retv[k.current := -1]);
      }
    } else {
      PassingTakeKeeps(k, idle, s, timeout);
    }
  }

  lemma {:induction false} DelayKeeps(k: Kernel, idle: Task, n: int)
    requires Inv(k, idle) && Allowed(k, Delay(n), idle)
    ensures BeforeSwitch(Middle(k, Delay(n)), idle, true)
  {
    hide Inv;
    hide Mid;
    hide BeforeSwitch;
    hide FallAsleep;
    RunnerIsAwake(k, idle);
    FallAsleepKeeps(k, idle, Until(k.ticks, n));
  }

  lemma {:induction false} RunnerIsAwake(k: Kernel, idle: Task)
    requires Inv(k, idle)
    ensures Mid(k, idle) && k.current !in k.sleep && At(k.state, k.current) != T_DEAD
  {
  }

  lemma {:induction false} MiddleKeeps(k: Kernel, op: Op, idle: Task)
    requires Inv(k, idle) && Allowed(k, op, idle)
    ensures BeforeSwitch(Middle(k, op), idle, Leaves(k, op))
  {
    if op.Tick? {
      TickKeeps(k, idle);
    } else if op.Create? {
      CreateKeeps(k, idle, op.t, op.prio);
    } else if op.Exit? {
      ExitKeeps(k, idle);
    } else if op.Delay? {
      DelayKeeps(k, idle, op.n);
    } else if op.Yield? {
      YieldKeeps(k, idle);
    } else if op.Give? {
      GiveKeeps(k, idle, op.s);
    } else if op.Take? {
      TakeKeeps(k, idle, op.s, op.timeout);
    } else {
      ReapKeeps(k, idle);
    }
  }

  lemma {:induction false} ReapKeeps(k: Kernel, idle: Task)
    requires Inv(k, idle)
    ensures BeforeSwitch(Middle(k, Reap), idle, false)
  {
    BuriedAre(k.state, k.dead);
    hide Buried;
  }

  lemma {:induction false} StepKeeps(k: Kernel, op: Op, idle: Task)
    requires Inv(k, idle) && Allowed(k, op, idle)
    ensures Inv(Step(k, op), idle)
  {
    MiddleKeeps(k, op, idle);
    SwitchEnds(Middle(k, op), idle, Leaves(k, op) || Readies(k, op), Leaves(k, op));
  }
}
