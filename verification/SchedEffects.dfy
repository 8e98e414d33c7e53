/**
 What each kernel call does to its caller and to everybody else, read off the
 fields of the kernel.
*/
module SchedEffects {
  import opened Chains
  import opened SchedSpec
  import opened SchedRuns
  import opened SchedSafety
  import opened SchedWaits

  /** The first ready task takes over from one that leaves for good or until it is woken. */
  ghost predicate HandedOver(k: Kernel, k': Kernel) {
    k.ready != [] && k'.current == k.ready[0] && k'.ready == k.ready[1..] && At(k'.state, k'.current) == 2
  }

  /** Nothing but the state of a, of b and of the processor and its queue changes. */
  ghost predicate SameButFor(k: Kernel, k': Kernel, a: Task, b: Task) {
    && k'.prio == k.prio && k'.ticks == k.ticks && k'.value == k.value
    && forall t :: t != a && t != b ==>
      At(k'.state, t) == At(k.state, t) && At(k'.timeout, t) == At(k.timeout, t) && At(k'.retv, t) == At(k.retv, t)
  }

  lemma {:induction false} LeavingHandsOver(k: Kernel, idle: Task)
    requires Mid(k, idle) && k.current != idle && (At(k.state, k.current) == T_WAIT || At(k.state, k.current) == T_DEAD)
    ensures k.ready != [] && k.ready[0] != k.current && Switch(k, true).current == k.ready[0]
      && Switch(k, true).ready == k.ready[1..]
    ensures SwitchIf(k, true, true) == Switch(k, true)
    ensures forall t :: At(Switch(k, true).state, t) == if t == k.ready[0] then 2 else At(k.state, t)
  {
    IdleIsReady(k, idle);
    assert k.ready[0] in k.ready;
  }

  // ----- create -----

  /**
   A new task has the priority it is created with, and every other task its own.  It
   runs at once exactly if it is at least as urgent as the running task and more
   urgent than every ready one, and else it is ready.
  */
  lemma {:induction false} CreateTakesPriority(k: Kernel, t: Task, p: int, idle: Task)
    requires Inv(k, idle) && Allowed(k, Create(t, p), idle)
    ensures var k' := Step(k, Create(t, p));
      && (forall x :: At(k'.prio, x) == if x == t then p else At(k.prio, x))
      && (k'.current == t <==> p <= At(k.prio, k.current) && forall x :: x in k.ready ==> p < At(k.prio, x))
      && (k'.current != t ==> t in k'.ready) && At(k'.timeout, t) == 0
  {
    hide Inv;
    hide Mid;
    hide Middle;
    hide Allowed;
    CreatedIsFirst(k, t, p, idle);
    var k1 := Middle(k, Create(t, p));
    MiddleKeeps(k, Create(t, p), idle);
    SwitchIfKeeps(k1, true, false);
    Wrote(k.prio, k1.prio, t, p);
    if Switches(k1, false) {
      SwitchReady(k1, idle, false);
    }
  }

  lemma {:induction false} CreatedIsFirst(k: Kernel, t: Task, p: int, idle: Task)
    requires Inv(k, idle) && Allowed(k, Create(t, p), idle)
    ensures var k1 := Middle(k, Create(t, p));
      && k1.prio == k.prio[t := p] && k1.current == k.current && t != k.current && t in k1.ready
      && k1.ready != [] && (k1.ready[0] == t <==> forall x :: x in k.ready ==> p < At(k.prio, x))
      && At(k1.timeout, t) == 0 && k.current != NULL
  {
    var key := k.prio[t := p];
    InsertElems(key, k.ready, t);
    assert t !in k.ready;
    if k.ready != [] {
      HeadIsLeast(k.prio, k.ready);
      assert k.ready[0] in k.ready;
    }
  }

  /** No other call changes a priority. */
  lemma {:induction false} PrioritiesStand(k: Kernel, op: Op, idle: Task)
    requires Inv(k, idle) && Allowed(k, op, idle) && !op.Create?
    ensures Step(k, op).prio == k.prio
  {
    hide Inv;
    hide Middle;
    hide Allowed;
    SwitchIfKeeps(Middle(k, op), Leaves(k, op) || Readies(k, op), Leaves(k, op));
    if op.Tick? {
      TickKeeps(k, idle);
    } else {
      StandInMiddle(k, op);
    }
  }

  lemma {:induction false} HandStands(k: Kernel, s: SemId)
    ensures Hand(k, s).prio == k.prio
  {
  }

  lemma {:induction false} BlockStands(k: Kernel, s: SemId, limit: int)
    ensures Block(k, s, limit).prio == k.prio
  {
  }

  lemma {:induction false} StandInMiddle(k: Kernel, op: Op)
    requires !op.Create? && !op.Tick?
    ensures Middle(k, op).prio == k.prio
  {
    hide Hand;
    hide Block;
    hide Insert;
    hide Buried;
    match op
    case Give(s) => HandStands(k, s);
    case Take(s, limit) => BlockStands(k, s, limit);
    case _ =>
  }

  /** In every run, a task has the priority of its last creation. */
  lemma {:induction false} PriorityOfCreation(ks: seq<Kernel>, ops: seq<Op>, idle: Task, t: Task, p: int, j: nat,
                                              i: nat)
    requires Run(ks, ops, idle) && Inv(ks[0], idle) && j < i < |ks| && ops[j] == Create(t, p)
    requires forall n :: j < n < i ==> !(ops[n].Create? && ops[n].t == t)
    ensures At(ks[i].prio, t) == p
    decreases i
  {
    hide Inv;
    hide Step;
    hide Allowed;
    RunKeeps(ks, ops, idle, i - 1);
    StepOf(ks, ops, idle, i - 1);
    if ops[i - 1].Create? {
      CreateTakesPriority(ks[i - 1], ops[i - 1].t, ops[i - 1].prio, idle);
    } else {
      PrioritiesStand(ks[i - 1], ops[i - 1], idle);
    }
    if j < i - 1 {
      PriorityOfCreation(ks, ops, idle, t, p, j, i - 1);
    }
  }

  lemma {:induction false} StepOf(ks: seq<Kernel>, ops: seq<Op>, idle: Task, i: nat)
    requires Run(ks, ops, idle) && i < |ops|
    ensures |ks| == |ops| + 1 && Allowed(ks[i], ops[i], idle) && ks[i + 1] == Step(ks[i], ops[i])
    decreases |ops|
  {
    hide Step;
    hide Allowed;
    if i > 0 {
      StepOf(ks[1..], ops[1..], idle, i - 1);
    }
  }

  // ----- exit and reap -----

  /** A task that exits is dead, and the first ready task runs. */
  lemma {:induction false} ExitBuriesCaller(k: Kernel, idle: Task)
    requires Inv(k, idle) && k.current != idle
    ensures var k' := Step(k, Exit);
      && HandedOver(k, k') && SameButFor(k, k', k.current, k'.current) && k'.sleep == k.sleep && k'.waiter == k.waiter
      && At(k'.state, k.current) == 4 && k'.dead == [k.current] + k.dead
  {
    ExitKeeps(k, idle);
    LeavingHandsOver(Middle(k, Exit), idle);
  }

  /** Reaping empties the dead list and releases the control blocks on it, and changes nothing else. */
  lemma {:induction false} ReapReleases(k: Kernel, idle: Task)
    requires Inv(k, idle)
    ensures var k' := Step(k, Reap);
      && k'.dead == [] && (forall t :: At(k'.state, t) == if t in k.dead then 0 else At(k.state, t))
      && k' == k.(dead := [], state := k'.state)
  {
    BuriedAre(k.state, k.dead);
  }

  // ----- sleeping -----

  /** A delayed task sleeps until n ticks have passed, and the first ready task runs. */
  lemma {:induction false} DelayPutsToSleep(k: Kernel, n: int, idle: Task)
    requires Inv(k, idle) && Allowed(k, Delay(n), idle)
    ensures var k' := Step(k, Delay(n));
      && HandedOver(k, k') && SameButFor(k, k', k.current, k'.current) && k'.dead == k.dead && k'.waiter == k.waiter
      && At(k'.state, k.current) == 3 && At(k'.timeout, k.current) == k.ticks + n
      && forall t :: t in k'.sleep <==> t == k.current || t in k.sleep
  {
    SleepsInMiddle(k, Delay(n), idle, n);
    DelayKeeps(k, idle, n);
    LeavingHandsOver(Middle(k, Delay(n)), idle);
  }

  /** A yield puts the task among the ready ones, and the first of them runs. */
  lemma {:induction false} YieldHandsOver(k: Kernel, idle: Task)
    requires Inv(k, idle) && k.current != idle
    ensures var k' := Step(k, Yield);
      && k.ready != [] && k'.current == k.ready[0] && SameButFor(k, k', k.current, k'.current)
      && k'.sleep == k.sleep && k'.dead == k.dead && k'.waiter == k.waiter && At(k'.state, k.current) == 1
      && forall t :: t in k'.ready <==> t == k.current || (t in k.ready && t != k'.current)
  {
    YieldKeeps(k, idle);
    IdleIsReady(k, idle);
    hide Inv;
    hide Mid;
    hide Insert;
    hide Without;
    SwitchReady(Middle(k, Yield), idle, true);
  }

  // ----- semaphores -----

  /** A give that finds no waiter recorded makes the value one larger, and nothing else. */
  lemma {:induction false} GiveGrowsValue(k: Kernel, s: SemId)
    requires At(k.waiter, s) == NULL
    ensures var k' := Step(k, Give(s));
      && (forall x :: At(k'.value, x) == At(k.value, x) + if x == s then 1 else 0)
      && (forall x :: At(k'.waiter, x) == At(k.waiter, x)) && k' == k.(value := k'.value, waiter := k'.waiter)
  {
  }

  /**
   A give that finds a waiting waiter recorded ends its wait with success and no
   longer records it, and nothing else; the waiter runs at once exactly if it is at
   least as urgent as the running task and more urgent than every ready one.
  */
  lemma {:induction false} GiveReleasesWaiter(k: Kernel, s: SemId, idle: Task)
    requires Inv(k, idle) && At(k.waiter, s) != NULL && At(k.state, At(k.waiter, s)) == 3
    ensures var k', t := Step(k, Give(s)), At(k.waiter, s);
      && (k'.current == t <==>
           At(k.prio, t) <= At(k.prio, k.current) && forall x :: x in k.ready ==> At(k.prio, t) < At(k.prio, x))
      && (k'.current != t ==> t in k'.ready)
      && k'.prio == k.prio && k'.value == k.value && k'.dead == k.dead && k'.ticks == k.ticks
      && At(k'.retv, t) == 0 && At(k'.timeout, t) == 0
      && (forall x :: At(k'.waiter, x) == if x == s then 0 else At(k.waiter, x))
      && (forall x :: x in k'.sleep <==> x in k.sleep && x != t)
  {
    hide Inv;
    hide Mid;
    hide Middle;
    ReleasedIsFirst(k, s, idle);
    var k1 := Middle(k, Give(s));
    MiddleKeeps(k, Give(s), idle);
    SwitchIfKeeps(k1, true, false);
    SwitchLeavesDead(k1, true, false);
    if Switches(k1, false) {
      SwitchReady(k1, idle, false);
    }
  }

  lemma {:induction false} SwitchLeavesDead(k: Kernel, wanted: bool, self: bool)
    ensures SwitchIf(k, wanted, self).dead == k.dead
  {
  }

  lemma {:induction false} ReleasedIsFirst(k: Kernel, s: SemId, idle: Task)
    requires Inv(k, idle) && At(k.waiter, s) != NULL && At(k.state, At(k.waiter, s)) == 3
    ensures var k1, t := Middle(k, Give(s)), At(k.waiter, s);
      && k1.current == k.current && t != k.current && t in k1.ready && k1.ready != []
      && (k1.ready[0] == t <==> forall x :: x in k.ready ==> At(k.prio, t) < At(k.prio, x))
      && k1.prio == k.prio && k1.value == k.value && k1.dead == k.dead && k1.ticks == k.ticks
      && At(k1.retv, t) == 0 && At(k1.timeout, t) == 0
      && (forall x :: At(k1.waiter, x) == if x == s then 0 else At(k.waiter, x))
      && (forall x :: x in k1.sleep <==> x in k.sleep && x != t)
  {
    HandReleases(k, s, idle);
    FirstOfReady(k, idle, At(k.waiter, s));
    hide Inv;
    hide Hand;
    hide Insert;
  }

  lemma {:induction false} FirstOfReady(k: Kernel, idle: Task, t: Task)
    requires Inv(k, idle) && At(k.state, t) == 3
    ensures var l := Insert(k.prio, k.ready, t);
      t != k.current && t in l && l != [] && (l[0] == t <==> forall x :: x in k.ready ==> At(k.prio, t) < At(k.prio, x))
  {
    InsertElems(k.prio, k.ready, t);
    assert t !in k.ready;
    if k.ready != [] {
      HeadIsLeast(k.prio, k.ready);
      assert k.ready[0] in k.ready;
    }
  }

  lemma {:induction false} HandReleases(k: Kernel, s: SemId, idle: Task)
    requires Inv(k, idle) && At(k.waiter, s) != NULL
    ensures var k1, t := Hand(k, s), At(k.waiter, s);
      && k1.current == k.current && k1.ready == k.ready && k1.prio == k.prio && k1.value == k.value && k1.dead == k.dead
      && k1.ticks == k.ticks && At(k1.retv, t) == 0 && At(k1.timeout, t) == 0 && k1.state == k.state
      && (forall x :: At(k1.waiter, x) == if x == s then 0 else At(k.waiter, x))
      && (forall x :: x in k1.sleep <==> x in k.sleep && x != t)
  {
    var t := At(k.waiter, s);
    WithoutElems(k.sleep, t);
    Wrote(k.waiter, k.waiter[s := NULL], s, NULL);
  }

  /** A take that finds a token makes the value one smaller, and nothing else. */
  lemma {:induction false} TakeShrinksValue(k: Kernel, s: SemId, limit: int)
    requires At(k.value, s) != 0
    ensures var k' := Step(k, Take(s, limit));
      && (forall x :: At(k'.value, x) == At(k.value, x) - if x == s then 1 else 0) && k' == k.(value := k'.value)
  {
  }

  /** A take without a token and without time changes nothing. */
  lemma {:induction false} TakeGivesUp(k: Kernel, s: SemId)
    requires At(k.value, s) == 0
    ensures Step(k, Take(s, 0)) == k
  {
  }

  /**
   Any other take waits: its task is recorded by the semaphore, sleeps if there is a
   limit, and the first ready task runs.
  */
  lemma {:induction false} TakeWaits(k: Kernel, s: SemId, limit: int, idle: Task)
    requires Inv(k, idle) && Allowed(k, Take(s, limit), idle) && At(k.value, s) == 0 && limit != 0
    ensures var k' := Step(k, Take(s, limit));
      && HandedOver(k, k') && SameButFor(k, k', k.current, k'.current) && k'.dead == k.dead
      && At(k'.state, k.current) == 3 && At(k'.timeout, k.current) == (if limit > 0 then k.ticks + limit else 0)
      && (forall x :: At(k'.waiter, x) == if x == s then k.current else At(k.waiter, x))
      && (forall t :: t in k'.sleep <==> (t == k.current && limit > 0) || t in k.sleep)
      && (limit > 0 ==> At(k'.retv, k.current) == -1)
  {
    TakeKeeps(k, idle, s, limit);
    WaitsInBlock(k, s, limit, idle);
    LeavingHandsOver(Middle(k, Take(s, limit)), idle);
  }

  lemma {:induction false} WaitsInBlock(k: Kernel, s: SemId, limit: int, idle: Task)
    requires Inv(k, idle) && Allowed(k, Take(s, limit), idle) && At(k.value, s) == 0 && limit != 0
    ensures var k1 := Middle(k, Take(s, limit));
      && k1.ready == k.ready && k1.current == k.current && k1.dead == k.dead && SameButFor(k, k1, k.current, k.current)
      && At(k1.state, k.current) == 3 && At(k1.timeout, k.current) == (if limit > 0 then k.ticks + limit else 0)
      && (forall x :: At(k1.waiter, x) == if x == s then k.current else At(k.waiter, x))
      && (forall t :: t in k1.sleep <==> (t == k.current && limit > 0) || t in k.sleep)
      && (limit > 0 ==> At(k1.retv, k.current) == -1)
  {
    hide Insert;
    Recorded(k, s);
    if limit > 0 {
      SleepsInMiddle(k, Take(s, limit), idle, limit);
      AsleepAside(Record(k, s), Until(k.ticks, limit));
    }
  }

  lemma {:induction false} AsleepAside(k: Kernel, until: int)
    ensures var k1 := FallAsleep(k, until);
      SameButFor(k, k1, k.current, k.current) && k1.ready == k.ready && k1.dead == k.dead && k1.waiter == k.waiter
  {
    hide Insert;
  }

  lemma {:induction false} Recorded(k: Kernel, s: SemId)
    ensures var k1 := Record(k, s);
      && SameButFor(k, k1, k.current, k.current) && At(k1.state, k.current) == 3 && At(k1.timeout, k.current) == 0
      && forall x :: At(k1.waiter, x) == if x == s then k.current else At(k.waiter, x)
  {
  }

  /**
   A take that waits with a limit of n ticks, like a delay, sleeps until the n-th
   later tick and is ready or running after it, in every run in which no give reaches it.
  */
  lemma {:induction false} TakeIsExact(k: Kernel, s: SemId, n: int, ks: seq<Kernel>, ops: seq<Op>, idle: Task, i: nat)
    requires Inv(k, idle) && Allowed(k, Take(s, n), idle) && At(k.value, s) == 0 && n >= 1
    requires ks != [] && ks[0] == Step(k, Take(s, n))
    requires Run(ks, ops, idle) && NeverReached(ks, ops, k.current) && i < |ks|
    ensures Ticks(ops[..i]) < n ==> k.current in ks[i].sleep
    ensures i < |ops| && ops[i].Tick? && Ticks(ops[..i]) == n - 1 ==>
      k.current !in ks[i + 1].sleep && (k.current in ks[i + 1].ready || k.current == ks[i + 1].current)
  {
    StepKeeps(k, Take(s, n), idle);
    TakeWaits(k, s, n, idle);
    SwitchIfKeeps(Middle(k, Take(s, n)), true, true);
    if Ticks(ops[..i]) < n {
      Sleeps(ks, ops, idle, k.current, i);
      if i < |ops| {
        RunAt(ks, ops, idle, k.current, i);
        if ops[i].Tick? {
          SleeperStep(ks[i], ops[i], idle, k.current);
        }
      }
    }
  }

  // ----- tick -----

  /** A tick that wakes nobody moves the clock and nothing else: tasks of one priority get no time slices. */
  lemma {:induction false} TickAlone(k: Kernel, idle: Task)
    requires Inv(k, idle) && forall t :: t in k.sleep ==> At(k.timeout, t) > k.ticks + 1
    ensures Step(k, Tick) == k.(ticks := k.ticks + 1)
  {
    hide Wake;
    ClockedIs(k, idle);
    WakeOpens(Clocked(k), idle);
    assert k.sleep != [] ==> k.sleep[0] in k.sleep;
    assert Middle(k, Tick) == Clocked(k);
  }

  /**
   After a tick that wakes somebody, the running task is either the same and more urgent than
   every ready one, or another, at least as urgent as it and as every ready one.
  */
  lemma {:induction false} TickHandsOver(k: Kernel, idle: Task, woken: Task)
    requires Inv(k, idle) && woken in k.sleep && At(k.timeout, woken) <= k.ticks + 1
    ensures var k' := Step(k, Tick);
      if k'.current == k.current then forall t :: t in k'.ready ==> At(k.prio, k.current) < At(k.prio, t)
      else
        At(k.prio, k'.current) <= At(k.prio, k.current) &&
        forall t :: t in k'.ready ==> At(k.prio, k'.current) <= At(k.prio, t)
  {
    hide Wake;
    hide Mid;
    var k1 := Middle(k, Tick);
    TickKeeps(k, idle);
    assert woken !in k1.sleep && woken in k1.ready;
    SwitchedUrgent(k1, idle);
    assert Step(k, Tick) == Switch(k1, false);
  }

  lemma {:induction false} SwitchedUrgent(k: Kernel, idle: Task)
    requires Mid(k, idle) && At(k.state, k.current) == T_RUN && k.ready != []
    ensures var k' := Switch(k, false);
      if k'.current == k.current then forall t :: t in k'.ready ==> At(k.prio, k.current) < At(k.prio, t)
      else
        At(k.prio, k'.current) <= At(k.prio, k.current) &&
        forall t :: t in k'.ready ==> At(k.prio, k'.current) <= At(k.prio, t)
  {
    HeadIsLeast(k.prio, k.ready);
    if Switches(k, false) {
      SwitchReady(k, idle, false);
    }
  }

  // ----- boot -----

  /** After initialisation the idle task runs, with priority 8, and there is no other. */
  lemma {:induction false} BootedIs(idle: Task, value: map<SemId, int>)
    ensures var k := Booted(idle, value);
      && k.current == idle && At(k.prio, idle) == 8 && At(k.state, idle) == 2 && k.ticks == 0 && k.value == value
      && k.ready == [] && k.sleep == [] && k.dead == [] && forall t :: t != idle ==> At(k.state, t) == 0
  {
  }
}
