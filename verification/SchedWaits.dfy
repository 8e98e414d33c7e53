/**
 Waiting: how long a delayed task sleeps, and what becomes of the tokens of a
 semaphore.
*/
module SchedWaits {
  import opened Chains
  import opened SchedSpec
  import opened SchedRuns
  import opened SchedSafety

  // ----- sleeping -----

  /** A switch leaves the sleep list and its times alone. */
  lemma {:induction false} SwitchIfKeeps(k: Kernel, wanted: bool, self: bool)
    ensures var k' := SwitchIf(k, wanted, self);
      && k'.sleep == k.sleep && k'.timeout == k.timeout && k'.ticks == k.ticks
      && k'.value == k.value && k'.waiter == k.waiter && k'.retv == k.retv && k'.prio == k.prio
  {
  }

  /** The give op reaches t through a semaphore that has it recorded. */
  ghost predicate Reaches(k: Kernel, op: Op, t: Task) {
    op.Give? && At(k.waiter, op.s) == t
  }

  /** Nothing happens to t before the switch. */
  ghost predicate Untouched(k: Kernel, k1: Kernel, t: Task) {
    && At(k1.state, t) == At(k.state, t) && At(k1.timeout, t) == At(k.timeout, t) && At(k1.retv, t) == At(k.retv, t)
    && (t in k1.sleep <==> t in k.sleep) && (t in k1.ready <==> t in k.ready) && k1.current == k.current
  }

  lemma {:induction false} UntouchedByHand(k: Kernel, s: SemId, t: Task)
    requires NoDup(k.sleep) && At(k.waiter, s) != t
    ensures Untouched(k, Hand(k, s), t)
  {
    WithoutElems(k.sleep, At(k.waiter, s));
  }

  lemma {:induction false} UntouchedByGive(k: Kernel, s: SemId, t: Task)
    requires NoDup(k.sleep) && At(k.waiter, s) != t
    ensures Untouched(k, Middle(k, Give(s)), t)
  {
    UntouchedByHand(k, s, t);
    if Wakes(k, s) {
      InsertElems(k.prio, k.ready, At(k.waiter, s));
    }
  }

  lemma {:induction false} UntouchedBySleep(k: Kernel, until: int, t: Task)
    requires t != k.current
    ensures Untouched(k, FallAsleep(k, until), t)
  {
    InsertElems(k.timeout[k.current := until], k.sleep, k.current);
  }

  lemma {:induction false} UntouchedByTake(k: Kernel, s: SemId, timeout: int, t: Task)
    requires t != k.current
    ensures Untouched(k, Middle(k, Take(s, timeout)), t)
  {
    if Blocks(k, s, timeout) && timeout > 0 {
      UntouchedBySleep(Record(k, s), Until(k.ticks, timeout), t);
    }
  }

  /** A call other than a tick, by another task, not about t, does nothing to t. */
  lemma {:induction false} Bystander(k: Kernel, op: Op, idle: Task, t: Task)
    requires Inv(k, idle) && Allowed(k, op, idle) && !op.Tick? && !Reaches(k, op, t) && t != k.current
    requires At(k.state, t) != 0 && At(k.state, t) != T_DEAD
    ensures Untouched(k, Middle(k, op), t)
  {
    if op.Create? {
      InsertElems(k.prio[op.t := op.prio], k.ready, op.t);
    } else if op.Delay? {
      UntouchedBySleep(k, Until(k.ticks, op.n), t);
    } else if op.Give? {
      UntouchedByGive(k, op.s, t);
    } else if op.Take? {
      UntouchedByTake(k, op.s, op.timeout, t);
    } else if op.Reap? {
      BuriedAre(k.state, k.dead);
    }
  }

  lemma {:induction false} ClockStands(k: Kernel, op: Op)
    requires !op.Tick?
    ensures Middle(k, op).ticks == k.ticks
  {
    hide Insert;
    hide Wake;
    hide Buried;
  }

  /**
   A step that does not give to the sleeper leaves it asleep until its time; the
   tick that reaches its time makes it ready, or running at once.
  */
  lemma {:induction false} SleeperStep(k: Kernel, op: Op, idle: Task, t: Task)
    requires Inv(k, idle) && Allowed(k, op, idle) && t in k.sleep && !Reaches(k, op, t)
    ensures var k' := Step(k, op);
      && k'.ticks == k.ticks + (if op.Tick? then 1 else 0)
      && if op.Tick? && At(k.timeout, t) <= k.ticks + 1 then t !in k'.sleep && (t in k'.ready || t == k'.current)
         else t in k'.sleep && At(k'.timeout, t) == At(k.timeout, t)
  {
    StepKeeps(k, op, idle);
    SwitchIfKeeps(Middle(k, op), Leaves(k, op) || Readies(k, op), Leaves(k, op));
    if op.Tick? {
      TickKeeps(k, idle);
      if At(k.timeout, t) <= k.ticks + 1 && Switches(Middle(k, op), false) {
        SwitchReady(Middle(k, op), idle, false);
      }
    } else {
      Bystander(k, op, idle, t);
      ClockStands(k, op);
    }
  }

  /** Each tick wakes exactly the sleepers whose time has come. */
  lemma {:induction false} TickWakesExactly(k: Kernel, idle: Task, t: Task)
    requires Inv(k, idle) && Allowed(k, Tick, idle)
    ensures t in Step(k, Tick).sleep <==> t in k.sleep && At(k.timeout, t) > k.ticks + 1
    ensures t in k.sleep && At(k.timeout, t) <= k.ticks + 1 ==> t in Step(k, Tick).ready || t == Step(k, Tick).current
  {
    TickKeeps(k, idle);
    SwitchIfKeeps(Middle(k, Tick), Readies(k, Tick), false);
    if t in k.sleep {
      SleeperStep(k, Tick, idle, t);
    }
  }

  function Ticks(ops: seq<Op>): nat {
    if ops == [] then 0 else (if ops[0].Tick? then 1 else 0) + Ticks(ops[1..])
  }

  ghost predicate NeverReached(ks: seq<Kernel>, ops: seq<Op>, t: Task)
    decreases |ops|
  {
    ops != [] && ks != [] ==> !Reaches(ks[0], ops[0], t) && NeverReached(ks[1..], ops[1..], t)
  }

  /** A sleeper that no give reaches sleeps until its time. */
  lemma {:induction false} Sleeps(ks: seq<Kernel>, ops: seq<Op>, idle: Task, t: Task, i: nat)
    requires Run(ks, ops, idle) && Inv(ks[0], idle) && NeverReached(ks, ops, t) && i < |ks|
    requires t in ks[0].sleep && ks[0].ticks + Ticks(ops[..i]) < At(ks[0].timeout, t)
    ensures t in ks[i].sleep && At(ks[i].timeout, t) == At(ks[0].timeout, t)
    ensures ks[i].ticks == ks[0].ticks + Ticks(ops[..i]) && Inv(ks[i], idle)
    decreases |ops|
  {
    hide Inv;
    hide Step;
    hide Allowed;
    if i > 0 {
      assert ops[..i][1..] == ops[1..][..i - 1];
      SleeperStep(ks[0], ops[0], idle, t);
      StepKeeps(ks[0], ops[0], idle);
      Sleeps(ks[1..], ops[1..], idle, t, i - 1);
    }
  }

  /** The task that delays itself falls asleep for the given number of ticks. */
  lemma {:induction false} DelayStarts(k: Kernel, idle: Task, n: int)
    requires Inv(k, idle) && Allowed(k, Delay(n), idle)
    ensures var k' := Step(k, Delay(n));
      k.current in k'.sleep && At(k'.timeout, k.current) == k.ticks + n && k'.ticks == k.ticks
  {
    InsertElems(k.timeout[k.current := k.ticks + n], k.sleep, k.current);
    SwitchIfKeeps(Middle(k, Delay(n)), true, true);
  }

  /**
   A task that delays itself for n ticks, n at least 1, is asleep until the n-th
   later tick and ready, or running, after it, in every run in which no give
   reaches it.
  */
  lemma {:induction false} DelayIsExact(k: Kernel, n: int, ks: seq<Kernel>, ops: seq<Op>, idle: Task, i: nat)
    requires Inv(k, idle) && Allowed(k, Delay(n), idle) && n >= 1 && ks != [] && ks[0] == Step(k, Delay(n))
    requires Run(ks, ops, idle) && NeverReached(ks, ops, k.current) && i < |ks|
    ensures Ticks(ops[..i]) < n ==> k.current in ks[i].sleep
    ensures i < |ops| && ops[i].Tick? && Ticks(ops[..i]) == n - 1 ==>
      k.current !in ks[i + 1].sleep && (k.current in ks[i + 1].ready || k.current == ks[i + 1].current)
  {
    StepKeeps(k, Delay(n), idle);
    DelayStarts(k, idle, n);
    if Ticks(ops[..i]) < n {
      Sleeps(ks, ops, idle, k.current, i);
      if i < |ops| {
        RunAt(ks, ops, idle, k.current, i);
        if ops[i].Tick? {
          SleeperStep(ks[i], ops[i], idle, k.current);
        }
      }
    }
  }

  lemma {:induction false} RunAt(ks: seq<Kernel>, ops: seq<Op>, idle: Task, t: Task, i: nat)
    requires Run(ks, ops, idle) && NeverReached(ks, ops, t) && i < |ops|
    ensures Allowed(ks[i], ops[i], idle) && ks[i + 1] == Step(ks[i], ops[i]) && !Reaches(ks[i], ops[i], t)
    decreases |ops|
  {
    if i > 0 {
      RunAt(ks[1..], ops[1..], idle, t, i - 1);
    }
  }

  // ----- sleeps that end outside of the words' range -----

  /** How long the running task means to sleep, if the call puts it to sleep. */
  ghost predicate FallsAsleep(k: Kernel, op: Op, n: int) {
    match op
    case Delay(m) => n == m
    case Take(s, limit) => Blocks(k, s, limit) && limit > 0 && n == limit
    case _ => false
  }

  /** A word whatever, given at a time below 2^31. */
  predicate InRange(k: Kernel, n: int) {
    0 <= k.ticks < 0x8000_0000 && -0x8000_0000 <= n < 0x8000_0000
  }

  lemma {:induction false} SleepsInMiddle(k: Kernel, op: Op, idle: Task, n: int)
    requires Inv(k, idle) && k.current != idle && FallsAsleep(k, op, n)
    ensures var k1, until := Middle(k, op), Until(k.ticks, n);
      && (forall x :: x in k1.sleep <==> x == k.current || x in k.sleep) && At(k1.timeout, k.current) == until
      && (until < 0 ==> k1.sleep == [k.current] + k.sleep)
      && At(k1.state, k.current) == T_WAIT && k1.ready == k.ready && k1.dead == k.dead && k1.current == k.current
    ensures Leaves(k, op) && k.ready != [] && k.ready[0] != k.current && k.current !in k.ready && k.current !in k.dead
  {
    var until := Until(k.ticks, n);
    IdleIsReady(k, idle);
    assert k.ready[0] in k.ready;
    var timeout := if op.Delay? then k.timeout[k.current := until] else k.timeout[k.current := 0][k.current := until];
    InsertElems(timeout, k.sleep, k.current);
    assert k.sleep != [] ==> k.sleep[0] in k.sleep;
  }

  /** Such a call keeps the kernel in order exactly if the sleep ends after tick 0 and below 2^31. */
  lemma {:induction false} SleepKeepsExactly(k: Kernel, op: Op, idle: Task, n: int)
    requires Inv(k, idle) && k.current != idle && FallsAsleep(k, op, n) && InRange(k, n)
    ensures Inv(Step(k, op), idle) <==> 0 < k.ticks + n < 0x8000_0000
  {
    if 0 < k.ticks + n < 0x8000_0000 {
      StepKeeps(k, op, idle);
    } else {
      SleepsInMiddle(k, op, idle, n);
      hide Middle;
      SwitchIfKeeps(Middle(k, op), true, true);
      assert k.current in Step(k, op).sleep && At(Step(k, op).timeout, k.current) <= 0;
    }
  }

  lemma {:induction false} SleepersAfterGive(k: Kernel, s: SemId, t: Task)
    requires NoDup(k.sleep) && (forall x :: x in k.sleep ==> At(k.timeout, x) > 0)
    requires t in Middle(k, Give(s)).sleep
    ensures t in k.sleep && (At(k.waiter, s) == t ==> t == NULL)
  {
    WithoutElems(k.sleep, At(k.waiter, s));
  }

  lemma {:induction false} TimesAre(k: Kernel, idle: Task)
    requires Inv(k, idle)
    ensures NoDup(k.sleep) && NULL !in k.sleep && forall x :: x in k.sleep ==> At(k.timeout, x) > 0
  {
  }

  lemma {:induction false} SleepersStand(k: Kernel, op: Op)
    requires op.Create? || op.Exit? || op.Yield? || op.Reap?
    ensures Middle(k, op).sleep == k.sleep
  {
  }

  lemma {:induction false} SleepersAfterTake(k: Kernel, s: SemId, limit: int)
    requires !(Blocks(k, s, limit) && limit > 0)
    ensures Middle(k, Take(s, limit)).sleep == k.sleep
  {
  }

  lemma {:induction false} SleepersAfter(k: Kernel, op: Op, idle: Task, t: Task)
    requires Inv(k, idle) && Allowed(k, op, idle) && !op.Tick? && t in Middle(k, op).sleep
    ensures t in k.sleep || (t == k.current && exists n :: FallsAsleep(k, op, n))
    ensures t in k.sleep ==> !Reaches(k, op, t)
  {
    hide Inv;
    hide Middle;
    TimesAre(k, idle);
    match op
    case Give(s) => SleepersAfterGive(k, s, t);
    case Delay(n) =>
      assert FallsAsleep(k, op, n);
      SleepsInMiddle(k, op, idle, n);
    case Take(s, limit) =>
      if Blocks(k, s, limit) && limit > 0 {
        assert FallsAsleep(k, op, limit);
        SleepsInMiddle(k, op, idle, limit);
      } else {
        SleepersAfterTake(k, s, limit);
      }
    case _ => SleepersStand(k, op);
  }

  lemma {:induction false} SleeperWaits(k: Kernel, idle: Task, t: Task)
    requires Inv(k, idle) && t in k.sleep
    ensures At(k.state, t) == T_WAIT && t != k.current
  {
  }

  lemma {:induction false} TickIsWake(k: Kernel)
    ensures Middle(k, Tick) == Wake(Clocked(k))
  {
  }

  lemma {:induction false} NoOverflow(k: Kernel, op: Op, idle: Task)
    requires Inv(k, idle) && Allowed(k, op, idle)
    ensures forall n :: FallsAsleep(k, op, n) ==> k.current != idle && Until(k.ticks, n) == k.ticks + n
    ensures forall n :: FallsAsleep(k, op, n) && op.Take? ==> n > 0
  {
  }

  /** No sleeper is ever overdue, if no delay is negative. */
  lemma {:induction false} NoneOverdue(k: Kernel, op: Op, idle: Task)
    requires Inv(k, idle) && InTime(k) && Allowed(k, op, idle) && (op.Delay? ==> op.n >= 0)
    ensures InTime(Step(k, op))
  {
    hide Inv;
    hide Middle;
    SwitchIfKeeps(Middle(k, op), Leaves(k, op) || Readies(k, op), Leaves(k, op));
    if op.Tick? {
      TickKeeps(k, idle);
      TickIsWake(k);
      WokenRuns(Clocked(k), Wake(Clocked(k)));
    } else {
      ClockStands(k, op);
      forall t | t in Middle(k, op).sleep ensures At(Middle(k, op).timeout, t) >= k.ticks {
        SleepersAfter(k, op, idle, t);
        if t in k.sleep {
          SleeperWaits(k, idle, t);
          Bystander(k, op, idle, t);
        } else {
          NoOverflow(k, op, idle);
          var n :| FallsAsleep(k, op, n);
          SleepsInMiddle(k, op, idle, n);
        }
      }
    }
  }

  /**
   The first sleeper's time is below 0.  It is compared as an unsigned number with the
   ticks, but stands before all others as a signed one.
  */
  ghost predicate Frozen(k: Kernel, t: Task) {
    && k.sleep != [] && k.sleep[0] == t && -0x8000_0000 <= At(k.timeout, t) < 0 && At(k.state, t) == T_WAIT
    && t != k.current && t !in k.ready && t !in k.dead && t != NULL && k.ticks >= 0
  }

  /** A sleep that ends before the boot, or at 2^31 or later, freezes the sleep list. */
  lemma {:induction false} SleepFreezes(k: Kernel, op: Op, idle: Task, n: int)
    requires Inv(k, idle) && k.current != idle && FallsAsleep(k, op, n) && InRange(k, n)
    requires k.ticks + n < 0 || k.ticks + n >= 0x8000_0000
    ensures Frozen(Step(k, op), k.current)
  {
    SleepsInMiddle(k, op, idle, n);
    ClockStands(k, op);
    hide Middle;
    hide Insert;
    SwitchIfKeeps(Middle(k, op), true, true);
    WithoutElems(Middle(k, op).ready, Middle(k, op).ready[0]);
    MustLeave(Middle(k, op));
  }

  lemma {:induction false} MustLeave(k: Kernel)
    requires k.ready != [] && At(k.state, k.current) == T_WAIT && k.ready[0] != k.current && NoDup(k.ready)
    ensures var k' := SwitchIf(k, true, true);
      k'.current == k.ready[0] && k'.dead == k.dead && At(k'.state, k.current) == T_WAIT
      && forall x :: x in k'.ready ==> x in k.ready
  {
    WithoutElems(k.ready, k.ready[0]);
  }

  lemma {:induction false} FrozenByFresh(k: Kernel, t: Task, u: Task, p: int)
    requires Frozen(k, t) && At(k.state, u) == 0
    ensures Frozen(Middle(k, Create(u, p)), t)
  {
    InsertElems(k.prio[u := p], k.ready, u);
  }

  lemma {:induction false} FrozenByHand(k: Kernel, t: Task, s: SemId)
    requires Frozen(k, t) && At(k.waiter, s) != t
    ensures Frozen(Hand(k, s), t)
  {
    WithoutHead(k.sleep, At(k.waiter, s));
  }

  lemma {:induction false} FrozenByGive(k: Kernel, t: Task, s: SemId)
    requires Frozen(k, t) && At(k.waiter, s) != t
    ensures Frozen(Middle(k, Give(s)), t)
  {
    hide Hand;
    FrozenByHand(k, t, s);
    InsertElems(Hand(k, s).prio, Hand(k, s).ready, At(k.waiter, s));
  }

  lemma {:induction false} FrozenBySleep(k: Kernel, t: Task, until: int)
    requires Frozen(k, t) && until > 0
    ensures Frozen(FallAsleep(k, until), t)
  {
  }

  lemma {:induction false} FrozenByTake(k: Kernel, t: Task, s: SemId, limit: int)
    requires Frozen(k, t) && (Blocks(k, s, limit) ==> k.ticks + limit < 0x8000_0000)
    ensures Frozen(Middle(k, Take(s, limit)), t)
  {
    hide FallAsleep;
    assert Frozen(Record(k, s), t);
    if Blocks(k, s, limit) && limit > 0 {
      FrozenBySleep(Record(k, s), t, k.ticks + limit);
    }
  }

  lemma {:induction false} FrozenInMiddle(k: Kernel, op: Op, idle: Task, t: Task)
    requires Frozen(k, t) && Allowed(k, op, idle) && !Reaches(k, op, t)
    ensures Frozen(Middle(k, op), t) && (op.Tick? ==> Middle(k, op).sleep == k.sleep)
  {
    match op
    case Create(u, p) => FrozenByFresh(k, t, u, p);
    case Delay(n) => FrozenBySleep(k, t, k.ticks + n);
    case Take(s, limit) => FrozenByTake(k, t, s, limit);
    case Give(s) => FrozenByGive(k, t, s);
    case Reap => BuriedAre(k.state, k.dead);
    case _ =>
  }

  lemma {:induction false} WithoutHead(l: seq<Task>, x: Task)
    requires l != [] && x != l[0]
    ensures Without(l, x) != [] && Without(l, x)[0] == l[0]
  {
  }

  lemma {:induction false} FrozenInSwitch(k: Kernel, wanted: bool, self: bool, t: Task)
    requires Frozen(k, t)
    ensures Frozen(SwitchIf(k, wanted, self), t)
  {
    SwitchIfKeeps(k, wanted, self);
    if k.ready != [] {
      assert k.ready[0] in k.ready;
      InsertElems(k.prio, k.ready, k.current);
      WithoutSubset(k.ready, k.ready[0], t);
      WithoutSubset(Insert(k.prio, k.ready, k.current), k.ready[0], t);
    }
  }

  lemma {:induction false} WithoutSubset(l: seq<Task>, x: Task, t: Task)
    requires t !in l
    ensures t !in Without(l, x)
  {
    if l != [] && l[0] != x {
      WithoutSubset(l[1..], x, t);
    }
  }

  /** Then no tick wakes any sleeper, in every run in which no give reaches the first one. */
  lemma {:induction false} NoneWakes(ks: seq<Kernel>, ops: seq<Op>, idle: Task, t: Task, i: nat)
    requires Run(ks, ops, idle) && Frozen(ks[0], t) && NeverReached(ks, ops, t) && i < |ops|
    ensures Frozen(ks[i], t) && (ops[i].Tick? ==> ks[i + 1].sleep == ks[i].sleep)
    decreases |ops|
  {
    hide Frozen;
    hide Allowed;
    hide Middle;
    var k, op := ks[0], ops[0];
    FrozenInMiddle(k, op, idle, t);
    FrozenInSwitch(Middle(k, op), Leaves(k, op) || Readies(k, op), Leaves(k, op), t);
    SwitchIfKeeps(Middle(k, op), Leaves(k, op) || Readies(k, op), Leaves(k, op));
    if i > 0 {
      NoneWakes(ks[1..], ops[1..], idle, t, i - 1);
    }
  }

  // ----- lost for good -----

  /** Blocked without a time limit, and recorded by no semaphore. */
  ghost predicate Lost(k: Kernel, t: Task) {
    Blocked(k, t) && forall s :: At(k.waiter, s) != t
  }

  /** A lost task never runs again. */
  lemma {:induction false} LostStep(k: Kernel, op: Op, idle: Task, t: Task)
    requires Inv(k, idle) && Allowed(k, op, idle) && Lost(k, t)
    ensures Lost(Step(k, op), t)
  {
    LostInMiddle(k, op, idle, t);
    MiddleKeeps(k, op, idle);
    LostInSwitch(Middle(k, op), idle, Leaves(k, op) || Readies(k, op), Leaves(k, op), t);
  }

  lemma {:induction false} LostInSwitch(k: Kernel, idle: Task, wanted: bool, self: bool, t: Task)
    requires Mid(k, idle) && Lost(k, t) && t != k.current
    ensures Lost(SwitchIf(k, wanted, self), t)
  {
    SwitchIfKeeps(k, wanted, self);
    assert k.ready != [] ==> k.ready[0] in k.ready;
  }

  /** The waiters recorded after a call. */
  ghost function Waiters(k: Kernel, op: Op): map<SemId, Task> {
    if op.Give? then k.waiter[op.s := NULL]
    else if op.Take? && Blocks(k, op.s, op.timeout) then k.waiter[op.s := k.current]
    else k.waiter
  }

  lemma {:induction false} WaitersAfter(k: Kernel, op: Op, idle: Task)
    requires Inv(k, idle) && Allowed(k, op, idle)
    ensures Middle(k, op).waiter == Waiters(k, op)
  {
    hide Inv;
    if op.Tick? {
      TickKeeps(k, idle);
    } else if op.Take? {
      WaitersAfterTake(k, op.s, op.timeout);
    } else if !op.Give? {
      WaitersStand(k, op);
    }
  }

  lemma {:induction false} WaitersStand(k: Kernel, op: Op)
    requires !op.Tick? && !op.Take? && !op.Give?
    ensures Middle(k, op).waiter == k.waiter
  {
  }

  lemma {:induction false} WaitersAfterTake(k: Kernel, s: SemId, timeout: int)
    ensures Middle(k, Take(s, timeout)).waiter == Waiters(k, Take(s, timeout))
  {
  }

  lemma {:induction false} OthersRecorded(k: Kernel, op: Op, t: Task)
    requires t != NULL && t != k.current && forall s :: At(k.waiter, s) != t
    ensures forall s :: At(Waiters(k, op), s) != t
  {
    if op.Give? {
      Wrote(k.waiter, Waiters(k, op), op.s, NULL);
    } else if op.Take? && Blocks(k, op.s, op.timeout) {
      Wrote(k.waiter, Waiters(k, op), op.s, k.current);
    }
  }

  lemma {:induction false} LostInMiddle(k: Kernel, op: Op, idle: Task, t: Task)
    requires Inv(k, idle) && Allowed(k, op, idle) && Lost(k, t)
    ensures Lost(Middle(k, op), t) && t != Middle(k, op).current
  {
    WaitersAfter(k, op, idle);
    OthersRecorded(k, op, t);
    if op.Tick? {
      TickKeeps(k, idle);
    } else {
      assert !Reaches(k, op, t);
      Bystander(k, op, idle, t);
    }
  }

  lemma {:induction false} LostForever(ks: seq<Kernel>, ops: seq<Op>, idle: Task, t: Task, i: nat)
    requires Run(ks, ops, idle) && Inv(ks[0], idle) && Lost(ks[0], t) && i < |ks|
    ensures Lost(ks[i], t) && t != ks[i].current && t !in ks[i].ready
    decreases |ops|
  {
    if i > 0 {
      LostStep(ks[0], ops[0], idle, t);
      StepKeeps(ks[0], ops[0], idle);
      LostForever(ks[1..], ops[1..], idle, t, i - 1);
    }
  }

  /**
   A semaphore records one waiter only: when a second task has to wait on it, the
   first, if it waits without a time limit, is lost for good.
  */
  lemma {:induction false} SecondWaiterLosesFirst(k: Kernel, s: SemId, timeout: int, idle: Task, t: Task)
    requires Inv(k, idle) && Allowed(k, Take(s, timeout), idle) && Blocks(k, s, timeout)
    requires Blocked(k, t) && forall s' :: At(k.waiter, s') == t ==> s' == s
    ensures Lost(Step(k, Take(s, timeout)), t)
  {
    var op, k1 := Take(s, timeout), Middle(k, Take(s, timeout));
    MiddleKeeps(k, op, idle);
    WaitersAfter(k, op, idle);
    Wrote(k.waiter, Waiters(k, op), s, k.current);
    Bystander(k, op, idle, t);
    LostInSwitch(k1, idle, true, true, t);
  }

  /** A recorded waiter that still waits is ready, or running, after the next give; the value stays 0. */
  lemma {:induction false} GiveWakesWaiter(k: Kernel, s: SemId, idle: Task, t: Task)
    requires Inv(k, idle) && t == At(k.waiter, s) != NULL && At(k.state, t) == T_WAIT
    ensures var k' := Step(k, Give(s));
      && (t in k'.ready || t == k'.current) && t !in k'.sleep && At(k'.retv, t) == 0
      && At(k'.value, s) == 0 && At(k'.waiter, s) == NULL
  {
    hide Middle;
    hide Inv;
    MiddleKeeps(k, Give(s), idle);
    GiveHands(k, s, idle, t);
    var k1 := Middle(k, Give(s));
    SwitchIfKeeps(k1, true, false);
    if Switches(k1, false) {
      SwitchReady(k1, idle, false);
    }
  }

  lemma {:induction false} GiveHands(k: Kernel, s: SemId, idle: Task, t: Task)
    requires Inv(k, idle) && t == At(k.waiter, s) != NULL && At(k.state, t) == T_WAIT
    ensures var k1 := Middle(k, Give(s));
      t in k1.ready && t !in k1.sleep && At(k1.retv, t) == 0 && At(k1.value, s) == 0 && At(k1.waiter, s) == NULL
  {
    HandOverKeeps(k, idle, s, t);
    assert At(k.value, s) == 0;
    HandFields(k, s);
    hide Inv;
    hide Hand;
    InsertElems(k.prio, k.ready, t);
  }

  lemma {:induction false} HandFields(k: Kernel, s: SemId)
    requires At(k.waiter, s) != NULL
    ensures var k1 := Hand(k, s);
      && k1.ready == k.ready && k1.prio == k.prio && k1.value == k.value
      && At(k1.retv, At(k.waiter, s)) == 0 && At(k1.waiter, s) == NULL
  {
  }

  /** A timed wait that runs out leaves its task recorded, no longer waiting. */
  lemma {:induction false} ExpiryLeavesStaleWaiter(k: Kernel, s: SemId, idle: Task, t: Task)
    requires Inv(k, idle) && Allowed(k, Tick, idle) && t == At(k.waiter, s) && t in k.sleep
      && At(k.timeout, t) <= k.ticks + 1
    ensures var k' := Step(k, Tick);
      At(k'.waiter, s) == t && At(k'.state, t) != T_WAIT && At(k'.retv, t) == At(k.retv, t)
  {
    TickKeeps(k, idle);
    StepKeeps(k, Tick, idle);
    SwitchIfKeeps(Middle(k, Tick), Readies(k, Tick), false);
    SleeperStepEnds(k, idle, t);
  }

  lemma {:induction false} SleeperStepEnds(k: Kernel, idle: Task, t: Task)
    requires Inv(k, idle) && Allowed(k, Tick, idle) && t in k.sleep && At(k.timeout, t) <= k.ticks + 1
    ensures At(Step(k, Tick).state, t) != T_WAIT
  {
    TickWakesExactly(k, idle, t);
    StepKeeps(k, Tick, idle);
  }

  // ----- the answer of a take -----

  lemma {:induction false} AliveInSwitch(k: Kernel, idle: Task, wanted: bool, self: bool, t: Task)
    requires Mid(k, idle) && (At(k.state, t) == T_READY || At(k.state, t) == T_WAIT)
    ensures var state := SwitchIf(k, wanted, self).state;
      At(state, t) == T_READY || At(state, t) == T_RUN || At(state, t) == T_WAIT
  {
  }

  lemma {:induction false} NotCurrent(k: Kernel, idle: Task, t: Task)
    requires Inv(k, idle) && (At(k.state, t) == T_READY || At(k.state, t) == T_WAIT)
    ensures t != k.current
  {
  }

  /** A task that is not running keeps its answer as long as no give reaches it. */
  lemma {:induction false} AnswerStays(k: Kernel, op: Op, idle: Task, t: Task)
    requires Inv(k, idle) && Allowed(k, op, idle) && !Reaches(k, op, t)
    requires At(k.state, t) == T_READY || At(k.state, t) == T_WAIT
    ensures var k' := Step(k, op);
      At(k'.retv, t) == At(k.retv, t)
        && (At(k'.state, t) == T_READY || At(k'.state, t) == T_RUN || At(k'.state, t) == T_WAIT)
  {
    hide Inv;
    hide Middle;
    hide Allowed;
    var k1 := Middle(k, op);
    MiddleKeeps(k, op, idle);
    SwitchIfKeeps(k1, Leaves(k, op) || Readies(k, op), Leaves(k, op));
    if op.Tick? {
      TickKeeps(k, idle);
    } else {
      NotCurrent(k, idle, t);
      Bystander(k, op, idle, t);
    }
    AliveInSwitch(k1, idle, Leaves(k, op) || Readies(k, op), Leaves(k, op), t);
  }

  ghost predicate NotRunning(ks: seq<Kernel>, t: Task) {
    forall i :: 0 <= i < |ks| ==> ks[i].current != t
  }

  lemma {:induction false} NotRunningNext(ks: seq<Kernel>, t: Task, i: nat)
    requires 0 < i < |ks| && NotRunning(ks[..i], t)
    ensures ks[0].current != t && NotRunning(ks[1..][..i - 1], t)
  {
    assert ks[..i][0] == ks[0];
    assert ks[1..][..i - 1] == ks[..i][1..];
  }

  lemma {:induction false} StatesOf(k: Kernel, idle: Task, t: Task)
    requires Inv(k, idle)
    ensures At(k.state, t) == T_RUN <==> t == k.current
  {
  }

  lemma {:induction false} AnswerKept(ks: seq<Kernel>, ops: seq<Op>, idle: Task, t: Task, i: nat)
    requires Run(ks, ops, idle) && Inv(ks[0], idle) && NeverReached(ks, ops, t) && i < |ks| && NotRunning(ks[..i], t)
    requires At(ks[0].state, t) == T_READY || At(ks[0].state, t) == T_RUN || At(ks[0].state, t) == T_WAIT
    ensures At(ks[i].retv, t) == At(ks[0].retv, t)
    decreases |ops|
  {
    if i > 0 {
      NotRunningNext(ks, t, i);
      StepKeeps(ks[0], ops[0], idle);
      StatesOf(ks[0], idle, t);
      AnswerStays(ks[0], ops[0], idle, t);
      hide Inv;
      hide Step;
      hide Allowed;
      AnswerKept(ks[1..], ops[1..], idle, t, i - 1);
    }
  }

  /** A take with a time limit that no give reaches is answered with -1 when its task runs again. */
  lemma {:induction false} ExpiredTakeFails(k: Kernel, s: SemId, timeout: int, ks: seq<Kernel>, ops: seq<Op>,
                                            idle: Task, i: nat)
    requires Inv(k, idle) && Allowed(k, Take(s, timeout), idle) && Blocks(k, s, timeout) && timeout > 0
    requires ks != [] && ks[0] == Step(k, Take(s, timeout)) && Run(ks, ops, idle) && NeverReached(ks, ops, k.current)
    requires i < |ks| && NotRunning(ks[..i], k.current)
    ensures At(ks[i].retv, k.current) == -1
  {
    StepKeeps(k, Take(s, timeout), idle);
    MiddleKeeps(k, Take(s, timeout), idle);
    TakerWaits(k, s, timeout);
    SwitchIfKeeps(Middle(k, Take(s, timeout)), true, true);
    WaitsInSwitch(Middle(k, Take(s, timeout)), idle, true, true, k.current);
    AnswerKept(ks, ops, idle, k.current, i);
  }

  /** One that a give reaches while it waits is answered with 0, if no other reaches it before it runs. */
  lemma {:induction false} GivenTakeSucceeds(k: Kernel, s: SemId, idle: Task, t: Task, ks: seq<Kernel>, ops: seq<Op>,
                                             i: nat)
    requires Inv(k, idle) && t == At(k.waiter, s) != NULL && At(k.state, t) == T_WAIT
    requires ks != [] && ks[0] == Step(k, Give(s)) && Run(ks, ops, idle) && NeverReached(ks, ops, t)
    requires i < |ks| && NotRunning(ks[..i], t)
    ensures At(ks[i].retv, t) == 0
  {
    StepKeeps(k, Give(s), idle);
    GiveWakesWaiter(k, s, idle, t);
    AnswerKept(ks, ops, idle, t, i);
  }

  // ----- tokens -----

  /** Who waits in a take of which semaphore, and how many gives and successful takes there were. */
  datatype Ledger = Ledger(on: map<Task, SemId>, gives: map<SemId, int>, takes: map<SemId, int>)

  function Count(m: map<SemId, int>, s: SemId): map<SemId, int> {
    m[s := At(m, s) + 1]
  }

  /**
   A give that wakes a task out of a take makes that take succeed; a take whose
   time runs out ends with the tick.
  */
  ghost function Booked(k: Kernel, g: Ledger, op: Op): Ledger {
    match op
    case Give(s) =>
      var w, g1 := At(k.waiter, s), g.(gives := Count(g.gives, s));
      if Wakes(k, s) && w in g.on then g1.(on := g.on - {w}, takes := Count(g.takes, g.on[w])) else g1
    case Take(s, timeout) =>
      if At(k.value, s) != 0 then g.(takes := Count(g.takes, s))
      else if timeout != 0 then g.(on := g.on[k.current := s]) else g
    case Tick => g.(on := StillWaiting(Middle(k, op).state, g.on))
    case _ => g
  }

  ghost function StillWaiting(state: map<Task, int>, on: map<Task, SemId>): map<Task, SemId> {
    map t | t in on && At(state, t) == T_WAIT :: on[t]
  }

  /** Nothing is lost: no second task has to wait on a semaphore, and no recorded waiter's time runs out. */
  ghost predicate Careful(k: Kernel, op: Op) {
    match op
    case Take(s, timeout) => Blocks(k, s, timeout) ==> At(k.waiter, s) == NULL
    case Tick => forall s :: At(k.waiter, s) in k.sleep ==> At(k.timeout, At(k.waiter, s)) > k.ticks + 1
    case _ => true
  }

  /** The recorded waiters are exactly the tasks that wait in a take. */
  ghost predicate Matched(waiter: map<SemId, Task>, on: map<Task, SemId>) {
    && (forall s :: At(waiter, s) != NULL ==> At(waiter, s) in on && on[At(waiter, s)] == s)
    && (forall t :: t in on ==> At(waiter, on[t]) == t && t != NULL)
  }

  ghost predicate AllWait(k: Kernel, on: map<Task, SemId>) {
    forall t :: t in on ==> At(k.state, t) == T_WAIT
  }

  ghost predicate Balanced(initial: map<SemId, int>, value: map<SemId, int>, g: Ledger) {
    forall s :: At(initial, s) + At(g.gives, s) == At(value, s) + At(g.takes, s)
  }

  /** The books agree with the kernel. */
  ghost predicate Agrees(initial: map<SemId, int>, k: Kernel, g: Ledger) {
    Matched(k.waiter, g.on) && AllWait(k, g.on) && Balanced(initial, k.value, g)
  }

  ghost predicate Booking(ks: seq<Kernel>, gs: seq<Ledger>, ops: seq<Op>)
    decreases |ops|
  {
    && |ks| == |gs| == |ops| + 1
    && (ops != [] ==> gs[1] == Booked(ks[0], gs[0], ops[0]) && Booking(ks[1..], gs[1..], ops[1..]))
  }

  ghost predicate AllCareful(ks: seq<Kernel>, ops: seq<Op>)
    requires |ks| > |ops|
    decreases |ops|
  {
    ops != [] ==> Careful(ks[0], ops[0]) && AllCareful(ks[1..], ops[1..])
  }

  /** The values after a call. */
  ghost function Values(k: Kernel, op: Op): map<SemId, int> {
    if op.Give? && At(k.waiter, op.s) == NULL then k.value[op.s := At(k.value, op.s) + 1]
    else if op.Take? && At(k.value, op.s) != 0 then k.value[op.s := At(k.value, op.s) - 1]
    else k.value
  }

  lemma {:induction false} ValuesAfterTake(k: Kernel, s: SemId, timeout: int)
    ensures Middle(k, Take(s, timeout)).value == Values(k, Take(s, timeout))
  {
  }

  lemma {:induction false} HandValue(k: Kernel, s: SemId)
    ensures Hand(k, s).value == if At(k.waiter, s) == NULL then k.value[s := At(k.value, s) + 1] else k.value
  {
  }

  lemma {:induction false} ValuesAfterGive(k: Kernel, s: SemId)
    ensures Middle(k, Give(s)).value == Values(k, Give(s))
  {
    HandValue(k, s);
    hide Hand;
    hide Insert;
    hide Without;
    hide Wake;
    hide Block;
    hide FallAsleep;
  }

  lemma {:induction false} ValuesAfter(k: Kernel, op: Op, idle: Task)
    requires Inv(k, idle)
    ensures Middle(k, op).value == Values(k, op)
  {
    if op.Tick? {
      TickKeeps(k, idle);
    } else if op.Take? {
      ValuesAfterTake(k, op.s, op.timeout);
    } else if op.Give? {
      ValuesAfterGive(k, op.s);
    }
  }

  lemma {:induction false} BalanceCounts(initial: map<SemId, int>, value: map<SemId, int>, value': map<SemId, int>,
                                         g: Ledger, g': Ledger,
                                         s: SemId, given: int, taken: int)
    requires Balanced(initial, value, g)
    requires g'.gives == g.gives[s := At(g.gives, s) + given] || (given == 0 && g'.gives == g.gives)
    requires g'.takes == g.takes[s := At(g.takes, s) + taken] || (taken == 0 && g'.takes == g.takes)
    requires value' == value[s := At(value, s) + given - taken] || (given == taken && value' == value)
    ensures Balanced(initial, value', g')
  {
    assert forall x :: At(g'.gives, x) == At(g.gives, x) + if x == s then given else 0;
    assert forall x :: At(g'.takes, x) == At(g.takes, x) + if x == s then taken else 0;
    forall x ensures At(initial, x) + At(g'.gives, x) == At(value', x) + At(g'.takes, x) {
      assert At(initial, x) + At(g.gives, x) == At(value, x) + At(g.takes, x);
    }
  }

  lemma {:induction false} GivenToWaiter(k: Kernel, g: Ledger, s: SemId)
    requires Matched(k.waiter, g.on) && AllWait(k, g.on) && At(k.waiter, s) != NULL
    ensures Wakes(k, s) && At(k.waiter, s) in g.on && g.on[At(k.waiter, s)] == s
  {
  }

  lemma {:induction false} BalanceStep(initial: map<SemId, int>, k: Kernel, g: Ledger, op: Op)
    requires Agrees(initial, k, g)
    ensures Balanced(initial, Values(k, op), Booked(k, g, op))
  {
    hide Middle;
    hide AllWait;
    hide StillWaiting;
    if op.Give? {
      if At(k.waiter, op.s) != NULL {
        GivenToWaiter(k, g, op.s);
      }
      BalanceCounts(initial, k.value, Values(k, op), g, Booked(k, g, op), op.s, 1,
        if At(k.waiter, op.s) == NULL then 0 else 1);
    } else if op.Take? && At(k.value, op.s) != 0 {
      BalanceCounts(initial, k.value, Values(k, op), g, Booked(k, g, op), op.s, 0, 1);
    }
  }

  /** A task that waits in a take goes on waiting unless its time runs out or it is given a token. */
  lemma {:induction false} WaitsInMiddle(k: Kernel, g: Ledger, op: Op, idle: Task, t: Task)
    requires Inv(k, idle) && Allowed(k, op, idle) && AllWait(k, g.on) && t in Booked(k, g, op).on
    ensures At(Middle(k, op).state, t) == T_WAIT
  {
    if op.Take? && t == k.current {
      TakerWaits(k, op.s, op.timeout);
    } else if !op.Tick? {
      assert !Reaches(k, op, t);
      Bystander(k, op, idle, t);
    }
  }

  lemma {:induction false} TakerWaits(k: Kernel, s: SemId, timeout: int)
    requires Blocks(k, s, timeout)
    ensures At(Middle(k, Take(s, timeout)).state, k.current) == T_WAIT
  {
  }

  lemma {:induction false} WaitsInSwitch(k: Kernel, idle: Task, wanted: bool, self: bool, t: Task)
    requires Mid(k, idle) && At(k.state, t) == T_WAIT
    ensures At(SwitchIf(k, wanted, self).state, t) == T_WAIT
  {
    assert k.ready != [] ==> k.ready[0] in k.ready;
  }

  /** In every run, a task that is booked as being in a take waits. */
  lemma {:induction false} AllWaitStep(k: Kernel, g: Ledger, op: Op, idle: Task)
    requires Inv(k, idle) && Allowed(k, op, idle) && AllWait(k, g.on)
    ensures AllWait(Step(k, op), Booked(k, g, op).on)
  {
    MiddleKeeps(k, op, idle);
    forall t | t in Booked(k, g, op).on ensures At(Step(k, op).state, t) == T_WAIT {
      WaitsInMiddle(k, g, op, idle, t);
      WaitsInSwitch(Middle(k, op), idle, Leaves(k, op) || Readies(k, op), Leaves(k, op), t);
    }
  }

  lemma {:induction false} AllWaitRun(ks: seq<Kernel>, gs: seq<Ledger>, ops: seq<Op>, idle: Task, i: nat)
    requires Run(ks, ops, idle) && Booking(ks, gs, ops) && i < |ks| && Inv(ks[0], idle) && AllWait(ks[0], gs[0].on)
    ensures AllWait(ks[i], gs[i].on) && Inv(ks[i], idle)
    decreases |ops|
  {
    if i > 0 {
      StepKeeps(ks[0], ops[0], idle);
      AllWaitStep(ks[0], gs[0], ops[0], idle);
      AllWaitRun(ks[1..], gs[1..], ops[1..], idle, i - 1);
    }
  }

  /** A given token arrives: the value grows, or a take on this semaphore ends with success. */
  ghost predicate Arrives(k: Kernel, g: Ledger, k': Kernel, g': Ledger, s: SemId) {
    || At(k'.value, s) == At(k.value, s) + 1
    || exists t :: t in g.on && g.on[t] == s && t !in g'.on && At(k'.retv, t) == 0
  }

  lemma {:induction false} GiveArrives(k: Kernel, g: Ledger, s: SemId, idle: Task)
    requires Inv(k, idle) && AllWait(k, g.on)
    ensures var w := At(k.waiter, s);
      Arrives(k, g, Step(k, Give(s)), Booked(k, g, Give(s)), s) <==> w == NULL || (w in g.on && g.on[w] == s)
  {
    var w, k', g' := At(k.waiter, s), Step(k, Give(s)), Booked(k, g, Give(s));
    ValuesAfterGive(k, s);
    SwitchIfKeeps(Middle(k, Give(s)), Readies(k, Give(s)), false);
    assert k'.value == Values(k, Give(s));
    hide Step;
    hide Middle;
    if w != NULL && At(k.state, w) == T_WAIT {
      GiveWakesWaiter(k, s, idle, w);
    }
    assert forall t :: t in g.on && t !in g'.on ==> t == w;
    if w in g.on && g.on[w] == s && w != NULL {
      assert w !in g'.on && At(k'.retv, w) == 0;
    }
  }

  /**
   In every run, a given token arrives exactly if no waiter is recorded or the recorded
   one is in a take of this semaphore.
  */
  lemma {:induction false} GiveArrivesExactly(ks: seq<Kernel>, gs: seq<Ledger>, ops: seq<Op>, idle: Task, i: nat,
                                              s: SemId)
    requires Run(ks, ops, idle) && Booking(ks, gs, ops) && Inv(ks[0], idle) && AllWait(ks[0], gs[0].on)
    requires i < |ops| && ops[i] == Give(s)
    ensures var w := At(ks[i].waiter, s);
      Arrives(ks[i], gs[i], ks[i + 1], gs[i + 1], s) <==> w == NULL || (w in gs[i].on && gs[i].on[w] == s)
  {
    AllWaitRun(ks, gs, ops, idle, i);
    StepAt(ks, gs, ops, idle, i);
    GiveArrives(ks[i], gs[i], s, idle);
  }

  lemma {:induction false} StepAt(ks: seq<Kernel>, gs: seq<Ledger>, ops: seq<Op>, idle: Task, i: nat)
    requires Run(ks, ops, idle) && Booking(ks, gs, ops) && i < |ops|
    ensures ks[i + 1] == Step(ks[i], ops[i]) && gs[i + 1] == Booked(ks[i], gs[i], ops[i])
      && Allowed(ks[i], ops[i], idle)
    decreases |ops|
  {
    if i > 0 {
      StepAt(ks[1..], gs[1..], ops[1..], idle, i - 1);
    }
  }

  /** Without expiry the tick ends no take. */
  lemma {:induction false} TickEndsNoTake(k: Kernel, g: Ledger, idle: Task)
    requires Inv(k, idle) && Matched(k.waiter, g.on) && AllWait(k, g.on) && Careful(k, Tick)
    ensures Booked(k, g, Tick).on == g.on
  {
    TickKeeps(k, idle);
    var state := Middle(k, Tick).state;
    forall t | t in g.on ensures At(state, t) == T_WAIT {
      assert At(k.waiter, g.on[t]) == t;
    }
    NoneEnded(state, g.on);
  }

  lemma {:induction false} NoneEnded(state: map<Task, int>, on: map<Task, SemId>)
    requires forall t :: t in on ==> At(state, t) == T_WAIT
    ensures StillWaiting(state, on) == on
  {
  }

  lemma {:induction false} MatchedStep(k: Kernel, g: Ledger, op: Op, idle: Task)
    requires Inv(k, idle) && Matched(k.waiter, g.on) && AllWait(k, g.on) && Careful(k, op)
    ensures Matched(Waiters(k, op), Booked(k, g, op).on)
  {
    if op.Give? {
      Wrote(k.waiter, Waiters(k, op), op.s, NULL);
    } else if op.Take? && Blocks(k, op.s, op.timeout) {
      Wrote(k.waiter, Waiters(k, op), op.s, k.current);
    } else if op.Tick? {
      TickEndsNoTake(k, g, idle);
    }
  }

  lemma {:induction false} BooksAgree(initial: map<SemId, int>, k: Kernel, g: Ledger, op: Op, idle: Task)
    requires Inv(k, idle) && Allowed(k, op, idle) && Careful(k, op) && Agrees(initial, k, g)
    ensures Agrees(initial, Step(k, op), Booked(k, g, op))
  {
    AllWaitStep(k, g, op, idle);
    MatchedStep(k, g, op, idle);
    BalanceStep(initial, k, g, op);
    WaitersAfter(k, op, idle);
    ValuesAfter(k, op, idle);
    SwitchIfKeeps(Middle(k, op), Leaves(k, op) || Readies(k, op), Leaves(k, op));
  }

  /**
   In every run in which nothing is lost, no token is: what a semaphore started
   with and what it was given is its value and the takes that succeeded; and a
   waiter is recorded exactly while it waits.
  */
  lemma {:induction false} TokensAreKept(ks: seq<Kernel>, gs: seq<Ledger>, ops: seq<Op>, idle: Task,
                                         initial: map<SemId, int>, i: nat)
    requires Run(ks, ops, idle) && Booking(ks, gs, ops) && AllCareful(ks, ops) && i < |ks|
    requires Inv(ks[0], idle) && Agrees(initial, ks[0], gs[0])
    ensures Agrees(initial, ks[i], gs[i])
    decreases |ops|
  {
    if i > 0 {
      StepKeeps(ks[0], ops[0], idle);
      BooksAgree(initial, ks[0], gs[0], ops[0], idle);
      TokensAreKept(ks[1..], gs[1..], ops[1..], idle, initial, i - 1);
    }
  }

  // ----- tokens that go astray -----

  /**
   A token given to a task that no longer waits arrives nowhere: the value does not
   grow, no take ends, and nobody is woken.
  */
  lemma {:induction false} StaleWaiterTakesToken(k: Kernel, g: Ledger, s: SemId, idle: Task, t: Task)
    requires Inv(k, idle) && AllWait(k, g.on) && t == At(k.waiter, s) != NULL && At(k.state, t) != T_WAIT
    ensures var k' := Step(k, Give(s));
      && !Arrives(k, g, k', Booked(k, g, Give(s)), s) && Booked(k, g, Give(s)).on == g.on
      && k'.ready == k.ready && k'.current == k.current && k'.sleep == k.sleep && At(k'.waiter, s) == NULL
  {
  }

  /**
   A recorded task that sleeps, but not in a take of this semaphore, is woken before
   its time, and the token arrives nowhere all the same.
  */
  lemma {:induction false} StaleWaiterSleepsLess(k: Kernel, g: Ledger, s: SemId, idle: Task, t: Task)
    requires Inv(k, idle) && AllWait(k, g.on) && t == At(k.waiter, s) != NULL && t in k.sleep
    requires !(t in g.on && g.on[t] == s)
    ensures var k' := Step(k, Give(s));
      && t !in k'.sleep && (t in k'.ready || t == k'.current)
      && !Arrives(k, g, k', Booked(k, g, Give(s)), s)
  {
    hide Step;
    hide Arrives;
    hide Booked;
    GiveWakesWaiter(k, s, idle, t);
    GiveArrives(k, g, s, idle);
  }

  /** w is recorded as the waiter of s, but is not in a take of it. */
  ghost predicate Stale(k: Kernel, g: Ledger, s: SemId, w: Task) {
    At(k.waiter, s) == w != NULL && !(w in g.on && g.on[w] == s)
  }

  /** The call records a new waiter of s, or gives to the recorded one. */
  ghost predicate Renews(k: Kernel, op: Op, s: SemId) {
    op == Give(s) || (op.Take? && op.s == s && Blocks(k, s, op.timeout))
  }

  lemma {:induction false} StaleStays(k: Kernel, g: Ledger, op: Op, idle: Task, s: SemId, w: Task)
    requires Inv(k, idle) && Allowed(k, op, idle) && Stale(k, g, s, w) && !Renews(k, op, s)
    ensures Stale(Step(k, op), Booked(k, g, op), s, w)
  {
    hide Inv;
    hide Middle;
    hide Allowed;
    WaitersAfter(k, op, idle);
    SwitchIfKeeps(Middle(k, op), Leaves(k, op) || Readies(k, op), Leaves(k, op));
    if op.Give? {
      Wrote(k.waiter, Waiters(k, op), op.s, NULL);
    } else if op.Take? && Blocks(k, op.s, op.timeout) {
      Wrote(k.waiter, Waiters(k, op), op.s, k.current);
    }
  }

  /** In every run a stale waiter stays one until it is replaced or given to, and then the token is lost. */
  lemma {:induction false} StaleTokenIsLost(ks: seq<Kernel>, gs: seq<Ledger>, ops: seq<Op>, idle: Task, s: SemId,
                                            w: Task, i: nat)
    requires Run(ks, ops, idle) && Booking(ks, gs, ops) && Inv(ks[0], idle) && AllWait(ks[0], gs[0].on)
    requires Stale(ks[0], gs[0], s, w) && i < |ops| && ops[i] == Give(s)
    requires forall j :: 0 <= j < i ==> !Renews(ks[j], ops[j], s)
    ensures !Arrives(ks[i], gs[i], ks[i + 1], gs[i + 1], s) && At(ks[i].waiter, s) == w
    decreases |ops|
  {
    hide Inv;
    hide Step;
    hide Booked;
    hide Arrives;
    hide Renews;
    if i == 0 {
      GiveArrives(ks[0], gs[0], s, idle);
    } else {
      assert !Renews(ks[0], ops[0], s);
      assert forall j :: 0 <= j < i - 1 ==> ks[1..][j] == ks[j + 1] && ops[1..][j] == ops[j + 1];
      StaleStays(ks[0], gs[0], ops[0], idle, s, w);
      StepKeeps(ks[0], ops[0], idle);
      AllWaitStep(ks[0], gs[0], ops[0], idle);
      hide Stale;
      hide Allowed;
      StaleTokenIsLost(ks[1..], gs[1..], ops[1..], idle, s, w, i - 1);
    }
  }

  /**
   In every run after a recorded timed wait ran out, the next token that the semaphore
   is given is lost, unless a task had to wait on it in between.
  */
  lemma {:induction false} ExpiredWaitLosesToken(k: Kernel, g: Ledger, ks: seq<Kernel>, gs: seq<Ledger>, ops: seq<Op>,
                                                 idle: Task, s: SemId, t: Task, i: nat)
    requires Inv(k, idle) && AllWait(k, g.on) && Allowed(k, Tick, idle)
    requires t == At(k.waiter, s) && t in k.sleep && At(k.timeout, t) <= k.ticks + 1
    requires Run(ks, ops, idle) && Booking(ks, gs, ops) && ks[0] == Step(k, Tick) && gs[0] == Booked(k, g, Tick)
    requires i < |ops| && ops[i] == Give(s) && forall j :: 0 <= j < i ==> !Renews(ks[j], ops[j], s)
    ensures !Arrives(ks[i], gs[i], ks[i + 1], gs[i + 1], s)
  {
    hide Step;
    hide Booked;
    hide Arrives;
    hide Renews;
    ExpiryLeavesStaleWaiter(k, s, idle, t);
    SleeperIsTask(k, idle, t);
    StepKeeps(k, Tick, idle);
    AllWaitStep(k, g, Tick, idle);
    assert t !in gs[0].on;
    hide Inv;
    StaleTokenIsLost(ks, gs, ops, idle, s, t, i);
  }

  lemma {:induction false} SleeperIsTask(k: Kernel, idle: Task, t: Task)
    requires Inv(k, idle) && t in k.sleep
    ensures t != NULL
  {
  }

  /** A give of s whose token does not arrive. */
  ghost function LostBy(k: Kernel, g: Ledger, op: Op, s: SemId): int {
    var w := At(k.waiter, s);
    if op == Give(s) && w != NULL && !(Wakes(k, s) && w in g.on && g.on[w] == s) then 1 else 0
  }

  /** A give of another semaphore that ends a take of s. */
  ghost function StrayBy(k: Kernel, g: Ledger, op: Op, s: SemId): int {
    if op.Give? && op.s != s && Wakes(k, op.s) then
      var w := At(k.waiter, op.s);
      if w in g.on && g.on[w] == s then 1 else 0
    else 0
  }

  ghost function LostTokens(ks: seq<Kernel>, gs: seq<Ledger>, ops: seq<Op>, s: SemId): int
    requires |ks| == |gs| == |ops| + 1
    decreases |ops|
  {
    if ops == [] then 0 else LostBy(ks[0], gs[0], ops[0], s) + LostTokens(ks[1..], gs[1..], ops[1..], s)
  }

  ghost function Strays(ks: seq<Kernel>, gs: seq<Ledger>, ops: seq<Op>, s: SemId): int
    requires |ks| == |gs| == |ops| + 1
    decreases |ops|
  {
    if ops == [] then 0 else StrayBy(ks[0], gs[0], ops[0], s) + Strays(ks[1..], gs[1..], ops[1..], s)
  }

  lemma {:induction false} AccountStep(k: Kernel, g: Ledger, op: Op, s: SemId)
    ensures At(k.value, s) + At(Booked(k, g, op).gives, s) - At(g.gives, s) ==
      At(Values(k, op), s) + At(Booked(k, g, op).takes, s) - At(g.takes, s) + LostBy(k, g, op, s) - StrayBy(k, g, op, s)
  {
    hide Middle;
    hide StillWaiting;
  }

  /**
   In every run whatever, each token is accounted for: what a semaphore had and was
   given is what it has, the takes of it that succeeded, and the tokens that did not
   arrive, less those of other semaphores that went to its takers.
  */
  lemma {:induction false} TokensAccounted(ks: seq<Kernel>, gs: seq<Ledger>, ops: seq<Op>, idle: Task, s: SemId)
    requires Run(ks, ops, idle) && Booking(ks, gs, ops) && Inv(ks[0], idle)
    ensures var n := |ops|;
      At(ks[0].value, s) + At(gs[n].gives, s) - At(gs[0].gives, s) ==
        At(ks[n].value, s) + At(gs[n].takes, s) - At(gs[0].takes, s) + LostTokens(ks, gs, ops, s)
          - Strays(ks, gs, ops, s)
    decreases |ops|
  {
    hide Inv;
    hide Step;
    hide Booked;
    hide LostBy;
    hide StrayBy;
    if ops != [] {
      StepKeeps(ks[0], ops[0], idle);
      ValuesInStep(ks[0], ops[0], idle);
      AccountStep(ks[0], gs[0], ops[0], s);
      TokensAccounted(ks[1..], gs[1..], ops[1..], idle, s);
    }
  }

  lemma {:induction false} ValuesInStep(k: Kernel, op: Op, idle: Task)
    requires Inv(k, idle)
    ensures Step(k, op).value == Values(k, op)
  {
    hide Inv;
    hide Middle;
    hide Values;
    hide SwitchIf;
    ValuesAfter(k, op, idle);
    SwitchIfKeeps(Middle(k, op), Leaves(k, op) || Readies(k, op), Leaves(k, op));
  }
}
