/**
 Safety over every run of the scheduler: where the tasks are, who runs, and in
 which order ready tasks are dispatched.
*/
module SchedSafety {
  import opened Chains
  import opened SchedSpec
  import opened SchedRuns

  ghost predicate Run(ks: seq<Kernel>, ops: seq<Op>, idle: Task)
    decreases |ops|
  {
    && |ks| == |ops| + 1
    && (ops != [] ==> Allowed(ks[0], ops[0], idle) && ks[1] == Step(ks[0], ops[0]) && Run(ks[1..], ops[1..], idle))
  }

  lemma {:induction false} RunKeeps(ks: seq<Kernel>, ops: seq<Op>, idle: Task, i: nat)
    requires Run(ks, ops, idle) && Inv(ks[0], idle) && i < |ks|
    ensures Inv(ks[i], idle)
    decreases |ops|
  {
    if i > 0 {
      StepKeeps(ks[0], ops[0], idle);
      RunKeeps(ks[1..], ops[1..], idle, i - 1);
    }
  }

  lemma {:induction false} BootedKeeps(idle: Task, value: map<SemId, int>)
    requires idle != NULL && forall s :: At(value, s) >= 0
    ensures Inv(Booted(idle, value), idle)
  {
    Wrote(map[], Booted(idle, value).state, idle, T_RUN);
    Wrote(map[], Booted(idle, value).timeout, idle, 0);
  }

  /** Waiting on a semaphore without a time limit: on no list. */
  ghost predicate Blocked(k: Kernel, t: Task) {
    At(k.state, t) == T_WAIT && t !in k.sleep
  }

  /** Over every run from the start, each task is in exactly one place, and its state says which. */
  lemma {:induction false} EachInOnePlace(ks: seq<Kernel>, ops: seq<Op>, idle: Task, value: map<SemId, int>, i: nat,
                                          t: Task)
    requires idle != NULL && (forall s :: At(value, s) >= 0)
    requires Run(ks, ops, idle) && ks[0] == Booted(idle, value) && i < |ks|
    ensures var k := ks[i];
      match At(k.state, t)
      case 1 => t in k.ready && t != k.current && t !in k.sleep && t !in k.dead && !Blocked(k, t)
      case 2 => t == k.current && t !in k.ready && t !in k.sleep && t !in k.dead && !Blocked(k, t)
      case 3 => (t in k.sleep <==> !Blocked(k, t)) && t != k.current && t !in k.ready && t !in k.dead
      case 4 => t in k.dead && t != k.current && t !in k.ready && t !in k.sleep && !Blocked(k, t)
      case _ => t != k.current && t !in k.ready && t !in k.sleep && t !in k.dead && !Blocked(k, t)
    ensures NoDup(ks[i].ready) && NoDup(ks[i].sleep) && NoDup(ks[i].dead)
    ensures Sorted(ks[i].prio, ks[i].ready) && Sorted(ks[i].timeout, ks[i].sleep)
  {
    BootedKeeps(idle, value);
    RunKeeps(ks, ops, idle, i);
  }

  // ----- the running task is the most urgent -----

  ghost predicate MostUrgent(k: Kernel) {
    forall t :: t in k.ready ==> At(k.prio, k.current) <= At(k.prio, t)
  }

  lemma {:induction false} HeadIsLeast(key: map<Task, int>, l: seq<Task>)
    requires Sorted(key, l) && l != []
    ensures forall t :: t in l ==> At(key, l[0]) <= At(key, t)
  {
    assert forall t :: t in l ==> t == l[0] || t in l[1..];
  }

  lemma {:induction false} SwitchUrgent(k: Kernel, idle: Task, self: bool)
    requires Mid(k, idle) && k.ready != []
    requires if self then At(k.state, k.current) == T_WAIT || At(k.state, k.current) == T_DEAD
      else At(k.state, k.current) == T_RUN
    ensures MostUrgent(Switch(k, self))
  {
    HeadIsLeast(k.prio, k.ready);
    if Switches(k, self) {
      SwitchReady(k, idle, self);
    }
  }

  /** A step that ends in no switch readies nobody. */
  lemma {:induction false} QuietStep(k: Kernel, op: Op, idle: Task)
    requires Inv(k, idle) && Allowed(k, op, idle) && !Leaves(k, op) && !Readies(k, op)
    ensures var k' := Middle(k, op); k'.ready == k.ready && k'.current == k.current && k'.sleep == k.sleep
    ensures forall t :: t in k.ready ==> At(Middle(k, op).prio, t) == At(k.prio, t)
    ensures At(Middle(k, op).prio, k.current) == At(k.prio, k.current)
  {
    if op == Tick {
      TickKeeps(k, idle);
    }
  }

  lemma {:induction false} LeavingState(k: Kernel, op: Op)
    requires Leaves(k, op) && !op.Yield?
    ensures var k1 := Middle(k, op); At(k1.state, k1.current) == T_WAIT || At(k1.state, k1.current) == T_DEAD
  {
  }

  /** Unless a task yields, no ready task is ever more urgent than the running one. */
  lemma {:induction false} StepUrgent(k: Kernel, op: Op, idle: Task)
    requires Inv(k, idle) && Allowed(k, op, idle) && MostUrgent(k) && !op.Yield?
    ensures MostUrgent(Step(k, op))
  {
    MiddleKeeps(k, op, idle);
    var k1 := Middle(k, op);
    if Leaves(k, op) {
      LeavingState(k, op);
      IdleIsReady(k1, idle);
      SwitchUrgent(k1, idle, true);
    } else if Readies(k, op) {
      if k1.ready != [] {
        SwitchUrgent(k1, idle, false);
      }
    } else {
      QuietStep(k, op, idle);
    }
  }

  lemma {:induction false} RunUrgent(ks: seq<Kernel>, ops: seq<Op>, idle: Task, i: nat)
    requires Run(ks, ops, idle) && Inv(ks[0], idle) && MostUrgent(ks[0]) && i < |ks|
    requires forall op :: op in ops ==> !op.Yield?
    ensures MostUrgent(ks[i])
    decreases |ops|
  {
    if i > 0 {
      assert ops[0] in ops;
      StepKeeps(ks[0], ops[0], idle);
      StepUrgent(ks[0], ops[0], idle);
      RunUrgent(ks[1..], ops[1..], idle, i - 1);
    }
  }

  /** A yield keeps it exactly if it goes to a task of the same priority. */
  lemma {:induction false} YieldUrgent(k: Kernel, idle: Task)
    requires Inv(k, idle) && k.current != idle && MostUrgent(k)
    ensures k.ready != [] && (MostUrgent(Step(k, Yield)) <==> At(k.prio, k.current) == At(k.prio, k.ready[0]))
  {
    IdleIsReady(k, idle);
    MiddleKeeps(k, Yield, idle);
    SwitchReady(Middle(k, Yield), idle, true);
    HeadIsLeast(k.prio, k.ready);
    assert k.ready[0] in k.ready;
  }

  // ----- first come, first served -----

  /** t is still before u, or runs while u waits on. */
  ghost predicate AheadOrRunning(k: Kernel, t: Task, u: Task) {
    Before(k.ready, t, u) || (k.current == t && u in k.ready)
  }

  lemma {:induction false} SwitchInOrder(k: Kernel, idle: Task, self: bool, t: Task, u: Task)
    requires Mid(k, idle) && Before(k.ready, t, u)
    ensures AheadOrRunning(Switch(k, self), t, u)
  {
    var high := k.ready[0];
    BeforeIn(k.ready, t, u);
    if Switches(k, self) {
      SwitchReady(k, idle, self);
      if t != high {
        InsertKeeps(k.prio, k.ready, k.current);
        InsertKeepsOrder(k.prio, k.ready, k.current, t, u);
        var back := At(k.state, k.current) == T_RUN || At(k.state, k.current) == T_READY;
        WithoutKeepsOrder(if back then Insert(k.prio, k.ready, k.current) else k.ready, high, t, u);
      }
    }
  }

  lemma {:induction false} WakeInOrder(k: Kernel, idle: Task, t: Task, u: Task)
    requires Mid(k, idle) && At(k.state, k.current) == T_RUN && Before(k.ready, t, u)
    ensures Before(Wake(k).ready, t, u)
    decreases |k.sleep|
  {
    hide Wake;
    WakeOpens(k, idle);
    if k.sleep != [] && At(k.timeout, k.sleep[0]) <= k.ticks {
      FirstWakes(k, idle);
      BeforeIn(k.ready, t, u);
      assert k.sleep[0] in k.sleep;
      InsertKeepsOrder(k.prio, k.ready, k.sleep[0], t, u);
      WakeInOrder(MakeReady(Unsleep(k), k.sleep[0]), idle, t, u);
    }
  }

  lemma {:induction false} MiddleInOrder(k: Kernel, op: Op, idle: Task, t: Task, u: Task)
    requires Inv(k, idle) && Allowed(k, op, idle) && Before(k.ready, t, u)
    ensures Before(Middle(k, op).ready, t, u)
  {
    match op
    case Tick => WakeInOrder(Clocked(k), idle, t, u);
    case Create(x, prio) => CreateInOrder(k, idle, x, prio, t, u);
    case Give(s) => GiveInOrder(k, idle, s, t, u);
    case _ =>
  }

  lemma {:induction false} CreateInOrder(k: Kernel, idle: Task, x: Task, prio: int, t: Task, u: Task)
    requires Inv(k, idle) && At(k.state, x) == 0 && Before(k.ready, t, u)
    ensures Before(Middle(k, Create(x, prio)).ready, t, u)
  {
    BeforeIn(k.ready, t, u);
    InsertKeepsOrder(k.prio[x := prio], k.ready, x, t, u);
  }

  lemma {:induction false} GiveInOrder(k: Kernel, idle: Task, s: SemId, t: Task, u: Task)
    requires Inv(k, idle) && Before(k.ready, t, u)
    ensures Before(Middle(k, Give(s)).ready, t, u)
  {
    BeforeIn(k.ready, t, u);
    if Wakes(k, s) {
      InsertKeepsOrder(k.prio, k.ready, At(k.waiter, s), t, u);
    }
  }

  /** Ready tasks leave the ready list in its order. */
  lemma {:induction false} StepInOrder(k: Kernel, op: Op, idle: Task, t: Task, u: Task)
    requires Inv(k, idle) && Allowed(k, op, idle) && Before(k.ready, t, u)
    ensures AheadOrRunning(Step(k, op), t, u)
  {
    MiddleKeeps(k, op, idle);
    MiddleInOrder(k, op, idle, t, u);
    SwitchInOrder(Middle(k, op), idle, Leaves(k, op), t, u);
  }

  lemma {:induction false} FirstStepInOrder(ks: seq<Kernel>, ops: seq<Op>, idle: Task, t: Task, u: Task)
    requires Run(ks, ops, idle) && Inv(ks[0], idle) && Before(ks[0].ready, t, u) && ops != []
    ensures Inv(ks[1], idle) && AheadOrRunning(ks[1], t, u) && ks[1].current != u
  {
    StepKeeps(ks[0], ops[0], idle);
    StepInOrder(ks[0], ops[0], idle, t, u);
    if Before(ks[1].ready, t, u) {
      BeforeIn(ks[1].ready, t, u);
    }
    RunningIsNotReady(ks[1], idle);
  }

  lemma {:induction false} RunningIsNotReady(k: Kernel, idle: Task)
    requires Inv(k, idle)
    ensures k.current !in k.ready
  {
  }

  /** In every run, a ready task is dispatched before every task behind it. */
  lemma {:induction false} FirstReadyFirstRun(ks: seq<Kernel>, ops: seq<Op>, idle: Task, t: Task, u: Task, j: nat)
    returns (i: nat)
    requires Run(ks, ops, idle) && Inv(ks[0], idle) && Before(ks[0].ready, t, u)
    requires 0 < j < |ks| && ks[j].current == u
    ensures 0 < i < j && ks[i].current == t
    decreases |ops|
  {
    hide Inv;
    hide Step;
    hide Allowed;
    FirstStepInOrder(ks, ops, idle, t, u);
    if ks[1].current == t && u in ks[1].ready {
      i := 1;
    } else {
      var i' := FirstReadyFirstRun(ks[1..], ops[1..], idle, t, u, j - 1);
      i := i' + 1;
    }
  }

  /** A task that becomes ready in the loop of a tick goes behind those not less urgent. */
  lemma {:induction false} WakesBehind(k: Kernel, idle: Task, t: Task, u: Task)
    requires Mid(k, idle) && At(k.state, k.current) == T_RUN
    requires t in k.ready && u in k.sleep && At(k.timeout, u) <= k.ticks && At(k.prio, t) <= At(k.prio, u)
    ensures Before(Wake(k).ready, t, u)
    decreases |k.sleep|
  {
    hide Before;
    hide Wake;
    WakeOpens(k, idle);
    HeadIsLeast(k.timeout, k.sleep);
    FirstWakes(k, idle);
    if u == k.sleep[0] {
      InsertGoesBehind(k.prio, k.ready, u, t);
      WakeInOrder(MakeReady(Unsleep(k), u), idle, t, u);
    } else {
      WakesBehind(MakeReady(Unsleep(k), k.sleep[0]), idle, t, u);
    }
  }

  /** Of two sleepers that one tick wakes, the one that is first on the sleep list becomes ready first. */
  lemma {:induction false} WakesInSleepOrder(k: Kernel, idle: Task, t: Task, u: Task)
    requires Mid(k, idle) && At(k.state, k.current) == T_RUN && Before(k.sleep, t, u)
    requires At(k.timeout, t) <= k.ticks && At(k.timeout, u) <= k.ticks && At(k.prio, t) <= At(k.prio, u)
    ensures Before(Wake(k).ready, t, u)
    decreases |k.sleep|
  {
    hide Wake;
    BeforeIn(k.sleep, t, u);
    WakeOpens(k, idle);
    HeadIsLeast(k.timeout, k.sleep);
    FirstWakes(k, idle);
    hide Mid;
    hide WakeFirst;
    var k1 := WakeFirst(k);
    if t == k.sleep[0] {
      WakesBehind(k1, idle, t, u);
    } else {
      WakesInSleepOrder(k1, idle, t, u);
    }
  }

  lemma {:induction false} ReadiedByTick(k: Kernel, idle: Task, u: Task)
    requires Inv(k, idle) && u !in k.ready && u in Middle(k, Tick).ready
    ensures u in k.sleep && At(k.timeout, u) <= k.ticks + 1 && Middle(k, Tick).prio == k.prio
  {
    TickKeeps(k, idle);
  }

  lemma {:induction false} TickBehind(k: Kernel, idle: Task, t: Task, u: Task)
    requires Inv(k, idle) && t in k.ready && u !in k.ready
    requires var k1 := Middle(k, Tick); u in k1.ready && At(k1.prio, t) <= At(k1.prio, u)
    ensures Before(Middle(k, Tick).ready, t, u)
  {
    hide Inv;
    hide Mid;
    hide Wake;
    ReadiedByTick(k, idle, u);
    ClockedIs(k, idle);
    WakesBehind(Clocked(k), idle, t, u);
  }

  lemma {:induction false} MiddleBehind(k: Kernel, op: Op, idle: Task, t: Task, u: Task)
    requires Inv(k, idle) && Allowed(k, op, idle) && t in k.ready && u !in k.ready
    requires var k1 := Middle(k, op); u in k1.ready && At(k1.prio, t) <= At(k1.prio, u)
    ensures Before(Middle(k, op).ready, t, u)
  {
    if op.Tick? {
      TickBehind(k, idle, t, u);
    } else if op.Create? {
      CreateBehind(k, idle, op.t, op.prio, t, u);
    } else if op.Give? && Wakes(k, op.s) {
      GiveBehind(k, idle, op.s, t, u);
    } else {
      ReadyUnchanged(k, op);
    }
  }

  lemma {:induction false} ReadyUnchanged(k: Kernel, op: Op)
    requires !op.Tick? && !op.Create? && !(op.Give? && Wakes(k, op.s))
    ensures Middle(k, op).ready == k.ready
  {
  }

  lemma {:induction false} GiveBehind(k: Kernel, idle: Task, s: SemId, t: Task, u: Task)
    requires Inv(k, idle) && Wakes(k, s) && t in k.ready && u !in k.ready
    requires var k1 := Middle(k, Give(s)); u in k1.ready && At(k1.prio, t) <= At(k1.prio, u)
    ensures Before(Middle(k, Give(s)).ready, t, u)
  {
    InsertedBehind(k.prio, k.prio, k.ready, At(k.waiter, s), t, u);
  }

  lemma {:induction false} CreateBehind(k: Kernel, idle: Task, x: Task, prio: int, t: Task, u: Task)
    requires Inv(k, idle) && At(k.state, x) == 0 && t in k.ready && u !in k.ready
    requires var k1 := Middle(k, Create(x, prio)); u in k1.ready && At(k1.prio, t) <= At(k1.prio, u)
    ensures Before(Middle(k, Create(x, prio)).ready, t, u)
  {
    InsertedBehind(k.prio, k.prio[x := prio], k.ready, x, t, u);
  }

  lemma {:induction false} InsertedBehind(prio: map<Task, int>, prio': map<Task, int>, l: seq<Task>, x: Task, t: Task,
                                          u: Task)
    requires Sorted(prio, l) && (forall a :: a in l ==> At(prio', a) == At(prio, a))
    requires t in l && u !in l && u in Insert(prio', l, x) && At(prio', t) <= At(prio', u)
    ensures Before(Insert(prio', l, x), t, u)
  {
    InsertElems(prio', l, x);
    SortedAgree(prio, prio', l);
    InsertGoesBehind(prio', l, x, t);
  }

  lemma {:induction false} SwitchBehind(k: Kernel, idle: Task, self: bool, t: Task)
    requires Mid(k, idle) && t in k.ready && At(k.prio, t) <= At(k.prio, k.current)
    requires var k' := Switch(k, self); t in k'.ready && k.current in k'.ready
    ensures Before(Switch(k, self).ready, t, k.current)
  {
    assert Switches(k, self);
    SwitchReady(k, idle, self);
    InsertKeeps(k.prio, k.ready, k.current);
    InsertGoesBehind(k.prio, k.ready, k.current, t);
    WithoutKeepsOrder(Insert(k.prio, k.ready, k.current), k.ready[0], t, k.current);
  }

  /** A task that becomes ready goes behind every ready task that is not less urgent. */
  lemma {:induction false} BecomesReadyBehind(k: Kernel, op: Op, idle: Task, t: Task, u: Task)
    requires Inv(k, idle) && Allowed(k, op, idle) && t in k.ready && u !in k.ready
    requires var k' := Step(k, op); t in k'.ready && u in k'.ready && At(k'.prio, t) <= At(k'.prio, u)
    ensures Before(Step(k, op).ready, t, u)
  {
    MiddleKeeps(k, op, idle);
    StepKeeps(k, op, idle);
    var k1 := Middle(k, op);
    ReadyGrows(k, op, idle, t);
    if u in k1.ready {
      MiddleBehind(k, op, idle, t, u);
      SwitchInOrder(k1, idle, Leaves(k, op), t, u);
    } else {
      if Switches(k1, Leaves(k, op)) {
        SwitchReady(k1, idle, Leaves(k, op));
      }
      SwitchBehind(k1, idle, Leaves(k, op), t);
    }
  }

  /** A task that is preempted, or yields, goes behind every ready task that is not less urgent, new ones included. */
  lemma {:induction false} PreemptedGoesBehind(k: Kernel, op: Op, idle: Task, u: Task)
    requires Inv(k, idle) && Allowed(k, op, idle)
    requires var t, k' := k.current, Step(k, op);
      t in k'.ready && u in k'.ready && u != t && At(k'.prio, u) <= At(k'.prio, t)
    ensures Before(Step(k, op).ready, u, k.current)
  {
    var k1 := Middle(k, op);
    MiddleKeeps(k, op, idle);
    RunnerStays(k, op, idle);
    hide Inv;
    hide Middle;
    if Switches(k1, Leaves(k, op)) {
      SwitchReady(k1, idle, Leaves(k, op));
      SwitchBehind(k1, idle, Leaves(k, op), u);
    }
  }

  lemma {:induction false} RunnerStays(k: Kernel, op: Op, idle: Task)
    requires Inv(k, idle)
    ensures Middle(k, op).current == k.current
  {
    if op.Tick? {
      TickKeeps(k, idle);
    } else {
      HandsOverNothing(k, op);
    }
  }

  lemma {:induction false} HandsOverNothing(k: Kernel, op: Op)
    requires !op.Tick? && k.current != NULL
    ensures Middle(k, op).current == k.current
  {
    hide Insert;
    hide Wake;
    hide Buried;
    hide Hand;
    hide Block;
    if op.Give? {
      HandsToken(k, op.s);
    } else if op.Take? {
      BlocksRunner(k, op.s, op.timeout);
    }
  }

  lemma {:induction false} HandsToken(k: Kernel, s: SemId)
    ensures Hand(k, s).current == k.current
  {
    hide Without;
  }

  lemma {:induction false} BlocksRunner(k: Kernel, s: SemId, timeout: int)
    ensures Block(k, s, timeout).current == k.current
  {
    hide Insert;
  }

  lemma {:induction false} ReadyGrows(k: Kernel, op: Op, idle: Task, t: Task)
    requires Inv(k, idle) && Allowed(k, op, idle) && t in k.ready
    ensures t in Middle(k, op).ready
  {
    hide Inv;
    hide Allowed;
    match op
    case Tick => TickKeeps(k, idle);
    case Create(x, prio) => InsertElems(k.prio[x := prio], k.ready, x);
    case Give(s) => InsertElems(k.prio, k.ready, At(k.waiter, s));
    case _ =>
  }

  lemma {:induction false} WokenAhead(k: Kernel, idle: Task, t: Task, u: Task)
    requires Inv(k, idle) && Before(k.sleep, t, u)
    requires At(k.timeout, u) <= k.ticks + 1 && At(k.prio, t) <= At(k.prio, u)
    ensures Before(Middle(k, Tick).ready, t, u)
  {
    hide Wake;
    hide Before;
    ClockedIs(k, idle);
    FirstIsSooner(k.timeout, k.sleep, t, u);
    hide Inv;
    hide Mid;
    WakesInSleepOrder(Clocked(k), idle, t, u);
  }

  lemma {:induction false} AheadAfterSwitch(k: Kernel, idle: Task, wanted: bool, t: Task, u: Task)
    requires Mid(k, idle) && Before(k.ready, t, u)
    ensures AheadOrRunning(SwitchIf(k, wanted, false), t, u)
  {
    hide Mid;
    hide Before;
    SwitchInOrder(k, idle, false, t, u);
  }

  lemma {:induction false} WokenInOrder(k: Kernel, idle: Task, t: Task, u: Task)
    requires Inv(k, idle) && Allowed(k, Tick, idle) && Before(k.sleep, t, u)
    requires At(k.timeout, u) <= k.ticks + 1 && At(k.prio, t) <= At(k.prio, u)
    ensures AheadOrRunning(Step(k, Tick), t, u) && Step(k, Tick).current != u && Inv(Step(k, Tick), idle)
  {
    hide Inv;
    hide Mid;
    hide Middle;
    hide Before;
    StepKeeps(k, Tick, idle);
    MiddleKeeps(k, Tick, idle);
    WokenAhead(k, idle, t, u);
    AheadAfterSwitch(Middle(k, Tick), idle, Readies(k, Tick), t, u);
    var k' := Step(k, Tick);
    hide Step;
    if Before(k'.ready, t, u) {
      BeforeIn(k'.ready, t, u);
    }
    RunningIsNotReady(k', idle);
  }

  /** Two sleepers of the same priority that one tick wakes run in the order of the sleep list, in every run. */
  lemma {:induction false} WokenRunInOrder(ks: seq<Kernel>, ops: seq<Op>, idle: Task, t: Task, u: Task, j: nat)
    returns (i: nat)
    requires Run(ks, ops, idle) && Inv(ks[0], idle) && 0 < j < |ks| && ops[0] == Tick && Before(ks[0].sleep, t, u)
    requires At(ks[0].timeout, u) <= ks[0].ticks + 1 && At(ks[0].prio, t) == At(ks[0].prio, u) && ks[j].current == u
    ensures 0 < i < j && ks[i].current == t
  {
    hide Inv;
    hide Step;
    WokenInOrder(ks[0], idle, t, u);
    if ks[1].current == t {
      i := 1;
    } else {
      var i' := FirstReadyFirstRun(ks[1..], ops[1..], idle, t, u, j - 1);
      i := i' + 1;
    }
  }

  lemma {:induction false} FirstIsSooner(key: map<Task, int>, l: seq<Task>, t: Task, u: Task)
    requires Sorted(key, l) && Before(l, t, u)
    ensures At(key, t) <= At(key, u)
  {
    if l[0] != t {
      FirstIsSooner(key, l[1..], t, u);
    }
  }

  /** Two ready tasks of the same priority run in the order they became ready, in every run. */
  lemma {:induction false} EqualsRunInOrder(ks: seq<Kernel>, ops: seq<Op>, idle: Task, t: Task, u: Task, j: nat)
    returns (i: nat)
    requires Run(ks, ops, idle) && Inv(ks[0], idle) && 1 < j < |ks|
    requires t in ks[0].ready && u !in ks[0].ready && t in ks[1].ready && u in ks[1].ready
    requires At(ks[1].prio, t) == At(ks[1].prio, u) && ks[j].current == u
    ensures 1 < i < j && ks[i].current == t
  {
    StepKeeps(ks[0], ops[0], idle);
    BecomesReadyBehind(ks[0], ops[0], idle, t, u);
    var i' := FirstReadyFirstRun(ks[1..], ops[1..], idle, t, u, j - 1);
    i := i' + 1;
  }

  /** A task that is preempted runs again after every task of its priority that is ready then, in every run. */
  lemma {:induction false} PreemptedRunsBehind(ks: seq<Kernel>, ops: seq<Op>, idle: Task, u: Task, j: nat)
    returns (i: nat)
    requires Run(ks, ops, idle) && Inv(ks[0], idle) && 1 < j < |ks|
    requires var t := ks[0].current;
      t in ks[1].ready && u in ks[1].ready && u != t && At(ks[1].prio, u) == At(ks[1].prio, t)
    requires ks[j].current == ks[0].current
    ensures 1 < i < j && ks[i].current == u
  {
    hide Inv;
    hide Step;
    StepKeeps(ks[0], ops[0], idle);
    PreemptedGoesBehind(ks[0], ops[0], idle, u);
    var i' := FirstReadyFirstRun(ks[1..], ops[1..], idle, u, ks[0].current, j - 1);
    i := i' + 1;
  }
}
