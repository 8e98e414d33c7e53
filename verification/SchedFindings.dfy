/**
 Runs from the boot, with two tasks of one priority besides the idle task, in which
 the scheduler does not do what its callers may expect.
*/
module SchedFindings {
  import opened Chains
  import opened SchedSpec
  import opened SchedRuns
  import opened SchedSafety
  import opened SchedWaits

  const IDLE: Task := 1
  const FIRST: Task := 2
  const SECOND: Task := 3
  const PRIO := 3
  const SEM: SemId := 100

  ghost function Boot(): Kernel {
    Booted(IDLE, map[])
  }

  ghost function NoBooks(): Ledger {
    Ledger(map[], map[], map[])
  }

  /** A run and its books go on with one more call. */
  lemma {:induction false} Extended(ks: seq<Kernel>, gs: seq<Ledger>, ops: seq<Op>, op: Op)
      returns (ks': seq<Kernel>, gs': seq<Ledger>, ops': seq<Op>)
    requires Run(ks, ops, IDLE) && Booking(ks, gs, ops) && Allowed(ks[|ops|], op, IDLE)
    ensures ks' == ks + [Step(ks[|ops|], op)] && gs' == gs + [Booked(ks[|ops|], gs[|ops|], op)] && ops' == ops + [op]
    ensures Run(ks', ops', IDLE) && Booking(ks', gs', ops')
    decreases |ops|
  {
    hide Step;
    hide Allowed;
    hide Booked;
    ks' := ks + [Step(ks[|ops|], op)];
    gs' := gs + [Booked(ks[|ops|], gs[|ops|], op)];
    ops' := ops + [op];
    if ops != [] {
      var ks1, gs1, ops1 := Extended(ks[1..], gs[1..], ops[1..], op);
      assert ks'[1..] == ks1 && gs'[1..] == gs1 && ops'[1..] == ops1;
    }
  }

  lemma {:induction false} BootIs()
    ensures var k := Boot();
      && k.current == IDLE && k.ready == [] && k.sleep == [] && k.dead == [] && k.ticks == 0
      && k.value == map[] && k.waiter == map[] && k.prio == map[IDLE := MAX_PRIORITY]
      && k.state == map[IDLE := T_RUN] && k.timeout == map[IDLE := 0]
    ensures Inv(Boot(), IDLE)
  {
    BootedKeeps(IDLE, map[]);
  }

  /** What the steps below read. */
  ghost predicate Looks(k: Kernel, current: Task, ready: seq<Task>, sleep: seq<Task>, ticks: int, waiter: Task) {
    && k.current == current && k.ready == ready && k.sleep == sleep && k.ticks == ticks
    && At(k.prio, IDLE) == MAX_PRIORITY && At(k.prio, FIRST) == PRIO
    && (At(k.state, SECOND) != 0 ==> At(k.prio, SECOND) == PRIO)
    && At(k.value, SEM) == 0 && At(k.waiter, SEM) == waiter && forall s :: At(k.waiter, s) != NULL ==> s == SEM
  }

  /** The first task, of a higher priority than the idle task, runs at once. */
  ghost function One(): Kernel {
    Step(Boot(), Create(FIRST, PRIO))
  }

  lemma {:induction false} FirstStarts()
    ensures Allowed(Boot(), Create(FIRST, PRIO), IDLE) && Inv(One(), IDLE)
    ensures Looks(One(), FIRST, [IDLE], [], 0, NULL) && At(One().state, SECOND) == 0
  {
    hide Inv;
    hide Boot;
    BootIs();
    var k := Boot();
    StepKeeps(k, Create(FIRST, PRIO), IDLE);
    assert Middle(k, Create(FIRST, PRIO)).ready == [FIRST];
    assert Insert(k.prio[FIRST := PRIO], [FIRST], IDLE) == [FIRST, IDLE] by {
      assert [FIRST][1..] == [];
    }
    assert Without([FIRST, IDLE], FIRST) == [IDLE];
  }

  // ----- priorities -----

  /** The first task yields, and the idle task runs while it is ready. */
  lemma {:induction false} IdleRunsBeforeUrgent() returns (ks: seq<Kernel>, ops: seq<Op>)
    ensures Run(ks, ops, IDLE) && ks[0] == Boot() && !MostUrgent(ks[|ops|])
    ensures ks[|ops|].current == IDLE && FIRST in ks[|ops|].ready
  {
    hide Step;
    hide Boot;
    hide Inv;
    hide Allowed;
    FirstStarts();
    YieldsToIdle(One());
    var gs;
    ks, gs, ops := Extended([Boot()], [NoBooks()], [], Create(FIRST, PRIO));
    ks, gs, ops := Extended(ks, gs, ops, Yield);
  }

  lemma {:induction false} YieldsToIdle(k: Kernel)
    requires Inv(k, IDLE) && Looks(k, FIRST, [IDLE], [], 0, NULL)
    ensures var k' := Step(k, Yield);
      k'.current == IDLE && k'.ready == [FIRST] && At(k'.prio, FIRST) < At(k'.prio, IDLE) && Allowed(k, Yield, IDLE)
  {
    assert Insert(k.prio, [IDLE], FIRST) == [FIRST, IDLE];
    assert Without([FIRST, IDLE], IDLE) == [FIRST];
  }

  lemma {:induction false} RunnerRuns(k: Kernel)
    requires Inv(k, IDLE)
    ensures At(k.state, k.current) == T_RUN
  {
  }

  // ----- two tasks -----

  /** The second task runs as soon as it is created, and the first is behind it. */
  ghost function Two(): Kernel {
    Step(One(), Create(SECOND, PRIO))
  }

  lemma {:induction false} SecondStarts()
    ensures Allowed(One(), Create(SECOND, PRIO), IDLE) && Inv(Two(), IDLE)
    ensures Looks(Two(), SECOND, [FIRST, IDLE], [], 0, NULL)
  {
    hide One;
    hide Step;
    FirstStarts();
    CreatesSecond(One());
  }

  lemma {:induction false} CreatesSecond(k: Kernel)
    requires Inv(k, IDLE) && Looks(k, FIRST, [IDLE], [], 0, NULL) && At(k.state, SECOND) == 0
    ensures Allowed(k, Create(SECOND, PRIO), IDLE) && Inv(Step(k, Create(SECOND, PRIO)), IDLE)
    ensures Looks(Step(k, Create(SECOND, PRIO)), SECOND, [FIRST, IDLE], [], 0, NULL)
  {
    hide Inv;
    var prio := k.prio[SECOND := PRIO];
    RunnerRuns(k);
    StepKeeps(k, Create(SECOND, PRIO), IDLE);
    assert Insert(prio, [IDLE], SECOND) == [SECOND, IDLE];
    assert Insert(prio, [SECOND, IDLE], FIRST) == [SECOND, FIRST, IDLE] by {
      assert [SECOND, IDLE][1..] == [IDLE] && Insert(prio, [IDLE], FIRST) == [FIRST, IDLE];
    }
    assert Without([SECOND, FIRST, IDLE], SECOND) == [FIRST, IDLE];
  }

  /** The second task waits for a token without a time limit, or with one. */
  lemma {:induction false} SecondWaits(k: Kernel, timeout: int)
    requires Inv(k, IDLE) && Looks(k, SECOND, [FIRST, IDLE], [], 0, NULL) && (timeout == -1 || timeout == 1)
    ensures var k' := Step(k, Take(SEM, timeout));
      && Allowed(k, Take(SEM, timeout), IDLE) && Inv(k', IDLE) && At(k'.state, SECOND) == T_WAIT
      && Looks(k', FIRST, [IDLE], if timeout == 1 then [SECOND] else [], 0, SECOND)
      && (timeout == 1 ==> At(k'.timeout, SECOND) == 1)
  {
    StepKeeps(k, Take(SEM, timeout), IDLE);
    assert Without([FIRST, IDLE], FIRST) == [IDLE];
    Wrote(k.waiter, k.waiter[SEM := SECOND], SEM, SECOND);
  }

  lemma {:induction false} LosesSecond(k: Kernel)
    requires Inv(k, IDLE) && Looks(k, FIRST, [IDLE], [], 0, SECOND) && At(k.state, SECOND) == T_WAIT
    ensures Allowed(k, Take(SEM, -1), IDLE) && Lost(Step(k, Take(SEM, -1)), SECOND)
  {
    hide Step;
    hide Inv;
    SecondWaiterLosesFirst(k, SEM, -1, IDLE, SECOND);
  }

  /** Both tasks are there, and the second takes. */
  lemma {:induction false} SecondTakes(timeout: int) returns (ks: seq<Kernel>, gs: seq<Ledger>, ops: seq<Op>)
    requires timeout == -1 || timeout == 1
    ensures Run(ks, ops, IDLE) && Booking(ks, gs, ops) && ks[0] == Boot() && gs[0] == NoBooks() && Inv(ks[0], IDLE)
    ensures var k := ks[|ops|];
      && Inv(k, IDLE) && At(k.state, SECOND) == T_WAIT && (timeout == 1 ==> At(k.timeout, SECOND) == 1)
      && Looks(k, FIRST, [IDLE], if timeout == 1 then [SECOND] else [], 0, SECOND)
  {
    hide Step;
    hide Boot;
    hide Inv;
    hide Looks;
    hide Allowed;
    BootIs();
    FirstStarts();
    SecondStarts();
    SecondWaits(Two(), timeout);
    ks, gs, ops := Extended([Boot()], [NoBooks()], [], Create(FIRST, PRIO));
    ks, gs, ops := Extended(ks, gs, ops, Create(SECOND, PRIO));
    ks, gs, ops := Extended(ks, gs, ops, Take(SEM, timeout));
  }

  /** Two tasks wait for one semaphore: the one that came first is lost. */
  lemma {:induction false} FirstTakerIsLost() returns (ks: seq<Kernel>, ops: seq<Op>)
    ensures Run(ks, ops, IDLE) && ks[0] == Boot() && Lost(ks[|ops|], SECOND)
  {
    hide Step;
    hide Boot;
    hide Lost;
    hide Inv;
    hide Looks;
    hide Allowed;
    var gs;
    ks, gs, ops := SecondTakes(-1);
    LosesSecond(ks[|ops|]);
    ks, gs, ops := Extended(ks, gs, ops, Take(SEM, -1));
  }

  // ----- a token that goes astray -----

  /** The second task's time runs out, and it runs. */
  lemma {:induction false} SecondExpires(k: Kernel)
    requires Inv(k, IDLE) && Looks(k, FIRST, [IDLE], [SECOND], 0, SECOND)
    requires At(k.state, SECOND) == T_WAIT && At(k.timeout, SECOND) == 1
    ensures Allowed(k, Tick, IDLE)
    ensures var k' := Step(k, Tick);
      Inv(k', IDLE) && k'.ticks == 1 && k'.current == SECOND && At(k'.waiter, SEM) == SECOND
        && At(k'.state, SECOND) == T_RUN
  {
    StepKeeps(k, Tick, IDLE);
    assert Insert(k.prio, [IDLE], SECOND) == [SECOND, IDLE];
    assert WakeFirst(Clocked(k)).sleep == [] && Wake(Clocked(k)) == WakeFirst(Clocked(k));
    RunnerRuns(k);
  }

  lemma {:induction false} SecondRunsAgain() returns (ks: seq<Kernel>, gs: seq<Ledger>, ops: seq<Op>)
    ensures Run(ks, ops, IDLE) && Booking(ks, gs, ops) && ks[0] == Boot() && gs[0] == NoBooks()
    ensures var k := ks[|ops|];
      && Inv(k, IDLE) && k.ticks == 1 && k.current == SECOND && At(k.waiter, SEM) == SECOND
      && At(k.state, SECOND) == T_RUN && AllWait(k, gs[|ops|].on)
  {
    hide Step;
    hide Boot;
    hide Inv;
    hide Looks;
    hide Allowed;
    ks, gs, ops := SecondTakes(1);
    SecondExpires(ks[|ops|]);
    ks, gs, ops := Extended(ks, gs, ops, Tick);
    AllWaitRun(ks, gs, ops, IDLE, |ops|);
  }

  /** After a timed wait that ran out, the next token arrives nowhere. */
  lemma {:induction false} TokenIsLost() returns (ks: seq<Kernel>, gs: seq<Ledger>, ops: seq<Op>)
    ensures Run(ks, ops, IDLE) && Booking(ks, gs, ops) && ks[0] == Boot() && gs[0] == NoBooks()
    ensures var n := |ops| - 1;
      n >= 0 && ops[n] == Give(SEM) && !Arrives(ks[n], gs[n], ks[n + 1], gs[n + 1], SEM)
  {
    hide Step;
    hide Boot;
    hide Inv;
    hide Booked;
    hide AllWait;
    hide Arrives;
    ks, gs, ops := SecondRunsAgain();
    StaleWaiterTakesToken(ks[|ops|], gs[|ops|], SEM, IDLE, SECOND);
    ks, gs, ops := Extended(ks, gs, ops, Give(SEM));
  }

  lemma {:induction false} SecondDelays(k: Kernel)
    requires Inv(k, IDLE) && k.ticks == 1 && k.current == SECOND && At(k.waiter, SEM) == SECOND
    ensures Allowed(k, Delay(10), IDLE)
    ensures var k' := Step(k, Delay(10));
      && Inv(k', IDLE) && SECOND in k'.sleep && k'.ticks == 1 && At(k'.timeout, SECOND) == 11
      && At(k'.waiter, SEM) == SECOND
  {
    StepKeeps(k, Delay(10), IDLE);
    DelayStarts(k, IDLE, 10);
    SwitchIfKeeps(Middle(k, Delay(10)), true, true);
  }

  /** And if the task then delays itself for ten ticks, the token wakes it at once. */
  lemma {:induction false} DelayIsCut() returns (ks: seq<Kernel>, gs: seq<Ledger>, ops: seq<Op>)
    ensures Run(ks, ops, IDLE) && Booking(ks, gs, ops) && ks[0] == Boot() && gs[0] == NoBooks()
    ensures var n := |ops| - 2;
      && n >= 0 && ks[n].current == SECOND && ops[n] == Delay(10) && ops[n + 1] == Give(SEM)
      && SECOND in ks[n + 1].sleep && SECOND !in ks[n + 2].sleep && ks[n + 2].ticks == ks[n].ticks
      && !Arrives(ks[n + 1], gs[n + 1], ks[n + 2], gs[n + 2], SEM)
  {
    hide Step;
    hide Boot;
    hide Inv;
    hide Booked;
    hide Arrives;
    hide Allowed;
    ks, gs, ops := SecondRunsAgain();
    var k, g := ks[|ops|], gs[|ops|];
    assert SECOND !in g.on;
    SecondDelays(k);
    ks, gs, ops := Extended(ks, gs, ops, Delay(10));
    var n := |ops|;
    GivesToSleeper(k, ks[n], g);
    ks, gs, ops := Extended(ks, gs, ops, Give(SEM));
  }

  lemma {:induction false} GivesToSleeper(k: Kernel, k1: Kernel, g: Ledger)
    requires Inv(k, IDLE) && Allowed(k, Delay(10), IDLE) && AllWait(k, g.on) && SECOND !in g.on
    requires k1 == Step(k, Delay(10)) && Inv(k1, IDLE) && SECOND in k1.sleep && At(k1.waiter, SEM) == SECOND
    ensures var g1, k2 := Booked(k, g, Delay(10)), Step(k1, Give(SEM));
      && Allowed(k1, Give(SEM), IDLE) && SECOND !in k2.sleep && k2.ticks == k1.ticks
      && !Arrives(k1, g1, k2, Booked(k1, g1, Give(SEM)), SEM)
  {
    hide Inv;
    hide Step;
    hide Arrives;
    AllWaitStep(k, g, Delay(10), IDLE);
    StaleWaiterSleepsLess(k1, Booked(k, g, Delay(10)), SEM, IDLE, SECOND);
    GiveKeepsClock(k1);
  }

  lemma {:induction false} GiveKeepsClock(k: Kernel)
    ensures Step(k, Give(SEM)).ticks == k.ticks
  {
    ClockStands(k, Give(SEM));
    SwitchIfKeeps(Middle(k, Give(SEM)), Readies(k, Give(SEM)), false);
  }

  // ----- sleepers that nothing wakes -----

  lemma {:induction false} FirstSleeps(k: Kernel)
    requires Inv(k, IDLE) && Looks(k, FIRST, [IDLE], [], 0, NULL) && At(k.state, SECOND) == 0
    ensures var k' := Step(k, Delay(10));
      && Allowed(k, Delay(10), IDLE) && Inv(k', IDLE) && k'.current == IDLE && k'.ready == [] && k'.sleep == [FIRST]
      && k'.ticks == 0 && At(k'.timeout, FIRST) == 10 && At(k'.state, SECOND) == 0 && At(k'.prio, IDLE) == MAX_PRIORITY
  {
    StepKeeps(k, Delay(10), IDLE);
    assert Without([IDLE], IDLE) == [];
  }

  lemma {:induction false} SecondRunsBesides(k: Kernel)
    requires Inv(k, IDLE) && k.current == IDLE && k.ready == [] && k.sleep == [FIRST] && k.ticks == 0
    requires At(k.timeout, FIRST) == 10 && At(k.state, SECOND) == 0 && At(k.prio, IDLE) == MAX_PRIORITY
    ensures var k' := Step(k, Create(SECOND, PRIO));
      && Allowed(k, Create(SECOND, PRIO), IDLE) && Inv(k', IDLE) && k'.current == SECOND && k'.sleep == [FIRST]
      && k'.ticks == 0 && At(k'.timeout, FIRST) == 10
  {
    StepKeeps(k, Create(SECOND, PRIO), IDLE);
    RunnerRuns(k);
    assert Middle(k, Create(SECOND, PRIO)).ready == [SECOND];
  }

  /**
   The first task sleeps for ten ticks, and then the second for a number below 0: no
   tick wakes the first from then on.
  */
  lemma {:induction false} NobodyWakes() returns (ks: seq<Kernel>, ops: seq<Op>)
    ensures Run(ks, ops, IDLE) && ks[0] == Boot()
    ensures var k := ks[|ops|];
      && Inv(k, IDLE) && k.current == SECOND && k.sleep == [FIRST] && At(k.timeout, FIRST) == 10
      && Frozen(Step(k, Delay(-1)), SECOND) && FIRST in Step(k, Delay(-1)).sleep
  {
    hide Step;
    hide Boot;
    hide Inv;
    hide Looks;
    hide Allowed;
    hide Frozen;
    hide Middle;
    var gs;
    FirstStarts();
    FirstSleeps(One());
    ks, gs, ops := Extended([Boot()], [NoBooks()], [], Create(FIRST, PRIO));
    ks, gs, ops := Extended(ks, gs, ops, Delay(10));
    SecondRunsBesides(ks[|ops|]);
    ks, gs, ops := Extended(ks, gs, ops, Create(SECOND, PRIO));
    var k := ks[|ops|];
    SleepFreezes(k, Delay(-1), IDLE, -1);
    StillSleeps(k);
  }

  lemma {:induction false} StillSleeps(k: Kernel)
    requires Inv(k, IDLE) && k.current == SECOND && k.sleep == [FIRST] && k.ticks == 0
    ensures FIRST in Step(k, Delay(-1)).sleep
  {
    hide Inv;
    SleepsInMiddle(k, Delay(-1), IDLE, -1);
    SwitchIfKeeps(Middle(k, Delay(-1)), true, true);
  }
}
