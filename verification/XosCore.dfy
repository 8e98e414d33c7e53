/**
 The scheduler as the code has it: three doubly linked lists through the task
 control blocks, the running task, the tick counter and the semaphores, updated
 in place.
*/
module XosCore {
  import opened Chains
  import opened SchedSpec
  import opened SchedRuns
  import opened SchedWaits
  import opened SchedEffects

  // ----- lists in memory -----

  /** A whole list and its head. */
  ghost predicate IsList(next: map<Task, int>, prev: map<Task, int>, head: Task, l: seq<Task>) {
    Linked(next, prev, NULL, l, NULL) && head == FirstOr(l, NULL) && NoDup(l) && NULL !in l
  }

  /** The words of other nodes stay. */
  ghost predicate OnlyTouches(next: map<Task, int>, prev: map<Task, int>, next': map<Task, int>, prev': map<Task, int>,
                              l: seq<Task>, t: Task)
  {
    forall x :: x !in l && x != t ==> At(next', x) == At(next, x) && At(prev', x) == At(prev, x)
  }

  lemma {:induction false} ListElsewhere(next: map<Task, int>, prev: map<Task, int>, next': map<Task, int>,
                                         prev': map<Task, int>,
                                         l: seq<Task>, t: Task, head: Task, other: seq<Task>)
    requires IsList(next, prev, head, other) && OnlyTouches(next, prev, next', prev', l, t)
    requires t !in other && forall x :: x in l ==> x !in other
    ensures IsList(next', prev', head, other)
  {
    LinkedAgree(next, prev, next', prev', NULL, other, NULL);
  }

  /** t is linked in between two stretches of a list. */
  function LinkIn(links: (map<Task, int>, map<Task, int>), t: Task, before: Task, after: Task): (map<Task, int>,
      map<Task, int>) {
    var next1, prev1 := links.0[t := after], links.1[t := before];
    (if before != NULL then next1[before := t] else next1, if after != NULL then prev1[after := t] else prev1)
  }

  /** t is unlinked from between its neighbours. */
  function LinkOut(links: (map<Task, int>, map<Task, int>), t: Task): (map<Task, int>, map<Task, int>) {
    var after, before := At(links.0, t), At(links.1, t);
    var next1 := if after != NULL then links.0[t := NULL] else links.0;
    var prev1 := if after != NULL then links.1[after := before] else links.1;
    (if before != NULL then next1[before := after] else next1, if before != NULL then prev1[t := NULL] else prev1)
  }

  lemma {:induction false} LinkInKeeps(links: (map<Task, int>, map<Task, int>), a: seq<Task>, t: Task, b: seq<Task>)
    requires Linked(links.0, links.1, NULL, a + b, NULL) && NoDup(a + b) && NULL !in a && NULL !in b
    requires t != NULL && t !in a && t !in b
    ensures var l' := LinkIn(links, t, LastOr(NULL, a), FirstOr(b, NULL));
      Linked(l'.0, l'.1, NULL, a + [t] + b, NULL) && OnlyTouches(links.0, links.1, l'.0, l'.1, a + b, t)
  {
    var before, after := LastOr(NULL, a), FirstOr(b, NULL);
    LinkedSplit(links.0, links.1, NULL, a, b, NULL);
    NoDupSplit(a, b);
    var n1, p1 := links.0[t := after], links.1[t := before];
    LinkedAgree(links.0, links.1, n1, p1, NULL, a, after);
    LinkedAgree(links.0, links.1, n1, p1, before, b, NULL);
    var n2 := if a != [] then n1[before := t] else n1;
    if a != [] {
      assert before in a;
      LinkNext(n1, p1, NULL, a, after, t);
      LinkedAgree(n1, p1, n2, p1, before, b, NULL);
    }
    var p2 := if b != [] then p1[after := t] else p1;
    if b != [] {
      assert after in b;
      LinkPrev(n2, p1, before, b, NULL, t);
      LinkedAgree(n2, p1, n2, p2, NULL, a, t);
    }
    assert [t][1..] == [];
    LinkedSplit(n2, p2, NULL, a, [t], after);
    LinkedSplit(n2, p2, NULL, a + [t], b, NULL);
    assert LinkIn(links, t, before, after) == (n2, p2);
  }

  lemma {:induction false} LinkOutKeeps(links: (map<Task, int>, map<Task, int>), a: seq<Task>, t: Task, b: seq<Task>)
    requires Linked(links.0, links.1, NULL, a + [t] + b, NULL) && NoDup(a + [t] + b) && NULL !in a && NULL !in b
      && t != NULL
    ensures At(links.1, t) == LastOr(NULL, a) && At(links.0, t) == FirstOr(b, NULL)
    ensures var l' := LinkOut(links, t);
      Linked(l'.0, l'.1, NULL, a + b, NULL) && OnlyTouches(links.0, links.1, l'.0, l'.1, a + b, t)
  {
    LinkedAt(links.0, links.1, NULL, a, t, b, NULL);
    NoDupSplit(a + [t], b);
    NoDupSplit(a, [t]);
    assert t in a + [t];
    var before, after := LastOr(NULL, a), FirstOr(b, NULL);
    var n1, p1 := if b != [] then links.0[t := NULL] else links.0, links.1;
    LinkedAgree(links.0, links.1, n1, p1, NULL, a, t);
    LinkedAgree(links.0, links.1, n1, p1, t, b, NULL);
    var p2 := if b != [] then p1[after := before] else p1;
    if b != [] {
      assert after in b;
      LinkPrev(n1, p1, t, b, NULL, before);
      LinkedAgree(n1, p1, n1, p2, NULL, a, t);
    }
    var n3, p3 := if a != [] then n1[before := after] else n1, if a != [] then p2[t := NULL] else p2;
    if a != [] {
      assert before in a;
      LinkNext(n1, p2, NULL, a, t, after);
      LinkedAgree(n1[before := after], p2, n3, p3, NULL, a, after);
      LinkedAgree(n1, p2, n3, p3, before, b, NULL);
    }
    LinkedSplit(n3, p3, NULL, a, b, NULL);
    assert LinkOut(links, t) == (n3, p3);
  }

  ghost predicate Apart(a: seq<Task>, b: seq<Task>) {
    forall x :: x in a ==> x !in b
  }

  /** Three lists in memory with no node in common. */
  ghost predicate Lists(next: map<Task, int>, prev: map<Task, int>,
                        h1: Task, l1: seq<Task>, h2: Task, l2: seq<Task>, h3: Task, l3: seq<Task>)
  {
    && IsList(next, prev, h1, l1) && IsList(next, prev, h2, l2) && IsList(next, prev, h3, l3)
    && Apart(l1, l2) && Apart(l1, l3) && Apart(l2, l3)
  }

  /** One of the lists changes to l', with t as the only node that may come or go. */
  lemma {:induction false} ListChanges(next: map<Task, int>, prev: map<Task, int>, next': map<Task, int>,
                                       prev': map<Task, int>,
                                       h1: Task, l1: seq<Task>, h2: Task, l2: seq<Task>, h3: Task, l3: seq<Task>,
                                       t: Task, h': Task, l': seq<Task>)
    requires Lists(next, prev, h1, l1, h2, l2, h3, l3) && OnlyTouches(next, prev, next', prev', l1, t)
    requires IsList(next', prev', h', l') && (forall x :: x in l' ==> x == t || x in l1) && t !in l2 && t !in l3
    ensures Lists(next', prev', h', l', h2, l2, h3, l3)
  {
    ListElsewhere(next, prev, next', prev', l1, t, h2, l2);
    ListElsewhere(next, prev, next', prev', l1, t, h3, l3);
  }

  lemma {:induction false} InsertSplits(key: map<Task, int>, a: seq<Task>, b: seq<Task>, t: Task)
    requires forall x :: x in a ==> At(key, x) <= At(key, t)
    ensures Insert(key, a + b, t) == a + Insert(key, b, t)
  {
    if a == [] {
      assert a + b == b && a + Insert(key, b, t) == Insert(key, b, t);
    } else {
      assert (a + b)[1..] == a[1..] + b;
      InsertSplits(key, a[1..], b, t);
    }
  }

  /** The place for t is behind `a`. */
  lemma {:induction false} InsertHere(key: map<Task, int>, a: seq<Task>, b: seq<Task>, t: Task)
    requires (forall x :: x in a ==> At(key, x) <= At(key, t)) && (b == [] || At(key, t) < At(key, b[0]))
    ensures Insert(key, a + b, t) == a + [t] + b && (a + [t] + b)[0] == if a == [] then t else a[0]
  {
    InsertSplits(key, a, b, t);
  }

  lemma {:induction false} InsertIsList(key: map<Task, int>, l: seq<Task>, t: Task)
    requires NoDup(l) && t !in l
    ensures NoDup(Insert(key, l, t)) && forall x :: x in Insert(key, l, t) <==> x == t || x in l
  {
    InsertElems(key, l, t);
    if l != [] && At(key, t) >= At(key, l[0]) {
      InsertIsList(key, l[1..], t);
      assert Insert(key, l, t)[1..] == Insert(key, l[1..], t);
    } else {
      assert ([t] + l)[1..] == l;
    }
  }

  /** The running task is on no list if it may go on running. */
  lemma {:induction false} MayGoOn(k: Kernel, idle: Task, self: bool)
    requires BeforeSwitch(k, idle, self)
    ensures At(k.state, k.current) == T_RUN || At(k.state, k.current) == T_READY ==>
      k.current != NULL && k.current !in k.ready && k.current !in k.sleep && k.current !in k.dead
    ensures k.ready != [] ==> k.ready[0] != k.current
  {
    assert k.ready != [] ==> k.ready[0] in k.ready;
  }

  lemma {:induction false} WakeStep(k: Kernel)
    requires k.sleep != [] && Unsigned(At(k.timeout, k.sleep[0])) <= k.ticks
    ensures Wake(k) == Wake(WakeFirst(k))
  {
  }

  lemma {:induction false} ClockedKeeps(k: Kernel, idle: Task)
    requires Inv(k, idle)
    ensures Mid(Clocked(k), idle) && At(Clocked(k).state, Clocked(k).current) == T_RUN
  {
  }

  lemma {:induction false} CallEnds(k: Kernel, op: Op, k1: Kernel, idle: Task)
    requires Inv(k, idle) && Allowed(k, op, idle) && k1 == Middle(k, op)
    ensures BeforeSwitch(k1, idle, Leaves(k, op))
    ensures Step(k, op) == SwitchIf(k1, Leaves(k, op) || Readies(k, op), Leaves(k, op)) && Inv(Step(k, op), idle)
  {
    MiddleKeeps(k, op, idle);
    StepKeeps(k, op, idle);
  }

  lemma {:induction false} TickEnds(k: Kernel, k1: Kernel, idle: Task)
    requires Inv(k, idle) && Allowed(k, Tick, idle) && k1 == Wake(Clocked(k))
    ensures BeforeSwitch(k1, idle, false)
    ensures Step(k, Tick) == SwitchIf(k1, k1.sleep != k.sleep, false) && Inv(Step(k, Tick), idle)
  {
    CallEnds(k, Tick, k1, idle);
  }

  /** The running task and a task without a control block are on no list. */
  lemma {:induction false} OnNoList(k: Kernel, idle: Task, t: Task)
    requires Inv(k, idle) && t != NULL && (t == k.current || At(k.state, t) == 0)
    ensures t !in k.ready && t !in k.sleep && t !in k.dead
  {
  }

  lemma {:induction false} RunningIsFree(k: Kernel, idle: Task)
    requires Inv(k, idle)
    ensures k.current != NULL && k.current !in k.ready && k.current !in k.sleep && k.current !in k.dead
  {
  }

  lemma {:induction false} WaiterIsFree(k: Kernel, s: SemId, idle: Task)
    requires Inv(k, idle) && Wakes(k, s)
    ensures var t, k1 := At(k.waiter, s), Hand(k, s);
      t != NULL && t !in k1.ready && t !in k1.sleep && t !in k1.dead
  {
    WithoutElems(k.sleep, At(k.waiter, s));
  }

  lemma {:induction false} CreateEnds(k: Kernel, t: Task, p: int, k1: Kernel, idle: Task)
    requires Inv(k, idle) && Allowed(k, Create(t, p), idle) && k1 == MakeReady(Fresh(k, t, p), t)
    ensures BeforeSwitch(k1, idle, false) && k1.ready != []
    ensures Step(k, Create(t, p)) == SwitchIf(k1, true, false) && Inv(Step(k, Create(t, p)), idle)
  {
    CallEnds(k, Create(t, p), k1, idle);
    InsertElems(k.prio[t := p], k.ready, t);
  }

  lemma {:induction false} FirstIsCreated(k: Kernel, t: Task, p: int)
    requires Unbooted(k)
    ensures Step(k, Create(t, p)) == Fresh(k, t, p).(state := k.state[t := T_RUN], current := t)
    ensures forall x :: At(Fresh(k, t, p).prio, x) == if x == t then p else At(k.prio, x)
  {
  }

  lemma {:induction false} TakeEnds(k: Kernel, s: SemId, limit: int, k1: Kernel, idle: Task)
    requires Inv(k, idle) && Allowed(k, Take(s, limit), idle)
    requires k1 ==
      if At(k.value, s) != 0 then k.(value := k.value[s := At(k.value, s) - 1])
      else if limit == 0 then k else Block(k, s, limit)
    ensures BeforeSwitch(k1, idle, Blocks(k, s, limit)) && Inv(Step(k, Take(s, limit)), idle)
    ensures Step(k, Take(s, limit)) == SwitchIf(k1, Blocks(k, s, limit), Blocks(k, s, limit))
  {
    CallEnds(k, Take(s, limit), k1, idle);
  }

  /** The call that puts the running task to sleep. */
  lemma {:induction false} SleepEnds(k: Kernel, op: Op, idle: Task, n: int)
    requires Inv(k, idle) && k.current != idle && FallsAsleep(k, op, n) && InRange(k, n)
    ensures var k1 := Middle(k, op);
      && k1.ready != [] && k1.ready[0] != k1.current && At(k1.state, k1.current) == T_WAIT
      && Step(k, op) == Switch(k1, true)
    ensures Inv(Step(k, op), idle) <==> 0 < k.ticks + n < 0x8000_0000
  {
    SleepsInMiddle(k, op, idle, n);
    SleepKeepsExactly(k, op, idle, n);
    hide Middle;
  }

  lemma {:induction false} TakeBlocks(k: Kernel, s: SemId, limit: int, idle: Task)
    requires Inv(k, idle) && k.current != idle && Blocks(k, s, limit) && InRange(k, limit)
    ensures var k1 := Block(k, s, limit);
      && k1.ready != [] && k1.ready[0] != k1.current && At(k1.state, k1.current) == T_WAIT
      && Step(k, Take(s, limit)) == Switch(k1, true)
    ensures Inv(Step(k, Take(s, limit)), idle) <==> !(limit > 0 && k.ticks + limit >= 0x8000_0000)
  {
    assert Middle(k, Take(s, limit)) == Block(k, s, limit);
    if limit > 0 {
      SleepEnds(k, Take(s, limit), idle, limit);
    } else {
      IdleIsReady(k, idle);
      assert k.ready[0] in k.ready;
      StepKeeps(k, Take(s, limit), idle);
    }
  }

  lemma {:induction false} TimedSleeps(k: Kernel, idle: Task, t: Task)
    requires Inv(k, idle)
    ensures At(k.timeout, t) > 0 ==> t in k.sleep
  {
  }

  /** No task yet. */
  ghost predicate Unbooted(k: Kernel) {
    k == Kernel(map[], map[], map[], map[], [], [], [], NULL, 0, k.value, map[])
  }

  lemma {:induction false} FirstToWake(k: Kernel, idle: Task)
    requires Mid(k, idle) && k.sleep != []
    ensures var t := k.sleep[0];
      t != NULL && t !in k.ready && t !in k.dead && t !in k.sleep[1..] && Without(k.sleep, t) == k.sleep[1..]
    ensures WakeFirst(k).ready != []
  {
    assert k.sleep[0] in k.sleep;
    InsertElems(k.prio, k.ready, k.sleep[0]);
  }

  /** The list nodes of the task control blocks. */
  class Nodes {
    var next: map<Task, int>
    var prev: map<Task, int>

    constructor ()
      ensures next == map[] && prev == map[]
    {
      next, prev := map[], map[];
    }

    /** Insert t before the first node with a larger key. */
    method InsertOrder(head: Task, t: Task, key: map<Task, int>, ghost l: seq<Task>) returns (head': Task)
      requires IsList(next, prev, head, l) && t != NULL && t !in l
      modifies this
      ensures Linked(next, prev, NULL, Insert(key, l, t), NULL) && head' == FirstOr(Insert(key, l, t), NULL)
      ensures OnlyTouches(old(next), old(prev), next, prev, l, t)
    {
      hide Linked;
      hide Insert;
      hide OnlyTouches;
      var p, before := head, NULL;
      ghost var a, b: seq<Task> := [], l;
      while p != NULL && !(At(key, t) < At(key, p))
        invariant next == old(next) && prev == old(prev)
        invariant l == a + b && p == FirstOr(b, NULL) && before == LastOr(NULL, a)
        invariant forall x :: x in a ==> At(key, x) <= At(key, t)
        decreases |b|
      {
        assert a + [p] + b[1..] == l;
        LinkedAt(next, prev, NULL, a, p, b[1..], NULL);
        before := p;
        a, b := a + [p], b[1..];
        p := At(next, p);
      }
      assert p == NULL ==> b == [] by {
        assert forall x :: x in b ==> x in l;
      }
      InsertHere(key, a, b, t);
      assert forall x :: x in a || x in b ==> x in l;
      LinkInKeeps((next, prev), a, t, b);
      head' := head;
      next := next[t := p];
      prev := prev[t := before];
      if p != NULL {
        prev := prev[p := t];
      }
      if before != NULL {
        next := next[before := t];
      } else {
        head' := t;
      }
    }

    /** Take t out of its list. */
    method Remove(head: Task, t: Task, ghost l: seq<Task>) returns (head': Task)
      requires IsList(next, prev, head, l) && t in l
      modifies this
      ensures Linked(next, prev, NULL, Without(l, t), NULL) && head' == FirstOr(Without(l, t), NULL)
      ensures OnlyTouches(old(next), old(prev), next, prev, l, t)
    {
      ghost var a, b := SplitAt(l, t);
      WithoutSplit(a, t, b);
      assert forall x :: x in a || x in b ==> x in l;
      LinkOutKeeps((next, prev), a, t, b);
      var after, before := At(next, t), At(prev, t);
      head' := head;
      if after != NULL {
        prev := prev[after := before];
        next := next[t := NULL];
      }
      if before != NULL {
        next := next[before := after];
        prev := prev[t := NULL];
      } else {
        head' := after;
      }
      assert before == NULL <==> a == [];
    }

    /** Put t in front of a list. */
    method Add(head: Task, t: Task, ghost l: seq<Task>) returns (head': Task)
      requires IsList(next, prev, head, l) && t != NULL && t !in l
      modifies this
      ensures Linked(next, prev, NULL, [t] + l, NULL) && head' == t
      ensures OnlyTouches(old(next), old(prev), next, prev, l, t)
    {
      assert [] + l == l && [] + [t] + l == [t] + l;
      LinkInKeeps((next, prev), [], t, l);
      var after := head;
      next := next[t := after];
      prev := prev[t := NULL];
      head' := t;
      if after != NULL {
        prev := prev[after := t];
      }
    }
  }

  class Scheduler {
    const nodes: Nodes
    var prio: map<Task, int>
    var state: map<Task, int>
    var timeout: map<Task, int>
    var retv: map<Task, int>
    var readyHead: Task
    var sleepHead: Task
    var deadHead: Task
    var current: Task
    var ticks: int
    var value: map<SemId, int>
    var waiter: map<SemId, Task>

    ghost var ready: seq<Task>
    ghost var sleep: seq<Task>
    ghost var dead: seq<Task>

    ghost function K(): Kernel
      reads this
    {
      Kernel(prio, state, timeout, retv, ready, sleep, dead, current, ticks, value, waiter)
    }

    ghost predicate Listed()
      reads this, nodes
    {
      Lists(nodes.next, nodes.prev, readyHead, ready, sleepHead, sleep, deadHead, dead)
    }

    ghost predicate Valid(idle: Task)
      reads this, nodes
    {
      Listed() && Inv(K(), idle)
    }

    /** No task yet, and semaphores of the given values. */
    constructor (value: map<SemId, int>)
      ensures Listed() && fresh(nodes)
      ensures K() == Kernel(map[], map[], map[], map[], [], [], [], NULL, 0, value, map[])
    {
      nodes := new Nodes();
      prio, state, timeout, retv := map[], map[], map[], map[];
      readyHead, sleepHead, deadHead, current, ticks := NULL, NULL, NULL, NULL, 0;
      this.value, waiter := value, map[];
      ready, sleep, dead := [], [], [];
    }

    /** On no list. */
    ghost predicate Free(t: Task)
      reads this
    {
      t != NULL && t !in ready && t !in sleep && t !in dead
    }

    // ----- the three lists -----

    method InsertReady(t: Task)
      requires Listed() && Free(t)
      modifies `readyHead, `ready, nodes
      ensures Listed() && K() == old(K()).(ready := Insert(prio, old(ready), t))
    {
      ghost var n0, p0 := nodes.next, nodes.prev;
      var head := nodes.InsertOrder(readyHead, t, prio, ready);
      InsertIsList(prio, ready, t);
      ListChanges(n0, p0, nodes.next, nodes.prev, readyHead, ready, sleepHead, sleep, deadHead, dead, t, head,
        Insert(prio, ready, t));
      readyHead, ready := head, Insert(prio, ready, t);
    }

    method RemoveReady(t: Task)
      requires Listed() && t in ready
      modifies `readyHead, `ready, nodes
      ensures Listed() && K() == old(K()).(ready := Without(old(ready), t))
    {
      ghost var n0, p0 := nodes.next, nodes.prev;
      var head := nodes.Remove(readyHead, t, ready);
      WithoutElems(ready, t);
      ListChanges(n0, p0, nodes.next, nodes.prev, readyHead, ready, sleepHead, sleep, deadHead, dead, t, head,
        Without(ready, t));
      readyHead, ready := head, Without(ready, t);
    }

    method InsertSleep(t: Task)
      requires Listed() && Free(t)
      modifies `sleepHead, `sleep, nodes
      ensures Listed() && K() == old(K()).(sleep := Insert(timeout, old(sleep), t))
    {
      ghost var n0, p0 := nodes.next, nodes.prev;
      var head := nodes.InsertOrder(sleepHead, t, timeout, sleep);
      InsertIsList(timeout, sleep, t);
      ListChanges(n0, p0, nodes.next, nodes.prev, sleepHead, sleep, readyHead, ready, deadHead, dead, t, head,
        Insert(timeout, sleep, t));
      sleepHead, sleep := head, Insert(timeout, sleep, t);
    }

    method RemoveSleep(t: Task)
      requires Listed() && t in sleep
      modifies `sleepHead, `sleep, nodes
      ensures Listed() && K() == old(K()).(sleep := Without(old(sleep), t))
    {
      ghost var n0, p0 := nodes.next, nodes.prev;
      var head := nodes.Remove(sleepHead, t, sleep);
      WithoutElems(sleep, t);
      ListChanges(n0, p0, nodes.next, nodes.prev, sleepHead, sleep, readyHead, ready, deadHead, dead, t, head,
        Without(sleep, t));
      sleepHead, sleep := head, Without(sleep, t);
    }

    method AddDead(t: Task)
      requires Listed() && Free(t)
      modifies `deadHead, `dead, nodes
      ensures Listed() && K() == old(K()).(dead := [t] + old(dead))
    {
      ghost var n0, p0 := nodes.next, nodes.prev;
      var head := nodes.Add(deadHead, t, dead);
      assert ([t] + dead)[1..] == dead;
      ListChanges(n0, p0, nodes.next, nodes.prev, deadHead, dead, readyHead, ready, sleepHead, sleep, t, head,
        [t] + dead);
      deadHead, dead := head, [t] + dead;
    }

    method RemoveDead(t: Task)
      requires Listed() && t in dead
      modifies `deadHead, `dead, nodes
      ensures Listed() && K() == old(K()).(dead := Without(old(dead), t))
    {
      ghost var n0, p0 := nodes.next, nodes.prev;
      var head := nodes.Remove(deadHead, t, dead);
      WithoutElems(dead, t);
      ListChanges(n0, p0, nodes.next, nodes.prev, deadHead, dead, readyHead, ready, sleepHead, sleep, t, head,
        Without(dead, t));
      deadHead, dead := head, Without(dead, t);
    }

    // ----- the parts of the kernel calls -----

    method TaskReady(t: Task)
      requires Listed() && Free(t)
      modifies `readyHead, `ready, `state, nodes
      ensures Listed() && K() == MakeReady(old(K()), t)
    {
      InsertReady(t);
      state := state[t := T_READY];
    }

    /** The switch; the running task is on no list if it may go on. */
    method TaskSwitch(self: bool)
      requires Listed() && ready != [] && ready[0] != current
      requires At(state, current) == T_RUN || At(state, current) == T_READY ==> Free(current)
      modifies `readyHead, `ready, `state, `current, nodes
      ensures Listed() && K() == Switch(old(K()), self)
    {
      hide Insert;
      hide Without;
      var high := readyHead;
      if !self && At(prio, current) < At(prio, high) {
        return;
      }
      if At(state, current) == T_RUN {
        state := state[current := T_READY];
      }
      if At(state, current) == T_READY {
        InsertIsList(prio, ready, current);
        InsertReady(current);
      }
      RemoveReady(high);
      state := state[high := T_RUN];
      current := high;
    }

    /** The end of a call: the switch, if one is wanted. */
    method Finish(wanted: bool, self: bool, ghost idle: Task)
      requires Listed() && BeforeSwitch(K(), idle, self) && (self ==> wanted) && (wanted && !self ==> ready != [])
      modifies `readyHead, `ready, `state, `current, nodes
      ensures Listed() && K() == SwitchIf(old(K()), wanted, self)
    {
      if wanted {
        if self {
          IdleIsReady(K(), idle);
        }
        MayGoOn(K(), idle, self);
        TaskSwitch(self);
      }
    }

    method FirstSleeperOut() returns (t: Task)
      requires Listed() && sleepHead != NULL
      modifies `sleepHead, `sleep, `timeout, nodes
      ensures old(sleep) != [] && t == old(sleep[0]) && Listed() && K() == Unsleep(old(K()))
    {
      t := sleepHead;
      assert t in sleep;
      RemoveSleep(t);
      timeout := timeout[t := 0];
    }

    /** The first sleeper becomes ready. */
    method WakeOne(ghost idle: Task)
      requires Listed() && Mid(K(), idle) && At(state, current) == T_RUN && sleepHead != NULL
      modifies `readyHead, `ready, `sleepHead, `sleep, `timeout, `state, nodes
      ensures Listed() && old(sleep) != [] && K() == WakeFirst(old(K()))
      ensures Mid(K(), idle) && At(state, current) == T_RUN && |sleep| < old(|sleep|) && ready != []
    {
      ghost var k := K();
      FirstWakes(k, idle);
      FirstToWake(k, idle);
      var t := FirstSleeperOut();
      TaskReady(t);
    }

    /** All sleepers whose time has come become ready. */
    method WakeAll(ghost idle: Task) returns (needSched: bool)
      requires Listed() && Mid(K(), idle) && At(state, current) == T_RUN
      modifies `readyHead, `ready, `sleepHead, `sleep, `timeout, `state, nodes
      ensures Listed() && K() == Wake(old(K()))
      ensures needSched <==> sleep != old(sleep)
      ensures needSched ==> ready != []
    {
      ghost var k := K();
      needSched := false;
      while sleepHead != NULL && Unsigned(At(timeout, sleepHead)) <= ticks
        invariant Listed() && Mid(K(), idle) && At(state, current) == T_RUN
        invariant Wake(K()) == Wake(k)
        invariant if needSched then |sleep| < |k.sleep| && ready != [] else sleep == k.sleep
        decreases |sleep|
      {
        WakeStep(K());
        WakeOne(idle);
        needSched := true;
      }
    }

    // ----- kernel calls -----

    method TickHandle(ghost idle: Task)
      requires Valid(idle) && Allowed(K(), Tick, idle)
      modifies this, nodes
      ensures Valid(idle) && K() == Step(old(K()), Tick)
    {
      ghost var k := K();
      ticks := ticks + 1;
      assert K() == Clocked(k);
      ClockedKeeps(k, idle);
      var needSched := WakeAll(idle);
      TickEnds(k, K(), idle);
      Finish(needSched, false, idle);
    }

    /** The control block of a new task. */
    method NewBlock(t: Task, p: int)
      modifies `prio, `timeout, `retv
      ensures K() == Fresh(old(K()), t, p)
    {
      prio := prio[t := p];
      timeout := timeout[t := 0];
      retv := retv[t := 0];
    }

    method TaskCreate(t: Task, p: int, ghost idle: Task)
      requires t != NULL
      requires if current == NULL then Listed() && Unbooted(K()) else Valid(idle) && Allowed(K(), Create(t, p), idle)
      modifies this, nodes
      ensures Listed() && K() == Step(old(K()), Create(t, p))
      ensures old(current) != NULL ==> Valid(idle)
      ensures forall x :: At(prio, x) == if x == t then p else old(At(prio, x))
    {
      hide Inv;
      hide Step;
      hide Lists;
      hide Insert;
      ghost var k := K();
      if current != NULL {
        CreateTakesPriority(k, t, p, idle);
      }
      NewBlock(t, p);
      if current == NULL {
        FirstIsCreated(k, t, p);
        state := state[t := T_RUN];
        current := t;
      } else {
        OnNoList(k, idle, t);
        TaskReady(t);
        CreateEnds(k, t, p, K(), idle);
        Finish(true, false, idle);
      }
    }

    method TaskExit(ghost idle: Task)
      requires Valid(idle) && Allowed(K(), Exit, idle)
      modifies this, nodes
      ensures Valid(idle) && K() == Step(old(K()), Exit)
    {
      hide Lists;
      hide Inv;
      hide Step;
      ghost var k := K();
      RunningIsFree(k, idle);
      state := state[current := T_DEAD];
      AddDead(current);
      CallEnds(k, Exit, K(), idle);
      Finish(true, true, idle);
    }

    /** The running task is put on the sleep list. */
    method GoToSleep(until: int)
      requires Listed() && Free(current)
      modifies `state, `timeout, `sleepHead, `sleep, nodes
      ensures Listed() && K() == FallAsleep(old(K()), until)
    {
      state := state[current := T_WAIT];
      timeout := timeout[current := until];
      InsertSleep(current);
    }

    /** The running task sleeps; whether the kernel is still in order then depends on when the sleep ends. */
    method TaskDelay(n: int, ghost idle: Task)
      requires Valid(idle) && current != idle && InRange(K(), n)
      modifies this, nodes
      ensures Listed() && K() == Step(old(K()), Delay(n))
      ensures Valid(idle) <==> 0 < old(ticks) + n < 0x8000_0000
    {
      hide Inv;
      hide Step;
      hide Lists;
      ghost var k := K();
      RunningIsFree(k, idle);
      SleepEnds(k, Delay(n), idle, n);
      GoToSleep(Until(ticks, n));
      TaskSwitch(true);
    }

    method TaskYield(ghost idle: Task)
      requires Valid(idle) && Allowed(K(), Yield, idle)
      modifies this, nodes
      ensures Valid(idle) && K() == Step(old(K()), Yield)
    {
      hide Inv;
      hide Step;
      ghost var k := K();
      state := state[current := T_READY];
      assert K() == Middle(k, Yield);
      CallEnds(k, Yield, K(), idle);
      Finish(true, true, idle);
    }

    /** A task that sleeps with a time limit is taken off the sleep list. */
    method EndSleep(t: Task)
      requires Listed() && (At(timeout, t) > 0 ==> t in sleep)
      modifies `sleepHead, `sleep, `timeout, nodes
      ensures Listed()
      ensures K() == if old(At(timeout, t)) > 0
        then old(K()).(sleep := Without(old(sleep), t), timeout := old(timeout)[t := 0]) else old(K())
    {
      if At(timeout, t) > 0 {
        RemoveSleep(t);
        timeout := timeout[t := 0];
      }
    }

    /** The token goes to the recorded waiter, or to the value. */
    method HandToken(s: SemId, ghost idle: Task) returns (t: Task)
      requires Valid(idle)
      modifies `waiter, `retv, `sleepHead, `sleep, `timeout, `value, nodes
      ensures Listed() && K() == Hand(old(K()), s) && t == old(At(waiter, s))
    {
      t := At(waiter, s);
      TimedSleeps(K(), idle, t);
      if t != NULL {
        HandToWaiter(s, t);
      } else {
        waiter := waiter[s := NULL];
        value := value[s := At(value, s) + 1];
      }
    }

    method HandToWaiter(s: SemId, t: Task)
      requires Listed() && t == At(waiter, s) != NULL && (At(timeout, t) > 0 ==> t in sleep)
      modifies `waiter, `retv, `sleepHead, `sleep, `timeout, nodes
      ensures Listed() && K() == Hand(old(K()), s)
    {
      hide Without;
      ghost var k := K();
      waiter := waiter[s := NULL];
      retv := retv[t := 0];
      ghost var k1 := k.(waiter := k.waiter[s := NULL], retv := k.retv[t := 0]);
      assert K() == k1;
      EndSleep(t);
    }

    method SemGive(s: SemId, ghost idle: Task)
      requires Valid(idle)
      modifies this, nodes
      ensures Valid(idle) && K() == Step(old(K()), Give(s))
    {
      hide Inv;
      hide Step;
      hide Lists;
      ghost var k := K();
      var t := HandToken(s, idle);
      if t != NULL && At(state, t) == T_WAIT {
        WaiterIsFree(k, s, idle);
        TaskReady(t);
        InsertElems(prio, Hand(k, s).ready, t);
        CallEnds(k, Give(s), K(), idle);
        Finish(true, false, idle);
      } else {
        CallEnds(k, Give(s), K(), idle);
      }
    }

    method RecordWaiter(s: SemId)
      modifies `state, `waiter, `timeout
      ensures K() == Record(old(K()), s)
    {
      state := state[current := T_WAIT];
      waiter := waiter[s := current];
      timeout := timeout[current := 0];
    }

    /** The running task waits for a token. */
    method WaitForToken(s: SemId, limit: int)
      requires Listed() && Free(current)
      modifies `state, `waiter, `timeout, `retv, `sleepHead, `sleep, nodes
      ensures Listed() && K() == Block(old(K()), s, limit)
    {
      RecordWaiter(s);
      if limit > 0 {
        GoToSleep(Until(ticks, limit));
        retv := retv[current := -1];
      }
    }

    /**
     Take a token, wait for one or give up at once.  A task that has to wait is
     answered when it runs again.
    */
    method SemTake(s: SemId, limit: int, ghost idle: Task) returns (waits: bool, r: int)
      requires Valid(idle) && InRange(K(), limit) && (Blocks(K(), s, limit) ==> current != idle)
      modifies this, nodes
      ensures Listed() && K() == Step(old(K()), Take(s, limit))
      ensures Valid(idle) <==> !(Blocks(old(K()), s, limit) && limit > 0 && old(ticks) + limit >= 0x8000_0000)
      ensures waits <==> Blocks(old(K()), s, limit)
      ensures !waits ==> r == if old(At(value, s)) != 0 then 0 else -1
    {
      hide Inv;
      hide Step;
      ghost var k := K();
      waits, r := false, 0;
      if At(value, s) != 0 {
        value := value[s := At(value, s) - 1];
        TakeEnds(k, s, limit, K(), idle);
      } else if limit == 0 {
        TakeEnds(k, s, limit, K(), idle);
        r := -1;
      } else {
        RunningIsFree(k, idle);
        TakeBlocks(k, s, limit, idle);
        WaitForToken(s, limit);
        TaskSwitch(true);
        waits := true;
      }
    }

    /** The end of a take that waited: the task runs again and reads its answer. */
    method TakeAnswer() returns (r: int)
      ensures r == At(retv, current)
    {
      r := At(retv, current);
    }

    /** The control blocks of the dead tasks are released. */
    method ReapDead(ghost idle: Task)
      requires Valid(idle)
      modifies `deadHead, `dead, `state, nodes
      ensures Valid(idle) && K() == Step(old(K()), Reap)
    {
      ghost var k := K();
      CallEnds(k, Reap, Middle(k, Reap), idle);
      while deadHead != NULL
        invariant Listed() && K() == k.(dead := dead, state := state) && Buried(state, dead) == Buried(k.state, k.dead)
        decreases |dead|
      {
        ReapOne();
      }
    }

    method ReapOne()
      requires Listed() && deadHead != NULL
      modifies `deadHead, `dead, `state, nodes
      ensures Listed() && old(dead) != []
        && K() == old(K()).(dead := old(dead)[1..], state := old(state)[old(dead)[0] := 0])
    {
      assert dead[0] in dead;
      var t := deadHead;
      RemoveDead(t);
      state := state[t := 0];
    }
  }
}
