/**
 The driver in memory: pools with their used marks, queue heads linked through
 `hlp`, transfer descriptors linked through `next_qtd`, and the scans that follow
 these links while they unlink what is finished.
*/
module EhciHcd {
  import opened Chains
  import opened EhciPools
  import opened EhciSpec
  import opened EhciSafety
  import opened EhciRuns
  import opened EhciNotes

  // ----- singly linked lists in memory -----

  /** From `from` the links lead through l to `to`. */
  ghost predicate Path(next: map<Addr, int>, from: Addr, l: seq<Addr>, to: Addr)
    decreases |l|
  {
    At(next, from) == FirstOr(l, to) && (l != [] ==> Path(next, l[0], l[1..], to))
  }

  lemma {:induction false} PathSplit(next: map<Addr, int>, from: Addr, a: seq<Addr>, x: Addr, b: seq<Addr>, to: Addr)
    requires Path(next, from, a + [x] + b, to)
    ensures Path(next, from, a, x) && Path(next, x, b, to)
    decreases |a|
  {
    if a == [] {
      assert a + [x] + b == [x] + b && ([x] + b)[1..] == b;
    } else {
      assert (a + [x] + b)[1..] == a[1..] + [x] + b;
      PathSplit(next, a[0], a[1..], x, b, to);
    }
  }

  lemma {:induction false} PathJoin(next: map<Addr, int>, from: Addr, a: seq<Addr>, x: Addr, b: seq<Addr>, to: Addr)
    requires Path(next, from, a, x) && Path(next, x, b, to)
    ensures Path(next, from, a + [x] + b, to)
    decreases |a|
  {
    if a == [] {
      assert a + [x] + b == [x] + b && ([x] + b)[1..] == b;
    } else {
      assert (a + [x] + b)[1..] == a[1..] + [x] + b;
      PathJoin(next, a[0], a[1..], x, b, to);
    }
  }

  lemma {:induction false} PathAgree(next: map<Addr, int>, next': map<Addr, int>, from: Addr, l: seq<Addr>, to: Addr)
    requires Path(next, from, l, to)
    requires At(next', from) == At(next, from) && forall x :: x in l ==> At(next', x) == At(next, x)
    ensures Path(next', from, l, to)
    decreases |l|
  {
    if l != [] {
      assert l[0] in l;
      PathAgree(next, next', l[0], l[1..], to);
    }
  }

  /** The last node of a list leads elsewhere. */
  lemma {:induction false} PathTurns(next: map<Addr, int>, from: Addr, a: seq<Addr>, x: Addr, y: Addr)
    requires Path(next, from, a, x) && NoDup([from] + a)
    ensures Path(next[LastOr(from, a) := y], from, a, y)
    decreases |a|
  {
    assert ([from] + a)[1..] == a;
    if a != [] {
      assert [a[0]] + a[1..] == a;
      PathTurns(next, a[0], a[1..], x, y);
      assert LastOr(from, a) in a;
    }
  }

  lemma {:induction false} PathConcat(next: map<Addr, int>, from: Addr, a: seq<Addr>, b: seq<Addr>, to: Addr)
    requires Path(next, from, a, FirstOr(b, to)) && (b != [] ==> Path(next, b[0], b[1..], to))
    ensures Path(next, from, a + b, to)
    decreases |a|
  {
    if a == [] {
      assert a + b == b;
    } else {
      assert (a + b)[1..] == a[1..] + b;
      PathConcat(next, a[0], a[1..], b, to);
    }
  }

  /** The node before x leads past it. */
  lemma {:induction false} PathPast(next: map<Addr, int>, from: Addr, a: seq<Addr>, x: Addr, b: seq<Addr>, to: Addr)
    requires Path(next, from, a + [x] + b, to) && NoDup([from] + a + [x] + b)
    ensures Path(next[LastOr(from, a) := At(next, x)], from, a + b, to)
  {
    var next' := next[LastOr(from, a) := At(next, x)];
    PathSplit(next, from, a, x, b, to);
    NoDupSplit([from] + a + [x], b);
    NoDupSplit([from] + a, [x]);
    PathTurns(next, from, a, x, At(next, x));
    assert LastOr(from, a) in [from] + a;
    if b != [] {
      assert forall y :: y in [from] + a ==> y in [from] + a + [x];
      PathAgree(next, next', b[0], b[1..], to);
    }
    PathConcat(next', from, a, b, to);
  }

  // ----- pools in memory -----

  class EntryPool {
    const used: array<bool>

    constructor (n: nat)
      ensures fresh(used) && used[..] == AllFree(n)
    {
      used := new bool[n](_ => false);
      new;
      assert used[..] == AllFree(n);
    }

    /** The first free entry, or 0. */
    method Alloc() returns (d: Addr)
      modifies used
      ensures d == 0 <==> FreeCount(old(used[..])) == 0
      ensures d == 0 ==> used[..] == old(used[..])
      ensures d != 0 ==>
        var f := FirstFree(old(used[..]), 0); f < used.Length && d == f + 1 && used[..] == old(used[..])[f := true]
    {
      var i := 0;
      while i < used.Length
        invariant i <= used.Length && used[..] == old(used[..])
        invariant FirstFree(old(used[..]), 0) == FirstFree(old(used[..]), i)
      {
        if !used[i] {
          used[i] := true;
          MarkCount(old(used[..]), i);
          return i + 1;
        }
        i := i + 1;
      }
      NoneFree(used[..]);
      d := 0;
    }

    /** The entry goes back; an address outside the pool is ignored. */
    method Free(d: Addr)
      modifies used
      ensures used[..] == Freed(old(used[..]), [d])
    {
      assert [d][1..] == [];
      var i := 0;
      while i < used.Length
        invariant i <= used.Length && used[..] == old(used[..]) && !(1 <= d <= i)
      {
        if i + 1 == d {
          used[i] := false;
          return;
        }
        i := i + 1;
      }
    }

    /** The number of free entries. */
    method CountFree() returns (n: nat)
      ensures n == FreeCount(used[..])
    {
      n := 0;
      var i := 0;
      while i < used.Length
        invariant i <= used.Length && n == FreeCount(used[..i])
      {
        assert used[..i + 1] == used[..i] + [used[i]];
        CountSplit(used[..i], [used[i]]);
        assert [used[i]][1..] == [];
        if !used[i] {
          n := n + 1;
        }
        i := i + 1;
      }
      assert used[..] == used[..i];
    }
  }

  // ----- queue heads in memory -----

  class Links {
    var hlp: map<Qh, Qh>

    constructor (hlp: map<Qh, Qh>)
      ensures this.hlp == hlp
    {
      this.hlp := hlp;
    }

    /** n is put behind head. */
    method AddHead(head: Qh, n: Qh)
      modifies this
      ensures hlp == old(hlp)[n := old(At(hlp, head))][head := n]
    {
      hlp := hlp[n := At(hlp, head)];
      hlp := hlp[head := n];
    }

    /** n, which comes after head, is taken out. */
    method Remove(head: Qh, n: Qh, ghost a: seq<Qh>, ghost b: seq<Qh>, ghost to: Qh)
      requires Path(hlp, head, a + [n] + b, to) && NoDup([head] + a + [n] + b) && n != 0 && 0 !in a
      modifies this
      ensures hlp == old(hlp)[LastOr(head, a) := old(At(hlp, n))]
    {
      var tmp := head;
      ghost var c, d := [], a;
      while At(hlp, tmp) != 0 && At(hlp, tmp) != n
        invariant hlp == old(hlp) && a == c + d && tmp == LastOr(head, c)
        invariant Path(hlp, tmp, d + [n] + b, to)
        decreases |d|
      {
        StepAlong(hlp, tmp, d, n, b, to);
        tmp := At(hlp, tmp);
        c, d := c + [tmp], d[1..];
      }
      Arrived(hlp, tmp, head, c, d, n, b, to);
      hlp := hlp[tmp := At(hlp, n)];
    }
  }

  lemma {:induction false} StepAlong(next: map<Addr, int>, tmp: Addr, d: seq<Addr>, n: Addr, b: seq<Addr>, to: Addr)
    requires Path(next, tmp, d + [n] + b, to) && At(next, tmp) != n
    ensures d != [] && At(next, tmp) == d[0] && Path(next, d[0], d[1..] + [n] + b, to)
  {
    assert (d + [n] + b)[0] == if d == [] then n else d[0];
    assert (d + [n] + b)[1..] == d[1..] + [n] + b;
  }

  lemma {:induction false} Arrived(next: map<Addr, int>, tmp: Addr, head: Addr, c: seq<Addr>, d: seq<Addr>, n: Addr,
                                   b: seq<Addr>, to: Addr)
    requires Path(next, tmp, d + [n] + b, to) && (At(next, tmp) == 0 || At(next, tmp) == n)
    requires NoDup([head] + (c + d) + [n] + b) && n != 0 && 0 !in c + d
    ensures d == []
  {
    NotAmong([head] + (c + d), n, b);
    assert forall x :: x in d ==> x in c + d && x in [head] + (c + d);
    assert FirstOr(d + [n] + b, to) == FirstOr(d, n);
  }

  lemma {:induction false} NotAmong(l: seq<Addr>, n: Addr, b: seq<Addr>)
    requires NoDup(l + [n] + b)
    ensures n !in l
  {
    NoDupSplit(l + [n], b);
    NoDupSplit(l, [n]);
  }

  // ----- the shape of memory -----

  /** The descriptors from d on. */
  ghost predicate Descriptors(nextQtd: map<Qtd, Qtd>, d: Qtd, l: seq<Qtd>)
    decreases |l|
  {
    d == FirstOr(l, 0) && (l != [] ==> l[0] != 0 && Descriptors(nextQtd, At(nextQtd, l[0]), l[1..]))
  }

  ghost predicate QtdShape(first: map<Qh, Qtd>, nextQtd: map<Qtd, Qtd>, ring: seq<Qh>, chain: seq<Qh>,
                           tds: map<Qh, seq<Qtd>>) {
    forall q :: (q in ring || (q in chain && Pool(q))) ==> Descriptors(nextQtd, At(first, q), TdsOf(tds, q))
  }

  ghost predicate ListShape(hlp: map<Qh, Qh>, ring: seq<Qh>, chain: seq<Qh>) {
    Path(hlp, ASYNC, ring, ASYNC) && Path(hlp, Head(TOP), chain, 0)
  }

  /** The head from which a queue head is unlinked. */
  function HeadFor(slot: int): Qh {
    if slot == 0 then ASYNC else Head(slot - 1)
  }

  /** x stands before y. */
  lemma {:induction false} BeforeSplits(l: seq<Addr>, x: Addr, y: Addr)
    returns (u: seq<Addr>, a: seq<Addr>, b: seq<Addr>)
    requires Before(l, x, y)
    ensures l == u + [x] + a + [y] + b
  {
    assert l == [l[0]] + l[1..];
    if l[0] == x {
      var i :| 0 <= i < |l[1..]| && l[1..][i] == y;
      u, a, b := [], l[1..][..i], l[1..][i + 1..];
      assert l[1..] == a + [y] + b;
    } else {
      u, a, b := BeforeSplits(l[1..], x, y);
      u := [l[0]] + u;
    }
  }

  lemma {:induction false} Regroup5(u: seq<Addr>, h: Addr, a: seq<Addr>, q: Addr, b: seq<Addr>)
    ensures u + [h] + a + [q] + b == u + ([h] + (a + [q] + b)) && [h] + a + [q] + b == [h] + (a + [q] + b)
  {
  }

  lemma {:induction false} PathFrom(next: map<Addr, int>, top: Addr, l: seq<Addr>, u: seq<Addr>, h: Addr,
                                    rest: seq<Addr>, to: Addr)
    requires Path(next, top, l, to) && [top] + l == u + ([h] + rest)
    ensures Path(next, h, rest, to)
  {
    assert ([top] + l)[1..] == l;
    if u == [] {
      assert ([top] + l)[0] == h && (u + ([h] + rest))[1..] == rest;
    } else {
      assert (u + ([h] + rest))[1..] == u[1..] + [h] + rest;
      PathSplit(next, top, u[1..], h, rest, to);
    }
  }

  /** What precedes q in l, seen from before l and from h. */
  lemma {:induction false} SameBefore(top: Addr, l: seq<Addr>, u: seq<Addr>, h: Addr, a: seq<Addr>, q: Addr,
                                      b: seq<Addr>) returns (c: seq<Addr>)
    requires [top] + l == u + [h] + a + [q] + b
    ensures l == c + [q] + b && LastOr(top, c) == LastOr(h, a)
  {
    var front := u + [h] + a;
    c := front[1..];
    assert ([top] + l)[1..] == l && (front + [q] + b)[1..] == c + [q] + b;
    assert front[|front| - 1] == LastOr(h, a);
    assert ([top] + l)[0] == front[0];
  }

  lemma {:induction false} BehindHead(hlp: map<Qh, Qh>, l: seq<Qh>, h: Qh, q: Qh)
    returns (a: seq<Qh>, b: seq<Qh>, c: seq<Qh>)
    requires Before([Head(TOP)] + l, h, q) && NoDup([Head(TOP)] + l) && Path(hlp, Head(TOP), l, 0)
      && 0 !in [Head(TOP)] + l
    ensures Path(hlp, h, a + [q] + b, 0) && NoDup([h] + a + [q] + b) && 0 !in a
    ensures l == c + [q] + b && LastOr(Head(TOP), c) == LastOr(h, a)
  {
    var u;
    u, a, b := BeforeSplits([Head(TOP)] + l, h, q);
    Regroup5(u, h, a, q, b);
    NoDupSplit(u, [h] + (a + [q] + b));
    assert forall x :: x in a ==> x in u + [h] + a + [q] + b;
    PathFrom(hlp, Head(TOP), l, u, h, a + [q] + b, 0);
    c := SameBefore(Head(TOP), l, u, h, a, q, b);
  }

  lemma {:induction false} InRing(hlp: map<Qh, Qh>, ring: seq<Qh>, q: Qh) returns (a: seq<Qh>, b: seq<Qh>)
    requires Path(hlp, ASYNC, ring, ASYNC) && NoDup(ring) && q in ring && ASYNC !in ring && 0 !in ring
    ensures Path(hlp, ASYNC, a + [q] + b, ASYNC) && NoDup([ASYNC] + a + [q] + b) && 0 !in a && ring == a + [q] + b
  {
    a, b := SplitAt(ring, q);
    Regroup5([], ASYNC, a, q, b);
    assert ([ASYNC] + ring)[1..] == ring;
    assert forall x :: x in a ==> x in ring;
  }

  /** q goes out of l, between a and b, and another list, without q, stays. */
  lemma {:induction false} OneUnlinks(hlp: map<Qh, Qh>, from: Qh, l: seq<Qh>, to: Qh, a: seq<Qh>, q: Qh, b: seq<Qh>,
                                      from2: Qh, l2: seq<Qh>, to2: Qh)
    requires Path(hlp, from, l, to) && l == a + [q] + b && NoDup([from] + l)
    requires Path(hlp, from2, l2, to2) && q !in l2 && from2 != from && from2 !in l && from !in l2
      && forall x :: x in l ==> x !in l2
    ensures var hlp' := hlp[LastOr(from, a) := At(hlp, q)];
      Path(hlp', from, Without(l, q), to) && Path(hlp', from2, Without(l2, q), to2)
    ensures LastOr(from, a) != q
  {
    Regroup5([], from, a, q, b);
    assert ([from] + l)[1..] == l;
    NotTwice(a, q, b);
    WithoutSplit(a, q, b);
    WithoutNone(l2, q);
    PathPast(hlp, from, a, q, b, to);
    assert LastOr(from, a) == from || LastOr(from, a) in l;
    assert q in l;
    PathAgree(hlp, hlp[LastOr(from, a) := At(hlp, q)], from2, l2, to2);
  }

  lemma {:induction false} Disjoint(s: Sched)
    requires ListsOk(s)
    ensures NoDup([ASYNC] + s.ring) && NoDup([Head(TOP)] + s.chain)
    ensures ASYNC !in s.chain && Head(TOP) !in s.ring && forall x :: x in s.ring ==> x !in s.chain
  {
    NoDupSplit(s.ring, s.chain);
    WholeHas(s, 0);
    assert ([ASYNC] + s.ring)[1..] == s.ring;
  }

  lemma {:induction false} RingUnlinks(hlp: map<Qh, Qh>, s: Sched, q: Qh, a: seq<Qh>, b: seq<Qh>)
    requires ListsOk(s) && ListShape(hlp, s.ring, s.chain) && s.ring == a + [q] + b
    ensures ListShape(hlp[LastOr(ASYNC, a) := At(hlp, q)], Without(s.ring, q), Without(s.chain, q))
      && LastOr(ASYNC, a) != q
  {
    Disjoint(s);
    assert q in s.ring;
    OneUnlinks(hlp, ASYNC, s.ring, ASYNC, a, q, b, Head(TOP), s.chain, 0);
  }

  lemma {:induction false} ChainUnlinks(hlp: map<Qh, Qh>, s: Sched, q: Qh, c: seq<Qh>, b: seq<Qh>)
    requires ListsOk(s) && ListShape(hlp, s.ring, s.chain) && s.chain == c + [q] + b
    ensures ListShape(hlp[LastOr(Head(TOP), c) := At(hlp, q)], Without(s.ring, q), Without(s.chain, q))
      && LastOr(Head(TOP), c) != q
  {
    Disjoint(s);
    assert q in s.chain;
    OneUnlinks(hlp, Head(TOP), s.chain, 0, c, q, b, ASYNC, s.ring, ASYNC);
  }

  /** The place of a queue head behind the head that it is unlinked from. */
  lemma {:induction false} PlaceOf(hlp: map<Qh, Qh>, s: Sched, q: Qh) returns (a: seq<Qh>, b: seq<Qh>, from: Qh, to: Qh)
    requires Inv(s) && OnList(s, q) && ListShape(hlp, s.ring, s.chain)
    ensures from == HeadFor(At(s.slot, At(s.urb, q))) && Path(hlp, from, a + [q] + b, to)
    ensures NoDup([from] + a + [q] + b) && q != 0 && 0 !in a
    ensures ListShape(hlp[LastOr(from, a) := At(hlp, q)], Without(s.ring, q), Without(s.chain, q))
      && LastOr(from, a) != q
  {
    OnListCarries(s, q);
    NoDupSplit(s.ring, s.chain);
    if q in s.ring {
      from, to := ASYNC, ASYNC;
      a, b := InRing(hlp, s.ring, q);
      RingUnlinks(hlp, s, q, a, b);
    } else {
      from, to := Head(At(s.slot, At(s.urb, q)) - 1), 0;
      assert BehindItsHead(s, q);
      WholeHas(s, 0);
      assert 0 !in Whole(s);
      var c;
      a, b, c := BehindHead(hlp, s.chain, from, q);
      ChainUnlinks(hlp, s, q, c, b);
    }
  }

  // ----- linking a queue head in -----

  lemma {:induction false} PathCut(next: map<Addr, int>, from: Addr, a: seq<Addr>, b: seq<Addr>, to: Addr)
    requires Path(next, from, a + b, to)
    ensures Path(next, from, a, FirstOr(b, to)) && Path(next, LastOr(from, a), b, to)
    decreases |a|
  {
    if a == [] {
      assert a + b == b;
    } else {
      assert (a + b)[1..] == a[1..] + b;
      PathCut(next, a[0], a[1..], b, to);
    }
  }

  /** n comes in behind the last of a. */
  lemma {:induction false} PathGrows(hlp: map<Qh, Qh>, from: Qh, a: seq<Qh>, n: Qh, b: seq<Qh>, to: Qh)
    requires Path(hlp, from, a + b, to) && NoDup([from] + (a + b)) && n != from && n !in a && n !in b
    ensures var h := LastOr(from, a); Path(hlp[n := At(hlp, h)][h := n], from, a + [n] + b, to)
  {
    var h := LastOr(from, a);
    var hlp1, hlp2 := hlp[n := At(hlp, h)], hlp[n := At(hlp, h)][h := n];
    assert [from] + (a + b) == ([from] + a) + b;
    NoDupSplit([from] + a, b);
    assert h in [from] + a;
    PathCut(hlp, from, a, b, to);
    PathAgree(hlp, hlp1, from, a, FirstOr(b, to));
    PathTurns(hlp1, from, a, FirstOr(b, to), n);
    if b != [] {
      assert forall x :: x in b ==> x != h && x != n;
      PathAgree(hlp, hlp2, b[0], b[1..], to);
    }
    PathJoin(hlp2, from, a, n, b, to);
  }

  /** Another list is not affected. */
  lemma {:induction false} PathElsewhere(hlp: map<Qh, Qh>, h: Qh, n: Qh, from: Qh, l: seq<Qh>, to: Qh)
    requires Path(hlp, from, l, to) && n != from && n !in l && h != from && h !in l
    ensures Path(hlp[n := At(hlp, h)][h := n], from, l, to)
  {
    PathAgree(hlp, hlp[n := At(hlp, h)][h := n], from, l, to);
  }

  lemma {:induction false} AddHeadShape(hlp: map<Qh, Qh>, s: Sched, q: Qh, u: Urb)
    requires ListsOk(s) && ListShape(hlp, s.ring, s.chain) && Pool(q) && q !in s.ring && q !in s.chain
      && 0 <= At(s.slot, u) <= TOP + 1
    ensures var h, s' := HeadFor(At(s.slot, u)), Link(s, q, u);
      ListShape(hlp[q := At(hlp, h)][h := q], s'.ring, s'.chain)
  {
    if At(s.slot, u) == 0 {
      AddToRing(hlp, s, q, u);
    } else {
      AddToChain(hlp, s, q, u);
    }
  }

  lemma {:induction false} AddToRing(hlp: map<Qh, Qh>, s: Sched, q: Qh, u: Urb)
    requires ListsOk(s) && ListShape(hlp, s.ring, s.chain) && Pool(q) && q !in s.ring && q !in s.chain
      && At(s.slot, u) == 0
    ensures var h, s' := HeadFor(At(s.slot, u)), Link(s, q, u);
      ListShape(hlp[q := At(hlp, h)][h := q], s'.ring, s'.chain)
  {
    Disjoint(s);
    assert [] + s.ring == s.ring && [] + [q] + s.ring == [q] + s.ring;
    PathGrows(hlp, ASYNC, [], q, s.ring, ASYNC);
    PathElsewhere(hlp, ASYNC, q, Head(TOP), s.chain, 0);
  }

  lemma {:induction false} AddToChain(hlp: map<Qh, Qh>, s: Sched, q: Qh, u: Urb)
    requires ListsOk(s) && ListShape(hlp, s.ring, s.chain) && Pool(q) && q !in s.ring && q !in s.chain
      && 0 < At(s.slot, u) <= TOP + 1
    ensures var h, s' := HeadFor(At(s.slot, u)), Link(s, q, u);
      ListShape(hlp[q := At(hlp, h)][h := q], s'.ring, s'.chain)
  {
    var h := HeadFor(At(s.slot, u));
    Disjoint(s);
    WholeHas(s, At(s.slot, u) - 1);
    var c, d := ChainPlace(s.chain, Head(TOP), h, q);
    PathGrows(hlp, Head(TOP), c, q, d, 0);
    HeadNotInRing(s, At(s.slot, u) - 1);
    PathElsewhere(hlp, h, q, ASYNC, s.ring, ASYNC);
  }

  lemma {:induction false} HeadNotInRing(s: Sched, i: nat)
    requires ListsOk(s)
    ensures Head(i) !in s.ring && Head(i) != ASYNC
  {
  }

  /** The descriptors of the linked queue heads are untouched, and a new queue head has its own. */
  lemma {:induction false} QtdShapeGrows(first: map<Qh, Qtd>, next: map<Qtd, Qtd>, next': map<Qtd, Qtd>, s: Sched,
                                         s': Sched, q: Qh, f: Qtd)
    requires QtdShape(first, next, s.ring, s.chain, s.tds) && QtdsOk(s)
    requires forall x :: Used(s.qtdUsed, x) ==> At(next', x) == At(next, x)
    requires Descriptors(next', f, TdsOf(s'.tds, q)) && forall x :: x != q ==> TdsOf(s'.tds, x) == TdsOf(s.tds, x)
    requires forall x :: x in s'.ring || (x in s'.chain && Pool(x)) ==>
      x == q || x in s.ring || (x in s.chain && Pool(x))
    ensures QtdShape(first[q := f], next', s'.ring, s'.chain, s'.tds)
  {
    forall x | x in s'.ring || (x in s'.chain && Pool(x))
      ensures Descriptors(next', At(first[q := f], x), TdsOf(s'.tds, x))
    {
      if x != q {
        InFlat(s.tds, s.ring + s.chain, x);
        DescriptorsAgree(next, next', At(first, x), TdsOf(s.tds, x));
      }
    }
  }

  lemma {:induction false} DescriptorsAgree(n: map<Qtd, Qtd>, n': map<Qtd, Qtd>, d: Qtd, l: seq<Qtd>)
    requires Descriptors(n, d, l) && forall x :: x in l ==> At(n', x) == At(n, x)
    ensures Descriptors(n', d, l)
    decreases |l|
  {
    if l != [] {
      assert l[0] in l;
      DescriptorsAgree(n, n', At(n, l[0]), l[1..]);
    }
  }

  lemma {:induction false} LinkMembers(s: Sched, q: Qh, u: Urb)
    requires ListsOk(s) && 0 <= At(s.slot, u) <= TOP + 1
    ensures var s' := Link(s, q, u); forall x :: x in s'.ring || x in s'.chain ==> x == q || x in s.ring || x in s.chain
  {
    var s' := Link(s, q, u);
    if At(s.slot, u) > 0 {
      WholeHas(s, At(s.slot, u) - 1);
    }
    var a, b := LinkPlace(s, q, u);
    assert forall x :: x in a + b <==> x in s.ring + s.chain;
    assert forall x :: x in a + [q] + b ==> x == q || x in a + b;
    assert forall x :: x in s'.ring || x in s'.chain ==> x in s'.ring + s'.chain;
  }

  /** The shape of the descriptors after a submit. */
  lemma {:induction false} SubmitShape(first: map<Qh, Qtd>, next: map<Qtd, Qtd>, next': map<Qtd, Qtd>, s: Sched,
                                       u: Urb, f: Qtd,
                                       asked: nat, k: nat)
    requires Inv(s) && Idle(s, u) && Served(s, asked) && k <= FreeCount(s.qtdUsed)
    requires QtdShape(first, next, s.ring, s.chain, s.tds) && Descriptors(next', f, Taken(s.qtdUsed, k))
    requires forall x :: x !in Taken(s.qtdUsed, k) ==> At(next', x) == At(next, x)
    ensures var s' := Submit(s, u, asked, k);
      QtdShape(first[NextQh(s) := 0][NextQh(s) := f], next', s'.ring, s'.chain, s'.tds)
  {
    hide QhsOk;
    hide UrbsOk;
    hide SlotsOk;
    hide QtdsOk;
    hide QtdShape;
    hide Descriptors;
    var s', q := Submit(s, u, asked, k), NextQh(s);
    WroteTwice(first, q, 0, f);
    NextQhIsFree(s);
    TakenAre(s.qtdUsed, k);
    SubmitFields(s, u, asked, k);
    LinkMembers(AllocQtds(AllocQh(Unclaimed(s, u)), q, k), q, u);
    QtdShapeGrows(first, next, next', s, s', q, f);
  }

  /** The shape of the descriptors after a control submit. */
  lemma {:induction false} ControlShape(first: map<Qh, Qtd>, next: map<Qtd, Qtd>, next': map<Qtd, Qtd>, s: Sched,
                                        u: Urb, f: Qtd,
                                        wLength: nat, buflen: nat)
    requires Inv(s) && Idle(s, u) && Served(s, ControlNeeds(buflen))
    requires QtdShape(first, next, s.ring, s.chain, s.tds) && Descriptors(next', f, ControlChain(s, wLength, buflen))
    requires forall x :: x !in Taken(s.qtdUsed, ControlNeeds(buflen)) ==> At(next', x) == At(next, x)
    ensures var s' := ControlLinked(s, u, wLength, buflen);
      QtdShape(first[NextQh(s) := 0][NextQh(s) := f], next', s'.ring, s'.chain, s'.tds)
  {
    hide QhsOk;
    hide UrbsOk;
    hide SlotsOk;
    hide QtdsOk;
    hide QtdShape;
    hide Descriptors;
    var q, k := NextQh(s), ControlNeeds(buflen);
    WroteTwice(first, q, 0, f);
    NextQhIsFree(s);
    TakenAre(s.qtdUsed, k);
    var s1 := AllocQh(Unclaimed(s, u));
    var s2 := s1.(qtdUsed := Marked(s.qtdUsed, k), tds := s1.tds[q := ControlChain(s, wLength, buflen)]);
    LinkMembers(s2, q, u);
    LinkTds(s2, q, u);
    QtdShapeGrows(first, next, next', s, Link(s2, q, u), q, f);
  }
}
