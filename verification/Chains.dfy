/**
 Doubly linked chains in memory: a `next` and a `prev` word per node, kept in
 maps from addresses to words.
*/
module Chains {
  type Addr = int

  const NULL: Addr := 0

  /** The word at an address; memory never written to reads as 0. */
  function At(m: map<Addr, int>, a: Addr): int {
    if a in m then m[a] else 0
  }

  /** What a map holds after a word was written. */
  lemma {:induction false} Wrote(m: map<Addr, int>, m': map<Addr, int>, a: Addr, v: int)
    requires m' == m[a := v]
    ensures forall x :: At(m', x) == if x == a then v else At(m, x)
  {
  }

  lemma {:induction false} WroteTwice(m: map<Addr, int>, a: Addr, v: int, w: int)
    ensures m[a := v][a := w] == m[a := w]
  {
  }

  ghost predicate NoDup(l: seq<Addr>) {
    l != [] ==> l[0] !in l[1..] && NoDup(l[1..])
  }

  function FirstOr(l: seq<Addr>, nxt: Addr): Addr {
    if l == [] then nxt else l[0]
  }

  function LastOr(prev: Addr, l: seq<Addr>): Addr {
    if l == [] then prev else l[|l| - 1]
  }

  /** The words of a stretch of a chain between the nodes before and after. */
  ghost predicate Linked(next: map<Addr, int>, prev: map<Addr, int>, before: Addr, l: seq<Addr>, after: Addr)
    decreases |l|
  {
    l != [] ==>
      && At(prev, l[0]) == before
      && At(next, l[0]) == FirstOr(l[1..], after)
      && Linked(next, prev, l[0], l[1..], after)
  }

  lemma {:induction false} NoDupSplit(a: seq<Addr>, b: seq<Addr>)
    ensures NoDup(a + b) <==> NoDup(a) && NoDup(b) && forall x :: x in a ==> x !in b
  {
    if a == [] {
      assert a + b == b;
    } else {
      assert (a + b)[1..] == a[1..] + b;
      NoDupSplit(a[1..], b);
      assert forall x :: x in a <==> x == a[0] || x in a[1..];
      assert a[0] !in a[1..] + b <==> a[0] !in a[1..] && a[0] !in b;
    }
  }

  /** A node of a list without repetition divides it in exactly one way. */
  lemma {:induction false} SplitAt(l: seq<Addr>, a: Addr) returns (u: seq<Addr>, v: seq<Addr>)
    requires a in l && NoDup(l)
    ensures l == u + [a] + v && a !in u && a !in v && NoDup(u) && NoDup(v) && (forall z :: z in u ==> z !in v)
  {
    var i :| 0 <= i < |l| && l[i] == a;
    u, v := l[..i], l[i + 1..];
    assert l == u + [a] + v;
    NoDupSplit(u + [a], v);
    NoDupSplit(u, [a]);
    assert a in u + [a];
  }

  lemma {:induction false} LinkedSplit(next: map<Addr, int>, prev: map<Addr, int>, before: Addr, a: seq<Addr>,
                                       b: seq<Addr>, after: Addr)
    ensures Linked(next, prev, before, a + b, after) <==>
      Linked(next, prev, before, a, FirstOr(b, after)) && Linked(next, prev, LastOr(before, a), b, after)
    decreases |a|
  {
    if a == [] {
      assert a + b == b;
    } else {
      assert (a + b)[1..] == a[1..] + b;
      LinkedSplit(next, prev, a[0], a[1..], b, after);
    }
  }

  lemma {:induction false} LinkedAgree(next: map<Addr, int>, prev: map<Addr, int>, next': map<Addr, int>,
                                       prev': map<Addr, int>,
                                       before: Addr, l: seq<Addr>, after: Addr)
    requires Linked(next, prev, before, l, after)
    requires forall a :: a in l ==> At(next', a) == At(next, a) && At(prev', a) == At(prev, a)
    ensures Linked(next', prev', before, l, after)
    decreases |l|
  {
    if l != [] {
      assert l[0] in l;
      LinkedAgree(next, prev, next', prev', l[0], l[1..], after);
    }
  }

  /** The last node is linked to another successor. */
  lemma {:induction false} LinkNext(next: map<Addr, int>, prev: map<Addr, int>, before: Addr, a: seq<Addr>,
                                    after: Addr, to: Addr)
    requires Linked(next, prev, before, a, after) && a != [] && NoDup(a)
    ensures Linked(next[a[|a| - 1] := to], prev, before, a, to)
    decreases |a|
  {
    if |a| == 1 {
      assert a[1..] == [];
    } else {
      assert a[|a| - 1] in a[1..];
      LinkNext(next, prev, a[0], a[1..], after, to);
    }
  }

  /** The first node is linked to another predecessor. */
  lemma {:induction false} LinkPrev(next: map<Addr, int>, prev: map<Addr, int>, before: Addr, b: seq<Addr>,
                                    after: Addr, to: Addr)
    requires Linked(next, prev, before, b, after) && b != [] && NoDup(b)
    ensures Linked(next, prev[b[0] := to], to, b, after)
  {
    LinkedAgree(next, prev, next, prev[b[0] := to], b[0], b[1..], after);
  }

  /** What a node of a chain holds. */
  lemma {:induction false} LinkedAt(next: map<Addr, int>, prev: map<Addr, int>, before: Addr, a: seq<Addr>, x: Addr,
                                    v: seq<Addr>, after: Addr)
    requires Linked(next, prev, before, a + [x] + v, after)
    ensures Linked(next, prev, before, a, x) && Linked(next, prev, x, v, after)
    ensures At(prev, x) == LastOr(before, a) && At(next, x) == FirstOr(v, after)
  {
    LinkedSplit(next, prev, before, a + [x], v, after);
    LinkedSplit(next, prev, before, a, [x], FirstOr(v, after));
    assert [x][1..] == [];
  }

  // ----- taking an element out -----

  ghost function Elems(l: seq<Addr>): set<Addr> {
    set a | a in l
  }

  ghost function Without(l: seq<Addr>, a: Addr): seq<Addr> {
    if l == [] then [] else if l[0] == a then l[1..] else [l[0]] + Without(l[1..], a)
  }

  lemma {:induction false} WithoutSplit(u: seq<Addr>, a: Addr, v: seq<Addr>)
    requires a !in u
    ensures Without(u + [a] + v, a) == u + v
  {
    if u == [] {
      assert u + [a] + v == [a] + v;
      assert ([a] + v)[1..] == v;
    } else {
      assert (u + [a] + v)[1..] == u[1..] + [a] + v;
      WithoutSplit(u[1..], a, v);
    }
  }

  lemma {:induction false} WithoutKeeps(l: seq<Addr>, a: Addr)
    requires NoDup(l) && a in l
    ensures NoDup(Without(l, a)) && Elems(Without(l, a)) == Elems(l) - {a}
  {
    var u, v := SplitAt(l, a);
    WithoutSplit(u, a, v);
    NoDupSplit(u, v);
    assert forall z :: z in l <==> z in u || z == a || z in v;
  }

  lemma {:induction false} WithoutElems(l: seq<Addr>, a: Addr)
    requires NoDup(l)
    ensures NoDup(Without(l, a)) && forall x :: x in Without(l, a) <==> x in l && x != a
  {
    if l != [] {
      WithoutElems(l[1..], a);
      assert forall x :: x in l <==> x == l[0] || x in l[1..];
      if l[0] != a {
        assert forall x :: x in Without(l, a) <==> x == l[0] || x in Without(l[1..], a);
      }
    }
  }

  // ----- order -----

  /** t stands before u. */
  ghost predicate Before(l: seq<Addr>, t: Addr, u: Addr) {
    l != [] && if l[0] == t then u in l[1..] else Before(l[1..], t, u)
  }

  lemma {:induction false} BeforeIn(l: seq<Addr>, t: Addr, u: Addr)
    requires Before(l, t, u)
    ensures t in l && u in l && (l[0] != t ==> u in l[1..])
  {
    if l[0] != t {
      BeforeIn(l[1..], t, u);
    }
  }

  lemma {:induction false} WithoutKeepsOrder(l: seq<Addr>, h: Addr, t: Addr, u: Addr)
    requires Before(l, t, u) && h != t && h != u && NoDup(l)
    ensures Before(Without(l, h), t, u)
  {
    if l[0] != h {
      assert Without(l, h)[1..] == Without(l[1..], h);
      if l[0] == t {
        WithoutElems(l[1..], h);
      } else {
        WithoutKeepsOrder(l[1..], h, t, u);
      }
    }
  }
}
