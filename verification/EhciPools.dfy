/**
 Pools of descriptors: a used mark per entry, the first free entry is taken.
 Entry i of a pool has the address i + 1; 0 is no address.
*/
module EhciPools {
  import opened Chains

  ghost predicate Used(used: seq<bool>, d: Addr) {
    1 <= d <= |used| && used[d - 1]
  }

  /** A pool of n free entries. */
  function AllFree(n: nat): (used: seq<bool>)
    ensures |used| == n && forall i :: 0 <= i < n ==> !used[i]
  {
    seq(n, i => false)
  }

  /** The first free entry from i on, or the size of the pool. */
  function FirstFree(used: seq<bool>, i: nat): (f: nat)
    requires i <= |used|
    ensures i <= f <= |used| && (f < |used| ==> !used[f]) && forall x :: i <= x < f ==> used[x]
    decreases |used| - i
  {
    if i < |used| && used[i] then FirstFree(used, i + 1) else i
  }

  function FreeCount(used: seq<bool>): (n: nat) {
    if used == [] then 0 else (if used[0] then 0 else 1) + FreeCount(used[1..])
  }

  /** The entries that n allocations in a row take. */
  function Taken(used: seq<bool>, n: nat): (l: seq<Addr>)
    requires n <= FreeCount(used)
    decreases n
  {
    if n == 0 then []
    else
      TakesOne(used);
      var f := FirstFree(used, 0);
      [f + 1] + Taken(used[f := true], n - 1)
  }

  function Marked(used: seq<bool>, n: nat): (r: seq<bool>)
    requires n <= FreeCount(used)
    ensures |r| == |used|
    decreases n
  {
    if n == 0 then used
    else
      TakesOne(used);
      Marked(used[FirstFree(used, 0) := true], n - 1)
  }

  function Freed(used: seq<bool>, l: seq<Addr>): (r: seq<bool>)
    ensures |r| == |used|
    decreases |l|
  {
    if l == [] then used
    else Freed(if 1 <= l[0] <= |used| then used[l[0] - 1 := false] else used, l[1..])
  }

  lemma {:induction false} CountSplit(a: seq<bool>, b: seq<bool>)
    ensures FreeCount(a + b) == FreeCount(a) + FreeCount(b)
  {
    if a == [] {
      assert a + b == b;
    } else {
      assert (a + b)[1..] == a[1..] + b;
      CountSplit(a[1..], b);
    }
  }

  lemma {:induction false} NoneFree(used: seq<bool>)
    requires forall x :: 0 <= x < |used| ==> used[x]
    ensures FreeCount(used) == 0
  {
    if used != [] {
      NoneFree(used[1..]);
    }
  }

  /** Marking a free entry takes one from the count. */
  lemma {:induction false} MarkCount(used: seq<bool>, f: nat)
    requires f < |used| && !used[f]
    ensures FreeCount(used[f := true]) == FreeCount(used) - 1
  {
    assert used == used[..f] + [used[f]] + used[f + 1..];
    assert used[f := true] == used[..f] + [true] + used[f + 1..];
    CountSplit(used[..f] + [false], used[f + 1..]);
    CountSplit(used[..f], [false]);
    CountSplit(used[..f] + [true], used[f + 1..]);
    CountSplit(used[..f], [true]);
    assert [true][1..] == [] && [false][1..] == [];
  }

  /** While an entry is free the first free one is found. */
  lemma {:induction false} TakesOne(used: seq<bool>)
    requires FreeCount(used) > 0
    ensures var f := FirstFree(used, 0);
      f < |used| && FreeCount(used[f := true]) == FreeCount(used) - 1
  {
    var f := FirstFree(used, 0);
    if f == |used| {
      NoneFree(used);
    } else {
      MarkCount(used, f);
    }
  }

  /** Allocations take distinct free entries and mark exactly them. */
  lemma {:induction false} TakenAre(used: seq<bool>, n: nat)
    requires n <= FreeCount(used)
    ensures var l := Taken(used, n);
      && |l| == n && NoDup(l)
      && (forall d :: d in l ==> 1 <= d <= |used| && !Used(used, d))
      && (forall d :: Used(Marked(used, n), d) <==> Used(used, d) || d in l)
    decreases n
  {
    if n > 0 {
      TakesOne(used);
      var f := FirstFree(used, 0);
      var used1 := used[f := true];
      TakenAre(used1, n - 1);
      assert Taken(used, n)[1..] == Taken(used1, n - 1);
      assert forall d :: Used(used1, d) <==> Used(used, d) || d == f + 1;
    }
  }

  lemma {:induction false} FreedAre(used: seq<bool>, l: seq<Addr>)
    ensures forall d :: Used(Freed(used, l), d) <==> Used(used, d) && d !in l
    decreases |l|
  {
    if l != [] {
      var used1 := if 1 <= l[0] <= |used| then used[l[0] - 1 := false] else used;
      FreedAre(used1, l[1..]);
      assert forall d :: Used(used1, d) <==> Used(used, d) && d != l[0];
      assert forall d :: d in l <==> d == l[0] || d in l[1..];
    }
  }

  /** Freeing what was just taken restores the pool. */
  lemma {:induction false} FreedTaken(used: seq<bool>, n: nat)
    requires n <= FreeCount(used)
    ensures Freed(Marked(used, n), Taken(used, n)) == used
  {
    var r := Freed(Marked(used, n), Taken(used, n));
    TakenAre(used, n);
    FreedAre(Marked(used, n), Taken(used, n));
    forall i | 0 <= i < |used| ensures r[i] == used[i] {
      assert Used(r, i + 1) <==> Used(used, i + 1);
    }
  }

  /** One allocation more. */
  lemma {:induction false} TakenNext(used: seq<bool>, n: nat)
    requires n < FreeCount(used)
    ensures FreeCount(Marked(used, n)) == FreeCount(used) - n
    ensures var f := FirstFree(Marked(used, n), 0);
      f < |used| && Taken(used, n + 1) == Taken(used, n) + [f + 1] && Marked(used, n + 1) == Marked(used, n)[f := true]
    decreases n
  {
    TakesOne(used);
    var used1 := used[FirstFree(used, 0) := true];
    if n > 0 {
      TakenNext(used1, n - 1);
      assert Taken(used, n + 1) == [FirstFree(used, 0) + 1] + Taken(used1, n);
    } else {
      assert Taken(used, 1) == [FirstFree(used, 0) + 1] + Taken(used1, 0);
      assert Marked(used, 1) == Marked(used1, 0);
    }
  }

  /** Freeing one entry after the other. */
  lemma {:induction false} FreedInTurn(used: seq<bool>, l: seq<Addr>, d: Addr)
    ensures Freed(used, l + [d]) == Freed(Freed(used, l), [d])
    decreases |l|
  {
    if l == [] {
      assert l + [d] == [d];
    } else {
      assert (l + [d])[1..] == l[1..] + [d];
      FreedInTurn(if 1 <= l[0] <= |used| then used[l[0] - 1 := false] else used, l[1..], d);
    }
  }
}
