/**
 The periodic schedule: which queue heads each frame of the frame list reaches,
 and how often an interrupt queue head is met.

 Head i serves every 2^i-th frame.  Pointers to the heads are their indices; NONE
 stands for an empty frame list entry and for the end of a chain.
*/
module EhciFrames {
  import opened Arith

  const NONE := -1

  /** Heads 0 to TOP and 2^TOP frames, for frame lists of 256, 512 or 1024 entries. */
  type TopHead = k: nat | 8 <= k <= 10 witness 10

  predicate Divides(i: nat, n: int) {
    n % Pow2(i) == 0
  }

  /** The largest head up to k that serves the frame with n - 1 before it. */
  function TopOf(k: nat, n: int): (i: nat)
    ensures i <= k && Divides(i, n) && forall i' :: i < i' <= k ==> !Divides(i', n)
  {
    if Divides(k, n) then k else TopOf(k - 1, n)
  }

  /** The largest head that serves frame x. */
  function TopAt(k: nat, x: int): nat {
    TopOf(k, x + 1)
  }

  lemma {:induction false} HalfDivides(m: nat, n: int)
    requires m > 0 && n % (2 * m) == 0
    ensures n % m == 0
  {
    var q := n / (2 * m);
    assert n == (2 * m) * q;
    assert (2 * m) * q == m * (2 * q);
    DivUnique(n, m, 2 * q, 0);
  }

  /** A frame that head i serves is served by every smaller head. */
  lemma {:induction false} SmallerDivide(i: nat, i': nat, n: int)
    requires i' <= i && Divides(i, n)
    ensures Divides(i', n)
    decreases i
  {
    if i' < i {
      HalfDivides(Pow2(i - 1), n);
      SmallerDivide(i - 1, i', n);
    }
  }

  lemma {:induction false} DividesUpToTop(k: nat, n: int, i: nat)
    requires i <= k
    ensures Divides(i, n) <==> i <= TopOf(k, n)
  {
    if i <= TopOf(k, n) {
      SmallerDivide(TopOf(k, n), i, n);
    }
  }

  // ----- what a frame reaches -----

  /** The heads on the chain from head h on. */
  function Chain(hlp: seq<int>, h: int, fuel: nat): seq<int>
    decreases fuel
  {
    if fuel == 0 || !(0 <= h < |hlp|) then [] else [h] + Chain(hlp, hlp[h], fuel - 1)
  }

  /** From m down to 0. */
  function Down(m: int): (s: seq<int>)
    decreases m + 1
  {
    if m < 0 then [] else [m] + Down(m - 1)
  }

  /** Every head is linked to the next smaller one. */
  ghost predicate Descending(hlp: seq<int>, top: nat) {
    |hlp| == top + 1 && hlp[0] == NONE && forall i :: 0 < i <= top ==> hlp[i] == i - 1
  }

  lemma {:induction false} ChainDown(hlp: seq<int>, top: nat, m: int, fuel: nat)
    requires Descending(hlp, top) && NONE <= m <= top && fuel > m
    ensures Chain(hlp, m, fuel) == Down(m)
    decreases fuel
  {
    if m >= 0 {
      if m > 0 {
        ChainDown(hlp, top, m - 1, fuel - 1);
      } else {
        assert Chain(hlp, NONE, fuel - 1) == [];
      }
    }
  }

  lemma {:induction false} DownIs(m: int, i: int)
    ensures i in Down(m) <==> 0 <= i <= m
    decreases m + 1
  {
    if m >= 0 {
      DownIs(m - 1, i);
    }
  }

  /** The schedule: the frame list and the links of the heads. */
  ghost predicate Scheduled(frames: seq<int>, hlp: seq<int>, top: nat) {
    && |frames| == Pow2(top) && Descending(hlp, top)
    && forall j :: 0 <= j < |frames| ==> frames[j] == TopAt(top, j)
  }

  /** Frame j reaches exactly the heads i with 2^i dividing j + 1, in descending order. */
  lemma {:induction false} FrameReaches(frames: seq<int>, hlp: seq<int>, top: nat, j: nat, i: nat)
    requires Scheduled(frames, hlp, top) && j < |frames| && i <= top
    ensures Chain(hlp, frames[j], top + 1) == Down(frames[j])
    ensures i in Chain(hlp, frames[j], top + 1) <==> Divides(i, j + 1)
  {
    ChainDown(hlp, top, frames[j], top + 1);
    DownIs(frames[j], i);
    DividesUpToTop(top, j + 1, i);
  }

  // ----- building it -----

  /** The frame list after heads from i on were entered in the frames before j, and heads above i in the others. */
  ghost predicate Built(frames: seq<int>, top: nat, i: int, j: int) {
    && |frames| == Pow2(top)
    && forall x :: 0 <= x < |frames| ==>
      frames[x] == (var t := TopAt(top, x); if t >= (if x < j then i else i + 1) then t else NONE)
  }

  /** The links among the heads above i, and whether the last of them is linked to i already. */
  ghost predicate LinkedAbove(hlp: seq<int>, top: nat, i: int, linked: bool) {
    && |hlp| == top + 1
    && (forall x :: 0 <= x && i + 1 < x <= top ==> hlp[x] == x - 1)
    && (0 <= i + 1 <= top ==> hlp[i + 1] == if linked then i else NONE)
    && (0 <= i <= top ==> hlp[i] == NONE)
  }

  /** Entering head i in a frame that it serves. */
  method EnterHead(frames: array<int>, hlp: array<int>, top: nat, i: nat, j: nat, ghost linked: bool)
    returns (ghost linked': bool)
    requires frames != hlp && i <= top && j < frames.Length && Divides(i, j + 1)
    requires Built(frames[..], top, i, j) && LinkedAbove(hlp[..], top, i, linked)
    modifies frames, hlp
    ensures Built(frames[..], top, i, j + 1) && LinkedAbove(hlp[..], top, i, linked')
    ensures linked' == (linked || TopOf(top, j + 1) > i)
  {
    DividesUpToTop(top, j + 1, i);
    linked' := linked;
    if frames[j] == NONE {
      frames[j] := i;
    } else {
      var qh := frames[j];
      linked' := true;
      while true
        invariant frames[..] == old(frames[..])
        invariant i <= qh <= top && LinkedAbove(hlp[..], top, i, linked)
        invariant hlp[..] == old(hlp[..])
        invariant qh == i ==> linked
        decreases qh
      {
        if qh == i {
          break;
        }
        if hlp[qh] == NONE {
          hlp[qh] := i;
          break;
        }
        qh := hlp[qh];
      }
    }
  }

  /** Between two frames that head i serves nothing is entered. */
  lemma {:induction false} SkipFrames(frames: seq<int>, top: nat, i: nat, c: nat)
    requires Built(frames, top, i, c * Pow2(i)) && i <= top
    ensures Built(frames, top, i, c * Pow2(i) + Pow2(i) - 1)
  {
    var a, p := c * Pow2(i), Pow2(i);
    forall x | a <= x < a + p - 1 ensures TopAt(top, x) < i {
      DivUnique(x + 1, p, c, x + 1 - a);
      DividesUpToTop(top, x + 1, i);
    }
  }

  lemma {:induction false} ServedFrame(i: nat, c: nat)
    ensures Divides(i, (c + 1) * Pow2(i)) && (c + 1) * Pow2(i) == c * Pow2(i) + Pow2(i)
  {
    DivUnique((c + 1) * Pow2(i), Pow2(i), c + 1, 0);
  }

  /** The second frame that head i serves is the first of head i + 1. */
  lemma {:induction false} SecondFrameLinks(top: nat, i: nat)
    requires i < top
    ensures TopOf(top, 2 * Pow2(i)) > i
  {
    DivUnique(Pow2(i + 1), Pow2(i + 1), 1, 0);
    DividesUpToTop(top, 2 * Pow2(i), i + 1);
  }

  lemma {:induction false} Pow2Grows(i: nat, top: nat)
    requires i <= top
    ensures Pow2(i) <= Pow2(top) && exists n: nat :: Pow2(top) == n * Pow2(i)
    decreases top
  {
    if i < top {
      Pow2Grows(i, top - 1);
      var n: nat :| Pow2(top - 1) == n * Pow2(i);
      assert Pow2(top) == (2 * n) * Pow2(i);
    } else {
      assert Pow2(top) == 1 * Pow2(i);
    }
  }

  /** Entering head i in every frame that it serves. */
  method EnterEverywhere(frames: array<int>, hlp: array<int>, top: nat, i: nat)
    requires frames != hlp && i <= top && Built(frames[..], top, i, 0) && LinkedAbove(hlp[..], top, i, false)
    modifies frames, hlp
    ensures Built(frames[..], top, i, frames.Length) && LinkedAbove(hlp[..], top, i, i < top)
  {
    var interval := Pow2(i);
    ghost var c, linked := 0, false;
    ghost var n: nat;
    Pow2Grows(i, top);
    n :| Pow2(top) == n * Pow2(i);
    var j := interval - 1;
    while j < frames.Length
      invariant j == c * interval + interval - 1 && c <= n
      invariant Built(frames[..], top, i, c * interval) && LinkedAbove(hlp[..], top, i, linked)
      invariant linked ==> i < top
      invariant c >= 2 && i < top ==> linked
      decreases n - c
    {
      SkipFrames(frames[..], top, i, c);
      ServedFrame(i, c);
      if c == 1 && i < top {
        SecondFrameLinks(top, i);
      }
      assert (c + 1) * interval <= n * interval;
      MulOrder(c + 1, n, interval);
      linked := EnterHead(frames, hlp, top, i, j, linked);
      c := c + 1;
      j := j + interval;
    }
    assert (c + 1) * interval > n * interval;
    MulOrder(c + 1, n, interval);
    if i < top {
      Pow2Grows(i + 1, top);
      MulOrder(2, n, interval);
    }
  }

  /** The heads above i are linked among themselves. */
  ghost predicate LinkedBelow(hlp: seq<int>, top: nat, i: int) {
    && |hlp| == top + 1
    && (forall x :: 0 <= x && i + 1 < x <= top ==> hlp[x] == x - 1)
    && (0 <= i + 1 <= top ==> hlp[i + 1] == NONE)
  }

  /** Head i is set up and entered. */
  method SetUpHead(frames: array<int>, hlp: array<int>, top: nat, i: nat)
    requires frames != hlp && i <= top && Built(frames[..], top, i, 0) && LinkedBelow(hlp[..], top, i)
    modifies frames, hlp
    ensures Built(frames[..], top, i - 1, 0) && LinkedBelow(hlp[..], top, i - 1)
  {
    hlp[i] := NONE;
    assert LinkedAbove(hlp[..], top, i, false);
    EnterEverywhere(frames, hlp, top, i);
  }

  /** The frame list and the links of the heads, as the initialisation of the controller builds them. */
  method BuildSchedule(top: TopHead) returns (frames: array<int>, hlp: array<int>)
    ensures fresh(frames) && fresh(hlp) && Scheduled(frames[..], hlp[..], top)
  {
    frames := new int[Pow2(top)](_ => NONE);
    hlp := new int[top + 1];
    var i: int := top;
    while i >= 0
      invariant -1 <= i <= top && frames != hlp && fresh(frames) && fresh(hlp)
      invariant Built(frames[..], top, i, 0) && LinkedBelow(hlp[..], top, i)
    {
      SetUpHead(frames, hlp, top, i);
      i := i - 1;
    }
  }

  // ----- which head an interrupt endpoint goes to -----

  /** The base-two logarithm of v, rounded down, at most top. */
  function HeadOfPeriod(v: nat, top: nat): (h: nat)
    ensures h <= top
  {
    if v < 2 || top == 0 then 0 else 1 + HeadOfPeriod(v / 2, top - 1)
  }

  lemma {:induction false} HeadOfPeriodIs(v: nat, top: nat)
    ensures var h := HeadOfPeriod(v, top);
      Pow2(h) <= (if v == 0 then 1 else v) && (h < top ==> v < Pow2(h + 1))
    decreases top
  {
    if v >= 2 && top > 0 {
      HeadOfPeriodIs(v / 2, top - 1);
    }
  }

  /** The head for an interval in microframes, given in eight bits. */
  method PeriodicHead(interval: nat, top: TopHead) returns (h: nat)
    requires interval < 256
    ensures h == HeadOfPeriod(interval / 8, top)
  {
    var v: nat := interval / 8;
    var i: nat := 0;
    while i < top
      invariant i <= top && HeadOfPeriod(interval / 8, top) == i + HeadOfPeriod(v, top - i)
    {
      if v / 2 == 0 {
        return i;
      }
      v := v / 2;
      i := i + 1;
    }
    return top;
  }

  /** The head for the interval of a low- or full-speed endpoint, in frames; the product is cut to eight bits. */
  function SlowHead(bInterval: nat, top: nat): nat {
    HeadOfPeriod(bInterval * 8 % 256 / 8, top)
  }

  lemma {:induction false} SlowPeriod(bInterval: nat, top: nat)
    requires bInterval < 256
    ensures Pow2(SlowHead(bInterval, top)) <= if bInterval == 0 then 1 else bInterval
  {
    var v := bInterval * 8 % 256 / 8;
    assert v <= bInterval;
    HeadOfPeriodIs(v, top);
  }

  lemma {:induction false} PullOut(p: int, a: int, n: int, q: int)
    ensures p * a - n * p * q == p * (a - n * q)
  {
  }

  /** The frame list wraps around at a frame that every head serves. */
  lemma {:induction false} ServedAcrossWrap(top: nat, h: nat, g: nat)
    requires h <= top && Divides(h, g + 1)
    ensures Divides(h, g % Pow2(top) + 1)
  {
    Pow2Grows(h, top);
    var p := Pow2(h);
    var n: nat :| Pow2(top) == n * p;
    WrapsAtMultiple(g, Pow2(top), n, p);
  }

  lemma {:induction false} WrapsAtMultiple(g: nat, t: nat, n: nat, p: nat)
    requires p > 0 && t > 0 && t == n * p && (g + 1) % p == 0
    ensures (g % t + 1) % p == 0
  {
    var q, a := g / t, (g + 1) / p;
    assert g + 1 == p * a;
    PullOut(p, a, n, q);
    DivUnique(g % t + 1, p, a - n * q, 0);
  }

  lemma {:induction false} NextServed(h: nat, f: nat) returns (g: nat)
    ensures f <= g < f + Pow2(h) && Divides(h, g + 1)
  {
    var p := Pow2(h);
    g := f + (p - 1 - f % p);
    assert g + 1 == p * (f / p + 1) by {
      assert f == p * (f / p) + f % p;
      assert p * (f / p + 1) == p * (f / p) + p;
    }
    DivUnique(g + 1, p, f / p + 1, 0);
  }

  /**
   A low- or full-speed interrupt endpoint of interval bInterval is met at least
   once in every max(1, bInterval) consecutive frames, whatever the frame number.
  */
  lemma {:induction false} MetInEveryInterval(frames: seq<int>, hlp: seq<int>, top: TopHead, bInterval: nat, f: nat)
    returns (g: nat)
    requires Scheduled(frames, hlp, top) && bInterval < 256
    ensures f <= g < f + (if bInterval == 0 then 1 else bInterval)
    ensures SlowHead(bInterval, top) in Chain(hlp, frames[g % |frames|], top + 1)
  {
    var h := SlowHead(bInterval, top);
    SlowPeriod(bInterval, top);
    g := NextServed(h, f);
    ServedAcrossWrap(top, h, g);
    FrameReaches(frames, hlp, top, g % |frames|, h);
  }
}
