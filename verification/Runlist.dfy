/**
 NTFS runlists: a file's clusters as runs of consecutive clusters, each stored as
 a length and a signed distance from the run before, in as many bytes as needed.
*/
module Runlist {
  import opened Arith
  import opened LittleEndian

  /** A run: how many clusters, and the first of them. */
  datatype Run = Run(len: int, lcn: int)

  /** The same with the top bit as the sign. */
  function Signed(b: seq<Byte>): int {
    if b != [] && b[|b| - 1] >= 128 then Unsigned(b) - Pow256(|b|) else Unsigned(b)
  }

  /** The low bytes of a signed number. */
  lemma {:induction false} SignedLow(b: seq<Byte>)
    ensures Signed(b) % Pow256(|b|) == Unsigned(b)
  {
    UnsignedBound(b);
    DivUnique(Unsigned(b), Pow256(|b|), 0, Unsigned(b));
    DivUnique(Unsigned(b) - Pow256(|b|), Pow256(|b|), -1, Unsigned(b));
  }

  /** A byte read as a plain char, which is signed or not as the compiler has it. */
  function CharOf(x: Byte, signedChar: bool): int {
    if signedChar && x >= 128 then x - 256 else x
  }

  /** The distance that bytes hold, as it is read through plain chars. */
  function Distance(b: seq<Byte>, signedChar: bool): int {
    if signedChar then Signed(b) else Unsigned(b)
  }

  lemma {:induction false} DistanceLow(b: seq<Byte>, signedChar: bool)
    ensures Distance(b, signedChar) % Pow256(|b|) == Unsigned(b)
  {
    SignedLow(b);
    UnsignedBound(b);
    DivUnique(Unsigned(b), Pow256(|b|), 0, Unsigned(b));
  }

  lemma {:induction false} DistanceAppend(b: seq<Byte>, x: Byte, signedChar: bool)
    ensures Distance(b + [x], signedChar) == Unsigned(b) + CharOf(x, signedChar) * Pow256(|b|)
  {
    UnsignedAppend(b, x);
    MulMinus(256, x, Pow256(|b|));
  }

  lemma {:induction false} Apart(a: int, d: int)
    requires 0 < d < WORD
    ensures (a + d) % WORD != a % WORD
  {
  }

  /**
   Read through unsigned chars, a distance of at most four bytes is the signed one,
   in 32 bits, exactly if there is no sign to be lost or all four bytes are there.
  */
  lemma {:induction false} UnsignedCharReads(b: seq<Byte>)
    requires |b| <= 4
    ensures Distance(b, false) % WORD == Signed(b) % WORD <==> b == [] || |b| == 4 || b[|b| - 1] < 128
  {
    Powers();
    if b != [] && b[|b| - 1] >= 128 && |b| < 4 {
      Apart(Signed(b), Pow256(|b|));
    }
  }

  lemma {:induction false} Powers()
    ensures Pow256(0) == 1 && Pow256(1) == 0x100 && Pow256(2) == 0x1_0000 && Pow256(3) == 0x100_0000
      && Pow256(4) == WORD
  {
    assert Pow256(1) == 256 * Pow256(0);
    assert Pow256(2) == 256 * Pow256(1);
    assert Pow256(3) == 256 * Pow256(2);
    assert Pow256(4) == 256 * Pow256(3);
  }

  // ----- what a runlist says -----

  function SizeBytes(header: Byte): nat {
    header % 16
  }

  function StartBytes(header: Byte): nat {
    header / 16
  }

  /** A run is stored at p, with at most four bytes for each number. */
  predicate RunAt(data: seq<Byte>, p: nat, end: nat) {
    p < end && p < |data| && data[p] != 0
  }

  predicate Whole(data: seq<Byte>, p: nat)
    requires p < |data|
  {
    SizeBytes(data[p]) <= 4 && StartBytes(data[p]) <= 4 && p + 1 + SizeBytes(data[p]) + StartBytes(data[p]) <= |data|
  }

  /** Every run from p on lies in the data. */
  ghost predicate WellFormed(data: seq<Byte>, p: nat, end: nat)
    decreases |data| - p
  {
    p < end ==> p < |data| && (data[p] != 0 ==> Whole(data, p) && WellFormed(data, Next(data, p), end))
  }

  function Next(data: seq<Byte>, p: nat): nat
    requires p < |data|
  {
    p + 1 + SizeBytes(data[p]) + StartBytes(data[p])
  }

  function SizeAt(data: seq<Byte>, p: nat): nat
    requires p < |data| && Whole(data, p)
  {
    Unsigned(data[p + 1..][..SizeBytes(data[p])])
  }

  function DeltaAt(data: seq<Byte>, p: nat, signedChar: bool): int
    requires p < |data| && Whole(data, p)
  {
    Distance(data[p + 1 + SizeBytes(data[p])..][..StartBytes(data[p])], signedChar)
  }

  /** The runs from p on, the run before having started at `lcn`. */
  ghost function Runs(data: seq<Byte>, p: nat, end: nat, lcn: int, signedChar: bool): seq<Run>
    requires WellFormed(data, p, end)
    decreases |data| - p
  {
    if !RunAt(data, p, end) then []
    else
      var start := (lcn + DeltaAt(data, p, signedChar)) % WORD;
      [Run(SizeAt(data, p), start)] + Runs(data, Next(data, p), end, start, signedChar)
  }

  lemma {:induction false} RunsStep(data: seq<Byte>, p: nat, end: nat, lcn: int, signedChar: bool)
    requires WellFormed(data, p, end) && RunAt(data, p, end)
    ensures Whole(data, p) && WellFormed(data, Next(data, p), end)
    ensures var start := (lcn + DeltaAt(data, p, signedChar)) % WORD;
      Runs(data, p, end, lcn, signedChar) ==
        [Run(SizeAt(data, p), start)] + Runs(data, Next(data, p), end, start, signedChar)
  {
  }

  lemma {:induction false} RunsStop(data: seq<Byte>, p: nat, end: nat, lcn: int, signedChar: bool)
    requires WellFormed(data, p, end)
    ensures p < end ==> p < |data|
    ensures !RunAt(data, p, end) ==> Runs(data, p, end, lcn, signedChar) == []
  {
  }

  /** Lengths of runs are 32-bit numbers. */
  ghost predicate Sized(rs: seq<Run>) {
    rs != [] ==> 0 <= rs[0].len < WORD && Sized(rs[1..])
  }

  lemma {:induction false} RunsAreSized(data: seq<Byte>, p: nat, end: nat, lcn: int, signedChar: bool)
    requires WellFormed(data, p, end)
    ensures Sized(Runs(data, p, end, lcn, signedChar))
    decreases |data| - p
  {
    RunsStop(data, p, end, lcn, signedChar);
    if RunAt(data, p, end) {
      var start := (lcn + DeltaAt(data, p, signedChar)) % WORD;
      RunsStep(data, p, end, lcn, signedChar);
      RunsAreSized(data, Next(data, p), end, start, signedChar);
      SizeFits(data[p + 1..][..SizeBytes(data[p])]);
      assert Runs(data, p, end, lcn, signedChar)[1..] == Runs(data, Next(data, p), end, start, signedChar);
    }
  }

  lemma {:induction false} SizeFits(b: seq<Byte>)
    requires |b| <= 4
    ensures Unsigned(b) < WORD
  {
    UnsignedBound(b);
    Powers();
  }

  /** The clusters of a run from the i-th on. */
  ghost function Clusters(r: Run, i: nat): seq<int>
    decreases r.len - i
  {
    if i >= r.len then [] else [(r.lcn + i) % WORD] + Clusters(r, i + 1)
  }

  /** All clusters, in file order. */
  ghost function Flat(rs: seq<Run>): seq<int> {
    if rs == [] then [] else Clusters(rs[0], 0) + Flat(rs[1..])
  }

  ghost predicate NoneEmpty(rs: seq<Run>) {
    rs != [] ==> rs[0].len > 0 && NoneEmpty(rs[1..])
  }

  lemma {:induction false} ClustersAre(r: Run, i: nat)
    ensures |Clusters(r, i)| == if i >= r.len then 0 else r.len - i
    ensures forall k :: 0 <= k < |Clusters(r, i)| ==> Clusters(r, i)[k] == (r.lcn + i + k) % WORD
    decreases r.len - i
  {
    if i < r.len {
      ClustersAre(r, i + 1);
    }
  }

  lemma {:induction false} NextInRun(r: Run, i: nat, more: seq<int>)
    requires i < r.len
    ensures Clusters(r, i) + more != [] && (Clusters(r, i) + more)[0] == (r.lcn + i) % WORD
    ensures (Clusters(r, i) + more)[1..] == Clusters(r, i + 1) + more
  {
    assert Clusters(r, i)[1..] == Clusters(r, i + 1);
  }

  lemma {:induction false} FlatStarts(rs: seq<Run>, r: Run, rest: seq<Run>)
    requires rs == [r] + rest && r.len > 0
    ensures Flat(rs) != [] && Flat(rs)[0] == (r.lcn + 0) % WORD && Flat(rs)[1..] == Clusters(r, 1) + Flat(rest)
  {
    assert rs[1..] == rest;
    NextInRun(r, 0, Flat(rest));
  }

  /** The run at position v of the file. */
  lemma {:induction false} RunCovers(f: seq<int>, v: nat, rs: seq<Run>, r: Run, rest: seq<Run>)
    requires v <= |f| && f[v..] == Flat(rs) && rs == [r] + rest && r.len >= 0
    ensures v + r.len <= |f| && f[v + r.len..] == Flat(rest)
    ensures forall k :: v <= k < v + r.len ==> f[k] == (r.lcn + (k - v)) % WORD
  {
    assert rs[1..] == rest;
    ClustersAre(r, 0);
    var c := Clusters(r, 0);
    assert f[v..] == c + Flat(rest);
    assert f[v + r.len..] == f[v..][r.len..] == Flat(rest);
    forall k | v <= k < v + r.len ensures f[k] == (r.lcn + (k - v)) % WORD {
      assert f[k] == f[v..][k - v] == c[k - v];
    }
  }

  lemma {:induction false} NotNothing(rs: seq<Run>)
    requires NoneEmpty(rs) && rs != []
    ensures Flat(rs) != []
  {
    FlatStarts(rs, rs[0], rs[1..]);
  }

  ghost function Drop(f: seq<int>, n: nat): seq<int> {
    if n <= |f| then f[n..] else []
  }

  lemma {:induction false} DropOne(f: seq<int>, n: nat)
    ensures Drop(f, n) == [] <==> n >= |f|
    ensures n < |f| ==> Drop(f, n)[0] == f[n] && Drop(f, n)[1..] == Drop(f, n + 1)
    ensures n >= |f| ==> Drop(f, n + 1) == []
  {
  }

  // ----- looking a cluster up -----

  /** The cluster at a place of the file, 0 past its end. */
  function Nth(f: seq<int>, vcn: int): int {
    if 0 <= vcn < |f| then f[vcn] else 0
  }

  /** What a lookup gives: the places at which runs end are 32-bit numbers. */
  ghost function Seek(rs: seq<Run>, at: int, vcn: int): int {
    if rs == [] then 0
    else
      var end := (at + rs[0].len) % WORD;
      if vcn < end then (rs[0].lcn + (vcn - at)) % WORD else Seek(rs[1..], end, vcn)
  }

  /** The place at which the run that holds the cluster ends, or the end of the file. */
  ghost function EndOfRun(rs: seq<Run>, at: int, vcn: int): int {
    if rs == [] then at
    else if vcn < at + rs[0].len then at + rs[0].len
    else EndOfRun(rs[1..], at + rs[0].len, vcn)
  }

  lemma {:induction false} NoneLeft(f: seq<int>, at: nat)
    requires at <= |f| && f[at..] == Flat([])
    ensures |f| == at
  {
  }

  /**
   The place of the file whose cluster a lookup gives, `from` being that of the first
   run; the end of the file if the lookup finds no run.
  */
  ghost function Place(rs: seq<Run>, from: int, at: int, vcn: int): int {
    if rs == [] then from
    else
      var end := (at + rs[0].len) % WORD;
      if vcn < end then from + (vcn - at) else Place(rs[1..], from + rs[0].len, end, vcn)
  }

  /** Whatever a lookup gives is the cluster at its place. */
  lemma {:induction false} SeekAtPlace(rs: seq<Run>, from: nat, at: nat, vcn: nat, f: seq<int>)
    requires Sized(rs) && at <= vcn && from <= |f| && f[from..] == Flat(rs)
    ensures from <= Place(rs, from, at, vcn) <= |f| && Seek(rs, at, vcn) == Nth(f, Place(rs, from, at, vcn))
    decreases |rs|
  {
    hide Flat;
    hide Clusters;
    if rs == [] {
      NoneLeft(f, from);
    } else {
      assert rs == [rs[0]] + rs[1..];
      RunCovers(f, from, rs, rs[0], rs[1..]);
      var end := (at + rs[0].len) % WORD;
      if vcn >= end {
        SeekAtPlace(rs[1..], from + rs[0].len, end, vcn, f);
      }
    }
  }

  /** As long as the ends of runs fit in 32 bits that is the place asked for, and a later one else. */
  lemma {:induction false} PlaceAsked(rs: seq<Run>, at: nat, vcn: nat, f: seq<int>)
    requires Sized(rs) && at <= vcn < WORD && at <= |f| && f[at..] == Flat(rs)
    ensures EndOfRun(rs, at, vcn) < WORD ==> Place(rs, at, at, vcn) == if vcn < |f| then vcn else |f|
    ensures EndOfRun(rs, at, vcn) >= WORD ==> vcn < Place(rs, at, at, vcn) && vcn < |f|
    decreases |rs|
  {
    hide Flat;
    hide Clusters;
    hide Seek;
    hide Nth;
    if rs == [] {
      NoneLeft(f, at);
    } else {
      assert rs == [rs[0]] + rs[1..];
      RunCovers(f, at, rs, rs[0], rs[1..]);
      var next := at + rs[0].len;
      EndInWord(at, rs[0].len);
      if vcn >= next {
        PlaceAsked(rs[1..], next, vcn, f);
      } else if next >= WORD {
        SeekAtPlace(rs[1..], next, next - WORD, vcn, f);
      }
    }
  }

  lemma {:induction false} EndInWord(at: nat, len: nat)
    requires at < WORD && len < WORD
    ensures (at + len) % WORD == if at + len < WORD then at + len else at + len - WORD
  {
  }

  /** In every file, a lookup ends at the place it was asked for exactly if the run there ends below 2^32. */
  lemma {:induction false} PlaceExactly(rs: seq<Run>, vcn: nat)
    requires Sized(rs) && vcn < WORD
    ensures var f := Flat(rs);
      && Seek(rs, 0, vcn) == Nth(f, Place(rs, 0, 0, vcn))
      && (Place(rs, 0, 0, vcn) == (if vcn < |f| then vcn else |f|) <==> EndOfRun(rs, 0, vcn) < WORD)
  {
    hide Flat;
    var f := Flat(rs);
    assert f[0..] == f;
    SeekAtPlace(rs, 0, 0, vcn, f);
    PlaceAsked(rs, 0, vcn, f);
  }

  /** The cluster at a place of the file is not cluster 0, and does not come again further on. */
  ghost predicate LastOfItsKind(f: seq<int>, vcn: nat) {
    vcn < |f| ==> f[vcn] != 0 && forall j :: vcn < j < |f| ==> f[j] != f[vcn]
  }

  /**
   Where no other place can give the same cluster by chance, the answer is right
   exactly if the run ends below 2^32.
  */
  lemma {:induction false} SeekExactly(rs: seq<Run>, vcn: nat)
    requires Sized(rs) && vcn < WORD && LastOfItsKind(Flat(rs), vcn)
    ensures Seek(rs, 0, vcn) == Nth(Flat(rs), vcn) <==> EndOfRun(rs, 0, vcn) < WORD
  {
    hide Flat;
    var f := Flat(rs);
    assert f[0..] == f;
    PlaceExactly(rs, vcn);
    PlaceAsked(rs, 0, vcn, f);
  }

  ghost predicate Different(f: seq<int>) {
    && (forall i :: 0 <= i < |f| ==> f[i] != 0)
    && (forall i, j :: 0 <= i < j < |f| ==> f[i] != f[j])
  }

  /** There are no more different numbers from 1 to n than n. */
  lemma {:induction false} Pigeons(f: seq<int>, n: nat)
    requires (forall i :: 0 <= i < |f| ==> 1 <= f[i] <= n) && forall i, j :: 0 <= i < j < |f| ==> f[i] != f[j]
    ensures |f| <= n
    decreases n
  {
    if f != [] {
      assert 1 <= f[0] <= n;
      if i :| 0 <= i < |f| && f[i] == n {
        Pigeons(f[..i] + f[i + 1..], n - 1);
      } else {
        Pigeons(f, n - 1);
      }
    }
  }

  lemma {:induction false} ClustersAreWords(rs: seq<Run>)
    ensures forall i :: 0 <= i < |Flat(rs)| ==> 0 <= Flat(rs)[i] < WORD
  {
    if rs != [] {
      ClustersAre(rs[0], 0);
      ClustersAreWords(rs[1..]);
    }
  }

  /** In a file without cluster 0 and without a cluster twice, every lookup is right. */
  lemma {:induction false} DifferentAreFound(rs: seq<Run>, vcn: nat)
    requires Sized(rs) && vcn < WORD && Different(Flat(rs))
    ensures Seek(rs, 0, vcn) == Nth(Flat(rs), vcn)
  {
    var f := Flat(rs);
    ClustersAreWords(rs);
    Pigeons(f, WORD - 1);
    hide Flat;
    PlaceExactly(rs, vcn);
    EndsInFile(rs, 0, vcn, f);
  }

  lemma {:induction false} EndsInFile(rs: seq<Run>, at: nat, vcn: nat, f: seq<int>)
    requires Sized(rs) && at <= |f| && f[at..] == Flat(rs)
    ensures EndOfRun(rs, at, vcn) <= |f|
    decreases |rs|
  {
    hide Flat;
    hide Clusters;
    if rs != [] {
      assert rs == [rs[0]] + rs[1..];
      RunCovers(f, at, rs, rs[0], rs[1..]);
      if vcn >= at + rs[0].len {
        EndsInFile(rs[1..], at + rs[0].len, vcn, f);
      }
    }
  }

  /**
   Two runs of 2^31 clusters each: nothing of the second one is found, as it ends at
   2^32; and each of its clusters but cluster 0 does not come again further on.
  */
  lemma {:induction false} SecondHalfNotFound(r: Run, q: Run, vcn: nat)
    requires r.len == q.len == 0x8000_0000 <= vcn < WORD
    ensures var rs, f := [r, q], Flat([r, q]);
      && Sized(rs) && |f| == WORD && EndOfRun(rs, 0, vcn) == WORD && Seek(rs, 0, vcn) == 0
      && f[vcn] == (q.lcn + (vcn - 0x8000_0000)) % WORD && (LastOfItsKind(f, vcn) <==> f[vcn] != 0)
  {
    hide Clusters;
    var f := Flat([r, q]);
    assert [r, q][1..] == [q] && [q][1..] == [];
    assert Sized([r, q]) by {
      assert Sized([q]);
    }
    assert EndOfRun([r, q], 0, vcn) == EndOfRun([q], 0x8000_0000, vcn);
    assert f[0..] == f && [r, q] == [r] + [q] && [q] == [q] + [] && [r, q][1..] == [q] && [q][1..] == [];
    RunCovers(f, 0, [r, q], r, [q]);
    RunCovers(f, 0x8000_0000, [q], q, []);
    assert f[WORD..] == Flat([]);
    assert Seek([q], 0x8000_0000, vcn) == Seek([], 0, vcn);
    assert Seek([r, q], 0, vcn) == Seek([q], 0x8000_0000, vcn);
    forall j | vcn < j < |f| ensures f[j] != f[vcn] {
      Apart(q.lcn + (vcn - 0x8000_0000), j - vcn);
    }
  }

  // ----- handing clusters out -----

  /** out is f as far as it goes, and 0 from there on. */
  ghost predicate Begins(out: seq<int>, f: seq<int>) {
    forall i :: 0 <= i < |out| ==> out[i] == if i < |f| then f[i] else 0
  }

  lemma {:induction false} StartTaking(f: seq<int>)
    ensures Begins([], f) && Drop(f, 0) == f
  {
  }

  lemma {:induction false} BeginsAre(out: seq<int>, f: seq<int>)
    requires Begins(out, f)
    ensures forall i :: 0 <= i < |out| ==> out[i] == Nth(f, i)
  {
  }

  lemma {:induction false} BeginsOn(out: seq<int>, f: seq<int>, r: int)
    requires Begins(out, f) && r == if |out| < |f| then f[|out|] else 0
    ensures Begins(out + [r], f)
  {
  }

  // ----- the runlist as the code keeps it -----

  class RunList {
    const data: seq<Byte>
    const start: nat
    const end: nat
    /** Whether the compiler's plain char is signed. */
    const signedChar: bool
    var next: nat
    var lcnStart: int
    var lcn: nat
    var lcnSize: nat

    constructor (data: seq<Byte>, start: nat, end: nat, signedChar: bool)
      requires 0 < start && WellFormed(data, start, end)
      ensures this.data == data && this.start == start && this.end == end && this.signedChar == signedChar && next == 0
    {
      this.data, this.start, this.end, this.signedChar := data, start, end, signedChar;
      next, lcnStart, lcn, lcnSize := 0, 0, 0, 0;
    }

    /** The list is well formed from the place where decoding goes on. */
    ghost predicate Valid()
      reads this
    {
      && 0 < start && WellFormed(data, start, end)
      && (next != 0 ==> WellFormed(data, next, end))
    }

    /** The runs that decoding has not reached yet. */
    ghost function Left(): seq<Run>
      requires Valid()
      reads this
    {
      if next == 0 then All() else Runs(data, next, end, lcnStart, signedChar)
    }

    /** All runs, as they are read. */
    ghost function All(): seq<Run>
      requires WellFormed(data, start, end)
    {
      Runs(data, start, end, 0, signedChar)
    }

    method Reset()
      modifies `next
      ensures next == 0
    {
      next := 0;
    }

    /** The number stored in n bytes from p on. */
    method ReadUnsigned(p: nat, n: nat) returns (u: nat)
      requires p + n <= |data|
      ensures u == Unsigned(data[p..][..n])
    {
      ghost var b := data[p..][..n];
      u := 0;
      var i := 0;
      while i < n
        invariant 0 <= i <= n && u == Unsigned(b[..i])
      {
        assert b[..i + 1] == b[..i] + [b[i]];
        UnsignedAppend(b[..i], b[i]);
        u := u + data[p + i] * Pow256(i);
        i := i + 1;
      }
      assert b[..i] == b;
    }

    /**
     The distance stored in n bytes from p on: each byte is read as a plain char and
     cut off when the next one comes.
    */
    method ReadDistance(p: nat, n: nat) returns (v: int)
      requires p + n <= |data|
      ensures v == Distance(data[p..][..n], signedChar)
    {
      ghost var b := data[p..][..n];
      v := 0;
      var i := 0;
      while i < n
        invariant 0 <= i <= n && v == Distance(b[..i], signedChar)
      {
        assert b[..i + 1] == b[..i] + [b[i]];
        DistanceAppend(b[..i], b[i], signedChar);
        DistanceLow(b[..i], signedChar);
        v := v % Pow256(i) + CharOf(data[p + i], signedChar) * Pow256(i);
        i := i + 1;
      }
      assert b[..i] == b;
    }

    /** Decode the next run, if there is one. */
    method DecodeNext() returns (ok: bool)
      requires Valid()
      modifies this
      ensures Valid() && next != 0
      ensures ok <==> old(Left()) != []
      ensures ok ==> old(Left()) == [Run(lcnSize, lcnStart)] + Left() && lcn == 0
      ensures !ok ==> Left() == [] && lcn == old(lcn) && lcnSize == old(lcnSize)
    {
      hide Runs;
      hide WellFormed;
      if next == 0 {
        next := start;
        lcnStart := 0;
      }
      var p := next;
      RunsStop(data, p, end, lcnStart, signedChar);
      if p >= end || data[p] == 0 {
        return false;
      }
      var sl, cl := data[p] % 16, data[p] / 16;
      RunsStep(data, p, end, lcnStart, signedChar);
      next := next + sl + cl + 1;
      lcnSize := ReadUnsigned(p + 1, sl);
      var newStart := ReadDistance(p + 1 + sl, cl);
      lcnStart := (lcnStart + newStart) % WORD;
      lcn := 0;
      ok := true;
    }

    // ----- its clients -----

    /** The clusters not yet handed out, if the current run has been handed out up to `lcn`. */
    ghost function Ahead(): seq<int>
      requires Valid()
      reads this
    {
      (if next == 0 then [] else Clusters(Run(lcnSize, lcnStart), lcn + 1)) + Flat(Left())
    }

    /** A run is under way, or decoding has not begun. */
    ghost predicate Going()
      reads this
    {
      Valid() && (next != 0 ==> 0 <= lcn < lcnSize) && NoneEmpty(Left())
    }

    /** The first cluster of the next run, or 0 after the last run. */
    method FirstOfNext() returns (r: int)
      requires Going() && (next != 0 ==> lcn == lcnSize - 1)
      modifies this
      ensures Valid() && next != 0 && (old(Ahead()) == [] ==> r == 0 && (old(next) != 0 ==> Going() && Ahead() == []))
      ensures old(Ahead()) != [] ==> Going() && r == old(Ahead())[0] && Ahead() == old(Ahead())[1..]
    {
      hide Runs;
      hide WellFormed;
      ghost var left := Left();
      assert next != 0 ==> Clusters(Run(lcnSize, lcnStart), lcn + 1) == [];
      assert Ahead() == Flat(left);
      var ok := DecodeNext();
      if !ok {
        return 0;
      }
      r := (lcnStart + lcn) % WORD;
      FlatStarts(left, Run(lcnSize, lcnStart), Left());
    }

    /** The next cluster in file order, or 0 after the last; a list without runs is answered once. */
    method NextLcn() returns (r: int)
      requires Going()
      modifies this
      ensures Valid() && next != 0 && (old(Ahead()) == [] ==> r == 0 && (old(next) != 0 ==> Going() && Ahead() == []))
      ensures old(Ahead()) != [] ==> Going() && r == old(Ahead())[0] && Ahead() == old(Ahead())[1..]
    {
      hide Flat;
      if next == 0 || lcn == lcnSize - 1 {
        r := FirstOfNext();
      } else {
        NextInRun(Run(lcnSize, lcnStart), lcn + 1, Flat(Left()));
        lcn := lcn + 1;
        r := (lcnStart + lcn) % WORD;
      }
    }

    /** The first n clusters in file order, and 0 for those past the end, as repeated calls give them. */
    method TakeLcns(n: nat) returns (out: seq<int>)
      requires Valid() && NoneEmpty(All()) && All() != []
      modifies this
      ensures |out| == n
      ensures forall i :: 0 <= i < n ==> out[i] == Nth(Flat(All()), i)
    {
      hide Runs;
      hide WellFormed;
      hide Flat;
      hide Drop;
      hide Ahead;
      hide Begins;
      Reset();
      ghost var f := Flat(Left());
      NotNothing(Left());
      StartTaking(f);
      AheadAtStart();
      out := [];
      while |out| < n
        invariant Going() && |out| <= n && (|out| > 0 ==> next != 0)
        invariant Ahead() == Drop(f, |out|)
        invariant Begins(out, f)
        invariant next == 0 ==> Ahead() != []
      {
        DropOne(f, |out|);
        var r := NextLcn();
        BeginsOn(out, f, r);
        out := out + [r];
      }
      BeginsAre(out, f);
    }

    lemma {:induction false} AheadAtStart()
      requires Valid() && next == 0
      ensures Ahead() == Flat(Left())
    {
      assert [] + Flat(Left()) == Flat(Left());
    }

    /** Cluster number vcn of the file is looked up from the start. */
    method SeekVcn(vcn: nat) returns (r: int)
      requires Valid() && vcn < WORD
      modifies this
      ensures Valid() && r == Seek(All(), 0, vcn)
      ensures EndOfRun(All(), 0, vcn) < WORD ==> r == Nth(Flat(All()), vcn)
    {
      hide Runs;
      hide WellFormed;
      Reset();
      ghost var left := Left();
      r := 0;
      var vcnStart, done := 0, false;
      while !done
        invariant Valid() && (!done ==> Left() == left && Seek(left, vcnStart, vcn) == Seek(All(), 0, vcn))
        invariant done ==> r == Seek(All(), 0, vcn)
        decreases !done, |left|
      {
        done, r, vcnStart, left := SeekRound(vcn, vcnStart, left);
      }
      RunsAreSized(data, start, end, 0, signedChar);
      assert Flat(All())[0..] == Flat(All());
      if EndOfRun(All(), 0, vcn) < WORD {
        PlaceExactly(All(), vcn);
      }
    }

    /** The next run is taken for the one that holds the cluster, or for one that ends before it, or there is none. */
    method SeekRound(vcn: nat, vcnStart: int, ghost left: seq<Run>)
      returns (done: bool, r: int, vcnStart': int, ghost rest: seq<Run>)
      requires Valid() && Left() == left
      modifies this
      ensures Valid()
      ensures if done then r == Seek(left, vcnStart, vcn)
        else Left() == rest && |rest| < |left| && Seek(rest, vcnStart', vcn) == Seek(left, vcnStart, vcn)
    {
      hide Runs;
      hide WellFormed;
      done, r, vcnStart', rest := true, 0, vcnStart, left;
      var ok := DecodeNext();
      if ok {
        rest := Left();
        assert left[1..] == rest;
        vcnStart' := (vcnStart + lcnSize) % WORD;
        if vcn < vcnStart' {
          r := (lcnStart + (vcn - vcnStart)) % WORD;
        } else {
          done := false;
        }
      }
    }
  }

  // ----- storing a runlist -----

  /** n as `size` bytes. */
  function Bytes(n: nat, size: nat): (b: seq<Byte>)
    ensures |b| == size
    decreases size
  {
    if size == 0 then [] else [n % 256] + Bytes(n / 256, size - 1)
  }

  lemma {:induction false} BytesHold(n: nat, size: nat)
    requires n < Pow256(size)
    ensures Unsigned(Bytes(n, size)) == n
    decreases size
  {
    if size > 0 {
      BytesHold(n / 256, size - 1);
    }
  }

  /** A signed number fits in `size` bytes. */
  predicate Fits(v: int, size: nat) {
    if size == 0 then v == 0 else 0 <= 2 * v + Pow256(size) && 2 * v < Pow256(size)
  }

  /** A signed number as bytes, negative ones as their distance from the top. */
  function SignedBytes(v: int, size: nat): (b: seq<Byte>)
    requires Fits(v, size)
    ensures |b| == size
  {
    Bytes(if v < 0 then v + Pow256(size) else v, size)
  }

  lemma {:induction false} TopByte(n: nat, size: nat)
    requires 0 < size && n < Pow256(size)
    ensures Bytes(n, size)[size - 1] >= 128 <==> 2 * n >= Pow256(size)
    decreases size
  {
    if size > 1 {
      var q, h := n / 256, 128 * Pow256(size - 2);
      assert Pow256(size - 1) == 2 * h && Pow256(size) == 512 * h;
      assert n >= 256 * h <==> q >= h;
      TopByte(q, size - 1);
    }
  }

  lemma {:induction false} SignedBytesHold(v: int, size: nat)
    requires Fits(v, size)
    ensures Signed(SignedBytes(v, size)) == v
  {
    if size > 0 {
      var n := if v < 0 then v + Pow256(size) else v;
      BytesHold(n, size);
      TopByte(n, size);
    }
  }

  /** A run to be stored, with the numbers of bytes for its length and its distance. */
  datatype Entry = Entry(run: Run, sizeBytes: nat, startBytes: nat)

  ghost predicate Storable(e: Entry, prev: int) {
    && e.sizeBytes <= 4 && e.startBytes <= 4 && e.sizeBytes + e.startBytes > 0
    && 0 <= e.run.len < Pow256(e.sizeBytes) && Fits(e.run.lcn - prev, e.startBytes) && 0 <= e.run.lcn < WORD
  }

  ghost predicate AllStorable(es: seq<Entry>, prev: int) {
    es != [] ==> Storable(es[0], prev) && AllStorable(es[1..], es[0].run.lcn)
  }

  ghost function Store(e: Entry, prev: int): (b: seq<Byte>)
    requires Storable(e, prev)
    ensures |b| == 1 + e.sizeBytes + e.startBytes && b[0] != 0
  {
    [e.sizeBytes + 16 * e.startBytes] + Bytes(e.run.len, e.sizeBytes) + SignedBytes(e.run.lcn - prev, e.startBytes)
  }

  ghost function StoreAll(es: seq<Entry>, prev: int): seq<Byte>
    requires AllStorable(es, prev)
  {
    if es == [] then [] else Store(es[0], prev) + StoreAll(es[1..], es[0].run.lcn)
  }

  ghost function RunsOf(es: seq<Entry>): seq<Run> {
    if es == [] then [] else [es[0].run] + RunsOf(es[1..])
  }

  lemma {:induction false} PartsAt(data: seq<Byte>, p: nat, h: Byte, x: seq<Byte>, y: seq<Byte>, rest: seq<Byte>)
    requires p <= |data| && data[p..] == ([h] + x + y) + rest
    ensures p < |data| && data[p] == h && p + 1 + |x| + |y| <= |data|
    ensures data[p + 1..][..|x|] == x && data[p + 1 + |x|..][..|y|] == y && data[p + 1 + |x| + |y|..] == rest
  {
    var d := data[p..];
    assert data[p] == d[0];
    assert data[p + 1..] == d[1..] && data[p + 1 + |x|..] == d[1 + |x|..];
    assert data[p + 1 + |x| + |y|..] == d[1 + |x| + |y|..];
  }

  /** What stands at p is the entry, then the rest. */
  lemma {:induction false} StoredAt(data: seq<Byte>, p: nat, e: Entry, prev: int, rest: seq<Byte>)
    requires Storable(e, prev) && p <= |data| && data[p..] == Store(e, prev) + rest
    ensures p < |data| && data[p] != 0 && Whole(data, p)
    ensures Next(data, p) == p + |Store(e, prev)| <= |data| && data[Next(data, p)..] == rest
    ensures SizeAt(data, p) == e.run.len
    ensures data[p + 1 + SizeBytes(data[p])..][..StartBytes(data[p])] == SignedBytes(e.run.lcn - prev, e.startBytes)
  {
    hide Unsigned;
    hide Signed;
    hide Pow256;
    hide Bytes;
    var x, y := Bytes(e.run.len, e.sizeBytes), SignedBytes(e.run.lcn - prev, e.startBytes);
    PartsAt(data, p, e.sizeBytes + 16 * e.startBytes, x, y, rest);
    HeaderParts(e.sizeBytes, e.startBytes);
    BytesHold(e.run.len, e.sizeBytes);
  }

  /**
   The run is read as it was stored: chars are signed, or there is no sign to be
   lost, or all four bytes are there.
  */
  predicate Readable(e: Entry, prev: int, signedChar: bool) {
    signedChar || e.run.lcn >= prev || e.startBytes == 4
  }

  ghost predicate AllReadable(es: seq<Entry>, prev: int, signedChar: bool) {
    es != [] ==> Readable(es[0], prev, signedChar) && AllReadable(es[1..], es[0].run.lcn, signedChar)
  }

  lemma {:induction false} StartsWhereStored(e: Entry, prev: int, signedChar: bool)
    requires Storable(e, prev)
    ensures (prev + Distance(SignedBytes(e.run.lcn - prev, e.startBytes), signedChar)) % WORD == e.run.lcn <==>
      Readable(e, prev, signedChar)
  {
    hide Bytes;
    var v, n := e.run.lcn - prev, e.startBytes;
    SignedBytesHold(v, n);
    BytesHold(if v < 0 then v + Pow256(n) else v, n);
    Powers();
    if v < 0 && n < 4 {
      Apart(prev + v, Pow256(n));
    }
  }

  /** The entry at p is read as its run exactly if it is readable, and what follows is read on its own. */
  lemma {:induction false} OneDecodes(data: seq<Byte>, p: nat, end: nat, e: Entry, prev: int, rest: seq<Byte>,
                                      rs: seq<Run>, signedChar: bool)
    requires Storable(e, prev) && p <= |data| && p < end && data[p..] == Store(e, prev) + rest
    requires WellFormed(data, p + |Store(e, prev)|, end)
    ensures WellFormed(data, p, end)
    ensures Runs(data, p, end, prev, signedChar) == [e.run] + rs <==>
      Readable(e, prev, signedChar) && Runs(data, p + |Store(e, prev)|, end, e.run.lcn, signedChar) == rs
  {
    hide Store;
    hide SizeAt;
    hide Distance;
    hide SignedBytes;
    hide Runs;
    hide Whole;
    StoredAt(data, p, e, prev, rest);
    RunsStep(data, p, end, prev, signedChar);
    StartsWhereStored(e, prev, signedChar);
    var start := (prev + DeltaAt(data, p, signedChar)) % WORD;
    var more := Runs(data, Next(data, p), end, start, signedChar);
    assert ([Run(e.run.len, start)] + more)[0] == Run(e.run.len, start) && ([e.run] + rs)[0] == e.run;
    assert ([Run(e.run.len, start)] + more)[1..] == more && ([e.run] + rs)[1..] == rs;
  }

  lemma {:induction false} NoneDecodes(data: seq<Byte>, p: nat, end: nat, prev: int, signedChar: bool)
    requires p <= |data| && (p == end || (p < |data| && data[p] == 0))
    ensures WellFormed(data, p, end) && Runs(data, p, end, prev, signedChar) == []
  {
  }

  lemma {:induction false} HeaderParts(sl: nat, cl: nat)
    requires sl <= 4 && cl <= 4
    ensures (sl + 16 * cl) % 16 == sl && (sl + 16 * cl) / 16 == cl
  {
  }

  /**
   Decoding gives back the runs that were stored, for every choice of sufficient
   sizes, exactly if each of them is readable: where plain char is unsigned, a
   negative distance needs all four bytes.
  */
  lemma {:induction false} StoreThenDecode(data: seq<Byte>, p: nat, end: nat, es: seq<Entry>, prev: int,
                                           rest: seq<Byte>, signedChar: bool)
    requires AllStorable(es, prev) && p <= |data| && data[p..] == StoreAll(es, prev) + rest
    requires p + |StoreAll(es, prev)| == end || (p + |StoreAll(es, prev)| < end && rest != [] && rest[0] == 0)
    ensures WellFormed(data, p, end)
    ensures Runs(data, p, end, prev, signedChar) == RunsOf(es) <==> AllReadable(es, prev, signedChar)
    decreases |es|
  {
    hide Store;
    hide Readable;
    hide Runs;
    hide WellFormed;
    hide Storable;
    if es == [] {
      assert data[p..] == rest;
      assert rest == [] || data[p..][0] == rest[0];
      NoneDecodes(data, p, end, prev, signedChar);
    } else {
      var e, tail := es[0], StoreAll(es[1..], es[0].run.lcn);
      Appended(data, p, Store(e, prev), tail, rest);
      StoreThenDecode(data, p + |Store(e, prev)|, end, es[1..], e.run.lcn, rest, signedChar);
      OneDecodes(data, p, end, e, prev, tail + rest, RunsOf(es[1..]), signedChar);
    }
  }

  lemma {:induction false} Appended(data: seq<Byte>, p: nat, a: seq<Byte>, b: seq<Byte>, c: seq<Byte>)
    requires p <= |data| && data[p..] == (a + b) + c
    ensures data[p..] == a + (b + c) && p + |a| <= |data| && data[p + |a|..] == b + c
  {
    assert (a + b) + c == a + (b + c);
    assert data[p + |a|..] == data[p..][|a|..];
  }

  /**
   Four clusters from 100 on and four from 84 on, stored in one byte each: with
   unsigned chars the second run is read as beginning at 340.
  */
  lemma {:induction false} NegativeDistanceMisread(data: seq<Byte>, signedChar: bool)
    requires data == [0x11, 4, 100, 0x11, 4, 0xf0]
    ensures WellFormed(data, 0, 6)
    ensures Runs(data, 0, 6, 0, signedChar) == [Run(4, 100), Run(4, if signedChar then 84 else 340)]
  {
    hide Unsigned;
    hide Signed;
    hide Runs;
    OneByte(4);
    OneByte(100);
    OneByte(0xf0);
    assert data[1..][..1] == [4] && data[2..][..1] == [100] && data[4..][..1] == [4] && data[5..][..1] == [0xf0];
    assert WellFormed(data, 6, 6) && WellFormed(data, 3, 6);
    RunsStop(data, 6, 6, if signedChar then 84 else 340, signedChar);
    RunsStep(data, 0, 6, 0, signedChar);
    RunsStep(data, 3, 6, 100, signedChar);
  }

  lemma {:induction false} OneByte(x: Byte)
    ensures Unsigned([x]) == x && Signed([x]) == if x < 128 then x else x - 256
  {
    assert [x][1..] == [];
    Powers();
  }

  lemma {:induction false} TwoBytes(x: Byte, y: Byte)
    ensures var low: int, high: int := x, y;
      && Unsigned([x, y]) == low + 0x100 * high
      && Signed([x, y]) == low + 0x100 * if high < 128 then high else high - 256
  {
    assert [x, y][1..] == [y];
    OneByte(y);
    Powers();
  }

  /**
   The low digit of the header is the number of bytes of the length and the high digit that of
   the distance, which come in this order, each with the lowest byte first: 0x18 clusters
   from 0x5634 on.
  */
  lemma {:induction false} LengthThenStart(data: seq<Byte>, signedChar: bool)
    requires data == [0x21, 0x18, 0x34, 0x56, 0]
    ensures WellFormed(data, 0, 5) && Runs(data, 0, 5, 0, signedChar) == [Run(0x18, 0x5634)]
  {
    hide Unsigned;
    hide Signed;
    hide Runs;
    OneByte(0x18);
    TwoBytes(0x34, 0x56);
    assert data[1..][..1] == [0x18] && data[2..][..2] == [0x34, 0x56];
    assert WellFormed(data, 4, 5);
    RunsStop(data, 4, 5, 0x5634, signedChar);
    RunsStep(data, 0, 5, 0, signedChar);
  }

  /** The clusters of a file are those of its first runs and then those of the others. */
  lemma {:induction false} FlatJoins(a: seq<Run>, b: seq<Run>)
    ensures Flat(a + b) == Flat(a) + Flat(b)
  {
    hide Clusters;
    if a == [] {
      assert a + b == b;
    } else {
      assert (a + b)[1..] == a[1..] + b;
      FlatJoins(a[1..], b);
    }
  }

  /** A run contributes as many clusters as it is long, one behind the other. */
  lemma {:induction false} FlatOfOne(r: Run, k: nat)
    requires k < r.len
    ensures |Flat([r])| == r.len && Flat([r])[k] == (r.lcn + k) % 0x1_0000_0000
  {
    assert [r][1..] == [] && Flat([r]) == Clusters(r, 0) + [];
    ClustersAre(r, 0);
  }
}
