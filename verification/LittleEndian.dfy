/** Numbers held in bytes, the least significant first. */
module LittleEndian {
  import opened Arith

  type Byte = b: int | 0 <= b < 256

  function Pow256(n: nat): (p: nat)
    ensures p > 0
  {
    if n == 0 then 1 else 256 * Pow256(n - 1)
  }

  /** The number that bytes hold, the least significant first. */
  function Unsigned(b: seq<Byte>): (u: nat) {
    if b == [] then 0 else b[0] + 256 * Unsigned(b[1..])
  }

  lemma {:induction false} UnsignedBound(b: seq<Byte>)
    ensures Unsigned(b) < Pow256(|b|)
  {
    if b != [] {
      UnsignedBound(b[1..]);
    }
  }

  lemma {:induction false} UnsignedAppend(b: seq<Byte>, x: Byte)
    ensures Unsigned(b + [x]) == Unsigned(b) + x * Pow256(|b|)
  {
    if b == [] {
      assert b + [x] == [x] && [x][1..] == [];
    } else {
      assert (b + [x])[1..] == b[1..] + [x];
      UnsignedAppend(b[1..], x);
      MulThrice(256, Pow256(|b| - 1), x);
    }
  }

  lemma {:induction false} UnsignedSplit(b: seq<Byte>, n: nat)
    requires n <= |b|
    ensures Unsigned(b) == Unsigned(b[..n]) + Pow256(n) * Unsigned(b[n..])
  {
    if n > 0 {
      UnsignedSplit(b[1..], n - 1);
      assert b[1..][..n - 1] == b[..n][1..] && b[1..][n - 1..] == b[n..];
      MulThrice(256, Pow256(n - 1), Unsigned(b[n..]));
    }
  }

  /** Shifting n bytes away leaves the bytes above, masking n bytes leaves those below. */
  lemma {:induction false} UnsignedParts(b: seq<Byte>, n: nat)
    requires n <= |b|
    ensures Unsigned(b) / Pow256(n) == Unsigned(b[n..]) && Unsigned(b) % Pow256(n) == Unsigned(b[..n])
  {
    UnsignedSplit(b, n);
    UnsignedBound(b[..n]);
    DivUnique(Unsigned(b), Pow256(n), Unsigned(b[n..]), Unsigned(b[..n]));
  }
}
