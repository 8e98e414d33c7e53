/**
 Numbers as text: the printer writes digits backwards and turns them round in
 place, the parser reads them with a base that a prefix may change.
*/
module Numerals {
  import opened Arith
  import opened Sequences

  // ----- digits -----

  function DigitChar(d: int, upper: bool): (c: char)
    requires 0 <= d < 36
    ensures DigitOf(c) == d && c != '\0'
  {
    if d < 10 then '0' + d as char else if upper then 'A' + (d - 10) as char else 'a' + (d - 10) as char
  }

  /** The digit a character stands for, -1 if it is none. */
  function DigitOf(c: char): (d: int)
    ensures -1 <= d < 36
  {
    if '0' <= c <= '9' then c as int - '0' as int
    else if 'a' <= c <= 'z' then c as int - 'a' as int + 10
    else if 'A' <= c <= 'Z' then c as int - 'A' as int + 10
    else -1
  }

  const LOWER := "0123456789abcdefghijklmnopqrstuvwxyz"
  const UPPER := "0123456789ABCDEFGHIJKLMNOPQRSTUVWXYZ"

  /** The digits are those of the alphabets, in either case. */
  lemma {:induction false} DigitsAre(c: char, d: nat)
    requires d < 36
    ensures |LOWER| == |UPPER| == 36 && DigitChar(d, false) == LOWER[d] && DigitChar(d, true) == UPPER[d]
    ensures DigitOf(c) == d <==> c == LOWER[d] || c == UPPER[d]
  {
    AlphabetAt(d);
  }

  lemma {:induction false} AlphabetAt(d: nat)
    requires d < 36
    ensures |LOWER| == |UPPER| == 36
    ensures LOWER[d] as int == (if d < 10 then '0' as int + d else 'a' as int + d - 10)
    ensures UPPER[d] as int == (if d < 10 then '0' as int + d else 'A' as int + d - 10)
  {
  }

  /** The number that digits stand for, the most significant first. */
  function Value(base: int, s: seq<char>): int {
    if s == [] then 0 else Value(base, s[..|s| - 1]) * base + DigitOf(s[|s| - 1])
  }

  /** The number without its last digit. */
  function Quotient(v: nat, base: int): (q: nat)
    requires base >= 2
    ensures 2 * q <= v && q * base + v % base == v && 0 <= v % base < base
  {
    var q := v / base;
    assert v == base * q + v % base;
    assert 0 <= q by {
      if q < 0 {
        MulOrder(q, -1, base);
      }
    }
    MulOrder(2, base, if q > 0 then q else 1);
    q
  }

  /** The digits of a number as they are divided off, the least significant first. */
  function Divided(v: nat, base: int, upper: bool): (s: seq<char>)
    requires 2 <= base <= 36
    ensures s != []
    decreases v
  {
    var q := Quotient(v, base);
    [DigitChar(v % base, upper)] + if q == 0 then [] else Divided(q, base, upper)
  }

  /** The text of a number. */
  function Numeral(v: nat, base: int, upper: bool): seq<char>
    requires 2 <= base <= 36
  {
    Reversed(Divided(v, base, upper))
  }

  ghost predicate AllDigits(base: int, s: seq<char>) {
    forall i :: 0 <= i < |s| ==> 0 <= DigitOf(s[i]) < base
  }

  /** s is the number v in digits of the base, without a zero in front unless v is zero. */
  ghost predicate Stands(s: seq<char>, base: int, v: nat) {
    s != [] && Value(base, s) == v && AllDigits(base, s) && (s[0] == '0' ==> s == "0")
  }

  lemma {:induction false} OneDigit(c: char, base: int)
    requires 0 <= DigitOf(c) < base
    ensures Stands([c], base, DigitOf(c))
  {
    assert [c][..0] == [];
    assert Value(base, [c]) == Value(base, []) * base + DigitOf(c);
  }

  lemma {:induction false} OneMore(s: seq<char>, c: char, base: int, q: nat)
    requires Stands(s, base, q) && 0 < q && 0 <= DigitOf(c) < base
    ensures q * base >= 0 && Stands(s + [c], base, q * base + DigitOf(c))
  {
    assert (s + [c])[..|s|] == s;
    assert s[0] != '0' by {
      OneDigit('0', base);
    }
    MulAtLeast(q, base);
  }

  /** A numeral stands for the number it was made from. */
  lemma {:induction false} NumeralOf(v: nat, base: int, upper: bool)
    requires 2 <= base <= 36
    ensures Stands(Numeral(v, base, upper), base, v)
    decreases v
  {
    hide Stands;
    hide Quotient;
    var d, q, c := Divided(v, base, upper), Quotient(v, base), DigitChar(v % base, upper);
    assert d[0] == c;
    if q == 0 {
      assert d[1..] == [] && Reversed(d) == [c];
      OneDigit(c, base);
    } else {
      NumeralOf(q, base, upper);
      assert d[1..] == Divided(q, base, upper);
      assert Reversed(d) == Numeral(q, base, upper) + [c];
      OneMore(Numeral(q, base, upper), c, base, q);
    }
  }

  /** A number below 2 to the n has at most n digits. */
  lemma {:induction false} FewDigits(v: nat, base: int, upper: bool, n: nat)
    requires 2 <= base <= 36 && 0 < n && v < Pow2(n)
    ensures |Divided(v, base, upper)| <= n
    decreases n
  {
    hide Quotient;
    var q := Quotient(v, base);
    if q > 0 {
      FewDigits(q, base, upper, n - 1);
    }
  }

  lemma {:induction false} Bits32()
    ensures Pow2(32) == WORD
  {
    assert Pow2(8) == 2 * (2 * (2 * (2 * (2 * (2 * (2 * (2 * Pow2(0))))))));
    assert Pow2(16) == 0x100 * Pow2(8);
    assert Pow2(24) == 0x100 * Pow2(16);
    assert Pow2(32) == 0x100 * Pow2(24);
  }

  // ----- printing -----

  /** The number printed: a negative one loses its sign only in decimal and if it is shown as signed. */
  function Magnitude(inData: int, base: int, sign: bool): (v: nat)
    requires -0x8000_0000 <= inData < 0x8000_0000
    ensures v < WORD
  {
    (if base == 10 && sign && inData < 0 then -inData else inData) % WORD
  }

  /** No letter of the other case. */
  predicate InCase(s: seq<char>, upper: bool) {
    forall i :: 0 <= i < |s| ==> if upper then !('a' <= s[i] <= 'z') else !('A' <= s[i] <= 'Z')
  }

  /** The digits of a numeral are all in the case that was asked for. */
  lemma {:induction false} CaseOf(v: nat, base: int, upper: bool)
    requires 2 <= base <= 36
    ensures InCase(Divided(v, base, upper), upper)
    decreases v
  {
    hide Quotient;
    var d, q := Divided(v, base, upper), Quotient(v, base);
    assert InCase([d[0]], upper);
    if q > 0 {
      CaseOf(q, base, upper);
      assert d == [d[0]] + Divided(q, base, upper);
    }
  }

  method Itostr(buf: array<char>, inData: int, base: int, upper: bool, sign: bool) returns (len: nat)
    requires buf.Length >= 32 && 2 <= base <= 36 && -0x8000_0000 <= inData < 0x8000_0000
    modifies buf
    ensures 1 <= len <= 32
    ensures buf[..len] == Numeral(Magnitude(inData, base, sign), base, upper)
    ensures Stands(buf[..len], base,
      if inData >= 0 then inData else if base == 10 && sign then -inData else inData + 0x1_0000_0000)
    ensures InCase(buf[..len], upper)
    ensures buf[len..] == old(buf[len..])
  {
    hide Divided;
    hide Numeral;
    hide Stands;
    hide InCase;
    hide Magnitude;
    var data := Magnitude(inData, base, sign);
    ghost var v := data;
    Bits32();
    FewDigits(v, base, upper, 32);
    len := 0;
    var more := true;
    while more
      invariant 0 <= len <= 32 && buf[len..] == old(buf[..])[len..]
      invariant Divided(v, base, upper) == buf[..len] + if more then Divided(data, base, upper) else []
      invariant more ==> |buf[..len]| + 1 <= 32
      decreases more, data
    {
      more, data := PutDigit(buf, len, data, base, upper, v);
      len := len + 1;
    }
    assert buf[..len] == Divided(v, base, upper);
    ReverseInPlace(buf, len);
    NumeralIs(v, base, upper);
    Printed(inData, base, upper, sign);
  }

  lemma {:induction false} NumeralIs(v: nat, base: int, upper: bool)
    requires 2 <= base <= 36
    ensures Numeral(v, base, upper) == Reversed(Divided(v, base, upper))
  {
  }

  lemma {:induction false} Printed(inData: int, base: int, upper: bool, sign: bool)
    requires 2 <= base <= 36 && -0x8000_0000 <= inData < 0x8000_0000
    ensures var s := Numeral(Magnitude(inData, base, sign), base, upper);
      && Stands(s, base, if inData >= 0 then inData else if base == 10 && sign then -inData else inData + 0x1_0000_0000)
      && InCase(s, upper)
  {
    hide Stands;
    NumeralOf(Magnitude(inData, base, sign), base, upper);
    CaseOf(Magnitude(inData, base, sign), base, upper);
    hide Divided;
  }

  lemma {:induction false} DigitOff(v: nat, written: seq<char>, data: nat, base: int, upper: bool)
    requires 2 <= base <= 36 && Divided(v, base, upper) == written + Divided(data, base, upper)
    ensures var q := Quotient(data, base);
      Divided(v, base, upper) ==
        (written + [DigitChar(data % base, upper)]) + if q != 0 then Divided(q, base, upper) else []
  {
    hide Quotient;
  }

  /** Write one digit, and divide it off. */
  method PutDigit(buf: array<char>, len: nat, data: nat, base: int, upper: bool, ghost v: nat)
    returns (more: bool, rest: nat)
    requires len < buf.Length && 2 <= base <= 36
    requires Divided(v, base, upper) == buf[..len] + Divided(data, base, upper)
    modifies buf
    ensures buf[len + 1..] == old(buf[..])[len + 1..] && (more ==> rest < data)
    ensures Divided(v, base, upper) == buf[..len + 1] + if more then Divided(rest, base, upper) else []
  {
    DigitOff(v, buf[..len], data, base, upper);
    hide *;
    buf[len] := DigitChar(data % base, upper);
    rest := Quotient(data, base);
    more := rest != 0;
    assert buf[..len + 1] == old(buf[..len]) + [DigitChar(data % base, upper)];
  }

  /** Swap from both ends. */
  method ReverseInPlace(buf: array<char>, len: nat)
    requires len <= buf.Length
    modifies buf
    ensures buf[..len] == Reversed(old(buf[..len])) && buf[len..] == old(buf[len..])
  {
    var i := 0;
    while i < len / 2
      invariant 0 <= i <= len / 2
      invariant forall k :: 0 <= k < i ==> buf[k] == old(buf[len - 1 - k]) && buf[len - 1 - k] == old(buf[k])
      invariant forall k :: i <= k < len - i || len <= k < buf.Length ==> buf[k] == old(buf[k])
    {
      buf[i], buf[len - 1 - i] := buf[len - 1 - i], buf[i];
      i := i + 1;
    }
    ghost var was := old(buf[..len]);
    assert forall k :: 0 <= k < len ==> buf[..len][k] == Reversed(was)[k];
  }

  // ----- parsing -----

  /** A text starts with a zero and a letter that sets the base. */
  predicate Prefixed(s: seq<char>) {
    |s| >= 2 && s[0] == '0' && (s[1] == 'x' || s[1] == 'o')
  }

  function BaseOf(s: seq<char>, requested: int): int {
    if Prefixed(s) then (if s[1] == 'x' then 16 else 8) else if requested == 0 then 10 else requested
  }

  /** A zero in front is taken in every base. */
  predicate Taken(s: seq<char>, i: nat, base: int)
    requires i < |s|
  {
    (i == 0 && s[0] == '0') || 0 <= DigitOf(s[i]) < base
  }

  /** What parsing a text gives: its longest start that is a number, that number, and why it ends there. */
  ghost predicate Parsed(s: seq<char>, requested: int, num: int, status: int, end: nat) {
    var base, from := BaseOf(s, requested), if Prefixed(s) then 2 else 0;
    && from <= end <= |s|
    && (forall i :: from <= i < end ==> Taken(s, i, base))
    && num == Value(base, s[from..end]) % WORD
    && (if s == [] then status == 2
        else if end == |s| then status == 0
        else !Taken(s, end, base) && status == if DigitOf(s[end]) == -1 then 3 else 4)
  }

  /** That settles the outcome. */
  lemma {:induction false} ParsedOnce(s: seq<char>, requested: int, num: int, status: int, end: nat, num': int,
                                      status': int, end': nat)
    requires Parsed(s, requested, num, status, end) && Parsed(s, requested, num', status', end')
    ensures num == num' && status == status' && end == end'
  {
  }

  /** Parsing a printed number in its base gives the number back, to the end of the text. */
  lemma {:induction false} PrintThenParse(v: nat, base: int, upper: bool, num: int, status: int, end: nat)
    requires v < WORD && 2 <= base <= 36 && Parsed(Numeral(v, base, upper), base, num, status, end)
    ensures num == v && status == 0 && end == |Numeral(v, base, upper)|
  {
    hide Numeral;
    var s := Numeral(v, base, upper);
    NumeralOf(v, base, upper);
    assert !Prefixed(s);
    assert end == |s|;
    assert s[0..end] == s;
  }

  /** A character that is no letter and no digit. */
  predicate IsSeparator(c: char) {
    !('0' <= c <= '9') && !('a' <= c <= 'z') && !('A' <= c <= 'Z')
  }

  /**
   A printed number followed by something that is not one of its digits: the number,
   where it ends, and whether that is a separator (3) or a digit or letter too large (4).
  */
  lemma {:induction false} ParseStops(v: nat, base: int, upper: bool, tail: seq<char>, num: int, status: int, end: nat)
    requires v < WORD && 2 <= base <= 36 && tail != []
    requires IsSeparator(tail[0]) || forall d :: 0 <= d < base ==> tail[0] != LOWER[d] && tail[0] != UPPER[d]
    requires v == 0 ==> tail[0] != 'x' && tail[0] != 'o'
    requires Parsed(Numeral(v, base, upper) + tail, base, num, status, end)
    ensures num == v && end == |Numeral(v, base, upper)| && status == if IsSeparator(tail[0]) then 3 else 4
  {
    hide Numeral;
    var n := Numeral(v, base, upper);
    var s := n + tail;
    NumeralOf(v, base, upper);
    if 0 <= DigitOf(tail[0]) < 36 {
      DigitsAre(tail[0], DigitOf(tail[0]));
    }
    assert s[0] == n[0];
    assert forall i :: 0 <= i < |n| ==> s[i] == n[i];
    assert s[|n|] == tail[0];
    NotPrefixed(n, tail, base, v);
    assert !Taken(s, |n|, base);
    assert forall i :: 0 <= i < |n| ==> Taken(s, i, base);
    assert s[0..end] == n;
  }

  lemma {:induction false} NotPrefixed(n: seq<char>, tail: seq<char>, base: int, v: nat)
    requires Stands(n, base, v) && tail != [] && (v == 0 ==> tail[0] != 'x' && tail[0] != 'o')
    ensures !Prefixed(n + tail)
  {
    if n[0] == '0' {
      assert n == "0" && n[..0] == [] && Value(base, n) == Value(base, []) * base + DigitOf('0');
    }
  }

  /** A prefix sets the base to 16 or 8, whatever was requested. */
  lemma {:induction false} PrefixedThenParse(v: nat, hex: bool, upper: bool, requested: int, num: int, status: int,
                                             end: nat)
    requires v < WORD
    requires var n := Numeral(v, if hex then 16 else 8, upper);
      Parsed((if hex then "0x" else "0o") + n, requested, num, status, end)
    ensures num == v && status == 0 && end == 2 + |Numeral(v, if hex then 16 else 8, upper)|
  {
    hide Numeral;
    var n := Numeral(v, if hex then 16 else 8, upper);
    var s := (if hex then "0x" else "0o") + n;
    NumeralOf(v, if hex then 16 else 8, upper);
    assert Prefixed(s) && s[2..] == n && forall i :: 0 <= i < |n| ==> s[i + 2] == n[i];
    assert end == |s|;
    assert s[2..end] == n;
  }

  ghost function Text(str: array<char>): seq<char>
    reads str
  {
    Upto(str[..])
  }

  /** The text before the terminator. */
  function Upto(s: seq<char>): (t: seq<char>)
    ensures |t| <= |s|
  {
    if s == [] || s[0] == '\0' then [] else [s[0]] + Upto(s[1..])
  }

  lemma {:induction false} UptoIs(s: seq<char>, i: nat)
    requires '\0' in s
    ensures |Upto(s)| < |s| && s[|Upto(s)|] == '\0' && s[..|Upto(s)|] == Upto(s)
    ensures i < |Upto(s)| ==> s[i] != '\0' && Upto(s)[i] == s[i]
  {
    if s[0] != '\0' {
      UptoIs(s[1..], if i > 0 then i - 1 else 0);
    }
  }

  /** What has been read so far: the first `end` characters. */
  ghost predicate Reading(s: seq<char>, requested: int, num: int, base: int, leadingZero: bool, end: nat) {
    && end <= |s| && (leadingZero <==> end > 0 && s[0] == '0')
    && var pre := s[..end];
    && base == BaseOf(pre, requested)
    && (forall i :: (if Prefixed(pre) then 2 else 0) <= i < end ==> Taken(s, i, base))
    && num == Value(base, pre[if Prefixed(pre) then 2 else 0..]) % WORD
  }

  lemma {:induction false} ReadNone(s: seq<char>, requested: int)
    ensures Reading(s, requested, 0, if requested != 0 then requested else 10, false, 0)
  {
    assert s[..0] == [];
  }

  lemma {:induction false} ReadZero(s: seq<char>, requested: int, base: int)
    requires s != [] && s[0] == '0' && Reading(s, requested, 0, base, false, 0)
    ensures Reading(s, requested, 0, base, true, 1)
  {
    var pre := s[..1];
    assert pre == "0" && pre[0..] == pre && pre[..0] == [];
    assert Value(base, pre) == Value(base, []) * base + DigitOf('0');
    assert Taken(s, 0, base);
  }

  lemma {:induction false} ReadLetter(s: seq<char>, requested: int, num: int, base: int)
    requires |s| >= 2 && (s[1] == 'x' || s[1] == 'o') && Reading(s, requested, num, base, true, 1)
    ensures Reading(s, requested, num, if s[1] == 'x' then 16 else 8, true, 2)
  {
    assert s[..1] == "0" && s[..1][0..] == "0" && "0"[..0] == [];
    assert Value(base, "0") == Value(base, []) * base + DigitOf('0');
    assert s[..2][2..] == [];
  }

  /** One more digit: the value so far is kept only as far as it fits in a word. */
  lemma {:induction false} ReadDigit(s: seq<char>, requested: int, num: int, base: int, leadingZero: bool, end: nat)
    requires Reading(s, requested, num, base, leadingZero, end) && end < |s| && 0 <= DigitOf(s[end]) < base
    requires end == 0 ==> s[0] != '0'
    requires end == 1 && leadingZero ==> s[1] != 'x' && s[1] != 'o'
    ensures Reading(s, requested, (num * base + DigitOf(s[end])) % WORD, base, leadingZero, end + 1)
  {
    hide DigitOf;
    var pre, c := s[..end], s[end];
    var from := if Prefixed(pre) then 2 else 0;
    assert s[..end + 1] == pre + [c];
    assert Prefixed(s[..end + 1]) == Prefixed(pre);
    assert (pre + [c])[from..] == pre[from..] + [c];
    var digits := pre[from..];
    assert (digits + [c])[..|digits|] == digits;
    WordStep(Value(base, digits), base, DigitOf(c));
    assert Taken(s, end, base);
  }

  lemma {:induction false} WordStep(v: int, base: int, d: int)
    ensures (v % WORD * base + d) % WORD == (v * base + d) % WORD
  {
    var q, r := v / WORD, v % WORD;
    assert v * base == r * base + WORD * (q * base) by {
      assert v == WORD * q + r;
      assert (WORD * q + r) * base == WORD * (q * base) + r * base;
    }
    AddMultiple(r * base + d, WORD, q * base);
  }

  lemma {:induction false} ReadAll(s: seq<char>, requested: int, num: int, base: int, leadingZero: bool, end: nat,
                                   status: int)
    requires s != [] && Reading(s, requested, num, base, leadingZero, end)
    requires end == 1 && end < |s| && leadingZero ==> s[1] != 'x' && s[1] != 'o'
    requires if end == |s| then status == 0
      else !Taken(s, end, base) && status == if DigitOf(s[end]) == -1 then 3 else 4
    ensures Parsed(s, requested, num, status, end)
  {
    var pre := s[..end];
    assert s[0] == '0' ==> Taken(s, 0, base);
    assert Prefixed(s) == Prefixed(pre);
    assert pre[if Prefixed(pre) then 2 else 0..] == s[if Prefixed(pre) then 2 else 0..end];
  }

  method Strtoul(str: array?<char>, requested: int) returns (num: nat, status: int, end: nat)
    requires str != null ==> '\0' in str[..]
    ensures str == null ==> num == 0 && status == 2 && end == 0
    ensures str != null ==> Parsed(Text(str), requested, num, status, end)
  {
    hide Reading;
    num, end := 0, 0;
    if str == null || str[0] == '\0' {
      status := 2;
      return;
    }
    status := 0;
    ghost var s := Text(str);
    var base := if requested != 0 then requested else 10;
    var nchars, leadingZero := 0, false;
    UptoIs(str[..], 0);
    ReadNone(s, requested);
    while str[end] != '\0'
      invariant end == nchars <= |s| && status == 0 && Reading(s, requested, num, base, leadingZero, end)
      invariant end == 0 ==> num == 0 && !leadingZero
      decreases |s| - end
    {
      var c := str[end];
      UptoIs(str[..], end);
      if nchars == 0 && c == '0' {
        ReadZero(s, requested, base);
        leadingZero := true;
      } else if leadingZero && nchars == 1 && c == 'x' {
        ReadLetter(s, requested, num, base);
        base := 16;
      } else if leadingZero && nchars == 1 && c == 'o' {
        ReadLetter(s, requested, num, base);
        base := 8;
      } else {
        var digit := DigitOf(c);
        if digit == -1 {
          status := 3;
          break;
        }
        if digit >= base {
          status := 4;
          break;
        }
        ReadDigit(s, requested, num, base, leadingZero, end);
        num := (num * base + digit) % WORD;
      }
      end, nchars := end + 1, nchars + 1;
    }
    UptoIs(str[..], end);
    ReadAll(s, requested, num, base, leadingZero, end, status);
  }
}
