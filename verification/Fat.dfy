/**
 FAT lookup: the next cluster of a chain, read from the table through a buffer
 that holds the sectors read last.
*/
module Fat {
  import opened Arith
  import opened LittleEndian

  datatype Kind = Fat12 | Fat16 | Fat32

  // ----- the table -----

  /** The size of an entry, in units of four bits. */
  function Nibbles(kind: Kind): nat {
    match kind
    case Fat12 => 3
    case Fat16 => 4
    case Fat32 => 8
  }

  function Pow16(n: nat): (p: nat)
    ensures p > 0
  {
    if n == 0 then 1 else 16 * Pow16(n - 1)
  }

  /** Entry k: the table is one little-endian number, and the entries are its digits. */
  ghost function Entry(kind: Kind, table: seq<Byte>, k: nat): int {
    Unsigned(table) / Pow16(Nibbles(kind) * k) % Pow16(Nibbles(kind))
  }

  /** The cluster an entry leads to, with 0 for the end of the chain. */
  function Link(kind: Kind, entry: int): int {
    match kind
    case Fat12 => if entry >= 0xff8 then 0 else entry
    case Fat16 => if entry >= 0xfff8 then 0 else entry
    case Fat32 => if 0x0fff_fff8 <= entry < 0x8000_0000 then 0 else entry
  }

  /** The same when only 28 bits of a FAT32 entry are its value, as the format has it. */
  function MaskedLink(kind: Kind, entry: int): int {
    if kind != Fat32 then Link(kind, entry)
    else if entry % 0x1000_0000 >= 0x0fff_fff8 then 0 else entry % 0x1000_0000
  }

  /** The reserved bits are clear, or the code takes the entry for an end where the value is one too. */
  predicate ReservedBitsHarmless(kind: Kind, entry: int) {
    kind == Fat32 && entry >= 0x1000_0000 ==>
      entry < 0x8000_0000 && (entry % 0x1000_0000 == 0 || entry % 0x1000_0000 >= 0x0fff_fff8)
  }

  lemma {:induction false} Pow16Even(n: nat)
    ensures Pow16(2 * n) == Pow256(n)
  {
    if n > 0 {
      Pow16Even(n - 1);
      assert Pow16(2 * n) == 16 * Pow16(2 * n - 1);
    }
  }

  /** Going from byte o on. */
  lemma {:induction false} FromByte(table: seq<Byte>, o: nat)
    requires o <= |table|
    ensures Unsigned(table) / Pow16(2 * o) == Unsigned(table[o..])
  {
    Pow16Even(o);
    UnsignedParts(table, o);
  }

  lemma {:induction false} FromHalfByte(table: seq<Byte>, o: nat)
    requires o <= |table|
    ensures Unsigned(table) / Pow16(2 * o + 1) == Unsigned(table[o..]) / 16
  {
    FromByte(table, o);
    DivTwice(Unsigned(table), Pow16(2 * o), 16);
  }

  function Two(b: seq<Byte>, o: nat): (v: int)
    requires o + 2 <= |b|
    ensures 0 <= v < 0x1_0000
  {
    var low: int, high: int := b[o], b[o + 1];
    low + 256 * high
  }

  function Four(b: seq<Byte>, o: nat): (v: int)
    requires o + 4 <= |b|
    ensures 0 <= v < WORD
  {
    Two(b, o) + 0x1_0000 * Two(b, o + 2)
  }

  lemma {:induction false} LowTwo(b: seq<Byte>, o: nat)
    requires o + 2 <= |b|
    ensures Unsigned(b[o..]) == Two(b, o) + 0x1_0000 * Unsigned(b[o + 2..])
  {
    assert b[o..][1..] == b[o + 1..] && b[o + 1..][1..] == b[o + 2..];
  }

  lemma {:induction false} PowersOf16()
    ensures Pow16(3) == 0x1000 && Pow16(4) == 0x1_0000 && Pow16(8) == WORD
  {
    assert Pow16(2) == 16 * Pow16(1);
    assert Pow16(3) == 16 * Pow16(2);
    assert Pow16(4) == 16 * Pow16(3);
    assert Pow16(5) == 16 * Pow16(4);
    assert Pow16(6) == 16 * Pow16(5);
    assert Pow16(7) == 16 * Pow16(6);
    assert Pow16(8) == 16 * Pow16(7);
  }

  /** The low twelve bits of a number, and the twelve bits above its low four. */
  lemma {:induction false} TwelveBits(two: int, rest: int)
    requires 0 <= two < 0x1_0000
    ensures (two + 0x1_0000 * rest) % 0x1000 == two % 0x1000
    ensures (two + 0x1_0000 * rest) / 16 % 0x1000 == two / 16
  {
    LowPart(two % 0x1000, 0x1000, two / 0x1000 + 16 * rest);
    LowPart(two % 16, 16, two / 16 + 0x1000 * rest);
    LowPart(two / 16, 0x1000, rest);
  }

  lemma {:induction false} HalfByte(k: nat)
    ensures 2 * (3 * k / 2) + k % 2 == 3 * k
  {
    var m, r := k / 2, k % 2;
    var n := 3 * k;
    assert n == 2 * (3 * m + r) + r;
    assert n / 2 == 3 * m + r;
  }

  /** A 12-bit entry is the low or the high part of two bytes, and shares one of them. */
  lemma {:induction false} Entry12(table: seq<Byte>, k: nat)
    requires 3 * k / 2 + 2 <= |table|
    ensures Entry(Fat12, table, k) == if k % 2 == 1 then Two(table, 3 * k / 2) / 16 else Two(table, 3 * k / 2) % 0x1000
  {
    hide Entry;
    hide Two;
    HalfByte(k);
    Entry12At(table, k, 3 * k / 2, k % 2 == 1);
  }

  lemma {:induction false} Entry12At(table: seq<Byte>, k: nat, o: nat, odd: bool)
    requires o + 2 <= |table| && 3 * k == if odd then 2 * o + 1 else 2 * o
    ensures Entry(Fat12, table, k) == if odd then Two(table, o) / 16 else Two(table, o) % 0x1000
  {
    hide Unsigned;
    hide Two;
    PowersOf16();
    LowTwo(table, o);
    TwelveBits(Two(table, o), Unsigned(table[o + 2..]));
    if odd {
      FromHalfByte(table, o);
    } else {
      FromByte(table, o);
    }
  }

  lemma {:induction false} Entry16(table: seq<Byte>, k: nat)
    requires 2 * k + 2 <= |table|
    ensures Entry(Fat16, table, k) == Two(table, 2 * k)
  {
    hide Unsigned;
    hide Two;
    PowersOf16();
    LowTwo(table, 2 * k);
    FromByte(table, 2 * k);
    LowPart(Two(table, 2 * k), 0x1_0000, Unsigned(table[2 * k + 2..]));
    assert 2 * (2 * k) == Nibbles(Fat16) * k;
  }

  lemma {:induction false} Entry32(table: seq<Byte>, k: nat)
    requires 4 * k + 4 <= |table|
    ensures Entry(Fat32, table, k) == Four(table, 4 * k)
  {
    hide Unsigned;
    hide Two;
    PowersOf16();
    LowTwo(table, 4 * k);
    LowTwo(table, 4 * k + 2);
    FromByte(table, 4 * k);
    LowPart(Four(table, 4 * k), WORD, Unsigned(table[4 * k + 4..]));
    assert 2 * (4 * k) == Nibbles(Fat32) * k;
  }

  // ----- the lookup -----

  /** What the device does if asked to read: its answer, 0 for success, and what is in the buffer after a failure. */
  datatype Io = Io(answer: int, left: seq<Byte>)

  /** The sectors read for one lookup: two for 12-bit entries, which may lie on the edge of two sectors. */
  function Span(kind: Kind): nat {
    if kind == Fat12 then 2 else 1
  }

  /** The first sector a lookup needs; the place of a 12-bit entry is computed in a 32-bit word. */
  function SectorOf(kind: Kind, cluster: nat): nat {
    match kind
    case Fat12 => cluster * 3 % WORD / 1024
    case Fat16 => cluster / 256
    case Fat32 => cluster / 128
  }

  predicate OnDisk(kind: Kind, disk: seq<Byte>, sector: nat) {
    512 * (sector + Span(kind)) <= |disk|
  }

  /** The buffer holds the sectors from `sector` on. */
  ghost predicate Holds(kind: Kind, disk: seq<Byte>, buf: seq<Byte>, sector: nat) {
    |buf| == 1024 && OnDisk(kind, disk, sector) && buf[..512 * Span(kind)] == disk[512 * sector..][..512 * Span(kind)]
  }

  /** The bits of the buffer that a lookup takes for the entry. */
  function Raw(kind: Kind, buf: seq<Byte>, cluster: nat): (v: int)
    requires |buf| == 1024
    ensures 0 <= v < WORD
  {
    match kind
    case Fat12 =>
      var at := cluster * 3 % WORD % 1024;
      if at % 2 == 1 then Two(buf, at / 2) / 16 else Two(buf, at / 2) % 0x1000
    case Fat16 => Two(buf, cluster % 256 * 2)
    case Fat32 => Four(buf, cluster % 128 * 4)
  }

  lemma {:induction false} SameTwo(buf: seq<Byte>, disk: seq<Byte>, sector: nat, size: nat, o: nat)
    requires o + 2 <= size <= |buf| && 512 * sector + size <= |disk| && buf[..size] == disk[512 * sector..][..size]
    ensures Two(buf, o) == Two(disk, 512 * sector + o)
  {
    assert buf[o] == buf[..size][o] && buf[o + 1] == buf[..size][o + 1];
  }

  /** The byte of a 12-bit entry, from its place in units of four bits. */
  lemma {:induction false} Place12(cluster: nat, at: nat)
    requires cluster * 3 < WORD && at == cluster * 3 % WORD
    ensures 512 * (at / 1024) + at % 1024 / 2 == 3 * cluster / 2 && at % 1024 % 2 == cluster % 2
  {
    assert at == 3 * cluster;
  }

  /** The place of an entry is computed without loss: so it is for every cluster number of fewer than 31 bits. */
  predicate Addressable(kind: Kind, cluster: nat) {
    kind == Fat12 ==> cluster * 3 < WORD
  }

  /**
   With the right sectors in the buffer these are the bits of the entry, also where two
   entries share a byte or two sectors an entry.
  */
  lemma {:induction false} RawIsEntry(kind: Kind, disk: seq<Byte>, buf: seq<Byte>, cluster: nat)
    requires Holds(kind, disk, buf, SectorOf(kind, cluster)) && Addressable(kind, cluster)
    ensures Raw(kind, buf, cluster) == Entry(kind, disk, cluster)
  {
    hide Entry;
    hide Two;
    var sector := SectorOf(kind, cluster);
    match kind
    case Fat12 =>
      var at := cluster * 3 % WORD;
      Place12(cluster, at);
      SameTwo(buf, disk, sector, 1024, at % 1024 / 2);
      Entry12(disk, cluster);
    case Fat16 =>
      SameTwo(buf, disk, sector, 512, cluster % 256 * 2);
      Entry16(disk, cluster);
    case Fat32 =>
      SameTwo(buf, disk, sector, 512, cluster % 128 * 4);
      SameTwo(buf, disk, sector, 512, cluster % 128 * 4 + 2);
      Entry32(disk, cluster);
  }

  /** n links on from a cluster. */
  ghost function Nth(kind: Kind, disk: seq<Byte>, cluster: nat, n: nat): int
    decreases n
  {
    if n == 0 then cluster else Nth(kind, disk, Linked(kind, disk, cluster), n - 1)
  }

  /** The cluster after this one, 0 after the last. */
  ghost function Linked(kind: Kind, disk: seq<Byte>, cluster: nat): (c: nat)
    ensures c < WORD
  {
    PowersOf16();
    Link(kind, Entry(kind, disk, cluster))
  }

  /** The number that the bytes of an entry hold. */
  function BytesOfEntry(kind: Kind, disk: seq<Byte>, cluster: nat): int
    requires 4 * cluster + 4 <= |disk|
  {
    match kind
    case Fat12 =>
      var low: int, high: int := disk[3 * cluster / 2], disk[3 * cluster / 2 + 1];
      if cluster % 2 == 0 then low + 0x100 * (high % 16) else low / 16 + 0x10 * high
    case Fat16 =>
      var low: int, high: int := disk[2 * cluster], disk[2 * cluster + 1];
      low + 0x100 * high
    case Fat32 =>
      var b0: int, b1: int, b2: int, b3: int :=
        disk[4 * cluster], disk[4 * cluster + 1], disk[4 * cluster + 2], disk[4 * cluster + 3];
      b0 + 0x100 * b1 + 0x1_0000 * b2 + 0x100_0000 * b3
  }

  /** The next cluster is the number in the entry's bytes, unless that is an end mark, which stands for 0. */
  lemma {:induction false} LinkOfBytes(kind: Kind, disk: seq<Byte>, cluster: nat)
    requires 4 * cluster + 4 <= |disk|
    ensures var v := BytesOfEntry(kind, disk, cluster);
      Linked(kind, disk, cluster) ==
        match kind
        case Fat12 => if 0xff8 <= v then 0 else v
        case Fat16 => if 0xfff8 <= v then 0 else v
        case Fat32 => if 0x0fff_fff8 <= v < 0x8000_0000 then 0 else v
  {
    hide Entry;
    match kind
    case Fat12 =>
      Entry12(disk, cluster);
      TwoParts(disk, 3 * cluster / 2);
    case Fat16 => Entry16(disk, cluster);
    case Fat32 => Entry32(disk, cluster);
  }

  lemma {:induction false} TwoParts(disk: seq<Byte>, o: nat)
    requires o + 2 <= |disk|
    ensures var low: int, high: int := disk[o], disk[o + 1];
      Two(disk, o) % 0x1000 == low + 0x100 * (high % 16) && Two(disk, o) / 16 == low / 16 + 0x10 * high
  {
    var low: int, high: int := disk[o], disk[o + 1];
    LowPart(low + 0x100 * (high % 16), 0x1000, high / 16);
    LowPart(low % 16, 16, low / 16 + 0x10 * high);
  }

  /** The code keeps to the 28-bit values of the format exactly as long as the four reserved bits do no harm. */
  lemma {:induction false} FollowsFormat(kind: Kind, disk: seq<Byte>, cluster: nat)
    ensures Linked(kind, disk, cluster) == MaskedLink(kind, Entry(kind, disk, cluster))
      <==> ReservedBitsHarmless(kind, Entry(kind, disk, cluster))
    ensures Link(Fat32, 0x1000_0005) == 0 && MaskedLink(Fat32, 0x1000_0005) == 5
  {
    PowersOf16();
    var entry := Entry(kind, disk, cluster);
    assert 0 <= entry < WORD by {
      assert entry == Unsigned(disk) / Pow16(Nibbles(kind) * cluster) % Pow16(Nibbles(kind));
    }
    MaskedAgrees(kind, entry);
  }

  lemma {:induction false} MaskedAgrees(kind: Kind, entry: int)
    requires 0 <= entry < WORD
    ensures Link(kind, entry) == MaskedLink(kind, entry) <==> ReservedBitsHarmless(kind, entry)
  {
  }

  /** The chain from a cluster on stays for n links where lookups reach. */
  ghost predicate Reachable(kind: Kind, disk: seq<Byte>, cluster: nat, n: nat)
    decreases n
  {
    n > 0 ==>
      && Addressable(kind, cluster) && OnDisk(kind, disk, SectorOf(kind, cluster))
      && Reachable(kind, disk, Linked(kind, disk, cluster), n - 1)
  }

  /** An entry that the code takes for the end of a chain. */
  predicate CountsAsEnd(kind: Kind, entry: int) {
    match kind
    case Fat12 => entry >= 0xff8
    case Fat16 => entry >= 0xfff8
    case Fat32 => 0x0fff_fff8 <= entry < 0x8000_0000
  }

  /** Further links past the end of a chain stay there. */
  ghost predicate EndsStay(kind: Kind, disk: seq<Byte>) {
    forall n: nat :: Nth(kind, disk, 0, n) == 0
  }

  /** Past the end of a chain links stay at 0 exactly if entry 0, which tells the medium, is an end mark or 0. */
  lemma {:induction false} PastTheEnd(kind: Kind, disk: seq<Byte>)
    ensures EndsStay(kind, disk) <==> CountsAsEnd(kind, Entry(kind, disk, 0)) || Entry(kind, disk, 0) == 0
  {
    hide Entry;
    if Linked(kind, disk, 0) == 0 {
      forall n: nat ensures Nth(kind, disk, 0, n) == 0 {
        StaysAtEnd(kind, disk, n);
      }
    } else {
      var c := Linked(kind, disk, 0);
      assert Nth(kind, disk, c, 0) == c;
      assert Nth(kind, disk, 0, 1) == c;
    }
  }

  /** Entry 0 holds the medium descriptor in its low byte, and else ones in its value. */
  predicate TellsMedium(kind: Kind, disk: seq<Byte>) {
    && |disk| >= 4
    && match kind
       case Fat12 => disk[1] % 16 == 15
       case Fat16 => disk[1] == 0xff
       case Fat32 => disk[1] == disk[2] == 0xff && disk[3] % 16 == 15
  }

  lemma {:induction false} FirstEntry(kind: Kind, disk: seq<Byte>)
    requires TellsMedium(kind, disk)
    ensures var medium: int, top: int := disk[0], disk[3] / 16;
      Entry(kind, disk, 0) ==
      match kind
      case Fat12 => 0xf00 + medium
      case Fat16 => 0xff00 + medium
      case Fat32 => 0x0fff_ff00 + medium + top * 0x1000_0000
  {
    hide Entry;
    match kind
    case Fat12 => Entry12(disk, 0);
    case Fat16 => Entry16(disk, 0);
    case Fat32 => Entry32(disk, 0);
  }

  /**
   So it is exactly if the descriptor is at least 0xf8, that is if the medium is not
   removable, or a reserved bit of FAT32 is set; and if the top bit of FAT32 is clear.
  */
  lemma {:induction false} FixedMedium(kind: Kind, disk: seq<Byte>)
    requires TellsMedium(kind, disk)
    ensures EndsStay(kind, disk) <==>
      if kind == Fat32 then disk[3] < 0x80 && (disk[0] >= 0xf8 || disk[3] >= 0x10) else disk[0] >= 0xf8
    ensures !EndsStay(kind, disk) ==> Nth(kind, disk, 0, 1) == Entry(kind, disk, 0)
  {
    hide Entry;
    hide EndsStay;
    PastTheEnd(kind, disk);
    FirstEntry(kind, disk);
    assert Nth(kind, disk, Linked(kind, disk, 0), 0) == Linked(kind, disk, 0);
  }

  /** With the descriptor 0xf0 of a floppy disk the link after the end is 0xff0. */
  lemma {:induction false} RemovableMedium(disk: seq<Byte>)
    requires |disk| >= 2 && disk[0] == 0xf0 && disk[1] == 0xff
    ensures Nth(Fat12, disk, 0, 1) == 0xff0
  {
    Entry12(disk, 0);
    assert Nth(Fat12, disk, Linked(Fat12, disk, 0), 0) == 0xff0;
  }

  lemma {:induction false} StaysAtEnd(kind: Kind, disk: seq<Byte>, n: nat)
    requires Linked(kind, disk, 0) == 0
    ensures Nth(kind, disk, 0, n) == 0
  {
    if n > 0 {
      StaysAtEnd(kind, disk, n - 1);
    }
  }

  lemma {:induction false} NthLast(kind: Kind, disk: seq<Byte>, cluster: nat, n: nat)
    ensures 0 <= Nth(kind, disk, cluster, n)
      && Nth(kind, disk, cluster, n + 1) == Linked(kind, disk, Nth(kind, disk, cluster, n))
    ensures Reachable(kind, disk, cluster, n + 1) ==>
      Addressable(kind, Nth(kind, disk, cluster, n)) && OnDisk(kind, disk, SectorOf(kind, Nth(kind, disk, cluster, n)))
    decreases n
  {
    if n > 0 {
      NthLast(kind, disk, Linked(kind, disk, cluster), n - 1);
    }
  }

  lemma {:induction false} ReachableLess(kind: Kind, disk: seq<Byte>, cluster: nat, n: nat, m: nat)
    requires Reachable(kind, disk, cluster, n) && m <= n
    ensures Reachable(kind, disk, cluster, m)
    decreases m
  {
    if m > 0 {
      ReachableLess(kind, disk, Linked(kind, disk, cluster), n - 1, m - 1);
    }
  }

  // ----- the buffer -----

  /** The buffer, and the sector it is marked with, -1 for none. */
  datatype Cache = Cache(mark: int, buf: seq<Byte>)

  ghost predicate Sound(kind: Kind, disk: seq<Byte>, c: Cache) {
    |c.buf| == 1024 && (c.mark >= 0 ==> Holds(kind, disk, c.buf, c.mark))
  }

  /** The device's answer; sectors that are not there cannot be read. */
  function Answer(kind: Kind, disk: seq<Byte>, sector: nat, io: Io): int {
    if io.answer == 0 && !OnDisk(kind, disk, sector) then -1 else io.answer
  }

  /** A lookup has to read, and the device does not answer with success. */
  ghost predicate Fails(kind: Kind, disk: seq<Byte>, c: Cache, cluster: nat, io: Io) {
    c.mark != SectorOf(kind, cluster) && Answer(kind, disk, SectorOf(kind, cluster), io) != 0
  }

  /** The buffer after a lookup; a failed read leaves the mark as it was. */
  ghost function Loaded(kind: Kind, disk: seq<Byte>, c: Cache, cluster: nat, io: Io): (c': Cache)
    requires |c.buf| == |io.left| == 1024
    ensures |c'.buf| == 1024
  {
    var sector, size := SectorOf(kind, cluster), 512 * Span(kind);
    if c.mark == sector then c
    else if Answer(kind, disk, sector, io) != 0 then c.(buf := io.left)
    else Cache(sector, disk[512 * sector..][..size] + c.buf[size..])
  }

  /** What it answers. */
  ghost function Looked(kind: Kind, disk: seq<Byte>, c: Cache, cluster: nat, io: Io): int
    requires |c.buf| == |io.left| == 1024
  {
    if Fails(kind, disk, c, cluster, io) && Answer(kind, disk, SectorOf(kind, cluster), io) < 0 then 0
    else Link(kind, Raw(kind, Loaded(kind, disk, c, cluster, io).buf, cluster))
  }

  /** A lookup that does not fail is right, and leaves the buffer in order. */
  lemma {:induction false} LookupRight(kind: Kind, disk: seq<Byte>, c: Cache, cluster: nat, io: Io)
    requires Sound(kind, disk, c) && |io.left| == 1024 && !Fails(kind, disk, c, cluster, io)
    ensures var c' := Loaded(kind, disk, c, cluster, io); Sound(kind, disk, c') && c'.mark == SectorOf(kind, cluster)
    ensures Addressable(kind, cluster) ==> Looked(kind, disk, c, cluster, io) == Linked(kind, disk, cluster)
  {
    var c', size := Loaded(kind, disk, c, cluster, io), 512 * Span(kind);
    if c.mark != SectorOf(kind, cluster) {
      assert c'.buf[..size] == disk[512 * c'.mark..][..size];
    }
    if Addressable(kind, cluster) {
      RawIsEntry(kind, disk, c'.buf, cluster);
    }
  }

  /**
   A lookup leaves the buffer in order exactly if it does not fail, or nothing is
   marked, or the failed read left the marked sectors in the buffer.
  */
  lemma {:induction false} SoundExactly(kind: Kind, disk: seq<Byte>, c: Cache, cluster: nat, io: Io)
    requires Sound(kind, disk, c) && |io.left| == 1024
    ensures Sound(kind, disk, Loaded(kind, disk, c, cluster, io)) <==>
      !Fails(kind, disk, c, cluster, io) || c.mark < 0 || Holds(kind, disk, io.left, c.mark)
  {
    if !Fails(kind, disk, c, cluster, io) {
      LookupRight(kind, disk, c, cluster, io);
    }
  }

  /**
   After a failed read, the next lookup, if the device answers it, is right exactly
   if it is not of the marked sector, or the bytes left there give the same link.
  */
  lemma {:induction false} AfterFailure(kind: Kind, disk: seq<Byte>, c: Cache, failed: nat, io: Io, cluster: nat,
                                        io': Io)
    requires Sound(kind, disk, c) && |io.left| == |io'.left| == 1024 && Fails(kind, disk, c, failed, io)
    requires Addressable(kind, cluster) && Answer(kind, disk, SectorOf(kind, cluster), io') == 0
    ensures var c1 := Loaded(kind, disk, c, failed, io);
      Looked(kind, disk, c1, cluster, io') == Linked(kind, disk, cluster) <==>
        SectorOf(kind, cluster) != c.mark || Link(kind, Raw(kind, io.left, cluster)) == Linked(kind, disk, cluster)
  {
    hide Raw;
    hide Linked;
    hide Link;
    if SectorOf(kind, cluster) != c.mark {
      LookupRight(kind, disk, Cache(-1, io.left), cluster, io');
    }
  }

  /** If the failed read left zeros, every file with a cluster in the marked sector seems to end there. */
  lemma {:induction false} ChainCutShort(kind: Kind, disk: seq<Byte>, c: Cache, failed: nat, io: Io, cluster: nat,
                                         io': Io)
    requires Sound(kind, disk, c) && |io.left| == |io'.left| == 1024 && Fails(kind, disk, c, failed, io)
    requires SectorOf(kind, cluster) == c.mark && forall i :: 0 <= i < 1024 ==> io.left[i] == 0
    ensures Looked(kind, disk, Loaded(kind, disk, c, failed, io), cluster, io') == 0
  {
  }

  class FatFs {
    const kind: Kind
    /** The device from the first sector of the table on. */
    const disk: seq<Byte>
    const fbuf: array<Byte>
    var fatSector: int

    constructor (kind: Kind, disk: seq<Byte>, buf: array<Byte>)
      requires buf.Length == 1024
      ensures this.kind == kind && this.disk == disk && fbuf == buf && fatSector == -1 && Coherent()
    {
      this.kind, this.disk, this.fbuf := kind, disk, buf;
      fatSector := -1;
    }

    /** The buffer holds the sectors it is marked with. */
    ghost predicate Coherent()
      reads this, fbuf
    {
      Sound(kind, disk, Cache(fatSector, fbuf[..]))
    }

    ghost function Buffer(): Cache
      reads this, fbuf
    {
      Cache(fatSector, fbuf[..])
    }

    method ReadSector(sector: nat, length: nat, io: Io) returns (retv: int)
      requires length == Span(kind) && fbuf.Length == 1024 && |io.left| == 1024
      modifies fbuf
      ensures retv == Answer(kind, disk, sector, io)
      ensures fbuf[..] == if retv != 0 then io.left
        else disk[512 * sector..][..512 * Span(kind)] + old(fbuf[512 * Span(kind)..])
    {
      retv := Answer(kind, disk, sector, io);
      if retv == 0 {
        forall i | 0 <= i < 512 * length {
          fbuf[i] := disk[512 * sector + i];
        }
      } else {
        forall i | 0 <= i < 1024 {
          fbuf[i] := io.left[i];
        }
      }
    }

    /** The sectors of the cluster's entry are in the buffer, unless the device fails: then the mark stays as it was. */
    method ReadFat(sector: nat, length: nat, io: Io, ghost cluster: nat) returns (retv: int)
      requires length == Span(kind) && fbuf.Length == 1024 && |io.left| == 1024 && sector == SectorOf(kind, cluster)
      modifies this`fatSector, fbuf
      ensures retv == if old(fatSector) == sector then 0 else Answer(kind, disk, sector, io)
      ensures Buffer() == Loaded(kind, disk, old(Buffer()), cluster, io)
    {
      retv := 0;
      if fatSector != sector {
        retv := ReadSector(sector, length, io);
        if retv != 0 {
          return;
        }
        fatSector := sector;
      }
    }

    /** The next cluster of a chain, 0 after the last or if the device fails with a negative answer. */
    method NextCluster(cluster: nat, io: Io) returns (next: nat)
      requires cluster < WORD && fbuf.Length == 1024 && |io.left| == 1024
      modifies this`fatSector, fbuf
      ensures next < WORD
      ensures Buffer() == Loaded(kind, disk, old(Buffer()), cluster, io)
      ensures next == Looked(kind, disk, old(Buffer()), cluster, io)
      ensures old(Coherent()) && !Fails(kind, disk, old(Buffer()), cluster, io) ==>
        Coherent() && (Addressable(kind, cluster) ==> next == Linked(kind, disk, cluster))
    {
      if Coherent() && !Fails(kind, disk, Buffer(), cluster, io) {
        LookupRight(kind, disk, Buffer(), cluster, io);
      }
      var v, retv;
      if kind == Fat12 {
        var sector, offset := cluster * 3 % WORD / 1024, cluster * 3 % WORD % 1024;
        retv := ReadFat(sector, 2, io, cluster);
        if retv < 0 {
          return 0;
        }
        v := Two(fbuf[..], offset / 2);
        if offset % 2 == 1 {
          v := v / 16;
        } else {
          v := v % 0x1000;
        }
        if v >= 0xff8 {
          v := 0;
        }
      } else if kind == Fat16 {
        var sector, offset := cluster / 256, cluster % 256;
        retv := ReadFat(sector, 1, io, cluster);
        if retv < 0 {
          return 0;
        }
        v := Two(fbuf[..], offset * 2);
        if v >= 0xfff8 {
          v := 0;
        }
      } else {
        var sector, offset := cluster / 128, cluster % 128;
        retv := ReadFat(sector, 1, io, cluster);
        if retv < 0 {
          return 0;
        }
        v := Four(fbuf[..], offset * 4);
        // the entry is compared as a signed word
        if 0x0fff_fff8 <= v < 0x8000_0000 {
          v := 0;
        }
      }
      next := v;
    }

    /** The cluster at position vcn of a file, as a read looks for it: from the first cluster link by link. */
    method Locate(first: nat, vcn: nat, ios: seq<Io>) returns (cluster: nat)
      requires first < WORD && Coherent() && |ios| == vcn
      requires forall io <- ios :: io.answer == 0 && |io.left| == 1024
      requires Reachable(kind, disk, first, vcn)
      modifies this`fatSector, fbuf
      ensures Coherent() && cluster == Nth(kind, disk, first, vcn)
    {
      cluster := first;
      var i := 0;
      while i < vcn
        invariant 0 <= i <= vcn && Coherent() && cluster < WORD
        invariant cluster == Nth(kind, disk, first, i)
      {
        ReachableLess(kind, disk, first, vcn, i + 1);
        NthLast(kind, disk, first, i);
        cluster := NextCluster(cluster, ios[i]);
        i := i + 1;
      }
    }

    /** Any lookups in any order, each read succeeding, give the links that the table holds. */
    method Lookups(clusters: seq<nat>, ios: seq<Io>) returns (out: seq<nat>)
      requires Coherent() && |ios| == |clusters|
      requires forall io <- ios :: io.answer == 0 && |io.left| == 1024
      requires forall i :: 0 <= i < |clusters| ==>
        clusters[i] < WORD && Addressable(kind, clusters[i]) && OnDisk(kind, disk, SectorOf(kind, clusters[i]))
      modifies this`fatSector, fbuf
      ensures Coherent() && |out| == |clusters|
      ensures forall i :: 0 <= i < |out| ==> out[i] == Linked(kind, disk, clusters[i])
    {
      out := [];
      while |out| < |clusters|
        invariant Coherent() && |out| <= |clusters|
        invariant forall i :: 0 <= i < |out| ==> out[i] == Linked(kind, disk, clusters[i])
      {
        var next := NextCluster(clusters[|out|], ios[|out|]);
        out := out + [next];
      }
    }
  }
}
