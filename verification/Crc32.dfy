/** Bitwise exclusive or on naturals, which is what `^` is on unsigned JavaScript words. */
module Words {
  import opened Prelude

  function Xor(a: nat, b: nat): nat
    decreases a + b
  {
    if a == 0 then b
    else if b == 0 then a
    else (if a % 2 == b % 2 then 0 else 1) + 2 * Xor(a / 2, b / 2)
  }

  /** The lowest bit and the remaining bits of an exclusive or. */
  lemma {:induction false} XorUnfold(a: nat, b: nat)
    ensures Xor(a, b) % 2 == (if a % 2 == b % 2 then 0 else 1)
    ensures Xor(a, b) / 2 == Xor(a / 2, b / 2)
  {
    if a == 0 {
    } else if b == 0 {
    } else {
      var high := Xor(a / 2, b / 2);
      assert Xor(a, b) == (if a % 2 == b % 2 then 0 else 1) + 2 * high;
    }
  }

  lemma {:induction false} XorComm(a: nat, b: nat)
    ensures Xor(a, b) == Xor(b, a)
    decreases a + b
  {
    if a != 0 && b != 0 {
      XorComm(a / 2, b / 2);
    }
  }

  lemma {:induction false} XorSelf(a: nat)
    ensures Xor(a, a) == 0
  {
    if a != 0 {
      XorSelf(a / 2);
    }
  }

  lemma {:induction false} XorAssoc(a: nat, b: nat, c: nat)
    ensures Xor(Xor(a, b), c) == Xor(a, Xor(b, c))
    decreases a + b + c
  {
    if a != 0 && b != 0 && c != 0 {
      XorUnfold(a, b);
      XorUnfold(b, c);
      XorUnfold(Xor(a, b), c);
      XorUnfold(a, Xor(b, c));
      XorAssoc(a / 2, b / 2, c / 2);
    }
  }

  lemma {:induction false} XorCancel(p: nat, x: nat, y: nat)
    requires Xor(p, x) == Xor(p, y)
    ensures x == y
  {
    XorAssoc(p, p, x);
    XorAssoc(p, p, y);
    XorSelf(p);
  }

  lemma {:induction false} XorBound(a: nat, b: nat, n: nat)
    requires a < Pow2(n) && b < Pow2(n)
    ensures Xor(a, b) < Pow2(n)
    decreases n
  {
    if a != 0 && b != 0 {
      XorBound(a / 2, b / 2, n - 1);
    }
  }

  /** A set top bit survives an exclusive or with anything below it. */
  lemma {:induction false} XorTopBit(a: nat, b: nat, n: nat)
    requires Pow2(n) <= a < Pow2(n + 1) && b < Pow2(n)
    ensures Xor(a, b) >= Pow2(n)
    decreases n
  {
    if n != 0 && b != 0 {
      XorTopBit(a / 2, b / 2, n - 1);
    }
  }

  /** Exclusive or of numbers with no bit in common is their sum. */
  lemma {:induction false} XorDisjoint(u: nat, h: nat, n: nat)
    requires u < Pow2(n)
    ensures Xor(u, Pow2(n) * h) == u + Pow2(n) * h
    decreases n
  {
    if u != 0 && h != 0 {
      assert n > 0;
      var half := Pow2(n - 1) * h;
      assert Pow2(n) * h == 2 * half;
      XorUnfold(u, 2 * half);
      XorDisjoint(u / 2, h, n - 1);
      assert (2 * half) / 2 == half && (2 * half) % 2 == 0;
    }
  }

  lemma {:induction false} XorWord(a: word, b: word)
    ensures Xor(a, b) < 0x1_0000_0000
  {
    Pow2Is32();
    XorBound(a, b, 32);
  }
}

/**
 * The checksum of the archive adapters. `FeedBit` is the bit-at-a-time register of
 * section 8 of RFC 1952; `TableEntry`/`ByTable` are the table-driven form the adapters run.
 */
module Crc32 {
  import opened Prelude
  import opened Words

  const POLYNOMIAL: word := 0xEDB8_8320
  const ALL_ONES: word := 0xFFFF_FFFF

  // ----- the reference: one message bit at a time, least significant bit first -----

  function FeedBit(register: nat, bit: bool): nat {
    if (register % 2 == 1) != bit then Xor(POLYNOMIAL, register / 2) else register / 2
  }

  function FeedBits(register: nat, bits: seq<bool>): nat
    decreases |bits|
  {
    if bits == [] then register else FeedBits(FeedBit(register, bits[0]), bits[1..])
  }

  function BitsOf(value: nat, count: nat): seq<bool>
    decreases count
  {
    if count == 0 then [] else [value % 2 == 1] + BitsOf(value / 2, count - 1)
  }

  function MessageBits(message: seq<byte>): seq<bool> {
    if message == [] then [] else BitsOf(message[0], 8) + MessageBits(message[1..])
  }

  function Reference(message: seq<byte>): nat {
    Xor(FeedBits(ALL_ONES, MessageBits(message)), ALL_ONES)
  }

  // ----- the table-driven form -----

  function BitStep(value: nat): nat {
    if value % 2 == 1 then Xor(POLYNOMIAL, value / 2) else value / 2
  }

  function Steps(value: nat, count: nat): nat
    decreases count
  {
    if count == 0 then value else Steps(BitStep(value), count - 1)
  }

  function TableEntry(index: byte): nat {
    Steps(index, 8)
  }

  /** One turn of the checksum loop over the lookup table. */
  function ByTable(register: nat, b: byte): nat {
    Xor(TableEntry(Xor(register, b) % 256), register / 256)
  }

  function Register(register: nat, message: seq<byte>): nat
    decreases |message|
  {
    if message == [] then register else Register(ByTable(register, message[0]), message[1..])
  }

  function Checksum(message: seq<byte>): nat {
    Xor(Register(ALL_ONES, message), ALL_ONES)
  }

  // ----- algebra of the step -----

  lemma {:induction false} BitStepWord(value: word)
    ensures BitStep(value) < 0x1_0000_0000
  {
    XorWord(POLYNOMIAL, value / 2);
  }

  lemma {:induction false} StepsWord(value: word, count: nat)
    ensures Steps(value, count) < 0x1_0000_0000
    decreases count
  {
    if count != 0 {
      BitStepWord(value);
      StepsWord(BitStep(value), count - 1);
    }
  }

  /** Doubling the second operand makes it pass through one step unchanged. */
  lemma {:induction false} BitStepDoubled(u: nat, h: nat)
    ensures BitStep(Xor(u, 2 * h)) == Xor(BitStep(u), h)
  {
    XorUnfold(u, 2 * h);
    XorAssoc(POLYNOMIAL, u / 2, h);
  }

  /** Bits lying above the ones consumed are only shifted down. */
  lemma {:induction false} StepsShift(u: nat, h: nat, n: nat)
    ensures Steps(Xor(u, Pow2(n) * h), n) == Xor(Steps(u, n), h)
    decreases n
  {
    if n != 0 {
      assert Pow2(n) * h == 2 * (Pow2(n - 1) * h);
      BitStepDoubled(u, Pow2(n - 1) * h);
      StepsShift(BitStep(u), h, n - 1);
    }
  }

  lemma {:induction false} StepsAdd(value: nat, m: nat, n: nat)
    ensures Steps(Steps(value, m), n) == Steps(value, m + n)
    decreases m
  {
    if m != 0 {
      StepsAdd(BitStep(value), m - 1, n);
    }
  }

  lemma {:induction false} BitStepInjective(x: word, y: word)
    requires BitStep(x) == BitStep(y)
    ensures x == y
  {
    Pow2Is32();
    if x % 2 == 1 {
      XorTopBit(POLYNOMIAL, x / 2, 31);
    }
    if y % 2 == 1 {
      XorTopBit(POLYNOMIAL, y / 2, 31);
    }
    if x % 2 == 1 && y % 2 == 1 {
      XorCancel(POLYNOMIAL, x / 2, y / 2);
    }
  }

  lemma {:induction false} StepsInjective(x: word, y: word, n: nat)
    requires Steps(x, n) == Steps(y, n)
    ensures x == y
    decreases n
  {
    if n != 0 {
      BitStepWord(x);
      BitStepWord(y);
      StepsInjective(BitStep(x), BitStep(y), n - 1);
      BitStepInjective(x, y);
    }
  }

  /** A table lookup does the work of eight single-bit steps. */
  lemma {:induction false} ByTableIsEightSteps(register: nat, b: byte)
    ensures ByTable(register, b) == Steps(Xor(register, b), 8)
  {
    var x := Xor(register, b);
    Pow2Is32();
    calc {
      x;
      x % 256 + Pow2(8) * (x / 256);
      { XorDisjoint(x % 256, x / 256, 8); }
      Xor(x % 256, Pow2(8) * (x / 256));
    }
    StepsShift(x % 256, x / 256, 8);
    HighByte(register, b);
  }

  function Halved(value: nat, n: nat): nat
    decreases n
  {
    if n == 0 then value else Halved(value / 2, n - 1)
  }

  lemma {:induction false} HighBits(a: nat, b: nat, n: nat)
    requires b < Pow2(n)
    ensures Halved(Xor(a, b), n) == Halved(a, n)
    decreases n
  {
    if n != 0 {
      XorUnfold(a, b);
      HighBits(a / 2, b / 2, n - 1);
    } else {
      XorComm(a, 0);
    }
  }

  lemma {:induction false} HighByte(register: nat, b: byte)
    ensures Xor(register, b) / 256 == register / 256
  {
    Pow2Is32();
    HighBits(register, b, 8);
    assert forall x: nat :: Halved(x, 8) == x / 256;
  }

  // ----- the table-driven form computes the reference -----

  lemma {:induction false} FeedByteBits(register: nat, value: nat, n: nat)
    requires value < Pow2(n)
    ensures FeedBits(register, BitsOf(value, n)) == Steps(Xor(register, value), n)
    decreases n
  {
    if n != 0 {
      var next := FeedBit(register, value % 2 == 1);
      assert BitsOf(value, n)[1..] == BitsOf(value / 2, n - 1);
      FeedByteBits(next, value / 2, n - 1);
      XorUnfold(register, value);
      XorAssoc(POLYNOMIAL, register / 2, value / 2);
    } else {
      XorComm(register, 0);
    }
  }

  lemma {:induction false} FeedBitsConcat(register: nat, a: seq<bool>, b: seq<bool>)
    ensures FeedBits(register, a + b) == FeedBits(FeedBits(register, a), b)
    decreases |a|
  {
    if a == [] {
      assert a + b == b;
    } else {
      assert (a + b)[1..] == a[1..] + b;
      FeedBitsConcat(FeedBit(register, a[0]), a[1..], b);
    }
  }

  lemma {:induction false} RegisterIsBitwise(register: nat, message: seq<byte>)
    ensures Register(register, message) == FeedBits(register, MessageBits(message))
    decreases |message|
  {
    if message != [] {
      Pow2Is32();
      FeedByteBits(register, message[0], 8);
      ByTableIsEightSteps(register, message[0]);
      RegisterIsBitwise(ByTable(register, message[0]), message[1..]);
      FeedBitsConcat(register, BitsOf(message[0], 8), MessageBits(message[1..]));
    }
  }

  /** For every buffer the table-driven checksum is the bit-at-a-time CRC-32. */
  lemma {:induction false} ChecksumIsReference(message: seq<byte>)
    ensures Checksum(message) == Reference(message)
  {
    RegisterIsBitwise(ALL_ONES, message);
  }

  /** The state before the final inversion composes over concatenation. */
  lemma {:induction false} RegisterConcat(register: nat, a: seq<byte>, b: seq<byte>)
    ensures Register(register, a + b) == Register(Register(register, a), b)
    decreases |a|
  {
    if a == [] {
      assert a + b == b;
    } else {
      assert (a + b)[1..] == a[1..] + b;
      RegisterConcat(ByTable(register, a[0]), a[1..], b);
    }
  }

  lemma {:induction false} RegisterWord(register: word, message: seq<byte>)
    ensures Register(register, message) < 0x1_0000_0000
    decreases |message|
  {
    if message != [] {
      XorWord(register, message[0]);
      ByTableIsEightSteps(register, message[0]);
      StepsWord(Xor(register, message[0]), 8);
      RegisterWord(ByTable(register, message[0]), message[1..]);
    }
  }

  lemma {:induction false} ChecksumWord(message: seq<byte>)
    ensures Checksum(message) < 0x1_0000_0000
  {
    RegisterWord(ALL_ONES, message);
    XorWord(Register(ALL_ONES, message), ALL_ONES);
  }

  // ----- error detection -----

  /** The message read as one little-endian number. */
  function LittleEndian(message: seq<byte>): nat {
    if message == [] then 0 else message[0] + 256 * LittleEndian(message[1..])
  }

  /** A whole message acts on the register as one number, shifted out bit by bit. */
  lemma {:induction false} RegisterIsDivision(register: nat, message: seq<byte>)
    ensures Register(register, message) == Steps(Xor(register, LittleEndian(message)), 8 * |message|)
    decreases |message|
  {
    if message == [] {
      XorComm(register, 0);
    } else {
      var b, rest := message[0], LittleEndian(message[1..]);
      Pow2Is32();
      calc {
        Register(register, message);
        { ByTableIsEightSteps(register, b);
          RegisterIsDivision(ByTable(register, b), message[1..]); }
        Steps(Xor(Steps(Xor(register, b), 8), rest), 8 * |message[1..]|);
        { StepsShift(Xor(register, b), rest, 8); }
        Steps(Steps(Xor(Xor(register, b), 256 * rest), 8), 8 * |message[1..]|);
        { StepsAdd(Xor(Xor(register, b), 256 * rest), 8, 8 * |message[1..]|); }
        Steps(Xor(Xor(register, b), 256 * rest), 8 * |message|);
        { XorAssoc(register, b, 256 * rest); XorDisjoint(b, rest, 8); }
        Steps(Xor(register, LittleEndian(message)), 8 * |message|);
      }
    }
  }

  lemma {:induction false} LittleEndianInjective(a: seq<byte>, b: seq<byte>)
    requires |a| == |b| && LittleEndian(a) == LittleEndian(b)
    ensures a == b
  {
    if a != [] {
      LittleEndianInjective(a[1..], b[1..]);
      assert a == [a[0]] + a[1..] && b == [b[0]] + b[1..];
    }
  }

  lemma {:induction false} LittleEndianWord(a: seq<byte>)
    requires |a| <= 4
    ensures LittleEndian(a) < 0x1_0000_0000
  {
    LittleEndianBound(a);
    if |a| == 0 {
    } else if |a| == 1 {
      assert Pow256(1) == 256;
    } else if |a| == 2 {
      assert Pow256(2) == 65536;
    } else if |a| == 3 {
      assert Pow256(3) == 0x100_0000;
    } else {
      assert Pow256(4) == 256 * Pow256(3) == 0x1_0000_0000;
    }
  }

  function Pow256(n: nat): nat {
    if n == 0 then 1 else 256 * Pow256(n - 1)
  }

  lemma {:induction false} LittleEndianBound(a: seq<byte>)
    ensures LittleEndian(a) < Pow256(|a|)
  {
    if a != [] {
      LittleEndianBound(a[1..]);
    }
  }

  /** Equal-length messages of at most four bytes never collide from one register value. */
  lemma {:induction false} ShortMessagesDiffer(register: word, u: seq<byte>, v: seq<byte>)
    requires |u| == |v| <= 4
    requires Register(register, u) == Register(register, v)
    ensures u == v
  {
    RegisterIsDivision(register, u);
    RegisterIsDivision(register, v);
    LittleEndianWord(u);
    LittleEndianWord(v);
    XorWord(register, LittleEndian(u));
    XorWord(register, LittleEndian(v));
    StepsInjective(Xor(register, LittleEndian(u)), Xor(register, LittleEndian(v)), 8 * |u|);
    XorCancel(register, LittleEndian(u), LittleEndian(v));
    LittleEndianInjective(u, v);
  }

  /** Two register values that differ stay different over any common continuation. */
  lemma {:induction false} RegisterInjective(x: word, y: word, message: seq<byte>)
    requires Register(x, message) == Register(y, message)
    ensures x == y
    decreases |message|
  {
    if message != [] {
      var b := message[0];
      ByTableIsEightSteps(x, b);
      ByTableIsEightSteps(y, b);
      XorWord(x, b);
      XorWord(y, b);
      StepsWord(Xor(x, b), 8);
      StepsWord(Xor(y, b), 8);
      RegisterInjective(ByTable(x, b), ByTable(y, b), message[1..]);
      StepsInjective(Xor(x, b), Xor(y, b), 8);
      XorComm(x, b);
      XorComm(y, b);
      XorCancel(b, x, y);
    }
  }

  /** `a` and `b` may differ only in the four bytes that start at `at`. */
  ghost predicate DifferWithinFourBytes(a: seq<byte>, b: seq<byte>, at: nat) {
    && |a| == |b|
    && a != b
    && forall j :: 0 <= j < |a| && (j < at || at + 4 <= j) ==> a[j] == b[j]
  }

  /** Any change confined to four consecutive bytes changes the checksum, at any length. */
  lemma {:induction false} ChecksumDetectsBurst(a: seq<byte>, b: seq<byte>, at: nat)
    requires DifferWithinFourBytes(a, b, at)
    ensures Checksum(a) != Checksum(b)
  {
    var lo := if at < |a| then at else |a|;
    var hi := if at + 4 < |a| then at + 4 else |a|;
    var p, u, s := a[..lo], a[lo..hi], a[hi..];
    var v := b[lo..hi];
    assert a == p + (u + s);
    assert b == p + (v + s) by {
      assert b[..lo] == p && b[hi..] == s;
    }
    if Checksum(a) == Checksum(b) {
      XorComm(Register(ALL_ONES, a), ALL_ONES);
      XorComm(Register(ALL_ONES, b), ALL_ONES);
      XorCancel(ALL_ONES, Register(ALL_ONES, a), Register(ALL_ONES, b));
      var r := Register(ALL_ONES, p);
      RegisterWord(ALL_ONES, p);
      RegisterConcat(ALL_ONES, p, u + s);
      RegisterConcat(ALL_ONES, p, v + s);
      RegisterConcat(r, u, s);
      RegisterConcat(r, v, s);
      RegisterWord(r, u);
      RegisterWord(r, v);
      RegisterInjective(Register(r, u), Register(r, v), s);
      ShortMessagesDiffer(r, u, v);
      assert false;
    }
  }

  // ----- the code -----

  ghost predicate IsTable(table: array<word>)
    reads table
  {
    table.Length == 256 && forall i: byte :: table[i] == TableEntry(i)
  }

  method BuildTable() returns (table: array<word>)
    ensures fresh(table) && IsTable(table)
  {
    table := new word[256];
    for index := 0 to 256
      invariant table.Length == 256
      invariant forall i: byte :: i < index ==> table[i] == TableEntry(i)
    {
      var value := BuildEntry(index);
      table[index] := value;
    }
  }

  method BuildEntry(index: byte) returns (value: word)
    ensures value == TableEntry(index)
  {
    value := index;
    ghost var bits := 8;
    for bit := 0 to 8
      invariant Steps(value, bits - bit) == Steps(index, bits)
    {
      BitStepWord(value);
      if value % 2 == 1 {
        value := Xor(POLYNOMIAL, value / 2);
      } else {
        value := value / 2;
      }
    }
  }

  /** The checksum loop: whatever table `BuildTable` made, the result is the reference CRC-32. */
  method Compute(table: array<word>, buffer: seq<byte>) returns (checksum: word)
    requires IsTable(table)
    ensures checksum == Reference(buffer)
  {
    var crc: word := ALL_ONES;
    for i := 0 to |buffer|
      invariant crc == Register(ALL_ONES, buffer[..i])
    {
      var b := buffer[i];
      assert buffer[..i + 1] == buffer[..i] + [b];
      RegisterConcat(ALL_ONES, buffer[..i], [b]);
      RegisterWord(ALL_ONES, buffer[..i + 1]);
      assert Register(crc, [b]) == ByTable(crc, b);
      crc := Xor(table[Xor(crc, b) % 256], crc / 256);
    }
    assert buffer[..|buffer|] == buffer;
    ChecksumWord(buffer);
    ChecksumIsReference(buffer);
    checksum := Xor(crc, ALL_ONES);
  }
}
