/**
 The two PNG checksums. CRC-32 is compared with bit-serial division by the
 reflected polynomial (section 3.4 of RFC 2083), Adler-32 with its closed-form
 weighted sums (section 2.2 of RFC 1950).
 */
module Checksums {
  import opened Bytes

  // ------------------------------------------------------------------
  // Unsigned words as their bits, least significant first.

  function Repeat(bit: bool, n: nat): (bits: seq<bool>)
    ensures |bits| == n && forall i :: 0 <= i < n ==> bits[i] == bit
  {
    if n == 0 then [] else [bit] + Repeat(bit, n - 1)
  }

  function ValueOf(bits: seq<bool>): nat {
    if bits == [] then 0 else (if bits[0] then 1 else 0) + 2 * ValueOf(bits[1..])
  }

  function BitsOf(value: nat, n: nat): (bits: seq<bool>)
    ensures |bits| == n
  {
    if n == 0 then [] else [value % 2 == 1] + BitsOf(value / 2, n - 1)
  }

  function Pow2(n: nat): nat { if n == 0 then 1 else 2 * Pow2(n - 1) }

  lemma {:induction false} BitsOfValue(bits: seq<bool>)
    ensures BitsOf(ValueOf(bits), |bits|) == bits && ValueOf(bits) < Pow2(|bits|)
  {
    if bits != [] { BitsOfValue(bits[1..]); }
  }

  type Word = w: seq<bool> | |w| == 32 witness Repeat(false, 32)

  function XorBits(a: seq<bool>, b: seq<bool>): (bits: seq<bool>)
    requires |a| == |b|
    ensures |bits| == |a| && forall i :: 0 <= i < |a| ==> bits[i] == (a[i] != b[i])
  {
    if a == [] then [] else [a[0] != b[0]] + XorBits(a[1..], b[1..])
  }

  function Xor(a: Word, b: Word): Word { XorBits(a, b) }

  function ShiftRight(w: Word, n: nat): Word
    requires n <= 32
  {
    w[n..] + Repeat(false, n)
  }

  function ToWord(bits: seq<bool>): Word
    requires |bits| <= 32
  {
    bits + Repeat(false, 32 - |bits|)
  }

  const ALL_ONES: Word := [
    true, true, true, true, true, true, true, true,
    true, true, true, true, true, true, true, true,
    true, true, true, true, true, true, true, true,
    true, true, true, true, true, true, true, true]

  /** 0xEDB88320, least significant bit first. */
  const POLYNOMIAL: Word := [
    false, false, false, false, false, true, false, false, true, true, false, false, false, false, false, true,
    false, false, false, true, true, true, false, true, true, false, true, true, false, true, true, true]

  function Bit(b: bool): nat { if b then 1 else 0 }

  function Nibble(w: seq<bool>, n: nat): nat
    requires n + 4 <= |w|
  {
    Bit(w[n]) + 2 * Bit(w[n + 1]) + 4 * Bit(w[n + 2]) + 8 * Bit(w[n + 3])
  }

  lemma ValueFrom(w: seq<bool>, n: nat)
    requires n < |w|
    ensures ValueOf(w[n..]) == Bit(w[n]) + 2 * ValueOf(w[n + 1..])
  {
    assert w[n..][1..] == w[n + 1..];
  }

  lemma NibbleFrom(w: seq<bool>, n: nat)
    requires n + 4 <= |w|
    ensures ValueOf(w[n..]) == Nibble(w, n) + 16 * ValueOf(w[n + 4..])
  {
    ValueFrom(w, n);
    ValueFrom(w, n + 1);
    ValueFrom(w, n + 2);
    ValueFrom(w, n + 3);
  }

  /** The number from bit n on, read from the nibbles of its hexadecimal form. */
  lemma FourNibbles(w: seq<bool>, n: nat)
    requires n + 16 <= |w|
    ensures ValueOf(w[n..]) == Nibble(w, n) + 16 * Nibble(w, n + 4) + 256 * Nibble(w, n + 8) + 4096 * Nibble(w, n + 12)
                             + 65536 * ValueOf(w[n + 16..])
  {
    NibbleFrom(w, n);
    NibbleFrom(w, n + 4);
    NibbleFrom(w, n + 8);
    NibbleFrom(w, n + 12);
  }

  lemma WordOf(w: Word, low: nat, high: nat)
    requires low == Nibble(w, 0) + 16 * Nibble(w, 4) + 256 * Nibble(w, 8) + 4096 * Nibble(w, 12)
    requires high == Nibble(w, 16) + 16 * Nibble(w, 20) + 256 * Nibble(w, 24) + 4096 * Nibble(w, 28)
    ensures ValueOf(w) == low + 65536 * high
  {
    FourNibbles(w, 0);
    FourNibbles(w, 16);
    assert w[0..] == w && w[32..] == [] && ValueOf(w[32..]) == 0;
  }

  lemma LowNibbles()
    ensures Nibble(POLYNOMIAL, 0) == 0 && Nibble(POLYNOMIAL, 4) == 2
    ensures Nibble(POLYNOMIAL, 8) == 3 && Nibble(POLYNOMIAL, 12) == 8
  {
  }

  lemma HighNibbles()
    ensures Nibble(POLYNOMIAL, 16) == 8 && Nibble(POLYNOMIAL, 20) == 11
    ensures Nibble(POLYNOMIAL, 24) == 13 && Nibble(POLYNOMIAL, 28) == 14
  {
  }

  /** The polynomial is the number the program writes. */
  lemma PolynomialValue()
    ensures ValueOf(POLYNOMIAL) == 0xEDB8_8320
  {
    LowNibbles();
    HighNibbles();
    WordOf(POLYNOMIAL, 0x8320, 0xEDB8);
  }

  // ------------------------------------------------------------------
  // CRC-32.

  /** The register after one more bit position: shifted, and reduced by the
      polynomial if a one fell out. */
  function Shift(c: Word): Word {
    if c[0] then Xor(POLYNOMIAL, ShiftRight(c, 1)) else ShiftRight(c, 1)
  }

  function ShiftTimes(c: Word, n: nat): Word
    decreases n
  {
    if n == 0 then c else ShiftTimes(Shift(c), n - 1)
  }

  /** Bit-serial division: the register after the message bits, first bit first. */
  function Divide(c: Word, bits: seq<bool>): Word
    decreases |bits|
  {
    if bits == [] then c else Divide(Shift(c[0 := c[0] != bits[0]]), bits[1..])
  }

  function MessageBits(data: seq<byte>): seq<bool> {
    if data == [] then [] else MessageBits(data[..|data| - 1]) + BitsOf(data[|data| - 1], 8)
  }

  /** The division register after a message. */
  function Register(data: seq<byte>): Word { Divide(ALL_ONES, MessageBits(data)) }

  function Crc(data: seq<byte>): Word { Xor(Register(data), ALL_ONES) }

  lemma XorProperties(a: Word, b: Word, m: Word)
    ensures Xor(Xor(a, b), m) == Xor(Xor(a, m), b)
    ensures Xor(a, b) == Xor(b, a)
    ensures Xor(Xor(a, b), b) == a
    ensures ShiftRight(Xor(a, b), 1) == Xor(ShiftRight(a, 1), ShiftRight(b, 1))
  {
  }

  /** Bits above the lowest pass through one step undisturbed. */
  lemma ShiftSplits(low: Word, high: Word)
    requires !high[0]
    ensures Shift(Xor(low, high)) == Xor(Shift(low), ShiftRight(high, 1))
  {
    var a, b := ShiftRight(low, 1), ShiftRight(high, 1);
    XorProperties(low, high, POLYNOMIAL);
    XorProperties(a, b, POLYNOMIAL);
    XorProperties(POLYNOMIAL, Xor(a, b), a);
    XorProperties(POLYNOMIAL, a, b);
  }

  lemma ShiftRightAgain(w: Word, n: nat)
    requires n < 32
    ensures ShiftRight(ShiftRight(w, 1), n) == ShiftRight(w, n + 1)
  {
  }

  lemma {:induction false} ShiftTimesSplits(low: Word, high: Word, n: nat)
    requires n <= 32 && forall i :: 0 <= i < n ==> !high[i]
    ensures ShiftTimes(Xor(low, high), n) == Xor(ShiftTimes(low, n), ShiftRight(high, n))
    decreases n
  {
    if n == 0 {
      assert ShiftRight(high, 0) == high;
    } else {
      ShiftSplits(low, high);
      ShiftTimesSplits(Shift(low), ShiftRight(high, 1), n - 1);
      ShiftRightAgain(high, n - 1);
    }
  }

  /** Feeding bits one at a time or all at once into the register agrees. */
  lemma {:induction false} DivideTogether(c: Word, bits: seq<bool>)
    requires |bits| <= 32
    ensures Divide(c, bits) == ShiftTimes(Xor(c, ToWord(bits)), |bits|)
    decreases |bits|
  {
    if bits == [] {
      assert Xor(c, ToWord(bits)) == c;
    } else {
      var first, rest := c[0 := c[0] != bits[0]], ToWord(bits)[0 := false];
      assert Xor(c, ToWord(bits)) == Xor(first, rest);
      ShiftSplits(first, rest);
      assert ShiftRight(rest, 1) == ToWord(bits[1..]);
      DivideTogether(Shift(first), bits[1..]);
    }
  }

  lemma {:induction false} DivideConcat(c: Word, a: seq<bool>, b: seq<bool>)
    ensures Divide(c, a + b) == Divide(Divide(c, a), b)
    decreases |a|
  {
    if a == [] {
      assert a + b == b;
    } else {
      assert (a + b)[1..] == a[1..] + b;
      DivideConcat(Shift(c[0 := c[0] != a[0]]), a[1..], b);
    }
  }

  // ------------------------------------------------------------------
  // The table.

  function TableEntry(n: nat): Word { ShiftTimes(BitsOf(n, 32), 8) }

  ghost predicate IsTable(table: array<Word>)
    reads table
  {
    table.Length == 256 && forall n :: 0 <= n < 256 ==> table[n] == TableEntry(n)
  }

  method BuildCrc32Table() returns (table: array<Word>)
    ensures fresh(table) && IsTable(table)
  {
    table := new Word[256](_ => Repeat(false, 32));
    FillTable(table, TableEntry);
  }

  /** `entry` gives the table's entries. */
  ghost predicate Enters(entry: nat -> Word) { forall n {:trigger TableEntry(n)} :: entry(n) == TableEntry(n) }

  method FillTable(table: array<Word>, ghost entry: nat -> Word)
    requires table.Length == 256 && Enters(entry)
    modifies table
    ensures forall n :: 0 <= n < 256 ==> table[n] == entry(n)
  {
    for n := 0 to 256
      invariant forall m :: 0 <= m < n ==> table[m] == entry(m)
    {
      table[n] := ShiftEight(n, entry);
    }
  }

  method ShiftEight(n: nat, ghost entry: nat -> Word) returns (c: Word)
    requires Enters(entry)
    ensures c == entry(n)
  {
    c := BitsOf(n, 32);
    for k := 0 to 8
      invariant ShiftTimes(c, 8 - k) == TableEntry(n)
    {
      c := Shift(c);
    }
  }

  lemma {:induction false} BitsOfPad(value: nat, n: nat, m: nat)
    requires value < Pow2(n)
    ensures BitsOf(value, n + m) == BitsOf(value, n) + Repeat(false, m)
  {
    if n > 0 {
      BitsOfPad(value / 2, n - 1, m);
    } else if m > 0 {
      BitsOfPad(0, 0, m - 1);
    }
  }

  lemma ByteSplit(x: Word, c: Word)
    requires x[8..] == c[8..]
    ensures x == Xor(ToWord(x[..8]), Repeat(false, 8) + x[8..])
    ensures ShiftRight(Repeat(false, 8) + x[8..], 8) == ShiftRight(c, 8)
  {
  }

  lemma EntryOfBits(bits: seq<bool>)
    requires |bits| == 8
    ensures ValueOf(bits) < 256 && TableEntry(ValueOf(bits)) == ShiftTimes(ToWord(bits), 8)
  {
    assert Pow2(8) == 256;
    BitsOfValue(bits);
    BitsOfPad(ValueOf(bits), 8, 24);
  }

  function Index(c: Word, b: byte): nat { ValueOf(Xor(c, BitsOf(b, 32))[..8]) }

  lemma ByteAsWord(b: byte)
    ensures BitsOf(b, 32) == ToWord(BitsOf(b, 8))
    ensures BitsOf(b, 32)[8..] == Repeat(false, 24)
  {
    assert Pow2(8) == 256;
    BitsOfPad(b, 8, 24);
  }

  /** One table look-up advances the register by a whole byte. */
  lemma ByteStep(c: Word, b: byte)
    ensures Index(c, b) < 256
    ensures Divide(c, BitsOf(b, 8)) == Xor(TableEntry(Index(c, b)), ShiftRight(c, 8))
  {
    var x := Xor(c, BitsOf(b, 32));
    ByteAsWord(b);
    assert x[8..] == c[8..];
    DivideTogether(c, BitsOf(b, 8));
    EntryOfBits(x[..8]);
    ByteSplit(x, c);
    ShiftTimesSplits(ToWord(x[..8]), Repeat(false, 8) + x[8..], 8);
  }

  lemma MessageStep(c: Word, data: seq<byte>, b: byte)
    requires c == Divide(ALL_ONES, MessageBits(data))
    ensures Index(c, b) < 256
    ensures Xor(TableEntry(Index(c, b)), ShiftRight(c, 8)) == Divide(ALL_ONES, MessageBits(data + [b]))
  {
    assert (data + [b])[..|data|] == data;
    DivideConcat(ALL_ONES, MessageBits(data), BitsOf(b, 8));
    ByteStep(c, b);
  }

  lemma PrefixGrows(data: seq<byte>, n: nat)
    requires n < |data|
    ensures data[..n + 1] == data[..n] + [data[n]]
  {
  }

  method TableStep(table: array<Word>, c: Word, b: byte, ghost seen: seq<byte>) returns (c': Word)
    requires IsTable(table) && c == Register(seen)
    ensures c' == Register(seen + [b])
  {
    MessageStep(c, seen, b);
    c' := Xor(table[Index(c, b)], ShiftRight(c, 8));
  }

  /** Table-driven CRC-32 of a byte range: exactly the bit-serial division. */
  method Crc32(table: array<Word>, data: seq<byte>, offset: nat, count: nat) returns (crc: Word)
    requires IsTable(table) && offset + count <= |data|
    ensures crc == Crc(data[offset..offset + count])
  {
    var c: Word := ALL_ONES;
    ghost var range := data[offset..offset + count];
    for i := 0 to count
      invariant c == Register(range[..i])
    {
      c := TableStep(table, c, data[offset + i], range[..i]);
      PrefixGrows(range, i);
    }
    assert range[..count] == range;
    crc := Xor(c, ALL_ONES);
  }

  // ------------------------------------------------------------------
  // Error detection.

  lemma SameMask(c: Word, u: Word, v: Word)
    requires Xor(c, u) == Xor(c, v)
    ensures u == v
  {
    XorProperties(u, c, c);
    XorProperties(v, c, c);
  }

  lemma TopBitTells(x: Word)
    ensures Shift(x)[31] == x[0]
  {
    assert POLYNOMIAL[31] && !ShiftRight(x, 1)[31];
  }

  lemma ShiftInjective(x: Word, y: Word)
    requires Shift(x) == Shift(y)
    ensures x == y
  {
    TopBitTells(x);
    TopBitTells(y);
    var sx, sy := ShiftRight(x, 1), ShiftRight(y, 1);
    if x[0] { SameMask(POLYNOMIAL, sx, sy); }
    assert sx[..31] == x[1..] && sy[..31] == y[1..];
    assert x == [x[0]] + x[1..] && y == [y[0]] + y[1..];
  }

  lemma ToWordInjective(u: seq<bool>, v: seq<bool>)
    requires |u| == |v| <= 32 && ToWord(u) == ToWord(v)
    ensures u == v
  {
    assert ToWord(u)[..|u|] == u && ToWord(v)[..|v|] == v;
  }

  /** `times` shifts a word so many times. */
  ghost predicate Shifts(times: (Word, nat) -> Word) {
    forall c, n {:trigger ShiftTimes(c, n)} :: times(c, n) == ShiftTimes(c, n)
  }

  /** One shift of each: fewer shifts remain, and nothing is forgotten. */
  lemma OneShiftLess(times: (Word, nat) -> Word, x: Word, y: Word, n: nat) returns (x': Word, y': Word)
    requires Shifts(times) && n > 0
    ensures times(x', n - 1) == times(x, n) && times(y', n - 1) == times(y, n)
    ensures x' == y' ==> x == y
  {
    x', y' := Shift(x), Shift(y);
    assert ShiftTimes(x', n - 1) == ShiftTimes(x, n) && ShiftTimes(y', n - 1) == ShiftTimes(y, n);
    if x' == y' { ShiftInjective(x, y); }
  }

  lemma NoShift(times: (Word, nat) -> Word, x: Word)
    requires Shifts(times)
    ensures times(x, 0) == x
  {
    assert ShiftTimes(x, 0) == x;
  }

  lemma {:induction false} TimesInjective(times: (Word, nat) -> Word, x: Word, y: Word, n: nat)
    requires Shifts(times) && times(x, n) == times(y, n)
    ensures x == y
    decreases n
  {
    if n > 0 {
      var x', y' := OneShiftLess(times, x, y, n);
      TimesInjective(times, x', y', n - 1);
    } else {
      NoShift(times, x);
      NoShift(times, y);
    }
  }

  lemma ShiftTimesInjective(x: Word, y: Word, n: nat)
    requires ShiftTimes(x, n) == ShiftTimes(y, n)
    ensures x == y
  {
    TimesInjective(ShiftTimes, x, y, n);
  }

  lemma {:induction false} DivideInjective(x: Word, y: Word, bits: seq<bool>)
    requires Divide(x, bits) == Divide(y, bits)
    ensures x == y
    decreases |bits|
  {
    if bits != [] {
      var x', y' := x[0 := x[0] != bits[0]], y[0 := y[0] != bits[0]];
      DivideInjective(Shift(x'), Shift(y'), bits[1..]);
      ShiftInjective(x', y');
      FlipBack(x, y, bits[0]);
    }
  }

  lemma FlipBack(x: Word, y: Word, bit: bool)
    requires x[0 := x[0] != bit] == y[0 := y[0] != bit]
    ensures x == y
  {
    var x', y' := x[0 := x[0] != bit], y[0 := y[0] != bit];
    assert x'[0] == y'[0] && x'[1..] == y'[1..];
    assert x == [x[0]] + x'[1..] && y == [y[0]] + y'[1..];
  }

  lemma DivideThree(c: Word, before: seq<bool>, u: seq<bool>, after: seq<bool>)
    ensures Divide(c, before + u + after) == Divide(Divide(Divide(c, before), u), after)
  {
    DivideConcat(c, before + u, after);
    DivideConcat(c, before, u);
  }

  lemma SameShiftsSameBits(c: Word, u: seq<bool>, v: seq<bool>, x: Word, y: Word)
    requires |u| == |v| <= 32 && x == Xor(c, ToWord(u)) && y == Xor(c, ToWord(v)) && x == y
    ensures u == v
  {
    SameMask(c, ToWord(u), ToWord(v));
    ToWordInjective(u, v);
  }

  lemma SameRegisterSameWindow(c: Word, u: seq<bool>, v: seq<bool>)
    requires |u| == |v| <= 32 && Divide(c, u) == Divide(c, v)
    ensures u == v
  {
    DivideTogether(c, u);
    DivideTogether(c, v);
    var x, y := Xor(c, ToWord(u)), Xor(c, ToWord(v));
    ShiftTimesInjective(x, y, |u|);
    SameShiftsSameBits(c, u, v, x, y);
  }

  lemma SameCrcSameWindow(c: Word, before: seq<bool>, u: seq<bool>, v: seq<bool>, after: seq<bool>)
    requires |u| == |v| <= 32 && Divide(c, before + u + after) == Divide(c, before + v + after)
    ensures u == v
  {
    DivideThree(c, before, u, after);
    DivideThree(c, before, v, after);
    var register := Divide(c, before);
    DivideInjective(Divide(register, u), Divide(register, v), after);
    SameRegisterSameWindow(register, u, v);
  }

  /** Two messages that differ only within 32 consecutive bits always have
      different checksums: no such burst of errors goes unnoticed. */
  lemma BurstDetected(a: seq<byte>, b: seq<byte>, before: seq<bool>, u: seq<bool>, v: seq<bool>, after: seq<bool>)
    requires MessageBits(a) == before + u + after && MessageBits(b) == before + v + after
    requires |u| == |v| <= 32 && u != v
    ensures Crc(a) != Crc(b)
  {
    if Crc(a) == Crc(b) {
      XorProperties(Divide(ALL_ONES, MessageBits(a)), ALL_ONES, ALL_ONES);
      XorProperties(Divide(ALL_ONES, MessageBits(b)), ALL_ONES, ALL_ONES);
      SameCrcSameWindow(ALL_ONES, before, u, v, after);
    }
  }

  // ------------------------------------------------------------------
  // Adler-32.

  const BASE := 65521

  function ByteSum(data: seq<byte>): nat {
    if data == [] then 0 else ByteSum(data[..|data| - 1]) + data[|data| - 1]
  }

  /** Each byte weighted by the number of bytes from it to the end. */
  function WeightedSum(data: seq<byte>): nat {
    if data == [] then 0 else WeightedSum(data[..|data| - 1]) + ByteSum(data)
  }

  /** The closed form of section 2.2 of RFC 1950. */
  function Adler(data: seq<byte>): nat {
    (|data| + WeightedSum(data)) % BASE * 65536 + (1 + ByteSum(data)) % BASE
  }

  lemma AddMod(x: nat, y: nat)
    ensures (x % BASE + y) % BASE == (x + y) % BASE && (x + y % BASE) % BASE == (x + y) % BASE
  {
  }

  function LowSum(data: seq<byte>): nat { (1 + ByteSum(data)) % BASE }
  function HighSum(data: seq<byte>): nat { (|data| + WeightedSum(data)) % BASE }

  lemma AdlerStep(data: seq<byte>, d: byte)
    ensures LowSum(data + [d]) == (LowSum(data) + d) % BASE
    ensures HighSum(data + [d]) == (HighSum(data) + LowSum(data + [d])) % BASE
  {
    assert (data + [d])[..|data|] == data;
    AddMod(1 + ByteSum(data), d);
    AddMod(|data| + WeightedSum(data), LowSum(data + [d]));
    AddMod(|data| + WeightedSum(data), 1 + ByteSum(data + [d]));
  }

  /** The running form, reduced after every byte. */
  method Adler32(data: seq<byte>) returns (adler: nat)
    ensures adler == Adler(data) && adler < 0x1_0000_0000
  {
    var a: nat, b: nat := 1, 0;
    for i := 0 to |data|
      invariant a == LowSum(data[..i]) && b == HighSum(data[..i])
    {
      AdlerStep(data[..i], data[i]);
      assert data[..i + 1] == data[..i] + [data[i]];
      a := (a + data[i] as nat) % BASE;
      b := (b + a) % BASE;
    }
    assert data[..|data|] == data;
    adler := b * 65536 + a;
  }

  /** The weight of the byte at position i is the distance from it to the end. */
  lemma {:induction false} WeightedSumClosed(data: seq<byte>)
    ensures WeightedSum(data) == DistanceSum(data, |data|)
  {
    if data != [] {
      var n := |data|;
      WeightedSumClosed(data[..n - 1]);
      DistanceShift(data, n - 1);
    }
  }

  function DistanceSum(data: seq<byte>, n: nat): nat
    requires n <= |data|
  {
    if n == 0 then 0 else DistanceSum(data, n - 1) + (|data| - (n - 1)) * (data[n - 1] as nat)
  }

  lemma {:induction false} DistanceShift(data: seq<byte>, n: nat)
    requires data != [] && n < |data|
    ensures DistanceSum(data, n) == DistanceSum(data[..|data| - 1], n) + ByteSum(data[..n])
  {
    if n > 0 {
      DistanceShift(data, n - 1);
      assert data[..n][..n - 1] == data[..n - 1];
      var w: nat, x: nat := |data| - (n - 1), data[n - 1];
      assert w * x == (w - 1) * x + x;
    }
  }

  /** Adler-32 with every byte weighted by its distance from the end, modulo 65521. */
  lemma AdlerExactly(data: seq<byte>)
    ensures Adler(data)
         == (|data| + DistanceSum(data, |data|)) % 65521 * 0x1_0000 + (1 + ByteSum(data)) % 65521
  {
    WeightedSumClosed(data);
  }
}
