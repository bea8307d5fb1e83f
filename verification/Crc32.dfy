/** The frame checksum: the reflected CRC-32 of section 8 of RFC 1952, and what it detects. */
module Crc32s {
  import opened Bytes

  const POLYNOMIAL: bv32 := 0xEDB8_8320

  /** One bit: shift right, folding the polynomial in when a one falls out. */
  function ShiftBit(crc: bv32): bv32 {
    (crc >> 1) ^ (POLYNOMIAL & (0 - (crc & 1)))
  }

  function ShiftBits(crc: bv32, bits: nat): bv32
    decreases bits
  {
    if bits == 0 then crc else ShiftBits(ShiftBit(crc), bits - 1)
  }

  function Xor(a: bv32, b: bv32): bv32 {
    a ^ b
  }

  function Extend(byte: Byte): bv32 {
    byte as bv32
  }

  function AddByte(crc: bv32, byte: Byte): bv32 {
    ShiftBits(Xor(crc, Extend(byte)), 8)
  }

  function AddBytes(crc: bv32, bytes: Data): bv32
    decreases |bytes|
  {
    if bytes == [] then crc else AddByte(AddBytes(crc, bytes[..|bytes| - 1]), bytes[|bytes| - 1])
  }

  function Checksum(bytes: Data): bv32 {
    Xor(AddBytes(0xFFFF_FFFF, bytes), 0xFFFF_FFFF)
  }

  /** The source's nested loops. */
  method Crc32(bytes: Data) returns (crc: bv32)
    ensures crc == Checksum(bytes)
  {
    hide AddByte;
    crc := 0xFFFF_FFFF;
    for k := 0 to |bytes|
      invariant crc == AddBytes(0xFFFF_FFFF, bytes[..k])
    {
      crc := TakeByte(crc, bytes[k]);
      assert bytes[..k + 1][..k] == bytes[..k];
    }
    assert bytes[..|bytes|] == bytes;
    crc := !crc;
    Complement(AddBytes(0xFFFF_FFFF, bytes));
  }

  method TakeByte(start: bv32, byte: Byte) returns (crc: bv32)
    ensures crc == AddByte(start, byte)
  {
    hide ShiftBit;
    crc := Xor(start, Extend(byte));
    for bit := 0 to 8
      invariant ShiftBits(crc, 8 - bit) == AddByte(start, byte)
    {
      crc := TakeBit(crc);
    }
  }

  method TakeBit(start: bv32) returns (crc: bv32)
    ensures crc == ShiftBit(start)
  {
    var mask := 0 - (start & 1);
    crc := (start >> 1) ^ (POLYNOMIAL & mask);
  }

  lemma Complement(x: bv32)
    ensures !x == Xor(x, 0xFFFF_FFFF)
  {
  }

  // ---------------------------------------------------------------- injectivity

  /** The polynomial has its top bit set, so the bit that fell out can be read off the result. */
  lemma ShiftBitInjective(x: bv32, y: bv32)
    requires ShiftBit(x) == ShiftBit(y)
    ensures x == y
  {
  }

  lemma {:induction false} ShiftBitsInjective(x: bv32, y: bv32, bits: nat)
    requires ShiftBits(x, bits) == ShiftBits(y, bits)
    ensures x == y
    decreases bits
  {
    if bits > 0 {
      ShiftBitsInjective(ShiftBit(x), ShiftBit(y), bits - 1);
      ShiftBitInjective(x, y);
    }
  }

  lemma XorInjective(x: bv32, y: bv32, k: bv32)
    requires Xor(x, k) == Xor(y, k)
    ensures x == y
  {
  }

  lemma AddByteInjective(x: bv32, y: bv32, byte: Byte)
    requires AddByte(x, byte) == AddByte(y, byte)
    ensures x == y
  {
    hide ShiftBits;
    hide Extend;
    hide Xor;
    var k := Extend(byte);
    ShiftBitsInjective(Xor(x, k), Xor(y, k), 8);
    XorInjective(x, y, k);
  }

  /** The same bytes appended to different states keep them different. */
  lemma {:induction false} AddBytesInjective(x: bv32, y: bv32, bytes: Data)
    requires AddBytes(x, bytes) == AddBytes(y, bytes)
    ensures x == y
    decreases |bytes|
  {
    hide AddByte;
    if bytes != [] {
      var last := |bytes| - 1;
      AddByteInjective(AddBytes(x, bytes[..last]), AddBytes(y, bytes[..last]), bytes[last]);
      AddBytesInjective(x, y, bytes[..last]);
    }
  }

  lemma {:induction false} AddBytesConcat(crc: bv32, a: Data, b: Data)
    ensures AddBytes(crc, a + b) == AddBytes(AddBytes(crc, a), b)
    decreases |b|
  {
    hide AddByte;
    if b == [] {
      assert a + b == a;
    } else {
      var last := |b| - 1;
      AddBytesConcat(crc, a, b[..last]);
      assert (a + b)[..|a + b| - 1] == a + b[..last];
    }
  }

  // ---------------------------------------------------------------- bursts

  function Up(x: bv32): bv32 {
    x << 1
  }

  function UpByte(x: bv32): bv32 {
    x << 8
  }

  predicate Low(x: bv32) {
    x <= 0x7FFF_FFFF
  }

  lemma UpEight(x: bv32)
    ensures UpByte(x) == Up(Up(Up(Up(Up(Up(Up(Up(x))))))))
  {
  }

  lemma UpStaysLow(x: bv32)
    requires x <= 0xFF_FFFF
    ensures Low(x) && Low(Up(x)) && Low(Up(Up(x))) && Low(Up(Up(Up(x))))
    ensures Low(Up(Up(Up(Up(x))))) && Low(Up(Up(Up(Up(Up(x)))))) && Low(Up(Up(Up(Up(Up(Up(x)))))))
    ensures Low(Up(Up(Up(Up(Up(Up(Up(x))))))))
  {
  }

  /** A bit that has not reached the bottom only moves down. */
  lemma ShiftCarries(crc: bv32, high: bv32)
    requires Low(high)
    ensures ShiftBit(Xor(crc, Up(high))) == Xor(ShiftBit(crc), high)
  {
    hide ShiftBit;
    ShiftCarriesBits(crc, high);
  }

  lemma ShiftCarriesBits(crc: bv32, high: bv32)
    requires high <= 0x7FFF_FFFF
    ensures ShiftBit(crc ^ (high << 1)) == ShiftBit(crc) ^ high
  {
  }

  lemma EightShifts(x: bv32)
    ensures ShiftBits(x, 8)
         == ShiftBit(ShiftBit(ShiftBit(ShiftBit(ShiftBit(ShiftBit(ShiftBit(ShiftBit(x))))))))
  {
    hide ShiftBit;
    var x1 := ShiftBit(x);
    var x2 := ShiftBit(x1);
    var x3 := ShiftBit(x2);
    var x4 := ShiftBit(x3);
    var x5 := ShiftBit(x4);
    var x6 := ShiftBit(x5);
    var x7 := ShiftBit(x6);
    assert ShiftBits(x, 8) == ShiftBits(x1, 7) == ShiftBits(x2, 6) == ShiftBits(x3, 5);
    assert ShiftBits(x3, 5) == ShiftBits(x4, 4) == ShiftBits(x5, 3) == ShiftBits(x6, 2) == ShiftBits(x7, 1);
  }

  /** Eight steps move everything above the lowest byte down by a byte. */
  lemma ByteCarries(crc: bv32, high: bv32)
    requires high <= 0xFF_FFFF
    ensures ShiftBits(Xor(crc, UpByte(high)), 8) == Xor(ShiftBits(crc, 8), high)
  {
    UpStaysLow(high);
    UpEight(high);
    hide *;
    var h1 := Up(high);
    var h2 := Up(h1);
    var h3 := Up(h2);
    var h4 := Up(h3);
    var h5 := Up(h4);
    var h6 := Up(h5);
    var h7 := Up(h6);
    var c1 := ShiftBit(crc);
    var c2 := ShiftBit(c1);
    var c3 := ShiftBit(c2);
    var c4 := ShiftBit(c3);
    var c5 := ShiftBit(c4);
    var c6 := ShiftBit(c5);
    var c7 := ShiftBit(c6);
    ShiftCarries(crc, h7);
    ShiftCarries(c1, h6);
    ShiftCarries(c2, h5);
    ShiftCarries(c3, h4);
    ShiftCarries(c4, h3);
    ShiftCarries(c5, h2);
    ShiftCarries(c6, h1);
    ShiftCarries(c7, high);
    EightShifts(crc);
    EightShifts(Xor(crc, UpByte(high)));
  }

  /** Up to four bytes as one word, first byte lowest. */
  function Word(bytes: Data): bv32
    decreases |bytes|
  {
    if bytes == [] then 0 else Xor(Extend(bytes[0]), UpByte(Word(bytes[1..])))
  }

  lemma {:induction false} WordBound(bytes: Data)
    requires |bytes| <= 3
    ensures Word(bytes) <= 0xFF_FFFF
    ensures |bytes| <= 2 ==> Word(bytes) <= 0xFFFF
    ensures |bytes| <= 1 ==> Word(bytes) <= 0xFF
    ensures |bytes| == 0 ==> Word(bytes) == 0
    decreases |bytes|
  {
    hide Xor;
    hide Extend;
    hide UpByte;
    if bytes != [] {
      WordBound(bytes[1..]);
      HighBound(bytes[0], Word(bytes[1..]));
    }
  }

  lemma HighBound(byte: Byte, high: bv32)
    ensures high <= 0xFFFF ==> Xor(Extend(byte), UpByte(high)) <= 0xFF_FFFF
    ensures high <= 0xFF ==> Xor(Extend(byte), UpByte(high)) <= 0xFFFF
    ensures high == 0 ==> Xor(Extend(byte), UpByte(high)) <= 0xFF
  {
  }

  /** The lowest byte and the rest of a word determine each other apart. */
  lemma SplitInjective(a: Byte, b: Byte, x: bv32, y: bv32)
    requires x <= 0xFF_FFFF && y <= 0xFF_FFFF
    requires Xor(Extend(a), UpByte(x)) == Xor(Extend(b), UpByte(y))
    ensures a == b && x == y
  {
  }

  lemma {:induction false} WordInjective(a: Data, b: Data)
    requires |a| == |b| <= 4 && Word(a) == Word(b)
    ensures a == b
    decreases |a|
  {
    hide Xor;
    hide Extend;
    hide UpByte;
    if a != [] {
      WordBound(a[1..]);
      WordBound(b[1..]);
      SplitInjective(a[0], b[0], Word(a[1..]), Word(b[1..]));
      WordInjective(a[1..], b[1..]);
      assert a == [a[0]] + a[1..] && b == [b[0]] + b[1..];
    }
  }

  lemma {:induction false} ShiftBitsAdd(crc: bv32, a: nat, b: nat)
    ensures ShiftBits(ShiftBits(crc, a), b) == ShiftBits(crc, a + b)
    decreases a
  {
    hide ShiftBit;
    if a > 0 {
      ShiftBitsAdd(ShiftBit(crc), a - 1, b);
    }
  }

  lemma XorAssociates(a: bv32, b: bv32, c: bv32)
    ensures Xor(Xor(a, b), c) == Xor(a, Xor(b, c))
  {
    XorAssociatesBits(a, b, c);
  }

  lemma XorAssociatesBits(a: bv32, b: bv32, c: bv32)
    ensures (a ^ b) ^ c == a ^ (b ^ c)
  {
  }

  lemma XorCommutes(a: bv32, b: bv32)
    ensures Xor(a, b) == Xor(b, a)
  {
  }

  lemma XorZero(a: bv32)
    ensures Xor(a, 0) == a
  {
  }

  /** Up to four bytes enter the state as one word that is then shifted through. */
  lemma {:induction false} BurstIsWord(crc: bv32, bytes: Data)
    requires |bytes| <= 4
    ensures AddBytes(crc, bytes) == ShiftBits(Xor(crc, Word(bytes)), 8 * |bytes|)
    decreases |bytes|
  {
    hide ShiftBit;
    hide Extend;
    hide UpByte;
    hide Xor;
    if bytes == [] {
      XorZero(crc);
    } else {
      var first, rest := bytes[0], bytes[1..];
      assert bytes == [first] + rest;
      AddBytesConcat(crc, [first], rest);
      assert AddBytes(crc, [first]) == AddByte(AddBytes(crc, []), first);
      WordBound(rest);
      BurstIsWord(AddByte(crc, first), rest);
      ByteCarries(Xor(crc, Extend(first)), Word(rest));
      XorAssociates(crc, Extend(first), UpByte(Word(rest)));
      ShiftBitsAdd(Xor(crc, Word(bytes)), 8, 8 * |rest|);
    }
  }

  /**
    Any two messages of equal length that differ only within four consecutive bytes have different
    checksums.
  */
  lemma DetectsBurst(before: Data, a: Data, b: Data, after: Data)
    requires |a| == |b| <= 4 && a != b
    ensures Checksum(before + a + after) != Checksum(before + b + after)
  {
    if Checksum(before + a + after) == Checksum(before + b + after) {
      hide Xor;
      hide AddBytes;
      XorInjective(AddBytes(0xFFFF_FFFF, before + a + after), AddBytes(0xFFFF_FFFF, before + b + after), 0xFFFF_FFFF);
      AddBytesConcat(0xFFFF_FFFF, before + a, after);
      AddBytesConcat(0xFFFF_FFFF, before + b, after);
      AddBytesInjective(AddBytes(0xFFFF_FFFF, before + a), AddBytes(0xFFFF_FFFF, before + b), after);
      AddBytesConcat(0xFFFF_FFFF, before, a);
      AddBytesConcat(0xFFFF_FFFF, before, b);
      SameBurst(AddBytes(0xFFFF_FFFF, before), a, b);
    }
  }

  lemma SameBurst(crc: bv32, a: Data, b: Data)
    requires |a| == |b| <= 4 && AddBytes(crc, a) == AddBytes(crc, b)
    ensures a == b
  {
    BurstIsWord(crc, a);
    BurstIsWord(crc, b);
    hide *;
    ShiftBitsInjective(Xor(crc, Word(a)), Xor(crc, Word(b)), 8 * |a|);
    XorCommutes(crc, Word(a));
    XorCommutes(crc, Word(b));
    XorInjective(Word(a), Word(b), crc);
    WordInjective(a, b);
  }

  // ---------------------------------------------------------------- which checksum it is

  /** Eight steps, from one known state to another. */
  lemma ShiftsTo(x: bv32, y: bv32)
    requires ShiftBit(ShiftBit(ShiftBit(ShiftBit(ShiftBit(ShiftBit(ShiftBit(ShiftBit(x)))))))) == y
    ensures ShiftBits(x, 8) == y
  {
    hide ShiftBit;
    EightShifts(x);
  }

  lemma OnesShifted()
    ensures ShiftBits(0xFFFF_FFFF, 32) == 0xDEBB_20E3
  {
    ShiftsTo(0xFFFF_FFFF, 0x2DFD_1072);
    ShiftsTo(0x2DFD_1072, 0xBE26_ED00);
    ShiftsTo(0xBE26_ED00, 0x00BE_26ED);
    ShiftsTo(0x00BE_26ED, 0xDEBB_20E3);
    hide ShiftBit;
    ShiftBitsAdd(0xFFFF_FFFF, 8, 8);
    ShiftBitsAdd(0xFFFF_FFFF, 16, 8);
    ShiftBitsAdd(0xFFFF_FFFF, 24, 8);
  }

  /** The four bytes of a word, lowest first. */
  ghost predicate IsLittleEndian(bytes: Data, x: bv32) {
    && |bytes| == 4
    && Extend(bytes[0]) == x & 0xFF && Extend(bytes[1]) == (x >> 8) & 0xFF
    && Extend(bytes[2]) == (x >> 16) & 0xFF && Extend(bytes[3]) == x >> 24
  }

  lemma LittleEndianIsWord(bytes: Data, x: bv32)
    requires IsLittleEndian(bytes, x)
    ensures Word(bytes) == x
  {
    assert Word(bytes[4..]) == 0;
    assert bytes[3..][1..] == bytes[4..] && bytes[2..][1..] == bytes[3..] && bytes[1..][1..] == bytes[2..];
    hide Extend;
    assert Word(bytes[3..]) == Xor(Extend(bytes[3]), UpByte(0));
    assert Word(bytes[2..]) == Xor(Extend(bytes[2]), UpByte(Word(bytes[3..])));
    assert Word(bytes[1..]) == Xor(Extend(bytes[1]), UpByte(Word(bytes[2..])));
    JoinsBytes(x);
  }

  lemma JoinsBytes(x: bv32)
    ensures Xor(x & 0xFF, UpByte(Xor((x >> 8) & 0xFF, UpByte(Xor((x >> 16) & 0xFF, UpByte(Xor(x >> 24, UpByte(0)))))))) == x
  {
  }

  /** A message followed by its own checksum, lowest byte first, always leaves the same residue. */
  lemma Residue(bytes: Data, sum: Data)
    requires IsLittleEndian(sum, Checksum(bytes))
    ensures AddBytes(0xFFFF_FFFF, bytes + sum) == 0xDEBB_20E3
  {
    var r := AddBytes(0xFFFF_FFFF, bytes);
    LittleEndianIsWord(sum, Checksum(bytes));
    AddBytesConcat(0xFFFF_FFFF, bytes, sum);
    BurstIsWord(r, sum);
    XorCancels(r, 0xFFFF_FFFF);
    OnesShifted();
  }

  lemma XorCancels(a: bv32, b: bv32)
    ensures Xor(a, Xor(a, b)) == b
  {
  }

  lemma ByteTo(crc: bv32, byte: Byte, next: bv32)
    requires ShiftBit(ShiftBit(ShiftBit(ShiftBit(ShiftBit(ShiftBit(ShiftBit(ShiftBit(Xor(crc, Extend(byte)))))))))) == next
    ensures AddByte(crc, byte) == next
  {
    hide ShiftBit;
    EightShifts(Xor(crc, Extend(byte)));
  }

  lemma NextByte(bytes: Data, k: nat)
    requires k < |bytes|
    ensures AddBytes(0xFFFF_FFFF, bytes[..0]) == 0xFFFF_FFFF
    ensures AddBytes(0xFFFF_FFFF, bytes[..k + 1]) == AddByte(AddBytes(0xFFFF_FFFF, bytes[..k]), bytes[k])
  {
    hide AddByte;
    assert bytes[..k + 1][..k] == bytes[..k];
  }

  lemma FirstDigits()
    ensures AddByte(0xFFFF_FFFF, 0x31) == 0x7C23_1048
    ensures AddByte(0x7C23_1048, 0x32) == 0xB0AC_BB32
    ensures AddByte(0xB0AC_BB32, 0x33) == 0x77B7_9C2D
  {
    ByteTo(0xFFFF_FFFF, 0x31, 0x7C23_1048);
    ByteTo(0x7C23_1048, 0x32, 0xB0AC_BB32);
    ByteTo(0xB0AC_BB32, 0x33, 0x77B7_9C2D);
    hide AddByte;
  }

  lemma MiddleDigits()
    ensures AddByte(0x77B7_9C2D, 0x34) == 0x641C_1F5C
    ensures AddByte(0x641C_1F5C, 0x35) == 0x340A_C5E3
    ensures AddByte(0x340A_C5E3, 0x36) == 0xF68D_2C9E
  {
    ByteTo(0x77B7_9C2D, 0x34, 0x641C_1F5C);
    ByteTo(0x641C_1F5C, 0x35, 0x340A_C5E3);
    ByteTo(0x340A_C5E3, 0x36, 0xF68D_2C9E);
    hide AddByte;
  }

  lemma LastDigits()
    ensures AddByte(0xF68D_2C9E, 0x37) == 0xAFFC_9660
    ensures AddByte(0xAFFC_9660, 0x38) == 0x651F_2550
    ensures AddByte(0x651F_2550, 0x39) == 0x340B_C6D9
  {
    ByteTo(0xF68D_2C9E, 0x37, 0xAFFC_9660);
    ByteTo(0xAFFC_9660, 0x38, 0x651F_2550);
    ByteTo(0x651F_2550, 0x39, 0x340B_C6D9);
    hide AddByte;
  }

  lemma Complements()
    ensures Xor(0x340B_C6D9, 0xFFFF_FFFF) == 0xCBF4_3926
  {
  }

  /** The check value of this checksum: that of the digits 1 to 9. */
  lemma CheckValue()
    ensures Checksum([0x31, 0x32, 0x33, 0x34, 0x35, 0x36, 0x37, 0x38, 0x39]) == 0xCBF4_3926
  {
    var digits: Data := [0x31, 0x32, 0x33, 0x34, 0x35, 0x36, 0x37, 0x38, 0x39];
    hide AddBytes;
    hide AddByte;
    hide Xor;
    NextByte(digits, 0);
    NextByte(digits, 1);
    NextByte(digits, 2);
    NextByte(digits, 3);
    NextByte(digits, 4);
    NextByte(digits, 5);
    NextByte(digits, 6);
    NextByte(digits, 7);
    NextByte(digits, 8);
    FirstDigits();
    MiddleDigits();
    LastDigits();
    assert digits[..9] == digits && digits[..0] == [];
    Complements();
  }
}
