/** The CRC of a debug file: a table-driven CRC-32 fed in chunks (samply-symbols/src/elf.rs), against
    the bit-by-bit definition of section 8 of RFC 1952. */
module Crc32 {
  import opened Prelude

  // ----- operations on words, named so that proofs need not look at bits -----

  function Not(x: bv32): bv32 {
    !x
  }

  function Xor(a: bv32, b: bv32): bv32 {
    a ^ b
  }

  function LowByte(c: bv32): (r: bv32)
    ensures r <= 0xFF
  {
    c & 0xFF
  }

  function HighBytes(c: bv32): bv32 {
    c & 0xFFFF_FF00
  }

  function OneByteDown(c: bv32): bv32 {
    c >> 8
  }

  function Widen(byte: bv8): (r: bv32)
    ensures r <= 0xFF
  {
    byte as bv32
  }

  // ----- bit by bit -----

  const POLYNOMIAL: bv32 := 0xEDB8_8320

  function ShiftOnce(c: bv32): bv32 {
    if c & 1 == 1 then Xor(POLYNOMIAL, c >> 1) else c >> 1
  }

  function Shift(c: bv32, n: nat): bv32
    decreases n
  {
    if n == 0 then c else Shift(ShiftOnce(c), n - 1)
  }

  /** One byte more, lowest bit first. */
  function FeedByte(register: bv32, byte: bv8): bv32 {
    Shift(Xor(register, Widen(byte)), 8)
  }

  function Feed(register: bv32, data: seq<bv8>): bv32 {
    if data == [] then register else FeedByte(Feed(register, data[..|data| - 1]), data[|data| - 1])
  }

  /** The CRC of data that follows data whose CRC is `crc`; the register is kept complemented. */
  function Crc(crc: bv32, data: seq<bv8>): bv32 {
    Not(Feed(Not(crc), data))
  }

  lemma {:induction false} FeedConcat(register: bv32, a: seq<bv8>, b: seq<bv8>)
    ensures Feed(register, a + b) == Feed(Feed(register, a), b)
  {
    hide FeedByte;
    if b == [] {
      assert a + b == a;
    } else {
      var front := b[..|b| - 1];
      FeedConcat(register, a, front);
      assert (a + b)[..|a + b| - 1] == a + front;
    }
  }

  lemma NotTwice(x: bv32)
    ensures Not(Not(x)) == x
  {
  }

  /** Data consumed in pieces gives the CRC of the whole. */
  lemma CrcOfPieces(crc: bv32, a: seq<bv8>, b: seq<bv8>)
    ensures Crc(Crc(crc, a), b) == Crc(crc, a + b)
  {
    hide Feed, FeedByte, Not;
    NotTwice(Feed(Not(crc), a));
    FeedConcat(Not(crc), a, b);
  }

  // ----- shifting is linear -----

  lemma XorMovesDown(a: bv32, b: bv32)
    ensures Xor(a, b) >> 1 == Xor(a >> 1, b >> 1)
  {
    calc {
      Xor(a, b) >> 1;
      (a ^ b) >> 1;
      (a >> 1) ^ (b >> 1);
      Xor(a >> 1, b >> 1);
    }
  }

  lemma XorLastBit(a: bv32, b: bv32)
    ensures Xor(a, b) & 1 == 1 <==> (a & 1 == 1) != (b & 1 == 1)
  {
  }

  lemma XorAssociates(p: bv32, x: bv32, y: bv32)
    ensures Xor(p, Xor(x, y)) == Xor(Xor(p, x), y)
  {
  }

  lemma XorCommutes(x: bv32, y: bv32)
    ensures Xor(x, y) == Xor(y, x)
  {
  }

  lemma XorCancels(p: bv32, x: bv32, y: bv32)
    ensures Xor(Xor(p, x), Xor(p, y)) == Xor(x, y)
  {
    hide Xor;
    XorCommutes(p, x);
    XorAssociates(Xor(x, p), p, y);
    XorAssociates(x, p, p);
    XorWithSelf(p);
    XorWithZero(x);
  }

  lemma XorWithSelf(x: bv32)
    ensures Xor(x, x) == 0
  {
  }

  lemma XorWithZero(x: bv32)
    ensures Xor(x, 0) == x
  {
  }

  lemma OnceLinear(a: bv32, b: bv32)
    ensures ShiftOnce(Xor(a, b)) == Xor(ShiftOnce(a), ShiftOnce(b))
  {
    hide Xor;
    XorMovesDown(a, b);
    XorLastBit(a, b);
    XorAssociates(POLYNOMIAL, a >> 1, b >> 1);
    XorAssociates(POLYNOMIAL, b >> 1, a >> 1);
    XorCommutes(a >> 1, b >> 1);
    XorCommutes(a >> 1, Xor(POLYNOMIAL, b >> 1));
    XorCancels(POLYNOMIAL, a >> 1, b >> 1);
  }

  // ----- the table -----

  const ROW_0: seq<bv32> := [
    0x00000000, 0x77073096, 0xee0e612c, 0x990951ba, 0x076dc419, 0x706af48f, 0xe963a535, 0x9e6495a3,
    0x0edb8832, 0x79dcb8a4, 0xe0d5e91e, 0x97d2d988, 0x09b64c2b, 0x7eb17cbd, 0xe7b82d07, 0x90bf1d91]
  const ROW_1: seq<bv32> := [
    0x1db71064, 0x6ab020f2, 0xf3b97148, 0x84be41de, 0x1adad47d, 0x6ddde4eb, 0xf4d4b551, 0x83d385c7,
    0x136c9856, 0x646ba8c0, 0xfd62f97a, 0x8a65c9ec, 0x14015c4f, 0x63066cd9, 0xfa0f3d63, 0x8d080df5]
  const ROW_2: seq<bv32> := [
    0x3b6e20c8, 0x4c69105e, 0xd56041e4, 0xa2677172, 0x3c03e4d1, 0x4b04d447, 0xd20d85fd, 0xa50ab56b,
    0x35b5a8fa, 0x42b2986c, 0xdbbbc9d6, 0xacbcf940, 0x32d86ce3, 0x45df5c75, 0xdcd60dcf, 0xabd13d59]
  const ROW_3: seq<bv32> := [
    0x26d930ac, 0x51de003a, 0xc8d75180, 0xbfd06116, 0x21b4f4b5, 0x56b3c423, 0xcfba9599, 0xb8bda50f,
    0x2802b89e, 0x5f058808, 0xc60cd9b2, 0xb10be924, 0x2f6f7c87, 0x58684c11, 0xc1611dab, 0xb6662d3d]
  const ROW_4: seq<bv32> := [
    0x76dc4190, 0x01db7106, 0x98d220bc, 0xefd5102a, 0x71b18589, 0x06b6b51f, 0x9fbfe4a5, 0xe8b8d433,
    0x7807c9a2, 0x0f00f934, 0x9609a88e, 0xe10e9818, 0x7f6a0dbb, 0x086d3d2d, 0x91646c97, 0xe6635c01]
  const ROW_5: seq<bv32> := [
    0x6b6b51f4, 0x1c6c6162, 0x856530d8, 0xf262004e, 0x6c0695ed, 0x1b01a57b, 0x8208f4c1, 0xf50fc457,
    0x65b0d9c6, 0x12b7e950, 0x8bbeb8ea, 0xfcb9887c, 0x62dd1ddf, 0x15da2d49, 0x8cd37cf3, 0xfbd44c65]
  const ROW_6: seq<bv32> := [
    0x4db26158, 0x3ab551ce, 0xa3bc0074, 0xd4bb30e2, 0x4adfa541, 0x3dd895d7, 0xa4d1c46d, 0xd3d6f4fb,
    0x4369e96a, 0x346ed9fc, 0xad678846, 0xda60b8d0, 0x44042d73, 0x33031de5, 0xaa0a4c5f, 0xdd0d7cc9]
  const ROW_7: seq<bv32> := [
    0x5005713c, 0x270241aa, 0xbe0b1010, 0xc90c2086, 0x5768b525, 0x206f85b3, 0xb966d409, 0xce61e49f,
    0x5edef90e, 0x29d9c998, 0xb0d09822, 0xc7d7a8b4, 0x59b33d17, 0x2eb40d81, 0xb7bd5c3b, 0xc0ba6cad]
  const ROW_8: seq<bv32> := [
    0xedb88320, 0x9abfb3b6, 0x03b6e20c, 0x74b1d29a, 0xead54739, 0x9dd277af, 0x04db2615, 0x73dc1683,
    0xe3630b12, 0x94643b84, 0x0d6d6a3e, 0x7a6a5aa8, 0xe40ecf0b, 0x9309ff9d, 0x0a00ae27, 0x7d079eb1]
  const ROW_9: seq<bv32> := [
    0xf00f9344, 0x8708a3d2, 0x1e01f268, 0x6906c2fe, 0xf762575d, 0x806567cb, 0x196c3671, 0x6e6b06e7,
    0xfed41b76, 0x89d32be0, 0x10da7a5a, 0x67dd4acc, 0xf9b9df6f, 0x8ebeeff9, 0x17b7be43, 0x60b08ed5]
  const ROW_A: seq<bv32> := [
    0xd6d6a3e8, 0xa1d1937e, 0x38d8c2c4, 0x4fdff252, 0xd1bb67f1, 0xa6bc5767, 0x3fb506dd, 0x48b2364b,
    0xd80d2bda, 0xaf0a1b4c, 0x36034af6, 0x41047a60, 0xdf60efc3, 0xa867df55, 0x316e8eef, 0x4669be79]
  const ROW_B: seq<bv32> := [
    0xcb61b38c, 0xbc66831a, 0x256fd2a0, 0x5268e236, 0xcc0c7795, 0xbb0b4703, 0x220216b9, 0x5505262f,
    0xc5ba3bbe, 0xb2bd0b28, 0x2bb45a92, 0x5cb36a04, 0xc2d7ffa7, 0xb5d0cf31, 0x2cd99e8b, 0x5bdeae1d]
  const ROW_C: seq<bv32> := [
    0x9b64c2b0, 0xec63f226, 0x756aa39c, 0x026d930a, 0x9c0906a9, 0xeb0e363f, 0x72076785, 0x05005713,
    0x95bf4a82, 0xe2b87a14, 0x7bb12bae, 0x0cb61b38, 0x92d28e9b, 0xe5d5be0d, 0x7cdcefb7, 0x0bdbdf21]
  const ROW_D: seq<bv32> := [
    0x86d3d2d4, 0xf1d4e242, 0x68ddb3f8, 0x1fda836e, 0x81be16cd, 0xf6b9265b, 0x6fb077e1, 0x18b74777,
    0x88085ae6, 0xff0f6a70, 0x66063bca, 0x11010b5c, 0x8f659eff, 0xf862ae69, 0x616bffd3, 0x166ccf45]
  const ROW_E: seq<bv32> := [
    0xa00ae278, 0xd70dd2ee, 0x4e048354, 0x3903b3c2, 0xa7672661, 0xd06016f7, 0x4969474d, 0x3e6e77db,
    0xaed16a4a, 0xd9d65adc, 0x40df0b66, 0x37d83bf0, 0xa9bcae53, 0xdebb9ec5, 0x47b2cf7f, 0x30b5ffe9]
  const ROW_F: seq<bv32> := [
    0xbdbdf21c, 0xcabac28a, 0x53b39330, 0x24b4a3a6, 0xbad03605, 0xcdd70693, 0x54de5729, 0x23d967bf,
    0xb3667a2e, 0xc4614ab8, 0x5d681b02, 0x2a6f2b94, 0xb40bbe37, 0xc30c8ea1, 0x5a05df1b, 0x2d02ef8d]

  /** The table, in sixteen rows of sixteen. */
  const ROWS: seq<seq<bv32>> := [
    ROW_0, ROW_1, ROW_2, ROW_3, ROW_4, ROW_5, ROW_6, ROW_7,
    ROW_8, ROW_9, ROW_A, ROW_B, ROW_C, ROW_D, ROW_E, ROW_F]

  function TableEntry(x: bv32): bv32
    requires x <= 0xFF
  {
    HexDigits(x);
    ROWS[(x >> 4) as int][(x & 0xF) as int]
  }

  lemma HexDigits(x: bv32)
    requires x <= 0xFF
    ensures (x >> 4) as int < |ROWS| && (x & 0xF) as int < |ROWS[(x >> 4) as int]|
    ensures x >> 4 <= 0xF && x & 0xF <= 0xF && Xor((x >> 4) << 4, x & 0xF) == x
  {
    SmallValue(x >> 4);
    SmallValue(x & 0xF);
    RowLengths((x >> 4) as int);
  }

  lemma SmallValue(d: bv32)
    requires d <= 0xF
    ensures d as int < 16
    ensures d in {0, 1, 2, 3, 4, 5, 6, 7, 8, 9, 10, 11, 12, 13, 14, 15}
  {
  }

  lemma RowLengths(k: nat)
    requires k < 16
    ensures |ROWS| == 16 && |ROWS[k]| == 16
  {
  }

  /** One shift without a branch, quick to evaluate. */
  function ShiftMasked(c: bv32): bv32 {
    (c >> 1) ^ (POLYNOMIAL & (0 - (c & 1)))
  }

  function ByteMasked(c: bv32): bv32 {
    ShiftMasked(ShiftMasked(ShiftMasked(ShiftMasked(ShiftMasked(ShiftMasked(ShiftMasked(ShiftMasked(c))))))))
  }

  lemma MaskIsBranch(c: bv32)
    ensures ShiftMasked(c) == ShiftOnce(c)
  {
    if c & 1 == 1 {
      assert POLYNOMIAL & (0 - 1) == POLYNOMIAL;
      assert (c >> 1) ^ POLYNOMIAL == POLYNOMIAL ^ (c >> 1);
    } else {
      LastBit(c);
      assert POLYNOMIAL & (0 - 0) == 0;
      assert (c >> 1) ^ 0 == c >> 1;
    }
  }

  lemma LastBit(c: bv32)
    ensures c & 1 == 0 || c & 1 == 1
  {
  }

  lemma MaskedLinear(a: bv32, b: bv32)
    ensures ShiftMasked(Xor(a, b)) == Xor(ShiftMasked(a), ShiftMasked(b))
  {
    hide ShiftOnce, ShiftMasked, Xor;
    OnceLinear(a, b);
    MaskIsBranch(a);
    MaskIsBranch(b);
    MaskIsBranch(Xor(a, b));
  }

  lemma ByteLinear(a: bv32, b: bv32)
    ensures ByteMasked(Xor(a, b)) == Xor(ByteMasked(a), ByteMasked(b))
  {
    hide ShiftMasked, Xor;
    var a1, b1 := ShiftMasked(a), ShiftMasked(b);
    var a2, b2 := ShiftMasked(a1), ShiftMasked(b1);
    var a3, b3 := ShiftMasked(a2), ShiftMasked(b2);
    var a4, b4 := ShiftMasked(a3), ShiftMasked(b3);
    var a5, b5 := ShiftMasked(a4), ShiftMasked(b4);
    var a6, b6 := ShiftMasked(a5), ShiftMasked(b5);
    var a7, b7 := ShiftMasked(a6), ShiftMasked(b6);
    MaskedLinear(a, b);
    MaskedLinear(a1, b1);
    MaskedLinear(a2, b2);
    MaskedLinear(a3, b3);
    MaskedLinear(a4, b4);
    MaskedLinear(a5, b5);
    MaskedLinear(a6, b6);
    MaskedLinear(a7, b7);
  }

  lemma {:induction false} MaskedShift(c: bv32, n: nat)
    requires n > 0
    ensures Shift(c, n) == Shift(ShiftMasked(c), n - 1)
  {
    MaskIsBranch(c);
  }

  lemma EightShifts(c: bv32)
    ensures Shift(c, 8) == ByteMasked(c)
  {
    hide ShiftMasked;
    var c1 := ShiftMasked(c);
    var c2 := ShiftMasked(c1);
    var c3 := ShiftMasked(c2);
    var c4 := ShiftMasked(c3);
    var c5 := ShiftMasked(c4);
    var c6 := ShiftMasked(c5);
    var c7 := ShiftMasked(c6);
    MaskedShift(c, 8);
    MaskedShift(c1, 7);
    MaskedShift(c2, 6);
    MaskedShift(c3, 5);
    MaskedShift(c4, 4);
    MaskedShift(c5, 3);
    MaskedShift(c6, 2);
    MaskedShift(c7, 1);
  }

  /** A row is its first entry combined with the first row. */
  predicate Shaped(row: seq<bv32>) {
    && |row| == 16
    && row[0] == Xor(row[0], ROW_0[0]) && row[1] == Xor(row[0], ROW_0[1]) && row[2] == Xor(row[0], ROW_0[2]) && row[3] == Xor(row[0], ROW_0[3])
    && row[4] == Xor(row[0], ROW_0[4]) && row[5] == Xor(row[0], ROW_0[5]) && row[6] == Xor(row[0], ROW_0[6]) && row[7] == Xor(row[0], ROW_0[7])
    && row[8] == Xor(row[0], ROW_0[8]) && row[9] == Xor(row[0], ROW_0[9]) && row[10] == Xor(row[0], ROW_0[10]) && row[11] == Xor(row[0], ROW_0[11])
    && row[12] == Xor(row[0], ROW_0[12]) && row[13] == Xor(row[0], ROW_0[13]) && row[14] == Xor(row[0], ROW_0[14]) && row[15] == Xor(row[0], ROW_0[15])
  }

  lemma Rows0To3()
    ensures Shaped(ROW_0) && Shaped(ROW_1) && Shaped(ROW_2) && Shaped(ROW_3)
  {
  }

  lemma Rows4To7()
    ensures Shaped(ROW_4) && Shaped(ROW_5) && Shaped(ROW_6) && Shaped(ROW_7)
  {
  }

  lemma Rows8ToB()
    ensures Shaped(ROW_8) && Shaped(ROW_9) && Shaped(ROW_A) && Shaped(ROW_B)
  {
  }

  lemma RowsCToF()
    ensures Shaped(ROW_C) && Shaped(ROW_D) && Shaped(ROW_E) && Shaped(ROW_F)
  {
  }

  lemma FirstRow0To3()
    ensures ROW_0[0] == ByteMasked(0) && ROW_0[1] == ByteMasked(1)
    ensures ROW_0[2] == ByteMasked(2) && ROW_0[3] == ByteMasked(3)
  {
  }

  lemma FirstRow4To7()
    ensures ROW_0[4] == ByteMasked(4) && ROW_0[5] == ByteMasked(5)
    ensures ROW_0[6] == ByteMasked(6) && ROW_0[7] == ByteMasked(7)
  {
  }

  lemma FirstRow8ToB()
    ensures ROW_0[8] == ByteMasked(8) && ROW_0[9] == ByteMasked(9)
    ensures ROW_0[10] == ByteMasked(10) && ROW_0[11] == ByteMasked(11)
  {
  }

  lemma FirstRowCToF()
    ensures ROW_0[12] == ByteMasked(12) && ROW_0[13] == ByteMasked(13)
    ensures ROW_0[14] == ByteMasked(14) && ROW_0[15] == ByteMasked(15)
  {
  }

  lemma FirstColumn0To3()
    ensures ROW_0[0] == ByteMasked(0x00) && ROW_1[0] == ByteMasked(0x10)
    ensures ROW_2[0] == ByteMasked(0x20) && ROW_3[0] == ByteMasked(0x30)
  {
  }

  lemma FirstColumn4To7()
    ensures ROW_4[0] == ByteMasked(0x40) && ROW_5[0] == ByteMasked(0x50)
    ensures ROW_6[0] == ByteMasked(0x60) && ROW_7[0] == ByteMasked(0x70)
  {
  }

  lemma FirstColumn8ToB()
    ensures ROW_8[0] == ByteMasked(0x80) && ROW_9[0] == ByteMasked(0x90)
    ensures ROW_A[0] == ByteMasked(0xA0) && ROW_B[0] == ByteMasked(0xB0)
  {
  }

  lemma FirstColumnCToF()
    ensures ROW_C[0] == ByteMasked(0xC0) && ROW_D[0] == ByteMasked(0xD0)
    ensures ROW_E[0] == ByteMasked(0xE0) && ROW_F[0] == ByteMasked(0xF0)
  {
  }

  lemma FirstRow(d: bv32)
    requires d <= 0xF
    ensures d as int < |ROW_0| && ROW_0[d as int] == ByteMasked(d)
  {
    FirstRow0To3();
    FirstRow4To7();
    FirstRow8ToB();
    FirstRowCToF();
    SmallValue(d);
    hide ByteMasked;
  }

  lemma FirstColumn(d: bv32)
    requires d <= 0xF
    ensures d as int < |ROWS| && Shaped(ROWS[d as int]) && ROWS[d as int][0] == ByteMasked(d << 4)
  {
    hide ByteMasked, Shaped;
    FirstColumn0To3();
    FirstColumn4To7();
    FirstColumn8ToB();
    FirstColumnCToF();
    Rows0To3();
    Rows4To7();
    Rows8ToB();
    RowsCToF();
    SmallValue(d);
  }

  lemma ShapedAt(row: seq<bv32>, d: bv32)
    requires Shaped(row) && d <= 0xF
    ensures d as int < 16 && row[d as int] == Xor(row[0], ROW_0[d as int])
  {
    SmallValue(d);
    ShapedAtIndex(row, d as int);
    hide *;
  }

  lemma ShapedAtIndex(row: seq<bv32>, i: nat)
    requires Shaped(row) && i < 16
    ensures row[i] == Xor(row[0], ROW_0[i])
  {
    hide Xor;
  }

  /** Every entry of the table is its index shifted by eight bits. */
  lemma TableIsShift(x: bv32)
    requires x <= 0xFF
    ensures TableEntry(x) == Shift(x, 8)
  {
    hide ByteMasked, Shift, Shaped, Xor;
    var h, l := x >> 4, x & 0xF;
    HexDigits(x);
    FirstColumn(h);
    FirstRow(l);
    ShapedAt(ROWS[h as int], l);
    ByteLinear(h << 4, l);
    EightShifts(x);
  }

  lemma HighBytesMoveDown(c: bv32)
    ensures ByteMasked(HighBytes(c)) == OneByteDown(c)
  {
  }

  lemma Halves(c: bv32)
    ensures Xor(LowByte(c), HighBytes(c)) == c
  {
  }

  /** Eight shifts of the register: its low byte goes through the table, the rest moves down. */
  lemma ShiftByTable(c: bv32)
    ensures Shift(c, 8) == Xor(TableEntry(LowByte(c)), OneByteDown(c))
  {
    hide *;
    Halves(c);
    HighBytesMoveDown(c);
    TableIsShift(LowByte(c));
    EightShifts(c);
    EightShifts(LowByte(c));
    ByteLinear(LowByte(c), HighBytes(c));
  }

  lemma ByteMeetsRegister(c: bv32, b: bv32)
    requires b <= 0xFF
    ensures LowByte(Xor(c, b)) == Xor(LowByte(c), b) && OneByteDown(Xor(c, b)) == OneByteDown(c)
  {
  }

  /** One turn of the loop feeds one byte. */
  lemma TurnFeedsByte(crc: bv32, b: bv8)
    ensures Xor(LowByte(crc), Widen(b)) <= 0xFF
    ensures Xor(TableEntry(Xor(LowByte(crc), Widen(b))), OneByteDown(crc)) == FeedByte(crc, b)
  {
    assert FeedByte(crc, b) == Shift(Xor(crc, Widen(b)), 8);
    hide *;
    ByteMeetsRegister(crc, Widen(b));
    ShiftByTable(Xor(crc, Widen(b)));
  }

  // ----- what the checksum is known by -----

  /** The bytes of a word, lowest first. */
  function Bytes(c: bv32): seq<bv8> {
    [(c & 0xFF) as bv8, ((c >> 8) & 0xFF) as bv8, ((c >> 16) & 0xFF) as bv8, ((c >> 24) & 0xFF) as bv8]
  }

  /** A byte that complements the register's lowest one leaves of the register only what lay above it. */
  lemma ComplementFed(q: bv32, r: bv32, b: bv8)
    requires Widen(b) == Xor(LowByte(r), 0xFF)
    ensures FeedByte(Xor(q, r), b) == Xor(ByteMasked(Xor(q, 0xFF)), OneByteDown(r))
  {
    ComplementMeets(q, r, Widen(b));
    hide *;
    FeedIsMasked(Xor(q, r), b);
    ByteLinear(Xor(q, 0xFF), HighBytes(r));
    HighBytesMoveDown(r);
  }

  lemma ComplementMeets(q: bv32, r: bv32, b: bv32)
    requires b == Xor(LowByte(r), 0xFF)
    ensures Xor(Xor(q, r), b) == Xor(Xor(q, 0xFF), HighBytes(r))
  {
    hide *;
    var low, high := LowByte(r), HighBytes(r);
    Halves(r);
    XorAssociates(q, Xor(low, high), Xor(low, 0xFF));
    XorCancels(low, high, 0xFF);
    XorCommutes(high, 0xFF);
    XorAssociates(q, 0xFF, high);
  }

  lemma FeedIsMasked(register: bv32, b: bv8)
    ensures FeedByte(register, b) == ByteMasked(Xor(register, Widen(b)))
  {
    EightShifts(Xor(register, Widen(b)));
    hide Shift, ByteMasked, Xor;
  }

  lemma ComplementBytes(r: bv32)
    ensures var bytes := Bytes(Not(r));
      && Widen(bytes[0]) == Xor(LowByte(r), 0xFF)
      && Widen(bytes[1]) == Xor(LowByte(OneByteDown(r)), 0xFF)
      && Widen(bytes[2]) == Xor(LowByte(OneByteDown(OneByteDown(r))), 0xFF)
      && Widen(bytes[3]) == Xor(LowByte(OneByteDown(OneByteDown(OneByteDown(r)))), 0xFF)
    ensures Xor(0, r) == r && OneByteDown(OneByteDown(OneByteDown(OneByteDown(r)))) == 0
  {
  }

  lemma ComplementsOfNothing()
    ensures ByteMasked(Xor(0, 0xFF)) == 0x2D02_EF8D
    ensures ByteMasked(Xor(0x2D02_EF8D, 0xFF)) == 0xBE26_12FF
    ensures ByteMasked(Xor(0xBE26_12FF, 0xFF)) == 0x00BE_2612
    ensures ByteMasked(Xor(0x00BE_2612, 0xFF)) == 0xDEBB_20E3
    ensures Not(Xor(0xDEBB_20E3, 0)) == 0x2144_DF1C
  {
  }

  lemma {:induction false} FourFed(r: bv32, b: seq<bv8>)
    requires |b| == 4
    ensures Feed(r, b) == FeedByte(FeedByte(FeedByte(FeedByte(r, b[0]), b[1]), b[2]), b[3])
  {
    hide FeedByte;
    assert b[..3][..2] == b[..2] && b[..2][..1] == b[..1] && b[..1][..0] == [];
    assert Feed(r, b[..1]) == FeedByte(r, b[0]);
    assert Feed(r, b[..2]) == FeedByte(Feed(r, b[..1]), b[1]);
    assert Feed(r, b[..3]) == FeedByte(Feed(r, b[..2]), b[2]);
  }

  /** Data followed by its own CRC, lowest byte first, has the CRC that all such data has. */
  lemma CrcOfDataWithCrc(data: seq<bv8>)
    ensures Crc(0, data + Bytes(Crc(0, data))) == 0x2144_DF1C
  {
    var r := Feed(Not(0), data);
    var b := Bytes(Not(r));
    FeedConcat(Not(0), data, b);
    FourFed(r, b);
    hide *;
    CrcIs(0, data, r);
    CrcIs(0, data + b, Feed(r, b));
    ComplementBytes(r);
    ComplementsOfNothing();
    var r1 := OneByteDown(r);
    var r2 := OneByteDown(r1);
    ComplementFed(0, r, b[0]);
    ComplementFed(0x2D02_EF8D, r1, b[1]);
    ComplementFed(0xBE26_12FF, r2, b[2]);
    ComplementFed(0x00BE_2612, OneByteDown(r2), b[3]);
  }

  lemma CrcIs(crc: bv32, data: seq<bv8>, r: bv32)
    requires r == Feed(Not(crc), data)
    ensures Crc(crc, data) == Not(r)
  {
  }

  /** The registers a message leads through. */
  lemma {:induction false} FeedsThrough(registers: seq<bv32>, data: seq<bv8>)
    requires |registers| == |data| + 1
    requires forall i :: 0 <= i < |data| ==> registers[i + 1] == ByteMasked(Xor(registers[i], Widen(data[i])))
    ensures Feed(registers[0], data) == registers[|data|]
  {
    if data != [] {
      var n := |data| - 1;
      FeedIsMasked(registers[n], data[n]);
      hide ByteMasked, Xor, Widen, FeedByte;
      FeedsThrough(registers[..|data|], data[..n]);
    }
  }

  const HELLO_WORLD: seq<bv8> := [0x48, 0x65, 0x6C, 0x6C, 0x6F, 0x2C, 0x20, 0x77, 0x6F, 0x72, 0x6C, 0x64, 0x21, 0x00]
  const HELLO_WORLD_REGISTERS: seq<bv32> := [
    0xFFFF_FFFF, 0x55FA_D9D0, 0xBB5E_BDDA, 0x22B9_4804, 0x434B_5022, 0x082E_767D, 0x1C64_4F14, 0x21A8_90FA,
    0x9328_570D, 0xA32F_2823, 0x1CCF_4E4A, 0xD211_4AB3, 0x1865_563D, 0x1419_3919, 0x647F_B1F9]

  lemma HelloRegisters0To4()
    ensures HELLO_WORLD_REGISTERS[1] == ByteMasked(Xor(HELLO_WORLD_REGISTERS[0], Widen(HELLO_WORLD[0])))
    ensures HELLO_WORLD_REGISTERS[2] == ByteMasked(Xor(HELLO_WORLD_REGISTERS[1], Widen(HELLO_WORLD[1])))
    ensures HELLO_WORLD_REGISTERS[3] == ByteMasked(Xor(HELLO_WORLD_REGISTERS[2], Widen(HELLO_WORLD[2])))
    ensures HELLO_WORLD_REGISTERS[4] == ByteMasked(Xor(HELLO_WORLD_REGISTERS[3], Widen(HELLO_WORLD[3])))
    ensures HELLO_WORLD_REGISTERS[5] == ByteMasked(Xor(HELLO_WORLD_REGISTERS[4], Widen(HELLO_WORLD[4])))
  {
  }

  lemma HelloRegisters5To9()
    ensures HELLO_WORLD_REGISTERS[6] == ByteMasked(Xor(HELLO_WORLD_REGISTERS[5], Widen(HELLO_WORLD[5])))
    ensures HELLO_WORLD_REGISTERS[7] == ByteMasked(Xor(HELLO_WORLD_REGISTERS[6], Widen(HELLO_WORLD[6])))
    ensures HELLO_WORLD_REGISTERS[8] == ByteMasked(Xor(HELLO_WORLD_REGISTERS[7], Widen(HELLO_WORLD[7])))
    ensures HELLO_WORLD_REGISTERS[9] == ByteMasked(Xor(HELLO_WORLD_REGISTERS[8], Widen(HELLO_WORLD[8])))
    ensures HELLO_WORLD_REGISTERS[10] == ByteMasked(Xor(HELLO_WORLD_REGISTERS[9], Widen(HELLO_WORLD[9])))
  {
  }

  lemma HelloRegisters10To13()
    ensures HELLO_WORLD_REGISTERS[11] == ByteMasked(Xor(HELLO_WORLD_REGISTERS[10], Widen(HELLO_WORLD[10])))
    ensures HELLO_WORLD_REGISTERS[12] == ByteMasked(Xor(HELLO_WORLD_REGISTERS[11], Widen(HELLO_WORLD[11])))
    ensures HELLO_WORLD_REGISTERS[13] == ByteMasked(Xor(HELLO_WORLD_REGISTERS[12], Widen(HELLO_WORLD[12])))
    ensures HELLO_WORLD_REGISTERS[14] == ByteMasked(Xor(HELLO_WORLD_REGISTERS[13], Widen(HELLO_WORLD[13])))
  {
  }

  /** "Hello, world!" with its terminating zero. */
  lemma HelloWorldCrc()
    ensures Crc(0, HELLO_WORLD) == 2608877062
  {
    HelloRegisters0To4();
    HelloRegisters5To9();
    HelloRegisters10To13();
    NotNothing();
    hide ByteMasked, Xor, Widen, Feed, Not;
    FeedsThrough(HELLO_WORLD_REGISTERS, HELLO_WORLD);
  }

  lemma NotNothing()
    ensures Not(0) == 0xFFFF_FFFF && Not(0x647F_B1F9) == 2608877062
  {
  }

  // ----- the computer -----

  class GnuDebugLinkCrc32Computer {
    var value: bv32

    constructor (value: bv32)
      ensures this.value == value
    {
      this.value := value;
    }

    method Consume(buf: seq<bv8>)
      modifies this
      ensures value == Crc(old(value), buf)
    {
      hide Not;
      var crc := Not(value);
      for i := 0 to |buf|
        invariant crc == Feed(Not(old(value)), buf[..i])
      {
        TurnFeedsByte(crc, buf[i]);
        assert buf[..i + 1][..i] == buf[..i];
        hide FeedByte, TableEntry, Xor, LowByte, OneByteDown;
        crc := Xor(TableEntry(Xor(LowByte(crc), Widen(buf[i]))), OneByteDown(crc));
      }
      assert buf[..|buf|] == buf;
      value := Not(crc);
    }
  }

  const CHUNK_SIZE: nat := 1024 * 1024

  datatype ReadFailed = ReadFailed(offset: nat)

  /** `compute_debug_link_crc_of_file_contents`: one chunk is in memory at a time. `unreadable` says at
      which offsets the file cannot be read. Stepping past the end has to fit in 64 bits. */
  method ComputeDebugLinkCrcOfFileContents(file: seq<bv8>, unreadable: nat -> bool) returns (r: Result<bv32, ReadFailed>)
    requires |file| + CHUNK_SIZE <= U64_LIMIT
    ensures r.Ok? <==> forall k :: 0 <= k * CHUNK_SIZE < |file| ==> !unreadable(k * CHUNK_SIZE)
    ensures r.Ok? ==> r.value == Crc(0, file)
  {
    hide Crc;
    var computer := new GnuDebugLinkCrc32Computer(0);
    var buffer: seq<bv8> := [];
    var offset := 0;
    ghost var chunks := 0;
    EmptyCrc(0);
    while offset < |file|
      invariant offset == chunks * CHUNK_SIZE && buffer == []
      invariant forall k :: 0 <= k < chunks ==> !unreadable(k * CHUNK_SIZE)
      invariant computer.value == Crc(0, file[..Min(offset, |file|)])
    {
      var chunkLen := Min(CHUNK_SIZE, |file| - offset);
      if unreadable(offset) {
        return Err(ReadFailed(offset));
      }
      buffer := buffer + file[offset..offset + chunkLen];
      CrcOfPieces(0, file[..offset], file[offset..offset + chunkLen]);
      assert file[..offset] + file[offset..offset + chunkLen] == file[..offset + chunkLen];
      assert [] + file[offset..offset + chunkLen] == file[offset..offset + chunkLen];
      computer.Consume(buffer);
      buffer := [];
      offset := offset + CHUNK_SIZE;
      chunks := chunks + 1;
    }
    assert file[..|file|] == file;
    return Ok(computer.value);
  }

  lemma EmptyCrc(crc: bv32)
    ensures Crc(crc, []) == crc
  {
    NotTwice(crc);
  }
}
