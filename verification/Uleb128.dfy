/** Variable-length numbers and the delta-coded list of function starts of a Mach-O file
    (samply-symbols/src/macho.rs), against section 7.6 of DWARF 5. */
module Uleb128 {
  import opened Prelude

  // ----- the encoding -----

  function Low(b: Byte): nat {
    b % 128
  }

  predicate Continues(b: Byte) {
    b >= 128
  }

  /** The base-128 value of a group of bytes, least significant first. */
  function Value(bytes: seq<Byte>): nat {
    if bytes == [] then 0 else Low(bytes[0]) + 128 * Value(bytes[1..])
  }

  /** How many bytes the first number takes: up to the first byte without the continuation bit. */
  function Length(bytes: seq<Byte>): (n: Option<nat>)
    ensures n.Some? ==> 0 < n.value <= |bytes| && !Continues(bytes[n.value - 1])
    ensures n.Some? ==> forall i :: 0 <= i < n.value - 1 ==> Continues(bytes[i])
    ensures n.None? ==> forall i :: 0 <= i < |bytes| ==> Continues(bytes[i])
  {
    if bytes == [] then None
    else if !Continues(bytes[0]) then Some(1)
    else
      match Length(bytes[1..])
      case Some(n) => Some(n + 1)
      case None => None
  }

  /** What a reader of 64-bit numbers should accept: values below 2^64 in at most ten bytes. */
  function Read(bytes: seq<Byte>): Option<(u64, seq<Byte>)> {
    match Length(bytes)
    case Some(n) =>
      if n <= 10 && Value(bytes[..n]) < U64_LIMIT then Some((Value(bytes[..n]), bytes[n..])) else None
    case None => None
  }

  function Encode(v: nat): (bytes: seq<Byte>)
    ensures |bytes| > 0
  {
    if v < 128 then [v] else [v % 128 + 128] + Encode(v / 128)
  }

  function Pow2(k: nat): nat {
    if k == 0 then 1 else 2 * Pow2(k - 1)
  }

  lemma {:induction false} Pow2Sum(a: nat, b: nat)
    ensures Pow2(a + b) == Pow2(a) * Pow2(b) && Pow2(a) > 0
  {
    if a > 0 {
      Pow2Sum(a - 1, b);
    } else if b > 0 {
      Pow2Sum(0, b - 1);
    }
  }

  lemma {:induction false} ValueSnoc(bytes: seq<Byte>, b: Byte)
    ensures Value(bytes + [b]) == Value(bytes) + Low(b) * Pow2(7 * |bytes|)
    ensures Value(bytes) < Pow2(7 * |bytes|)
  {
    if bytes != [] {
      ValueSnoc(bytes[1..], b);
      assert (bytes + [b])[1..] == bytes[1..] + [b];
      SevenMore(|bytes| - 1);
      Distribute(Low(b), Pow2(7 * (|bytes| - 1)));
    } else {
      assert bytes + [b] == [b] && [b][1..] == [];
    }
  }

  lemma SevenMore(n: nat)
    ensures Pow2(7 * (n + 1)) == 128 * Pow2(7 * n)
  {
    assert Pow2(7) == 128;
    Pow2Sum(7, 7 * n);
  }

  lemma Distribute(a: nat, b: nat)
    ensures 128 * (a * b) == a * (128 * b)
  {
  }

  // ----- words -----

  /** Bitwise or. */
  function BitOr(a: nat, b: nat): nat
    decreases a + b
  {
    if a == 0 && b == 0 then 0
    else (if a % 2 == 1 || b % 2 == 1 then 1 else 0) + 2 * BitOr(a / 2, b / 2)
  }

  /** `x << k` on 64 bits; the shift has to be below 64. */
  function ShiftLeft(x: nat, k: nat): u64
    requires k < 64
  {
    x * Pow2(k) % U64_LIMIT
  }

  lemma {:induction false} OrWithZero(b: nat)
    ensures BitOr(0, b) == b
  {
    if b > 0 {
      OrWithZero(b / 2);
    }
  }

  /** Or-ing in bits above all bits set is adding. */
  lemma {:induction false} DisjointOr(a: nat, x: nat, k: nat)
    requires a < Pow2(k)
    ensures BitOr(a, x * Pow2(k)) == a + x * Pow2(k)
    decreases k
  {
    if k == 0 {
      OrWithZero(x);
    } else {
      var half := x * Pow2(k - 1);
      TwiceHalf(x, Pow2(k - 1));
      assert x * Pow2(k) == 2 * half;
      DisjointOr(a / 2, x, k - 1);
      OrStep(a, half);
    }
  }

  lemma TwiceHalf(x: nat, p: nat)
    ensures x * (2 * p) == 2 * (x * p)
  {
  }

  lemma OrStep(a: nat, half: nat)
    ensures BitOr(a, 2 * half) == a % 2 + 2 * BitOr(a / 2, half)
  {
    if a == 0 && half == 0 {
    } else {
      assert 2 * half / 2 == half && 2 * half % 2 == 0;
    }
  }

  lemma PowersAt()
    ensures Pow2(63) == 0x8000_0000_0000_0000 && Pow2(64) == U64_LIMIT
  {
    Pow2Sum(8, 8);
    Pow2Sum(16, 16);
    Pow2Sum(32, 31);
    Pow2Sum(16, 15);
    assert Pow2(8) == 256;
    assert Pow2(15) == 0x8000;
    assert Pow2(64) == 2 * Pow2(63);
  }

  lemma {:induction false} Pow2Grows(a: nat, b: nat)
    requires a <= b
    ensures Pow2(a) <= Pow2(b)
  {
    if a < b {
      Pow2Grows(a, b - 1);
    }
  }

  /** Seven more bits always fit, and so does one more bit at position 63. */
  lemma ShiftFits(low: nat, k: nat)
    requires (k <= 57 && low < 128) || (k == 63 && low <= 1)
    ensures k < 64 && ShiftLeft(low, k) == low * Pow2(k) < U64_LIMIT
  {
    hide Pow2;
    PowersAt();
    if k <= 57 {
      Pow2Grows(k, 57);
      SevenBitsBelow64();
      AtMost(low, 127, Pow2(k), Pow2(57));
    } else {
      AtMost(low, 1, Pow2(63), Pow2(63));
    }
  }

  lemma SevenBitsBelow64()
    ensures 127 * Pow2(57) < Pow2(64)
  {
    Pow2Sum(57, 7);
    assert Pow2(7) == 128;
  }

  lemma AtMost(a: nat, b: nat, p: nat, q: nat)
    requires a <= b && p <= q
    ensures a * p <= b * q
  {
  }

  // ----- the reader -----

  /** `read_uleb128`; no shift ever reaches 64. */
  method ReadUleb128(bytes: seq<Byte>) returns (r: Option<(u64, seq<Byte>)>)
    ensures r == Read(bytes)
  {
    var rest := bytes;
    var result: u64 := 0;
    var shift := 0;
    ghost var i := 0;
    hide Value, BitOr, ShiftLeft, Length;
    NoBytes();
    while rest != []
      invariant i <= 10 && i <= |bytes| && rest == bytes[i..] && shift == 7 * i
      invariant forall k :: 0 <= k < i ==> Continues(bytes[k])
      invariant i == 10 ==> bytes[9] <= 1
      invariant result == Value(bytes[..i])
    {
      assert i < 10;
      var byte := rest[0];
      rest := rest[1..];
      if shift == 63 && byte != 0 && byte != 1 {
        TooLarge(bytes);
        return None;
      }
      var lowBits := Low(byte);
      assert shift < 64;
      GroupOrs(bytes, i);
      result := BitOr(result, ShiftLeft(lowBits, shift));
      i := i + 1;
      if !Continues(byte) {
        LengthIs(bytes, i);
        return Some((result, rest));
      }
      shift := shift + 7;
    }
    Unterminated(bytes);
    return None;
  }

  lemma NoBytes()
    ensures Value([]) == 0
  {
  }

  lemma Unterminated(bytes: seq<Byte>)
    requires forall i :: 0 <= i < |bytes| ==> Continues(bytes[i])
    ensures Read(bytes) == None
  {
  }

  /** Or-ing in the next group of bits gives the value of one byte more. */
  lemma GroupOrs(bytes: seq<Byte>, i: nat)
    requires i < |bytes| && i < 10 && (i == 9 ==> bytes[9] <= 1)
    ensures Value(bytes[..i + 1]) < U64_LIMIT
    ensures BitOr(Value(bytes[..i]), ShiftLeft(Low(bytes[i]), 7 * i)) == Value(bytes[..i + 1])
  {
    hide Value, BitOr, ShiftLeft, Pow2;
    assert bytes[..i + 1] == bytes[..i] + [bytes[i]];
    ValueSnoc(bytes[..i], bytes[i]);
    ShiftFits(Low(bytes[i]), 7 * i);
    DisjointOr(Value(bytes[..i]), Low(bytes[i]), 7 * i);
    TopGroupFits(bytes[..i + 1]);
  }

  /** Nine groups, or ten whose last is 0 or 1, are below 2^64. */
  lemma TopGroupFits(bytes: seq<Byte>)
    requires |bytes| <= 9 || (|bytes| == 10 && Low(bytes[9]) <= 1)
    ensures Value(bytes) < U64_LIMIT
  {
    PowersAt();
    if |bytes| <= 9 {
      ValueSnoc(bytes, 0);
      Pow2Grows(7 * |bytes|, 63);
    } else {
      ValueSnoc(bytes[..9], bytes[9]);
      assert bytes == bytes[..9] + [bytes[9]];
    }
  }

  lemma {:induction false} LengthIs(bytes: seq<Byte>, n: nat)
    requires 0 < n <= |bytes| && !Continues(bytes[n - 1]) && forall i :: 0 <= i < n - 1 ==> Continues(bytes[i])
    ensures Length(bytes) == Some(n)
  {
    var l := Length(bytes);
    assert l.Some? && l.value <= n;
  }

  /** A tenth byte above 1 makes the number too large or too long. */
  lemma TooLarge(bytes: seq<Byte>)
    requires |bytes| >= 10 && bytes[9] > 1 && forall i :: 0 <= i < 9 ==> Continues(bytes[i])
    ensures Read(bytes) == None
  {
    if !Continues(bytes[9]) {
      LengthIs(bytes, 10);
      PowersAt();
      var front := bytes[..10][..9];
      assert bytes[..10] == front + [bytes[9]];
      ValueSnoc(front, bytes[9]);
      AtMost(2, Low(bytes[9]), Pow2(63), Pow2(63));
    }
  }

  /** The reader inverts the encoder on every 64-bit number, whatever follows. */
  lemma ReadInvertsEncode(v: u64, rest: seq<Byte>)
    ensures Read(Encode(v) + rest) == Some((v, rest))
  {
    EncodeShape(v, rest);
    PowersAt();
    Pow2Grows(64, 70);
    EncodeIsShort(v, 10);
    assert (Encode(v) + rest)[..|Encode(v)|] == Encode(v);
    assert (Encode(v) + rest)[|Encode(v)|..] == rest;
  }

  lemma {:induction false} EncodeShape(v: nat, rest: seq<Byte>)
    ensures Length(Encode(v) + rest) == Some(|Encode(v)|) && Value(Encode(v)) == v
  {
    var all := Encode(v) + rest;
    if v >= 128 {
      EncodeShape(v / 128, rest);
      assert all[1..] == Encode(v / 128) + rest;
      assert Encode(v)[1..] == Encode(v / 128);
      assert Low(v % 128 + 128) == v % 128;
    } else {
      assert Encode(v)[1..] == [];
    }
  }

  lemma {:induction false} EncodeIsShort(v: nat, n: nat)
    requires n > 0 && v < Pow2(7 * n) && n <= 10
    ensures |Encode(v)| <= n
  {
    if v >= 128 {
      assert Pow2(7) == 128;
      if n == 1 {
        assert false;
      } else {
        SevenMore(n - 1);
        EncodeIsShort(v / 128, n - 1);
      }
    }
  }

  /** No encoding of a number is shorter than the encoder's. */
  lemma {:induction false} EncodeIsShortest(bytes: seq<Byte>)
    requires bytes != [] && Length(bytes) == Some(|bytes|)
    ensures |Encode(Value(bytes))| <= |bytes|
  {
    if |bytes| > 1 {
      assert Length(bytes[1..]) == Some(|bytes| - 1);
      EncodeIsShortest(bytes[1..]);
      assert Value(bytes) / 128 == Value(bytes[1..]);
    } else {
      assert bytes[1..] == [];
    }
  }

  // ----- function starts -----

  /** Deltas until a zero or the end; addresses are summed in 64 bits and cut to 32. */
  function DecodeStarts(previous: u64, bytes: seq<Byte>): seq<u32>
    decreases |bytes|
  {
    match Read(bytes)
    case None => []
    case Some((delta, rest)) =>
      if delta == 0 then []
      else
        ReadShortens(bytes);
        var address := (previous + delta) % U64_LIMIT;
        [AsU32(address)] + DecodeStarts(address, rest)
  }

  lemma ReadShortens(bytes: seq<Byte>)
    requires Read(bytes).Some?
    ensures |Read(bytes).value.1| < |bytes|
  {
  }

  method GetFunctionStarts(data: seq<Byte>) returns (starts: seq<u32>)
    ensures starts == DecodeStarts(0, data)
  {
    starts := [];
    var previous: u64 := 0;
    var bytes := data;
    while true
      invariant starts + DecodeStarts(previous, bytes) == DecodeStarts(0, data)
      decreases |bytes|
    {
      var r := ReadUleb128(bytes);
      if r.None? {
        break;
      }
      var (delta, rest) := r.value;
      if delta == 0 {
        break;
      }
      ReadShortens(bytes);
      bytes := rest;
      var address := (previous + delta) % U64_LIMIT;
      AppendAssociates(starts, AsU32(address), DecodeStarts(address, rest));
      starts := starts + [AsU32(address)];
      previous := address;
    }
  }

  ghost predicate StrictlyIncreasing(previous: nat, starts: seq<u32>)
    decreases |starts|
  {
    starts != [] ==> previous < starts[0] && StrictlyIncreasing(starts[0], starts[1..])
  }

  /** What a linker writes: the deltas, then a zero. */
  function EncodeStarts(previous: nat, starts: seq<u32>): seq<Byte>
    requires StrictlyIncreasing(previous, starts)
    decreases |starts|
  {
    if starts == [] then Encode(0) else Encode(starts[0] - previous) + EncodeStarts(starts[0], starts[1..])
  }

  /** Every strictly increasing list of non-zero 32-bit addresses is decoded again, whatever follows it. */
  lemma {:induction false} StartsRoundTrip(previous: u32, starts: seq<u32>, padding: seq<Byte>)
    requires StrictlyIncreasing(previous, starts)
    ensures DecodeStarts(previous, EncodeStarts(previous, starts) + padding) == starts
    decreases |starts|
  {
    hide Read, Encode;
    if starts == [] {
      ReadInvertsEncode(0, padding);
    } else {
      var tail := EncodeStarts(starts[0], starts[1..]) + padding;
      ReadInvertsEncode(starts[0] - previous, tail);
      assert EncodeStarts(previous, starts) + padding == Encode(starts[0] - previous) + tail;
      StartsRoundTrip(starts[0], starts[1..], padding);
      assert AsU32(starts[0]) == starts[0];
    }
  }
}
