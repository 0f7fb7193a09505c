/** Vocabulary shared by the whole model: optional and fallible values, fixed-width
    integers, string ordering and number formatting. */
module Prelude {

  datatype Option<+T> = None | Some(value: T)

  datatype Result<+T, +E> = Ok(value: T) | Err(error: E)

  const U32_LIMIT: nat := 0x1_0000_0000
  const U64_LIMIT: nat := 0x1_0000_0000_0000_0000

  type Byte = x: int | 0 <= x < 256
  type u32 = x: int | 0 <= x < 0x1_0000_0000
  type u64 = x: int | 0 <= x < 0x1_0000_0000_0000_0000

  type i32 = x: int | -0x8000_0000 <= x < 0x8000_0000
  type i64 = x: int | -0x8000_0000_0000_0000 <= x < 0x8000_0000_0000_0000

  lemma AppendAssociates<T>(a: seq<T>, x: T, b: seq<T>)
    ensures a + ([x] + b) == (a + [x]) + b
  {
  }

  ghost predicate Ascending(keys: seq<int>) {
    forall i, j :: 0 <= i < j < |keys| ==> keys[i] <= keys[j]
  }

  predicate FitsI32(n: int) {
    -0x8000_0000 <= n < 0x8000_0000
  }

  /** What a sum of `i32` becomes when it is kept in 32 bits. */
  function WrapI32(n: int): i32 {
    (n + 0x8000_0000) % U32_LIMIT - 0x8000_0000
  }

  /** Wrapping after every addition is wrapping once at the end. */
  lemma WrapOfSum(a: int, b: int)
    ensures WrapI32(WrapI32(a) + b) == WrapI32(a + b)
    ensures WrapI32(a) == a <==> FitsI32(a)
    ensures (WrapI32(a) - a) % U32_LIMIT == 0
  {
  }

  /** The narrowing cast `n as u32`: the low 32 bits. */
  function AsU32(n: nat): u32 {
    n % U32_LIMIT
  }

  function Min(a: int, b: int): int {
    if a <= b then a else b
  }

  function Max(a: int, b: int): int {
    if a <= b then b else a
  }

  /** `a.saturating_sub(b)` on unsigned integers. */
  function SaturatingSub(a: nat, b: nat): nat {
    if a < b then 0 else a - b
  }

  function DigitChar(d: nat): char
    requires d < 16
  {
    "0123456789abcdef"[d]
  }

  /** What `{n}` prints. */
  function DecimalDigits(n: nat): string {
    if n < 10 then [DigitChar(n)] else DecimalDigits(n / 10) + [DigitChar(n % 10)]
  }

  /** What `{n:x}` prints. */
  function HexDigits(n: nat): string {
    if n < 16 then [DigitChar(n)] else HexDigits(n / 16) + [DigitChar(n % 16)]
  }

  /** The label `0x{address:x}`. */
  function HexLabel(address: nat): string {
    "0x" + HexDigits(address)
  }

  // ----- what printed numbers read as -----

  function DigitValue(c: char): nat {
    if '0' <= c <= '9' then c as nat - '0' as nat else if 'a' <= c <= 'f' then c as nat - 'a' as nat + 10 else 16
  }

  function ReadDigits(s: string, base: nat): nat {
    if s == [] then 0 else ReadDigits(s[..|s| - 1], base) * base + DigitValue(s[|s| - 1])
  }

  /** The string is the number, in lower-case digits of the base and without leading zeros. */
  ghost predicate Prints(s: string, n: nat, base: nat) {
    && s != [] && (forall i :: 0 <= i < |s| ==> DigitValue(s[i]) < base)
    && (|s| > 1 ==> s[0] != '0') && ReadDigits(s, base) == n
  }

  /** The string is `0x` and the number in hex. */
  ghost predicate ShowsHex(s: string, n: nat) {
    |s| > 2 && s[0] == '0' && s[1] == 'x' && Prints(s[2..], n, 16)
  }

  lemma DigitCharReads(d: nat)
    requires d < 16
    ensures DigitValue(DigitChar(d)) == d && (DigitChar(d) == '0' <==> d == 0)
  {
  }

  lemma CharOfDigit(c: char)
    requires DigitValue(c) < 16
    ensures DigitChar(DigitValue(c)) == c
  {
    var d := DigitValue(c);
    assert c == if d < 10 then ('0' as nat + d) as char else ('a' as nat + d - 10) as char;
  }

  lemma PrintsOneMore(s: string, n: nat, c: char, d: nat, base: nat)
    requires 0 < n && Prints(s, n, base) && d < base && DigitValue(c) == d
    ensures Prints(s + [c], n * base + d, base)
  {
    assert (s + [c])[..|s|] == s;
    assert |s| == 1 ==> s[..|s| - 1] == [] && ReadDigits(s[..|s| - 1], base) * base == 0;
  }

  lemma {:induction false} HexDigitsPrint(n: nat)
    ensures Prints(HexDigits(n), n, 16)
  {
    if n < 16 {
      DigitCharReads(n);
      assert HexDigits(n)[..0] == [];
    } else {
      HexDigitsPrint(n / 16);
      DigitCharReads(n % 16);
      PrintsOneMore(HexDigits(n / 16), n / 16, DigitChar(n % 16), n % 16, 16);
    }
  }

  lemma {:induction false} DecimalDigitsPrint(n: nat)
    ensures Prints(DecimalDigits(n), n, 10)
  {
    if n < 10 {
      DigitCharReads(n);
      assert DecimalDigits(n)[..0] == [];
    } else {
      DecimalDigitsPrint(n / 10);
      DigitCharReads(n % 10);
      PrintsOneMore(DecimalDigits(n / 10), n / 10, DigitChar(n % 10), n % 10, 10);
    }
  }

  lemma {:induction false} LeadingDigitCounts(s: string, base: nat)
    requires s != [] && s[0] != '0' && DigitValue(s[0]) < base && base > 0
    ensures ReadDigits(s, base) > 0
  {
    if |s| == 1 {
      assert s[..0] == [];
    } else {
      LeadingDigitCounts(s[..|s| - 1], base);
    }
  }

  lemma HexOneMore(m: nat, d: nat)
    requires 0 < m && d < 16
    ensures HexDigits(m * 16 + d) == HexDigits(m) + [DigitChar(d)]
  {
    assert (m * 16 + d) / 16 == m && (m * 16 + d) % 16 == d;
  }

  lemma FrontPrints(s: string, n: nat, m: nat, d: nat)
    requires Prints(s, n, 16) && |s| > 1 && m == ReadDigits(s[..|s| - 1], 16) && d == DigitValue(s[|s| - 1])
    ensures 0 < m && d < 16 && n == m * 16 + d && Prints(s[..|s| - 1], m, 16)
  {
    LeadingDigitCounts(s[..|s| - 1], 16);
  }

  lemma OneHexDigit(s: string, n: nat)
    requires Prints(s, n, 16) && |s| == 1
    ensures s == HexDigits(n)
  {
    assert s[..|s| - 1] == [] && s == [s[0]];
    assert ReadDigits(s[..|s| - 1], 16) == 0;
    CharOfDigit(s[0]);
  }

  /** No other string prints the number. */
  lemma {:induction false} HexIsUnique(s: string, n: nat)
    requires Prints(s, n, 16)
    ensures s == HexDigits(n)
  {
    hide *;
    if |s| == 1 {
      OneHexDigit(s, n);
    } else {
      SomeDigit(s, n);
      var front, last := s[..|s| - 1], s[|s| - 1];
      var m, d := ReadDigits(front, 16), DigitValue(last);
      FrontPrints(s, n, m, d);
      CharOfDigit(last);
      HexIsUnique(front, m);
      HexOneMore(m, d);
      assert s == front + [last];
    }
  }

  lemma SomeDigit(s: string, n: nat)
    requires Prints(s, n, 16)
    ensures s != []
  {
  }

  /** The label of an address is the string that shows it in hex, and no other. */
  lemma HexLabelReads(s: string, address: nat)
    ensures s == HexLabel(address) <==> ShowsHex(s, address)
  {
    HexDigitsPrint(address);
    assert HexLabel(address)[2..] == HexDigits(address);
    if ShowsHex(s, address) {
      HexIsUnique(s[2..], address);
      assert s == s[..2] + s[2..];
    }
  }

  lemma DecimalDigitsShape(n: nat)
    ensures '.' !in DecimalDigits(n)
  {
    DecimalDigitsPrint(n);
    assert forall i :: 0 <= i < |DecimalDigits(n)| ==> DigitValue(DecimalDigits(n)[i]) != DigitValue('.');
  }

  /** Different numbers print differently. */
  lemma DecimalDigitsInjective(m: nat, n: nat)
    requires DecimalDigits(m) == DecimalDigits(n)
    ensures m == n
  {
    DecimalDigitsPrint(m);
    DecimalDigitsPrint(n);
  }

  /** Different addresses have different labels. */
  lemma HexLabelInjective(m: nat, n: nat)
    requires HexLabel(m) == HexLabel(n)
    ensures m == n
  {
    HexLabelReads(HexLabel(m), m);
    HexLabelReads(HexLabel(m), n);
  }

  /** Lexicographic order on strings. */
  predicate StringLeq(a: string, b: string) {
    a == [] || (b != [] && (a[0] < b[0] || (a[0] == b[0] && StringLeq(a[1..], b[1..]))))
  }

  lemma {:induction false} StringLeqTotal(a: string, b: string)
    ensures StringLeq(a, b) || StringLeq(b, a)
    ensures StringLeq(a, a)
    ensures StringLeq(a, b) && StringLeq(b, a) ==> a == b
  {
    if a != [] {
      StringLeqTotal(a[1..], if b == [] then [] else b[1..]);
      if b != [] && a[0] == b[0] {
        assert a == [a[0]] + a[1..] && b == [b[0]] + b[1..];
      }
    }
  }

  /** A prefix of the other, or smaller at the first difference. */
  ghost predicate LexBefore(a: string, b: string) {
    a <= b || exists i :: 0 <= i < |a| && i < |b| && a[..i] == b[..i] && a[i] < b[i]
  }

  lemma LexBeforeByHead(a: string, b: string)
    requires a != [] && b != [] && a[0] != b[0]
    ensures LexBefore(a, b) <==> a[0] < b[0]
  {
    forall i | 0 < i < |a| && i < |b|
      ensures a[..i] != b[..i]
    {
      assert a[..i][0] == a[0] && b[..i][0] == b[0];
    }
    assert a[..0] == b[..0];
  }

  lemma LexBeforeIntoTail(a: string, b: string)
    requires a != [] && b != [] && a[0] == b[0] && LexBefore(a, b)
    ensures LexBefore(a[1..], b[1..])
  {
    if !(a <= b) {
      var i :| 0 <= i < |a| && i < |b| && a[..i] == b[..i] && a[i] < b[i];
      assert a[1..][..i - 1] == a[..i][1..] && b[1..][..i - 1] == b[..i][1..];
      assert a[1..][i - 1] < b[1..][i - 1];
    }
  }

  lemma LexBeforeFromTail(a: string, b: string)
    requires a != [] && b != [] && a[0] == b[0] && LexBefore(a[1..], b[1..])
    ensures LexBefore(a, b)
  {
    var s, t := a[1..], b[1..];
    if s <= t {
      assert a == [a[0]] + s && b == [b[0]] + t;
    } else {
      var i :| 0 <= i < |s| && i < |t| && s[..i] == t[..i] && s[i] < t[i];
      assert a[..i + 1] == [a[0]] + s[..i] && b[..i + 1] == [b[0]] + t[..i];
      assert a[i + 1] < b[i + 1];
    }
  }

  lemma {:induction false} StringLeqIsLexicographic(a: string, b: string)
    ensures StringLeq(a, b) <==> LexBefore(a, b)
  {
    if a != [] && b != [] {
      hide LexBefore;
      if a[0] != b[0] {
        LexBeforeByHead(a, b);
      } else {
        StringLeqIsLexicographic(a[1..], b[1..]);
        if LexBefore(a, b) {
          LexBeforeIntoTail(a, b);
        }
        if LexBefore(a[1..], b[1..]) {
          LexBeforeFromTail(a, b);
        }
      }
    }
  }

  lemma {:induction false} StringLeqTransitive(a: string, b: string, c: string)
    requires StringLeq(a, b) && StringLeq(b, c)
    ensures StringLeq(a, c)
  {
    if a != [] && a[0] == b[0] == c[0] {
      StringLeqTransitive(a[1..], b[1..], c[1..]);
    }
  }
}
