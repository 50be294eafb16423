/**
 The 64-bit FNV-1 fold behind workspace digests and session ids (multiply first, then
 exclusive-or the byte), on integers below 2^64, and its 16-digit hexadecimal form.

 A step of the fold can be undone for a known byte, because the multiplier is odd; so two inputs
 that differ in one place never meet again. The hexadecimal form can be read back.
 */
module WorkspaceDigest {

  const MODULUS: int := 0x1_0000_0000_0000_0000
  const PRIME: int := 0x100_0000_01b3
  const OFFSET_BASIS: Word := 0xcbf2_9ce4_8422_2325

  /** The multiplier is odd, so it has an inverse modulo 2^64. */
  const PRIME_INVERSE: int := 0xce96_5057_aff6_957b
  const INVERSE_QUOTIENT: int := 0xce_9650_590f

  type Byte = b: int | 0 <= b < 256
  type Word = w: int | 0 <= w < 0x1_0000_0000_0000_0000

  /** Exclusive or of the `width` low bits, bit by bit. */
  function Xor(a: nat, b: nat, width: nat): (r: nat)
    ensures r < Power(2, width)
  {
    if width == 0 then 0 else (a + b) % 2 + 2 * Xor(a / 2, b / 2, width - 1)
  }

  function Power(base: nat, exponent: nat): nat {
    if exponent == 0 then 1 else base * Power(base, exponent - 1)
  }

  lemma ByteWidth()
    ensures Power(2, 8) == 256
  {
    assert Power(2, 4) == 16;
  }

  /** `word ^ u64::from(byte)`: only the low eight bits change. */
  function XorLow(w: Word, b: Byte): Word {
    ByteWidth();
    w - w % 256 + Xor(w % 256, b, 8)
  }

  function WrappingMul(w: Word, factor: int): Word {
    w * factor % MODULUS
  }

  function Step(h: Word, b: Byte): Word {
    XorLow(WrappingMul(h, PRIME), b)
  }

  function Fold(h: Word, bytes: seq<Byte>): Word
    decreases |bytes|
  {
    if |bytes| == 0 then h else Fold(Step(h, bytes[0]), bytes[1..])
  }

  function Digest(bytes: seq<Byte>): Word {
    Fold(OFFSET_BASIS, bytes)
  }

  // ---- One step can be undone ----

  lemma LowBit(digit: nat, rest: nat)
    requires digit < 2
    ensures (digit + 2 * rest) / 2 == rest && (digit + 2 * rest) % 2 == digit
  {
  }

  lemma BitCancels(a: nat, b: nat)
    ensures ((a + b) % 2 + b) % 2 == a % 2
  {
  }

  lemma SameBit(x: nat, b: nat, digit: nat)
    requires x % 2 == digit < 2
    ensures (x + b) % 2 == (digit + b) % 2
  {
  }

  lemma {:induction false} XorCancels(a: nat, b: nat, width: nat)
    requires a < Power(2, width)
    ensures Xor(Xor(a, b, width), b, width) == a
  {
    if width > 0 {
      var x, digit, rest := Xor(a, b, width), (a + b) % 2, Xor(a / 2, b / 2, width - 1);
      XorCancels(a / 2, b / 2, width - 1);
      LowBit(digit, rest);
      SameBit(x, b, digit);
      BitCancels(a, b);
      assert x / 2 == rest;
    }
  }

  lemma BitSeparates(a: nat, x: nat, y: nat)
    ensures (a + x) % 2 == (a + y) % 2 <==> x % 2 == y % 2
  {
  }

  lemma {:induction false} XorSeparates(a: nat, x: nat, y: nat, width: nat)
    requires x < Power(2, width) && y < Power(2, width)
    ensures Xor(a, x, width) == Xor(a, y, width) <==> x == y
  {
    if width > 0 {
      XorSeparates(a / 2, x / 2, y / 2, width - 1);
      BitSeparates(a, x, y);
      LowBit((a + x) % 2, Xor(a / 2, x / 2, width - 1));
      LowBit((a + y) % 2, Xor(a / 2, y / 2, width - 1));
      assert x == 2 * (x / 2) + x % 2 && y == 2 * (y / 2) + y % 2;
    }
  }

  lemma LowByte(w: int, low: nat)
    requires low < 256
    ensures (w - w % 256 + low) % 256 == low
  {
    var q := w / 256;
    assert w - w % 256 + low == 256 * q + low;
  }

  lemma XorLowCancels(w: Word, b: Byte)
    ensures XorLow(XorLow(w, b), b) == w
  {
    ByteWidth();
    var low := Xor(w % 256, b, 8);
    LowByte(w, low);
    XorCancels(w % 256, b, 8);
    assert XorLow(XorLow(w, b), b) == w - w % 256 + Xor(low, b, 8);
  }

  lemma ModuloAbsorbs(x: int, k: int)
    ensures (x + k * MODULUS) % MODULUS == x % MODULUS
  {
    var q := x / MODULUS;
    assert x + k * MODULUS == (q + k) * MODULUS + x % MODULUS;
  }

  lemma WrappingMulCancels(w: Word)
    ensures WrappingMul(WrappingMul(w, PRIME), PRIME_INVERSE) == w
  {
    var p := w * PRIME;
    var q := p / MODULUS;
    var k := w * INVERSE_QUOTIENT - q * PRIME_INVERSE;
    assert PRIME * PRIME_INVERSE == 1 + INVERSE_QUOTIENT * MODULUS;
    calc {
      (p % MODULUS) * PRIME_INVERSE;
      (p - q * MODULUS) * PRIME_INVERSE;
      w * (PRIME * PRIME_INVERSE) - q * PRIME_INVERSE * MODULUS;
      w + k * MODULUS;
    }
    ModuloAbsorbs(w, k);
  }

  /** For a fixed byte one step of the fold is a bijection on 64-bit words. */
  lemma StepInvertible(h: Word, b: Byte)
    ensures WrappingMul(XorLow(Step(h, b), b), PRIME_INVERSE) == h
  {
    XorLowCancels(WrappingMul(h, PRIME), b);
    WrappingMulCancels(h);
  }

  lemma StepSeparatesBytes(h: Word, a: Byte, b: Byte)
    ensures Step(h, a) == Step(h, b) <==> a == b
  {
    ByteWidth();
    XorSeparates(WrappingMul(h, PRIME) % 256, a, b, 8);
  }

  // ---- Whole inputs ----

  lemma {:induction false} FoldAppend(h: Word, x: seq<Byte>, y: seq<Byte>)
    ensures Fold(h, x + y) == Fold(Fold(h, x), y)
    decreases |x|
  {
    if |x| == 0 {
      assert x + y == y;
    } else {
      assert (x + y)[1..] == x[1..] + y;
      FoldAppend(Step(h, x[0]), x[1..], y);
    }
  }

  /** A common suffix neither merges nor splits digests. */
  lemma {:induction false} SuffixCancels(g: Word, h: Word, suffix: seq<Byte>)
    ensures Fold(g, suffix) == Fold(h, suffix) <==> g == h
    decreases |suffix|
  {
    if |suffix| > 0 {
      StepInvertible(g, suffix[0]);
      StepInvertible(h, suffix[0]);
      SuffixCancels(Step(g, suffix[0]), Step(h, suffix[0]), suffix[1..]);
    }
  }

  /** The digests of the empty text, of `f` and of `fo` in the test vectors of the draft. */
  lemma KnownDigests(f: Byte, o: Byte)
    requires f == 0x66 && o == 0x6f
    ensures Digest([]) == 0xcbf2_9ce4_8422_2325
    ensures Digest([f]) == 0xaf63_bd4c_8601_b7b9
    ensures Digest([f, o]) == 0x0832_6207_b4eb_2f34
  {
    var h := OFFSET_BASIS;
    FirstKnownStep(h, f);
    SecondKnownStep(Step(h, f), o);
    FoldTwo(h, f, o);
  }

  lemma FoldTwo(h: Word, a: Byte, b: Byte)
    ensures Fold(h, [a]) == Step(h, a) && Fold(h, [a, b]) == Step(Step(h, a), b)
  {
    FoldFirst(h, a, []);
    FoldFirst(h, a, [b]);
    FoldFirst(Step(h, a), b, []);
    assert [a] + [] == [a] && [a] + [b] == [a, b] && [b] + [] == [b];
  }

  lemma FoldFirst(h: Word, a: Byte, rest: seq<Byte>)
    ensures Fold(h, [a] + rest) == Fold(Step(h, a), rest)
  {
    assert ([a] + rest)[1..] == rest;
  }

  lemma FirstKnownStep(h: Word, b: Byte)
    requires h == 0xcbf2_9ce4_8422_2325 && b == 0x66
    ensures Step(h, b) == 0xaf63_bd4c_8601_b7b9
  {
    FirstKnownXor();
    WrappedTo(h, 0xaf63_bd4c_8601_b7df, 0xcbf29ce5de);
    StepByParts(h, b, 0xaf_63bd_4c86_01b7, 0xdf, 0xb9);
  }

  lemma SecondKnownStep(h: Word, b: Byte)
    requires h == 0xaf63_bd4c_8601_b7b9 && b == 0x6f
    ensures Step(h, b) == 0x0832_6207_b4eb_2f34
  {
    SecondKnownXor();
    WrappedTo(h, 0x0832_6207_b4eb_2f5b, 0xaf63bd4db0);
    StepByParts(h, b, 0x08_3262_07b4_eb2f, 0x5b, 0x34);
  }

  lemma StepByParts(h: Word, b: Byte, high: nat, low: nat, changed: nat)
    requires WrappingMul(h, PRIME) == 256 * high + low && low < 256 && Xor(low, b, 8) == changed
    ensures Step(h, b) == 256 * high + changed
  {
    LowByteOf(WrappingMul(h, PRIME), high, low);
    XorLowByParts(WrappingMul(h, PRIME), b, high, low);
  }

  lemma LowByteOf(n: nat, high: nat, low: nat)
    requires n == 256 * high + low && low < 256
    ensures n % 256 == low
  {
  }

  lemma XorLowByParts(w: Word, b: Byte, high: nat, low: nat)
    requires w == 256 * high + low && w % 256 == low
    ensures XorLow(w, b) == 256 * high + Xor(low, b, 8)
  {
  }

  lemma WrappedTo(h: Word, product: nat, quotient: nat)
    requires h * PRIME == quotient * MODULUS + product && product < MODULUS
    ensures WrappingMul(h, PRIME) == product
  {
  }

  lemma FirstKnownXor()
    ensures Xor(0xdf, 0x66, 8) == 0xb9
  {
    assert Xor(0x1, 0x0, 1) == 0x1;
    assert Xor(0x3, 0x1, 2) == 0x2;
    assert Xor(0x6, 0x3, 3) == 0x5;
    assert Xor(0xd, 0x6, 4) == 0xb;
    assert Xor(0x1b, 0xc, 5) == 0x17;
    assert Xor(0x37, 0x19, 6) == 0x2e;
    assert Xor(0x6f, 0x33, 7) == 0x5c;
    assert Xor(0xdf, 0x66, 8) == 0xb9;
  }

  lemma SecondKnownXor()
    ensures Xor(0x5b, 0x6f, 8) == 0x34
  {
    assert Xor(0x0, 0x0, 1) == 0x0;
    assert Xor(0x1, 0x1, 2) == 0x0;
    assert Xor(0x2, 0x3, 3) == 0x1;
    assert Xor(0x5, 0x6, 4) == 0x3;
    assert Xor(0xb, 0xd, 5) == 0x6;
    assert Xor(0x16, 0x1b, 6) == 0xd;
    assert Xor(0x2d, 0x37, 7) == 0x1a;
    assert Xor(0x5b, 0x6f, 8) == 0x34;
  }

  ghost predicate DifferExactlyAt(x: seq<Byte>, y: seq<Byte>, i: nat) {
    && |x| == |y|
    && i < |x|
    && forall j | 0 <= j < |x| :: x[j] != y[j] <==> j == i
  }

  lemma OneByteDecidesDigest(x: seq<Byte>, y: seq<Byte>, i: nat)
    requires |x| == |y| && i < |x|
    requires forall j | 0 <= j < |x| && j != i :: x[j] == y[j]
    ensures Digest(x) == Digest(y) <==> x[i] == y[i]
  {
    var prefix, suffix := x[..i], x[i + 1..];
    assert x == prefix + ([x[i]] + suffix);
    assert y == prefix + ([y[i]] + suffix);
    FoldAppend(OFFSET_BASIS, prefix, [x[i]] + suffix);
    FoldAppend(OFFSET_BASIS, prefix, [y[i]] + suffix);
    var h := Fold(OFFSET_BASIS, prefix);
    assert ([x[i]] + suffix)[1..] == suffix && ([y[i]] + suffix)[1..] == suffix;
    StepSeparatesBytes(h, x[i], y[i]);
    SuffixCancels(Step(h, x[i]), Step(h, y[i]), suffix);
  }

  // ---- Sixteen hexadecimal digits ----

  function HexDigit(d: int): char
    requires 0 <= d < 16
  {
    if d < 10 then '0' + d as char else 'a' + (d - 10) as char
  }

  function HexValue(c: char): int {
    if '0' <= c <= '9' then (c - '0') as int else (c as int) - ('a' as int) + 10
  }

  /** The `width` low hexadecimal digits of `n`, most significant first. */
  function Hex(n: nat, width: nat): string {
    if width == 0 then "" else Hex(n / 16, width - 1) + [HexDigit(n % 16)]
  }

  function ParseHex(s: string): int {
    if s == "" then 0 else 16 * ParseHex(s[..|s| - 1]) + HexValue(s[|s| - 1])
  }

  lemma {:induction false} HexRoundTrip(n: nat, width: nat)
    requires n < Power(16, width)
    ensures |Hex(n, width)| == width
    ensures ParseHex(Hex(n, width)) == n
  {
    if width > 0 {
      HexRoundTrip(n / 16, width - 1);
      var s := Hex(n, width);
      assert s[..|s| - 1] == Hex(n / 16, width - 1);
    }
  }

  lemma {:induction false} HexAlphabet(n: nat, width: nat, k: nat)
    requires k < |Hex(n, width)|
    ensures '0' <= Hex(n, width)[k] <= '9' || 'a' <= Hex(n, width)[k] <= 'f'
  {
    if k < |Hex(n / 16, width - 1)| {
      HexAlphabet(n / 16, width - 1, k);
    }
  }

  lemma Hex16Injective(m: Word, n: Word)
    ensures |Hex(m, 16)| == 16
    ensures Hex(m, 16) == Hex(n, 16) <==> m == n
  {
    assert Power(16, 16) == MODULUS by {
      assert Power(16, 8) == 0x1_0000_0000;
      assert Power(16, 12) == 0x1_0000_0000_0000;
    }
    HexRoundTrip(m, 16);
    HexRoundTrip(n, 16);
  }

  // ---- The two ids ----

  /** The status listing of the work tree, digested and printed. */
  function WorkspaceDigestText(status: seq<Byte>): string {
    "workspace-" + Hex(Digest(status), 16)
  }

  /** Two listings of one length that differ in exactly one byte never share a digest. */
  lemma OneByteChangesWorkspaceDigest(x: seq<Byte>, y: seq<Byte>, i: nat)
    requires DifferExactlyAt(x, y, i)
    ensures WorkspaceDigestText(x) != WorkspaceDigestText(y)
  {
    OneByteDecidesDigest(x, y, i);
    Hex16Injective(Digest(x), Digest(y));
    PrefixCancels("workspace-", Hex(Digest(x), 16), Hex(Digest(y), 16));
  }

  lemma PrefixCancels(prefix: string, x: string, y: string)
    ensures prefix + x == prefix + y <==> x == y
  {
    assert (prefix + x)[|prefix|..] == x;
    assert (prefix + y)[|prefix|..] == y;
  }

  /** Backslashes become slashes and ASCII letters lower case. */
  function NormalizeByte(b: Byte): Byte {
    if b == 0x5c then 0x2f else if 0x41 <= b <= 0x5a then b + 0x20 else b
  }

  function NormalizePath(path: seq<Byte>): (r: seq<Byte>)
    ensures |r| == |path|
    ensures forall i | 0 <= i < |path| :: r[i] == NormalizeByte(path[i])
  {
    seq(|path|, i requires 0 <= i < |path| => NormalizeByte(path[i]))
  }

  function RepositorySessionId(path: seq<Byte>): string {
    "repo-" + Hex(Digest(NormalizePath(path)), 16)
  }

  /** A backslash is a slash, and letters are the same in either case. */
  lemma SameLetterOrSeparator(a: Byte, b: Byte)
    ensures NormalizeByte(a) == NormalizeByte(b)
       <==> || a == b
            || {a, b} == {0x5c, 0x2f}
            || (0x41 <= a <= 0x5a && b == a + 0x20)
            || (0x41 <= b <= 0x5a && a == b + 0x20)
  {
    assert a in {a, b} && b in {a, b};
  }

  /**
   Paths that agree everywhere but at one position get the same session id exactly
   when the two bytes there differ by letter case or by the kind of separator.
   */
  lemma OneByteDecidesSessionId(x: seq<Byte>, y: seq<Byte>, i: nat)
    requires |x| == |y| && i < |x|
    requires forall j | 0 <= j < |x| && j != i :: x[j] == y[j]
    ensures RepositorySessionId(x) == RepositorySessionId(y)
       <==> || x[i] == y[i]
            || {x[i], y[i]} == {0x5c, 0x2f}
            || (0x41 <= x[i] <= 0x5a && y[i] == x[i] + 0x20)
            || (0x41 <= y[i] <= 0x5a && x[i] == y[i] + 0x20)
  {
    SameLetterOrSeparator(x[i], y[i]);
    var nx, ny := NormalizePath(x), NormalizePath(y);
    OneByteDecidesDigest(nx, ny, i);
    Hex16Injective(Digest(nx), Digest(ny));
    PrefixCancels("repo-", Hex(Digest(nx), 16), Hex(Digest(ny), 16));
  }

  /** What the checkpoint store demands of an id before it names a file after it. */
  predicate OpaqueIdCharacter(c: char) {
    '0' <= c <= '9' || 'a' <= c <= 'z' || 'A' <= c <= 'Z' || c == '_' || c == '-' || c == '.'
  }

  predicate ValidOpaqueId(id: string) {
    id != "" && |id| <= 128 && forall i | 0 <= i < |id| :: OpaqueIdCharacter(id[i])
  }

  /** Every repository path, whatever its bytes, yields an id the checkpoint store accepts. */
  /** It is `repo-` and 16 digits, all of them of the hexadecimal alphabet in lower case. */
  lemma SessionIdIsStorable(path: seq<Byte>)
    ensures ValidOpaqueId(RepositorySessionId(path))
    ensures var id := RepositorySessionId(path);
            |id| == 21 && id[..5] == "repo-" && forall k | 5 <= k < 21 :: '0' <= id[k] <= '9' || 'a' <= id[k] <= 'f'
  {
    var n := Digest(NormalizePath(path));
    Hex16Injective(n, n);
    forall k | 0 <= k < 16
      ensures '0' <= Hex(n, 16)[k] <= '9' || 'a' <= Hex(n, 16)[k] <= 'f'
    {
      HexAlphabet(n, 16, k);
    }
    var id := RepositorySessionId(path);
    assert forall k | 5 <= k < 21 :: id[k] == Hex(n, 16)[k - 5];
  }
}
