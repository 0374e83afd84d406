/** The object hash (internal/tools/hasher/hasher.go): 64-bit FNV-1 (section 2 of draft-eastlake-fnv),
    printed as hexadecimal without padding. */
module Hasher {

  newtype byte = x: int | 0 <= x < 0x100

  const TWO64: int := 0x1_0000_0000_0000_0000
  const PRIME: int := 0x100000001b3
  const BASIS: int := 0xcbf29ce484222325
  /** The inverse of PRIME modulo 2^64. */
  const INVERSE: int := 0xce965057aff6957b

  type Word = x: int | 0 <= x < TWO64 witness 0

  function Pow2(n: nat): nat { if n == 0 then 1 else 2 * Pow2(n - 1) }

  /** Exclusive or of the low bits, bit by bit. */
  function Xor(a: nat, b: nat, bits: nat): (r: nat)
    ensures r < Pow2(bits)
  {
    if bits == 0 then 0 else (a % 2 + b % 2) % 2 + 2 * Xor(a / 2, b / 2, bits - 1)
  }

  function XorByte(a: byte, b: byte): byte {
    assert Pow2(8) == 0x100;
    Xor(a as nat, b as nat, 8) as byte
  }

  function XorLow(h: Word, b: byte): Word {
    h - h % 0x100 + XorByte((h % 0x100) as byte, b) as int
  }

  /** One round of FNV-1: multiply, then exclusive-or the octet into the low byte. */
  function Round(h: Word, b: byte): Word {
    XorLow(h * PRIME % TWO64, b)
  }

  function Fnv(h: Word, data: seq<byte>): Word {
    if data == [] then h else Round(Fnv(h, data[..|data| - 1]), data[|data| - 1])
  }

  // ------------------------------------------------------------ each round is a bijection

  lemma Bits(low: nat, high: nat)
    requires low < 2
    ensures (low + 2 * high) % 2 == low && (low + 2 * high) / 2 == high
  {
  }

  lemma BitTwice(x: nat, y: nat)
    requires x < 2 && y < 2
    ensures ((x + y) % 2 + y) % 2 == x
  {
  }

  lemma {:induction false} XorInvolution(a: nat, b: nat, bits: nat)
    requires a < Pow2(bits)
    ensures Xor(Xor(a, b, bits), b, bits) == a
  {
    if bits == 0 {
    } else {
      var low, high := (a % 2 + b % 2) % 2, Xor(a / 2, b / 2, bits - 1);
      Bits(low, high);
      BitTwice(a % 2, b % 2);
      XorInvolution(a / 2, b / 2, bits - 1);
      assert Xor(low + 2 * high, b, bits) == a % 2 + 2 * (a / 2);
    }
  }

  lemma {:induction false} XorSymmetric(a: nat, b: nat, bits: nat)
    ensures Xor(a, b, bits) == Xor(b, a, bits)
  {
    if bits == 0 {
    } else {
      XorSymmetric(a / 2, b / 2, bits - 1);
    }
  }

  lemma XorByteInvolution(a: byte, b: byte)
    ensures XorByte(XorByte(a, b), b) == a && XorByte(b, XorByte(b, a)) == a && XorByte(a, b) == XorByte(b, a)
  {
    assert Pow2(8) == 0x100;
    XorInvolution(a as nat, b as nat, 8);
    XorSymmetric(a as nat, b as nat, 8);
    XorSymmetric(XorByte(a, b) as nat, b as nat, 8);
  }

  lemma InverseWorks()
    ensures PRIME * INVERSE % TWO64 == 1
  {
  }

  lemma MulMod(a: int, b: int, m: int)
    requires m > 0
    ensures (a % m) * b % m == a * b % m
  {
    var q := a / m;
    assert a * b == (a % m) * b + m * (q * b);
    ModShift((a % m) * b, q * b, m);
  }

  lemma ModShift(x: int, k: int, m: int)
    requires m > 0
    ensures (x + m * k) % m == x % m
  {
    var r, d := x % m, x / m;
    assert x + m * k == m * (d + k) + r;
    DivModUnique(x + m * k, d + k, r, m);
  }

  lemma MulAtLeast(m: int, k: nat)
    requires m > 0
    ensures k > 0 ==> m * k >= m
    ensures m * k >= 0
  {
  }

  lemma DivModUnique(x: int, d: int, r: int, m: int)
    requires m > 0 && 0 <= r < m && x == m * d + r
    ensures x % m == r
  {
    var d', r' := x / m, x % m;
    assert x == m * d' + r';
    if d' > d {
      assert m * d' == m * d + m * (d' - d);
      MulAtLeast(m, d' - d);
    } else if d' < d {
      assert m * d == m * d' + m * (d - d');
      MulAtLeast(m, d - d');
    }
  }

  /** Multiplying by the prime loses nothing modulo 2^64. */
  lemma MultiplyInverts(h: Word)
    ensures (h * PRIME % TWO64) * INVERSE % TWO64 == h
  {
    MulMod(h * PRIME, INVERSE, TWO64);
    var k := PRIME * INVERSE / TWO64;
    InverseWorks();
    assert PRIME * INVERSE == TWO64 * k + 1;
    assert h * PRIME * INVERSE == h + TWO64 * (h * k) by {
      assert h * PRIME * INVERSE == h * (PRIME * INVERSE) == h * (TWO64 * k + 1);
    }
    ModShift(h, h * k, TWO64);
  }

  lemma LowByte(h: int, low: byte)
    ensures (h - h % 0x100 + low as int) % 0x100 == low as int
    ensures (h - h % 0x100 + low as int) / 0x100 == h / 0x100
  {
  }

  function Unround(h: Word, b: byte): Word {
    XorLow(h, b) * INVERSE % TWO64
  }

  lemma XorLowInvolution(h: Word, b: byte)
    ensures XorLow(XorLow(h, b), b) == h
  {
    XorByteInvolution((h % 0x100) as byte, b);
    LowByte(h, XorByte((h % 0x100) as byte, b));
  }

  /** For each octet the round has an inverse: nothing that was hashed before is forgotten. */
  lemma RoundInverts(h: Word, b: byte)
    ensures Unround(Round(h, b), b) == h
  {
    XorLowInvolution(h * PRIME % TWO64, b);
    MultiplyInverts(h);
  }

  /** From one state, different octets lead to different states. */
  lemma RoundSeparates(h: Word, b: byte, c: byte)
    requires b != c
    ensures Round(h, b) != Round(h, c)
  {
    var low := ((h * PRIME % TWO64) % 0x100) as byte;
    XorByteInvolution(b, low);
    XorByteInvolution(c, low);
    LowByte(h * PRIME % TWO64, XorByte(low, b));
    LowByte(h * PRIME % TWO64, XorByte(low, c));
  }

  lemma {:induction false} FnvSeparatesStates(g: Word, h: Word, data: seq<byte>)
    requires g != h
    ensures Fnv(g, data) != Fnv(h, data)
  {
    if data == [] {
    } else {
      var init, b := data[..|data| - 1], data[|data| - 1];
      FnvSeparatesStates(g, h, init);
      RoundInverts(Fnv(g, init), b);
      RoundInverts(Fnv(h, init), b);
    }
  }

  lemma {:induction false} FnvConcat(h: Word, xs: seq<byte>, ys: seq<byte>)
    ensures Fnv(h, xs + ys) == Fnv(Fnv(h, xs), ys)
  {
    if ys == [] {
      assert xs + ys == xs;
    } else {
      assert (xs + ys)[..|xs + ys| - 1] == xs + ys[..|ys| - 1];
      FnvConcat(h, xs, ys[..|ys| - 1]);
    }
  }

  /** Inputs that differ in exactly one octet have different hashes. */
  lemma FnvSeparates(h: Word, before: seq<byte>, b: byte, c: byte, after: seq<byte>)
    requires b != c
    ensures Fnv(h, before + [b] + after) != Fnv(h, before + [c] + after)
  {
    forall d ensures Fnv(h, before + [d] + after) == Fnv(Round(Fnv(h, before), d), after) {
      FnvConcat(h, before + [d], after);
      assert (before + [d])[..|before|] == before;
    }
    RoundSeparates(Fnv(h, before), b, c);
    FnvSeparatesStates(Round(Fnv(h, before), b), Round(Fnv(h, before), c), after);
  }

  // ------------------------------------------------------------ the printed form

  const DIGITS: string := "0123456789abcdef"

  function Hex(n: nat): (s: string)
    ensures |s| > 0
  {
    if n < 16 then [DIGITS[n]] else Hex(n / 16) + [DIGITS[n % 16]]
  }

  function DigitValue(c: char): nat {
    if '0' <= c <= '9' then (c as int) - ('0' as int) else if 'a' <= c <= 'f' then (c as int) - ('a' as int) + 10 else 0
  }

  function Unhex(s: string): nat {
    if s == [] then 0 else 16 * Unhex(s[..|s| - 1]) + DigitValue(s[|s| - 1])
  }

  lemma DigitRead(n: nat)
    requires n < 16
    ensures DigitValue(DIGITS[n]) == n
  {
  }

  /** The printed form can be read back, so different hashes print differently. */
  lemma {:induction false} HexReadsBack(n: nat)
    ensures Unhex(Hex(n)) == n
  {
    if n < 16 {
      DigitRead(n);
      assert Hex(n)[..0] == [];
    } else {
      HexReadsBack(n / 16);
      DigitRead(n % 16);
      assert Hex(n)[..|Hex(n)| - 1] == Hex(n / 16);
    }
  }

  /** Only the sixteen digits, in lower case. */
  lemma {:induction false} HexDigits(n: nat)
    ensures forall c :: c in Hex(n) ==> '0' <= c <= '9' || 'a' <= c <= 'f'
  {
    if n >= 16 { HexDigits(n / 16); }
  }

  /** Without padding: no leading zero except for zero itself. */
  lemma {:induction false} HexUnpadded(n: nat)
    ensures n > 0 ==> Hex(n)[0] != '0'
  {
    if n >= 16 { HexUnpadded(n / 16); }
  }

  lemma FnvOne(h: Word, b: byte)
    ensures Fnv(h, [b]) == Round(h, b)
  {
    assert [b][..0] == [] && Fnv(h, []) == h;
  }

  lemma NextXor(a: nat, b: nat, bits: nat, high: nat)
    requires bits > 0 && Xor(a / 2, b / 2, bits - 1) == high
    ensures Xor(a, b, bits) == (a % 2 + b % 2) % 2 + 2 * high
  {
  }

  /** Exclusive or, from the highest bit to the lowest. */
  lemma OneXor(a: byte, b: byte) returns (result: byte)
    requires a == 0xdf && b == 0x61
    ensures XorByte(a, b) == result && result as int == 0xbe
  {
    var x, y := a as nat, b as nat;
    result := 0xbe;
    NextXor(x / 0x80, y / 0x80, 1, 0);
    NextXor(x / 0x40, y / 0x40, 2, 1);
    NextXor(x / 0x20, y / 0x20, 3, 2);
    NextXor(x / 0x10, y / 0x10, 4, 5);
    NextXor(x / 8, y / 8, 5, 0xb);
    NextXor(x / 4, y / 4, 6, 0x17);
    NextXor(x / 2, y / 2, 7, 0x2f);
    NextXor(x, y, 8, 0x5f);
  }

  lemma RoundOf(h: Word, product: Word, low: byte, b: byte, result: byte)
    requires h * PRIME % TWO64 == product && product % 0x100 == low as int && XorByte(low, b) == result
    ensures Fnv(h, []) == h && Fnv(h, [b]) == product - low as int + result as int
  {
    FnvOne(h, b);
  }

  lemma OneProduct(h: Word) returns (product: Word, low: byte)
    requires h == BASIS
    ensures h == 0xcbf29ce484222325 && h * PRIME % TWO64 == product && product % 0x100 == low as int
    ensures product == 0xaf63bd4c8601b7df && low == 0xdf
  {
    assert BASIS * PRIME % TWO64 == 0xaf63bd4c8601b7df;
    product, low := 0xaf63bd4c8601b7df, 0xdf;
  }

  /** The parameters are those of FNV-1 for 64 bits: its hashes of no octets and of "a". */
  lemma TestVectors(h: Word, a: byte)
    requires h == BASIS && a == 0x61
    ensures Fnv(h, []) == 0xcbf29ce484222325
    ensures Fnv(h, [a]) == 0xaf63bd4c8601b7be
  {
    var product, low := OneProduct(h);
    var result := OneXor(low, a);
    RoundOf(h, product, low, a, result);
  }

  /** The hash is cumulative: it is the state of everything written since it was made. */
  class ObjectHash {
    var sum: Word
    ghost var written: seq<byte>

    ghost predicate Valid()
      reads this
    {
      sum == Fnv(BASIS, written)
    }

    constructor NewFNVObjectHash()
      ensures Valid() && written == []
    {
      sum := BASIS;
      written := [];
    }

    method Write(data: seq<byte>)
      requires Valid()
      modifies this
      ensures Valid() && written == old(written) + data
    {
      var h := sum;
      for i := 0 to |data|
        invariant h == Fnv(sum, data[..i])
      {
        assert data[..i + 1][..i] == data[..i];
        h := Round(h, data[i]);
      }
      assert data[..|data|] == data;
      FnvConcat(BASIS, written, data);
      sum, written := h, written + data;
    }

    method SumHashStrings(a: seq<seq<byte>>)
      requires Valid()
      modifies this
      ensures Valid() && written == old(written) + Joined(a)
    {
      for i := 0 to |a|
        invariant Valid() && written == old(written) + Joined(a[..i])
      {
        JoinedStep(a, i);
        Write(a[i]);
      }
      assert a[..|a|] == a;
    }

    method GetHash() returns (s: string)
      requires Valid()
      ensures s == Hex(Fnv(BASIS, written))
    {
      s := Hex(sum);
    }
  }

  function Joined(a: seq<seq<byte>>): seq<byte> {
    if a == [] then [] else Joined(a[..|a| - 1]) + a[|a| - 1]
  }

  lemma JoinedStep(a: seq<seq<byte>>, i: nat)
    requires i < |a|
    ensures forall s :: s + Joined(a[..i + 1]) == s + Joined(a[..i]) + a[i]
  {
    assert a[..i + 1][..i] == a[..i];
  }
}
