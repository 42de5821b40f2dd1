/**
 * The text and byte renderings the tracer relies on: bn.js `toString(16)` and
 * `toString(10)`, JavaScript's `padStart` and `toLowerCase`, Node's hexadecimal
 * `Buffer` conversions and `toArrayLike(Buffer, "be", width)`.
 */
module Encoding {

  /** A byte of a Node `Buffer`: a number from 0 to 255. */
  newtype Byte = x: int | 0 <= x < 256

  /** bn.js `toNumber` throws for values of 2^53 and above (a third 26-bit word above 1). */
  const SafeNumberBound: nat := 0x20_0000_0000_0000

  predicate IsDigit(c: char) { '0' <= c <= '9' }

  predicate IsLowerHexChar(c: char) { IsDigit(c) || 'a' <= c <= 'f' }

  predicate IsHexChar(c: char) { IsLowerHexChar(c) || 'A' <= c <= 'F' }

  predicate IsHexString(s: string) { forall i :: 0 <= i < |s| ==> IsHexChar(s[i]) }

  predicate IsLowerHex(s: string) { forall i :: 0 <= i < |s| ==> IsLowerHexChar(s[i]) }

  predicate IsDecimalString(s: string) { forall i :: 0 <= i < |s| ==> IsDigit(s[i]) }

  /** JavaScript's `s.substr(0, 2) == "0x"`. */
  predicate HasHexPrefix(s: string) { |s| >= 2 && s[..2] == "0x" }

  /** JavaScript's `s.substr(2)`: everything after the first two characters. */
  function Drop2(s: string): string
  {
    if |s| >= 2 then s[2..] else ""
  }

  function Pow(base: nat, k: nat): nat
  {
    if k == 0 then 1 else base * Pow(base, k - 1)
  }

  /** 2^256, the bound of a machine word, and 2^160, the bound of an address. */
  const WordBound: nat := 0x1_0000_0000_0000_0000_0000_0000_0000_0000_0000_0000_0000_0000_0000_0000_0000_0000
  const AddressBound: nat := 0x1_0000_0000_0000_0000_0000_0000_0000_0000_0000_0000

  lemma {:induction false} PowAdd(base: nat, m: nat, n: nat)
    ensures Pow(base, m + n) == Pow(base, m) * Pow(base, n)
    decreases m
  {
    if m > 0 {
      PowAdd(base, m - 1, n);
      calc {
        Pow(base, m + n);
        base * Pow(base, m - 1 + n);
        base * (Pow(base, m - 1) * Pow(base, n));
        (base * Pow(base, m - 1)) * Pow(base, n);
      }
    }
  }

  /** `Pow(base, 2 * k)` from `Pow(base, k)`, one doubling at a time. */
  lemma PowDouble(base: nat, k: nat, v: nat)
    requires Pow(base, k) == v
    ensures Pow(base, 2 * k) == v * v
  {
    PowAdd(base, k, k);
  }

  lemma BoundsArePowers()
    ensures Pow(256, 32) == WordBound && Pow(16, 64) == WordBound && Pow(16, 40) == AddressBound
  {
    assert Pow(16, 1) == 16;
    PowDouble(16, 1, 16);
    PowDouble(16, 2, 0x100);
    PowDouble(16, 4, 0x1_0000);
    PowDouble(16, 8, 0x1_0000_0000);
    PowDouble(16, 16, 0x1_0000_0000_0000_0000);
    PowDouble(16, 32, 0x1_0000_0000_0000_0000_0000_0000_0000_0000);
    PowAdd(16, 32, 8);
    assert Pow(256, 1) == 256;
    PowDouble(256, 1, 0x100);
    PowDouble(256, 2, 0x1_0000);
    PowDouble(256, 4, 0x1_0000_0000);
    PowDouble(256, 8, 0x1_0000_0000_0000_0000);
    PowDouble(256, 16, 0x1_0000_0000_0000_0000_0000_0000_0000_0000);
  }

  lemma {:induction false} PowAtLeastBase(base: nat, k: nat)
    requires base >= 1 && k >= 1
    ensures Pow(base, k) >= base
    decreases k
  {
    if k > 1 {
      PowAtLeastBase(base, k - 1);
    }
  }

  // ---------------------------------------------------------------- digits

  function HexCharValue(c: char): (v: nat)
    requires IsHexChar(c)
    ensures v < 16
  {
    if IsDigit(c) then c as int - '0' as int
    else if 'a' <= c <= 'f' then c as int - 'a' as int + 10
    else c as int - 'A' as int + 10
  }

  /** The lower-case hexadecimal digit for `n`; `HexCharValue` reads it back. */
  function HexDigit(n: nat): (c: char)
    requires n < 16
    ensures IsLowerHexChar(c) && HexCharValue(c) == n
  {
    if n < 10 then ('0' as int + n) as char else ('a' as int + n - 10) as char
  }

  function DecimalDigit(n: nat): (c: char)
    requires n < 10
    ensures IsDigit(c) && c as int - '0' as int == n
  {
    ('0' as int + n) as char
  }

  // ---------------------------------------------------------------- numbers as text

  /** bn.js `toString(16)`: the shortest lower-case hexadecimal rendering, "0" for zero. */
  function ToHex(n: nat): (s: string)
    ensures 1 <= |s| && IsLowerHex(s) && IsHexString(s)
    decreases n
  {
    if n < 16 then [HexDigit(n)] else ToHex(n / 16) + [HexDigit(n % 16)]
  }

  /** The number a big-endian string of hexadecimal digits (either case) denotes; 0 for "". */
  function HexValue(s: string): nat
    requires IsHexString(s)
  {
    if s == [] then 0 else HexValue(s[..|s| - 1]) * 16 + HexCharValue(s[|s| - 1])
  }

  lemma {:induction false} ToHexValue(n: nat)
    ensures HexValue(ToHex(n)) == n
    decreases n
  {
    if n >= 16 {
      ToHexValue(n / 16);
      var s := ToHex(n);
      assert s[..|s| - 1] == ToHex(n / 16);
    }
  }

  /** The rendering is "0" exactly for zero, and never starts with a zero digit otherwise. */
  lemma {:induction false} ToHexZero(n: nat)
    ensures ToHex(n) == "0" <==> n == 0
    ensures n > 0 ==> ToHex(n)[0] != '0'
    decreases n
  {
    if n < 16 {
      assert ToHex(n) == [HexDigit(n)];
      assert HexCharValue('0') == 0;
    } else {
      ToHexZero(n / 16);
      assert ToHex(n)[0] == ToHex(n / 16)[0];
      assert |ToHex(n)| >= 2;
    }
  }

  /** `toString(16)` needs at most `k` digits exactly when `n < 16^k`. */
  lemma {:induction false} ToHexLength(n: nat, k: nat)
    requires k >= 1
    ensures |ToHex(n)| <= k <==> n < Pow(16, k)
    decreases k
  {
    PowAtLeastBase(16, k);
    if n >= 16 {
      assert |ToHex(n)| == |ToHex(n / 16)| + 1;
      if k == 1 {
        assert |ToHex(n / 16)| >= 1;
      } else {
        ToHexLength(n / 16, k - 1);
        assert Pow(16, k) == 16 * Pow(16, k - 1);
      }
    }
  }

  lemma {:induction false} ZeroDigitsValue(z: string)
    requires forall i :: 0 <= i < |z| ==> z[i] == '0'
    ensures IsHexString(z) && HexValue(z) == 0
    decreases |z|
  {
    if z != [] {
      ZeroDigitsValue(z[..|z| - 1]);
    }
  }

  /** Leading zero digits do not change the value of a hexadecimal string. */
  lemma {:induction false} HexValueZeroPrefix(z: string, s: string)
    requires forall i :: 0 <= i < |z| ==> z[i] == '0'
    requires IsHexString(s)
    ensures IsHexString(z + s) && HexValue(z + s) == HexValue(s)
    decreases |s|
  {
    ZeroDigitsValue(z);
    if s == [] {
      assert z + s == z;
    } else {
      var t := z + s;
      assert t[..|t| - 1] == z + s[..|s| - 1];
      HexValueZeroPrefix(z, s[..|s| - 1]);
    }
  }

  /** JavaScript's `s.padStart(width, fill)`: never truncates. */
  function PadStart(s: string, width: nat, fill: char): (r: string)
    ensures |r| == if |s| < width then width else |s|
    ensures r[|r| - |s|..] == s
    ensures forall i :: 0 <= i < |r| - |s| ==> r[i] == fill
  {
    if |s| < width then seq(width - |s|, _ => fill) + s else s
  }

  /** A hexadecimal string left-padded with zeros keeps its value, and has exactly `width`
      digits when it had no more than that. */
  lemma PadStartHex(s: string, width: nat)
    requires IsHexString(s)
    ensures var r := PadStart(s, width, '0');
      IsHexString(r) && HexValue(r) == HexValue(s) && (|s| <= width ==> |r| == width)
  {
    var r := PadStart(s, width, '0');
    var z := r[..|r| - |s|];
    assert r == z + s;
    HexValueZeroPrefix(z, s);
  }

  /** bn.js `toString(10)` and JavaScript's `Number.prototype.toString()` on an integer. */
  function ToDecimal(n: nat): (s: string)
    ensures 1 <= |s| && IsDecimalString(s)
    decreases n
  {
    if n < 10 then [DecimalDigit(n)] else ToDecimal(n / 10) + [DecimalDigit(n % 10)]
  }

  function DecimalValue(s: string): nat
    requires IsDecimalString(s)
  {
    if s == [] then 0 else DecimalValue(s[..|s| - 1]) * 10 + (s[|s| - 1] as int - '0' as int)
  }

  lemma {:induction false} ToDecimalValue(n: nat)
    ensures DecimalValue(ToDecimal(n)) == n
    decreases n
  {
    if n >= 10 {
      ToDecimalValue(n / 10);
      var s := ToDecimal(n);
      assert s[..|s| - 1] == ToDecimal(n / 10);
    }
  }

  /** A decimal rendering never carries the "0x" prefix. */
  lemma DecimalIsNotHex(s: string)
    requires IsDecimalString(s)
    ensures !HasHexPrefix(s)
  {
    if |s| >= 2 {
      assert IsDigit(s[1]);
      assert s[..2][1] == s[1];
    }
  }

  /** JavaScript's `toLowerCase` on the ASCII letters that addresses use. */
  function ToLower(s: string): (r: string)
    ensures |r| == |s|
    ensures forall i :: 0 <= i < |r| ==> !('A' <= r[i] <= 'Z')
    ensures forall i :: 0 <= i < |r| ==> r[i] == s[i] || r[i] as int == s[i] as int + 32
  {
    seq(|s|, i requires 0 <= i < |s| => if 'A' <= s[i] <= 'Z' then (s[i] as int + 32) as char else s[i])
  }

  // ---------------------------------------------------------------- bytes

  /** The number a big-endian byte string denotes; 0 for the empty string. */
  function BytesValue(b: seq<Byte>): nat
  {
    if b == [] then 0 else BytesValue(b[..|b| - 1]) * 256 + b[|b| - 1] as int
  }

  /** Node's `buf.toString("hex")`: two lower-case digits per byte. */
  function HexEncode(b: seq<Byte>): (s: string)
    ensures |s| == 2 * |b| && IsLowerHex(s) && IsHexString(s)
  {
    if b == [] then []
    else [HexDigit(b[0] as int / 16), HexDigit(b[0] as int % 16)] + HexEncode(b[1..])
  }

  /** Node's `Buffer.from(s, "hex")`: decodes digit pairs from the front and stops at the first
      pair that is not two hexadecimal digits; a trailing odd digit is dropped. */
  function HexDecode(s: string): (b: seq<Byte>)
    ensures |b| <= |s| / 2
  {
    if |s| < 2 || !IsHexChar(s[0]) || !IsHexChar(s[1]) then []
    else [(HexCharValue(s[0]) * 16 + HexCharValue(s[1])) as Byte] + HexDecode(s[2..])
  }

  lemma ByteDigits(v: int)
    requires 0 <= v < 256
    ensures HexCharValue(HexDigit(v / 16)) * 16 + HexCharValue(HexDigit(v % 16)) == v
  {
  }

  /** One byte's two digits decode back to the byte. */
  lemma HexPairDecodes(x: Byte, rest: string)
    ensures HexDecode([HexDigit(x as int / 16), HexDigit(x as int % 16)] + rest) == [x] + HexDecode(rest)
  {
    var v := x as int;
    var a, c := HexDigit(v / 16), HexDigit(v % 16);
    var s := [a, c] + rest;
    assert s[0] == a && s[1] == c && s[2..] == rest;
    ByteDigits(v);
  }

  lemma {:induction false} HexDecodeEncode(b: seq<Byte>)
    ensures HexDecode(HexEncode(b)) == b
    decreases |b|
  {
    if b != [] {
      HexPairDecodes(b[0], HexEncode(b[1..]));
      HexDecodeEncode(b[1..]);
      assert b == [b[0]] + b[1..];
    }
  }

  /** Rendering bytes as hex loses nothing: equal renderings mean equal bytes. */
  lemma HexEncodeInjective(a: seq<Byte>, b: seq<Byte>)
    ensures HexEncode(a) == HexEncode(b) <==> a == b
  {
    if HexEncode(a) == HexEncode(b) {
      HexDecodeEncode(a);
      HexDecodeEncode(b);
    }
  }

  /** A whole hexadecimal string decodes to half as many bytes. */
  lemma {:induction false} HexDecodeLength(s: string)
    requires IsHexString(s)
    ensures |HexDecode(s)| == |s| / 2
    decreases |s|
  {
    if |s| >= 2 {
      HexDecodeLength(s[2..]);
    }
  }

  lemma {:induction false} HexDecodeAppend(s: string, a: char, c: char)
    requires IsHexString(s) && |s| % 2 == 0 && IsHexChar(a) && IsHexChar(c)
    ensures HexDecode(s + [a, c]) == HexDecode(s) + [(HexCharValue(a) * 16 + HexCharValue(c)) as Byte]
    decreases |s|
  {
    if s == [] {
      assert HexDecode([a, c][2..]) == [];
    } else {
      assert (s + [a, c])[2..] == s[2..] + [a, c];
      HexDecodeAppend(s[2..], a, c);
    }
  }

  /** Decoding an even-length hexadecimal string preserves the number it denotes. */
  lemma HexValueAppend(p: string, a: char)
    requires IsHexString(p) && IsHexChar(a)
    ensures IsHexString(p + [a]) && HexValue(p + [a]) == HexValue(p) * 16 + HexCharValue(a)
  {
    assert (p + [a])[..|p|] == p;
  }

  lemma BytesValueAppend(b: seq<Byte>, x: Byte)
    ensures BytesValue(b + [x]) == BytesValue(b) * 256 + x as int
  {
    assert (b + [x])[..|b|] == b;
  }

  /** Decoding an even-length hexadecimal string preserves the number it denotes. */
  lemma {:induction false} HexDecodeValue(s: string)
    requires IsHexString(s) && |s| % 2 == 0
    ensures BytesValue(HexDecode(s)) == HexValue(s)
    decreases |s|
  {
    if s != [] {
      var p := s[..|s| - 2];
      var a, c := s[|s| - 2], s[|s| - 1];
      assert s == (p + [a]) + [c];
      var va, vc := HexCharValue(a), HexCharValue(c);
      var x := (va * 16 + vc) as Byte;
      calc {
        BytesValue(HexDecode(s));
        { assert s == p + [a, c]; HexDecodeAppend(p, a, c); }
        BytesValue(HexDecode(p) + [x]);
        { BytesValueAppend(HexDecode(p), x); }
        BytesValue(HexDecode(p)) * 256 + x as int;
        { HexDecodeValue(p); }
        HexValue(p) * 256 + (va * 16 + vc);
        { HexValueAppend(p, a); HexValueAppend(p + [a], c); }
        HexValue(s);
      }
    }
  }

  /** bn.js `toArrayLike(Buffer, "be", width)`: `width` big-endian bytes. */
  function ToBytesBE(n: nat, width: nat): (b: seq<Byte>)
    ensures |b| == width
    decreases width
  {
    if width == 0 then [] else ToBytesBE(n / 256, width - 1) + [(n % 256) as Byte]
  }

  /** The fixed-width rendering reads back as the number whenever the number fits. */
  lemma {:induction false} ToBytesBEValue(n: nat, width: nat)
    requires n < Pow(256, width)
    ensures BytesValue(ToBytesBE(n, width)) == n
    decreases width
  {
    if width > 0 {
      var q, r := n / 256, n % 256;
      PowBelow(n, width);
      ToBytesBEValue(q, width - 1);
      BytesValueAppend(ToBytesBE(q, width - 1), r as Byte);
    }
  }

  lemma PowBelow(n: nat, width: nat)
    requires width > 0 && n < Pow(256, width)
    ensures n / 256 < Pow(256, width - 1)
  {
    assert Pow(256, width) == 256 * Pow(256, width - 1);
  }
}
