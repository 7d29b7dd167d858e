/** Infohash normalisation (shared/magnet.ts): the base32 and the hexadecimal spelling of
    a torrent's 160-bit hash end up as one and the same string. */
module Magnet {
  import opened Ids

  const TWO_32 := 0x1_0000_0000

  type Byte = b: nat | b < 256

  // ---- Digits ----

  // The position in "ABCDEFGHIJKLMNOPQRSTUVWXYZ234567" (RFC 4648, section 6), after upper-casing.
  function Base32Digit(c: char): Option<nat> {
    if 'A' <= c <= 'Z' then Some((c - 'A') as int)
    else if 'a' <= c <= 'z' then Some((c - 'a') as int)
    else if '2' <= c <= '7' then Some((c - '2') as int + 26)
    else None
  }

  const ALPHABET := "ABCDEFGHIJKLMNOPQRSTUVWXYZ234567"

  function LowerCase(c: char): char { if 'A' <= c <= 'Z' then 'a' + (c - 'A') else c }

  /** The digits are the places in the alphabet, in either letter case, and nothing else is one. */
  lemma DigitIff(c: char, d: nat)
    requires d < 32
    ensures Base32Digit(c) == Some(d) <==> c == ALPHABET[d] || c == LowerCase(ALPHABET[d])
    ensures Base32Digit(c).Some? ==> Base32Digit(c).value < 32
  {
    AlphabetAt(d);
  }

  lemma AlphabetAt(d: nat)
    requires d < 32
    ensures ALPHABET[d] == if d < 26 then 'A' + d as char else '2' + (d - 26) as char
  {}

  predicate IsBase32(s: string) { forall c | c in s :: Base32Digit(c).Some? }

  function Digit32(c: char): (d: nat)
    ensures d < 32
  {
    var d := Base32Digit(c);
    if d.Some? then d.value else 0
  }

  // The number a base32 string spells, most significant digit first.
  function Base32Value(s: string): nat {
    if s == [] then 0 else 32 * Base32Value(s[..|s| - 1]) + Digit32(s[|s| - 1])
  }

  predicate IsHexDigit(c: char) { '0' <= c <= '9' || 'a' <= c <= 'f' || 'A' <= c <= 'F' }

  predicate IsHex(s: string) { forall c | c in s :: IsHexDigit(c) }

  function Digit16(c: char): (d: nat)
    ensures d < 16
  {
    if '0' <= c <= '9' then (c - '0') as int
    else if 'a' <= c <= 'f' then (c - 'a') as int + 10
    else if 'A' <= c <= 'F' then (c - 'A') as int + 10 else 0
  }

  function HexValue(s: string): nat {
    if s == [] then 0 else 16 * HexValue(s[..|s| - 1]) + Digit16(s[|s| - 1])
  }

  function HexDigit(d: nat): (c: char)
    requires d < 16
    ensures IsHexDigit(c) && Digit16(c) == d
  {
    if d < 10 then '0' + d as char else 'a' + (d - 10) as char
  }

  // The canonical spelling: n in exactly k lower-case hexadecimal digits.
  function Hex(n: nat, k: nat): (s: string)
    ensures |s| == k
  {
    if k == 0 then [] else Hex(n / 16, k - 1) + [HexDigit(n % 16)]
  }

  function Power16(k: nat): nat { if k == 0 then 1 else 16 * Power16(k - 1) }

  /** The canonical spelling is read back as the number, if it fits. */
  lemma {:induction false} HexRoundTrip(n: nat, k: nat)
    requires n < Power16(k)
    ensures HexValue(Hex(n, k)) == n && IsHex(Hex(n, k))
  {
    if k > 0 {
      HexRoundTrip(n / 16, k - 1);
      assert Hex(n, k)[..k - 1] == Hex(n / 16, k - 1);
    }
  }

  lemma {:induction false} HexInjective(n: nat, m: nat, k: nat)
    requires n < Power16(k) && m < Power16(k) && Hex(n, k) == Hex(m, k)
    ensures n == m
  {
    HexRoundTrip(n, k);
    HexRoundTrip(m, k);
  }

  // ---- base32ToHex ----

  /** What the decoder computes: nothing unless every character is a base32 digit and there
      are 32 of them, or 33, the last of which is dropped. */
  function Decoded(s: string): Option<string> {
    if IsBase32(s) && (|s| == 32 || |s| == 33) then Some(Hex(Base32Value(s[..32]), 40)) else None
  }

  function BytesValue(bs: seq<Byte>): nat {
    if bs == [] then 0 else 256 * BytesValue(bs[..|bs| - 1]) + bs[|bs| - 1]
  }

  // Two digits a byte, as toString(16).padStart(2, '0') writes it.
  function BytesHex(bs: seq<Byte>): string {
    if bs == [] then [] else
      var n := |bs| - 1;
      BytesHex(bs[..n]) + [HexDigit(bs[n] / 16), HexDigit(bs[n] % 16)]
  }

  lemma {:induction false} BytesHexIsHex(bs: seq<Byte>)
    ensures BytesHex(bs) == Hex(BytesValue(bs), 2 * |bs|)
  {
    if bs != [] {
      var n := |bs| - 1;
      var v, b := BytesValue(bs[..n]), bs[n];
      BytesHexIsHex(bs[..n]);
      assert BytesValue(bs) == 256 * v + b;
      HexOfByte(v, b, 2 * n);
    }
  }

  lemma HexOfByte(v: nat, b: nat, k: nat)
    requires b < 256
    ensures Hex(256 * v + b, k + 2) == Hex(v, k) + [HexDigit(b / 16), HexDigit(b % 16)]
  {
    var n := 256 * v + b;
    assert n / 16 == 16 * v + b / 16 && n % 16 == b % 16;
    assert (16 * v + b / 16) / 16 == v && (16 * v + b / 16) % 16 == b / 16;
    assert Hex(n, k + 2) == Hex(n / 16, k + 1) + [HexDigit(n % 16)];
    assert Hex(n / 16, k + 1) == Hex(v, k) + [HexDigit(b / 16)];
  }

  // The bits still waiting for a byte to be full.
  function Weight(bits: nat): (w: nat)
    ensures w > 0
  {
    if bits == 0 then 1 else 2 * Weight(bits - 1)
  }

  /** base32ToHex. `value` is the source's 32-bit accumulator: it wraps, and only its low
      twelve bits are ever looked at. */
  method Base32ToHex(b32: string) returns (r: Option<string>)
    ensures r == Decoded(b32)
  {
    var bits, value := 0, 0;
    var bytes: seq<Byte> := [];
    for i := 0 to |b32|
      invariant IsBase32(b32[..i]) && bits < 8 && 5 * i == 8 * |bytes| + bits
      invariant value == Base32Value(b32[..i]) % TWO_32
      invariant BytesValue(bytes) == Base32Value(b32[..i]) / Weight(bits)
    {
      var idx := Base32Digit(b32[i]);
      if idx == None {
        assert b32[i] in b32;
        return None;
      }
      NextDigit(b32, i, bits);
      ghost var n := Base32Value(b32[..i + 1]);
      value := (value * 32 + idx.value) % TWO_32;
      bits := bits + 5;
      if bits >= 8 {
        ByteOut(n, value, bits);
        var b := LowByte(value, bits - 8);
        ghost var grown := bytes + [b];
        assert grown[..|grown| - 1] == bytes;
        bytes := bytes + [b];
        bits := bits - 8;
      }
    }
    assert b32[..|b32|] == b32;
    if |bytes| != 20 { return None; }
    BytesHexIsHex(bytes);
    DroppedDigit(b32, bits);
    r := Some(BytesHex(bytes));
  }

  // (v >>> k) & 0xff, for the shifts that occur.
  function LowByte(v: nat, k: nat): Byte
    requires k < 5
  {
    if k == 0 then v % 256 else if k == 1 then v / 2 % 256 else if k == 2 then v / 4 % 256
    else if k == 3 then v / 8 % 256 else v / 16 % 256
  }

  lemma NextDigit(s: string, i: nat, bits: nat)
    requires i < |s| && bits < 8 && IsBase32(s[..i]) && Base32Digit(s[i]).Some?
    ensures IsBase32(s[..i + 1])
    ensures var n, d := Base32Value(s[..i]), Base32Digit(s[i]).value;
            && Base32Value(s[..i + 1]) == 32 * n + d
            && (n % TWO_32 * 32 + d) % TWO_32 == (32 * n + d) % TWO_32
            && (32 * n + d) / Weight(bits + 5) == n / Weight(bits)
  {
    assert s[..i + 1][..i] == s[..i];
    forall c | c in s[..i + 1] ensures Base32Digit(c).Some? { assert c in s[..i] || c == s[i]; }
    var n, d := Base32Value(s[..i]), Base32Digit(s[i]).value;
    WeightStep(n, d, bits);
    Wraps(n, d);
  }

  // The accumulator wraps without losing what it stands for modulo 2^32.
  lemma Wraps(n: nat, d: nat)
    ensures (n % TWO_32 * 32 + d) % TWO_32 == (32 * n + d) % TWO_32
  {
    var q, r := n / TWO_32, n % TWO_32;
    assert 32 * n + d == 32 * r + d + TWO_32 * (32 * q);
  }

  lemma WeightStep(n: nat, d: nat, bits: nat)
    requires d < 32
    ensures Weight(bits + 5) == 32 * Weight(bits)
    ensures (32 * n + d) / Weight(bits + 5) == n / Weight(bits)
  {
    assert Weight(bits + 5) == 2 * Weight(bits + 4) == 4 * Weight(bits + 3) == 8 * Weight(bits + 2)
      == 16 * Weight(bits + 1);
    DivideBoth(n, d, Weight(bits));
  }

  lemma DivideBoth(n: nat, d: nat, w: nat)
    requires d < 32 && w > 0
    ensures 32 * w > 0 && (32 * n + d) / (32 * w) == n / w
  {
    var q, r := n / w, n % w;
    assert n == w * q + r;
    QuotientIs(32 * n + d, 32 * w, q, 32 * r + d) by {
      assert 32 * n == 32 * (w * q) + 32 * r;
      assert 32 * (w * q) == (32 * w) * q;
    }
  }

  lemma QuotientIs(n: nat, w: nat, q: nat, r: nat)
    requires n == w * q + r && r < w
    ensures n / w == q
  {
    if n / w < q {
      assert w * (n / w) <= w * (q - 1) by { Monotone(w, n / w, q - 1); }
    } else if n / w > q {
      assert w * (n / w) >= w * (q + 1) by { Monotone(w, q + 1, n / w); }
    }
  }

  lemma Monotone(w: nat, a: nat, b: nat)
    requires a <= b
    ensures w * a <= w * b
  {}

  // Taking the top eight of the waiting bits as a byte keeps the number.
  lemma ByteOut(n: nat, value: nat, bits: nat)
    requires 8 <= bits < 13 && value == n % TWO_32
    ensures 256 * (n / Weight(bits)) + LowByte(value, bits - 8) == n / Weight(bits - 8)
  {
    WeightOfByte(bits - 8);
    LowBits(n, bits - 8);
    LowByteIs(n, bits - 8);
    DivideTwice(n, Weight(bits - 8));
  }

  lemma WeightOfByte(k: nat)
    ensures Weight(k + 8) == 256 * Weight(k)
  {
    WeightStep(0, 0, k);
    assert Weight(k + 8) == 2 * Weight(k + 7) == 4 * Weight(k + 6) == 8 * Weight(k + 5);
  }

  // Shifting the wrapped accumulator right shows the same low byte as the number itself.
  lemma LowBits(n: nat, k: nat)
    requires k < 5
    ensures LowByte(n % TWO_32, k) == LowByte(n, k)
  {
    if k == 0 { LowBits1(n); } else if k == 1 { LowBits2(n); } else if k == 2 { LowBits4(n); }
    else if k == 3 { LowBits8(n); } else { LowBits16(n); }
  }

  // A number is its low 32 bits and the rest, a multiple of what the shift can reach.
  lemma HighPart(n: nat, unit: nat) returns (h: nat)
    requires unit == 256 || unit == 512 || unit == 1024 || unit == 2048 || unit == 4096
    ensures n == unit * h + n % TWO_32
  {
    var q := n / TWO_32;
    h := if unit == 256 then 0x100_0000 * q else if unit == 512 then 0x80_0000 * q
         else if unit == 1024 then 0x40_0000 * q else if unit == 2048 then 0x20_0000 * q else 0x10_0000 * q;
  }

  lemma LowBits1(n: nat)
    ensures n % TWO_32 % 256 == n % 256
  {
    var h := HighPart(n, 256);
    HighGone1(h, n % TWO_32);
  }

  lemma HighGone1(h: nat, m: nat)
    ensures (256 * h + m) % 256 == m % 256
  {
    assert (256 * h + m) == 256 * h + m;
  }

  lemma LowBits2(n: nat)
    ensures n % TWO_32 / 2 % 256 == n / 2 % 256
  {
    var h := HighPart(n, 512);
    HighGone2(h, n % TWO_32);
  }

  lemma HighGone2(h: nat, m: nat)
    ensures (512 * h + m) / 2 % 256 == m / 2 % 256
  {
    assert (512 * h + m) / 2 == 256 * h + m / 2;
  }

  lemma LowBits4(n: nat)
    ensures n % TWO_32 / 4 % 256 == n / 4 % 256
  {
    var h := HighPart(n, 1024);
    HighGone4(h, n % TWO_32);
  }

  lemma HighGone4(h: nat, m: nat)
    ensures (1024 * h + m) / 4 % 256 == m / 4 % 256
  {
    assert (1024 * h + m) / 4 == 256 * h + m / 4;
  }

  lemma LowBits8(n: nat)
    ensures n % TWO_32 / 8 % 256 == n / 8 % 256
  {
    var h := HighPart(n, 2048);
    HighGone8(h, n % TWO_32);
  }

  lemma HighGone8(h: nat, m: nat)
    ensures (2048 * h + m) / 8 % 256 == m / 8 % 256
  {
    assert (2048 * h + m) / 8 == 256 * h + m / 8;
  }

  lemma LowBits16(n: nat)
    ensures n % TWO_32 / 16 % 256 == n / 16 % 256
  {
    var h := HighPart(n, 4096);
    HighGone16(h, n % TWO_32);
  }

  lemma HighGone16(h: nat, m: nat)
    ensures (4096 * h + m) / 16 % 256 == m / 16 % 256
  {
    assert (4096 * h + m) / 16 == 256 * h + m / 16;
  }

  lemma LowByteIs(n: nat, k: nat)
    requires k < 5
    ensures LowByte(n, k) == n / Weight(k) % 256
  {
    assert Weight(4) == 2 * Weight(3) == 4 * Weight(2) == 8 * Weight(1) == 16 * Weight(0);
  }

  lemma DivideTwice(n: nat, w: nat)
    requires w > 0
    ensures 256 * w > 0 && n / (256 * w) == n / w / 256
  {
    var m := n / w;
    var r := n % w;
    assert n == w * m + r;
    QuotientIs(n, 256 * w, m / 256, w * (m % 256) + r) by {
      assert m == 256 * (m / 256) + m % 256;
      assert w * m == w * (256 * (m / 256)) + w * (m % 256);
      assert w * (256 * (m / 256)) == (256 * w) * (m / 256);
      Monotone(w, m % 256, 255);
    }
  }

  lemma DroppedDigit(s: string, bits: nat)
    requires 5 * |s| == 160 + bits && bits < 8
    ensures (|s| == 32 && bits == 0) || (|s| == 33 && bits == 5)
    ensures Base32Value(s) / Weight(bits) == Base32Value(s[..32])
  {
    if bits == 0 {
      assert s[..32] == s;
    } else {
      assert Weight(5) == 32 by { WeightStep(0, 0, 0); }
      assert s[..|s| - 1] == s[..32];
    }
  }

  // ---- One hash, one spelling ----

  // The part of a magnet link after xt=urn:btih:, which is letters and digits.
  function Normalised(token: string): Option<string> {
    if |token| == 40 && IsHex(token) then Some(LowerHex(token))
    else if |token| == 32 && IsBase32(token) then Decoded(token)
    else None
  }

  // toLowerCase on hexadecimal digits.
  function LowerHex(s: string): (r: string)
    ensures |r| == |s|
  {
    if s == [] then [] else
      var c := s[|s| - 1];
      LowerHex(s[..|s| - 1]) + [if 'A' <= c <= 'F' then 'a' + (c - 'A') else c]
  }

  // The 160-bit hash a token spells.
  function HashValue(token: string): nat { if |token| == 40 then HexValue(token) else Base32Value(token) }

  lemma {:induction false} LowerHexIsHex(s: string)
    requires IsHex(s)
    ensures LowerHex(s) == Hex(HexValue(s), |s|) && HexValue(s) < Power16(|s|)
  {
    if s != [] {
      var n := |s| - 1;
      LowerHexIsHex(s[..n]);
      LowerDigit(s[n]);
      var v := HexValue(s[..n]);
      assert HexValue(s) / 16 == v && HexValue(s) % 16 == Digit16(s[n]);
    }
  }

  lemma LowerDigit(c: char)
    requires IsHexDigit(c)
    ensures (if 'A' <= c <= 'F' then 'a' + (c - 'A') else c) == HexDigit(Digit16(c))
  {}

  function Power32(k: nat): nat { if k == 0 then 1 else 32 * Power32(k - 1) }

  lemma {:induction false} Base32Bound(s: string)
    ensures Base32Value(s) < Power32(|s|)
  {
    if s != [] { Base32Bound(s[..|s| - 1]); }
  }

  // 32 digits of five bits and 40 of four are both 160 bits.
  lemma {:induction false} PowersMeet(k: nat)
    ensures Power32(4 * k) == Power16(5 * k)
  {
    if k > 0 {
      PowersMeet(k - 1);
      var j, i := 4 * (k - 1), 5 * (k - 1);
      assert Power32(j + 4) == 32 * Power32(j + 3) == 1024 * Power32(j + 2) == 0x8000 * Power32(j + 1)
        == 0x10_0000 * Power32(j);
      assert Power16(i + 5) == 16 * Power16(i + 4) == 256 * Power16(i + 3) == 0x1000 * Power16(i + 2)
        == 0x1_0000 * Power16(i + 1);
    }
  }

  lemma NormalisedIsHex(token: string)
    requires Normalised(token).Some?
    ensures Normalised(token) == Some(Hex(HashValue(token), 40)) && HashValue(token) < Power16(40)
  {
    if |token| == 40 {
      LowerHexIsHex(token);
    } else {
      Base32Bound(token);
      PowersMeet(8);
      assert token[..32] == token;
    }
  }

  /** Two tokens, in whichever of the two spellings and letter cases, normalise to the same
      string exactly when they spell the same number. */
  lemma SameStringIffSameHash(a: string, b: string)
    requires Normalised(a).Some? && Normalised(b).Some?
    ensures Normalised(a) == Normalised(b) <==> HashValue(a) == HashValue(b)
  {
    NormalisedIsHex(a);
    NormalisedIsHex(b);
    if Normalised(a) == Normalised(b) { HexInjective(HashValue(a), HashValue(b), 40); }
  }

  /** A decoded base32 hash spells the number it was given, in forty hexadecimal digits. */
  lemma DecodedKeepsNumber(s: string)
    requires Decoded(s).Some?
    ensures |Decoded(s).value| == 40 && IsHex(Decoded(s).value) && HexValue(Decoded(s).value) == Base32Value(s[..32])
    ensures Normalised(Decoded(s).value) == Decoded(s)
  {
    Base32Bound(s[..32]);
    PowersMeet(8);
    HexRoundTrip(Base32Value(s[..32]), 40);
    LowerHexIsHex(Decoded(s).value);
  }

  /** Exactly 32 digits, or 33, are decoded; exactly forty hexadecimal or 32 base32 digits are an
      infohash. */
  lemma AcceptedIff(s: string)
    ensures Decoded(s).Some? <==> (|s| == 32 || |s| == 33) && forall i | 0 <= i < |s| :: Base32Digit(s[i]).Some?
    ensures Normalised(s).Some? <==> (|s| == 40 && forall i | 0 <= i < |s| :: IsHexDigit(s[i]))
                                     || (|s| == 32 && forall i | 0 <= i < |s| :: Base32Digit(s[i]).Some?)
  {
    assert IsBase32(s) <==> forall i | 0 <= i < |s| :: Base32Digit(s[i]).Some?;
    assert IsHex(s) <==> forall i | 0 <= i < |s| :: IsHexDigit(s[i]);
  }

  lemma LastDigit(a: string)
    requires a != [] && IsBase32(a)
    ensures var n := |a| - 1;
            Base32Digit(a[n]) == Some(Base32Value(a) % 32) && Base32Value(a[..n]) == Base32Value(a) / 32
              && IsBase32(a[..n])
  {
    var n := |a| - 1;
    assert a[n] in a;
    forall c | c in a[..n] ensures Base32Digit(c).Some? { assert c in a; }
    Splits(Base32Value(a[..n]), Digit32(a[n]));
  }

  lemma Splits(v: nat, d: nat)
    requires d < 32
    ensures (32 * v + d) % 32 == d && (32 * v + d) / 32 == v
  {}

  /** Base32 spellings of one hash differ in letter case only. */
  lemma {:induction false} Base32Injective(a: string, b: string, i: nat)
    requires IsBase32(a) && IsBase32(b) && |a| == |b| && Base32Value(a) == Base32Value(b) && i < |a|
    ensures Base32Digit(a[i]) == Base32Digit(b[i])
  {
    var n := |a| - 1;
    LastDigit(a);
    LastDigit(b);
    if i < n { Base32Injective(a[..n], b[..n], i); }
  }

  /** extractInfoHashFromMagnet, from the token on. */
  method NormaliseToken(token: string) returns (r: Option<string>)
    ensures r == Normalised(token)
  {
    if |token| == 40 && IsHex(token) { return Some(LowerHex(token)); }
    if |token| == 32 && IsBase32(token) {
      r := Base32ToHex(token);
    } else {
      r := None;
    }
  }
}
