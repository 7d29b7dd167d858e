/** IPv4 packet helpers (shared/lan-packet.ts): header parse, the RFC 1071 checksum
    and destination classes. */
module Packet {
  import opened Ids
  import opened VirtualIp

  type Byte = x: int | 0 <= x < 256
  type Bytes = seq<Byte>

  function Word(b: Bytes, i: nat): nat
    requires i + 1 < |b|
  {
    b[i] as int * 256 + b[i + 1]
  }

  function DWord(b: Bytes, i: nat): U32
    requires i + 3 < |b|
  {
    Word(b, i) * 0x1_0000 + Word(b, i + 2)
  }

  datatype Ipv4Header = Ipv4Header(ihl: nat, totalLength: nat, proto: Byte, src: U32, dst: U32)

  function ParseIpv4(b: Bytes): Option<Ipv4Header> {
    if |b| < 20 || b[0] / 16 != 4 then None else
      var ihl := b[0] % 16 * 4;
      if ihl < 20 || |b| < ihl then None else
        var totalLength := Word(b, 2);
        if totalLength < ihl || totalLength > |b| then None else
          Some(Ipv4Header(ihl, totalLength, b[9], DWord(b, 12), DWord(b, 16)))
  }

  datatype DestClass = Unicast | Broadcast | Multicast

  function ClassifyDest(dst: int, subnetBroadcast: Option<int>): DestClass {
    var d := ToU32(dst);
    if d == 0xffff_ffff then Broadcast
    else if subnetBroadcast.Some? && d == ToU32(subnetBroadcast.value) then Broadcast
    else if d / 0x1000_0000 == 0xe then Multicast
    else Unicast
  }

  // ---- The header, byte by byte ----

  // An address in the order of RFC 791, section 3.1: four bytes, the first one the highest.
  function Address(a: Byte, b: Byte, c: Byte, d: Byte): U32 {
    ((a as int * 256 + b) * 256 + c) * 256 + d
  }

  // RFC 791, section 3.1: version 4 and at least five words of header, all of it within the
  // total length, and that within the buffer.
  predicate WellFormed(b: Bytes) {
    |b| >= 20 && 0x45 <= b[0] <= 0x4f && 4 * (b[0] - 0x40) <= TotalLength(b) <= |b|
  }

  function TotalLength(b: Bytes): nat
    requires |b| >= 20
  {
    b[2] as int * 256 + b[3]
  }

  function Source(b: Bytes): U32
    requires |b| >= 20
  {
    Address(b[12], b[13], b[14], b[15])
  }

  function Destination(b: Bytes): U32
    requires |b| >= 20
  {
    Address(b[16], b[17], b[18], b[19])
  }

  /** What the parser takes, and what it makes of it. */
  lemma ParsedIff(b: Bytes)
    ensures ParseIpv4(b).Some? <==> WellFormed(b)
    ensures WellFormed(b) ==>
            ParseIpv4(b).value == Ipv4Header(4 * (b[0] - 0x40), TotalLength(b), b[9], Source(b), Destination(b))
  {
    if |b| >= 20 {
      assert b[0] / 16 == 4 <==> 0x40 <= b[0] < 0x50;
      AddressIs(b, 12);
      AddressIs(b, 16);
    }
  }

  lemma AddressIs(b: Bytes, i: nat)
    requires i + 3 < |b|
    ensures DWord(b, i) == Address(b[i], b[i + 1], b[i + 2], b[i + 3])
  {}

  // What a router copies to everybody: 255.255.255.255, the subnet's own broadcast address and
  // 224.0.0.0 to 239.255.255.255.
  predicate IsBroadcast(dst: U32, subnetBroadcast: U32) {
    dst == Address(255, 255, 255, 255) || dst == subnetBroadcast
  }

  predicate IsMulticast(dst: U32) { Address(224, 0, 0, 0) <= dst <= Address(239, 255, 255, 255) }

  lemma ClassIff(dst: U32, subnetBroadcast: U32)
    ensures ClassifyDest(dst, Some(subnetBroadcast)) == Broadcast <==> IsBroadcast(dst, subnetBroadcast)
    ensures ClassifyDest(dst, Some(subnetBroadcast)) == Multicast <==>
            IsMulticast(dst) && !IsBroadcast(dst, subnetBroadcast)
    ensures ClassifyDest(dst, None) == Broadcast <==> dst == Address(255, 255, 255, 255)
    ensures ClassifyDest(dst, None) == Multicast <==> IsMulticast(dst)
  {}

  /** No member can derive an address that a router would replicate. */
  lemma DerivedVipIsUnicast(s: Session, m: Id, gen: nat)
    ensures ClassifyDest(DeriveVip(s, m, gen), Some(SessionSubnet(s).broadcast)) == Unicast
  {
    DerivedVipInSubnet(s, m, gen);
  }

  // ---- RFC 1071 checksum ----

  // The sum of 16-bit big-endian words; a final odd byte is padded on the right.
  function Sum16(b: Bytes): nat {
    if |b| == 0 then 0
    else if |b| == 1 then b[0] as int * 256
    else Word(b, 0) + Sum16(b[2..])
  }

  // The bytes at even places, and those at odd places.
  function EvenSum(b: Bytes): nat { if b == [] then 0 else b[0] as int + OddSum(b[1..]) }

  function OddSum(b: Bytes): nat { if b == [] then 0 else EvenSum(b[1..]) }

  /** The bytes at even places are the high ones of their words, a last odd one included. */
  lemma {:induction false} SumOfBytes(b: Bytes)
    ensures Sum16(b) == 256 * EvenSum(b) + OddSum(b)
  {
    if |b| >= 2 {
      SumOfBytes(b[2..]);
      assert b[1..][1..] == b[2..];
    } else if |b| == 1 {
      assert b[1..] == [];
    }
  }

  // The carry fold. `>>> 16` sees the sum modulo 2^32, as in the source.
  function Fold(sum: nat): nat {
    if ToU32(sum) / 0x1_0000 == 0 then sum
    else
      assert ToU32(sum) / 0x1_0000 <= sum / 0x1_0000;
      Fold(sum % 0x1_0000 + ToU32(sum) / 0x1_0000)
  }

  function Checksum(range: Bytes): nat { 0xffff - Fold(Sum16(range)) % 0x1_0000 }

  /** ipChecksum over [offset, offset+length). */
  method IpChecksum(buf: Bytes, offset: nat, length: nat) returns (c: nat)
    requires offset + length <= |buf|
    ensures c == Checksum(buf[offset..offset + length])
  {
    var sum: nat, end, i := 0, offset + length, offset;
    while i + 1 < end
      invariant offset <= i <= end
      invariant sum + Sum16(buf[i..end]) == Sum16(buf[offset..end])
    {
      assert buf[i..end][2..] == buf[i + 2..end];
      sum, i := sum + Word(buf, i), i + 2;
    }
    if i < end { sum := sum + buf[i] as int * 256; }
    ghost var total := sum;
    while ToU32(sum) / 0x1_0000 != 0
      invariant Fold(sum) == Fold(total)
      decreases sum
    {
      assert ToU32(sum) / 0x1_0000 <= sum / 0x1_0000;
      sum := sum % 0x1_0000 + ToU32(sum) / 0x1_0000;
    }
    c := 0xffff - sum % 0x1_0000;
  }

  // Below 2^32 the fold adds the high half to the low half until there is no high half.
  lemma FoldStep(sum: nat)
    requires sum < 0x1_0000_0000
    ensures Fold(sum) == if sum < 0x1_0000 then sum else Fold(sum % 0x1_0000 + sum / 0x1_0000)
  {
    assert ToU32(sum) == sum;
  }

  /** The fold is ones-complement addition: it keeps the residue modulo 65535 and
      lands in 1..65535 unless the sum is zero. */
  lemma {:induction false} FoldResidue(sum: nat) returns (k: nat)
    requires sum < 0x1_0000_0000
    ensures sum == 0xffff * k + Fold(sum)
    ensures Fold(sum) <= 0xffff && (Fold(sum) == 0 <==> sum == 0)
  {
    FoldStep(sum);
    if sum < 0x1_0000 {
      k := 0;
    } else {
      var q, r := Halves(sum);
      var rest := FoldResidue(r + q);
      k := rest + q;
    }
  }

  lemma Halves(sum: nat) returns (q: nat, r: nat)
    requires 0x1_0000 <= sum < 0x1_0000_0000
    ensures q == sum / 0x1_0000 && r == sum % 0x1_0000 && sum == 0x1_0000 * q + r
    ensures 0 < q < 0x1_0000 && r < 0x1_0000 && r + q < sum
  {
    q, r := sum / 0x1_0000, sum % 0x1_0000;
  }

  lemma {:induction false} Sum16Concat(a: Bytes, b: Bytes)
    requires |a| % 2 == 0
    ensures Sum16(a + b) == Sum16(a) + Sum16(b)
  {
    if a == [] {
      assert a + b == b;
    } else {
      Sum16Concat(a[2..], b);
      assert (a + b)[2..] == a[2..] + b;
    }
  }

  lemma {:induction false} Sum16Bound(b: Bytes)
    ensures Sum16(b) <= 0xffff * ((|b| + 1) / 2)
  {
    if |b| >= 2 { Sum16Bound(b[2..]); }
  }

  function Field(pre: Bytes, w: nat, post: Bytes): Bytes
    requires w < 0x1_0000
  {
    pre + [w / 256, w % 256] + post
  }

  lemma FieldSum(pre: Bytes, w: nat, post: Bytes)
    requires w < 0x1_0000 && |pre| % 2 == 0
    ensures Sum16(Field(pre, w, post)) == Sum16(Field(pre, 0, post)) + w
  {
    forall v: nat | v < 0x1_0000 ensures Sum16(Field(pre, v, post)) == Sum16(pre) + v + Sum16(post) {
      Sum16Concat(pre, [v / 256, v % 256] + post);
      assert pre + ([v / 256, v % 256] + post) == Field(pre, v, post);
      assert ([v / 256, v % 256] + post)[2..] == post;
    }
  }

  /** RFC 1071, section 1: with the field zeroed, compute the checksum; a field value
      verifies back to zero exactly when it is that checksum (or its other
      ones-complement zero). Odd lengths included. */
  lemma ChecksumVerifies(pre: Bytes, w: nat, post: Bytes)
    requires w < 0x1_0000 && |pre| % 2 == 0
    requires |pre| + 2 + |post| <= 0x2_0000
    ensures var c := Checksum(Field(pre, 0, post));
            Checksum(Field(pre, w, post)) == 0 <==> w == c || (c == 0 && w == 0xffff)
  {
    FieldSum(pre, w, post);
    FieldFits(pre, w, post);
    var s := Sum16(Field(pre, 0, post));
    FoldedField(s, w);
    ChecksumOf(Field(pre, 0, post));
    ChecksumOf(Field(pre, w, post));
  }

  lemma ChecksumOf(b: Bytes)
    requires Sum16(b) < 0x1_0000_0000
    ensures Checksum(b) == 0xffff - Fold(Sum16(b))
  {
    var _ := FoldResidue(Sum16(b));
  }

  lemma FieldFits(pre: Bytes, w: nat, post: Bytes)
    requires w < 0x1_0000 && |pre| + 2 + |post| <= 0x2_0000
    ensures Sum16(Field(pre, w, post)) < 0x1_0000_0000
  {
    var b := Field(pre, w, post);
    Sum16Bound(b);
    assert (|b| + 1) / 2 <= 0x1_0000;
  }

  lemma FoldedField(s: nat, w: nat)
    requires s + w < 0x1_0000_0000 && w <= 0xffff
    ensures var f := Fold(s); Fold(s + w) == 0xffff <==> w == 0xffff - f || (f == 0xffff && w == 0xffff)
    ensures Fold(s) <= 0xffff && Fold(s + w) <= 0xffff
  {
    var k := FoldResidue(s);
    var l := FoldResidue(s + w);
    ResiduesMeet(Fold(s), w, Fold(s + w), l - k);
  }

  lemma ResiduesMeet(f: nat, w: nat, g: nat, d: int)
    requires f <= 0xffff && w <= 0xffff && g <= 0xffff
    requires f + w == 0xffff * d + g && (g == 0 <==> f == 0 && w == 0)
    ensures g == 0xffff <==> w == 0xffff - f || (f == 0xffff && w == 0xffff)
  {}

  lemma FilledChecksumVerifies(pre: Bytes, post: Bytes)
    requires |pre| % 2 == 0 && |pre| + 2 + |post| <= 0x2_0000
    ensures Checksum(Field(pre, Checksum(Field(pre, 0, post)), post)) == 0
  {
    ChecksumVerifies(pre, Checksum(Field(pre, 0, post)), post);
  }
}
