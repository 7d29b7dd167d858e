/** The binary envelope of a relayed frame (shared/lan-relay.ts, wire format). */
module RelayFrame {
  import opened Ids
  import opened VirtualIp
  import opened Packet
  import opened Router
  import opened TokenBucket

  const LAN_RELAY_MAGIC := 0x52
  const LAN_RELAY_VER := 1
  const LAN_RELAY_HEADER := 34
  const MAX_RELAY_FRAME := LAN_RELAY_HEADER + LAN_MTU

  function HexValue(c: char): (n: nat)
    requires IsHex(c)
    ensures n < 16
  {
    if '0' <= c <= '9' then c as int - '0' as int else c as int - 'a' as int + 10
  }

  function HexDigit(n: nat): (c: char)
    requires n < 16
    ensures IsHex(c) && HexValue(c) == n
  {
    if n < 10 then '0' + n as char else 'a' + (n - 10) as char
  }

  predicate AllHex(s: string) { forall i | 0 <= i < |s| :: IsHex(s[i]) }

  function FromHex(s: string): (b: Bytes)
    requires AllHex(s) && |s| % 2 == 0
    ensures |b| == |s| / 2
  {
    if s == "" then [] else [HexValue(s[0]) * 16 + HexValue(s[1])] + FromHex(s[2..])
  }

  function ToHex(b: Bytes): (s: string)
    ensures |s| == 2 * |b| && AllHex(s)
  {
    if b == [] then "" else [HexDigit(b[0] / 16), HexDigit(b[0] % 16)] + ToHex(b[1..])
  }

  lemma {:induction false} ToFromHex(s: string)
    requires AllHex(s) && |s| % 2 == 0
    ensures ToHex(FromHex(s)) == s
  {
    if s != "" {
      var b := FromHex(s);
      ToFromHex(s[2..]);
      assert b[1..] == FromHex(s[2..]);
      HexDigitOfValue(s[0]);
      HexDigitOfValue(s[1]);
      assert b[0] / 16 == HexValue(s[0]) && b[0] % 16 == HexValue(s[1]);
      assert s == [s[0], s[1]] + s[2..];
    }
  }

  lemma HexDigitOfValue(c: char)
    requires IsHex(c)
    ensures HexDigit(HexValue(c)) == c
  {}

  lemma {:induction false} FromToHex(b: Bytes)
    ensures FromHex(ToHex(b)) == b
  {
    if b != [] {
      var s := ToHex(b);
      FromToHex(b[1..]);
      assert s[2..] == ToHex(b[1..]);
      assert b == [b[0]] + b[1..];
    }
  }

  const DIGITS := "0123456789abcdef"

  // The bytes spelled out in hexadecimal, high half first.
  predicate Spells(b: Bytes, s: string) {
    |s| == 2 * |b| && forall i | 0 <= i < |b| :: s[2 * i] == DIGITS[b[i] / 16] && s[2 * i + 1] == DIGITS[b[i] % 16]
  }

  lemma {:induction false} ToHexSpells(b: Bytes)
    ensures Spells(b, ToHex(b))
  {
    if b != [] {
      ToHexSpells(b[1..]);
      var s := ToHex(b);
      assert s[2..] == ToHex(b[1..]);
      forall i | 0 <= i < |b| ensures s[2 * i] == DIGITS[b[i] / 16] && s[2 * i + 1] == DIGITS[b[i] % 16] {
        if i == 0 {
          DigitIs(b[0] / 16);
          DigitIs(b[0] % 16);
        } else {
          assert b[i] == b[1..][i - 1] && s[2 * i] == s[2..][2 * (i - 1)] && s[2 * i + 1] == s[2..][2 * (i - 1) + 1];
        }
      }
    }
  }

  lemma DigitIs(n: nat)
    requires n < 16
    ensures HexDigit(n) == DIGITS[n]
  {}

  datatype Envelope = Envelope(origin: Id, target: Id, inner: Bytes)

  predicate Encodable(origin: Id, target: Id, inner: Bytes) {
    IsMemberId(origin) && IsMemberId(target) && origin != target && 0 < |inner| <= LAN_MTU
  }

  function EncodeRelay(origin: Id, target: Id, inner: Bytes): Option<Bytes> {
    if !Encodable(origin, target, inner) then None
    else Some([LAN_RELAY_MAGIC, LAN_RELAY_VER] + FromHex(origin) + FromHex(target) + inner)
  }

  function DecodeRelay(buf: Bytes): Option<Envelope> {
    if |buf| <= LAN_RELAY_HEADER || |buf| > MAX_RELAY_FRAME then None
    else if buf[0] != LAN_RELAY_MAGIC || buf[1] / 16 != 0 || buf[1] % 16 != LAN_RELAY_VER then None
    else
      var origin, target := ToHex(buf[2..18]), ToHex(buf[18..LAN_RELAY_HEADER]);
      if origin == target then None else Some(Envelope(origin, target, buf[LAN_RELAY_HEADER..]))
  }

  /** The layout on the wire: 0x52, 0x01, the 16 bytes of the originator's id, the 16 bytes of the
      target's, the packet. */
  lemma EnvelopeLayout(origin: Id, target: Id, inner: Bytes)
    requires EncodeRelay(origin, target, inner).Some?
    ensures var f := EncodeRelay(origin, target, inner).value;
            && |f| == 34 + |inner| <= 1314 && f[0] == 0x52 && f[1] == 0x01
            && Spells(f[2..18], origin) && Spells(f[18..34], target) && f[34..] == inner
  {
    var f := EncodeRelay(origin, target, inner).value;
    assert f[2..18] == FromHex(origin) && f[18..34] == FromHex(target) && f[34..] == inner;
    ToFromHex(origin);
    ToFromHex(target);
    ToHexSpells(f[2..18]);
    ToHexSpells(f[18..34]);
  }

  /** Decoding undoes encoding ... */
  lemma DecodeEncode(origin: Id, target: Id, inner: Bytes)
    requires Encodable(origin, target, inner)
    ensures DecodeRelay(EncodeRelay(origin, target, inner).value) == Some(Envelope(origin, target, inner))
  {
    var f := EncodeRelay(origin, target, inner).value;
    assert f[2..18] == FromHex(origin) && f[18..LAN_RELAY_HEADER] == FromHex(target) && f[LAN_RELAY_HEADER..] == inner;
    ToFromHex(origin);
    ToFromHex(target);
  }

  /** ... and encoding undoes decoding: the bytes that decode are exactly the encodings,
      so an envelope has one wire form. */
  lemma EncodeDecode(buf: Bytes)
    requires DecodeRelay(buf).Some?
    ensures var e := DecodeRelay(buf).value;
            Encodable(e.origin, e.target, e.inner) && EncodeRelay(e.origin, e.target, e.inner) == Some(buf)
  {
    FromToHex(buf[2..18]);
    FromToHex(buf[18..LAN_RELAY_HEADER]);
    assert buf[1] == 1;
    assert buf == [LAN_RELAY_MAGIC, LAN_RELAY_VER] + buf[2..18] + buf[18..LAN_RELAY_HEADER] + buf[LAN_RELAY_HEADER..];
  }

  predicate IsRelayFrame(buf: Bytes) { |buf| > 0 && buf[0] == LAN_RELAY_MAGIC }

  /** No bytes are both an envelope and a packet, so an envelope inside an envelope is
      never a packet to forward. */
  lemma EnvelopeIsNotPacket(buf: Bytes)
    ensures IsRelayFrame(buf) <==> buf != [] && buf[0] == 0x52
    ensures !(IsRelayFrame(buf) && ParseIpv4(buf).Some?)
    ensures DecodeRelay(buf).Some? ==> IsRelayFrame(buf) && ParseIpv4(buf) == None
  {}

  lemma {:induction false} FromHexAt(s: Id, k: nat)
    requires |s| % 2 == 0 && 2 * k + 1 < |s| && AllHex(s)
    ensures FromHex(s)[k] == HexValue(s[2 * k]) * 16 + HexValue(s[2 * k + 1])
  {
    if k > 0 { FromHexAt(s[2..], k - 1); }
  }

  method WriteHex(buf: array<Byte>, offset: nat, s: Id)
    requires IsMemberId(s) && offset + 16 <= buf.Length
    modifies buf
    ensures buf[offset..offset + 16] == FromHex(s)
    ensures buf[..offset] == old(buf[..offset]) && buf[offset + 16..] == old(buf[offset + 16..])
  {
    for i := 0 to 16
      invariant forall k | 0 <= k < i :: buf[offset + k] == FromHex(s)[k]
      invariant forall k | 0 <= k < buf.Length && !(offset <= k < offset + 16) :: buf[k] == old(buf[k])
    {
      FromHexAt(s, i);
      buf[offset + i] := HexValue(s[2 * i]) * 16 + HexValue(s[2 * i + 1]);
    }
  }

  /** encodeRelayFrame: writes into the caller's scratch buffer when it is large enough,
      leaving its tail alone, and into a new buffer otherwise. */
  method EncodeRelayFrame(origin: Id, target: Id, inner: Bytes, out: array?<Byte>)
    returns (buf: array?<Byte>, total: nat)
    modifies if out == null then {} else {out}
    ensures buf == null <==> EncodeRelay(origin, target, inner) == None
    ensures buf != null ==> total <= buf.Length && Some(buf[..total]) == EncodeRelay(origin, target, inner)
    ensures buf != null && out != null && out.Length >= total ==> buf == out && out[total..] == old(out[total..])
    ensures buf != null && buf != out ==> fresh(buf)
    ensures out != null && buf != out ==> out[..] == old(out[..])
  {
    if !IsMemberId(origin) || !IsMemberId(target) { return null, 0; }
    if origin == target { return null, 0; }
    if |inner| == 0 || |inner| > LAN_MTU { return null, 0; }
    total := LAN_RELAY_HEADER + |inner|;
    if out != null && out.Length >= total { buf := out; } else { buf := new Byte[total]; }
    FillFrame(buf, origin, target, inner);
  }

  method FillFrame(buf: array<Byte>, origin: Id, target: Id, inner: Bytes)
    requires Encodable(origin, target, inner) && buf.Length >= LAN_RELAY_HEADER + |inner|
    modifies buf
    ensures Some(buf[..LAN_RELAY_HEADER + |inner|]) == EncodeRelay(origin, target, inner)
    ensures buf[LAN_RELAY_HEADER + |inner|..] == old(buf[LAN_RELAY_HEADER + |inner|..])
  {
    buf[0], buf[1] := LAN_RELAY_MAGIC, LAN_RELAY_VER;
    assert buf[..2] == [LAN_RELAY_MAGIC, LAN_RELAY_VER];
    WriteHex(buf, 2, origin);
    assert buf[..18] == [LAN_RELAY_MAGIC, LAN_RELAY_VER] + FromHex(origin) by {
      assert buf[..18] == buf[..2] + buf[2..18];
    }
    ghost var rest := buf[18..];
    assert rest[16..] == old(buf[LAN_RELAY_HEADER..]);
    WriteHex(buf, 18, target);
    assert buf[LAN_RELAY_HEADER..] == rest[16..];
    ghost var n := |inner|;
    assert buf[LAN_RELAY_HEADER..][n..] == buf[LAN_RELAY_HEADER + n..];
    ghost var header := [LAN_RELAY_MAGIC, LAN_RELAY_VER] + FromHex(origin) + FromHex(target);
    assert buf[..LAN_RELAY_HEADER] == header by {
      assert buf[..LAN_RELAY_HEADER] == buf[..18] + buf[18..LAN_RELAY_HEADER];
    }
    for i := 0 to |inner|
      invariant buf[..LAN_RELAY_HEADER + i] == header + inner[..i]
      invariant buf[LAN_RELAY_HEADER + |inner|..] == old(buf[LAN_RELAY_HEADER + |inner|..])
    {
      buf[LAN_RELAY_HEADER + i] := inner[i];
    }
    assert inner[..|inner|] == inner;
  }
}
