/** Virtual-LAN addresses (shared/lan-ip.ts): the /16 a session occupies, the
    address a member derives in it, and the arbitration between members that
    derive the same address. */
module VirtualIp {
  import opened Ids

  type U32 = x: int | 0 <= x < 0x1_0000_0000

  function ToU32(x: int): U32 { x % 0x1_0000_0000 }

  /** What the source concatenates into the string it hashes: the fields after the
      tag "havvn-lan-subnet:v1" or "havvn-lan-vip:v1". */
  datatype HashInput = SubnetOf(sessionId: Id) | VipOf(sessionId: Id, memberId: Id, gen: nat)

  /** A session id together with the hash in use. The hash is any function into 32
      bits: nothing below depends on how FNV-1a mixes. */
  datatype Session = Session(id: Id, hash: HashInput -> U32)

  // The bit-ors of the source combine disjoint bit ranges, so they are sums here.
  datatype Subnet = Subnet(base: U32, broadcast: U32)

  function SessionSubnet(s: Session): Subnet {
    var oct2 := 64 + s.hash(SubnetOf(s.id)) % 64;
    var base := 100 * 0x100_0000 + oct2 * 0x1_0000;
    Subnet(base, base + 0xffff)
  }

  function DeriveVip(s: Session, memberId: Id, gen: nat): U32 {
    var low := s.hash(VipOf(s.id, memberId, gen)) % 0x1_0000;
    var host := if low == 0 then 1 else if low == 0xffff then 0xfffe else low;
    SessionSubnet(s).base + host
  }

  predicate VerifyVipClaim(s: Session, memberId: Id, gen: nat, claimed: int) {
    DeriveVip(s, memberId, gen) == ToU32(claimed)
  }

  predicate InSubnet(ip: int, subnet: Subnet) {
    ToU32(ip) - ToU32(ip) % 0x1_0000 == subnet.base
  }

  lemma DerivedVipInSubnet(s: Session, memberId: Id, gen: nat)
    ensures InSubnet(DeriveVip(s, memberId, gen), SessionSubnet(s))
    ensures SessionSubnet(s).base < DeriveVip(s, memberId, gen) < SessionSubnet(s).broadcast
    ensures 0x6440_0000 <= DeriveVip(s, memberId, gen) < 0x6480_0000
  {
    var vip := DeriveVip(s, memberId, gen);
    var base := SessionSubnet(s).base;
    assert base % 0x1_0000 == 0;
    assert vip - base == vip % 0x1_0000;
  }

  function HashedTo(s: Session, x: HashInput, n: U32, y: HashInput): U32 { if y == x then n else s.hash(y) }

  // The session with another hash of one input.
  function Rehashed(s: Session, x: HashInput, n: U32): Session {
    s.(hash := (y: HashInput) => HashedTo(s, x, n, y))
  }

  /** Each generation of each member draws its address on its own: its hash alone moves it, to
      the low half of the hash unless that is reserved, and moves nobody else's. */
  lemma AddressFollowsHash(s: Session, m: Id, gen: nat, n: U32, other: Id, otherGen: nat)
    ensures var t := Rehashed(s, VipOf(s.id, m, gen), n);
            && SessionSubnet(t) == SessionSubnet(s)
            && (0 < n % 0x1_0000 < 0xffff ==> DeriveVip(t, m, gen) % 0x1_0000 == n % 0x1_0000)
            && (n % 0x1_0000 == 0 ==> DeriveVip(t, m, gen) == SessionSubnet(s).base + 1)
            && (n % 0x1_0000 == 0xffff ==> DeriveVip(t, m, gen) == SessionSubnet(s).broadcast - 1)
            && ((other, otherGen) != (m, gen) ==> DeriveVip(t, other, otherGen) == DeriveVip(s, other, otherGen))
  {}

  /** The subnet is the one of 100.64.0.0 to 100.127.0.0 that the hash of the session id draws. */
  lemma SubnetFollowsHash(s: Session, n: U32)
    ensures var net := SessionSubnet(Rehashed(s, SubnetOf(s.id), n));
            && net.base == 0x6440_0000 + n % 64 * 0x1_0000 && net.broadcast == net.base + 0xffff
            && forall ip: U32 :: InSubnet(ip, net) <==> net.base <= ip <= net.broadcast
  {
    var net := SessionSubnet(Rehashed(s, SubnetOf(s.id), n));
    forall ip: U32 ensures InSubnet(ip, net) <==> net.base <= ip <= net.broadcast { SubnetRange(ip, net); }
  }

  lemma SubnetRange(ip: U32, net: Subnet)
    requires net.base % 0x1_0000 == 0 && net.broadcast == net.base + 0xffff
    ensures InSubnet(ip, net) <==> net.base <= ip <= net.broadcast
  {}

  datatype VipClaim = VipClaim(memberId: Id, gen: nat, vip: int)

  ghost predicate Claims(s: Session, c: VipClaim, vip: U32) {
    ToU32(c.vip) == vip && VerifyVipClaim(s, c.memberId, c.gen, c.vip)
  }

  ghost predicate Claimant(s: Session, cs: set<VipClaim>, vip: U32, m: Id) {
    exists c | c in cs :: c.memberId == m && Claims(s, c, vip)
  }

  /** The arbitration rule: an address is owned exactly when some verified claim
      names it, and then by the lowest id among its verified claimants. */
  ghost predicate IsOwnerTable(s: Session, cs: set<VipClaim>, t: map<U32, Id>) {
    && (forall v: U32 | v in t :: Claimant(s, cs, v, t[v]))
    && (forall c, v: U32 | c in cs && Claims(s, c, v) :: v in t && (t[v] == c.memberId || Less(t[v], c.memberId)))
  }

  lemma OwnerTableUnique(s: Session, cs: set<VipClaim>, t: map<U32, Id>, u: map<U32, Id>)
    requires IsOwnerTable(s, cs, t) && IsOwnerTable(s, cs, u)
    ensures t == u
  {
    forall v: U32 | v in t ensures v in u && t[v] == u[v] {
      assert Claimant(s, cs, v, t[v]);
      if t[v] != u[v] {
        assert Claimant(s, cs, v, u[v]);
        LessAsymmetric(t[v], u[v]);
      }
    }
    forall v: U32 | v in u ensures v in t {
      assert Claimant(s, cs, v, u[v]);
    }
  }

  lemma OwnedVipIsDerived(s: Session, cs: set<VipClaim>, t: map<U32, Id>, v: U32)
    requires IsOwnerTable(s, cs, t) && v in t
    ensures exists gen: nat :: v == DeriveVip(s, t[v], gen)
    ensures InSubnet(v, SessionSubnet(s)) && v < SessionSubnet(s).broadcast
    ensures 0x6440_0000 <= v < 0x6480_0000
  {
    assert Claimant(s, cs, v, t[v]);
    var c :| c in cs && c.memberId == t[v] && Claims(s, c, v);
    DerivedVipInSubnet(s, c.memberId, c.gen);
    assert v == DeriveVip(s, t[v], c.gen);
  }

  /** resolveVipOwners: one pass over the claims in arrival order, whatever it is. */
  method ResolveVipOwners(s: Session, claims: seq<VipClaim>) returns (byVip: map<U32, Id>)
    ensures IsOwnerTable(s, Elements(claims), byVip)
  {
    byVip := map[];
    for i := 0 to |claims|
      invariant IsOwnerTable(s, Elements(claims[..i]), byVip)
    {
      ghost var was := byVip;
      var c := claims[i];
      var vip := ToU32(c.vip);
      if VerifyVipClaim(s, c.memberId, c.gen, vip) {
        if vip !in byVip || Less(c.memberId, byVip[vip]) {
          byVip := byVip[vip := c.memberId];
        }
      }
      ExtendOwnerTable(s, Elements(claims[..i]), was, c, byVip);
      assert Elements(claims[..i + 1]) == Elements(claims[..i]) + {c};
    }
    assert claims[..|claims|] == claims;
  }

  // One more claim changes the table only at the address it names.
  lemma ExtendOwnerTable(s: Session, cs: set<VipClaim>, t: map<U32, Id>, c: VipClaim, u: map<U32, Id>)
    requires IsOwnerTable(s, cs, t)
    requires u == if VerifyVipClaim(s, c.memberId, c.gen, c.vip)
                    && (ToU32(c.vip) !in t || Less(c.memberId, t[ToU32(c.vip)]))
                  then t[ToU32(c.vip) := c.memberId] else t
    ensures IsOwnerTable(s, cs + {c}, u)
  {
    var all := cs + {c};
    forall v: U32 | v in u ensures Claimant(s, all, v, u[v]) {
      if v in t && u[v] == t[v] {
        assert Claimant(s, cs, v, t[v]);
      } else {
        assert c in all && Claims(s, c, v);
      }
    }
    forall d, v: U32 | d in all && Claims(s, d, v)
      ensures v in u && (u[v] == d.memberId || Less(u[v], d.memberId))
    {
      if d in cs {
        if u[v] != t[v] && t[v] != d.memberId { LessTransitive(u[v], t[v], d.memberId); }
      } else if v in t {
        LessTotal(c.memberId, t[v]);
      }
    }
  }
}
