/** LanSessionCore (shared/lan-session-core.ts): the class that holds the admission
    state, the cached routing table and the token buckets, updated in place. */
module SessionCore {
  import opened Ids
  import opened Dicts
  import opened VirtualIp
  import opened Admission
  import opened Convergence
  import opened TokenBucket
  import Router

  ghost predicate Inverse(t: map<U32, Id>, r: map<Id, U32>) {
    forall m, v: U32 :: (m in r && r[m] == v) <==> (v in t && t[v] == m)
  }

  // A member has one claim, so it owns at most one address.
  lemma OneVipEach(cfg: Config, c: Core, t: map<U32, Id>, v: U32, w: U32)
    requires RoutingTable(cfg, c, t) && v in t && w in t && t[v] == t[w]
    ensures v == w
  {
    assert Claimant(cfg.session, EligibleClaims(c), v, t[v]);
    assert Claimant(cfg.session, EligibleClaims(c), w, t[w]);
  }

  method InvertTable(t: map<U32, Id>) returns (rev: map<Id, U32>)
    requires forall v: U32, w: U32 | v in t && w in t && t[v] == t[w] :: v == w
    ensures Inverse(t, rev)
  {
    var todo: set<U32> := t.Keys;
    rev := map[];
    while todo != {}
      invariant todo <= t.Keys
      invariant forall m, v: U32 :: (m in rev && rev[m] == v) <==> (v in t && v !in todo && t[v] == m)
    {
      var vip :| vip in todo;
      rev := rev[t[vip] := vip];
      todo := todo - {vip};
    }
  }

  class LanSessionCore {
    const session: Session
    const selfId: Id
    const floorSeed: nat
    const bucketCfg: BucketCfg
    var hostId: Option<Id>
    var genesisAt: int
    var admitted: set<Id>
    var evicted: set<Id>
    var lastAdmitAt: Dict<int>
    var lastEvictAt: Dict<int>
    var lastStateAt: Dict<int>
    var claims: Dict<StateClaim>
    var vipOwners: map<U32, Id>
    var memberToVip: map<Id, U32>
    var selfGen: nat
    var buckets: Dict<Bucket>
    var authorityFloor: int

    ghost function Cfg(): Config { Config(session, selfId, floorSeed) }

    ghost function State(): Core
      reads this
    {
      Core(hostId, genesisAt, admitted, evicted, lastAdmitAt, lastEvictAt, lastStateAt, claims, authorityFloor)
    }

    /** The cached tables always agree with the fold over the admitted claims. */
    ghost predicate Routed()
      reads this
    {
      RoutingTable(Cfg(), State(), vipOwners) && Inverse(vipOwners, memberToVip)
    }

    ghost predicate Valid()
      reads this
    {
      && Inv(Cfg(), State()) && Routed()
      && selfGen <= 0xffff && Capped(buckets)
    }

    constructor (session: Session, selfId: Id, authorityFloor: int := 0, bucketCfg: BucketCfg := DEFAULT_LAN_BUCKET)
      ensures Valid() && this.session == session && this.selfId == selfId && this.bucketCfg == bucketCfg
      ensures floorSeed == Seed(authorityFloor) && State() == Initial(Cfg())
      ensures vipOwners == map[] && selfGen == 0 && buckets == Empty()
    {
      this.session, this.selfId, this.bucketCfg := session, selfId, bucketCfg;
      floorSeed := Seed(authorityFloor);
      this.authorityFloor := Seed(authorityFloor);
      hostId, genesisAt, admitted, evicted := None, -1, {}, {};
      lastAdmitAt, lastEvictAt, lastStateAt, claims := Empty(), Empty(), Empty(), Empty();
      vipOwners, memberToVip, selfGen, buckets := map[], map[], 0, Empty();
    }

    method PinGenesis(host: Id, sessionId: Id, at: int) returns (ok: bool)
      requires Valid()
      modifies this`hostId, this`genesisAt
      ensures Valid() && Outcome(State(), ok) == Step(Cfg(), old(State()), Genesis(host, sessionId, at))
    {
      if sessionId != session.id { return false; }
      if host != SessionHostPrefix(sessionId) { return false; }
      if hostId.Some? { return hostId.value == host; }
      hostId, genesisAt := Some(host), at;
      return true;
    }

    predicate IsAdmitted(m: Id)
      reads this
    {
      m in admitted && m !in evicted
    }

    method RoutableClaims() returns (list: seq<VipClaim>)
      requires claims.Valid()
      ensures Elements(list) == EligibleClaims(State())
    {
      list := [];
      for i := 0 to |claims.keys|
        invariant forall c :: c in list <==>
                    exists k | 0 <= k < i :: IsAdmitted(claims.keys[k]) && c == AsVipClaim(claims.keys[k])
      {
        if IsAdmitted(claims.keys[i]) { list := list + [AsVipClaim(claims.keys[i])]; }
      }
    }

    /** recomputeOwners: rebuild both tables from the admitted claims. */
    method RecomputeOwners()
      requires Inv(Cfg(), State())
      modifies this`vipOwners, this`memberToVip
      ensures Routed()
    {
      var list := RoutableClaims();
      var owners := ResolveVipOwners(session, list);
      forall v: U32, w: U32 | v in owners && w in owners && owners[v] == owners[w] ensures v == w {
        OneVipEach(Cfg(), State(), owners, v, w);
      }
      var rev := InvertTable(owners);
      vipOwners, memberToVip := owners, rev;
    }

    method ApplyAdmit(signer: Id, target: Id, at: int, sessionId: Id) returns (ok: bool)
      requires Valid()
      modifies this`lastAdmitAt, this`authorityFloor, this`admitted, this`vipOwners, this`memberToVip
      ensures Valid() && Outcome(State(), ok) == Step(Cfg(), old(State()), Admit(signer, target, at, sessionId))
    {
      if sessionId != session.id { return false; }
      if hostId.None? || signer != hostId.value { return false; }
      if target in evicted { return false; }
      var floor := if target in lastAdmitAt.at then lastAdmitAt.at[target] else floorSeed;
      if at <= floor { return false; }
      RecordAdmit(target, at);
      return true;
    }

    // What an accepted admit does: advance the floor, then the set and the tables.
    method RecordAdmit(target: Id, at: int)
      requires Valid() && target !in evicted && at > Floor(Cfg(), lastAdmitAt, target)
      modifies this`lastAdmitAt, this`authorityFloor, this`admitted, this`vipOwners, this`memberToVip
      ensures Valid() && State() == WithAdmit(old(State()), target, at)
    {
      ghost var before := State();
      WithAdmitKeepsInv(Cfg(), before, target, at);
      RaiseAdmitFloor(target, at);
      assert target in admitted ==> State().admitted == before.admitted + {target};
      if target in admitted { return; }
      admitted := admitted + {target};
      RecomputeOwners();
    }

    method RaiseAdmitFloor(target: Id, at: int)
      requires lastAdmitAt.Valid() && Routed()
      modifies this`lastAdmitAt, this`authorityFloor
      ensures State().(admitted := admitted + {target}) == WithAdmit(old(State()), target, at) && Routed()
    {
      SetValid(lastAdmitAt, target, at);
      lastAdmitAt := CapFifo(lastAdmitAt.Set(target, at), MAX_ANTIREPLAY);
      if at > authorityFloor { authorityFloor := at; }
    }

    method ApplyEvict(signer: Id, target: Id, at: int, sessionId: Id) returns (ok: bool)
      requires Valid()
      modifies this`lastEvictAt, this`authorityFloor, this`admitted, this`evicted, this`claims, this`vipOwners
      modifies this`memberToVip
      ensures Valid() && Outcome(State(), ok) == Step(Cfg(), old(State()), Evict(signer, target, at, sessionId))
    {
      if sessionId != session.id { return false; }
      if hostId.None? || signer != hostId.value { return false; }
      var floor := if target in lastEvictAt.at then lastEvictAt.at[target] else floorSeed;
      if at <= floor { return false; }
      RecordEvict(target, at);
      return true;
    }

    // What an accepted evict does: advance its own floor, ban, and release the member.
    method RecordEvict(target: Id, at: int)
      requires Valid() && at > Floor(Cfg(), lastEvictAt, target)
      modifies this`lastEvictAt, this`authorityFloor, this`admitted, this`evicted, this`claims, this`vipOwners
      modifies this`memberToVip
      ensures Valid() && State() == WithEvict(old(State()), target, at)
    {
      WithEvictKeepsInv(Cfg(), State(), target, at);
      RecordBan(target, at);
      DropMember(target);
    }

    method RecordBan(target: Id, at: int)
      requires claims.Valid() && lastEvictAt.Valid() && Routed()
      modifies this`lastEvictAt, this`authorityFloor, this`evicted
      ensures MemberGone(State(), target) == WithEvict(old(State()), target, at)
      ensures target !in admitted ==> Routed()
    {
      ghost var before := State();
      SetValid(lastEvictAt, target, at);
      lastEvictAt := CapFifo(lastEvictAt.Set(target, at), MAX_ANTIREPLAY);
      if at > authorityFloor { authorityFloor := at; }
      evicted := evicted + {target};
      assert MemberGone(State(), target) == WithEvict(before, target, at);
      if target !in admitted {
        assert EligibleClaims(State()) == EligibleClaims(before);
      }
    }

    /** The tail of applyEvict and onMemberGone: release admission and claim, and rebuild
        the tables only when something went. */
    method DropMember(m: Id)
      requires Inv(Cfg(), MemberGone(State(), m)) && claims.Valid()
      requires m !in admitted && m !in claims.at ==> Routed()
      modifies this`admitted, this`claims, this`vipOwners, this`memberToVip
      ensures State() == MemberGone(old(State()), m) && Inv(Cfg(), State()) && Routed()
    {
      var wasAdmitted, hadClaim := m in admitted, m in claims.at;
      DeleteValid(claims, m);
      if wasAdmitted || hadClaim {
        admitted, claims := admitted - {m}, claims.Delete(m);
        RecomputeOwners();
      } else {
        assert admitted - {m} == admitted;
      }
    }

    method CapClaimStore()
      requires claims.Valid()
      modifies this`claims
      ensures claims == CapClaims(old(claims), old(State()))
    {
      ghost var c := State();
      while |claims.keys| > MAX_ANTIREPLAY
        invariant claims.Valid() && CapClaims(claims, c) == CapClaims(old(claims), c)
        decreases |claims.keys|
      {
        var victim: Option<Id> := None;
        for i := 0 to |claims.keys|
          invariant victim.None? && forall k | 0 <= k < i :: IsAdmitted(claims.keys[k])
        {
          if !IsAdmitted(claims.keys[i]) {
            FirstAt(claims.keys, i, c);
            victim := Some(claims.keys[i]);
            break;
          }
        }
        if victim == None {
          AllAdmitted(claims.keys, c);
          break;
        }
        WithoutNotLonger(claims.keys, victim.value);
        DeleteValid(claims, victim.value);
        claims := claims.Delete(victim.value);
      }
    }

    method ApplyState(c: StateClaim) returns (ok: bool)
      requires Valid()
      modifies this`lastStateAt, this`claims, this`vipOwners, this`memberToVip
      ensures Valid() && Outcome(State(), ok) == Step(Cfg(), old(State()), Event.State(c))
    {
      if c.sessionId != session.id { return false; }
      if c.memberId == selfId { return false; }
      if !VerifyVipClaim(session, c.memberId, c.gen, c.vip) { return false; }
      if c.memberId in lastStateAt.at && c.at <= lastStateAt.at[c.memberId] { return false; }
      RecordState(c);
      return true;
    }

    // What an accepted claim does: advance its floor, store it, bound the store, re-route.
    method RecordState(c: StateClaim)
      requires Valid() && ClaimValid(Cfg(), c)
      modifies this`lastStateAt, this`claims, this`vipOwners, this`memberToVip
      ensures Valid() && State() == WithClaim(old(State()), c)
    {
      StoreClaim(c);
      RecomputeOwners();
    }

    method StoreClaim(c: StateClaim)
      requires Inv(Cfg(), State()) && ClaimValid(Cfg(), c)
      modifies this`lastStateAt, this`claims
      ensures Inv(Cfg(), State()) && State() == WithClaim(old(State()), c)
    {
      ghost var before := State();
      WithClaimKeepsInv(Cfg(), before, c);
      SetValid(lastStateAt, c.memberId, c.at);
      lastStateAt := CapFifo(lastStateAt.Set(c.memberId, c.at), MAX_ANTIREPLAY);
      SetValid(claims, c.memberId, Normal(c));
      claims := claims.Set(c.memberId, Normal(c));
      SameCap(claims, State(), before);
      CapClaimStore();
      assert State() == WithClaim(before, c);
    }

    /** A member left the room: its admission, claim and budgets go, the floors and the
        evicted set stay. */
    method OnMemberGone(m: Id)
      requires Valid()
      modifies this`admitted, this`claims, this`vipOwners, this`memberToVip, this`buckets
      ensures Valid() && State() == MemberGone(old(State()), m)
      ensures buckets == old(buckets).Delete(BucketKey(Direct, m)).Delete(BucketKey(RelayIn, m))
                           .Delete(BucketKey(RelayOut, m)).Delete(BucketKey(RelayWire, m))
    {
      StepKeepsInv(Cfg(), State(), Gone(m));
      DropMember(m);
      DropBuckets(m);
    }

    method DropBuckets(m: Id)
      requires Capped(buckets)
      modifies this`buckets
      ensures Capped(buckets)
      ensures buckets == old(buckets).Delete(BucketKey(Direct, m)).Delete(BucketKey(RelayIn, m))
                           .Delete(BucketKey(RelayOut, m)).Delete(BucketKey(RelayWire, m))
    {
      DropBucket(BucketKey(Direct, m));
      DropBucket(BucketKey(RelayIn, m));
      DropBucket(BucketKey(RelayOut, m));
      DropBucket(BucketKey(RelayWire, m));
    }

    method DropBucket(key: string)
      requires Capped(buckets)
      modifies this`buckets
      ensures buckets == old(buckets).Delete(key) && Capped(buckets)
    {
      DeleteValid(buckets, key);
      WithoutNotLonger(buckets.keys, key);
      buckets := buckets.Delete(key);
    }

    function SelfVip(): U32
      reads this
    {
      DeriveVip(session, selfId, selfGen)
    }

    /** Moves to the next generation exactly when an admitted member with a lower id
        holds a verified claim on our own address. */
    method BumpGenOnCollision() returns (r: Option<(U32, nat)>)
      requires Valid()
      modifies this`selfGen
      ensures Valid()
      ensures r.Some? <==> Outranked(old(State()), old(SelfVip()), selfId)
      ensures selfGen == if r.Some? then (old(selfGen) + 1) % 0x1_0000 else old(selfGen)
      ensures r.Some? ==> r.value == (SelfVip(), selfGen)
    {
      var mine := DeriveVip(session, selfId, selfGen);
      OutrankedIff(Cfg(), State(), vipOwners, mine, selfId);
      if mine in vipOwners && vipOwners[mine] != selfId && Less(vipOwners[mine], selfId) {
        selfGen := (selfGen + 1) % 0x1_0000;
        return Some((DeriveVip(session, selfId, selfGen), selfGen));
      }
      return None;
    }

    method AllowPacket(member: Id, bytes: nat, cls: BucketClass, now: real) returns (ok: bool)
      requires Valid()
      modifies this`buckets
      ensures Valid()
      ensures var key := BucketKey(cls, member); var cfg := ClassCfg(cls, member, bucketCfg);
              && buckets == Consume(old(buckets), key, cfg, now, bytes, MAX_ANTIREPLAY)
              && ok == TokenBucket.Admitted(if key in old(buckets).at then old(buckets).at[key]
                                else Bucket(cfg.burstPackets, cfg.burstBytes, now), cfg, now, bytes)
    {
      ok := ConsumeFrom(BucketKey(cls, member), bytes, ClassCfg(cls, member, bucketCfg), now);
    }

    // The shared token-bucket step, on the bucket of one key.
    method ConsumeFrom(key: string, bytes: nat, cfg: BucketCfg, now: real) returns (ok: bool)
      requires Capped(buckets)
      modifies this`buckets
      ensures Capped(buckets) && buckets == Consume(old(buckets), key, cfg, now, bytes, MAX_ANTIREPLAY)
      ensures ok == TokenBucket.Admitted(if key in old(buckets).at then old(buckets).at[key]
                                         else Bucket(cfg.burstPackets, cfg.burstBytes, now), cfg, now, bytes)
    {
      ConsumeCapped(buckets, key, cfg, now, bytes, MAX_ANTIREPLAY);
      var b := BucketFor(key, cfg, now);
      b := Refill(b, cfg, now);
      ok := !(b.tokens < 1.0 || b.bytes < bytes as real);
      if ok { b := Bucket(b.tokens - 1.0, b.bytes - bytes as real, b.last); }
      buckets := buckets.Set(key, b);
    }

    method BucketFor(key: string, cfg: BucketCfg, now: real) returns (b: Bucket)
      requires Capped(buckets)
      modifies this`buckets
      ensures key in old(buckets).at ==> b == old(buckets).at[key] && buckets == old(buckets)
      ensures key !in old(buckets).at ==>
                b == Bucket(cfg.burstPackets, cfg.burstBytes, now)
                  && buckets == old(buckets).Set(key, b).Newest(MAX_ANTIREPLAY)
    {
      if key in buckets.at { return buckets.at[key]; }
      b := Bucket(cfg.burstPackets, cfg.burstBytes, now);
      SetValid(buckets, key, b);
      buckets := CapFifo(buckets.Set(key, b), MAX_ANTIREPLAY);
    }

    /** The address a member owns, which is the one that leads back to it. */
    method MemberVip(m: Id) returns (r: Option<U32>)
      requires Valid()
      ensures forall v: U32 :: r == Some(v) <==> v in vipOwners && vipOwners[v] == m
    {
      r := if m in memberToVip then Some(memberToVip[m]) else None;
    }

    method View() returns (v: Router.CoreView)
      requires Valid()
      ensures v == Router.CoreView(hostId, admitted, vipOwners, SelfVip())
      ensures forall m :: m in v.admitted <==> IsAdmitted(m)
      ensures RoutingTable(Cfg(), State(), v.vipOwners)
    {
      v := Router.CoreView(hostId, admitted, vipOwners, SelfVip());
    }

    function AsVipClaim(m: Id): VipClaim
      reads this
      requires m in claims.at
    {
      VipClaim(m, claims.at[m].gen, claims.at[m].vip)
    }
  }

  lemma {:induction false} FirstAt(keys: seq<Id>, i: nat, c: Core)
    requires i < |keys| && !Admission.IsAdmitted(c, keys[i])
    requires forall k | 0 <= k < i :: Admission.IsAdmitted(c, keys[k])
    ensures FirstNotAdmitted(keys, c) == Some(keys[i])
  {
    if i > 0 { FirstAt(keys[1..], i - 1, c); }
  }

  lemma {:induction false} AllAdmitted(keys: seq<Id>, c: Core)
    requires forall k | 0 <= k < |keys| :: Admission.IsAdmitted(c, keys[k])
    ensures FirstNotAdmitted(keys, c) == None
  {
    if keys != [] { AllAdmitted(keys[1..], c); }
  }

  // Only the admission sets matter to the cap.
  lemma {:induction false} SameCap(claims: Dict<StateClaim>, c: Core, d: Core)
    requires c.admitted == d.admitted && c.evicted == d.evicted
    ensures CapClaims(claims, c) == CapClaims(claims, d)
    decreases |claims.keys|
  {
    SameVictim(claims.keys, c, d);
    var victim := FirstNotAdmitted(claims.keys, c);
    if victim.Some? {
      WithoutNotLonger(claims.keys, victim.value);
      SameCap(claims.Delete(victim.value), c, d);
    }
  }

  lemma {:induction false} SameVictim(keys: seq<Id>, c: Core, d: Core)
    requires c.admitted == d.admitted && c.evicted == d.evicted
    ensures FirstNotAdmitted(keys, c) == FirstNotAdmitted(keys, d)
  {
    if keys != [] { SameVictim(keys[1..], c, d); }
  }

  // An admitted member with a lower id holds a verified claim on `mine`.
  ghost predicate Outranked(c: Core, mine: U32, self: Id) {
    exists m :: m in c.claims.at && Admission.IsAdmitted(c, m) && ToU32(c.claims.at[m].vip) == mine && Less(m, self)
  }

  lemma OutrankedIff(cfg: Config, c: Core, t: map<U32, Id>, mine: U32, self: Id)
    requires Inv(cfg, c) && RoutingTable(cfg, c, t)
    ensures (mine in t && t[mine] != self && Less(t[mine], self)) <==> Outranked(c, mine, self)
  {
    if mine in t && Less(t[mine], self) {
      assert Claimant(cfg.session, EligibleClaims(c), mine, t[mine]);
    }
    if Outranked(c, mine, self) {
      var m :| m in c.claims.at && Admission.IsAdmitted(c, m) && ToU32(c.claims.at[m].vip) == mine && Less(m, self);
      var s := c.claims.at[m];
      assert VipClaim(m, s.gen, s.vip) in EligibleClaims(c);
      assert Claims(cfg.session, VipClaim(m, s.gen, s.vip), mine);
      LessIrreflexive(self);
      if t[mine] != m { LessTransitive(t[mine], m, self); }
    }
  }

  lemma ConsumeCapped(bs: Dict<Bucket>, key: string, cfg: BucketCfg, t: real, bytes: nat, cap: nat)
    requires bs.Valid() && |bs.keys| <= cap && cap > 0
    ensures var after := Consume(bs, key, cfg, t, bytes, cap);
            after.Valid() && |after.keys| <= cap
    ensures var full := Bucket(cfg.burstPackets, cfg.burstBytes, t);
            key !in bs.at ==>
            bs.Set(key, full).Newest(cap).Set(key, Charge(full, cfg, t, bytes)) == Consume(bs, key, cfg, t, bytes, cap)
  {
    var full := Bucket(cfg.burstPackets, cfg.burstBytes, t);
    var charged := Charge(if key in bs.at then bs.at[key] else full, cfg, t, bytes);
    ChargedNewest(bs, key, full, charged, cap);
    SetValid(bs, key, charged);
    NewestValid(bs.Set(key, charged), cap);
  }

  // Capping and then charging the new bucket is charging it and then capping.
  lemma ChargedNewest(bs: Dict<Bucket>, key: string, b: Bucket, charged: Bucket, cap: nat)
    requires bs.Valid() && |bs.keys| <= cap && cap > 0
    ensures key !in bs.at ==> bs.Set(key, b).Newest(cap).Set(key, charged) == bs.Set(key, charged).Newest(cap)
  {
    if key !in bs.at && |bs.keys| == cap {
      var grown := bs.keys + [key];
      var kept := grown[1..];
      assert kept[|kept| - 1] == key;
      var x, y := bs.Set(key, b).Newest(cap).Set(key, charged), bs.Set(key, charged).Newest(cap);
      assert x.keys == kept && y.keys == kept;
      forall k ensures k in x.at <==> k in y.at {}
      assert x.at == y.at;
    }
  }
}
