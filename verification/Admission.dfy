/** The replicated admission state of a virtual-LAN session, as values: what
    LanSessionCore (shared/lan-session-core.ts) does to its sets and tables on each
    verified gossip message, and what every run of them keeps. The class that
    updates these in place is in SessionCore.dfy. */
module Admission {
  import opened Ids
  import opened Numbers
  import opened Dicts
  import opened VirtualIp

  const MAX_ANTIREPLAY := 512

  // The creator a session id commits to: what precedes its first '.'.
  function SessionHostPrefix(sessionId: Id): Id { PrefixUpTo(sessionId, 0) }

  function PrefixUpTo(s: Id, i: nat): Id
    requires i <= |s|
    decreases |s| - i
  {
    if i == |s| then "" else if s[i] == '.' then s[..i] else PrefixUpTo(s, i + 1)
  }

  datatype StateClaim = StateClaim(memberId: Id, sessionId: Id, vip: int, gen: nat, at: int)

  datatype Config = Config(session: Session, selfId: Id, floorSeed: nat)

  datatype Core = Core(
    hostId: Option<Id>, genesisAt: int,
    admitted: set<Id>, evicted: set<Id>,
    lastAdmitAt: Dict<int>, lastEvictAt: Dict<int>, lastStateAt: Dict<int>,
    claims: Dict<StateClaim>, authorityFloor: int)

  // Clamp of the constructor: anything but a positive number seeds at 0.
  function Seed(authorityFloor: int): nat { if authorityFloor > 0 then authorityFloor else 0 }

  function Initial(cfg: Config): Core {
    Core(None, -1, {}, {}, Empty(), Empty(), Empty(), Empty(), cfg.floorSeed)
  }

  /** A gossip message, its signature already verified, or a departure. */
  datatype Event =
    | Genesis(host: Id, sessionId: Id, at: int)
    | Admit(signer: Id, target: Id, at: int, sessionId: Id)
    | Evict(signer: Id, target: Id, at: int, sessionId: Id)
    | State(claim: StateClaim)
    | Gone(member: Id)

  datatype Outcome = Outcome(core: Core, ok: bool)

  function PinGenesis(cfg: Config, c: Core, host: Id, sessionId: Id, at: int): Outcome {
    if sessionId != cfg.session.id || host != SessionHostPrefix(sessionId) then Outcome(c, false)
    else if c.hostId.Some? then Outcome(c, c.hostId.value == host)
    else Outcome(c.(hostId := Some(host), genesisAt := at), true)
  }

  // A member without a floor of its own is compared against the persisted seed.
  function Floor(cfg: Config, floors: Dict<int>, target: Id): int {
    if target in floors.at then floors.at[target] else cfg.floorSeed
  }

  predicate HostSigned(cfg: Config, c: Core, signer: Id, sessionId: Id) {
    sessionId == cfg.session.id && c.hostId == Some(signer)
  }

  predicate AdmitAccepted(cfg: Config, c: Core, signer: Id, target: Id, at: int, sessionId: Id) {
    HostSigned(cfg, c, signer, sessionId) && target !in c.evicted && at > Floor(cfg, c.lastAdmitAt, target)
  }

  function ApplyAdmit(cfg: Config, c: Core, signer: Id, target: Id, at: int, sessionId: Id): Outcome {
    if !AdmitAccepted(cfg, c, signer, target, at, sessionId) then Outcome(c, false)
    else Outcome(WithAdmit(c, target, at), true)
  }

  function WithAdmit(c: Core, target: Id, at: int): Core {
    c.(lastAdmitAt := c.lastAdmitAt.Set(target, at).Newest(MAX_ANTIREPLAY),
       authorityFloor := Max(at, c.authorityFloor),
       admitted := c.admitted + {target})
  }

  predicate EvictAccepted(cfg: Config, c: Core, signer: Id, target: Id, at: int, sessionId: Id) {
    HostSigned(cfg, c, signer, sessionId) && at > Floor(cfg, c.lastEvictAt, target)
  }

  function ApplyEvict(cfg: Config, c: Core, signer: Id, target: Id, at: int, sessionId: Id): Outcome {
    if !EvictAccepted(cfg, c, signer, target, at, sessionId) then Outcome(c, false)
    else Outcome(WithEvict(c, target, at), true)
  }

  function WithEvict(c: Core, target: Id, at: int): Core {
    c.(lastEvictAt := c.lastEvictAt.Set(target, at).Newest(MAX_ANTIREPLAY),
       authorityFloor := Max(at, c.authorityFloor),
       evicted := c.evicted + {target},
       admitted := c.admitted - {target},
       claims := c.claims.Delete(target))
  }

  predicate IsAdmitted(c: Core, m: Id) { m in c.admitted && m !in c.evicted }

  // A claim this core would ever take: for this session, not our own echo, re-derived.
  predicate ClaimValid(cfg: Config, s: StateClaim) {
    s.sessionId == cfg.session.id && s.memberId != cfg.selfId
    && VerifyVipClaim(cfg.session, s.memberId, s.gen, s.vip)
  }

  function Normal(s: StateClaim): StateClaim { s.(vip := ToU32(s.vip)) }

  function ApplyState(cfg: Config, c: Core, s: StateClaim): Outcome {
    if !ClaimValid(cfg, s) || (s.memberId in c.lastStateAt.at && s.at <= c.lastStateAt.at[s.memberId])
    then Outcome(c, false)
    else Outcome(WithClaim(c, s), true)
  }

  function WithClaim(c: Core, s: StateClaim): Core {
    c.(lastStateAt := c.lastStateAt.Set(s.memberId, s.at).Newest(MAX_ANTIREPLAY),
       claims := CapClaims(c.claims.Set(s.memberId, Normal(s)), c))
  }

  // The oldest claim of a member that is not admitted, while the store is over the cap.
  function CapClaims(claims: Dict<StateClaim>, c: Core): Dict<StateClaim>
    decreases |claims.keys|
  {
    var victim := FirstNotAdmitted(claims.keys, c);
    if |claims.keys| <= MAX_ANTIREPLAY || victim == None then claims
    else
      WithoutNotLonger(claims.keys, victim.value);
      CapClaims(claims.Delete(victim.value), c)
  }

  function FirstNotAdmitted(keys: seq<Id>, c: Core): (r: Option<Id>)
    ensures r.None? ==> forall k | k in keys :: IsAdmitted(c, k)
    ensures r.Some? ==> r.value in keys && !IsAdmitted(c, r.value)
  {
    if keys == [] then None
    else if !IsAdmitted(c, keys[0]) then Some(keys[0])
    else FirstNotAdmitted(keys[1..], c)
  }

  function MemberGone(c: Core, m: Id): Core {
    c.(admitted := c.admitted - {m}, claims := c.claims.Delete(m))
  }

  function Step(cfg: Config, c: Core, e: Event): Outcome {
    match e
    case Genesis(host, sid, at) => PinGenesis(cfg, c, host, sid, at)
    case Admit(signer, target, at, sid) => ApplyAdmit(cfg, c, signer, target, at, sid)
    case Evict(signer, target, at, sid) => ApplyEvict(cfg, c, signer, target, at, sid)
    case State(claim) => ApplyState(cfg, c, claim)
    case Gone(m) => Outcome(MemberGone(c, m), true)
  }

  function Run(cfg: Config, c: Core, es: seq<Event>): Core {
    if es == [] then c else Step(cfg, Run(cfg, c, es[..|es| - 1]), es[|es| - 1]).core
  }

  ghost predicate Capped<V>(d: Dict<V>) { d.Valid() && |d.keys| <= MAX_ANTIREPLAY }

  // Every floor is a stamp above the seed that the watermark has taken in.
  ghost predicate GrantFloors(seed: nat, watermark: int, d: Dict<int>) {
    Capped(d) && forall m | m in d.at :: seed < d.at[m] <= watermark
  }

  ghost predicate StoredClaims(cfg: Config, d: Dict<StateClaim>) {
    d.Valid() && forall m | m in d.at :: StoredClaim(cfg, m, d.at[m])
  }

  /** What every reachable state satisfies. */
  ghost predicate Inv(cfg: Config, c: Core) {
    && GrantFloors(cfg.floorSeed, c.authorityFloor, c.lastAdmitAt)
    && GrantFloors(cfg.floorSeed, c.authorityFloor, c.lastEvictAt)
    && Capped(c.lastStateAt)
    && StoredClaims(cfg, c.claims)
    && c.admitted !! c.evicted
    && c.lastEvictAt.at.Keys <= c.evicted
    && cfg.floorSeed <= c.authorityFloor
    && (c.hostId.Some? ==> c.hostId.value == SessionHostPrefix(cfg.session.id))
  }

  ghost predicate StoredClaim(cfg: Config, m: Id, s: StateClaim) {
    s.memberId == m && ClaimValid(cfg, s) && Normal(s) == s
  }

  lemma NormalIsStored(cfg: Config, s: StateClaim)
    requires ClaimValid(cfg, s)
    ensures StoredClaim(cfg, s.memberId, Normal(s))
  {}

  lemma {:induction false} CapClaimsKeeps(claims: Dict<StateClaim>, c: Core)
    requires claims.Valid()
    ensures var r := CapClaims(claims, c);
            && r.Valid() && r.at.Keys <= claims.at.Keys
            && (forall m | m in r.at :: r.at[m] == claims.at[m])
            && (forall m | m in claims.at && IsAdmitted(c, m) :: m in r.at)
            && (|claims.keys| <= MAX_ANTIREPLAY ==> r == claims)
    decreases |claims.keys|
  {
    var victim := FirstNotAdmitted(claims.keys, c);
    if |claims.keys| > MAX_ANTIREPLAY && victim.Some? {
      WithoutNotLonger(claims.keys, victim.value);
      DeleteValid(claims, victim.value);
      CapClaimsKeeps(claims.Delete(victim.value), c);
    }
  }

  lemma WithAdmitKeepsInv(cfg: Config, c: Core, target: Id, at: int)
    requires Inv(cfg, c) && target !in c.evicted && at > Floor(cfg, c.lastAdmitAt, target)
    ensures Inv(cfg, WithAdmit(c, target, at))
  {
    SetValid(c.lastAdmitAt, target, at);
    NewestValid(c.lastAdmitAt.Set(target, at), MAX_ANTIREPLAY);
  }

  lemma WithEvictKeepsInv(cfg: Config, c: Core, target: Id, at: int)
    requires Inv(cfg, c) && at > Floor(cfg, c.lastEvictAt, target)
    ensures Inv(cfg, WithEvict(c, target, at))
  {
    SetValid(c.lastEvictAt, target, at);
    NewestValid(c.lastEvictAt.Set(target, at), MAX_ANTIREPLAY);
    DeleteValid(c.claims, target);
  }

  lemma WithClaimKeepsInv(cfg: Config, c: Core, s: StateClaim)
    requires Inv(cfg, c) && ClaimValid(cfg, s)
    ensures Inv(cfg, WithClaim(c, s))
  {
    SetValid(c.lastStateAt, s.memberId, s.at);
    NewestValid(c.lastStateAt.Set(s.memberId, s.at), MAX_ANTIREPLAY);
    SetValid(c.claims, s.memberId, Normal(s));
    NormalIsStored(cfg, s);
    CapClaimsKeeps(c.claims.Set(s.memberId, Normal(s)), c);
  }

  lemma StepKeepsInv(cfg: Config, c: Core, e: Event)
    requires Inv(cfg, c)
    ensures Inv(cfg, Step(cfg, c, e).core)
  {
    match e
    case Genesis(_, _, _) =>
    case Admit(signer, target, at, sid) =>
      if AdmitAccepted(cfg, c, signer, target, at, sid) { WithAdmitKeepsInv(cfg, c, target, at); }
    case Evict(signer, target, at, sid) =>
      if EvictAccepted(cfg, c, signer, target, at, sid) { WithEvictKeepsInv(cfg, c, target, at); }
    case State(s) =>
      if ClaimValid(cfg, s) { WithClaimKeepsInv(cfg, c, s); }
    case Gone(m) => DeleteValid(c.claims, m);
  }

  lemma {:induction false} RunKeepsInv(cfg: Config, c: Core, es: seq<Event>)
    requires Inv(cfg, c)
    ensures Inv(cfg, Run(cfg, c, es))
  {
    if es != [] {
      RunKeepsInv(cfg, c, es[..|es| - 1]);
      StepKeepsInv(cfg, Run(cfg, c, es[..|es| - 1]), es[|es| - 1]);
    }
  }
}
