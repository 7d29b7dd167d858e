/** Statements across the whole virtual LAN: what the members' tables have to do with
    each other, what an evict severs, and relaying as a system of steps. */
module LanSystem {
  import opened Ids
  import opened VirtualIp
  import opened Packet
  import opened Admission
  import opened Convergence
  import opened Router
  import opened RelayFrame
  import opened Relay
  import opened TokenBucket

  // ---- From gossip to delivery ----

  // A claim any other member of the session would take.
  ghost predicate Announced(s: Session, es: set<Event>, c: StateClaim) {
    State(c) in es && c.sessionId == s.id && VerifyVipClaim(s, c.memberId, c.gen, c.vip)
  }

  ghost predicate Newest(s: Session, es: set<Event>, c: StateClaim) {
    Announced(s, es, c) && forall d | Announced(s, es, d) && d.memberId == c.memberId :: d.at <= c.at
  }

  // Admitted and never evicted by these messages, for cores seeded at `seed`.
  ghost predicate Member(s: Session, seed: nat, es: set<Event>, m: Id) {
    Admits(Config(s, m, seed), es, m) && !Evicts(Config(s, m, seed), es, m)
  }

  /** The claims of the session: every member's newest one. */
  ghost function SessionClaims(s: Session, seed: nat, es: set<Event>): set<VipClaim> {
    set e | e in es && e.State? && Newest(s, es, e.claim) && Member(s, seed, es, e.claim.memberId) ::
      VipClaim(e.claim.memberId, e.claim.gen, ToU32(e.claim.vip))
  }

  // Nobody leaves, no member uses a stamp twice, and at most 512 members announce.
  ghost predicate Orderly(s: Session, es: set<Event>, who: set<Id>) {
    && NoDeparture(es) && |who| <= MAX_ANTIREPLAY
    && (forall c | Announced(s, es, c) :: c.memberId in who)
    && (forall c, d | Announced(s, es, c) && Announced(s, es, d) && c.memberId == d.memberId && c.at == d.at :: c == d)
  }

  // The seed separates the grants among the messages where `seed` does.
  ghost predicate SeededLike(es: set<Event>, seed: nat, own: nat) {
    forall e | e in es && (e.Admit? || e.Evict?) :: e.at > seed <==> e.at > own
  }

  lemma MemberIff(cfg: Config, seed: nat, es: set<Event>, m: Id)
    requires SeededLike(es, seed, cfg.floorSeed)
    ensures Member(cfg.session, seed, es, m) <==> Admits(cfg, es, m) && !Evicts(cfg, es, m)
  {
    var c := Config(cfg.session, m, seed);
    forall e | e in es ensures AdmitFor(cfg, e, m) <==> AdmitFor(c, e, m) {}
    forall e | e in es ensures EvictFor(cfg, e, m) <==> EvictFor(c, e, m) {}
  }

  lemma AnnouncesIff(cfg: Config, es: set<Event>, c: StateClaim)
    ensures Announces(cfg, es, c) <==> Announced(cfg.session, es, c) && c.memberId != cfg.selfId
  {}

  // The claim a core holds of another member is that member's newest.
  lemma HeldIsNewest(cfg: Config, d: Core, es: set<Event>, who: set<Id>, m: Id)
    requires ClaimsAre(cfg, d, es, who) && m in d.claims.at && m !in d.evicted
    ensures exists c :: Newest(cfg.session, es, c) && c.memberId == m && Normal(c) == d.claims.at[m]
    ensures m != cfg.selfId
  {
    assert Backed(cfg, es, m, d.claims.at[m]);
    var c :| Announces(cfg, es, c) && c.memberId == m && Normal(c) == d.claims.at[m];
    forall t | Announced(cfg.session, es, t) && t.memberId == m ensures t.at <= c.at {
      AnnouncesIff(cfg, es, t);
      assert Announces(cfg, es, t);
    }
  }

  lemma NewestIsHeld(cfg: Config, d: Core, es: set<Event>, who: set<Id>, c: StateClaim)
    requires ClaimsAre(cfg, d, es, who) && Orderly(cfg.session, es, who)
    requires Newest(cfg.session, es, c) && c.memberId != cfg.selfId && c.memberId !in d.evicted
    ensures c.memberId in d.claims.at && d.claims.at[c.memberId] == Normal(c)
  {
    AnnouncesIff(cfg, es, c);
    assert Announces(cfg, es, c);
    HeldIsNewest(cfg, d, es, who, c.memberId);
    var t :| Newest(cfg.session, es, t) && t.memberId == c.memberId && Normal(t) == d.claims.at[c.memberId];
    assert t.at <= c.at && c.at <= t.at;
  }

  lemma InSession(s: Session, seed: nat, es: set<Event>, c: StateClaim)
    requires Newest(s, es, c) && Member(s, seed, es, c.memberId)
    ensures VipClaim(c.memberId, c.gen, ToU32(c.vip)) in SessionClaims(s, seed, es)
  {
    assert State(c) in es && State(c).claim == c;
  }

  lemma FromSession(s: Session, seed: nat, es: set<Event>, v: VipClaim) returns (c: StateClaim)
    requires v in SessionClaims(s, seed, es)
    ensures Newest(s, es, c) && Member(s, seed, es, c.memberId) && v == VipClaim(c.memberId, c.gen, ToU32(c.vip))
  {
    var e :| e in es && e.State? && Newest(s, es, e.claim) && Member(s, seed, es, e.claim.memberId)
             && v == VipClaim(e.claim.memberId, e.claim.gen, ToU32(e.claim.vip));
    c := e.claim;
  }

  lemma OneSessionClaimEach(s: Session, seed: nat, es: set<Event>, who: set<Id>)
    requires Orderly(s, es, who)
    ensures OneClaimEach(SessionClaims(s, seed, es))
  {
    var cs := SessionClaims(s, seed, es);
    forall v, w | v in cs && w in cs && v.memberId == w.memberId ensures v == w {
      var c := FromSession(s, seed, es, v);
      var d := FromSession(s, seed, es, w);
      assert c.at <= d.at && d.at <= c.at;
    }
  }

  /** Every member ends with everybody else's newest claim, whatever order the messages came
      in and however often. */
  lemma RunHoldsOthers(cfg: Config, at: int, es: seq<Event>, seed: nat, who: set<Id>)
    requires Orderly(cfg.session, Elements(es), who) && SeededLike(Elements(es), seed, cfg.floorSeed)
    ensures EligibleClaims(Run(cfg, Pinned(cfg, at), es))
            == Others(SessionClaims(cfg.session, seed, Elements(es)), cfg.selfId)
  {
    var all, d := Elements(es), Run(cfg, Pinned(cfg, at), es);
    forall c | Announces(cfg, all, c) ensures c.memberId in who { AnnouncesIff(cfg, all, c); }
    ClaimsRun(cfg, at, es, who);
    AdmissionConverges(cfg, at, es);
    forall v ensures v in EligibleClaims(d) <==> v in Others(SessionClaims(cfg.session, seed, all), cfg.selfId) {
      EligibleIff(cfg, d, all, seed, who, v);
    }
  }

  lemma EligibleIff(cfg: Config, d: Core, es: set<Event>, seed: nat, who: set<Id>, v: VipClaim)
    requires ClaimsAre(cfg, d, es, who) && AdmissionIs(cfg, d, es)
    requires Orderly(cfg.session, es, who) && SeededLike(es, seed, cfg.floorSeed)
    ensures v in EligibleClaims(d) <==> v in Others(SessionClaims(cfg.session, seed, es), cfg.selfId)
  {
    var cs := SessionClaims(cfg.session, seed, es);
    MemberIff(cfg, seed, es, v.memberId);
    if v in EligibleClaims(d) {
      HeldIsNewest(cfg, d, es, who, v.memberId);
      var c :| Newest(cfg.session, es, c) && c.memberId == v.memberId && Normal(c) == d.claims.at[v.memberId];
      InSession(cfg.session, seed, es, c);
    }
    if v in Others(cs, cfg.selfId) {
      var c := FromSession(cfg.session, seed, es, v);
      NewestIsHeld(cfg, d, es, who, c);
    }
  }

  /** A member of the session as the messages leave it: whatever order it heard them in, its
      view is its core's, and its newest announcement names its present address. */
  ghost predicate Participant(
    s: Session, seed: nat, all: set<Event>, at: int, es: seq<Event>, own: nat, self: Id, view: CoreView) {
    var cfg := Config(s, self, own);
    && Elements(es) == all && SeededLike(all, seed, own) && Member(s, seed, all, self)
    && ViewOf(cfg, Run(cfg, Pinned(cfg, at), es), view)
    && exists c :: Newest(s, all, c) && c.memberId == self && ToU32(c.vip) == view.selfVip
  }

  /** Each of them resolves the same claims, which is all that the delivery theorems ask for. */
  lemma ParticipantResolves(s: Session, seed: nat, all: set<Event>, who: set<Id>, at: int, es: seq<Event>, own: nat,
                            self: Id, view: CoreView)
    requires Orderly(s, all, who) && Participant(s, seed, all, at, es, own, self, view)
    ensures Resolves(s, SessionClaims(s, seed, all), view, self)
  {
    var cfg, cs := Config(s, self, own), SessionClaims(s, seed, all);
    RunHoldsOthers(cfg, at, es, seed, who);
    OneSessionClaimEach(s, seed, all, who);
    var c :| Newest(s, all, c) && c.memberId == self && ToU32(c.vip) == view.selfVip;
    InSession(s, seed, all, c);
    assert Claims(s, VipClaim(self, c.gen, ToU32(c.vip)), view.selfVip);
  }

  ghost predicate Present(s: Session, seed: nat, all: set<Event>, self: Id, view: CoreView) {
    exists at, es, own :: Participant(s, seed, all, at, es, own, self, view)
  }

  lemma PresentResolves(s: Session, seed: nat, all: set<Event>, who: set<Id>, self: Id, view: CoreView)
    requires Orderly(s, all, who) && Present(s, seed, all, self, view)
    ensures Resolves(s, SessionClaims(s, seed, all), view, self)
  {
    var at, es, own :| Participant(s, seed, all, at, es, own, self, view);
    ParticipantResolves(s, seed, all, who, at, es, own, self, view);
  }

  /** Members that have heard the same messages agree on who owns an address, for every address
      but the ones they claim themselves. */
  lemma MembersAgree(
    s: Session, seed: nat, all: set<Event>, who: set<Id>, a: Id, va: CoreView, b: Id, vb: CoreView, v: U32)
    requires Orderly(s, all, who) && Present(s, seed, all, a, va) && Present(s, seed, all, b, vb)
    requires v != va.selfVip && v != vb.selfVip
    ensures v in va.vipOwners <==> v in vb.vipOwners
    ensures v in va.vipOwners ==> va.vipOwners[v] == vb.vipOwners[v]
  {
    var cs := SessionClaims(s, seed, all);
    PresentResolves(s, seed, all, who, a, va);
    PresentResolves(s, seed, all, who, b, vb);
    if v in va.vipOwners { SeenAlike(s, cs, a, va, b, vb, v); }
    if v in vb.vipOwners { SeenAlike(s, cs, b, vb, a, va, v); }
  }

  lemma SeenAlike(s: Session, cs: set<VipClaim>, a: Id, va: CoreView, b: Id, vb: CoreView, v: U32)
    requires Resolves(s, cs, va, a) && Resolves(s, cs, vb, b)
    requires v in va.vipOwners && v != va.selfVip && v != vb.selfVip
    ensures v in vb.vipOwners && vb.vipOwners[v] == va.vipOwners[v]
  {
    var m := va.vipOwners[v];
    assert Claimant(s, Others(cs, a), v, m);
    assert m != a;
    SeenOwnerIff(s, cs, va, a, v, m);
    if Claimant(s, cs, v, a) { OneAddressEach(s, cs, v, va.selfVip, a); }
    if m == b { OneAddressEach(s, cs, v, vb.selfVip, b); }
    SeenOwnerIff(s, cs, vb, b, v, m);
  }

  /** From gossip to delivery: between members that have heard the same messages, in any order,
      every routed packet goes to a member that claims its destination, which takes it as the
      sender's exactly when nobody else outranks the sender at the sender's address; so always
      between members that own their addresses. */
  lemma GossipDelivers(
    frame: Bytes, a: RouteCtx, b: CoreView, target: Id,
    s: Session, seed: nat, all: set<Event>, who: set<Id>, owners: map<U32, Id>)
    requires PlanRoute(frame, a) == Route(Unicast, [target]) && Orderly(s, all, who)
    requires Present(s, seed, all, a.selfId, a.view) && Present(s, seed, all, target, b)
    requires IsOwnerTable(s, SessionClaims(s, seed, all), owners)
    ensures ParseIpv4(frame).value.dst == b.selfVip
    ensures AcceptInbound(frame, a.selfId, b) <==>
            Unrivalled(s, SessionClaims(s, seed, all), a.view.selfVip, a.selfId, target)
    ensures Owned(owners, a.view.selfVip, a.selfId) && Owned(owners, b.selfVip, target) ==>
            AcceptInbound(frame, a.selfId, b)
  {
    var cs := SessionClaims(s, seed, all);
    PresentResolves(s, seed, all, who, a.selfId, a.view);
    PresentResolves(s, seed, all, who, target, b);
    DirectDeliveryIff(frame, a, b, target, s, cs);
    if Owned(owners, a.view.selfVip, a.selfId) && Owned(owners, b.selfVip, target) {
      DirectDelivery(frame, a, b, target, s, cs, owners);
    }
  }

  /** The same over a relay: the envelope arrives exactly, and as the sender's, if and only if the
      sender owns its address and the packet is for another. */
  lemma GossipRelays(
    packet: Bytes, a: RouteCtx, va: RelayView, b: Id, c: Id, atC: ForwardCtx, atB: AcceptCtx,
    s: Session, seed: nat, all: set<Event>, who: set<Id>, owners: map<U32, Id>)
    requires PlanRoute(packet, a) == Route(Unicast, [b]) && |packet| <= LAN_MTU
    requires va.selfId == a.selfId && SelectRelay(va, b) == Some(c)
    requires IsMemberId(a.selfId) && IsMemberId(b) && a.selfId in va.admitted
    requires atC.view.selfId == c && atB.view.selfId == b
    requires SameGossip(va, atB.view) && va.admitted == atC.view.admitted
    requires atC.willing && b in atC.view.legs && !(atB.strictDirect && a.selfId in atB.view.legs)
    requires atC.subnet == atB.subnet == SessionSubnet(s)
    requires Orderly(s, all, who) && Present(s, seed, all, a.selfId, a.view)
    requires Present(s, seed, all, b, atB.core) && Present(s, seed, all, c, atC.core)
    requires IsOwnerTable(s, SessionClaims(s, seed, all), owners)
    requires forall o, t, n :: atC.budget(o, t, n)
    requires forall o, n :: atB.budget(o, n)
    ensures var frame := EncodeRelay(a.selfId, b, packet);
            frame.Some? &&
            (Owned(owners, a.view.selfVip, a.selfId) && ParseIpv4(packet).value.dst != a.view.selfVip <==>
               && PlanRelayForward(frame.value, a.selfId, atC) == Forward(b, a.selfId, frame.value)
               && AcceptRelayedInbound(frame.value, c, atB) == Accept(a.selfId, packet))
  {
    PresentResolves(s, seed, all, who, a.selfId, a.view);
    PresentResolves(s, seed, all, who, b, atB.core);
    PresentResolves(s, seed, all, who, c, atC.core);
    RelayDeliversIff(packet, a, va, b, c, atC, atB, s, SessionClaims(s, seed, all), owners);
  }

  // ---- Terminal evict ----

  // The view a core in state d hands to the router and the relay layer.
  ghost predicate ViewOf(cfg: Config, d: Core, view: CoreView) {
    view.hostId == d.hostId && view.admitted == d.admitted && RoutingTable(cfg, d, view.vipOwners)
  }

  /** After an evict of x, in every later state: no unicast is routed to x, nothing is
      taken from x directly, and x is no origin, target or waypoint of a relayed frame. */
  lemma EvictSevers(
    cfg: Config, c: Core, es: seq<Event>, x: Id, frame: Bytes, route: RouteCtx, fwd: ForwardCtx, acc: AcceptCtx)
    requires Inv(cfg, c) && x in c.evicted
    requires var d := Run(cfg, c, es);
             && ViewOf(cfg, d, route.view) && ViewOf(cfg, d, fwd.core) && ViewOf(cfg, d, acc.core)
             && fwd.view.admitted == d.admitted && acc.view.admitted == d.admitted
    ensures PlanRoute(frame, route) != Route(Unicast, [x]) && !AcceptInbound(frame, x, route.view)
    ensures PlanRelayForward(frame, x, fwd).DropForward?
    ensures forall from :: PlanRelayForward(frame, from, fwd).Forward? ==> PlanRelayForward(frame, from, fwd).to != x
    ensures AcceptRelayedInbound(frame, x, acc).DropAccept?
    ensures forall from :: AcceptRelayedInbound(frame, from, acc).Accept? ==>
            AcceptRelayedInbound(frame, from, acc).origin != x
    ensures SelectRelay(acc.view, x) == None && forall target :: SelectRelay(acc.view, target) != Some(x)
  {
    EvictIsTerminal(cfg, c, es, x);
    var d := Run(cfg, c, es);
    assert x !in route.view.vipOwners.Values;
    EvictedNotRouted(frame, route, x);
    EvictedNotRelayed(frame, fwd, acc, x);
    forall target ensures SelectRelay(acc.view, target) != Some(x) { SelectRelayIsArgmin(acc.view, target); }
  }

  lemma EvictedNotRouted(frame: Bytes, route: RouteCtx, x: Id)
    requires x !in route.view.vipOwners.Values
    ensures PlanRoute(frame, route) != Route(Unicast, [x]) && !AcceptInbound(frame, x, route.view)
  {
    var plan := PlanRoute(frame, route);
    if plan.Route? && plan.kind == Unicast {
      var owner := route.view.vipOwners[ParseIpv4(frame).value.dst];
      assert plan.targets == [owner] && plan.targets[0] == owner && owner != x;
    }
  }

  lemma EvictedNotRelayed(frame: Bytes, fwd: ForwardCtx, acc: AcceptCtx, x: Id)
    requires x !in fwd.view.admitted && x !in acc.view.admitted
    ensures PlanRelayForward(frame, x, fwd).DropForward?
    ensures forall from :: PlanRelayForward(frame, from, fwd).Forward? ==> PlanRelayForward(frame, from, fwd).to != x
    ensures AcceptRelayedInbound(frame, x, acc).DropAccept?
    ensures forall from :: AcceptRelayedInbound(frame, from, acc).Accept? ==>
            AcceptRelayedInbound(frame, from, acc).origin != x
  {
    if DecodeRelay(frame).Some? {
      RelayAllowedIff(acc.view, DecodeRelay(frame).value.origin, x);
    }
  }

  // ---- Relaying as a system ----

  /** One originated envelope on its way: between which members it is now, and how often
      it has been forwarded. A frame that is dropped, lost or delivered is not live. */
  datatype Leg = Leg(from: Id, to: Id, frame: Bytes, live: bool, forwards: nat)

  datatype Act =
    | Originate(origin: Id, relay: Id, target: Id, inner: Bytes)
    | Arrive(leg: nat, ctx: ForwardCtx)
    | Lose(leg: nat)

  // The relay's answer to a frame that reached it; every forward emits this one frame.
  function Relayed(l: Leg, ctx: ForwardCtx): Leg {
    match PlanRelayForward(l.frame, l.from, ctx)
    case Forward(to, _, frame) => Leg(l.to, to, frame, true, l.forwards + 1)
    case DropForward(_) => l.(live := false)
  }

  function Next(s: seq<Leg>, act: Act): seq<Leg> {
    match act
    case Originate(origin, relay, target, inner) =>
      var frame := EncodeRelay(origin, target, inner);
      if frame.None? then s else s + [Leg(origin, relay, frame.value, true, 0)]
    case Arrive(i, ctx) =>
      if i < |s| && s[i].live && ctx.view.selfId == s[i].to then s[i := Relayed(s[i], ctx)] else s
    case Lose(i) =>
      if i < |s| then s[i := s[i].(live := false)] else s
  }

  function System(acts: seq<Act>): seq<Leg> {
    if acts == [] then [] else Next(System(acts[..|acts| - 1]), acts[|acts| - 1])
  }

  /** An envelope starts out at the relay it is given to. There it goes on to its target, forwarded
      once, if that relay may forward it, and no further if not; a lost one goes no further either, and a
      member moves only what has reached it. */
  lemma TravelIff(s: seq<Leg>, origin: Id, relay: Id, target: Id, inner: Bytes, ctx: ForwardCtx)
    requires Encodable(origin, target, inner) && IsSubnet(ctx.subnet)
    ensures var frame, i := EncodeRelay(origin, target, inner).value, |s|;
            var sent := Next(s, Originate(origin, relay, target, inner));
            && sent == s + [Leg(origin, relay, frame, true, 0)]
            && Next(sent, Lose(i)) == s + [Leg(origin, relay, frame, false, 0)]
            && Next(sent, Arrive(i, ctx)) ==
               if ctx.view.selfId != relay then sent
               else if MayForward(frame, origin, origin, target, inner, ctx)
                    then s + [Leg(relay, target, frame, true, 1)]
                    else s + [Leg(origin, relay, frame, false, 0)]
  {
    var frame := EncodeRelay(origin, target, inner).value;
    ForwardsIff(frame, origin, origin, target, inner, ctx);
  }

  // Not forwarded and still with its originator, or forwarded once by somebody else.
  predicate LegInv(l: Leg) {
    DecodeRelay(l.frame).Some? &&
    (if l.from == DecodeRelay(l.frame).value.origin then l.forwards == 0 else l.forwards == 1)
  }

  function Forwards(s: seq<Leg>): nat {
    if s == [] then 0 else s[0].forwards + Forwards(s[1..])
  }

  lemma RelayedKeepsInv(l: Leg, ctx: ForwardCtx)
    requires LegInv(l) && ctx.view.selfId == l.to
    ensures LegInv(Relayed(l, ctx))
  {
    if PlanRelayForward(l.frame, l.from, ctx).Forward? { ForwardedIsHonest(l.frame, l.from, ctx); }
  }

  lemma OriginatedInv(origin: Id, relay: Id, target: Id, inner: Bytes)
    requires Encodable(origin, target, inner)
    ensures LegInv(Leg(origin, relay, EncodeRelay(origin, target, inner).value, true, 0))
  {
    DecodeEncode(origin, target, inner);
  }

  lemma {:induction false} LegsKeepInv(acts: seq<Act>)
    ensures forall l | l in System(acts) :: LegInv(l)
  {
    if acts != [] {
      var front, act := acts[..|acts| - 1], acts[|acts| - 1];
      LegsKeepInv(front);
      var s := System(front);
      match act
      case Originate(origin, relay, target, inner) =>
        if Encodable(origin, target, inner) { OriginatedInv(origin, relay, target, inner); }
      case Arrive(i, ctx) =>
        if i < |s| && s[i].live && ctx.view.selfId == s[i].to { RelayedKeepsInv(s[i], ctx); }
      case Lose(i) =>
        if i < |s| { assert s[i] in s; }
    }
  }

  lemma {:induction false} ForwardsBounded(s: seq<Leg>)
    requires forall l | l in s :: LegInv(l)
    ensures Forwards(s) <= |s|
  {
    if s != [] {
      assert s[0] in s;
      ForwardsBounded(s[1..]);
    }
  }

  function Originations(acts: seq<Act>): nat {
    if acts == [] then 0 else
      var last := acts[|acts| - 1];
      Originations(acts[..|acts| - 1])
      + if last.Originate? && Encodable(last.origin, last.target, last.inner) then 1 else 0
  }

  lemma {:induction false} OneLegPerOrigination(acts: seq<Act>)
    ensures |System(acts)| == Originations(acts)
  {
    if acts != [] { OneLegPerOrigination(acts[..|acts| - 1]); }
  }

  /** Whatever the members do, an originated envelope is forwarded at most once, and
      there are never more forwards than originations. */
  lemma AtMostOneForwardEach(acts: seq<Act>)
    ensures forall i | 0 <= i < |System(acts)| :: System(acts)[i].forwards <= 1
    ensures Forwards(System(acts)) <= Originations(acts)
  {
    LegsKeepInv(acts);
    forall i | 0 <= i < |System(acts)| ensures System(acts)[i].forwards <= 1 {
      assert LegInv(System(acts)[i]);
    }
    ForwardsBounded(System(acts));
    OneLegPerOrigination(acts);
  }
}
