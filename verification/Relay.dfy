/** One-hop peer relaying (shared/lan-relay.ts): deterministic selection, the
    forwarding decision of the relay and the accepting decision of the receiver. */
module Relay {
  import opened Ids
  import opened VirtualIp
  import opened Packet
  import opened Router
  import opened RelayFrame
  import opened TokenBucket

  datatype Advert = Advert(at: int, relay: bool, peers: set<Id>, seenAt: int)

  datatype RelayView = RelayView(
    selfId: Id, admitted: set<Id>, legs: set<Id>, adverts: map<Id, Advert>, now: int, ttlMs: int)

  predicate Fresh(a: Advert, v: RelayView) { v.now - a.seenAt <= v.ttlMs }

  // c could carry the traffic of the pair (a, b).
  predicate Bridges(v: RelayView, a: Id, b: Id, c: Id) {
    a != b && c in v.adverts && c != a && c != b && c in v.admitted
    && v.adverts[c].relay && Fresh(v.adverts[c], v) && a in v.adverts[c].peers && b in v.adverts[c].peers
  }

  ghost function RelayCandidates(v: RelayView, a: Id, b: Id): seq<Id> {
    Sorted(set c | c in v.adverts && Bridges(v, a, b, c))
  }

  // The first entry of the list that is among our live legs.
  function FirstLeg(ids: seq<Id>, legs: set<Id>): Option<Id> {
    if ids == [] then None else if ids[0] in legs then Some(ids[0]) else FirstLeg(ids[1..], legs)
  }

  ghost function SelectRelay(v: RelayView, target: Id): Option<Id> {
    if target == v.selfId || target !in v.admitted || target in v.legs then None
    else FirstLeg(RelayCandidates(v, v.selfId, target), v.legs)
  }

  ghost predicate IsRelayAllowed(v: RelayView, origin: Id, via: Id) { via in RelayCandidates(v, origin, v.selfId) }

  /** Both ends of a pair derive the same list from the same adverts. */
  lemma CandidatesSymmetric(v: RelayView, a: Id, b: Id)
    ensures RelayCandidates(v, a, b) == RelayCandidates(v, b, a)
    ensures forall c :: c in RelayCandidates(v, a, b) <==> Bridges(v, a, b, c)
  {
    assert (set c | c in v.adverts && Bridges(v, a, b, c)) == (set c | c in v.adverts && Bridges(v, b, a, c));
  }

  /** Who may carry the traffic of a pair: an admitted third member that has offered to, in an advert
      no older than the time to live, and has legs to both of them. */
  lemma CandidateIff(v: RelayView, a: Id, b: Id, c: Id)
    ensures c in RelayCandidates(v, a, b) <==>
            && a != b && c != a && c != b && c in v.admitted && c in v.adverts
            && var offer := v.adverts[c];
               offer.relay && v.now <= offer.seenAt + v.ttlMs && a in offer.peers && b in offer.peers
  {
    CandidatesSymmetric(v, a, b);
  }

  lemma RelayAllowedIff(v: RelayView, origin: Id, via: Id)
    ensures IsRelayAllowed(v, origin, via) <==> Bridges(v, origin, v.selfId, via)
  {
    CandidatesSymmetric(v, origin, v.selfId);
  }

  lemma {:induction false} FirstLegIsLeast(ids: seq<Id>, legs: set<Id>)
    requires Ascending(ids)
    ensures match FirstLeg(ids, legs)
            case Some(c) => c in ids && c in legs && forall d | d in ids && d in legs :: d == c || Less(c, d)
            case None => forall d | d in ids :: d !in legs
  {
    if ids != [] && ids[0] !in legs { FirstLegIsLeast(ids[1..], legs); }
  }

  /** The chosen relay is the least bridging member we hold a leg to; none is chosen
      exactly when a relay is not called for or no such member exists. */
  lemma SelectRelayIsArgmin(v: RelayView, target: Id)
    ensures match SelectRelay(v, target)
            case Some(c) => Bridges(v, v.selfId, target, c) && c in v.legs
                            && forall d | Bridges(v, v.selfId, target, d) && d in v.legs :: d == c || Less(c, d)
            case None => target == v.selfId || target !in v.admitted || target in v.legs
                         || forall d | Bridges(v, v.selfId, target, d) :: d !in v.legs
  {
    CandidatesSymmetric(v, v.selfId, target);
    FirstLegIsLeast(RelayCandidates(v, v.selfId, target), v.legs);
  }

  datatype RelayReason =
    | BadEnvelope | BadInner | Oversize | NotWilling | NotOrigin | OriginIsSelf | TargetIsSelf | Reflect
    | OriginNotAdmitted | TargetNotAdmitted | TargetUnreachable | SrcSpoof | OffSubnet | DstMismatch
    | NotForMe | OriginIsRelay | RelayNotAllowed | DirectAvailable | WrongInnerDst | Budget

  datatype RelayForward = Forward(to: Id, origin: Id, frame: Bytes) | DropForward(reason: RelayReason)
  datatype RelayAccept = Accept(origin: Id, inner: Bytes) | DropAccept(reason: RelayReason)

  /** What both decisions read; budgets are whatever the caller's buckets answer. */
  datatype ForwardCtx = ForwardCtx(
    view: RelayView, core: CoreView, subnet: Subnet, willing: bool, budget: (Id, Id, nat) -> bool)
  datatype AcceptCtx = AcceptCtx(
    view: RelayView, core: CoreView, subnet: Subnet, budget: (Id, nat) -> bool, strictDirect: bool)

  predicate Owns(core: CoreView, v: U32, m: Id) { Owned(core.vipOwners, v, m) }

  function PlanRelayForward(frame: Bytes, from: Id, ctx: ForwardCtx): RelayForward {
    if !ctx.willing then DropForward(NotWilling) else
    var env := DecodeRelay(frame);
    if env.None? then DropForward(BadEnvelope) else
    var Envelope(origin, target, inner) := env.value;
    if from != origin then DropForward(NotOrigin)
    else if origin == ctx.view.selfId then DropForward(OriginIsSelf)
    else if target == ctx.view.selfId then DropForward(TargetIsSelf)
    else if target == from then DropForward(Reflect)
    else if origin !in ctx.view.admitted then DropForward(OriginNotAdmitted)
    else if target !in ctx.view.admitted then DropForward(TargetNotAdmitted)
    else if target !in ctx.view.legs then DropForward(TargetUnreachable) else
    var h := ParseIpv4(inner);
    if h.None? then DropForward(BadInner)
    else if h.value.totalLength > LAN_MTU then DropForward(RelayReason.Oversize)
    else if !Owns(ctx.core, h.value.src, from) then DropForward(RelayReason.SrcSpoof) else
    var unicast := ClassifyDest(h.value.dst, Some(ctx.subnet.broadcast)) == Unicast;
    if unicast && !InSubnet(h.value.dst, ctx.subnet) then DropForward(OffSubnet)
    else if unicast && !Owns(ctx.core, h.value.dst, target) then DropForward(DstMismatch)
    else if !ctx.budget(origin, target, |frame|) then DropForward(Budget)
    else Forward(target, origin, frame)
  }

  ghost function AcceptRelayedInbound(frame: Bytes, from: Id, ctx: AcceptCtx): RelayAccept {
    var env := DecodeRelay(frame);
    if env.None? then DropAccept(BadEnvelope) else
    var Envelope(origin, target, inner) := env.value;
    if target != ctx.view.selfId then DropAccept(NotForMe)
    else if origin == ctx.view.selfId then DropAccept(OriginIsSelf)
    else if origin == from then DropAccept(OriginIsRelay)
    else if origin !in ctx.view.admitted then DropAccept(OriginNotAdmitted)
    else if ctx.strictDirect && origin in ctx.view.legs then DropAccept(DirectAvailable)
    else if !IsRelayAllowed(ctx.view, origin, from) then DropAccept(RelayNotAllowed) else
    var h := ParseIpv4(inner);
    if h.None? then DropAccept(BadInner)
    else if h.value.totalLength > LAN_MTU then DropAccept(RelayReason.Oversize)
    else if !Owns(ctx.core, h.value.src, origin) then DropAccept(RelayReason.SrcSpoof) else
    var unicast := ClassifyDest(h.value.dst, Some(ctx.subnet.broadcast)) == Unicast;
    if unicast && !InSubnet(h.value.dst, ctx.subnet) then DropAccept(OffSubnet)
    else if unicast && h.value.dst != ctx.core.selfVip then DropAccept(WrongInnerDst)
    else if !ctx.budget(origin, |frame|) then DropAccept(Budget)
    else Accept(origin, inner)
  }

  // ---- The two decisions, from the bytes ----

  // A packet inside an envelope, as far as its own bytes and the table go. One that is copied to
  // everybody comes in one envelope for each, and may go to any of them.
  predicate InnerFits(inner: Bytes, origin: Id, core: CoreView, subnet: Subnet) {
    && WellFormed(inner) && TotalLength(inner) <= LAN_MTU && Owns(core, Source(inner), origin)
    && (ToEverybody(inner, subnet) || subnet.base <= Destination(inner) <= subnet.broadcast)
  }

  predicate ToEverybody(inner: Bytes, subnet: Subnet)
    requires WellFormed(inner)
  {
    IsBroadcast(Destination(inner), subnet.broadcast) || IsMulticast(Destination(inner))
  }

  // The subnets there are: a /16 with its broadcast address.
  predicate IsSubnet(n: Subnet) { n.base % 0x1_0000 == 0 && n.broadcast == n.base + 0xffff }

  /** When a relay forwards an envelope from `origin` to `target`: it shares its connection, the
      sender is the originator, it is neither of the two, both are admitted and another leg leads
      to the target, the packet is the originator's own and, unless it is for everybody, for the
      target, and the budget allows it. */
  ghost predicate MayForward(frame: Bytes, from: Id, origin: Id, target: Id, inner: Bytes, ctx: ForwardCtx) {
    && ctx.willing && from == origin && ctx.view.selfId != origin && ctx.view.selfId != target
    && origin in ctx.view.admitted && target in ctx.view.admitted && target in ctx.view.legs
    && InnerFits(inner, origin, ctx.core, ctx.subnet)
    && (ToEverybody(inner, ctx.subnet) || Owns(ctx.core, Destination(inner), target))
    && ctx.budget(origin, target, |frame|)
  }

  lemma ForwardsIff(frame: Bytes, from: Id, origin: Id, target: Id, inner: Bytes, ctx: ForwardCtx)
    requires EncodeRelay(origin, target, inner) == Some(frame) && IsSubnet(ctx.subnet)
    ensures PlanRelayForward(frame, from, ctx).Forward? <==> MayForward(frame, from, origin, target, inner, ctx)
    ensures PlanRelayForward(frame, from, ctx).Forward? ==>
            PlanRelayForward(frame, from, ctx) == Forward(target, origin, frame)
  {
    DecodeEncode(origin, target, inner);
    ParsedIff(inner);
    if WellFormed(inner) {
      ClassIff(Destination(inner), ctx.subnet.broadcast);
      SubnetRange(Destination(inner), ctx.subnet);
    }
  }

  /** When a member takes an envelope that came from `via`: it is the target, the originator is
      admitted and bridged by `via`, with no direct leg where that counts, the packet is the
      originator's own and for this member or for everybody, and the budget allows it. */
  ghost predicate MayAccept(frame: Bytes, via: Id, origin: Id, target: Id, inner: Bytes, ctx: AcceptCtx) {
    && target == ctx.view.selfId && origin in ctx.view.admitted && Bridges(ctx.view, origin, target, via)
    && !(ctx.strictDirect && origin in ctx.view.legs)
    && InnerFits(inner, origin, ctx.core, ctx.subnet)
    && (ToEverybody(inner, ctx.subnet) || Destination(inner) == ctx.core.selfVip)
    && ctx.budget(origin, |frame|)
  }

  lemma AcceptsIff(frame: Bytes, via: Id, origin: Id, target: Id, inner: Bytes, ctx: AcceptCtx)
    requires EncodeRelay(origin, target, inner) == Some(frame) && IsSubnet(ctx.subnet)
    ensures AcceptRelayedInbound(frame, via, ctx).Accept? <==> MayAccept(frame, via, origin, target, inner, ctx)
    ensures AcceptRelayedInbound(frame, via, ctx).Accept? ==>
            AcceptRelayedInbound(frame, via, ctx) == Accept(origin, inner)
  {
    DecodeEncode(origin, target, inner);
    RelayAllowedIff(ctx.view, origin, via);
    ParsedIff(inner);
    if WellFormed(inner) {
      ClassIff(Destination(inner), ctx.subnet.broadcast);
      SubnetRange(Destination(inner), ctx.subnet);
    }
  }

  /** Why a relay declines: the reason given names something that is so. A bounce back is never the
      reason, as no envelope has one member at both ends. */
  lemma ForwardDropTells(frame: Bytes, from: Id, origin: Id, target: Id, inner: Bytes, ctx: ForwardCtx)
    requires PlanRelayForward(frame, from, ctx).DropForward?
    ensures PlanRelayForward(frame, from, ctx).reason == NotWilling <==> !ctx.willing
    ensures EncodeRelay(origin, target, inner) == Some(frame) ==>
            match PlanRelayForward(frame, from, ctx).reason
            case NotWilling => !ctx.willing
            case NotOrigin => from != origin
            case OriginIsSelf => origin == ctx.view.selfId
            case TargetIsSelf => target == ctx.view.selfId
            case OriginNotAdmitted => origin !in ctx.view.admitted
            case TargetNotAdmitted => target !in ctx.view.admitted
            case TargetUnreachable => target !in ctx.view.legs
            case BadInner => !WellFormed(inner)
            case Oversize => WellFormed(inner) && TotalLength(inner) > LAN_MTU
            case SrcSpoof => WellFormed(inner) && !Owns(ctx.core, Source(inner), origin)
            case OffSubnet => WellFormed(inner) && !InSubnet(Destination(inner), ctx.subnet)
            case DstMismatch => WellFormed(inner) && !Owns(ctx.core, Destination(inner), target)
            case Budget => !ctx.budget(origin, target, |frame|)
            case _ => false
  {
    if EncodeRelay(origin, target, inner) == Some(frame) {
      DecodeEncode(origin, target, inner);
      ParsedIff(inner);
    }
  }

  /** And why a member declines to take one. */
  lemma AcceptDropTells(frame: Bytes, via: Id, origin: Id, target: Id, inner: Bytes, ctx: AcceptCtx)
    requires AcceptRelayedInbound(frame, via, ctx).DropAccept? && EncodeRelay(origin, target, inner) == Some(frame)
    ensures AcceptRelayedInbound(frame, via, ctx).reason == OriginIsRelay <==>
            target == ctx.view.selfId && origin == via
    ensures match AcceptRelayedInbound(frame, via, ctx).reason
            case NotForMe => target != ctx.view.selfId
            case OriginIsSelf => origin == ctx.view.selfId
            case OriginIsRelay => origin == via
            case OriginNotAdmitted => origin !in ctx.view.admitted
            case DirectAvailable => ctx.strictDirect && origin in ctx.view.legs
            case RelayNotAllowed => !Bridges(ctx.view, origin, ctx.view.selfId, via)
            case BadInner => !WellFormed(inner)
            case Oversize => WellFormed(inner) && TotalLength(inner) > LAN_MTU
            case SrcSpoof => WellFormed(inner) && !Owns(ctx.core, Source(inner), origin)
            case OffSubnet => WellFormed(inner) && !InSubnet(Destination(inner), ctx.subnet)
            case WrongInnerDst => WellFormed(inner) && Destination(inner) != ctx.core.selfVip
            case Budget => !ctx.budget(origin, |frame|)
            case _ => false
  {
    DecodeEncode(origin, target, inner);
    RelayAllowedIff(ctx.view, origin, via);
    ParsedIff(inner);
  }

  /** What is no envelope is neither forwarded nor taken. */
  lemma OnlyEnvelopes(frame: Bytes, from: Id, fwd: ForwardCtx, acc: AcceptCtx)
    requires PlanRelayForward(frame, from, fwd).Forward? || AcceptRelayedInbound(frame, from, acc).Accept?
    ensures exists origin, target, inner :: EncodeRelay(origin, target, inner) == Some(frame)
  {
    EncodeDecode(frame);
    var env := DecodeRelay(frame).value;
    assert EncodeRelay(env.origin, env.target, env.inner) == Some(frame);
  }

  // ---- End-to-end delivery ----

  // Two members hold the same admitted set and the same adverts, both still fresh.
  ghost predicate SameGossip(v: RelayView, w: RelayView) {
    v.admitted == w.admitted
    && (forall m :: m in v.adverts && Fresh(v.adverts[m], v) <==> m in w.adverts && Fresh(w.adverts[m], w))
    && (forall m | m in v.adverts && Fresh(v.adverts[m], v) ::
          v.adverts[m].relay == w.adverts[m].relay && v.adverts[m].peers == w.adverts[m].peers)
  }

  /** A unicast packet that A routes to B and hands to the relay it selects, C. Where the
      members resolve the same claims and share the gossip, C is willing and holds a leg to
      B and the budgets are open, C forwards the envelope and B takes exactly that packet as
      A's if and only if A owns its address and the packet is for another one. */
  lemma RelayDeliversIff(
    packet: Bytes, a: RouteCtx, va: RelayView, b: Id, c: Id, atC: ForwardCtx, atB: AcceptCtx,
    s: Session, cs: set<VipClaim>, all: map<U32, Id>)
    requires PlanRoute(packet, a) == Route(Unicast, [b]) && |packet| <= LAN_MTU
    requires va.selfId == a.selfId && SelectRelay(va, b) == Some(c)
    requires IsMemberId(a.selfId) && IsMemberId(b) && a.selfId in va.admitted
    requires atC.view.selfId == c && atB.view.selfId == b
    requires SameGossip(va, atB.view) && va.admitted == atC.view.admitted
    requires atC.willing && b in atC.view.legs && !(atB.strictDirect && a.selfId in atB.view.legs)
    requires atC.subnet == atB.subnet == SessionSubnet(s)
    requires Resolves(s, cs, a.view, a.selfId) && Resolves(s, cs, atB.core, b) && Resolves(s, cs, atC.core, c)
    requires IsOwnerTable(s, cs, all)
    requires forall o, t, n :: atC.budget(o, t, n)
    requires forall o, n :: atB.budget(o, n)
    ensures var frame := EncodeRelay(a.selfId, b, packet);
            frame.Some? &&
            (Owned(all, a.view.selfVip, a.selfId) && ParseIpv4(packet).value.dst != a.view.selfVip <==>
               && PlanRelayForward(frame.value, a.selfId, atC) == Forward(b, a.selfId, frame.value)
               && AcceptRelayedInbound(frame.value, c, atB) == Accept(a.selfId, packet))
  {
    var h := ParseIpv4(packet).value;
    SelectRelayIsArgmin(va, b);
    DecodeEncode(a.selfId, b, packet);
    assert Bridges(atB.view, a.selfId, b, c);
    RoutedTo(packet, a, atB.core, b, s, cs);
    OwnersAtRelay(a, b, c, atC.core, atB.core, h.dst, s, cs, all);
    DestinationDerived(s, cs, atB.core.selfVip, b);
    var env := Envelope(a.selfId, b, packet);
    var frame := EncodeRelay(a.selfId, b, packet).value;
    ForwardsWhen(frame, env, atC);
    AcceptsWhen(frame, env, c, atB);
  }

  /** Between members that own their addresses, relayed delivery never fails. */
  lemma RelayDelivers(
    packet: Bytes, a: RouteCtx, va: RelayView, b: Id, c: Id, atC: ForwardCtx, atB: AcceptCtx,
    s: Session, cs: set<VipClaim>, all: map<U32, Id>)
    requires PlanRoute(packet, a) == Route(Unicast, [b]) && |packet| <= LAN_MTU
    requires va.selfId == a.selfId && SelectRelay(va, b) == Some(c)
    requires IsMemberId(a.selfId) && IsMemberId(b) && a.selfId in va.admitted
    requires atC.view.selfId == c && atB.view.selfId == b
    requires SameGossip(va, atB.view) && va.admitted == atC.view.admitted
    requires atC.willing && b in atC.view.legs && !(atB.strictDirect && a.selfId in atB.view.legs)
    requires atC.subnet == atB.subnet == SessionSubnet(s)
    requires Resolves(s, cs, a.view, a.selfId) && Resolves(s, cs, atB.core, b) && Resolves(s, cs, atC.core, c)
    requires IsOwnerTable(s, cs, all) && Owned(all, a.view.selfVip, a.selfId) && Owned(all, atB.core.selfVip, b)
    requires forall o, t, n :: atC.budget(o, t, n)
    requires forall o, n :: atB.budget(o, n)
    ensures var frame := EncodeRelay(a.selfId, b, packet);
            && frame.Some?
            && PlanRelayForward(frame.value, a.selfId, atC) == Forward(b, a.selfId, frame.value)
            && AcceptRelayedInbound(frame.value, c, atB) == Accept(a.selfId, packet)
  {
    RoutedTo(packet, a, atB.core, b, s, cs);
    RelayDeliversIff(packet, a, va, b, c, atC, atB, s, cs, all);
  }

  // What the relay's and the receiver's tables say of the two ends, in terms of all claims.
  lemma OwnersAtRelay(
    a: RouteCtx, b: Id, c: Id, atC: CoreView, atB: CoreView, dst: U32, s: Session, cs: set<VipClaim>, all: map<U32, Id>)
    requires Resolves(s, cs, a.view, a.selfId) && Resolves(s, cs, atB, b) && Resolves(s, cs, atC, c)
    requires IsOwnerTable(s, cs, all) && a.selfId != b && a.selfId != c && b != c
    requires dst == atB.selfVip && Unrivalled(s, cs, dst, b, a.selfId)
    ensures Owned(all, a.view.selfVip, a.selfId) && dst != a.view.selfVip <==>
            Owns(atC, a.view.selfVip, a.selfId) && Owns(atC, dst, b) && Owns(atB, a.view.selfVip, a.selfId)
  {
    var mine := a.view.selfVip;
    SeenOwnerIff(s, cs, atC, c, mine, a.selfId);
    SeenOwnerIff(s, cs, atC, c, dst, b);
    SeenOwnerIff(s, cs, atB, b, mine, a.selfId);
    OwnedIff(s, cs, all, mine, a.selfId);
    LessTotal(a.selfId, b);
    if Less(b, a.selfId) { LessAsymmetric(b, a.selfId); }
    forall x ensures Less(x, a.selfId) || x == a.selfId || Less(a.selfId, x) { LessTotal(x, a.selfId); }
    forall x | Less(x, a.selfId) ensures !Less(a.selfId, x) && x != a.selfId { LessAsymmetric(x, a.selfId); }
    if Claimant(s, cs, dst, a.selfId) { OneAddressEach(s, cs, dst, mine, a.selfId); }
  }

  // A claimed address is a unicast address of the subnet.
  lemma DestinationDerived(s: Session, cs: set<VipClaim>, v: U32, m: Id)
    requires Claimant(s, cs, v, m)
    ensures InSubnet(v, SessionSubnet(s)) && ClassifyDest(v, Some(SessionSubnet(s).broadcast)) == Unicast
  {
    var c :| c in cs && c.memberId == m && Claims(s, c, v);
    DerivedVipInSubnet(s, m, c.gen);
    DerivedVipIsUnicast(s, m, c.gen);
  }

  // The two decisions on a frame that decodes, once every membership check passes.
  lemma ForwardsWhen(frame: Bytes, env: Envelope, ctx: ForwardCtx)
    requires DecodeRelay(frame) == Some(env) && ctx.willing && ParseIpv4(env.inner).Some?
    requires ctx.view.selfId != env.origin && ctx.view.selfId != env.target && env.origin != env.target
    requires env.origin in ctx.view.admitted && env.target in ctx.view.admitted && env.target in ctx.view.legs
    requires var h := ParseIpv4(env.inner).value;
             h.totalLength <= LAN_MTU && InSubnet(h.dst, ctx.subnet)
             && ClassifyDest(h.dst, Some(ctx.subnet.broadcast)) == Unicast
    requires forall o, t, n :: ctx.budget(o, t, n)
    ensures var h := ParseIpv4(env.inner).value;
            PlanRelayForward(frame, env.origin, ctx) == Forward(env.target, env.origin, frame)
            <==> Owns(ctx.core, h.src, env.origin) && Owns(ctx.core, h.dst, env.target)
  {}

  lemma AcceptsWhen(frame: Bytes, env: Envelope, via: Id, ctx: AcceptCtx)
    requires DecodeRelay(frame) == Some(env) && ParseIpv4(env.inner).Some?
    requires env.target == ctx.view.selfId && env.origin in ctx.view.admitted
    requires Bridges(ctx.view, env.origin, env.target, via) && !(ctx.strictDirect && env.origin in ctx.view.legs)
    requires var h := ParseIpv4(env.inner).value;
             h.totalLength <= LAN_MTU && InSubnet(h.dst, ctx.subnet)
             && ClassifyDest(h.dst, Some(ctx.subnet.broadcast)) == Unicast
    requires forall o, n :: ctx.budget(o, n)
    ensures var h := ParseIpv4(env.inner).value;
            AcceptRelayedInbound(frame, via, ctx) == Accept(env.origin, env.inner)
            <==> Owns(ctx.core, h.src, env.origin) && h.dst == ctx.core.selfVip
  {
    RelayAllowedIff(ctx.view, env.origin, via);
  }

  // ---- Sources and waypoints ----

  /** Everything a relay forwards carries the sender's own address, to an admitted member
      other than the two of them, unchanged; and the receiver attributes what it accepts
      to the member that owns the source address, never to the relay. */
  lemma ForwardedIsHonest(frame: Bytes, from: Id, ctx: ForwardCtx)
    requires PlanRelayForward(frame, from, ctx).Forward?
    ensures var f := PlanRelayForward(frame, from, ctx);
            && f.frame == frame && f.origin == from && f.to != from && f.to != ctx.view.selfId
            && from != ctx.view.selfId && from in ctx.view.admitted && f.to in ctx.view.admitted
            && EncodeRelay(from, f.to, DecodeRelay(frame).value.inner) == Some(frame)
            && AcceptInbound(DecodeRelay(frame).value.inner, from, ctx.core)
  {
    EncodeDecode(frame);
  }

  lemma AcceptedIsAttributed(frame: Bytes, from: Id, ctx: AcceptCtx)
    requires AcceptRelayedInbound(frame, from, ctx).Accept?
    ensures var r := AcceptRelayedInbound(frame, from, ctx);
            && AcceptInbound(r.inner, r.origin, ctx.core) && r.origin != from && r.origin != ctx.view.selfId
            && Bridges(ctx.view, r.origin, ctx.view.selfId, from)
            && EncodeRelay(r.origin, ctx.view.selfId, r.inner) == Some(frame)
  {
    EncodeDecode(frame);
    RelayAllowedIff(ctx.view, DecodeRelay(frame).value.origin, from);
  }

  /** What a relay forwards it does not take for itself, and the member it hands it to, or
      anyone else it reaches from there, does not forward it again. */
  lemma OneHop(frame: Bytes, from: Id, ctx: ForwardCtx, next: ForwardCtx, own: AcceptCtx)
    requires PlanRelayForward(frame, from, ctx).Forward? && own.view.selfId == ctx.view.selfId
    ensures PlanRelayForward(frame, ctx.view.selfId, next).DropForward?
    ensures AcceptRelayedInbound(frame, from, own).DropAccept?
  {}
}
