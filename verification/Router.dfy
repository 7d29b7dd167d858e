/** The route planner and the ingress check (shared/lan-router.ts). */
module Router {
  import opened Ids
  import opened VirtualIp
  import opened Packet

  const LAN_MTU := 1280

  // What the session core shows the router.
  datatype CoreView = CoreView(hostId: Option<Id>, admitted: set<Id>, vipOwners: map<U32, Id>, selfVip: U32)

  datatype RouteReason = BadHeader | Oversize | SrcSpoof | NoRoute | SelfLoop

  datatype RoutePlan = Route(kind: DestClass, targets: seq<Id>) | RouteDrop(reason: RouteReason)

  datatype RouteCtx = RouteCtx(view: CoreView, subnetBroadcast: U32, selfId: Id, peerIds: seq<Id>)

  function PlanRoute(frame: Bytes, ctx: RouteCtx): RoutePlan {
    var h := ParseIpv4(frame);
    if h.None? then RouteDrop(BadHeader)
    else if h.value.totalLength > LAN_MTU then RouteDrop(Oversize)
    else if h.value.src != ctx.view.selfVip then RouteDrop(SrcSpoof)
    else
      var cls := ClassifyDest(h.value.dst, Some(ctx.subnetBroadcast));
      if cls == Unicast then
        if h.value.dst !in ctx.view.vipOwners then RouteDrop(NoRoute)
        else
          var owner := ctx.view.vipOwners[h.value.dst];
          if owner == ctx.selfId then RouteDrop(SelfLoop) else Route(Unicast, [owner])
      else
        var targets := Except(ctx.peerIds, ctx.selfId);
        if targets == [] then RouteDrop(NoRoute) else Route(cls, targets)
  }

  function Except(ids: seq<Id>, self: Id): seq<Id> {
    if ids == [] then [] else (if ids[0] == self then [] else [ids[0]]) + Except(ids[1..], self)
  }

  predicate AcceptInbound(frame: Bytes, from: Id, view: CoreView) {
    var h := ParseIpv4(frame);
    h.Some? && h.value.totalLength <= LAN_MTU
    && h.value.src in view.vipOwners && view.vipOwners[h.value.src] == from
  }

  // ---- What the planner decides, from the bytes ----

  // A packet the local stack may send at all.
  predicate Sendable(frame: Bytes, ctx: RouteCtx) {
    WellFormed(frame) && TotalLength(frame) <= LAN_MTU && Source(frame) == ctx.view.selfVip
  }

  predicate Replicates(frame: Bytes, ctx: RouteCtx)
    requires WellFormed(frame)
  {
    IsBroadcast(Destination(frame), ctx.subnetBroadcast) || IsMulticast(Destination(frame))
  }

  // The peers other than oneself, each as often as it is listed, in the order listed.
  predicate OtherPeers(targets: seq<Id>, ctx: RouteCtx) {
    KeepsOrder(targets, ctx.peerIds) && ctx.selfId !in targets
    && forall x | x in ctx.peerIds && x != ctx.selfId :: multiset(targets)[x] == multiset(ctx.peerIds)[x]
  }

  lemma {:induction false} ExceptKeepsOrder(ids: seq<Id>, self: Id)
    ensures KeepsOrder(Except(ids, self), ids) && self !in Except(ids, self)
  {
    if ids != [] {
      ExceptKeepsOrder(ids[1..], self);
      var rest := Except(ids[1..], self);
      if ids[0] != self { assert Except(ids, self)[1..] == rest; } else { assert Except(ids, self) == rest; }
    }
  }

  lemma {:induction false} ExceptCounts(ids: seq<Id>, self: Id, x: Id)
    requires x != self
    ensures multiset(Except(ids, self))[x] == multiset(ids)[x]
  {
    if ids != [] {
      ExceptCounts(ids[1..], self, x);
      assert ids == [ids[0]] + ids[1..];
    }
  }

  lemma ExceptIs(ids: seq<Id>, self: Id)
    ensures KeepsOrder(Except(ids, self), ids) && self !in Except(ids, self)
    ensures forall x | x != self :: multiset(Except(ids, self))[x] == multiset(ids)[x]
    ensures Except(ids, self) == [] <==> forall x | x in ids :: x == self
  {
    ExceptKeepsOrder(ids, self);
    var others := Except(ids, self);
    forall x | x != self ensures multiset(others)[x] == multiset(ids)[x] { ExceptCounts(ids, self, x); }
    if others == [] {
      forall x | x in ids ensures x == self { assert x in multiset(ids) && x !in multiset(others); }
    } else {
      var x := others[0];
      assert x in others && x in multiset(others);
      assert x in multiset(ids) && x in ids;
    }
  }

  /** A broadcast or multicast packet goes to exactly the other peers, under its own kind; it is
      dropped only if there are none. */
  lemma ReplicatedToAll(frame: Bytes, ctx: RouteCtx)
    requires Sendable(frame, ctx) && Replicates(frame, ctx)
    ensures var plan, toAll := PlanRoute(frame, ctx), IsBroadcast(Destination(frame), ctx.subnetBroadcast);
            if exists x :: x in ctx.peerIds && x != ctx.selfId
            then plan.Route? && plan.kind == (if toAll then Broadcast else Multicast) && OtherPeers(plan.targets, ctx)
            else plan == RouteDrop(NoRoute)
  {
    ParsedIff(frame);
    ClassIff(Destination(frame), ctx.subnetBroadcast);
    ExceptIs(ctx.peerIds, ctx.selfId);
  }

  /** Any other packet goes to the one owner of its destination, and nobody else. */
  lemma UnicastToOwner(frame: Bytes, ctx: RouteCtx, owner: Id)
    requires Sendable(frame, ctx) && !Replicates(frame, ctx)
    ensures PlanRoute(frame, ctx) == Route(Unicast, [owner]) <==>
            Owned(ctx.view.vipOwners, Destination(frame), owner) && owner != ctx.selfId
    ensures PlanRoute(frame, ctx).Route? ==> exists o :: PlanRoute(frame, ctx) == Route(Unicast, [o])
  {
    ParsedIff(frame);
    ClassIff(Destination(frame), ctx.subnetBroadcast);
    if PlanRoute(frame, ctx) == Route(Unicast, [owner]) {
      assert [owner][0] == [ctx.view.vipOwners[Destination(frame)]][0];
    }
  }

  /** Why a packet is dropped: each reason says exactly one thing. */
  lemma DropReasonIff(frame: Bytes, ctx: RouteCtx)
    ensures PlanRoute(frame, ctx) == RouteDrop(BadHeader) <==> !WellFormed(frame)
    ensures PlanRoute(frame, ctx) == RouteDrop(Oversize) <==> WellFormed(frame) && TotalLength(frame) > 1280
    ensures PlanRoute(frame, ctx) == RouteDrop(SrcSpoof) <==>
            WellFormed(frame) && TotalLength(frame) <= 1280 && Source(frame) != ctx.view.selfVip
    ensures PlanRoute(frame, ctx) == RouteDrop(SelfLoop) <==>
            Sendable(frame, ctx) && !Replicates(frame, ctx)
            && Owned(ctx.view.vipOwners, Destination(frame), ctx.selfId)
    ensures PlanRoute(frame, ctx) == RouteDrop(NoRoute) <==>
            Sendable(frame, ctx)
            && if Replicates(frame, ctx) then forall x | x in ctx.peerIds :: x == ctx.selfId
               else Destination(frame) !in ctx.view.vipOwners
  {
    ParsedIff(frame);
    if WellFormed(frame) { ClassIff(Destination(frame), ctx.subnetBroadcast); }
    ExceptIs(ctx.peerIds, ctx.selfId);
  }

  /** What is taken from a peer: exactly well-formed packets of up to 1280 bytes from an address
      the table gives to that peer. */
  lemma AcceptInboundIff(frame: Bytes, from: Id, view: CoreView)
    ensures AcceptInbound(frame, from, view) <==>
            WellFormed(frame) && TotalLength(frame) <= 1280 && Owned(view.vipOwners, Source(frame), from)
  {
    ParsedIff(frame);
  }

  // ---- Direct delivery ----

  ghost predicate OneClaimEach(cs: set<VipClaim>) {
    forall c, d | c in cs && d in cs && c.memberId == d.memberId :: c == d
  }

  // A member's core never lists its own claim.
  function Others(cs: set<VipClaim>, self: Id): set<VipClaim> { set c | c in cs && c.memberId != self }

  /** The view of a member whose core has resolved the session's claims `cs`: its table is
      that of everybody else's, and its own claim names its own address. */
  ghost predicate Resolves(s: Session, cs: set<VipClaim>, view: CoreView, self: Id) {
    OneClaimEach(cs) && IsOwnerTable(s, Others(cs, self), view.vipOwners) && Claimant(s, cs, view.selfVip, self)
  }

  // Nobody with a lower id claims the address, apart from `but`.
  ghost predicate Unrivalled(s: Session, cs: set<VipClaim>, v: U32, m: Id, but: Id) {
    forall x | Claimant(s, cs, v, x) && Less(x, m) :: x == but
  }

  predicate Owned(t: map<U32, Id>, v: U32, m: Id) { v in t && t[v] == m }

  lemma OwnedIff(s: Session, cs: set<VipClaim>, t: map<U32, Id>, v: U32, m: Id)
    requires IsOwnerTable(s, cs, t)
    ensures Owned(t, v, m) <==> Claimant(s, cs, v, m) && forall x | Claimant(s, cs, v, x) :: x == m || Less(m, x)
  {
    if Owned(t, v, m) {
      forall x | Claimant(s, cs, v, x) ensures x == m || Less(m, x) {
        var c :| c in cs && c.memberId == x && Claims(s, c, v);
      }
    }
    if Claimant(s, cs, v, m) && forall x | Claimant(s, cs, v, x) :: x == m || Less(m, x) {
      var c :| c in cs && c.memberId == m && Claims(s, c, v);
      assert Claimant(s, cs, v, t[v]);
      if t[v] != m { LessAsymmetric(t[v], m); }
    }
  }

  lemma OtherClaimants(s: Session, cs: set<VipClaim>, v: U32, self: Id, x: Id)
    ensures Claimant(s, Others(cs, self), v, x) <==> Claimant(s, cs, v, x) && x != self
  {
    if Claimant(s, cs, v, x) && x != self {
      var c :| c in cs && c.memberId == x && Claims(s, c, v);
      assert c in Others(cs, self);
    }
  }

  // What a member's own table says of another's address, in terms of everybody's claims.
  lemma SeenOwnerIff(s: Session, cs: set<VipClaim>, view: CoreView, self: Id, v: U32, m: Id)
    requires Resolves(s, cs, view, self) && m != self
    ensures Owned(view.vipOwners, v, m) <==> Claimant(s, cs, v, m) && Unrivalled(s, cs, v, m, self)
  {
    OwnedIff(s, Others(cs, self), view.vipOwners, v, m);
    forall x ensures Claimant(s, Others(cs, self), v, x) <==> Claimant(s, cs, v, x) && x != self {
      OtherClaimants(s, cs, v, self, x);
    }
    LessIrreflexive(m);
    forall x ensures Less(x, m) ==> !Less(m, x) && x != m { if Less(x, m) { LessAsymmetric(x, m); } }
    forall x ensures Less(x, m) || x == m || Less(m, x) { LessTotal(x, m); }
  }

  lemma OneAddressEach(s: Session, cs: set<VipClaim>, v: U32, w: U32, m: Id)
    requires OneClaimEach(cs) && Claimant(s, cs, v, m) && Claimant(s, cs, w, m)
    ensures v == w
  {}

  // Where a routed packet goes is where its destination is claimed.
  lemma RoutedTo(frame: Bytes, a: RouteCtx, b: CoreView, target: Id, s: Session, cs: set<VipClaim>)
    requires PlanRoute(frame, a) == Route(Unicast, [target])
    requires Resolves(s, cs, a.view, a.selfId) && Resolves(s, cs, b, target)
    ensures target != a.selfId
    ensures var h := ParseIpv4(frame).value;
            h.src == a.view.selfVip && h.dst == b.selfVip && Unrivalled(s, cs, h.dst, target, a.selfId)
  {
    var h := ParseIpv4(frame).value;
    assert a.view.vipOwners[h.dst] == [target][0];
    SeenOwnerIff(s, cs, a.view, a.selfId, h.dst, target);
    OneAddressEach(s, cs, h.dst, b.selfVip, target);
  }

  /** Between members that resolve the same claims, every routed packet goes to a member
      whose address its destination is, and that member takes it as the sender's if and
      only if nobody else outranks the sender at the sender's address. */
  lemma DirectDeliveryIff(frame: Bytes, a: RouteCtx, b: CoreView, target: Id, s: Session, cs: set<VipClaim>)
    requires PlanRoute(frame, a) == Route(Unicast, [target])
    requires Resolves(s, cs, a.view, a.selfId) && Resolves(s, cs, b, target)
    ensures ParseIpv4(frame).value.dst == b.selfVip
    ensures AcceptInbound(frame, a.selfId, b) <==> Unrivalled(s, cs, a.view.selfVip, a.selfId, target)
  {
    RoutedTo(frame, a, b, target, s, cs);
    SeenOwnerIff(s, cs, b, target, a.view.selfVip, a.selfId);
  }

  /** The member a packet is routed to owns its destination among all claims, unless the
      packet is for the sender's own address and the other has lost that very address to
      the sender. */
  lemma MisroutedIff(
    frame: Bytes, a: RouteCtx, b: CoreView, target: Id, s: Session, cs: set<VipClaim>, all: map<U32, Id>)
    requires PlanRoute(frame, a) == Route(Unicast, [target]) && IsOwnerTable(s, cs, all)
    requires Resolves(s, cs, a.view, a.selfId) && Resolves(s, cs, b, target)
    ensures var dst := ParseIpv4(frame).value.dst;
            !Owned(all, dst, target) <==> dst == a.view.selfVip && Less(a.selfId, target)
  {
    var dst := ParseIpv4(frame).value.dst;
    RoutedTo(frame, a, b, target, s, cs);
    OwnedIff(s, cs, all, dst, target);
    LessTotal(a.selfId, target);
    if Less(a.selfId, target) { LessAsymmetric(a.selfId, target); }
    forall x | Claimant(s, cs, dst, x) ensures x == target || Less(target, x) || x == a.selfId { LessTotal(x, target); }
    if Claimant(s, cs, dst, a.selfId) { OneAddressEach(s, cs, dst, a.view.selfVip, a.selfId); }
  }

  /** So between members that own their addresses direct delivery never fails. */
  lemma DirectDelivery(
    frame: Bytes, a: RouteCtx, b: CoreView, target: Id, s: Session, cs: set<VipClaim>, all: map<U32, Id>)
    requires PlanRoute(frame, a) == Route(Unicast, [target]) && IsOwnerTable(s, cs, all)
    requires Resolves(s, cs, a.view, a.selfId) && Resolves(s, cs, b, target)
    requires Owned(all, a.view.selfVip, a.selfId) && Owned(all, b.selfVip, target)
    ensures AcceptInbound(frame, a.selfId, b)
    ensures ParseIpv4(frame).value.dst == b.selfVip && b.selfVip != a.view.selfVip
  {
    RoutedTo(frame, a, b, target, s, cs);
    DirectDeliveryIff(frame, a, b, target, s, cs);
    OwnersAreUnrivalled(s, cs, all, a.view.selfVip, a.selfId);
  }

  lemma OwnersAreUnrivalled(s: Session, cs: set<VipClaim>, t: map<U32, Id>, v: U32, m: Id)
    requires IsOwnerTable(s, cs, t) && Owned(t, v, m)
    ensures forall x | Claimant(s, cs, v, x) :: !Less(x, m)
  {
    OwnedIff(s, cs, t, v, m);
    LessIrreflexive(m);
    forall x | Less(m, x) ensures !Less(x, m) { LessAsymmetric(m, x); }
  }

  // Every member of this session derives 100.69.0.5.
  function Collided(): Session { Session("s", (h: HashInput) => 5) }

  const SHARED_VIP: U32 := 0x6445_0005

  function SelfAddressed(): Bytes {
    [0x45, 0, 0, 20, 0, 0, 0, 0, 64, 17, 0, 0, 100, 69, 0, 5, 100, 69, 0, 5]
  }

  function Colliding(owner: Id): CoreView { CoreView(None, {}, map[SHARED_VIP := owner], SHARED_VIP) }

  lemma CollidedClaims(m: Id, n: Id)
    requires Less(m, n)
    ensures var cs := {VipClaim(m, 0, SHARED_VIP), VipClaim(n, 0, SHARED_VIP)};
            && IsOwnerTable(Collided(), cs, map[SHARED_VIP := m])
            && Resolves(Collided(), cs, Colliding(n), m) && Resolves(Collided(), cs, Colliding(m), n)
  {
    var cs := {VipClaim(m, 0, SHARED_VIP), VipClaim(n, 0, SHARED_VIP)};
    LessAsymmetric(m, n);
    assert Claims(Collided(), VipClaim(m, 0, SHARED_VIP), SHARED_VIP);
    assert Claims(Collided(), VipClaim(n, 0, SHARED_VIP), SHARED_VIP);
    assert VipClaim(m, 0, SHARED_VIP) in cs && VipClaim(n, 0, SHARED_VIP) in cs;
    assert Others(cs, m) == {VipClaim(n, 0, SHARED_VIP)} && Others(cs, n) == {VipClaim(m, 0, SHARED_VIP)};
    assert Claimant(Collided(), Others(cs, m), SHARED_VIP, n) && Claimant(Collided(), Others(cs, n), SHARED_VIP, m);
    assert Claimant(Collided(), cs, SHARED_VIP, m) && Claimant(Collided(), cs, SHARED_VIP, n);
  }

  /** The misrouted case is real: a packet to the sender's own address goes to a member that
      lost the address to it and owns none, and that member takes it. */
  lemma SelfAddressedIsMisrouted()
    ensures var cs := {VipClaim("a", 0, SHARED_VIP), VipClaim("b", 0, SHARED_VIP)};
            && Resolves(Collided(), cs, Colliding("b"), "a") && Resolves(Collided(), cs, Colliding("a"), "b")
            && IsOwnerTable(Collided(), cs, map[SHARED_VIP := "a"])
    ensures PlanRoute(SelfAddressed(), RouteCtx(Colliding("b"), 0x6445_ffff, "a", [])) == Route(Unicast, ["b"])
    ensures AcceptInbound(SelfAddressed(), "a", Colliding("a"))
  {
    CollidedClaims("a", "b");
    assert ParseIpv4(SelfAddressed()) == Some(Ipv4Header(20, 20, 17, SHARED_VIP, SHARED_VIP));
  }
}
