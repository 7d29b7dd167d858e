/** Order independence of admission and of the routing table, replay safety, and
    what an evict rules out for ever. */
module Convergence {
  import opened Ids
  import opened Dicts
  import opened VirtualIp
  import opened Admission

  // A core whose genesis is pinned and that has applied nothing else.
  function Pinned(cfg: Config, at: int): Core {
    Initial(cfg).(hostId := Some(SessionHostPrefix(cfg.session.id)), genesisAt := at)
  }

  lemma PinnedByGenesis(cfg: Config, at: int)
    ensures var genesis := Genesis(SessionHostPrefix(cfg.session.id), cfg.session.id, at);
            Pinned(cfg, at) == Step(cfg, Initial(cfg), genesis).core
  {}

  // A grant for m this session could ever take: signed by the creator, above the seed.
  predicate AdmitFor(cfg: Config, e: Event, m: Id) {
    e.Admit? && e.target == m && e.at > cfg.floorSeed
    && e.sessionId == cfg.session.id && e.signer == SessionHostPrefix(cfg.session.id)
  }

  predicate EvictFor(cfg: Config, e: Event, m: Id) {
    e.Evict? && e.target == m && e.at > cfg.floorSeed
    && e.sessionId == cfg.session.id && e.signer == SessionHostPrefix(cfg.session.id)
  }

  ghost predicate Admits(cfg: Config, es: set<Event>, m: Id) { exists e :: e in es && AdmitFor(cfg, e, m) }
  ghost predicate Evicts(cfg: Config, es: set<Event>, m: Id) { exists e :: e in es && EvictFor(cfg, e, m) }
  ghost predicate NoDeparture(es: set<Event>) { forall e | e in es :: !e.Gone? }

  /** The admission state after a run is a function of the SET of messages: admitted
      means some grant and no evict, whatever the order, the duplicates, the forged or
      stale messages in between, and however often the 512-entry floors were flushed. */
  ghost predicate AdmissionIs(cfg: Config, c: Core, es: set<Event>) {
    && (forall m :: m in c.evicted <==> Evicts(cfg, es, m))
    && (forall m :: m in c.admitted <==> Admits(cfg, es, m) && !Evicts(cfg, es, m))
  }

  // A floor is evidence that its member was granted.
  ghost predicate FloorsBacked(c: Core) {
    forall m | m in c.lastAdmitAt.at :: m in c.admitted || m in c.evicted
  }

  lemma AdmissionStep(cfg: Config, c: Core, es: set<Event>, e: Event)
    requires Inv(cfg, c) && c.hostId.Some? && FloorsBacked(c) && AdmissionIs(cfg, c, es) && !e.Gone?
    ensures var d := Step(cfg, c, e).core;
            d.hostId == c.hostId && FloorsBacked(d) && AdmissionIs(cfg, d, es + {e})
  {
    var d := Step(cfg, c, e).core;
    forall m ensures Admits(cfg, es + {e}, m) <==> Admits(cfg, es, m) || AdmitFor(cfg, e, m) {}
    forall m ensures Evicts(cfg, es + {e}, m) <==> Evicts(cfg, es, m) || EvictFor(cfg, e, m) {}
    if e.Admit? {
      SetValid(c.lastAdmitAt, e.target, e.at);
      NewestValid(c.lastAdmitAt.Set(e.target, e.at), MAX_ANTIREPLAY);
    }
  }

  lemma {:induction false} AdmissionConverges(cfg: Config, at: int, es: seq<Event>)
    requires NoDeparture(Elements(es))
    ensures var c := Run(cfg, Pinned(cfg, at), es);
            Inv(cfg, c) && c.hostId.Some? && FloorsBacked(c) && AdmissionIs(cfg, c, Elements(es))
  {
    if es != [] {
      var front, e := es[..|es| - 1], es[|es| - 1];
      assert es == front + [e];
      assert Elements(es) == Elements(front) + {e};
      AdmissionConverges(cfg, at, front);
      var c := Run(cfg, Pinned(cfg, at), front);
      StepKeepsInv(cfg, c, e);
      AdmissionStep(cfg, c, Elements(front), e);
    }
  }

  lemma AdmissionOrderIrrelevant(cfg: Config, at: int, es: seq<Event>, fs: seq<Event>)
    requires Elements(es) == Elements(fs) && NoDeparture(Elements(es))
    ensures Run(cfg, Pinned(cfg, at), es).admitted == Run(cfg, Pinned(cfg, at), fs).admitted
    ensures Run(cfg, Pinned(cfg, at), es).evicted == Run(cfg, Pinned(cfg, at), fs).evicted
  {
    AdmissionConverges(cfg, at, es);
    AdmissionConverges(cfg, at, fs);
  }

  // ---- Routing ----

  // The claims the routing table is resolved from.
  ghost function Eligible(claims: map<Id, StateClaim>, admitted: set<Id>, evicted: set<Id>): set<VipClaim> {
    set m | m in claims && m in admitted && m !in evicted :: VipClaim(m, claims[m].gen, claims[m].vip)
  }

  ghost function EligibleClaims(c: Core): set<VipClaim> { Eligible(c.claims.at, c.admitted, c.evicted) }

  ghost predicate RoutingTable(cfg: Config, c: Core, t: map<U32, Id>) {
    IsOwnerTable(cfg.session, EligibleClaims(c), t)
  }

  ghost predicate Announces(cfg: Config, es: set<Event>, s: StateClaim) {
    State(s) in es && ClaimValid(cfg, s)
  }

  ghost predicate DistinctStamps(cfg: Config, es: set<Event>) {
    forall s, t | Announces(cfg, es, s) && Announces(cfg, es, t) && s.memberId == t.memberId && s.at == t.at :: s == t
  }

  ghost predicate AnnouncersWithin(cfg: Config, es: set<Event>, who: set<Id>) {
    |who| <= MAX_ANTIREPLAY && forall s | Announces(cfg, es, s) :: s.memberId in who
  }

  // While at most 512 members announce, each member not evicted holds its newest claim.
  ghost predicate ClaimsAre(cfg: Config, c: Core, es: set<Event>, who: set<Id>) {
    ClaimsNewest(cfg, c, es, who) && ClaimsBacked(cfg, c, es)
  }

  ghost predicate ClaimsNewest(cfg: Config, c: Core, es: set<Event>, who: set<Id>) {
    && c.claims.at.Keys <= who && c.lastStateAt.at.Keys <= who
    && (forall m | m !in c.evicted :: m in c.claims.at <==> m in c.lastStateAt.at)
    && (forall m | m in c.claims.at && m !in c.evicted :: c.claims.at[m].at == c.lastStateAt.at[m])
    && (forall s | Announces(cfg, es, s) :: s.memberId in c.lastStateAt.at && s.at <= c.lastStateAt.at[s.memberId])
  }

  ghost predicate ClaimsBacked(cfg: Config, c: Core, es: set<Event>) {
    && (forall m | m in c.claims.at :: Backed(cfg, es, m, c.claims.at[m]))
    && (forall m | m in c.lastStateAt.at :: Heard(cfg, es, m))
  }

  ghost predicate Backed(cfg: Config, es: set<Event>, m: Id, held: StateClaim) {
    exists s :: Announces(cfg, es, s) && s.memberId == m && Normal(s) == held
  }

  ghost predicate Heard(cfg: Config, es: set<Event>, m: Id) {
    exists s :: Announces(cfg, es, s) && s.memberId == m
  }

  lemma AnnouncementsGrow(cfg: Config, c: Core, es: set<Event>, fs: set<Event>)
    requires es <= fs
    ensures forall m, h | Backed(cfg, es, m, h) :: Backed(cfg, fs, m, h)
    ensures forall m | Heard(cfg, es, m) :: Heard(cfg, fs, m)
  {
    forall m, h | Backed(cfg, es, m, h) ensures Backed(cfg, fs, m, h) {
      var s :| Announces(cfg, es, s) && s.memberId == m && Normal(s) == h;
      assert Announces(cfg, fs, s);
    }
    forall m | Heard(cfg, es, m) ensures Heard(cfg, fs, m) {
      var s :| Announces(cfg, es, s) && s.memberId == m;
      assert Announces(cfg, fs, s);
    }
  }

  lemma ClaimAccepted(cfg: Config, c: Core, es: set<Event>, s: StateClaim, who: set<Id>)
    requires Inv(cfg, c) && ClaimsAre(cfg, c, es, who)
    requires ClaimValid(cfg, s) && s.memberId in who && |who| <= MAX_ANTIREPLAY
    requires s.memberId in c.lastStateAt.at ==> s.at > c.lastStateAt.at[s.memberId]
    ensures var d := ApplyState(cfg, c, s).core;
            d.lastStateAt.at == c.lastStateAt.at[s.memberId := s.at]
              && d.claims.at == c.claims.at[s.memberId := Normal(s)]
  {
    SetValid(c.lastStateAt, s.memberId, s.at);
    KeysBounded(c.lastStateAt.Set(s.memberId, s.at), who, MAX_ANTIREPLAY);
    SetValid(c.claims, s.memberId, Normal(s));
    KeysBounded(c.claims.Set(s.memberId, Normal(s)), who, MAX_ANTIREPLAY);
    CapClaimsKeeps(c.claims.Set(s.memberId, Normal(s)), c);
  }

  lemma StoreClaim(cfg: Config, c: Core, d: Core, es: set<Event>, s: StateClaim, who: set<Id>)
    requires ClaimsAre(cfg, c, es, who) && ClaimValid(cfg, s) && s.memberId in who
    requires s.memberId in c.lastStateAt.at ==> s.at > c.lastStateAt.at[s.memberId]
    requires d.evicted == c.evicted
    requires d.lastStateAt.at == c.lastStateAt.at[s.memberId := s.at]
    requires d.claims.at == c.claims.at[s.memberId := Normal(s)]
    ensures ClaimsAre(cfg, d, es + {State(s)}, who)
  {
    StoreNewest(cfg, c, d, es, s, who);
    StoreBacked(cfg, c, d, es, s);
  }

  lemma StoreNewest(cfg: Config, c: Core, d: Core, es: set<Event>, s: StateClaim, who: set<Id>)
    requires ClaimsNewest(cfg, c, es, who) && s.memberId in who
    requires s.memberId in c.lastStateAt.at ==> s.at > c.lastStateAt.at[s.memberId]
    requires d.evicted == c.evicted
    requires d.lastStateAt.at == c.lastStateAt.at[s.memberId := s.at]
    requires d.claims.at == c.claims.at[s.memberId := Normal(s)]
    ensures ClaimsNewest(cfg, d, es + {State(s)}, who)
  {
    forall t | Announces(cfg, es + {State(s)}, t)
      ensures t.memberId in d.lastStateAt.at && t.at <= d.lastStateAt.at[t.memberId]
    {
      assert t == s || Announces(cfg, es, t);
    }
  }

  lemma StoreBacked(cfg: Config, c: Core, d: Core, es: set<Event>, s: StateClaim)
    requires ClaimsBacked(cfg, c, es) && ClaimValid(cfg, s)
    requires d.lastStateAt.at == c.lastStateAt.at[s.memberId := s.at]
    requires d.claims.at == c.claims.at[s.memberId := Normal(s)]
    ensures ClaimsBacked(cfg, d, es + {State(s)})
  {
    var fs := es + {State(s)};
    AnnouncementsGrow(cfg, c, es, fs);
    assert Announces(cfg, fs, s);
    assert Backed(cfg, fs, s.memberId, Normal(s)) && Heard(cfg, fs, s.memberId);
  }

  lemma ClaimsStepState(cfg: Config, c: Core, es: set<Event>, s: StateClaim, who: set<Id>)
    requires Inv(cfg, c) && ClaimsAre(cfg, c, es, who) && AnnouncersWithin(cfg, es + {State(s)}, who)
    ensures ClaimsAre(cfg, ApplyState(cfg, c, s).core, es + {State(s)}, who)
  {
    var fs := es + {State(s)};
    if ClaimValid(cfg, s) && (s.memberId in c.lastStateAt.at ==> s.at > c.lastStateAt.at[s.memberId]) {
      assert Announces(cfg, fs, s);
      ClaimAccepted(cfg, c, es, s, who);
      StoreClaim(cfg, c, ApplyState(cfg, c, s).core, es, s, who);
    } else {
      AnnouncementsGrow(cfg, c, es, fs);
      forall t | Announces(cfg, fs, t) ensures t == s || Announces(cfg, es, t) {}
    }
  }

  lemma OtherStep(cfg: Config, c: Core, e: Event)
    requires !e.State? && !e.Gone?
    ensures var d := Step(cfg, c, e).core;
            && d.lastStateAt == c.lastStateAt && c.evicted <= d.evicted
            && (d.claims == c.claims || (e.Evict? && e.target in d.evicted && d.claims.at == c.claims.at - {e.target}))
  {}

  lemma CarryClaims(cfg: Config, c: Core, d: Core, es: set<Event>, e: Event, who: set<Id>)
    requires ClaimsAre(cfg, c, es, who) && !e.State?
    requires d.lastStateAt == c.lastStateAt && c.evicted <= d.evicted
    requires d.claims == c.claims || (e.Evict? && e.target in d.evicted && d.claims.at == c.claims.at - {e.target})
    ensures ClaimsAre(cfg, d, es + {e}, who)
  {
    AnnouncementsGrow(cfg, c, es, es + {e});
    forall s ensures Announces(cfg, es + {e}, s) <==> Announces(cfg, es, s) {}
  }

  lemma ClaimsStep(cfg: Config, c: Core, es: set<Event>, e: Event, who: set<Id>)
    requires Inv(cfg, c) && ClaimsAre(cfg, c, es, who) && AnnouncersWithin(cfg, es + {e}, who) && !e.Gone?
    ensures ClaimsAre(cfg, Step(cfg, c, e).core, es + {e}, who)
  {
    if e.State? {
      ClaimsStepState(cfg, c, es, e.claim, who);
    } else {
      OtherStep(cfg, c, e);
      CarryClaims(cfg, c, Step(cfg, c, e).core, es, e, who);
    }
  }

  lemma {:induction false} ClaimsRun(cfg: Config, at: int, es: seq<Event>, who: set<Id>)
    requires NoDeparture(Elements(es)) && AnnouncersWithin(cfg, Elements(es), who)
    ensures Inv(cfg, Run(cfg, Pinned(cfg, at), es))
    ensures ClaimsAre(cfg, Run(cfg, Pinned(cfg, at), es), Elements(es), who)
  {
    if es != [] {
      var front, e := es[..|es| - 1], es[|es| - 1];
      assert es == front + [e];
      assert Elements(es) == Elements(front) + {e};
      forall s | Announces(cfg, Elements(front), s) ensures s.memberId in who {
        assert Announces(cfg, Elements(es), s);
      }
      ClaimsRun(cfg, at, front, who);
      var c := Run(cfg, Pinned(cfg, at), front);
      StepKeepsInv(cfg, c, e);
      ClaimsStep(cfg, c, Elements(front), e, who);
    }
  }

  lemma SameClaims(cfg: Config, c: Core, d: Core, es: set<Event>, who: set<Id>, m: Id)
    requires ClaimsAre(cfg, c, es, who) && ClaimsAre(cfg, d, es, who) && DistinctStamps(cfg, es)
    requires m in c.claims.at && m !in c.evicted && m !in d.evicted
    ensures m in d.claims.at && d.claims.at[m] == c.claims.at[m]
  {
    var s :| Announces(cfg, es, s) && s.memberId == m && Normal(s) == c.claims.at[m];
    assert m in d.lastStateAt.at && m in d.claims.at;
    assert Backed(cfg, es, m, d.claims.at[m]);
    var t :| Announces(cfg, es, t) && t.memberId == m && Normal(t) == d.claims.at[m];
    assert s.at <= t.at && t.at <= s.at;
  }

  /** The same messages in any order route the same: with distinct claim stamps per
      member and at most 512 announcers, the resolved tables are equal. */
  lemma RoutingConverges(
    cfg: Config, at: int, es: seq<Event>, fs: seq<Event>, who: set<Id>, t: map<U32, Id>, u: map<U32, Id>)
    requires Elements(es) == Elements(fs) && NoDeparture(Elements(es))
    requires DistinctStamps(cfg, Elements(es)) && AnnouncersWithin(cfg, Elements(es), who)
    requires RoutingTable(cfg, Run(cfg, Pinned(cfg, at), es), t)
    requires RoutingTable(cfg, Run(cfg, Pinned(cfg, at), fs), u)
    ensures t == u
  {
    var c, d := Run(cfg, Pinned(cfg, at), es), Run(cfg, Pinned(cfg, at), fs);
    AdmissionOrderIrrelevant(cfg, at, es, fs);
    ClaimsRun(cfg, at, es, who);
    ClaimsRun(cfg, at, fs, who);
    forall m | IsAdmitted(c, m) ensures m in c.claims.at <==> m in d.claims.at
      ensures m in c.claims.at ==> d.claims.at[m] == c.claims.at[m]
    {
      if m in c.claims.at { SameClaims(cfg, c, d, Elements(es), who, m); }
      if m in d.claims.at { SameClaims(cfg, d, c, Elements(es), who, m); }
    }
    SameEligible(c, d);
    OwnerTableUnique(cfg.session, EligibleClaims(c), t, u);
  }

  lemma SameEligible(c: Core, d: Core)
    requires c.admitted == d.admitted && c.evicted == d.evicted
    requires forall m | IsAdmitted(c, m) :: m in c.claims.at <==> m in d.claims.at
    requires forall m | IsAdmitted(c, m) && m in c.claims.at :: d.claims.at[m] == c.claims.at[m]
    ensures EligibleClaims(c) == EligibleClaims(d)
  {
    forall v ensures v in EligibleClaims(c) <==> v in EligibleClaims(d) {
      if v in EligibleClaims(c) { assert v.memberId in d.claims.at; }
      if v in EligibleClaims(d) { assert v.memberId in c.claims.at; }
    }
  }

  // ---- Evict is terminal ----

  lemma {:induction false} EvictedStays(cfg: Config, c: Core, es: seq<Event>, x: Id)
    requires Inv(cfg, c) && x in c.evicted
    ensures x in Run(cfg, c, es).evicted && x !in Run(cfg, c, es).admitted
  {
    RunKeepsInv(cfg, c, es);
    if es != [] { EvictedStays(cfg, c, es[..|es| - 1], x); }
  }

  lemma NotInTable(cfg: Config, d: Core, t: map<U32, Id>, x: Id)
    requires RoutingTable(cfg, d, t) && x !in d.admitted
    ensures x !in t.Values
  {
    forall v | v in t ensures t[v] != x { assert Claimant(cfg.session, EligibleClaims(d), v, t[v]); }
  }

  /** Once evicted, a member is never admitted again and owns no address in any later
      routing table, whatever messages follow. */
  lemma EvictIsTerminal(cfg: Config, c: Core, es: seq<Event>, x: Id)
    requires Inv(cfg, c) && x in c.evicted
    ensures var d := Run(cfg, c, es);
            x in d.evicted && x !in d.admitted && forall t | RoutingTable(cfg, d, t) :: x !in t.Values
  {
    var d := Run(cfg, c, es);
    EvictedStays(cfg, c, es, x);
    forall t | RoutingTable(cfg, d, t) ensures x !in t.Values { NotInTable(cfg, d, t, x); }
  }

  // ---- Replay ----

  // A grant the core applies in state c.
  predicate Grants(cfg: Config, c: Core, e: Event) {
    match e
    case Admit(signer, target, at, sid) => AdmitAccepted(cfg, c, signer, target, at, sid)
    case Evict(signer, target, at, sid) => EvictAccepted(cfg, c, signer, target, at, sid)
    case _ => false
  }

  ghost predicate GrantedIn(cfg: Config, c: Core, es: seq<Event>, e: Event) {
    exists i | 0 <= i < |es| :: es[i] == e && Grants(cfg, Run(cfg, c, es[..i]), e)
  }

  function Stamp(e: Event): int
    requires e.Admit? || e.Evict?
  {
    e.at
  }

  lemma GrantBounds(cfg: Config, c: Core, e: Event)
    requires Inv(cfg, c) && Grants(cfg, c, e)
    ensures cfg.floorSeed < Stamp(e) <= Step(cfg, c, e).core.authorityFloor
  {}

  lemma {:induction false} WatermarkGrows(cfg: Config, c: Core, es: seq<Event>, i: nat)
    requires i <= |es|
    ensures Run(cfg, c, es[..i]).authorityFloor <= Run(cfg, c, es).authorityFloor
    decreases |es|
  {
    if i == |es| {
      assert es[..i] == es;
    } else {
      WatermarkGrows(cfg, c, es[..|es| - 1], i);
      assert es[..|es| - 1][..i] == es[..i];
    }
  }

  /** Every grant a run applies lies above its seed and at or below its watermark. */
  lemma GrantedBetween(cfg: Config, c: Core, es: seq<Event>, e: Event)
    requires Inv(cfg, c) && GrantedIn(cfg, c, es, e)
    ensures (e.Admit? || e.Evict?) && cfg.floorSeed < Stamp(e) <= Run(cfg, c, es).authorityFloor
  {
    var i :| 0 <= i < |es| && es[i] == e && Grants(cfg, Run(cfg, c, es[..i]), e);
    RunKeepsInv(cfg, c, es[..i]);
    GrantBounds(cfg, Run(cfg, c, es[..i]), e);
    assert es[..i + 1][..i] == es[..i];
    WatermarkGrows(cfg, c, es, i + 1);
  }

  // Floors are kept apart for admits and for evicts.
  datatype GrantKind = OfAdmits | OfEvicts

  predicate OfKind(e: Event, k: GrantKind) { if k == OfAdmits then e.Admit? else e.Evict? }

  function Floors(c: Core, k: GrantKind): Dict<int> { if k == OfAdmits then c.lastAdmitAt else c.lastEvictAt }

  ghost predicate TargetsWithin(es: seq<Event>, k: GrantKind, who: set<Id>) {
    forall e | e in es && OfKind(e, k) :: e.target in who
  }

  lemma FloorStep(cfg: Config, c: Core, e: Event, k: GrantKind)
    ensures Floors(Step(cfg, c, e).core, k) ==
            if OfKind(e, k) && Grants(cfg, c, e) then Floors(c, k).Set(e.target, e.at).Newest(MAX_ANTIREPLAY)
              else Floors(c, k)
  {}

  // While the targets fit into the table, a floor is kept and only rises.
  lemma FloorHeld(cfg: Config, c: Core, e: Event, k: GrantKind, who: set<Id>)
    requires Inv(cfg, c) && Floors(c, k).at.Keys <= who && |who| <= MAX_ANTIREPLAY && (OfKind(e, k) ==> e.target in who)
    ensures var f, g := Floors(c, k).at, Floors(Step(cfg, c, e).core, k).at;
            && g.Keys <= who && (forall m | m in f :: m in g && f[m] <= g[m])
            && (OfKind(e, k) && Grants(cfg, c, e) ==> e.target in g && g[e.target] == e.at)
  {
    FloorStep(cfg, c, e, k);
    if OfKind(e, k) && Grants(cfg, c, e) {
      SetValid(Floors(c, k), e.target, e.at);
      KeysBounded(Floors(c, k).Set(e.target, e.at), who, MAX_ANTIREPLAY);
    }
  }

  lemma {:induction false} FloorsHold(cfg: Config, c: Core, es: seq<Event>, k: GrantKind, who: set<Id>)
    requires Inv(cfg, c) && TargetsWithin(es, k, who) && |who| <= MAX_ANTIREPLAY && Floors(c, k).at.Keys <= who
    ensures var f, g := Floors(c, k).at, Floors(Run(cfg, c, es), k).at;
            g.Keys <= who && forall m | m in f :: m in g && f[m] <= g[m]
  {
    if es != [] {
      var front := es[..|es| - 1];
      FloorsHold(cfg, c, front, k, who);
      RunKeepsInv(cfg, c, front);
      FloorHeld(cfg, Run(cfg, c, front), es[|es| - 1], k, who);
    }
  }

  // While at most 512 members are targeted by admits, or by evicts, nothing of that kind
  // that was applied is ever applied again.
  lemma NoReplayWithin512(cfg: Config, c: Core, e: Event, es: seq<Event>, k: GrantKind, who: set<Id>)
    requires Inv(cfg, c) && OfKind(e, k) && Grants(cfg, c, e)
    requires TargetsWithin([e] + es, k, who) && |who| <= MAX_ANTIREPLAY && Floors(c, k).at.Keys <= who
    ensures !Grants(cfg, Run(cfg, Step(cfg, c, e).core, es), e)
  {
    assert e in [e] + es && forall f | f in es :: f in [e] + es;
    StepKeepsInv(cfg, c, e);
    FloorHeld(cfg, c, e, k, who);
    FloorsHold(cfg, Step(cfg, c, e).core, es, k, who);
  }

  function Grant(cfg: Config, k: GrantKind, m: Id): Event {
    var host, at := SessionHostPrefix(cfg.session.id), cfg.floorSeed + 1;
    if k == OfAdmits then Admit(host, m, at, cfg.session.id) else Evict(host, m, at, cfg.session.id)
  }

  function GrantAll(cfg: Config, k: GrantKind, ids: seq<Id>): seq<Event> {
    if ids == [] then [] else GrantAll(cfg, k, ids[..|ids| - 1]) + [Grant(cfg, k, ids[|ids| - 1])]
  }

  // A state in which a member without a floor can still be granted.
  ghost predicate Open(cfg: Config, c: Core, k: GrantKind) {
    Inv(cfg, c) && c.hostId == Some(SessionHostPrefix(cfg.session.id)) && (k == OfAdmits ==> c.evicted == {})
  }

  lemma GrantOneMore(cfg: Config, c: Core, k: GrantKind, m: Id)
    requires Open(cfg, c, k) && m !in Floors(c, k).keys
    ensures Grants(cfg, c, Grant(cfg, k, m))
    ensures var d, keys := Step(cfg, c, Grant(cfg, k, m)).core, Floors(c, k).keys;
            Open(cfg, d, k) && Floors(d, k).keys == if |keys| < MAX_ANTIREPLAY then keys + [m] else keys[1..] + [m]
  {
    assert m !in Elements(Floors(c, k).keys);
    StepKeepsInv(cfg, c, Grant(cfg, k, m));
    FloorStep(cfg, c, Grant(cfg, k, m), k);
    var keys := Floors(c, k).keys;
    if |keys| == MAX_ANTIREPLAY { assert (keys + [m])[1..] == keys[1..] + [m]; }
  }

  lemma {:induction false} GrantAllFloors(cfg: Config, at: int, k: GrantKind, ids: seq<Id>)
    requires Distinct(ids) && |ids| <= MAX_ANTIREPLAY
    ensures var c := Run(cfg, Pinned(cfg, at), GrantAll(cfg, k, ids)); Open(cfg, c, k) && Floors(c, k).keys == ids
  {
    if ids != [] {
      var front, last := ids[..|ids| - 1], ids[|ids| - 1];
      assert ids == front + [last];
      PrefixDistinct(front, last);
      GrantAllFloors(cfg, at, k, front);
      GrantAllLast(cfg, at, k, front, last);
      GrantOneMore(cfg, Run(cfg, Pinned(cfg, at), GrantAll(cfg, k, front)), k, last);
    }
  }

  lemma GrantAllLast(cfg: Config, at: int, k: GrantKind, front: seq<Id>, last: Id)
    ensures Run(cfg, Pinned(cfg, at), GrantAll(cfg, k, front + [last]))
            == Step(cfg, Run(cfg, Pinned(cfg, at), GrantAll(cfg, k, front)), Grant(cfg, k, last)).core
  {
    var ids := front + [last];
    assert ids[..|ids| - 1] == front;
    assert GrantAll(cfg, k, ids)[..|GrantAll(cfg, k, ids)| - 1] == GrantAll(cfg, k, front);
  }

  /** The 513th target flushes the first one's floor: its grant is applied again. The seed
      still bounds what can come back. */
  lemma FlushedFloorTakesReplay(cfg: Config, at: int, k: GrantKind, ids: seq<Id>)
    requires Distinct(ids) && |ids| == MAX_ANTIREPLAY + 1
    ensures Grants(cfg, Run(cfg, Pinned(cfg, at), GrantAll(cfg, k, ids)), Grant(cfg, k, ids[0]))
  {
    var front, last := ids[..MAX_ANTIREPLAY], ids[MAX_ANTIREPLAY];
    assert ids == front + [last];
    PrefixDistinct(front, last);
    GrantAllFloors(cfg, at, k, front);
    GrantAllLast(cfg, at, k, front, last);
    var c := Run(cfg, Pinned(cfg, at), GrantAll(cfg, k, front));
    GrantOneMore(cfg, c, k, last);
    var d := Run(cfg, Pinned(cfg, at), GrantAll(cfg, k, ids));
    assert Floors(d, k).keys == ids[1..];
    assert ids[0] !in ids[1..];
    GrantOneMore(cfg, d, k, ids[0]);
  }

  // A grant is applied, and after more messages applied again.
  predicate Replayed(cfg: Config, at: int, front: seq<Event>, e: Event, mid: seq<Event>) {
    Grants(cfg, Run(cfg, Pinned(cfg, at), front), e) && Grants(cfg, Run(cfg, Pinned(cfg, at), front + [e] + mid), e)
  }

  ghost predicate ReplayFree(cfg: Config, at: int, k: GrantKind, who: set<Id>) {
    forall front, e, mid | OfKind(e, k) && TargetsWithin(front + [e] + mid, k, who) :: !Replayed(cfg, at, front, e, mid)
  }

  lemma {:induction false} RunConcat(cfg: Config, c: Core, a: seq<Event>, b: seq<Event>)
    ensures Run(cfg, c, a + b) == Run(cfg, Run(cfg, c, a), b)
  {
    if b == [] {
      assert a + b == a;
    } else {
      assert (a + b)[..|a + b| - 1] == a + b[..|b| - 1];
      RunConcat(cfg, c, a, b[..|b| - 1]);
    }
  }

  lemma RunThrough(cfg: Config, c: Core, front: seq<Event>, e: Event, mid: seq<Event>)
    ensures Run(cfg, c, front + [e] + mid) == Run(cfg, Step(cfg, Run(cfg, c, front), e).core, mid)
  {
    RunConcat(cfg, c, front + [e], mid);
    assert (front + [e])[..|front|] == front;
  }

  lemma {:induction false} GrantAllWithin(cfg: Config, k: GrantKind, ids: seq<Id>)
    ensures forall e | e in GrantAll(cfg, k, ids) :: OfKind(e, k) && e.target in ids
    ensures ids != [] ==> GrantAll(cfg, k, ids) != [] && GrantAll(cfg, k, ids)[0] == Grant(cfg, k, ids[0])
  {
    if ids != [] { GrantAllWithin(cfg, k, ids[..|ids| - 1]); }
  }

  lemma PinnedOpen(cfg: Config, at: int, k: GrantKind)
    ensures Open(cfg, Pinned(cfg, at), k) && Floors(Pinned(cfg, at), k).keys == []
    ensures Floors(Pinned(cfg, at), k).at.Keys == {}
  {}

  /** The bound is exact, for admits and for evicts: among the messages that target a set of
      members nothing is ever applied twice if and only if there are at most 512 of them. */
  lemma ReplayFreeIff(cfg: Config, at: int, k: GrantKind, who: set<Id>)
    ensures ReplayFree(cfg, at, k, who) <==> |who| <= MAX_ANTIREPLAY
  {
    PinnedOpen(cfg, at, k);
    if |who| <= MAX_ANTIREPLAY {
      forall front, e, mid | OfKind(e, k) && TargetsWithin(front + [e] + mid, k, who)
        ensures !Replayed(cfg, at, front, e, mid)
      {
        ReplayFreeWithin(cfg, at, front, e, mid, k, who);
      }
    } else {
      var ids := PickDistinct(who, MAX_ANTIREPLAY + 1);
      TooManyReplay(cfg, at, k, who, ids);
      var all := GrantAll(cfg, k, ids);
      assert Replayed(cfg, at, [], all[0], all[1..]);
    }
  }

  lemma TooManyReplay(cfg: Config, at: int, k: GrantKind, who: set<Id>, ids: seq<Id>)
    requires Distinct(ids) && |ids| == MAX_ANTIREPLAY + 1 && Elements(ids) <= who
    ensures var all := GrantAll(cfg, k, ids);
            && |all| > 0 && OfKind(all[0], k) && TargetsWithin([] + [all[0]] + all[1..], k, who)
            && Replayed(cfg, at, [], all[0], all[1..])
  {
    var all := GrantAll(cfg, k, ids);
    GrantAllWithin(cfg, k, ids);
    FlushedFloorTakesReplay(cfg, at, k, ids);
    PinnedOpen(cfg, at, k);
    GrantOneMore(cfg, Pinned(cfg, at), k, ids[0]);
    assert [] + [all[0]] + all[1..] == all;
    forall e | e in all ensures e.target in who { assert e.target in Elements(ids); }
  }

  lemma ReplayFreeWithin(cfg: Config, at: int, front: seq<Event>, e: Event, mid: seq<Event>, k: GrantKind, who: set<Id>)
    requires OfKind(e, k) && TargetsWithin(front + [e] + mid, k, who) && |who| <= MAX_ANTIREPLAY
    ensures !Replayed(cfg, at, front, e, mid)
  {
    var all := front + [e] + mid;
    assert forall f | f in front :: f in all;
    assert forall f | f in [e] + mid :: f in all;
    var c := Run(cfg, Pinned(cfg, at), front);
    PinnedOpen(cfg, at, k);
    RunKeepsInv(cfg, Pinned(cfg, at), front);
    FloorsHold(cfg, Pinned(cfg, at), front, k, who);
    if Grants(cfg, c, e) {
      NoReplayWithin512(cfg, c, e, mid, k, who);
      RunThrough(cfg, Pinned(cfg, at), front, e, mid);
    }
  }
}
