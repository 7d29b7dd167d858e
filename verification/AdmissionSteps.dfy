/** What each message of a LAN session does, taken or refused (shared/lan-session-core.ts): the
    answers, and who is pinned, admitted, evicted and heard of afterwards. */
module AdmissionSteps {
  import opened Ids
  import opened Numbers
  import opened Dicts
  import opened VirtualIp
  import opened Admission

  // ---- The committed creator ----

  /** A session id with a '.' commits to the name before the first one, any other to nobody. */
  lemma CreatorIff(sid: Id, host: Id)
    requires host != ""
    ensures host == SessionHostPrefix(sid) <==>
            '.' !in host && |host| < |sid| && sid[..|host|] == host && sid[|host|] == '.'
    ensures '.' !in sid ==> SessionHostPrefix(sid) == ""
  {
    FirstDot(sid, 0);
    if '.' !in host && |host| < |sid| && sid[..|host|] == host && sid[|host|] == '.' {
      DotAt(sid, 0, |host|);
    }
  }

  lemma {:induction false} FirstDot(s: Id, i: nat)
    requires i <= |s| && '.' !in s[..i]
    ensures var p := PrefixUpTo(s, i);
            (p == "" && '.' !in s) || ('.' !in p && |p| < |s| && s[..|p|] == p && s[|p|] == '.')
    decreases |s| - i
  {
    if i == |s| {
      assert s[..i] == s;
    } else if s[i] != '.' {
      assert s[..i + 1] == s[..i] + [s[i]];
      FirstDot(s, i + 1);
    }
  }

  lemma {:induction false} DotAt(s: Id, i: nat, k: nat)
    requires i <= k < |s| && '.' !in s[..k] && s[k] == '.'
    ensures PrefixUpTo(s, i) == s[..k]
    decreases k - i
  {
    if i < k {
      assert s[i] == s[..k][i];
      DotAt(s, i + 1, k);
    }
  }

  // ---- Answers ----

  // A message of this session by its pinned host.
  predicate ByHost(cfg: Config, c: Core, signer: Id, sid: Id) {
    sid == cfg.session.id && c.hostId.Some? && c.hostId.value == signer
  }

  // Later than what the floor of the target, or else the seed, says was granted already.
  predicate Newer(floors: Dict<int>, seed: nat, m: Id, at: int) {
    if m in floors.at then at > floors.at[m] else at > seed
  }

  predicate Takes(cfg: Config, c: Core, e: Event) {
    match e
    case Genesis(host, sid, _) =>
      sid == cfg.session.id && host == SessionHostPrefix(sid) && (c.hostId.Some? ==> c.hostId.value == host)
    case Admit(signer, target, at, sid) =>
      ByHost(cfg, c, signer, sid) && target !in c.evicted && Newer(c.lastAdmitAt, cfg.floorSeed, target, at)
    case Evict(signer, target, at, sid) =>
      ByHost(cfg, c, signer, sid) && Newer(c.lastEvictAt, cfg.floorSeed, target, at)
    case State(s) =>
      s.sessionId == cfg.session.id && s.memberId != cfg.selfId
      && VerifyVipClaim(cfg.session, s.memberId, s.gen, s.vip)
      && (s.memberId in c.lastStateAt.at ==> s.at > c.lastStateAt.at[s.memberId])
    case Gone(_) => true
  }

  /** The answer to each message; what is refused leaves no trace. */
  lemma AnswerIff(cfg: Config, c: Core, e: Event)
    ensures Step(cfg, c, e).ok <==> Takes(cfg, c, e)
    ensures !Takes(cfg, c, e) ==> Step(cfg, c, e).core == c
  {}

  // ---- Members ----

  /** Who is admitted, who is evicted and how far grants have come after each message. */
  lemma MembersAfter(cfg: Config, c: Core, e: Event, m: Id)
    ensures var d, taken := Step(cfg, c, e).core, Takes(cfg, c, e);
            && (m in d.admitted <==>
                  (taken && e.Admit? && e.target == m)
                  || (m in c.admitted && !(taken && e.Evict? && e.target == m) && e != Gone(m)))
            && (m in d.evicted <==> (taken && e.Evict? && e.target == m) || m in c.evicted)
            && d.authorityFloor == (if taken && (e.Admit? || e.Evict?) && e.at > c.authorityFloor
                                    then e.at else c.authorityFloor)
  {
    AnswerIff(cfg, c, e);
  }

  // A genesis that its session's creator may have sent.
  predicate Rightful(cfg: Config, e: Event) {
    e.Genesis? && e.sessionId == cfg.session.id && e.host == SessionHostPrefix(cfg.session.id)
  }

  predicate FirstRightful(cfg: Config, es: seq<Event>, i: nat)
    requires i < |es|
  {
    Rightful(cfg, es[i]) && forall j | 0 <= j < i :: !Rightful(cfg, es[j])
  }

  lemma PinAfter(cfg: Config, c: Core, e: Event)
    requires c.hostId.Some? ==> c.hostId.value == SessionHostPrefix(cfg.session.id)
    ensures var d := Step(cfg, c, e).core;
            if Rightful(cfg, e) && c.hostId == None then d.hostId == Some(e.host) && d.genesisAt == e.at
            else d.hostId == c.hostId && d.genesisAt == c.genesisAt
  {}

  /** In every run the session's creator is pinned by the first rightful genesis, with its time,
      and nobody before it. */
  lemma {:induction false} PinnedByFirst(cfg: Config, es: seq<Event>)
    ensures var c := Run(cfg, Initial(cfg), es);
            && (c.hostId == None <==> forall i | 0 <= i < |es| :: !Rightful(cfg, es[i]))
            && (c.hostId == None ==> c.genesisAt == -1)
            && (c.hostId.Some? ==> c.hostId.value == SessionHostPrefix(cfg.session.id))
            && (forall i | 0 <= i < |es| && FirstRightful(cfg, es, i) :: c.genesisAt == es[i].at)
  {
    if es != [] {
      var n := |es| - 1;
      var front := es[..n];
      PinnedByFirst(cfg, front);
      PinAfter(cfg, Run(cfg, Initial(cfg), front), es[n]);
      forall i | 0 <= i < |es| && FirstRightful(cfg, es, i)
        ensures Run(cfg, Initial(cfg), es).genesisAt == es[i].at
      {
        if i < n { assert FirstRightful(cfg, front, i); }
      }
    }
  }

  /** A seed that is not positive counts as none. */
  lemma SeedIs(floor: int)
    ensures Seed(floor) >= floor && (Seed(floor) == floor || (Seed(floor) == 0 && floor < 0))
  {}

  // ---- Claims ----

  // How many of the keys before k, or of all, belong to members that are not admitted.
  function StrangersBefore(keys: seq<Id>, c: Core, k: Id): nat {
    if keys == [] || keys[0] == k then 0
    else (if keys[0] in c.admitted && keys[0] !in c.evicted then 0 else 1) + StrangersBefore(keys[1..], c, k)
  }

  predicate Member(c: Core, m: Id) { m in c.admitted && m !in c.evicted }

  // Is k among those a store over the cap keeps?
  predicate Survives(d: Dict<StateClaim>, c: Core, k: Id) {
    k in d.at && (Member(c, k) || |d.keys| - StrangersBefore(d.keys, c, k) <= 512)
  }

  /** A store over the cap drops the oldest claims of members that are not admitted, as many as it is
      over, and no others. */
  lemma {:induction false} SurvivesIff(d: Dict<StateClaim>, c: Core)
    requires d.Valid()
    ensures var r := CapClaims(d, c);
            forall k :: (k in r.at <==> Survives(d, c, k)) && (k in r.at ==> r.at[k] == d.at[k])
    decreases |d.keys|
  {
    var victim := FirstNotAdmitted(d.keys, c);
    if |d.keys| > 512 && victim.Some? {
      var v := victim.value;
      WithoutOne(d.keys, v);
      DeleteValid(d, v);
      SurvivesIff(d.Delete(v), c);
      VictimFirst(d.keys, c);
      forall k ensures Survives(d.Delete(v), c, k) <==> Survives(d, c, k) {
        if k != v && k in d.at && !Member(c, k) { OneStrangerLess(d.keys, c, k); }
      }
    } else {
      assert CapClaims(d, c) == d;
      forall k | k in d.at ensures Survives(d, c, k) {
        assert k in Elements(d.keys) && k in d.keys;
      }
    }
  }

  lemma {:induction false} WithoutOne(s: seq<Id>, k: Id)
    requires Distinct(s) && k in s
    ensures |Without(s, k)| == |s| - 1
  {
    if s[0] == k {
      assert k !in s[1..];
      WithoutKeeps(s[1..], k);
    } else {
      assert k in s[1..];
      WithoutOne(s[1..], k);
    }
  }

  lemma {:induction false} VictimFirst(keys: seq<Id>, c: Core)
    ensures var v := FirstNotAdmitted(keys, c); v.Some? ==> StrangersBefore(keys, c, v.value) == 0
  {
    if keys != [] { VictimFirst(keys[1..], c); }
  }

  lemma {:induction false} OneStrangerLess(keys: seq<Id>, c: Core, k: Id)
    requires Distinct(keys) && FirstNotAdmitted(keys, c).Some? && k in keys && !Member(c, k)
    requires k != FirstNotAdmitted(keys, c).value
    ensures StrangersBefore(keys, c, k)
            == StrangersBefore(Without(keys, FirstNotAdmitted(keys, c).value), c, k) + 1
  {
    var v := FirstNotAdmitted(keys, c).value;
    if keys[0] == v {
      assert v !in keys[1..];
      WithoutKeeps(keys[1..], v);
      assert Without(keys, v) == keys[1..];
    } else {
      OneStrangerLess(keys[1..], c, k);
      var rest := Without(keys[1..], v);
      assert Without(keys, v) == [keys[0]] + rest;
      assert Without(keys, v)[1..] == rest;
    }
  }

  // The claims once s is stored.
  function Stored(c: Core, s: StateClaim): Dict<StateClaim> {
    c.claims.Set(s.memberId, s.(vip := ToU32(s.vip)))
  }

  /** Whose claims are held after each message: those before and the one just taken, but for what a
      full store drops, and without that of a member that is evicted or gone. */
  lemma ClaimsAfter(cfg: Config, c: Core, e: Event, m: Id)
    requires Inv(cfg, c)
    ensures var d := Step(cfg, c, e).core.claims;
            if !Takes(cfg, c, e) then d == c.claims
            else match e
              case State(s) =>
                (m in d.at <==> Survives(Stored(c, s), c, m)) && (m in d.at ==> d.at[m] == Stored(c, s).at[m])
              case Evict(_, target, _, _) =>
                (m in d.at <==> m in c.claims.at && m != target) && (m in d.at ==> d.at[m] == c.claims.at[m])
              case Gone(x) =>
                (m in d.at <==> m in c.claims.at && m != x) && (m in d.at ==> d.at[m] == c.claims.at[m])
              case _ => d == c.claims
  {
    AnswerIff(cfg, c, e);
    if e.State? {
      SetValid(c.claims, e.claim.memberId, Stored(c, e.claim).at[e.claim.memberId]);
      SurvivesIff(Stored(c, e.claim), c);
    }
  }
}
