/** What every run of gossip frames keeps in a browser guest: bans and the kick are for
    good, the owner line only grows, key bindings never change, and a deletion or a
    revival is never undone by an older one. */
module GuestSafety {
  import opened Ids
  import opened Numbers
  import opened Dicts
  import opened RoomAuthority
  import opened GuestState

  // ---- The invariant ----

  ghost predicate KeysBelong(c: Crypto, ids: map<Id, string>) {
    |ids| <= ROOM_IDENTITY_LIMIT && forall m | m in ids :: ids[m] != "" && c.memberIdOf(ids[m]) == m
  }

  ghost predicate RosterInv(t: Roster) {
    t.members !! t.bans && (t.banState.Some? ==> Elements(t.banState.value.bans) <= t.bans)
  }

  predicate LinkSigned(c: Crypto, root: Id, l: Link) {
    c.memberIdOf(l.pub) == l.signer && c.valid(l.pub, LinkPayload(root, l), l.sig)
  }

  ghost predicate ChainSigned(c: Crypto, chain: seq<Link>) {
    forall l | l in chain :: LinkSigned(c, chain[0].signer, l)
  }

  ghost predicate SignedLine(c: Crypto, line: OwnerLine) { LineInv(line) && ChainSigned(c, line.chain) }

  predicate TombNewer(l: FileLog, id: Id) {
    id in l.tombs ==> l.tombs[id].deletion.at > 0 && (id in l.revives ==> l.tombs[id].deletion.at > l.revives[id])
  }

  ghost predicate LogInv(l: FileLog) {
    && l.pendingTombs.Valid() && |l.pendingTombs.keys| <= PENDING_TOMB_LIMIT
    && forall id :: TombNewer(l, id)
  }

  ghost predicate Inv(g: Self, r: Room) {
    KeysBelong(g.crypto, r.identities) && RosterInv(r.roster) && SignedLine(g.crypto, r.line) && LogInv(r.log)
  }

  // ---- What never goes back ----

  ghost predicate Extends(ids: map<Id, string>, more: map<Id, string>) {
    forall m | m in ids :: m in more && more[m] == ids[m]
  }

  ghost predicate RosterGrows(t: Roster, u: Roster) { t.bans <= u.bans && (t.kicked ==> u.kicked) }

  predicate ChainGrows(a: seq<Link>, b: seq<Link>) {
    |a| <= |b| && ChainsCompatible(a, b) && (|a| == |b| ==> a == b)
  }

  predicate LineGrows(a: OwnerLine, b: OwnerLine) { b.ownerPin == a.ownerPin && ChainGrows(a.chain, b.chain) }

  // How far a file's history has come: a deletion at t is 2t, a revival at t just beyond it.
  function Rank(l: FileLog, id: Id): int {
    Max(if id in l.tombs then 2 * l.tombs[id].deletion.at else 0, if id in l.revives then 2 * l.revives[id] + 1 else 0)
  }

  ghost predicate LogGrows(l: FileLog, m: FileLog) { forall id :: Rank(l, id) <= Rank(m, id) }

  ghost predicate Onward(r: Room, s: Room) {
    && Extends(r.identities, s.identities) && RosterGrows(r.roster, s.roster)
    && LineGrows(r.line, s.line) && LogGrows(r.log, s.log) && r.voiceV2 <= s.voiceV2
  }

  lemma LineGrowsTransitive(a: OwnerLine, b: OwnerLine, c: OwnerLine)
    requires LineGrows(a, b) && LineGrows(b, c)
    ensures LineGrows(a, c)
  {
    forall i | 0 <= i < |a.chain| && i < |c.chain| ensures SameLink(a.chain[i], c.chain[i]) {
      assert SameLink(a.chain[i], b.chain[i]) && SameLink(b.chain[i], c.chain[i]);
    }
  }

  lemma LogGrowsTransitive(l: FileLog, m: FileLog, n: FileLog)
    requires LogGrows(l, m) && LogGrows(m, n)
    ensures LogGrows(l, n)
  {
    forall id ensures Rank(l, id) <= Rank(n, id) { assert Rank(l, id) <= Rank(m, id) && Rank(m, id) <= Rank(n, id); }
  }

  lemma OnwardTransitive(r: Room, s: Room, t: Room)
    requires Onward(r, s) && Onward(s, t)
    ensures Onward(r, t)
  {
    LineGrowsTransitive(r.line, s.line, t.line);
    LogGrowsTransitive(r.log, s.log, t.log);
  }

  ghost predicate Leads(g: Self, r: Room, s: Room) { Inv(g, s) && Onward(r, s) }

  lemma LeadsItself(g: Self, r: Room)
    requires Inv(g, r)
    ensures Leads(g, r, r)
  {}

  // ---- Signatures ----

  lemma VerifiedBindKeeps(c: Crypto, ids: map<Id, string>, memberId: Id, pub: string, sig: string, payload: Payload)
    requires KeysBelong(c, ids) && Verifies(c, ids, memberId, pub, sig, payload)
    ensures KeysBelong(c, Bind(ids, memberId, pub)) && Extends(ids, Bind(ids, memberId, pub))
  {
    BindKeeps(c, ids, memberId, pub);
  }

  lemma BindKeeps(c: Crypto, ids: map<Id, string>, memberId: Id, pub: string)
    requires KeysBelong(c, ids) && pub != "" && c.memberIdOf(pub) == memberId
    requires memberId !in ids ==> |ids| < ROOM_IDENTITY_LIMIT
    ensures KeysBelong(c, Bind(ids, memberId, pub)) && Extends(ids, Bind(ids, memberId, pub))
  {
    if memberId !in ids { OneMoreKey(ids, memberId, pub); }
  }

  lemma OneMoreKey(ids: map<Id, string>, memberId: Id, pub: string)
    requires memberId !in ids
    ensures |ids[memberId := pub]| == |ids| + 1
  {
    assert ids[memberId := pub].Keys == ids.Keys + {memberId};
    assert |ids.Keys| == |ids| && |ids[memberId := pub].Keys| == |ids[memberId := pub]|;
  }

  lemma BoundedLeads(g: Self, r: Room, memberId: Id, pub: string, sig: string, payload: Payload)
    requires Inv(g, r) && Verifies(g.crypto, r.identities, memberId, pub, sig, payload)
    ensures Leads(g, r, Bounded(r, memberId, pub))
  {
    VerifiedBindKeeps(g.crypto, r.identities, memberId, pub, sig, payload);
  }

  // ---- The owner line ----

  lemma {:induction false} CheckLinksKeeps(c: Crypto, ids: map<Id, string>, root: Id, chain: seq<Link>, i: nat)
    requires KeysBelong(c, ids) && i <= |chain|
    requires forall l | l in chain[..i] :: LinkSigned(c, root, l)
    ensures var k := CheckLinks(c, ids, root, chain, i);
            && KeysBelong(c, k.ids) && Extends(ids, k.ids) && k.chain <= chain
            && forall l | l in k.chain :: LinkSigned(c, root, l)
    decreases |chain| - i
  {
    if i < |chain| && LinkVerifies(c, ids, root, chain[i]) {
      var l := chain[i];
      VerifiedBindKeeps(c, ids, l.signer, l.pub, l.sig, LinkPayload(root, l));
      assert chain[..i + 1] == chain[..i] + [l];
      CheckLinksKeeps(c, Bind(ids, l.signer, l.pub), root, chain, i + 1);
    }
  }

  lemma CheckChainKeeps(c: Crypto, ids: map<Id, string>, links: seq<Link>, now: int)
    requires KeysBelong(c, ids)
    ensures var k := CheckChain(c, ids, links, now);
            && KeysBelong(c, k.ids) && Extends(ids, k.ids)
            && WellOrdered(k.chain, now) && |k.chain| <= ROOM_TRANSFER_LIMIT && ChainSigned(c, k.chain)
  {
    var chain := OrderedPrefix(links, now);
    PrefixIsLongest(links, now, 0);
    PrefixIsLongest(links, now, |chain|);
    if chain != [] {
      CheckLinksKeeps(c, ids, chain[0].signer, chain, 0);
      var k := CheckLinks(c, ids, chain[0].signer, chain, 0);
      assert links[..|chain|] == chain && chain[..|k.chain|] == k.chain;
      WellOrderedPrefix(chain, now, |k.chain|);
    }
  }

  lemma AdoptedLine(c: Crypto, line: OwnerLine, chain: seq<Link>, now: int)
    requires SignedLine(c, line) && ChainSigned(c, chain)
    requires WellOrdered(chain, now) && |chain| <= ROOM_TRANSFER_LIMIT && Advances(line, chain)
    ensures SignedLine(c, Adopt(line, chain)) && LineGrows(line, Adopt(line, chain)) && |chain| > |line.chain|
  {
    AdvancesIff(line, chain, now);
  }

  lemma AdoptChainLeads(g: Self, r: Room, links: seq<Link>, now: int)
    requires Inv(g, r)
    ensures Leads(g, r, AdoptChain(g, r, links, now))
    ensures AdoptChain(g, r, links, now).log == r.log && AdoptChain(g, r, links, now).roster == r.roster
  {
    var k := CheckChain(g.crypto, r.identities, links, now);
    CheckChainKeeps(g.crypto, r.identities, links, now);
    if ChainAdopted(r, k.chain) { AdoptedLine(g.crypto, r.line, k.chain, now); }
  }

  lemma TakesOwnerLeads(g: Self, r: Room, ownerId: Id)
    requires Inv(g, r)
    ensures Leads(g, r, TakesOwner(r, ownerId))
  {
    if r.line.chain != [] { ChainNamesOwner(r.line); }
  }

  lemma ChainNamesOwner(line: OwnerLine)
    requires LineInv(line) && line.chain != []
    ensures line.ownerId != ""
  {
    var now: int :| WellOrdered(line.chain, now);
    WellOrderedAt(line.chain, now, |line.chain| - 1);
  }

  // ---- Bans ----

  lemma AdoptBanStateLeads(g: Self, r: Room, p: BanSnapshot)
    requires Inv(g, r)
    ensures Leads(g, r, AdoptBanState(g, r, p).room)
  {
    var s := AdoptBanState(g, r, p).room;
    if s != r {
      VerifiedBindKeeps(g.crypto, r.identities, p.ownerId, p.pub, p.sig,
        BansOf(r.topic, p.ownerId, p.revision, p.bans));
      BannedRoster(g, r.roster, p);
    }
  }

  lemma BannedRoster(g: Self, t: Roster, p: BanSnapshot)
    requires RosterInv(t)
    ensures RosterInv(Banned(g, t, p)) && RosterGrows(t, Banned(g, t, p))
  {}

  /** A snapshot that is taken up becomes the room's ban list, exactly, under the owner of
      the day, unless it is the very one already held; and its revision is a new one. */
  lemma AdoptedBansAreTheSnapshot(g: Self, r: Room, p: BanSnapshot)
    requires AdoptBanState(g, r, p).ok && (r.roster.banState == None || r.roster.banState.value.sig != p.sig)
    ensures var t := AdoptBanState(g, r, p).room.roster;
            t.bans == Elements(p.bans) && p.ownerId == r.line.ownerId && p.ownerId !in t.bans
            && t.banState == Some(p) && (g.id in t.bans ==> t.kicked)
    ensures r.roster.banState.Some? && r.roster.banState.value.ownerId == p.ownerId ==>
            p.revision > r.roster.banState.value.revision
  {
    SnapshotIsCanonical(p);
    assert r.roster.bans + Elements(p.bans) == Elements(p.bans);
  }

  // ---- Files ----

  lemma LogStays(l: FileLog, m: FileLog)
    requires LogInv(l) && m.tombs == l.tombs && m.revives == l.revives
    requires m.pendingTombs.Valid() && |m.pendingTombs.keys| <= PENDING_TOMB_LIMIT
    ensures LogInv(m) && LogGrows(l, m)
  {
    forall id ensures TombNewer(m, id) && Rank(l, id) <= Rank(m, id) { assert TombNewer(l, id); }
  }

  lemma DropShrinks(pending: Dict<Deletion>, fileId: Id)
    requires pending.Valid()
    ensures pending.Delete(fileId).Valid() && |pending.Delete(fileId).keys| <= |pending.keys|
  {
    DeleteValid(pending, fileId);
    WithoutNotLonger(pending.keys, fileId);
  }

  lemma StoreLeads(r: Room, o: Offer, now: int)
    requires LogInv(r.log)
    ensures LogInv(Store(r, o, now).log) && LogGrows(r.log, Store(r, o, now).log)
  {
    LogStays(r.log, Store(r, o, now).log);
  }

  lemma RevivedLogLeads(l: FileLog, fileId: Id, at: int)
    requires LogInv(l) && (fileId in l.tombs ==> l.tombs[fileId].deletion.at <= at)
    ensures LogInv(RevivedLog(l, fileId, at)) && LogGrows(l, RevivedLog(l, fileId, at))
  {
    var m := RevivedLog(l, fileId, at);
    DropShrinks(l.pendingTombs, fileId);
    forall id ensures TombNewer(m, id) && Rank(l, id) <= Rank(m, id) { assert TombNewer(l, id); }
  }

  lemma PromotedLeads(l: FileLog, fileId: Id, t: Tomb)
    requires LogInv(l) && (fileId in l.revives ==> l.revives[fileId] < t.deletion.at)
    requires t.deletion.at > 0 && (fileId in l.tombs ==> l.tombs[fileId].deletion.at <= t.deletion.at)
    ensures LogInv(Promoted(l, fileId, t)) && LogGrows(l, Promoted(l, fileId, t))
    ensures LogInv(Entombed(l, fileId, t)) && LogGrows(l, Entombed(l, fileId, t))
  {
    var m := Promoted(l, fileId, t);
    var n := Entombed(l, fileId, t);
    DropShrinks(l.pendingTombs, fileId);
    forall id ensures TombNewer(m, id) && Rank(l, id) <= Rank(m, id) && TombNewer(n, id) && Rank(l, id) <= Rank(n, id) {
      assert TombNewer(l, id);
    }
  }

  lemma PendedKeeps(pending: Dict<Deletion>, fileId: Id, d: Deletion)
    requires pending.Valid() && |pending.keys| <= PENDING_TOMB_LIMIT
    ensures Pended(pending, fileId, d).Valid() && |Pended(pending, fileId, d).keys| <= PENDING_TOMB_LIMIT
  {
    SetValid(pending, fileId, d);
    var next := pending.Set(fileId, d);
    DropShrinks(next, next.keys[0]);
    WithoutNotLonger(next.keys, next.keys[0]);
  }

  lemma AdoptFileLeads(g: Self, r: Room, o: Offer, now: int)
    requires Inv(g, r)
    ensures Leads(g, r, AdoptFile(g, r, o, now))
  {
    StoreLeads(r, o, now);
    if Standing(r, o).Some? { JudgedLeads(g, r, o, Standing(r, o).value, now); }
  }

  lemma JudgedLeads(g: Self, r: Room, o: Offer, d: Deletion, now: int)
    requires Inv(g, r) && Standing(r, o) == Some(d)
    ensures Leads(g, r, Judged(g, r, o, d, now))
  {
    if Revives(g, r, o, d, now) { RevivalLeads(g, r, o, d, now); }
    if o.fileId !in r.log.tombs { PendingLeads(g, r, o, d, now); }
  }

  lemma RevivalLeads(g: Self, r: Room, o: Offer, d: Deletion, now: int)
    requires Inv(g, r) && Standing(r, o) == Some(d) && Revives(g, r, o, d, now)
    ensures Leads(g, r, Store(Revived(r, o), o, now))
  {
    var v := o.revival.value;
    var s := Revived(r, o);
    VerifiedBindKeeps(g.crypto, r.identities, v.signer, v.pub, v.sig, RevivalOf(r.topic, o.fileId, v.at, v.signer));
    RevivedLogLeads(r.log, o.fileId, v.at);
    StoreLeads(s, o, now);
    LogGrowsTransitive(r.log, s.log, Store(s, o, now).log);
  }

  lemma PendingLeads(g: Self, r: Room, o: Offer, d: Deletion, now: int)
    requires Inv(g, r) && o.fileId !in r.log.tombs
    ensures Leads(g, r, PendingSettled(g, r, o, d, now))
  {
    var dropped := r.(log := Dropped(r.log, o.fileId));
    if CurrentDeletion(d.at, None, Get(r.log.revives, o.fileId), now) && DeletionVerifies(g, r, o.fileId, d) {
      VerifiedBindKeeps(g.crypto, r.identities, d.signer, d.pub, d.sig, DeletionOf(r.topic, o.fileId, d.signer, d.at));
      PromotedLeads(r.log, o.fileId, Tomb(d, r.topic));
    } else {
      DropShrinks(r.log.pendingTombs, o.fileId);
      LogStays(r.log, dropped.log);
      StoreLeads(dropped, o, now);
      LogGrowsTransitive(r.log, dropped.log, Store(dropped, o, now).log);
    }
  }

  lemma WaitsLeads(g: Self, r: Room, fileId: Id, d: Deletion)
    requires Inv(g, r)
    ensures Leads(g, r, Waits(r, fileId, d))
  {
    if Waits(r, fileId, d) != r {
      PendedKeeps(r.log.pendingTombs, fileId, d);
      LogStays(r.log, Waits(r, fileId, d).log);
    }
  }

  lemma TombSettledLeads(g: Self, r: Room, fileId: Id, d: Deletion, now: int)
    requires Inv(g, r) && !TombSuperseded(r, fileId, d)
    ensures Leads(g, r, TombSettled(g, r, fileId, d, now))
  {
    if DeletionVerifies(g, r, fileId, d) {
      VerifiedBindKeeps(g.crypto, r.identities, d.signer, d.pub, d.sig, DeletionOf(r.topic, fileId, d.signer, d.at));
      if CurrentDeletion(d.at, AddedAt(r, fileId), Get(r.log.revives, fileId), now) {
        PromotedLeads(r.log, fileId, Tomb(d, r.topic));
      }
    }
  }

  lemma AcceptTombLeads(g: Self, r: Room, fileId: Id, d: Deletion, now: int)
    requires Inv(g, r)
    ensures Leads(g, r, AcceptTomb(g, r, fileId, d, now))
  {
    LeadsItself(g, r);
    if AcceptTomb(g, r, fileId, d, now) != r {
      if CanDelete(r.line.ownerId, Author(r, fileId), d.signer) {
        TombSettledLeads(g, r, fileId, d, now);
      } else {
        WaitsLeads(g, r, fileId, d);
      }
    }
  }

  lemma {:induction false} AdoptFilesLeads(g: Self, r: Room, os: seq<Offer>, now: int)
    requires Inv(g, r)
    ensures Leads(g, r, AdoptFiles(g, r, os, now))
  {
    if os != [] {
      var s := AdoptFiles(g, r, os[..|os| - 1], now);
      AdoptFilesLeads(g, r, os[..|os| - 1], now);
      AdoptFileLeads(g, s, os[|os| - 1], now);
      OnwardTransitive(r, s, AdoptFiles(g, r, os, now));
    }
  }

  lemma {:induction false} AcceptTombsLeads(g: Self, r: Room, ds: seq<(Id, Deletion)>, now: int)
    requires Inv(g, r)
    ensures Leads(g, r, AcceptTombs(g, r, ds, now))
  {
    if ds != [] {
      var last := ds[|ds| - 1];
      var s := AcceptTombs(g, r, ds[..|ds| - 1], now);
      AcceptTombsLeads(g, r, ds[..|ds| - 1], now);
      AcceptTombLeads(g, s, last.0, last.1, now);
      OnwardTransitive(r, s, AcceptTombs(g, r, ds, now));
    }
  }

  // ---- Frames ----

  lemma OwnerLearnedLeads(g: Self, r: Room, links: seq<Link>, ownerId: Id, now: int)
    requires Inv(g, r)
    ensures Leads(g, r, OwnerLearned(g, r, links, ownerId, now))
  {
    var s := AdoptChain(g, r, links, now);
    AdoptChainLeads(g, r, links, now);
    TakesOwnerLeads(g, s, ownerId);
    OnwardTransitive(r, s, TakesOwner(s, ownerId));
  }

  lemma GateGreetLeads(g: Self, r: Room, f: Frame, h: Hello, now: int)
    requires Inv(g, r)
    ensures Leads(g, r, GateGreet(g, r, f, h, now).room)
  {
    var s := OwnerLearned(g, r, h.chain, h.ownerId, now);
    OwnerLearnedLeads(g, r, h.chain, h.ownerId, now);
    if h.banState.Some? && h.banState.value.ownerId == s.line.ownerId {
      AdoptBanStateLeads(g, s, h.banState.value);
      OnwardTransitive(r, s, AdoptBanState(g, s, h.banState.value).room);
    }
  }

  lemma GateTransferLeads(g: Self, r: Room, l: Link, banState: Option<BanSnapshot>)
    requires Inv(g, r)
    ensures Leads(g, r, GateTransfer(g, r, l, banState).room)
  {
    var r1 := TakesOwner(r, l.signer);
    TakesOwnerLeads(g, r, l.signer);
    if banState.Some? {
      AdoptBanStateLeads(g, r1, banState.value);
      OnwardTransitive(r, r1, AdoptBanState(g, r1, banState.value).room);
    }
  }

  lemma GateLeads(g: Self, r: Room, f: Frame, now: int)
    requires Inv(g, r)
    ensures Leads(g, r, Gate(g, r, f, now).room)
  {
    match f.body
    case Greet(h) => GateGreetLeads(g, r, f, h, now);
    case Transfer(l, b) => GateTransferLeads(g, r, l, b);
    case VoiceState(_, _, _, _, _) => assert Gate(g, r, f, now).room in {r, r.(voiceV2 := r.voiceV2 + {f.memberId})};
    case _ => assert Gate(g, r, f, now).room == r;
  }

  // A member is let in only when it is not banned.
  lemma TouchLeads(g: Self, r: Room, memberId: Id)
    requires Inv(g, r) && memberId !in r.roster.bans
    ensures Leads(g, r, Touch(r, memberId))
  {}

  lemma GreetedLeads(g: Self, r: Room, memberId: Id, pub: string)
    requires Inv(g, r) && memberId !in r.roster.bans && (pub != "" ==> g.crypto.memberIdOf(pub) == memberId)
    ensures Leads(g, r, Greeted(r, memberId, pub))
  {
    if pub != "" && memberId !in r.identities && |r.identities| < ROOM_IDENTITY_LIMIT {
      BindKeeps(g.crypto, r.identities, memberId, pub);
    }
  }

  lemma DispatchGreetLeads(g: Self, r: Room, f: Frame, h: Hello, now: int)
    requires Inv(g, r) && f.memberId !in r.roster.bans && (h.pub != "" ==> g.crypto.memberIdOf(h.pub) == f.memberId)
    ensures Leads(g, r, DispatchGreet(g, r, f, h, now))
  {
    if h.pageAccepted && HasRoom(r, f.memberId) {
      var met := Introduced(g, r, f, h, now);
      IntroducedLeads(g, r, f, h, now);
      ManifestLeads(g, met, h, now);
      OnwardTransitive(r, met, Manifest(g, met, h, now));
      AttestAllLeads(g, r, Manifest(g, met, h, now), h.edits);
    }
  }

  lemma IntroducedLeads(g: Self, r: Room, f: Frame, h: Hello, now: int)
    requires Inv(g, r) && f.memberId !in r.roster.bans && (h.pub != "" ==> g.crypto.memberIdOf(h.pub) == f.memberId)
    ensures Leads(g, r, Introduced(g, r, f, h, now))
  {
    var a := Greeted(r, f.memberId, h.pub);
    var b := OwnerLearned(g, a, h.chain, h.ownerId, now);
    GreetedLeads(g, r, f.memberId, h.pub);
    OwnerLearnedLeads(g, a, h.chain, h.ownerId, now);
    OnwardTransitive(r, a, b);
    if h.topicMsg.Some? { AttestedLeads(g, r, b, h.topicMsg.value); }
  }

  lemma ManifestLeads(g: Self, r: Room, h: Hello, now: int)
    requires Inv(g, r)
    ensures Leads(g, r, Manifest(g, r, h, now))
  {
    var s := AdoptFiles(g, r, h.files, now);
    AdoptFilesLeads(g, r, h.files, now);
    AcceptTombsLeads(g, s, h.tombSigs, now);
    OnwardTransitive(r, s, Manifest(g, r, h, now));
  }

  lemma DispatchRekeyLeads(g: Self, r: Room, signer: Id, newCode: string, kickedId: Id, pub: string, sig: string)
    requires Inv(g, r)
    ensures Leads(g, r, DispatchRekey(g, r, signer, newCode, kickedId, pub, sig))
  {
    var payload := RekeyOf(r.topic, newCode, kickedId, signer);
    if OwnerSpeaks(r, signer) && Verifies(g.crypto, r.identities, signer, pub, sig, payload) {
      var bound := Bounded(r, signer, pub);
      BoundedLeads(g, r, signer, pub, sig, RekeyOf(r.topic, newCode, kickedId, signer));
      OustedLeads(g, bound, kickedId, newCode);
      OnwardTransitive(r, bound, Rotate(g, bound.(roster := Ousted(bound.roster, kickedId)), newCode));
    }
  }

  lemma OustedLeads(g: Self, r: Room, memberId: Id, newCode: string)
    requires Inv(g, r)
    ensures Leads(g, r, Rotate(g, r.(roster := Ousted(r.roster, memberId)), newCode))
  {
    OustedRoster(r.roster, memberId);
    LogStays(r.log, r.log.(pendingTombs := Empty()));
  }

  lemma OustedRoster(t: Roster, memberId: Id)
    requires RosterInv(t)
    ensures RosterInv(Ousted(t, memberId)) && RosterGrows(t, Ousted(t, memberId))
  {}

  lemma AttestedLeads(g: Self, r: Room, s: Room, p: Proof)
    requires Leads(g, r, s)
    ensures Leads(g, r, Attested(g, s, p))
  {
    if Verifies(g.crypto, s.identities, p.signer, p.pub, p.sig, BodyOf(s.topic, p.text)) {
      BoundedLeads(g, s, p.signer, p.pub, p.sig, BodyOf(s.topic, p.text));
      OnwardTransitive(r, s, Attested(g, s, p));
    }
  }

  lemma {:induction false} AttestAllLeads(g: Self, r: Room, s: Room, ps: seq<Proof>)
    requires Leads(g, r, s)
    ensures Leads(g, r, AttestAll(g, s, ps))
  {
    if ps != [] {
      AttestAllLeads(g, r, s, ps[..|ps| - 1]);
      AttestedLeads(g, r, AttestAll(g, s, ps[..|ps| - 1]), ps[|ps| - 1]);
    }
  }

  lemma {:induction false} AttestLogLeads(g: Self, r: Room, ps: seq<Proof>)
    requires Inv(g, r)
    ensures Leads(g, r, AttestLog(g, r, ps))
  {
    if ps != [] {
      AttestLogLeads(g, r, ps[..|ps| - 1]);
      AttestedLeads(g, r, AttestLog(g, r, ps[..|ps| - 1]), ps[|ps| - 1]);
    }
  }

  lemma DispatchKickLeads(g: Self, r: Room, signer: Id, targetId: Id, pub: string, sig: string)
    requires Inv(g, r)
    ensures Leads(g, r, DispatchKick(g, r, signer, targetId, pub, sig))
  {
    if OwnerSpeaks(r, signer) && Verifies(g.crypto, r.identities, signer, pub, sig, KickOf(r.topic, targetId, signer)) {
      BoundedLeads(g, r, signer, pub, sig, KickOf(r.topic, targetId, signer));
    }
  }

  lemma DispatchProfileLeads(g: Self, r: Room, f: Frame, current: bool, pub: string, sig: string, text: string)
    requires Inv(g, r) && f.memberId !in r.roster.bans
    ensures Leads(g, r, DispatchProfile(g, r, f, current, pub, sig, text))
  {
    if current && Verifies(g.crypto, r.identities, f.memberId, pub, sig, BodyOf(r.topic, text)) {
      BoundedLeads(g, r, f.memberId, pub, sig, BodyOf(r.topic, text));
      TouchLeads(g, Bounded(r, f.memberId, pub), f.memberId);
    }
  }

  // What a frame that got through the gate may rely on: its sender is not banned, and a
  // key it carries is the sender's own.
  predicate Passed(g: Self, r: Room, f: Frame) {
    && (f.body.Greet? ==> f.body.hello.pub != "" ==> g.crypto.memberIdOf(f.body.hello.pub) == f.memberId)
    && (f.body.Greet? || f.body.Ping? || f.body.Profile? ==> f.memberId !in r.roster.bans)
  }

  lemma DispatchLeads(g: Self, r: Room, f: Frame, now: int)
    requires Inv(g, r) && Passed(g, r, f)
    ensures Leads(g, r, Dispatch(g, r, f, now))
  {
    match f.body
    case Greet(h) => DispatchGreetLeads(g, r, f, h, now);
    case Add(o) => AdoptFileLeads(g, r, o, now);
    case Del(fileId, at, pub, sig) => AcceptTombLeads(g, r, fileId, Deletion(at, f.memberId, pub, sig), now);
    case Transfer(l, _) => AdoptChainLeads(g, r, r.line.chain + [l], now);
    case Rekey(newCode, kickedId, pub, sig) => DispatchRekeyLeads(g, r, f.signer, newCode, kickedId, pub, sig);
    case _ => DispatchRestLeads(g, r, f, now);
  }

  lemma DispatchRestLeads(g: Self, r: Room, f: Frame, now: int)
    requires Inv(g, r) && Passed(g, r, f)
    requires !f.body.Greet? && !f.body.Add? && !f.body.Del? && !f.body.Transfer? && !f.body.Rekey?
    ensures Leads(g, r, Dispatch(g, r, f, now))
  {
    match f.body
    case Ping(_) => TouchLeads(g, r, f.memberId);
    case Bye =>
    case Presence =>
    case Kick(targetId, pub, sig) => DispatchKickLeads(g, r, f.signer, targetId, pub, sig);
    case Profile(current, pub, sig, text) => DispatchProfileLeads(g, r, f, current, pub, sig, text);
    case _ => SignedTextLeads(g, r, f, now);
  }

  function TextOf(f: Frame): Proof
    requires CarriesText(f.body) && !f.body.VoiceShare? && !f.body.ChatLog?
  {
    Proof(if f.body.OwnerText? then f.signer else f.memberId, f.body.pub, f.body.sig, f.body.text)
  }

  lemma SignedTextLeads(g: Self, r: Room, f: Frame, now: int)
    requires Inv(g, r) && CarriesText(f.body)
    ensures Leads(g, r, Dispatch(g, r, f, now))
  {
    LeadsItself(g, r);
    if f.body.ChatLog? {
      AttestLogLeads(g, r, f.body.msgs);
    } else if !f.body.VoiceShare? {
      AttestedLeads(g, r, r, TextOf(f));
      OneText(g, r, f, now);
    }
  }

  lemma OneText(g: Self, r: Room, f: Frame, now: int)
    requires CarriesText(f.body) && !f.body.VoiceShare? && !f.body.ChatLog?
    ensures Dispatch(g, r, f, now) == r || Dispatch(g, r, f, now) == Attested(g, r, TextOf(f))
  {}

  lemma GatePasses(g: Self, r: Room, f: Frame, now: int)
    requires Heard(g, r, f) && Gate(g, r, f, now).pass
    ensures Passed(g, Gate(g, r, f, now).room, f)
  {}

  /** Every frame keeps the invariant and takes nothing back. */
  lemma StepLeads(g: Self, r: Room, f: Frame, now: int)
    requires Inv(g, r)
    ensures Leads(g, r, Step(g, r, f, now))
  {
    if Heard(g, r, f) {
      var gated := Gate(g, r, f, now);
      GateLeads(g, r, f, now);
      if gated.pass {
        GatePasses(g, r, f, now);
        DispatchLeads(g, gated.room, f, now);
        OnwardTransitive(r, gated.room, Dispatch(g, gated.room, f, now));
      }
    }
  }
}
