/** The browser guest with its fields updated in place (guest/mesh.ts). Frames are processed
    one after the other, so each call takes the room from one state to the next; what the
    states are is in GuestState.dfy. */
module GuestRoom {
  import opened Ids
  import opened Numbers
  import opened Dicts
  import opened RoomAuthority
  import S = GuestState
  import opened GuestState
  import Gossip

  class Guest {
    const self: Self
    var identities: map<Id, string>
    var members: set<Id>
    var bans: set<Id>
    var banState: Option<BanSnapshot>
    var files: map<Id, FileRec>
    var tombs: map<Id, Tomb>
    var pendingTombs: Dict<Deletion>
    var revives: map<Id, int>
    var ownerId: Id
    var ownerPin: Id
    var transferChain: seq<Link>
    var transferAt: int
    var kicked: bool
    var code: string
    var topic: string
    var voiceV2: set<Id>
    var seen: set<Id>
    var seenOrder: seq<Id>

    function State(): Room
      reads this
    {
      Room(identities, Roster(members, bans, banState, kicked), FileLog(files, tombs, pendingTombs, revives),
           OwnerLine(ownerId, ownerPin, transferChain, transferAt), code, topic, voiceV2)
    }

    constructor (g: Self, pub: string, pin: Id, invite: string)
      ensures self == g && seen == {} && seenOrder == []
      ensures State() == Room(map[g.id := pub], Roster({}, {}, None, false), FileLog(map[], map[], Empty(), map[]),
                              OwnerLine("", pin, [], 0), invite, g.crypto.topicOf(invite), {})
    {
      self := g;
      identities, members, bans, banState := map[g.id := pub], {}, {}, None;
      files, tombs, pendingTombs, revives := map[], map[], Empty(), map[];
      ownerId, ownerPin, transferChain, transferAt := "", pin, [], 0;
      kicked, code, topic := false, invite, g.crypto.topicOf(invite);
      voiceV2, seen, seenOrder := {}, {}, [];
    }

    /** verify: check a signature and, when it is good, bind the key to its member. */
    method Verify(memberId: Id, pub: string, sig: string, payload: Payload) returns (ok: bool)
      modifies this`identities
      ensures ok == Verifies(self.crypto, old(identities), memberId, pub, sig, payload)
      ensures State() == if ok then Bounded(old(State()), memberId, pub) else old(State())
    {
      if memberId == "" || pub == "" || sig == "" { return false; }
      if self.crypto.memberIdOf(pub) != memberId { return false; }
      var bound := if memberId in identities then identities[memberId] else "";
      if bound != "" && bound != pub { return false; }
      if bound == "" && |identities| >= ROOM_IDENTITY_LIMIT { return false; }
      if !self.crypto.valid(pub, payload, sig) { return false; }
      if memberId !in identities { identities := identities[memberId := pub]; }
      ok := true;
    }

    /** adoptChain: keep the longest verified prefix, if it carries the held line on. */
    method AdoptChain(links: seq<Link>, now: int) returns (adopted: bool)
      modifies this`identities, this`transferChain, this`transferAt, this`ownerId
      ensures State() == S.AdoptChain(self, old(State()), links, now)
    {
      var chain := OrderedTransferPrefix(links, now);
      if chain == [] { return false; }
      var verified := VerifyLinks(chain);
      ghost var k := CheckChain(self.crypto, old(identities), links, now);
      assert k == Checked(verified, identities);
      if !Advances(OwnerLine(ownerId, ownerPin, transferChain, transferAt), verified) { return false; }
      var last := verified[|verified| - 1];
      if last.newOwnerId in bans { return false; }
      TakeChain(verified);
      adopted := true;
    }

    method TakeChain(chain: seq<Link>)
      requires chain != []
      modifies this`transferChain, this`transferAt, this`ownerId
      ensures State() == old(State()).(line := Adopt(old(State()).line, chain))
    {
      var last := chain[|chain| - 1];
      transferChain, transferAt := chain, last.at;
      ownerId := last.newOwnerId;
    }

    method VerifyLinks(chain: seq<Link>) returns (verified: seq<Link>)
      requires chain != []
      modifies this`identities
      ensures Checked(verified, identities) == CheckLinks(self.crypto, old(identities), chain[0].signer, chain, 0)
    {
      verified := [];
      for i := 0 to |chain|
        invariant verified == chain[..i]
        invariant CheckLinks(self.crypto, identities, chain[0].signer, chain, i)
                  == CheckLinks(self.crypto, old(identities), chain[0].signer, chain, 0)
      {
        var l := chain[i];
        var good := Verify(l.signer, l.pub, l.sig, LinkPayload(chain[0].signer, l));
        if !good { return; }
        verified := verified + [l];
      }
    }

    /** adoptBanState: take up a newer ban list of the current owner. */
    method AdoptBanState(p: BanSnapshot) returns (ok: bool)
      modifies this`identities, this`banState, this`bans, this`members, this`kicked
      ensures S.AdoptBanState(self, old(State()), p) == BanOutcome(State(), ok)
    {
      if !ValidBanSnapshot(p) { return false; }
      if !BanSnapshotAdvances(p, ownerId, banState, bans) { return false; }
      ok := Verify(p.ownerId, p.pub, p.sig, BansOf(topic, p.ownerId, p.revision, p.bans));
      if !ok { return; }
      if banState.Some? && banState.value.sig == p.sig { return true; }
      Ban(p);
    }

    method Ban(p: BanSnapshot)
      modifies this`banState, this`bans, this`members, this`kicked
      ensures State() == old(State()).(roster := Banned(self, old(State()).roster, p))
    {
      banState := Some(p);
      BanEach(p.bans);
      if self.id in bans { kicked := true; }
    }

    method BanEach(ids: seq<Id>)
      modifies this`bans, this`members
      ensures bans == old(bans) + Elements(ids) && members == old(members) - Elements(ids)
    {
      for i := 0 to |ids|
        invariant bans == old(bans) + Elements(ids[..i]) && members == old(members) - Elements(ids[..i])
      {
        assert Elements(ids[..i + 1]) == Elements(ids[..i]) + {ids[i]} by {
          assert ids[..i + 1] == ids[..i] + [ids[i]];
        }
        bans, members := bans + {ids[i]}, members - {ids[i]};
      }
      assert ids[..|ids|] == ids;
    }

    /** storeRoomManifestFile behind its guards: the first accepted author stays. */
    method StoreFile(o: Offer, now: int)
      modifies this`files
      ensures State() == Store(old(State()), o, now)
    {
      if o.fileId in files || |files| >= ROOM_FILE_LIMIT || !o.stores { return; }
      files := files[o.fileId := FileRec(o.addedBy, if o.addedAt < now then o.addedAt else now)];
    }

    /** adoptFile: list a file, lift its tombstone, or let a waiting deletion take effect. */
    method AdoptFile(o: Offer, now: int)
      modifies this`files, this`tombs, this`pendingTombs, this`revives, this`identities
      ensures State() == S.AdoptFile(self, old(State()), o, now)
    {
      if o.fileId !in files && (!o.fits || |files| >= ROOM_FILE_LIMIT) { return; }
      if !o.usable || o.addedBy in bans { return; }
      var tombed := o.fileId in tombs;
      var waits := o.fileId in pendingTombs.at && CanDelete(ownerId, Some(o.addedBy), pendingTombs.at[o.fileId].signer);
      if tombed {
        Judge(o, tombs[o.fileId].deletion, now);
      } else if waits {
        Judge(o, pendingTombs.at[o.fileId], now);
      } else {
        StoreFile(o, now);
      }
    }

    method Judge(o: Offer, d: Deletion, now: int)
      modifies this`files, this`tombs, this`pendingTombs, this`revives, this`identities
      ensures State() == Judged(self, old(State()), o, d, now)
    {
      if o.fileId !in revives && |revives| >= ROOM_FILE_LIMIT { return; }
      var revived := Revive(o, d, now);
      if !revived {
        if o.fileId in tombs { return; }
        var settled := SettlePending(o, d, now);
        if settled { return; }
      }
      StoreFile(o, now);
    }

    method Revive(o: Offer, d: Deletion, now: int) returns (ok: bool)
      modifies this`tombs, this`pendingTombs, this`revives, this`identities
      ensures ok == Revives(self, old(State()), o, d, now)
      ensures State() == if ok then Revived(old(State()), o) else old(State())
    {
      if o.revival == None { return false; }
      var v := o.revival.value;
      if !(d.at <= v.at <= now + CLOCK_SLACK) || v.signer == "" || v.pub == "" || v.sig == "" { return false; }
      if !CanRevive(ownerId, Some(d.signer), v.signer) { return false; }
      ok := Verify(v.signer, v.pub, v.sig, RevivalOf(topic, o.fileId, v.at, v.signer));
      if ok {
        LiftTomb(o.fileId, v.at);
      }
    }

    method LiftTomb(fileId: Id, at: int)
      modifies this`tombs, this`pendingTombs, this`revives
      ensures State() == old(State()).(log := RevivedLog(old(State()).log, fileId, at))
    {
      var held := if fileId in revives then revives[fileId] else 0;
      tombs, pendingTombs := tombs - {fileId}, pendingTombs.Delete(fileId);
      revives := revives[fileId := if held > at then held else at];
    }

    method DropPending(fileId: Id)
      modifies this`pendingTombs
      ensures State() == old(State()).(log := Dropped(old(State()).log, fileId))
    {
      pendingTombs := pendingTombs.Delete(fileId);
    }

    method SetTomb(fileId: Id, t: Tomb)
      modifies this`tombs
      ensures State() == old(State()).(log := old(State()).log.(tombs := old(State()).log.tombs[fileId := t]))
    {
      tombs := tombs[fileId := t];
    }

    method Entomb(fileId: Id, t: Tomb)
      modifies this`files, this`tombs, this`pendingTombs, this`revives
      ensures State() == old(State()).(log := Entombed(old(State()).log, fileId, t))
    {
      revives, pendingTombs := revives - {fileId}, pendingTombs.Delete(fileId);
      tombs, files := tombs[fileId := t], files - {fileId};
    }

    method SettlePending(o: Offer, d: Deletion, now: int) returns (ok: bool)
      modifies this`tombs, this`pendingTombs, this`identities
      ensures PendingSettled(self, old(State()), o, d, now) == if ok then State() else Store(State(), o, now)
    {
      DropPending(o.fileId);
      if !CurrentDeletion(d.at, None, Get(revives, o.fileId), now) { return false; }
      ok := Verify(d.signer, d.pub, d.sig, DeletionOf(topic, o.fileId, d.signer, d.at));
      if ok { SetTomb(o.fileId, Tomb(d, topic)); }
    }

    /** acceptTomb: a signed deletion takes effect, waits for its author, or is ignored. */
    method AcceptTomb(fileId: Id, d: Deletion, now: int)
      modifies this`files, this`tombs, this`pendingTombs, this`revives, this`identities
      ensures State() == S.AcceptTomb(self, old(State()), fileId, d, now)
    {
      if fileId !in tombs && |tombs| >= ROOM_FILE_LIMIT { return; }
      if !CurrentDeletion(d.at, None, Get(revives, fileId), now) { return; }
      if fileId in tombs && tombs[fileId].deletion.at > d.at { return; }
      if fileId in tombs && tombs[fileId].deletion.at == d.at && tombs[fileId].topic == topic { return; }
      var author := if fileId in files then Some(files[fileId].addedBy) else None;
      if !CanDelete(ownerId, author, d.signer) {
        LetWait(fileId, d);
      } else {
        SettleTomb(fileId, d, now);
      }
    }

    method LetWait(fileId: Id, d: Deletion)
      modifies this`pendingTombs
      ensures State() == Waits(old(State()), fileId, d)
    {
      if fileId in files || (fileId in pendingTombs.at && pendingTombs.at[fileId].at >= d.at) { return; }
      pendingTombs := pendingTombs.Set(fileId, d);
      if |pendingTombs.keys| > PENDING_TOMB_LIMIT { pendingTombs := pendingTombs.Delete(pendingTombs.keys[0]); }
    }

    method SettleTomb(fileId: Id, d: Deletion, now: int)
      modifies this`files, this`tombs, this`pendingTombs, this`revives, this`identities
      ensures State() == TombSettled(self, old(State()), fileId, d, now)
    {
      var ok := Verify(d.signer, d.pub, d.sig, DeletionOf(topic, fileId, d.signer, d.at));
      if !ok { return; }
      var addedAt := if fileId in files then Some(files[fileId].addedAt) else None;
      if !CurrentDeletion(d.at, addedAt, Get(revives, fileId), now) { return; }
      Entomb(fileId, Tomb(d, topic));
    }

    /** markSeen: remember an id, forgetting the oldest beyond the cap. */
    method MarkSeen(gid: Id)
      requires Gossip.SeenInv(seen, seenOrder)
      modifies this`seen, this`seenOrder
      ensures Gossip.SeenInv(seen, seenOrder) && seenOrder == Gossip.Marked(old(seenOrder), gid)
    {
      assert gid in seenOrder <==> gid in Elements(seenOrder);
      if gid in seen { return; }
      Gossip.MarkedKeeps(seenOrder, gid);
      AppendDistinct(seenOrder, gid);
      seen, seenOrder := seen + {gid}, seenOrder + [gid];
      while |seenOrder| > Gossip.SEEN_CAP
        invariant Distinct(seenOrder) && Elements(seenOrder) == seen
        invariant seenOrder == old(seenOrder) + [gid] || seenOrder == Gossip.Marked(old(seenOrder), gid)
        decreases |seenOrder|
      {
        ElementsFirst(seenOrder);
        var oldest := seenOrder[0];
        assert oldest !in Elements(seenOrder[1..]);
        seenOrder := seenOrder[1..];
        seen := seen - {oldest};
      }
    }

    // ---- processFrame ----

    method LearnOwner(links: seq<Link>, owner: Id, now: int)
      modifies this`identities, this`transferChain, this`transferAt, this`ownerId
      ensures State() == OwnerLearned(self, old(State()), links, owner, now)
    {
      var _ := AdoptChain(links, now);
      TakeOwner(owner);
    }

    method TakeOwner(owner: Id)
      modifies this`ownerId
      ensures State() == TakesOwner(old(State()), owner)
    {
      if owner != "" && ownerId == "" && (ownerPin == "" || owner == ownerPin) { ownerId := owner; }
    }

    /** The part of processFrame that runs before a frame is marked and passed on. */
    method PassGate(f: Frame, now: int) returns (pass: bool)
      modifies this`identities, this`transferChain, this`transferAt, this`ownerId
      modifies this`banState, this`bans, this`members, this`kicked, this`voiceV2
      ensures Gate(self, old(State()), f, now) == Gated(State(), pass)
    {
      if f.body.Greet? {
        pass := PassGreet(f, f.body.hello, now);
      } else if f.body.Transfer? {
        pass := PassTransfer(f.body.link, f.body.banState);
      } else if f.body.VoiceState? {
        pass := PassVoice(f.memberId, f.body.at, f.body.v2, now);
      } else {
        pass := MayPass(f, now);
      }
    }

    method MayPass(f: Frame, now: int) returns (pass: bool)
      requires !f.body.Greet? && !f.body.Transfer? && !f.body.VoiceState?
      ensures Gate(self, State(), f, now) == Gated(State(), pass)
    {
      match f.body {
        case Ping(_) => pass := f.memberId in members || |members| < ROOM_MEMBER_LIMIT;
        case Bye => pass := f.memberId in members;
        case Presence => pass := f.memberId in members;
        case VoiceSignal(_, _, _, _) => pass := f.memberId in members;
        case VoiceShare(at) => pass := f.memberId in members && at <= now + CLOCK_SLACK;
        case OwnerText(_, _, _, _) => pass := ownerId != "" && f.signer == ownerId;
        case Kick(_, _, _) => pass := ownerId != "" && f.signer == ownerId;
        case Rekey(_, _, _, _) => pass := ownerId != "" && f.signer == ownerId;
        case Del(fileId, _, _, _) =>
          pass := fileId !in files || CanDelete(ownerId, Some(files[fileId].addedBy), f.memberId);
        case Add(_) => pass := true;
        case Profile(_, _, _, _) => pass := true;
        case Signed(_, _, _) => pass := true;
        case ChatLog(_) => pass := true;
      }
    }

    method PassVoice(memberId: Id, at: int, v2: bool, now: int) returns (pass: bool)
      modifies this`voiceV2
      ensures GateVoice(old(State()), memberId, at, v2, now) == Gated(State(), pass)
    {
      if memberId !in members || at > now + CLOCK_SLACK { return false; }
      if memberId in voiceV2 && !v2 { return false; }
      if v2 { voiceV2 := voiceV2 + {memberId}; }
      pass := true;
    }

    method PassGreet(f: Frame, h: Hello, now: int) returns (pass: bool)
      modifies this`identities, this`transferChain, this`transferAt, this`ownerId
      modifies this`banState, this`bans, this`members, this`kicked
      ensures GateGreet(self, old(State()), f, h, now) == Gated(State(), pass)
    {
      if !ChainsCompatible(transferChain, h.chain) { return false; }
      LearnOwner(h.chain, h.ownerId, now);
      LearnBans(h.banState);
      pass := !kicked && f.memberId !in bans && (f.memberId in members || |members| < ROOM_MEMBER_LIMIT);
    }

    method LearnBans(proof: Option<BanSnapshot>)
      modifies this`identities, this`banState, this`bans, this`members, this`kicked
      ensures State() == BansLearned(self, old(State()), proof)
    {
      if proof.Some? && proof.value.ownerId == ownerId { var _ := AdoptBanState(proof.value); }
    }

    method PassTransfer(l: Link, proof: Option<BanSnapshot>) returns (pass: bool)
      modifies this`identities, this`transferChain, this`transferAt, this`ownerId
      modifies this`banState, this`bans, this`members, this`kicked
      ensures GateTransfer(self, old(State()), l, proof) == Gated(State(), pass)
    {
      TakeOwner(l.signer);
      if ownerId != "" && l.signer != ownerId { return false; }
      if proof.Some? {
        if proof.value.ownerId != l.signer || l.newOwnerId in proof.value.bans { return false; }
        var ok := AdoptBanState(proof.value);
        if !ok { return false; }
      }
      pass := !kicked;
    }

    method Welcome(f: Frame, h: Hello, now: int)
      modifies this`identities, this`members, this`transferChain, this`transferAt, this`ownerId
      modifies this`files, this`tombs, this`pendingTombs, this`revives
      ensures State() == DispatchGreet(self, old(State()), f, h, now)
    {
      if h.pageAccepted && (f.memberId in members || |members| < ROOM_MEMBER_LIMIT) {
        Introduce(f, h, now);
        ReadManifest(h, now);
        CheckAll(h.edits);
      }
    }

    method Introduce(f: Frame, h: Hello, now: int)
      modifies this`identities, this`members, this`transferChain, this`transferAt, this`ownerId
      ensures State() == Introduced(self, old(State()), f, h, now)
    {
      Greet(f.memberId, h.pub);
      LearnOwner(h.chain, h.ownerId, now);
      if h.topicMsg.Some? { CheckOwners(h.topicMsg.value); }
    }

    method Greet(memberId: Id, pub: string)
      modifies this`identities, this`members
      ensures State() == Greeted(old(State()), memberId, pub)
    {
      if pub != "" && memberId !in identities && |identities| < ROOM_IDENTITY_LIMIT {
        identities := identities[memberId := pub];
      }
      Meet(memberId);
    }

    method Meet(memberId: Id)
      modifies this`members
      ensures State() == Touch(old(State()), memberId)
    {
      members := members + {memberId};
    }

    method ReadManifest(h: Hello, now: int)
      modifies this`files, this`tombs, this`pendingTombs, this`revives, this`identities
      ensures State() == Manifest(self, old(State()), h, now)
    {
      ReadFiles(h.files, now);
      ReadTombs(h.tombSigs, now);
    }

    method ReadFiles(os: seq<Offer>, now: int)
      modifies this`files, this`tombs, this`pendingTombs, this`revives, this`identities
      ensures State() == AdoptFiles(self, old(State()), os, now)
    {
      for i := 0 to |os|
        invariant State() == AdoptFiles(self, old(State()), os[..i], now)
      {
        assert os[..i + 1][..i] == os[..i];
        AdoptFile(os[i], now);
      }
      assert os[..|os|] == os;
    }

    method ReadTombs(ds: seq<(Id, Deletion)>, now: int)
      modifies this`files, this`tombs, this`pendingTombs, this`revives, this`identities
      ensures State() == AcceptTombs(self, old(State()), ds, now)
    {
      for i := 0 to |ds|
        invariant State() == AcceptTombs(self, old(State()), ds[..i], now)
      {
        assert ds[..i + 1][..i] == ds[..i];
        AcceptTomb(ds[i].0, ds[i].1, now);
      }
      assert ds[..|ds|] == ds;
    }

    method BeRekeyed(signer: Id, newCode: string, kickedId: Id, pub: string, sig: string)
      modifies this`identities, this`kicked, this`bans, this`members, this`pendingTombs, this`banState, this`code
      modifies this`topic
      ensures State() == DispatchRekey(self, old(State()), signer, newCode, kickedId, pub, sig)
    {
      if ownerId == "" || signer != ownerId { return; }
      var ok := Verify(signer, pub, sig, RekeyOf(topic, newCode, kickedId, signer));
      if !ok { return; }
      if kickedId == self.id {
        GoOut();
      } else {
        Oust(kickedId);
        RotateKey(newCode);
      }
    }

    method GoOut()
      modifies this`kicked
      ensures State() == Evicted(old(State()))
    {
      kicked := true;
    }

    method Oust(memberId: Id)
      modifies this`bans, this`members
      ensures State() == old(State()).(roster := Ousted(old(State()).roster, memberId))
    {
      bans, members := bans + {memberId}, members - {memberId};
    }

    method RotateKey(newCode: string)
      modifies this`pendingTombs, this`banState, this`code, this`topic
      ensures State() == Rotate(self, old(State()), newCode)
    {
      if newCode == code { return; }
      pendingTombs, banState := Empty(), None;
      code, topic := newCode, self.crypto.topicOf(newCode);
    }

    method BeKicked(signer: Id, targetId: Id, pub: string, sig: string)
      modifies this`identities, this`kicked
      ensures State() == DispatchKick(self, old(State()), signer, targetId, pub, sig)
    {
      if targetId != self.id || ownerId == "" || signer != ownerId { return; }
      var ok := Verify(signer, pub, sig, KickOf(topic, targetId, signer));
      if ok { GoOut(); }
    }

    method TakeProfile(f: Frame, current: bool, pub: string, sig: string, text: string)
      modifies this`identities, this`members
      ensures State() == DispatchProfile(self, old(State()), f, current, pub, sig, text)
    {
      if !current { return; }
      var ok := Verify(f.memberId, pub, sig, BodyOf(topic, text));
      if ok { Meet(f.memberId); }
    }

    method CheckText(p: Proof)
      modifies this`identities
      ensures State() == Attested(self, old(State()), p)
    {
      var _ := Verify(p.signer, p.pub, p.sig, BodyOf(topic, p.text));
    }

    method CheckOwners(p: Proof)
      modifies this`identities
      ensures State() == OwnersWord(self, old(State()), p)
    {
      if ownerId != "" && p.signer == ownerId { CheckText(p); }
    }

    method CheckAll(ps: seq<Proof>)
      modifies this`identities
      ensures State() == AttestAll(self, old(State()), ps)
    {
      for i := 0 to |ps|
        invariant State() == AttestAll(self, old(State()), ps[..i])
      {
        assert ps[..i + 1][..i] == ps[..i];
        CheckText(ps[i]);
      }
      assert ps[..|ps|] == ps;
    }

    method CheckLog(ps: seq<Proof>)
      modifies this`identities
      ensures State() == AttestLog(self, old(State()), ps)
    {
      for i := 0 to |ps|
        invariant State() == AttestLog(self, old(State()), ps[..i]) && bans == old(bans)
      {
        assert ps[..i + 1][..i] == ps[..i];
        if ps[i].signer !in bans { CheckText(ps[i]); }
      }
      assert ps[..|ps|] == ps;
    }

    /** The switch of processFrame. */
    method Handle(f: Frame, now: int)
      modifies this`identities, this`transferChain, this`transferAt, this`ownerId
      modifies this`banState, this`bans, this`members, this`kicked, this`code, this`topic
      modifies this`files, this`tombs, this`pendingTombs, this`revives
      ensures State() == Dispatch(self, old(State()), f, now)
    {
      if f.body.Greet? { Welcome(f, f.body.hello, now); }
      else if f.body.Rekey? { BeRekeyed(f.signer, f.body.newCode, f.body.kickedId, f.body.pub, f.body.sig); }
      else if f.body.Add? { HandleAdd(f, now); }
      else if f.body.Del? { HandleDel(f, now); }
      else if CarriesText(f.body) { HandleText(f, now); }
      else { HandleRest(f, now); }
    }

    method HandleAdd(f: Frame, now: int)
      requires f.body.Add?
      modifies this`files, this`tombs, this`pendingTombs, this`revives, this`identities
      ensures State() == Dispatch(self, old(State()), f, now)
    {
      AdoptFile(f.body.offer, now);
    }

    method HandleDel(f: Frame, now: int)
      requires f.body.Del?
      modifies this`files, this`tombs, this`pendingTombs, this`revives, this`identities
      ensures State() == Dispatch(self, old(State()), f, now)
    {
      AcceptTomb(f.body.fileId, Deletion(f.body.at, f.memberId, f.body.pub, f.body.sig), now);
    }

    method HandleRest(f: Frame, now: int)
      requires !f.body.Greet? && !f.body.Add? && !f.body.Del? && !f.body.Rekey? && !CarriesText(f.body)
      modifies this`identities, this`members, this`kicked, this`transferChain, this`transferAt, this`ownerId
      ensures State() == Dispatch(self, old(State()), f, now)
    {
      match f.body {
        case Ping(_) => if f.memberId in members || |members| < ROOM_MEMBER_LIMIT { Meet(f.memberId); }
        case Bye => Part(f.memberId);
        case Presence =>
        case Transfer(l, _) => var _ := AdoptChain(transferChain + [l], now);
        case Kick(targetId, pub, sig) => BeKicked(f.signer, targetId, pub, sig);
        case Profile(current, pub, sig, text) => TakeProfile(f, current, pub, sig, text);
      }
    }

    method HandleText(f: Frame, now: int)
      requires CarriesText(f.body)
      modifies this`identities
      ensures State() == Dispatch(self, old(State()), f, now)
    {
      if f.body.ChatLog? {
        CheckLog(f.body.msgs);
      } else if f.body.OwnerText? {
        if f.body.current { CheckOwners(Proof(f.signer, f.body.pub, f.body.sig, f.body.text)); }
      } else if !f.body.VoiceShare? && (f.body.VoiceSignal? ==> f.body.to == self.id) {
        CheckText(Proof(f.memberId, f.body.pub, f.body.sig, f.body.text));
      }
    }

    method Part(memberId: Id)
      modifies this`members
      ensures State() == Left(old(State()), memberId)
    {
      members := members - {memberId};
    }

    /** processFrame: `gid` is the frame's gossip id, empty when it is not relayed. The frame
        is to be forwarded when `passedOn`, which happens only while the id is unseen. */
    method ProcessFrame(f: Frame, gid: Id, now: int) returns (passedOn: bool)
      requires Gossip.SeenInv(seen, seenOrder)
      modifies this
      ensures Gossip.SeenInv(seen, seenOrder)
      ensures gid != "" && gid in old(seen) ==> State() == old(State()) && seenOrder == old(seenOrder) && !passedOn
      ensures !(gid != "" && gid in old(seen)) ==> State() == S.Step(self, old(State()), f, now)
      ensures seenOrder == if passedOn then Gossip.Marked(old(seenOrder), gid) else old(seenOrder)
      ensures passedOn == (gid != "" && gid !in old(seen) && Heard(self, old(State()), f)
              && Gate(self, old(State()), f, now).pass)
    {
      if kicked || (gid != "" && gid in seen) || !Heard(self, State(), f) { return false; }
      passedOn := Process(f, gid, now);
    }

    method Process(f: Frame, gid: Id, now: int) returns (passedOn: bool)
      requires Gossip.SeenInv(seen, seenOrder) && Heard(self, State(), f)
      modifies this
      ensures Gossip.SeenInv(seen, seenOrder) && State() == S.Step(self, old(State()), f, now)
      ensures seenOrder == if passedOn then Gossip.Marked(old(seenOrder), gid) else old(seenOrder)
      ensures passedOn == (gid != "" && Gate(self, old(State()), f, now).pass)
    {
      StepWhenHeard(self, State(), f, now);
      var pass := PassGate(f, now);
      passedOn := pass && gid != "";
      if passedOn { MarkSeen(gid); }
      if pass { Handle(f, now); }
    }
  }
}
