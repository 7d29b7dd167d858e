/** The statements about whole runs of a browser guest, and where the state is not what
    its comments promise. */
module GuestTheorems {
  import opened Ids
  import opened Numbers
  import opened Dicts
  import opened RoomAuthority
  import opened GuestState
  import opened GuestSafety

  // The state after joining with an invite that names ownerPin (or "").
  function Joined(g: Self, pub: string, ownerPin: Id, code: string): Room {
    Room(map[g.id := pub], Roster({}, {}, None, false), FileLog(map[], map[], Empty(), map[]),
         OwnerLine("", ownerPin, [], 0), code, g.crypto.topicOf(code), {})
  }

  lemma JoinedInv(g: Self, pub: string, ownerPin: Id, code: string)
    requires pub != "" && g.crypto.memberIdOf(pub) == g.id
    ensures Inv(g, Joined(g, pub, ownerPin, code))
  {
    assert WellOrdered([], 0);
    assert |map[g.id := pub]| == 1;
  }

  lemma {:induction false} RunLeads(g: Self, r: Room, fs: seq<(Frame, int)>)
    requires Inv(g, r)
    ensures Leads(g, r, Run(g, r, fs))
  {
    if fs != [] {
      var n := |fs| - 1;
      var s := Run(g, r, fs[..n]);
      RunLeads(g, r, fs[..n]);
      StepLeads(g, s, fs[n].0, fs[n].1);
      OnwardTransitive(r, s, Run(g, r, fs));
    }
  }

  /** From joining on, whatever frames come in, every state satisfies the invariant. */
  lemma JoinedRunKeepsInv(g: Self, pub: string, ownerPin: Id, code: string, fs: seq<(Frame, int)>)
    requires pub != "" && g.crypto.memberIdOf(pub) == g.id
    ensures Inv(g, Run(g, Joined(g, pub, ownerPin, code), fs))
  {
    JoinedInv(g, pub, ownerPin, code);
    RunLeads(g, Joined(g, pub, ownerPin, code), fs);
  }

  /** Bans only grow, nobody banned is a member, and a kicked guest stays exactly as it was. */
  lemma RosterForGood(g: Self, r: Room, fs: seq<(Frame, int)>)
    requires Inv(g, r)
    ensures var s := Run(g, r, fs); r.roster.bans <= s.roster.bans && s.roster.members !! s.roster.bans
    ensures r.roster.kicked ==> Run(g, r, fs) == r
  {
    RunLeads(g, r, fs);
    if r.roster.kicked { KickedFreezes(g, r, fs); }
  }

  lemma {:induction false} KickedFreezes(g: Self, r: Room, fs: seq<(Frame, int)>)
    requires r.roster.kicked
    ensures Run(g, r, fs) == r
  {
    if fs != [] { KickedFreezes(g, r, fs[..|fs| - 1]); }
  }

  /** A member id answers to one key for as long as the guest runs, and it is its own key. */
  lemma BindingsForGood(g: Self, r: Room, fs: seq<(Frame, int)>, memberId: Id)
    requires Inv(g, r) && memberId in r.identities
    ensures var ids := Run(g, r, fs).identities;
            memberId in ids && ids[memberId] == r.identities[memberId] && g.crypto.memberIdOf(ids[memberId]) == memberId
  {
    RunLeads(g, r, fs);
  }

  /** A member that has once announced its voice state as v2 is never taken back: for the rest
      of the run an announcement without the newer signature changes nothing and stops here. */
  lemma VoiceStaysV2(g: Self, r: Room, fs: seq<(Frame, int)>, f: Frame, now: int)
    requires Inv(g, r) && f.memberId in r.voiceV2 && f.body.VoiceState? && !f.body.v2
    ensures var s := Run(g, r, fs); !Gate(g, s, f, now).pass && Step(g, s, f, now) == s
  {
    RunLeads(g, r, fs);
    OlderStateStops(g, Run(g, r, fs), f, now);
  }

  lemma OlderStateStops(g: Self, r: Room, f: Frame, now: int)
    requires f.memberId in r.voiceV2 && f.body.VoiceState? && !f.body.v2
    ensures !Gate(g, r, f, now).pass && Step(g, r, f, now) == r
  {}

  // ---- The owner line ----

  /** Every link held is kept: the line at any later time continues the line now, through
      the pin, and its links are signed by the members they name. */
  lemma LineForGood(g: Self, r: Room, fs: seq<(Frame, int)>)
    requires Inv(g, r)
    ensures var a, b := r.line, Run(g, r, fs).line;
            && ChainsCompatible(a.chain, b.chain) && |a.chain| <= |b.chain| <= ROOM_TRANSFER_LIMIT
            && (|a.chain| == |b.chain| ==> a.chain == b.chain)
            && Ordered(b.chain) && PinHolds(a.ownerPin, b.chain) && ChainSigned(g.crypto, b.chain)
  {
    RunLeads(g, r, fs);
  }

  // In how many steps of the run a new chain was taken up.
  function Adoptions(g: Self, r: Room, fs: seq<(Frame, int)>): nat {
    if fs == [] then 0 else
      var n := |fs| - 1;
      Adoptions(g, r, fs[..n]) + if Run(g, r, fs).line.chain != Run(g, r, fs[..n]).line.chain then 1 else 0
  }

  /** However long the run, at most eight frames ever change the chain. */
  lemma AtMostEightAdoptions(g: Self, r: Room, fs: seq<(Frame, int)>)
    requires Inv(g, r)
    ensures Adoptions(g, r, fs) <= ROOM_TRANSFER_LIMIT - |r.line.chain|
  {
    AdoptionsLengthen(g, r, fs);
    RunLeads(g, r, fs);
  }

  lemma {:induction false} AdoptionsLengthen(g: Self, r: Room, fs: seq<(Frame, int)>)
    requires Inv(g, r)
    ensures |r.line.chain| + Adoptions(g, r, fs) <= |Run(g, r, fs).line.chain|
  {
    if fs != [] {
      var n := |fs| - 1;
      AdoptionsLengthen(g, r, fs[..n]);
      RunLeads(g, r, fs[..n]);
      StepLeads(g, Run(g, r, fs[..n]), fs[n].0, fs[n].1);
    }
  }

  // No member signs two different handovers of the room that starts at root.
  ghost predicate SignsOnce(c: Crypto, root: Id, handover: Id -> (Id, int)) {
    forall l: Link :: LinkSigned(c, root, l) ==> handover(l.signer) == (l.newOwnerId, l.at)
  }

  /** Where no member equivocates, two guests that hold lines from one root agree on them as
      far as both reach, whatever frames each has seen. */
  lemma LinesNeverFork(c: Crypto, g: Self, r: Room, fs: seq<(Frame, int)>, g': Self, r': Room, fs': seq<(Frame, int)>,
                       handover: Id -> (Id, int))
    requires g.crypto == c && g'.crypto == c && Inv(g, r) && Inv(g', r')
    requires var a, b := Run(g, r, fs).line.chain, Run(g', r', fs').line.chain;
             a != [] && b != [] && a[0].signer == b[0].signer && SignsOnce(c, a[0].signer, handover)
    ensures var a, b := Run(g, r, fs).line.chain, Run(g', r', fs').line.chain;
            ChainsCompatible(a, b)
  {
    RunLeads(g, r, fs);
    RunLeads(g', r', fs');
    var a, b := Run(g, r, fs).line.chain, Run(g', r', fs').line.chain;
    var now: int :| WellOrdered(a, now);
    var later: int :| WellOrdered(b, later);
    SameRootSameLine(a, b, now, later, handover);
  }

  // ---- Deletions and revivals ----

  /** A deletion is never forgotten: from its tombstone on there is always a tombstone or a
      revival at least as new. */
  lemma DeletionNeverForgotten(g: Self, r: Room, fs: seq<(Frame, int)>, id: Id)
    requires Inv(g, r) && id in r.log.tombs
    ensures var l := Run(g, r, fs).log; var t := r.log.tombs[id].deletion.at;
            (id in l.tombs && l.tombs[id].deletion.at >= t) || (id in l.revives && l.revives[id] >= t)
  {
    RunLeads(g, r, fs);
    assert TombNewer(r.log, id);
    assert Rank(r.log, id) <= Rank(Run(g, r, fs).log, id);
  }

  /** After a revival at v, no tombstone the guest ever holds is from v or before. */
  lemma RevivalOutranksOlderDeletions(g: Self, r: Room, fs: seq<(Frame, int)>, id: Id)
    requires Inv(g, r) && id in r.log.revives
    ensures var l := Run(g, r, fs).log; id in l.tombs ==> l.tombs[id].deletion.at > r.log.revives[id]
  {
    RunLeads(g, r, fs);
    RankOrders(r.log, Run(g, r, fs).log, id);
  }

  lemma RankOrders(l: FileLog, m: FileLog, id: Id)
    requires LogGrows(l, m) && LogInv(m) && id in l.revives
    ensures id in m.tombs ==> m.tombs[id].deletion.at > l.revives[id]
  {
    assert Rank(l, id) <= Rank(m, id) && TombNewer(m, id);
  }

  /** A tombstone is lifted by exactly one thing: an offer the guest has room for, with a revival
      signed with an accepted key by the owner or the deleter, no older than the deletion. */
  lemma LiftedIff(g: Self, r: Room, o: Offer, now: int)
    requires o.fileId in r.log.tombs
    ensures o.fileId !in AdoptFile(g, r, o, now).log.tombs <==>
            && (o.fileId in r.log.files || (o.fits && |r.log.files| < ROOM_FILE_LIMIT))
            && o.usable && o.addedBy !in r.roster.bans
            && (o.fileId in r.log.revives || |r.log.revives| < ROOM_FILE_LIMIT)
            && RevivalSigned(g.crypto, r.line.ownerId, r.topic, r.log.tombs[o.fileId].deletion, o, now)
            && RevivalKeyed(r, o)
  {
    RevivesIff(g, r, o, r.log.tombs[o.fileId].deletion, now);
  }

  // The revival is signed at all, and with the key the guest knows its signer by, or has room for.
  predicate RevivalKeyed(r: Room, o: Offer)
    requires o.revival.Some?
  {
    var v := o.revival.value;
    v.pub != "" && v.sig != ""
    && if v.signer in r.identities && r.identities[v.signer] != "" then r.identities[v.signer] == v.pub
       else |r.identities| < 2048
  }

  lemma RevivesIff(g: Self, r: Room, o: Offer, d: Deletion, now: int)
    ensures Revives(g, r, o, d, now) <==>
            RevivalSigned(g.crypto, r.line.ownerId, r.topic, d, o, now) && RevivalKeyed(r, o)
  {}

  function Offers(f: Frame): seq<Offer> {
    match f.body
    case Add(o) => [o]
    case Greet(h) => h.files
    case _ => []
  }

  predicate RevivalSigned(c: Crypto, owner: Id, topic: string, d: Deletion, o: Offer, now: int) {
    && o.revival.Some?
    && var v := o.revival.value;
       d.at <= v.at <= now + CLOCK_SLACK && v.signer != "" && (v.signer == owner || v.signer == d.signer)
       && c.memberIdOf(v.pub) == v.signer && c.valid(v.pub, RevivalOf(topic, o.fileId, v.at, v.signer), v.sig)
  }

  ghost predicate HasRevival(c: Crypto, owner: Id, topic: string, d: Deletion, os: seq<Offer>, id: Id, now: int) {
    exists o | o in os :: o.fileId == id && RevivalSigned(c, owner, topic, d, o, now)
  }

  lemma AdoptFileLocal(g: Self, r: Room, o: Offer, now: int, id: Id)
    requires id in r.log.tombs && id != o.fileId
    ensures var l := AdoptFile(g, r, o, now).log; id in l.tombs && l.tombs[id] == r.log.tombs[id]
  {
    if Standing(r, o).Some? { JudgedLocal(g, r, o, Standing(r, o).value, now, id); }
  }

  lemma JudgedLocal(g: Self, r: Room, o: Offer, d: Deletion, now: int, id: Id)
    requires id in r.log.tombs && id != o.fileId
    ensures var l := Judged(g, r, o, d, now).log; id in l.tombs && l.tombs[id] == r.log.tombs[id]
  {}

  lemma AdoptFileKeepsTomb(g: Self, r: Room, o: Offer, now: int)
    requires o.fileId in r.log.tombs && !Revives(g, r, o, r.log.tombs[o.fileId].deletion, now)
    ensures AdoptFile(g, r, o, now).log.tombs == r.log.tombs
  {}

  lemma AdoptFileTomb(g: Self, r: Room, o: Offer, now: int, id: Id)
    requires id in r.log.tombs
    ensures var l := AdoptFile(g, r, o, now).log;
            || (id in l.tombs && l.tombs[id] == r.log.tombs[id])
            || (o.fileId == id && RevivalSigned(g.crypto, r.line.ownerId, r.topic, r.log.tombs[id].deletion, o, now))
  {
    if o.fileId != id { AdoptFileLocal(g, r, o, now, id); }
    else if !Revives(g, r, o, r.log.tombs[id].deletion, now) { AdoptFileKeepsTomb(g, r, o, now); }
    else { RevivesMeans(g, r, o, r.log.tombs[id].deletion, now); }
  }

  lemma RevivesMeans(g: Self, r: Room, o: Offer, d: Deletion, now: int)
    requires Revives(g, r, o, d, now)
    ensures RevivalSigned(g.crypto, r.line.ownerId, r.topic, d, o, now)
  {}

  lemma {:induction false} AdoptFilesTomb(g: Self, r: Room, os: seq<Offer>, now: int, id: Id)
    requires id in r.log.tombs
    ensures var s := AdoptFiles(g, r, os, now);
            && s.line == r.line && s.topic == r.topic
            && ((id in s.log.tombs && s.log.tombs[id] == r.log.tombs[id])
                || HasRevival(g.crypto, r.line.ownerId, r.topic, r.log.tombs[id].deletion, os, id, now))
  {
    if os != [] {
      var n := |os| - 1;
      var p := AdoptFiles(g, r, os[..n], now);
      AdoptFilesTomb(g, r, os[..n], now, id);
      FilesKeepKey(g, p, os[n], now);
      if id in p.log.tombs && p.log.tombs[id] == r.log.tombs[id] {
        AdoptFileTomb(g, p, os[n], now, id);
      }
    }
  }

  lemma FilesKeepKey(g: Self, r: Room, o: Offer, now: int)
    ensures AdoptFile(g, r, o, now).line == r.line && AdoptFile(g, r, o, now).topic == r.topic
  {}

  lemma {:induction false} AcceptTombsKeep(g: Self, r: Room, ds: seq<(Id, Deletion)>, now: int, id: Id)
    requires id in r.log.tombs
    ensures id in AcceptTombs(g, r, ds, now).log.tombs
    ensures AcceptTombs(g, r, ds, now).line == r.line
  {
    if ds != [] { AcceptTombsKeep(g, r, ds[..|ds| - 1], now, id); }
  }

  lemma GateKeepsLog(g: Self, r: Room, f: Frame, now: int)
    ensures Gate(g, r, f, now).room.log == r.log && Gate(g, r, f, now).room.topic == r.topic
  {
    match f.body
    case Greet(h) => GateGreetKeepsLog(g, r, f, h, now);
    case _ =>
  }

  lemma GateGreetKeepsLog(g: Self, r: Room, f: Frame, h: Hello, now: int)
    ensures GateGreet(g, r, f, h, now).room.log == r.log && GateGreet(g, r, f, h, now).room.topic == r.topic
  {}

  lemma ManifestTomb(g: Self, r: Room, h: Hello, now: int, id: Id)
    requires id in r.log.tombs && id !in Manifest(g, r, h, now).log.tombs
    ensures Manifest(g, r, h, now).line == r.line
    ensures HasRevival(g.crypto, r.line.ownerId, r.topic, r.log.tombs[id].deletion, h.files, id, now)
  {
    var s := AdoptFiles(g, r, h.files, now);
    AdoptFilesTomb(g, r, h.files, now, id);
    if id in s.log.tombs { AcceptTombsKeep(g, s, h.tombSigs, now, id); }
    AcceptTombsLine(g, s, h.tombSigs, now);
  }

  lemma {:induction false} AcceptTombsLine(g: Self, r: Room, ds: seq<(Id, Deletion)>, now: int)
    ensures AcceptTombs(g, r, ds, now).line == r.line
  {
    if ds != [] { AcceptTombsLine(g, r, ds[..|ds| - 1], now); }
  }

  lemma IntroducedKeepsLog(g: Self, r: Room, f: Frame, h: Hello, now: int)
    ensures Introduced(g, r, f, h, now).log == r.log && Introduced(g, r, f, h, now).topic == r.topic
  {}

  lemma {:induction false} TextsTouchKeysOnly(g: Self, r: Room, ps: seq<Proof>)
    ensures AttestAll(g, r, ps).log == r.log && AttestAll(g, r, ps).line == r.line
  {
    if ps != [] { TextsTouchKeysOnly(g, r, ps[..|ps| - 1]); }
  }

  lemma {:induction false} LogsTouchKeysOnly(g: Self, r: Room, ps: seq<Proof>)
    ensures AttestLog(g, r, ps).log == r.log
  {
    if ps != [] { LogsTouchKeysOnly(g, r, ps[..|ps| - 1]); }
  }

  lemma DispatchTomb(g: Self, r: Room, f: Frame, now: int, id: Id)
    requires id in r.log.tombs && id !in Dispatch(g, r, f, now).log.tombs
    ensures var owner := Dispatch(g, r, f, now).line.ownerId;
            HasRevival(g.crypto, owner, r.topic, r.log.tombs[id].deletion, Offers(f), id, now)
  {
    if f.body.Greet? {
      var h := f.body.hello;
      var s := Introduced(g, r, f, h, now);
      IntroducedKeepsLog(g, r, f, h, now);
      TextsTouchKeysOnly(g, Manifest(g, s, h, now), h.edits);
      ManifestTomb(g, s, h, now, id);
    } else if f.body.Add? {
      AdoptFileTomb(g, r, f.body.offer, now, id);
      FilesKeepKey(g, r, f.body.offer, now);
      assert f.body.offer in Offers(f);
    } else {
      OthersKeepTombs(g, r, f, now, id);
    }
  }

  lemma OthersKeepTombs(g: Self, r: Room, f: Frame, now: int, id: Id)
    requires id in r.log.tombs && !f.body.Greet? && !f.body.Add?
    ensures id in Dispatch(g, r, f, now).log.tombs
  {
    if f.body.ChatLog? { LogsTouchKeysOnly(g, r, f.body.msgs); }
  }

  /** Over a whole frame: a tombstone that is gone afterwards was lifted by a revival the frame
      carries for that very file, signed by the deleter or by the room's owner, over the
      deletion that stood before the frame. A timestamp alone lifts nothing. */
  lemma LiftNeedsRevival(g: Self, r: Room, f: Frame, now: int, id: Id)
    requires id in r.log.tombs && id !in Step(g, r, f, now).log.tombs
    ensures HasRevival(g.crypto, Step(g, r, f, now).line.ownerId, r.topic, r.log.tombs[id].deletion, Offers(f), id, now)
  {
    GateKeepsLog(g, r, f, now);
    DispatchTomb(g, Gate(g, r, f, now).room, f, now, id);
  }

  // ---- Live and deleted at once ----

  ghost predicate Apart(l: FileLog) { l.files.Keys !! l.tombs.Keys }

  // The offer is for a file already listed, and makes the guest act on a deletion that waits.
  predicate Promotes(g: Self, r: Room, o: Offer, now: int) {
    && o.usable && o.addedBy !in r.roster.bans && o.fileId in r.log.files
    && (o.fileId in r.log.revives || |r.log.revives| < ROOM_FILE_LIMIT)
    && o.fileId in r.log.pendingTombs.at
    && var d := r.log.pendingTombs.at[o.fileId];
       CanDelete(r.line.ownerId, Some(o.addedBy), d.signer) && !Revives(g, r, o, d, now)
       && CurrentDeletion(d.at, None, Get(r.log.revives, o.fileId), now) && DeletionVerifies(g, r, o.fileId, d)
  }

  /** An offer leaves live files and tombstones apart unless, and only unless, it promotes a
      waiting deletion of a file that is already listed: that branch takes up the tombstone
      without taking the file off the list. */
  lemma OffersKeepApartIff(g: Self, r: Room, o: Offer, now: int)
    requires Apart(r.log)
    ensures Apart(AdoptFile(g, r, o, now).log) <==> !Promotes(g, r, o, now)
  {
    var s := AdoptFile(g, r, o, now);
    if Promotes(g, r, o, now) {
      assert o.fileId in s.log.tombs && o.fileId in s.log.files;
    } else if Standing(r, o).Some? {
      JudgedApart(g, r, o, Standing(r, o).value, now);
    }
  }

  lemma JudgedApart(g: Self, r: Room, o: Offer, d: Deletion, now: int)
    requires Apart(r.log) && Standing(r, o) == Some(d)
    requires o.fileId in r.log.files && o.usable && o.addedBy !in r.roster.bans ==> !Promotes(g, r, o, now)
    ensures o.usable && o.addedBy !in r.roster.bans ==> Apart(Judged(g, r, o, d, now).log)
  {}

  lemma TombsKeepApart(g: Self, r: Room, fileId: Id, d: Deletion, now: int)
    requires Apart(r.log)
    ensures Apart(AcceptTomb(g, r, fileId, d, now).log)
  {}

  // Does the frame get as far as its list of files?
  predicate Welcomed(g: Self, r: Room, f: Frame, now: int) {
    var gated := Gate(g, r, f, now);
    Heard(g, r, f) && gated.pass && (f.body.Greet? ==> f.body.hello.pageAccepted && HasRoom(gated.room, f.memberId))
  }

  // The offers a frame gets to make, and the room it makes them in.
  function Processed(g: Self, r: Room, f: Frame, now: int): seq<Offer> {
    if Welcomed(g, r, f, now) then Offers(f) else []
  }

  function BeforeOffers(g: Self, r: Room, f: Frame, now: int): Room {
    var room := Gate(g, r, f, now).room;
    if f.body.Greet? then Introduced(g, room, f, f.body.hello, now) else room
  }

  ghost predicate NonePromotes(g: Self, r: Room, os: seq<Offer>, now: int) {
    forall i | 0 <= i < |os| :: !Promotes(g, AdoptFiles(g, r, os[..i], now), os[i], now)
  }

  ghost predicate ApartThroughout(g: Self, r: Room, os: seq<Offer>, now: int) {
    forall i | 0 <= i <= |os| :: Apart(AdoptFiles(g, r, os[..i], now).log)
  }

  // Both conditions, offer by offer.
  lemma ApartLast(g: Self, r: Room, os: seq<Offer>, now: int)
    requires os != []
    ensures var front := os[..|os| - 1];
            ApartThroughout(g, r, os, now) <==>
            ApartThroughout(g, r, front, now) && Apart(AdoptFiles(g, r, os, now).log)
  {
    Prefixes(os);
    var front := os[..|os| - 1];
    if ApartThroughout(g, r, os, now) {
      forall i | 0 <= i <= |front| ensures Apart(AdoptFiles(g, r, front[..i], now).log) {
        assert front[..i] == os[..i];
      }
    }
  }

  lemma ApartAfterAll(g: Self, r: Room, os: seq<Offer>, now: int)
    requires ApartThroughout(g, r, os, now)
    ensures Apart(AdoptFiles(g, r, os, now).log)
  {
    assert os[..|os|] == os;
  }

  lemma NonePromotesLast(g: Self, r: Room, os: seq<Offer>, now: int)
    requires os != []
    ensures var front := os[..|os| - 1];
            NonePromotes(g, r, os, now) <==>
            NonePromotes(g, r, front, now) && !Promotes(g, AdoptFiles(g, r, front, now), os[|os| - 1], now)
  {
    Prefixes(os);
  }

  lemma Prefixes<T>(s: seq<T>)
    requires s != []
    ensures var front := s[..|s| - 1];
            s[..|s|] == s && front[..|front|] == front && forall i | 0 <= i <= |front| :: front[..i] == s[..i]
  {}

  lemma {:induction false} ManyOffersKeepApartIff(g: Self, r: Room, os: seq<Offer>, now: int)
    requires Apart(r.log)
    ensures ApartThroughout(g, r, os, now) <==> NonePromotes(g, r, os, now)
  {
    if os != [] {
      var front := os[..|os| - 1];
      ManyOffersKeepApartIff(g, r, front, now);
      ApartLast(g, r, os, now);
      NonePromotesLast(g, r, os, now);
      if ApartThroughout(g, r, front, now) {
        ApartAfterAll(g, r, front, now);
        OneOfMany(g, r, os, now);
      }
    }
  }

  lemma OneOfMany(g: Self, r: Room, os: seq<Offer>, now: int)
    requires os != [] && Apart(AdoptFiles(g, r, os[..|os| - 1], now).log)
    ensures Apart(AdoptFiles(g, r, os, now).log) <==>
            !Promotes(g, AdoptFiles(g, r, os[..|os| - 1], now), os[|os| - 1], now)
  {
    OffersKeepApartIff(g, AdoptFiles(g, r, os[..|os| - 1], now), os[|os| - 1], now);
  }

  lemma {:induction false} ManyTombsKeepApart(g: Self, r: Room, ds: seq<(Id, Deletion)>, now: int)
    requires Apart(r.log)
    ensures Apart(AcceptTombs(g, r, ds, now).log)
  {
    if ds != [] {
      var last := ds[|ds| - 1];
      ManyTombsKeepApart(g, r, ds[..|ds| - 1], now);
      TombsKeepApart(g, AcceptTombs(g, r, ds[..|ds| - 1], now), last.0, last.1, now);
    }
  }

  // What a frame does to the files is what its offers and its deletions do.
  lemma StepFiles(g: Self, r: Room, f: Frame, now: int)
    requires !f.body.Del?
    ensures BeforeOffers(g, r, f, now).log == r.log
    ensures var adopted := AdoptFiles(g, BeforeOffers(g, r, f, now), Processed(g, r, f, now), now);
            && var l := Step(g, r, f, now).log;
               if f.body.Greet? && Welcomed(g, r, f, now)
               then l == AcceptTombs(g, adopted, f.body.hello.tombSigs, now).log
               else l.files == adopted.log.files && l.tombs == adopted.log.tombs
  {
    GateKeepsLog(g, r, f, now);
    BeforeKeepsLog(g, r, f, now);
    if f.body.Add? {
      var os := [f.body.offer];
      assert os[..0] == [];
      assert AdoptFiles(g, BeforeOffers(g, r, f, now), os, now) == AdoptFile(g, BeforeOffers(g, r, f, now), os[0], now);
    } else if f.body.Greet? {
      GreetFiles(g, r, f, now);
    } else {
      OtherFiles(g, Gate(g, r, f, now).room, f, now);
    }
  }

  lemma GreetFiles(g: Self, r: Room, f: Frame, now: int)
    requires f.body.Greet?
    ensures var before := BeforeOffers(g, r, f, now);
            Step(g, r, f, now).log
            == if Welcomed(g, r, f, now) then Manifest(g, before, f.body.hello, now).log else r.log
  {
    GateKeepsLog(g, r, f, now);
    TextsTouchKeysOnly(g, Manifest(g, BeforeOffers(g, r, f, now), f.body.hello, now), f.body.hello.edits);
  }

  lemma OtherFiles(g: Self, r: Room, f: Frame, now: int)
    requires !f.body.Greet? && !f.body.Add? && !f.body.Del?
    ensures var l := Dispatch(g, r, f, now).log; l.files == r.log.files && l.tombs == r.log.tombs
  {
    if f.body.ChatLog? { LogsTouchKeysOnly(g, r, f.body.msgs); }
  }

  /** A frame of any kind keeps live files and tombstones apart if none of the offers it gets
      to make promotes a waiting deletion of a listed file; and after each of its offers they
      are apart if and only if that is so. */
  lemma FramesKeepApart(g: Self, r: Room, f: Frame, now: int)
    requires Apart(r.log)
    ensures var b, os := BeforeOffers(g, r, f, now), Processed(g, r, f, now);
            && (ApartThroughout(g, b, os, now) <==> NonePromotes(g, b, os, now))
            && (NonePromotes(g, b, os, now) ==> Apart(Step(g, r, f, now).log))
  {
    var b, os := BeforeOffers(g, r, f, now), Processed(g, r, f, now);
    GateKeepsLog(g, r, f, now);
    BeforeKeepsLog(g, r, f, now);
    ManyOffersKeepApartIff(g, b, os, now);
    assert os[..|os|] == os;
    if f.body.Del? {
      TombsKeepApart(g, Gate(g, r, f, now).room, f.body.fileId,
        Deletion(f.body.at, f.memberId, f.body.pub, f.body.sig), now);
    } else {
      StepFiles(g, r, f, now);
      if NonePromotes(g, b, os, now) && f.body.Greet? {
        ManyTombsKeepApart(g, AdoptFiles(g, b, os, now), f.body.hello.tombSigs, now);
      }
    }
  }

  lemma BeforeKeepsLog(g: Self, r: Room, f: Frame, now: int)
    ensures BeforeOffers(g, r, f, now).log == r.log
  {
    GateKeepsLog(g, r, f, now);
    if f.body.Greet? { IntroducedKeepsLog(g, Gate(g, r, f, now).room, f, f.body.hello, now); }
  }

  // No offer of the run promotes a waiting deletion of a listed file.
  ghost predicate Quiet(g: Self, r: Room, fs: seq<(Frame, int)>) {
    forall i | 0 <= i < |fs| ::
      var s := Run(g, r, fs[..i]);
      NonePromotes(g, BeforeOffers(g, s, fs[i].0, fs[i].1), Processed(g, s, fs[i].0, fs[i].1), fs[i].1)
  }

  // No state of the run, nor one between two offers of a frame, has a file live and deleted.
  ghost predicate AlwaysApart(g: Self, r: Room, fs: seq<(Frame, int)>) {
    forall i | 0 <= i < |fs| ::
      var s := Run(g, r, fs[..i]);
      Apart(s.log)
      && ApartThroughout(g, BeforeOffers(g, s, fs[i].0, fs[i].1), Processed(g, s, fs[i].0, fs[i].1), fs[i].1)
  }

  lemma {:induction false} QuietStaysApart(g: Self, r: Room, fs: seq<(Frame, int)>, n: nat)
    requires Apart(r.log) && n <= |fs|
    requires forall i | 0 <= i < n ::
               var s := Run(g, r, fs[..i]);
               NonePromotes(g, BeforeOffers(g, s, fs[i].0, fs[i].1), Processed(g, s, fs[i].0, fs[i].1), fs[i].1)
    ensures Apart(Run(g, r, fs[..n]).log)
  {
    if n > 0 {
      QuietStaysApart(g, r, fs, n - 1);
      assert fs[..n][..n - 1] == fs[..n - 1];
      FramesKeepApart(g, Run(g, r, fs[..n - 1]), fs[n - 1].0, fs[n - 1].1);
    }
  }

  /** Over every run from joining: a file is never live and deleted at once, in any state nor
      between the offers of a frame, if and only if no offer promotes a waiting deletion of a
      listed file. */
  lemma NeverLiveAndDeletedIff(g: Self, pub: string, ownerPin: Id, code: string, fs: seq<(Frame, int)>)
    ensures var r := Joined(g, pub, ownerPin, code);
            && (AlwaysApart(g, r, fs) <==> Quiet(g, r, fs))
            && (Quiet(g, r, fs) ==> Apart(Run(g, r, fs).log))
  {
    var r := Joined(g, pub, ownerPin, code);
    if Quiet(g, r, fs) {
      forall i | 0 <= i < |fs|
        ensures var s := Run(g, r, fs[..i]);
                Apart(s.log)
                && ApartThroughout(g, BeforeOffers(g, s, fs[i].0, fs[i].1), Processed(g, s, fs[i].0, fs[i].1), fs[i].1)
      {
        QuietStaysApart(g, r, fs, i);
        FramesKeepApart(g, Run(g, r, fs[..i]), fs[i].0, fs[i].1);
      }
      QuietStaysApart(g, r, fs, |fs|);
      assert fs[..|fs|] == fs;
    }
    if AlwaysApart(g, r, fs) {
      forall i | 0 <= i < |fs|
        ensures var s := Run(g, r, fs[..i]);
                NonePromotes(g, BeforeOffers(g, s, fs[i].0, fs[i].1), Processed(g, s, fs[i].0, fs[i].1), fs[i].1)
      {
        FramesKeepApart(g, Run(g, r, fs[..i]), fs[i].0, fs[i].1);
      }
    }
  }

  // In this room every signature is good and a key is its member's id.
  function Trusting(): Self {
    Self("me", Crypto((pub: string) => pub, (pub: string, m: Payload, sig: string) => true, (code: string) => code))
  }

  function Waiting(): Frame { Frame("bob", "", Del("file", 5, "bob", "s")) }

  function Listing(addedBy: Id): Frame { Frame("", "", Add(Offer("file", addedBy, 1, true, true, true, None))) }

  function AfterWaiting(): Room {
    var r := Joined(Trusting(), "me", "", "code");
    r.(log := r.log.(pendingTombs := Dict(["file"], map["file" := Deletion(5, "bob", "bob", "s")])))
  }

  function AfterListing(): Room {
    var r := AfterWaiting();
    r.(log := r.log.(files := map["file" := FileRec("alice", 1)]))
  }

  lemma WaitingStep()
    ensures Step(Trusting(), Joined(Trusting(), "me", "", "code"), Waiting(), 9) == AfterWaiting()
  {}

  lemma ListingStep()
    ensures Step(Trusting(), AfterWaiting(), Listing("alice"), 9) == AfterListing()
  {}

  lemma PromotingStep()
    ensures var l := Step(Trusting(), AfterListing(), Listing("bob"), 9).log;
            "file" in l.files && l.files["file"].addedBy == "alice" && "file" in l.tombs
  {
    assert Promotes(Trusting(), AfterListing(), Listing("bob").body.offer, 9);
  }

  lemma RunOfThree(g: Self, r: Room, a: Frame, b: Frame, c: Frame, now: int)
    ensures Run(g, r, [(a, now), (b, now), (c, now)]) == Step(g, Step(g, Step(g, r, a, now), b, now), c, now)
  {
    var fs := [(a, now), (b, now), (c, now)];
    assert fs[..2] == [(a, now), (b, now)];
    RunOfOne(g, r, a, now);
    assert [(a, now), (b, now)][..1] == [(a, now)];
    assert Run(g, r, [(a, now), (b, now)]) == Step(g, Run(g, r, [(a, now)]), b, now);
  }

  lemma RunOfOne(g: Self, r: Room, a: Frame, now: int)
    ensures Run(g, r, [(a, now)]) == Step(g, r, a, now)
  {
    assert [(a, now)][..0] == [];
  }

  /** Three frames after joining, a file is listed and deleted at once: a deletion that had to
      wait, the file under its author's name, and the file again under the deleter's. */
  lemma LiveAndDeleted()
    ensures var l := Run(Trusting(), Joined(Trusting(), "me", "", "code"),
                         [(Waiting(), 9), (Listing("alice"), 9), (Listing("bob"), 9)]).log;
            "file" in l.files && l.files["file"].addedBy == "alice" && "file" in l.tombs
  {
    RunOfThree(Trusting(), Joined(Trusting(), "me", "", "code"), Waiting(), Listing("alice"), Listing("bob"), 9);
    WaitingStep();
    ListingStep();
    PromotingStep();
  }
}
