/** Who may take a file off the list or bring it back (guest/mesh.ts, shared/room-authority.ts),
    said of whole frames in terms of keys, signatures, owners and authors. */
module GuestAuthority {
  import opened Ids
  import opened Numbers
  import opened Dicts
  import opened RoomAuthority
  import opened GuestState
  import opened GuestSafety
  import opened GuestTheorems

  // Signed, over this very file and time, with the signer's own key.
  predicate Authentic(c: Crypto, topic: string, id: Id, d: Deletion) {
    d.signer != "" && c.memberIdOf(d.pub) == d.signer && c.valid(d.pub, DeletionOf(topic, id, d.signer, d.at), d.sig)
  }

  // The key is the one the guest knows the member by, or it has room to learn it.
  predicate KeyKnown(r: Room, memberId: Id, pub: string) {
    pub != "" && if memberId in r.identities && r.identities[memberId] != "" then r.identities[memberId] == pub
                 else |r.identities| < 2048
  }

  // The owner of the room, and the member a file was listed by.
  predicate HasSay(r: Room, id: Id, signer: Id)
    requires id in r.log.files
  {
    signer != "" && (signer == r.line.ownerId || signer == r.log.files[id].addedBy)
  }

  // Neither from the future, nor older than the listing, nor outlived by a revival.
  predicate InTime(r: Room, id: Id, at: int, now: int) {
    && 0 < at <= MAX_SAFE_INTEGER && at <= now + 60_000
    && (id in r.log.files ==> r.log.files[id].addedAt <= at)
    && (id in r.log.revives ==> r.log.revives[id] < at)
  }

  // There is room for the tombstone, and none that says at least as much.
  predicate AddsTomb(r: Room, id: Id, at: int) {
    if id !in r.log.tombs then |r.log.tombs| < 5000
    else r.log.tombs[id].deletion.at < at || (r.log.tombs[id].deletion.at == at && r.log.tombs[id].topic != r.topic)
  }

  // The deletion has taken effect.
  predicate IsDeleted(r: Room, id: Id, d: Deletion) {
    id !in r.log.files && id in r.log.tombs && r.log.tombs[id] == Tomb(d, r.topic)
    && id !in r.log.revives && id !in r.log.pendingTombs.at
  }

  /** A deletion of a listed file takes effect if and only if it is signed, with a key the guest
      accepts, by the room's owner or the member that listed the file, is in time, and is not
      outdone by a tombstone. Otherwise the file stays. */
  lemma TombTakesEffectIff(g: Self, r: Room, id: Id, d: Deletion, now: int)
    requires id in r.log.files
    ensures id !in AcceptTomb(g, r, id, d, now).log.files <==>
            HasSay(r, id, d.signer)
            && Authentic(g.crypto, r.topic, id, d) && d.sig != "" && KeyKnown(r, d.signer, d.pub)
            && InTime(r, id, d.at, now) && AddsTomb(r, id, d.at)
    ensures id !in AcceptTomb(g, r, id, d, now).log.files ==> IsDeleted(AcceptTomb(g, r, id, d, now), id, d)
  {
    SettledIff(g, r, id, d, now);
    VerifiedIff(g, r, id, d);
  }

  lemma VerifiedIff(g: Self, r: Room, id: Id, d: Deletion)
    ensures DeletionVerifies(g, r, id, d) <==>
            Authentic(g.crypto, r.topic, id, d) && d.sig != "" && KeyKnown(r, d.signer, d.pub)
  {}

  lemma SettledIff(g: Self, r: Room, id: Id, d: Deletion, now: int)
    requires id in r.log.files
    ensures id !in AcceptTomb(g, r, id, d, now).log.files <==>
            HasSay(r, id, d.signer)
            && DeletionVerifies(g, r, id, d) && InTime(r, id, d.at, now) && AddsTomb(r, id, d.at)
    ensures id !in AcceptTomb(g, r, id, d, now).log.files ==> IsDeleted(AcceptTomb(g, r, id, d, now), id, d)
  {
    StepsIff(g, r, id, d, now);
    InTimeIff(r, id, d, now);
    AddsTombIff(r, id, d);
  }

  lemma StepsIff(g: Self, r: Room, id: Id, d: Deletion, now: int)
    requires id in r.log.files
    ensures id !in AcceptTomb(g, r, id, d, now).log.files <==>
            && (id in r.log.tombs || |r.log.tombs| < ROOM_FILE_LIMIT) && !TombSuperseded(r, id, d)
            && CurrentDeletion(d.at, None, Get(r.log.revives, id), now)
            && CurrentDeletion(d.at, AddedAt(r, id), Get(r.log.revives, id), now)
            && CanDelete(r.line.ownerId, Author(r, id), d.signer) && DeletionVerifies(g, r, id, d)
    ensures id !in AcceptTomb(g, r, id, d, now).log.files ==> IsDeleted(AcceptTomb(g, r, id, d, now), id, d)
  {}

  lemma InTimeIff(r: Room, id: Id, d: Deletion, now: int)
    ensures CurrentDeletion(d.at, None, Get(r.log.revives, id), now)
            && CurrentDeletion(d.at, AddedAt(r, id), Get(r.log.revives, id), now) <==>
            InTime(r, id, d.at, now)
  {}

  lemma AddsTombIff(r: Room, id: Id, d: Deletion)
    ensures (id in r.log.tombs || |r.log.tombs| < ROOM_FILE_LIMIT) && !TombSuperseded(r, id, d) <==>
            AddsTomb(r, id, d.at)
  {}

  /** The same of a frame that carries one. */
  lemma DelTakesEffectIff(g: Self, r: Room, f: Frame, now: int)
    requires Heard(g, r, f) && f.body.Del? && f.body.fileId in r.log.files
    ensures var id, d := f.body.fileId, Deletion(f.body.at, f.memberId, f.body.pub, f.body.sig);
            && (id !in Step(g, r, f, now).log.files <==>
                HasSay(r, id, d.signer) && Authentic(g.crypto, r.topic, id, d) && d.sig != ""
                && KeyKnown(r, d.signer, d.pub) && InTime(r, id, d.at, now) && AddsTomb(r, id, d.at))
            && (id !in Step(g, r, f, now).log.files ==> IsDeleted(Step(g, r, f, now), id, d))
  {
    var id, d := f.body.fileId, Deletion(f.body.at, f.memberId, f.body.pub, f.body.sig);
    TombTakesEffectIff(g, r, id, d, now);
    StepWhenHeard(g, r, f, now);
  }

  /** A deletion of a file that is not listed takes effect at once if it is the owner's, and waits
      if it is anybody else's and newer than what waits already. */
  lemma UnlistedTombIff(g: Self, r: Room, id: Id, d: Deletion, now: int)
    requires id !in r.log.files && InTime(r, id, d.at, now) && AddsTomb(r, id, d.at)
    ensures var s := AcceptTomb(g, r, id, d, now);
            if d.signer != "" && d.signer == r.line.ownerId then
              IsDeleted(s, id, d) <==>
              (Authentic(g.crypto, r.topic, id, d) && d.sig != "" && KeyKnown(r, d.signer, d.pub))
              || IsDeleted(r, id, d)
            else
              s == r.(log := r.log.(pendingTombs := s.log.pendingTombs))
              && s.log.pendingTombs == if id in r.log.pendingTombs.at && r.log.pendingTombs.at[id].at >= d.at
                                       then r.log.pendingTombs else Pended(r.log.pendingTombs, id, d)
  {
    InTimeIff(r, id, d, now);
    AddsTombIff(r, id, d);
    VerifiedIff(g, r, id, d);
    if d.signer != "" && d.signer == r.line.ownerId { OwnersTomb(g, r, id, d, now); }
  }

  lemma OwnersTomb(g: Self, r: Room, id: Id, d: Deletion, now: int)
    requires id !in r.log.files && d.signer != "" && d.signer == r.line.ownerId
    requires (id in r.log.tombs || |r.log.tombs| < ROOM_FILE_LIMIT) && !TombSuperseded(r, id, d)
    requires CurrentDeletion(d.at, None, Get(r.log.revives, id), now)
    ensures IsDeleted(AcceptTomb(g, r, id, d, now), id, d) <==> DeletionVerifies(g, r, id, d) || IsDeleted(r, id, d)
  {}

  /** Up to 500 deletions wait, the oldest going first for a new one; a newer one of the same file
      keeps its place. */
  lemma WaitingIs(p: Dict<Deletion>, id: Id, d: Deletion)
    requires p.Valid() && |p.keys| <= 500
    ensures var q := Pended(p, id, d);
            && q.keys == (if id in p.keys then p.keys else if |p.keys| < 500 then p.keys + [id] else p.keys[1..] + [id])
            && id in q.at && q.at[id] == d && |q.keys| <= 500
            && forall k | k in q.at && k != id :: k in p.at && q.at[k] == p.at[k]
  {
    SetValid(p, id, d);
    assert id in p.at <==> id in Elements(p.keys);
    if id !in p.keys && |p.keys| == 500 { OldestGoes(p.keys, id); }
  }

  lemma OldestGoes(keys: seq<Id>, id: Id)
    requires Distinct(keys) && keys != [] && id !in keys
    ensures Without(keys + [id], (keys + [id])[0]) == keys[1..] + [id] && (keys + [id])[0] != id
  {
    assert (keys + [id])[1..] == keys[1..] + [id];
    WithoutKeeps(keys[1..] + [id], keys[0]);
  }

  // ---- Over a whole frame ----

  function Deletions(f: Frame): seq<(Id, Deletion)> {
    match f.body
    case Del(id, at, pub, sig) => [(id, Deletion(at, f.memberId, pub, sig))]
    case Greet(h) => h.tombSigs
    case _ => []
  }

  // Among the deletions is one for the file by somebody who has a say.
  ghost predicate HasDeletion(c: Crypto, topic: string, owner: Id, author: Id, ds: seq<(Id, Deletion)>, id: Id) {
    exists d :: (id, d) in ds && Authentic(c, topic, id, d) && (d.signer == owner || d.signer == author)
  }

  // Listings are never rewritten, and the line and topic stay, while offers are taken up.
  lemma OfferKeeps(g: Self, r: Room, o: Offer, now: int, id: Id)
    requires id in r.log.files
    ensures var s := AdoptFile(g, r, o, now);
            id in s.log.files && s.log.files[id] == r.log.files[id] && s.line == r.line && s.topic == r.topic
  {
    if Standing(r, o).Some? { JudgedKeeps(g, r, o, Standing(r, o).value, now, id); }
  }

  lemma JudgedKeeps(g: Self, r: Room, o: Offer, d: Deletion, now: int, id: Id)
    requires id in r.log.files
    ensures var s := Judged(g, r, o, d, now);
            id in s.log.files && s.log.files[id] == r.log.files[id] && s.line == r.line && s.topic == r.topic
  {}

  lemma {:induction false} OffersKeep(g: Self, r: Room, os: seq<Offer>, now: int, id: Id)
    requires id in r.log.files
    ensures var s := AdoptFiles(g, r, os, now);
            id in s.log.files && s.log.files[id] == r.log.files[id] && s.line == r.line && s.topic == r.topic
  {
    if os != [] {
      OffersKeep(g, r, os[..|os| - 1], now, id);
      OfferKeeps(g, AdoptFiles(g, r, os[..|os| - 1], now), os[|os| - 1], now, id);
    }
  }

  lemma TombKeepsOthers(g: Self, r: Room, fileId: Id, d: Deletion, now: int, id: Id)
    requires id in r.log.files
    ensures var s := AcceptTomb(g, r, fileId, d, now);
            && s.line == r.line && s.topic == r.topic
            && (id in s.log.files ==> s.log.files[id] == r.log.files[id]) && (fileId != id ==> id in s.log.files)
  {}

  lemma {:induction false} TombsNeedSay(g: Self, r: Room, ds: seq<(Id, Deletion)>, now: int, id: Id)
    requires id in r.log.files
    ensures var s := AcceptTombs(g, r, ds, now);
            && s.line == r.line && s.topic == r.topic
            && if id in s.log.files then s.log.files[id] == r.log.files[id]
               else HasDeletion(g.crypto, r.topic, r.line.ownerId, r.log.files[id].addedBy, ds, id)
  {
    if ds != [] {
      var front, last := ds[..|ds| - 1], ds[|ds| - 1];
      TombsNeedSay(g, r, front, now, id);
      var p := AcceptTombs(g, r, front, now);
      if id in p.log.files {
        TombKeepsOthers(g, p, last.0, last.1, now, id);
        if last.0 == id { TombTakesEffectIff(g, p, id, last.1, now); }
        assert last in ds;
      } else {
        assert forall x | x in front :: x in ds;
        StillGone(g, p, last.0, last.1, now, id);
      }
    }
  }

  lemma StillGone(g: Self, r: Room, fileId: Id, d: Deletion, now: int, id: Id)
    requires id !in r.log.files
    ensures id !in AcceptTomb(g, r, fileId, d, now).log.files
    ensures AcceptTomb(g, r, fileId, d, now).line == r.line && AcceptTomb(g, r, fileId, d, now).topic == r.topic
  {}

  /** Over any frame: a listed file leaves the list only if the frame carries a deletion of that
      very file, signed with the key of the room's owner or of the member that listed it. */
  lemma LeavesOnlyByRight(g: Self, r: Room, f: Frame, now: int, id: Id)
    requires id in r.log.files && id !in Step(g, r, f, now).log.files
    ensures HasDeletion(g.crypto, r.topic, Step(g, r, f, now).line.ownerId, r.log.files[id].addedBy, Deletions(f), id)
  {
    GateKeepsLog(g, r, f, now);
    var room := Gate(g, r, f, now).room;
    StepWhenHeard(g, r, f, now);
    if f.body.Greet? {
      GreetLeaves(g, room, f, now, id);
    } else if f.body.Del? {
      DelLeaves(g, room, f, now, id);
    } else if f.body.Add? {
      OfferKeeps(g, room, f.body.offer, now, id);
    } else {
      OtherFiles(g, room, f, now);
    }
  }

  lemma DelLeaves(g: Self, r: Room, f: Frame, now: int, id: Id)
    requires f.body.Del? && id in r.log.files && id !in Dispatch(g, r, f, now).log.files
    ensures var owner := Dispatch(g, r, f, now).line.ownerId;
            HasDeletion(g.crypto, r.topic, owner, r.log.files[id].addedBy, Deletions(f), id)
  {
    var d := Deletion(f.body.at, f.memberId, f.body.pub, f.body.sig);
    TombKeepsOthers(g, r, f.body.fileId, d, now, id);
    TombTakesEffectIff(g, r, id, d, now);
    assert (id, d) in Deletions(f);
  }

  lemma GreetLeaves(g: Self, r: Room, f: Frame, now: int, id: Id)
    requires f.body.Greet? && id in r.log.files && id !in Dispatch(g, r, f, now).log.files
    ensures var owner := Dispatch(g, r, f, now).line.ownerId;
            HasDeletion(g.crypto, r.topic, owner, r.log.files[id].addedBy, Deletions(f), id)
  {
    var h := f.body.hello;
    var s := Introduced(g, r, f, h, now);
    IntroducedKeepsLog(g, r, f, h, now);
    OffersKeep(g, s, h.files, now, id);
    TombsNeedSay(g, AdoptFiles(g, s, h.files, now), h.tombSigs, now, id);
    TextsTouchKeysOnly(g, Manifest(g, s, h, now), h.edits);
  }
}
