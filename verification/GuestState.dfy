/** The replicated state of a browser guest and what each admitted gossip frame does to
    it (guest/mesh.ts), as values. The class that updates the fields in place is in
    GuestRoom.dfy. */
module GuestState {
  import opened Ids
  import opened Numbers
  import opened Dicts
  import opened RoomAuthority

  const ROOM_MEMBER_LIMIT := 256
  const ROOM_IDENTITY_LIMIT := 2048
  const ROOM_FILE_LIMIT := 5000
  const PENDING_TOMB_LIMIT := 500

  /** What a signature can be over. A handover is bound to the root of its line, everything
      else to the topic of the room's current key. */
  datatype Payload =
    | TransferOf(root: Id, signer: Id, newOwnerId: Id, at: int)
    | BansOf(topic: string, ownerId: Id, revision: int, bans: seq<Id>)
    | DeletionOf(topic: string, fileId: Id, signer: Id, at: int)
    | RevivalOf(topic: string, fileId: Id, at: int, signer: Id)
    | KickOf(topic: string, targetId: Id, signer: Id)
    | RekeyOf(topic: string, newCode: string, kickedId: Id, signer: Id)
    | BodyOf(topic: string, body: string)

  datatype Crypto = Crypto(
    memberIdOf: string -> Id, valid: (string, Payload, string) -> bool, topicOf: string -> string)

  datatype Self = Self(id: Id, crypto: Crypto)

  datatype Deletion = Deletion(at: int, signer: Id, pub: string, sig: string)

  datatype Tomb = Tomb(deletion: Deletion, topic: string)

  datatype FileRec = FileRec(addedBy: Id, addedAt: int)

  datatype Roster = Roster(members: set<Id>, bans: set<Id>, banState: Option<BanSnapshot>, kicked: bool)

  datatype FileLog = FileLog(
    files: map<Id, FileRec>, tombs: map<Id, Tomb>, pendingTombs: Dict<Deletion>, revives: map<Id, int>)

  datatype Room = Room(
    identities: map<Id, string>, roster: Roster, log: FileLog, line: OwnerLine, code: string, topic: string,
    voiceV2: set<Id>)   // members known to sign their deafened flag

  // ---- Signatures ----

  function Bound(ids: map<Id, string>, memberId: Id): string { if memberId in ids then ids[memberId] else "" }

  predicate Verifies(c: Crypto, ids: map<Id, string>, memberId: Id, pub: string, sig: string, payload: Payload) {
    memberId != "" && pub != "" && sig != "" && c.memberIdOf(pub) == memberId
    && (Bound(ids, memberId) == "" || Bound(ids, memberId) == pub)
    && (Bound(ids, memberId) == "" ==> |ids| < ROOM_IDENTITY_LIMIT)
    && c.valid(pub, payload, sig)
  }

  // A key that verifies is bound to its member from then on.
  function Bind(ids: map<Id, string>, memberId: Id, pub: string): map<Id, string> {
    if memberId in ids then ids else ids[memberId := pub]
  }

  function Bounded(r: Room, memberId: Id, pub: string): Room { r.(identities := Bind(r.identities, memberId, pub)) }

  // ---- The owner line ----

  datatype Checked = Checked(chain: seq<Link>, ids: map<Id, string>)

  function LinkPayload(root: Id, l: Link): Payload { TransferOf(root, l.signer, l.newOwnerId, l.at) }

  predicate LinkVerifies(c: Crypto, ids: map<Id, string>, root: Id, l: Link) {
    Verifies(c, ids, l.signer, l.pub, l.sig, LinkPayload(root, l))
  }

  // Verify link after link, stopping at the first that fails.
  function CheckLinks(c: Crypto, ids: map<Id, string>, root: Id, chain: seq<Link>, i: nat): Checked
    requires i <= |chain|
    decreases |chain| - i
  {
    if i < |chain| && LinkVerifies(c, ids, root, chain[i])
    then CheckLinks(c, Bind(ids, chain[i].signer, chain[i].pub), root, chain, i + 1)
    else Checked(chain[..i], ids)
  }

  function CheckChain(c: Crypto, ids: map<Id, string>, links: seq<Link>, now: int): Checked {
    var chain := OrderedPrefix(links, now);
    if chain == [] then Checked([], ids) else CheckLinks(c, ids, chain[0].signer, chain, 0)
  }

  predicate ChainAdopted(r: Room, chain: seq<Link>) {
    Advances(r.line, chain) && chain[|chain| - 1].newOwnerId !in r.roster.bans
  }

  function AdoptChain(g: Self, r: Room, links: seq<Link>, now: int): Room {
    var k := CheckChain(g.crypto, r.identities, links, now);
    var bound := r.(identities := k.ids);
    if ChainAdopted(r, k.chain) then bound.(line := Adopt(r.line, k.chain)) else bound
  }

  // ---- Bans ----

  datatype BanOutcome = BanOutcome(room: Room, ok: bool)

  function AdoptBanState(g: Self, r: Room, p: BanSnapshot): BanOutcome {
    if !ValidBanSnapshot(p) || !BanSnapshotAdvances(p, r.line.ownerId, r.roster.banState, r.roster.bans)
       || !Verifies(g.crypto, r.identities, p.ownerId, p.pub, p.sig, BansOf(r.topic, p.ownerId, p.revision, p.bans))
    then BanOutcome(r, false)
    else
      var bound := Bounded(r, p.ownerId, p.pub);
      if r.roster.banState.Some? && r.roster.banState.value.sig == p.sig then BanOutcome(bound, true)
      else BanOutcome(bound.(roster := Banned(g, r.roster, p)), true)
  }

  function Banned(g: Self, t: Roster, p: BanSnapshot): Roster {
    var bans := t.bans + Elements(p.bans);
    Roster(t.members - Elements(p.bans), bans, Some(p), t.kicked || g.id in bans)
  }

  // ---- Files ----

  datatype Revival = Revival(at: int, signer: Id, pub: string, sig: string)

  /** A file as another member lists it. `fits` and `stores` stand for the byte budgets the
      offered and the stored record are held to, `usable` for a well-formed id, a magnet link
      and a name. */
  datatype Offer = Offer(
    fileId: Id, addedBy: Id, addedAt: int, fits: bool, stores: bool, usable: bool, revival: Option<Revival>)

  function Get<V>(m: map<Id, V>, k: Id): Option<V> { if k in m then Some(m[k]) else None }

  // What stands against the file: its tombstone, else a deletion that waited for its author.
  function Standing(r: Room, o: Offer): Option<Deletion> {
    if o.fileId in r.log.tombs then Some(r.log.tombs[o.fileId].deletion)
    else if o.fileId in r.log.pendingTombs.at
            && CanDelete(r.line.ownerId, Some(o.addedBy), r.log.pendingTombs.at[o.fileId].signer)
    then Some(r.log.pendingTombs.at[o.fileId]) else None
  }

  predicate Revives(g: Self, r: Room, o: Offer, d: Deletion, now: int) {
    && o.revival.Some?
    && var v := o.revival.value;
       d.at <= v.at <= now + CLOCK_SLACK && v.signer != "" && v.pub != "" && v.sig != ""
       && CanRevive(r.line.ownerId, Some(d.signer), v.signer)
       && Verifies(g.crypto, r.identities, v.signer, v.pub, v.sig, RevivalOf(r.topic, o.fileId, v.at, v.signer))
  }

  function Revived(r: Room, o: Offer): Room
    requires o.revival.Some?
  {
    var v := o.revival.value;
    Bounded(r, v.signer, v.pub).(log := RevivedLog(r.log, o.fileId, v.at))
  }

  function RevivedLog(l: FileLog, fileId: Id, at: int): FileLog {
    var held := if fileId in l.revives then l.revives[fileId] else 0;
    l.(tombs := l.tombs - {fileId}, pendingTombs := l.pendingTombs.Delete(fileId),
       revives := l.revives[fileId := if held > at then held else at])
  }

  predicate DeletionVerifies(g: Self, r: Room, fileId: Id, d: Deletion) {
    Verifies(g.crypto, r.identities, d.signer, d.pub, d.sig, DeletionOf(r.topic, fileId, d.signer, d.at))
  }

  function Store(r: Room, o: Offer, now: int): Room {
    if o.fileId in r.log.files || |r.log.files| >= ROOM_FILE_LIMIT || !o.stores then r
    else
      var rec := FileRec(o.addedBy, if o.addedAt < now then o.addedAt else now);
      r.(log := r.log.(files := r.log.files[o.fileId := rec]))
  }

  function AdoptFile(g: Self, r: Room, o: Offer, now: int): Room {
    if o.fileId !in r.log.files && (!o.fits || |r.log.files| >= ROOM_FILE_LIMIT) then r
    else if !o.usable || o.addedBy in r.roster.bans then r
    else
      var d := Standing(r, o);
      if d == None then Store(r, o, now) else Judged(g, r, o, d.value, now)
  }

  // The offer stands against the deletion d.
  function Judged(g: Self, r: Room, o: Offer, d: Deletion, now: int): Room {
    if o.fileId !in r.log.revives && |r.log.revives| >= ROOM_FILE_LIMIT then r
    else if Revives(g, r, o, d, now) then Store(Revived(r, o), o, now)
    else if o.fileId in r.log.tombs then r
    else PendingSettled(g, r, o, d, now)
  }

  // The waiting deletion d has met its author: it takes effect or is dropped.
  function PendingSettled(g: Self, r: Room, o: Offer, d: Deletion, now: int): Room {
    var dropped := r.(log := Dropped(r.log, o.fileId));
    if CurrentDeletion(d.at, None, Get(r.log.revives, o.fileId), now) && DeletionVerifies(g, r, o.fileId, d)
    then Bounded(r, d.signer, d.pub).(log := Promoted(r.log, o.fileId, Tomb(d, r.topic)))
    else Store(dropped, o, now)
  }

  function Dropped(l: FileLog, fileId: Id): FileLog { l.(pendingTombs := l.pendingTombs.Delete(fileId)) }

  function Promoted(l: FileLog, fileId: Id, t: Tomb): FileLog { Dropped(l, fileId).(tombs := l.tombs[fileId := t]) }

  function Pended(pending: Dict<Deletion>, fileId: Id, d: Deletion): Dict<Deletion> {
    var next := pending.Set(fileId, d);
    if |next.keys| > PENDING_TOMB_LIMIT then next.Delete(next.keys[0]) else next
  }

  predicate TombSuperseded(r: Room, fileId: Id, d: Deletion) {
    fileId in r.log.tombs
    && var t := r.log.tombs[fileId]; t.deletion.at > d.at || (t.deletion.at == d.at && t.topic == r.topic)
  }

  function Author(r: Room, fileId: Id): Option<Id> {
    if fileId in r.log.files then Some(r.log.files[fileId].addedBy) else None
  }

  function AddedAt(r: Room, fileId: Id): Option<int> {
    if fileId in r.log.files then Some(r.log.files[fileId].addedAt) else None
  }

  function AcceptTomb(g: Self, r: Room, fileId: Id, d: Deletion, now: int): Room {
    if fileId !in r.log.tombs && |r.log.tombs| >= ROOM_FILE_LIMIT then r
    else if !CurrentDeletion(d.at, None, Get(r.log.revives, fileId), now) || TombSuperseded(r, fileId, d) then r
    else if !CanDelete(r.line.ownerId, Author(r, fileId), d.signer) then Waits(r, fileId, d)
    else TombSettled(g, r, fileId, d, now)
  }

  // A deletion of a file nobody has listed yet is kept until its author is known.
  function Waits(r: Room, fileId: Id, d: Deletion): Room {
    if fileId !in r.log.files && (fileId !in r.log.pendingTombs.at || r.log.pendingTombs.at[fileId].at < d.at)
    then r.(log := r.log.(pendingTombs := Pended(r.log.pendingTombs, fileId, d))) else r
  }

  function TombSettled(g: Self, r: Room, fileId: Id, d: Deletion, now: int): Room {
    if !DeletionVerifies(g, r, fileId, d) then r
    else if !CurrentDeletion(d.at, AddedAt(r, fileId), Get(r.log.revives, fileId), now) then Bounded(r, d.signer, d.pub)
    else Bounded(r, d.signer, d.pub).(log := Entombed(r.log, fileId, Tomb(d, r.topic)))
  }

  function Entombed(l: FileLog, fileId: Id, t: Tomb): FileLog {
    Promoted(l, fileId, t).(revives := l.revives - {fileId}, files := l.files - {fileId})
  }

  // ---- Frames ----

  datatype Hello = Hello(
    pub: string, ownerId: Id, chain: seq<Link>, banState: Option<BanSnapshot>,
    pageAccepted: bool, topicMsg: Option<Proof>, files: seq<Offer>, tombSigs: seq<(Id, Deletion)>, edits: seq<Proof>)

  /** A signed text: a chat message or edit, a room name or a room topic. */
  datatype Proof = Proof(signer: Id, pub: string, sig: string, text: string)

  datatype Body =
    | Greet(hello: Hello)
    | Ping(pub: string)
    | Bye
    | Presence                                     // typing, progress, have, reactions
    | Add(offer: Offer)
    | Del(fileId: Id, at: int, pub: string, sig: string)
    | Transfer(link: Link, banState: Option<BanSnapshot>)
    | Kick(targetId: Id, pub: string, sig: string)
    | Rekey(newCode: string, kickedId: Id, pub: string, sig: string)
    | Profile(current: bool, pub: string, sig: string, text: string)
    | VoiceState(at: int, v2: bool, pub: string, sig: string, text: string)
    | VoiceSignal(to: Id, pub: string, sig: string, text: string)
    | VoiceShare(at: int)
    | OwnerText(current: bool, pub: string, sig: string, text: string)   // room name and topic
    | Signed(pub: string, sig: string, text: string)                     // chat and edits
    | ChatLog(msgs: seq<Proof>)

  /** A frame that decrypted, validated and authenticated within its budgets. `memberId`
      and `signer` are the two sender fields, empty when the message has no such field; a
      handover names its signer itself. */
  datatype Frame = Frame(memberId: Id, signer: Id, body: Body) {
    function Signer(): Id { if body.Transfer? then body.link.signer else signer }
  }

  predicate HasRoom(r: Room, memberId: Id) { memberId in r.roster.members || |r.roster.members| < ROOM_MEMBER_LIMIT }

  // The tail of authenticate: a key carried by a hello or ping is its sender's own.
  predicate KeyMatches(g: Self, r: Room, f: Frame) {
    var pub := match f.body case Greet(h) => h.pub case Ping(p) => p case _ => "";
    pub != "" ==> g.crypto.memberIdOf(pub) == f.memberId
                  && (f.memberId in r.identities ==> r.identities[f.memberId] == pub)
  }

  datatype Gated = Gated(room: Room, pass: bool)

  function TakesOwner(r: Room, ownerId: Id): Room {
    if ownerId != "" && r.line.ownerId == "" && (r.line.ownerPin == "" || ownerId == r.line.ownerPin)
    then r.(line := r.line.(ownerId := ownerId)) else r
  }

  function OwnerLearned(g: Self, r: Room, links: seq<Link>, ownerId: Id, now: int): Room {
    TakesOwner(AdoptChain(g, r, links, now), ownerId)
  }

  function BansLearned(g: Self, r: Room, proof: Option<BanSnapshot>): Room {
    if proof.Some? && proof.value.ownerId == r.line.ownerId then AdoptBanState(g, r, proof.value).room else r
  }

  function GateGreet(g: Self, r: Room, f: Frame, h: Hello, now: int): Gated {
    if !ChainsCompatible(r.line.chain, h.chain) then Gated(r, false)
    else
      var r1 := OwnerLearned(g, r, h.chain, h.ownerId, now);
      var r2 := BansLearned(g, r1, h.banState);
      Gated(r2, !r2.roster.kicked && f.memberId !in r2.roster.bans && HasRoom(r2, f.memberId))
  }

  function GateTransfer(g: Self, r: Room, l: Link, banState: Option<BanSnapshot>): Gated {
    var r1 := TakesOwner(r, l.signer);
    if r1.line.ownerId != "" && l.signer != r1.line.ownerId then Gated(r1, false)
    else if banState == None then Gated(r1, !r1.roster.kicked)
    else if banState.value.ownerId != l.signer || l.newOwnerId in banState.value.bans then Gated(r1, false)
    else
      var b := AdoptBanState(g, r1, banState.value);
      Gated(b.room, b.ok && !b.room.roster.kicked)
  }

  predicate OwnerSpeaks(r: Room, signer: Id) { r.line.ownerId != "" && signer == r.line.ownerId }

  // Who has once announced itself as v2 is not taken back to v1.
  function GateVoice(r: Room, memberId: Id, at: int, v2: bool, now: int): Gated {
    if memberId !in r.roster.members || at > now + CLOCK_SLACK || (memberId in r.voiceV2 && !v2) then Gated(r, false)
    else Gated(if v2 then r.(voiceV2 := r.voiceV2 + {memberId}) else r, true)
  }

  /** Everything before a frame is marked as seen and passed on. */
  function Gate(g: Self, r: Room, f: Frame, now: int): Gated {
    match f.body
    case Greet(h) => GateGreet(g, r, f, h, now)
    case Ping(_) => Gated(r, HasRoom(r, f.memberId))
    case Bye => Gated(r, f.memberId in r.roster.members)
    case Presence => Gated(r, f.memberId in r.roster.members)
    case VoiceState(at, v2, _, _, _) => GateVoice(r, f.memberId, at, v2, now)
    case VoiceSignal(_, _, _, _) => Gated(r, f.memberId in r.roster.members)
    case VoiceShare(at) => Gated(r, f.memberId in r.roster.members && at <= now + CLOCK_SLACK)
    case OwnerText(_, _, _, _) => Gated(r, OwnerSpeaks(r, f.signer))
    case Transfer(l, b) => GateTransfer(g, r, l, b)
    case Kick(_, _, _) => Gated(r, OwnerSpeaks(r, f.signer))
    case Rekey(_, _, _, _) => Gated(r, OwnerSpeaks(r, f.signer))
    case Del(fileId, _, _, _) =>
      Gated(r, fileId in r.log.files ==> CanDelete(r.line.ownerId, Some(r.log.files[fileId].addedBy), f.memberId))
    case _ => Gated(r, true)
  }

  function AdoptFiles(g: Self, r: Room, os: seq<Offer>, now: int): Room {
    if os == [] then r else AdoptFile(g, AdoptFiles(g, r, os[..|os| - 1], now), os[|os| - 1], now)
  }

  function AcceptTombs(g: Self, r: Room, ds: seq<(Id, Deletion)>, now: int): Room {
    if ds == [] then r else
      var last := ds[|ds| - 1];
      AcceptTomb(g, AcceptTombs(g, r, ds[..|ds| - 1], now), last.0, last.1, now)
  }

  function Touch(r: Room, memberId: Id): Room { r.(roster := r.roster.(members := r.roster.members + {memberId})) }

  function Left(r: Room, memberId: Id): Room { r.(roster := r.roster.(members := r.roster.members - {memberId})) }

  function Evicted(r: Room): Room { r.(roster := r.roster.(kicked := true)) }

  function Greeted(r: Room, memberId: Id, pub: string): Room {
    var bound := if pub != "" && memberId !in r.identities && |r.identities| < ROOM_IDENTITY_LIMIT
                 then r.(identities := r.identities[memberId := pub]) else r;
    Touch(bound, memberId)
  }

  function DispatchGreet(g: Self, r: Room, f: Frame, h: Hello, now: int): Room {
    if !h.pageAccepted || !HasRoom(r, f.memberId) then r
    else AttestAll(g, Manifest(g, Introduced(g, r, f, h, now), h, now), h.edits)
  }

  // A hello up to its list of files.
  function Introduced(g: Self, r: Room, f: Frame, h: Hello, now: int): Room {
    var met := OwnerLearned(g, Greeted(r, f.memberId, h.pub), h.chain, h.ownerId, now);
    if h.topicMsg.Some? then OwnersWord(g, met, h.topicMsg.value) else met
  }

  function Manifest(g: Self, r: Room, h: Hello, now: int): Room {
    AcceptTombs(g, AdoptFiles(g, r, h.files, now), h.tombSigs, now)
  }

  function Rotate(g: Self, r: Room, newCode: string): Room {
    if newCode == r.code then r
    else r.(log := r.log.(pendingTombs := Empty()), roster := r.roster.(banState := None),
            code := newCode, topic := g.crypto.topicOf(newCode))
  }

  function Ousted(t: Roster, memberId: Id): Roster {
    t.(bans := t.bans + {memberId}, members := t.members - {memberId})
  }

  function DispatchRekey(g: Self, r: Room, signer: Id, newCode: string, kickedId: Id, pub: string, sig: string): Room {
    if !OwnerSpeaks(r, signer)
       || !Verifies(g.crypto, r.identities, signer, pub, sig, RekeyOf(r.topic, newCode, kickedId, signer)) then r
    else
      var bound := Bounded(r, signer, pub);
      if kickedId == g.id then Evicted(bound)
      else Rotate(g, bound.(roster := Ousted(r.roster, kickedId)), newCode)
  }

  function DispatchKick(g: Self, r: Room, signer: Id, targetId: Id, pub: string, sig: string): Room {
    if targetId != g.id || !OwnerSpeaks(r, signer)
       || !Verifies(g.crypto, r.identities, signer, pub, sig, KickOf(r.topic, targetId, signer)) then r
    else Evicted(Bounded(r, signer, pub))
  }

  // A signed text is checked, which binds the key of its author.
  function Attested(g: Self, r: Room, p: Proof): Room {
    if Verifies(g.crypto, r.identities, p.signer, p.pub, p.sig, BodyOf(r.topic, p.text))
      then Bounded(r, p.signer, p.pub) else r
  }

  function OwnersWord(g: Self, r: Room, p: Proof): Room { if OwnerSpeaks(r, p.signer) then Attested(g, r, p) else r }

  function AttestAll(g: Self, r: Room, ps: seq<Proof>): Room {
    if ps == [] then r else Attested(g, AttestAll(g, r, ps[..|ps| - 1]), ps[|ps| - 1])
  }

  // The messages of a chat log, without those of banned members.
  function AttestLog(g: Self, r: Room, ps: seq<Proof>): Room {
    if ps == [] then r else
      var front, p := AttestLog(g, r, ps[..|ps| - 1]), ps[|ps| - 1];
      if p.signer in r.roster.bans then front else Attested(g, front, p)
  }

  function DispatchProfile(g: Self, r: Room, f: Frame, current: bool, pub: string, sig: string, text: string): Room {
    if current && Verifies(g.crypto, r.identities, f.memberId, pub, sig, BodyOf(r.topic, text))
    then Touch(Bounded(r, f.memberId, pub), f.memberId) else r
  }

  predicate CarriesText(b: Body) {
    b.VoiceState? || b.VoiceSignal? || b.VoiceShare? || b.OwnerText? || b.Signed? || b.ChatLog?
  }

  /** What the frame does once it is passed on. */
  function Dispatch(g: Self, r: Room, f: Frame, now: int): Room {
    match f.body
    case Greet(h) => DispatchGreet(g, r, f, h, now)
    case Ping(_) => if HasRoom(r, f.memberId) then Touch(r, f.memberId) else r
    case Bye => Left(r, f.memberId)
    case Presence => r
    case Add(o) => AdoptFile(g, r, o, now)
    case Del(fileId, at, pub, sig) => AcceptTomb(g, r, fileId, Deletion(at, f.memberId, pub, sig), now)
    case Transfer(l, _) => AdoptChain(g, r, r.line.chain + [l], now)
    case Kick(targetId, pub, sig) => DispatchKick(g, r, f.signer, targetId, pub, sig)
    case Rekey(newCode, kickedId, pub, sig) => DispatchRekey(g, r, f.signer, newCode, kickedId, pub, sig)
    case Profile(current, pub, sig, text) => DispatchProfile(g, r, f, current, pub, sig, text)
    case VoiceState(_, _, pub, sig, text) => Attested(g, r, Proof(f.memberId, pub, sig, text))
    case VoiceSignal(to, pub, sig, text) => if to == g.id then Attested(g, r, Proof(f.memberId, pub, sig, text)) else r
    case VoiceShare(_) => r
    case OwnerText(current, pub, sig, text) => if current then OwnersWord(g, r, Proof(f.signer, pub, sig, text)) else r
    case Signed(pub, sig, text) => Attested(g, r, Proof(f.memberId, pub, sig, text))
    case ChatLog(msgs) => AttestLog(g, r, msgs)
  }

  // What validation asks of the sender field.
  predicate Attributed(f: Frame) { f.body.Greet? || f.body.Ping? || f.body.Profile? ==> f.memberId != "" }

  predicate Heard(g: Self, r: Room, f: Frame) {
    !r.roster.kicked && Attributed(f) && KeyMatches(g, r, f) && !(f.memberId != "" && f.memberId in r.roster.bans)
    && !(f.Signer() != "" && f.Signer() in r.roster.bans) && !(f.memberId != "" && f.memberId == g.id)
  }

  function Step(g: Self, r: Room, f: Frame, now: int): Room {
    if !Heard(g, r, f) then r
    else
      var gated := Gate(g, r, f, now);
      if gated.pass then Dispatch(g, gated.room, f, now) else gated.room
  }

  lemma StepWhenHeard(g: Self, r: Room, f: Frame, now: int)
    requires Heard(g, r, f)
    ensures var gated := Gate(g, r, f, now);
            Step(g, r, f, now) == if gated.pass then Dispatch(g, gated.room, f, now) else gated.room
  {}

  function Run(g: Self, r: Room, fs: seq<(Frame, int)>): Room {
    if fs == [] then r else
      var last := fs[|fs| - 1];
      Step(g, Run(g, r, fs[..|fs| - 1]), last.0, last.1)
  }
}
