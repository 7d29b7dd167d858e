/** What each kind of frame does to a browser guest (guest/mesh.ts:649-911), in terms of who sent it,
    what it is signed with and what the guest knows. */
module GuestFrames {
  import opened Ids
  import opened Numbers
  import opened Dicts
  import opened RoomAuthority
  import opened GuestState
  import opened GuestSafety
  import opened GuestTheorems
  import opened GuestAuthority
  import opened GuestGrants

  // ---- Who is heard ----

  // The key a frame shows for its sender, if it shows one.
  function ShownKey(f: Frame): string {
    match f.body
    case Greet(h) => h.pub
    case Ping(pub) => pub
    case _ => ""
  }

  /** A frame is heard unless the guest was kicked, the sender or the signer is banned, it is the
      guest's own, the sender is nameless where it must not be, or the key it shows is not the
      sender's or not the one known for it. */
  lemma HeardIff(g: Self, r: Room, f: Frame)
    ensures Heard(g, r, f) <==>
            && !r.roster.kicked && (f.memberId == "" || (f.memberId != g.id && f.memberId !in r.roster.bans))
            && (f.Signer() == "" || f.Signer() !in r.roster.bans)
            && (f.body.Greet? || f.body.Ping? || f.body.Profile? ==> f.memberId != "")
            && (ShownKey(f) != "" ==>
                  g.crypto.memberIdOf(ShownKey(f)) == f.memberId
                  && (f.memberId in r.identities ==> r.identities[f.memberId] == ShownKey(f)))
  {}

  /** What is not heard leaves no trace. */
  lemma UnheardChangesNothing(g: Self, r: Room, f: Frame, now: int)
    requires !Heard(g, r, f)
    ensures Step(g, r, f, now) == r
  {}

  predicate IsOwner(r: Room, m: Id) { m != "" && m == r.line.ownerId }

  predicate HasPlace(r: Room, m: Id) { m in r.roster.members || |r.roster.members| < 256 }

  /** Which of the other frames are passed on: those of members, those of the owner where only the
      owner may speak, deletions of a listed file by who may delete it, and all else. */
  lemma PassedOnIff(g: Self, r: Room, f: Frame, now: int)
    requires !f.body.Greet? && !f.body.Transfer?
    ensures Gate(g, r, f, now).pass <==>
            match f.body
            case Ping(_) => HasPlace(r, f.memberId)
            case Bye => f.memberId in r.roster.members
            case Presence => f.memberId in r.roster.members
            case VoiceSignal(_, _, _, _) => f.memberId in r.roster.members
            case VoiceShare(at) => f.memberId in r.roster.members && at <= now + 60_000
            case VoiceState(at, v2, _, _, _) =>
              f.memberId in r.roster.members && at <= now + 60_000 && (f.memberId in r.voiceV2 ==> v2)
            case OwnerText(_, _, _, _) => IsOwner(r, f.signer)
            case Kick(_, _, _) => IsOwner(r, f.signer)
            case Rekey(_, _, _, _) => IsOwner(r, f.signer)
            case Del(id, _, _, _) => id in r.log.files ==> HasSay(r, id, f.memberId)
            case _ => true
  {}

  // ---- Members ----

  lemma PingJoins(g: Self, r: Room, f: Frame, now: int)
    requires Heard(g, r, f) && f.body.Ping?
    ensures Step(g, r, f, now) ==
            if HasPlace(r, f.memberId)
            then r.(roster := r.roster.(members := r.roster.members + {f.memberId})) else r
  {
    StepWhenHeard(g, r, f, now);
  }

  lemma ByeLeaves(g: Self, r: Room, f: Frame, now: int)
    requires Heard(g, r, f) && f.body.Bye?
    ensures Step(g, r, f, now) == r.(roster := r.roster.(members := r.roster.members - {f.memberId}))
  {
    StepWhenHeard(g, r, f, now);
  }

  // The signature of a text is good, and its key acceptable.
  predicate Speaks(g: Self, r: Room, m: Id, pub: string, sig: string, text: string) {
    m != "" && sig != "" && g.crypto.memberIdOf(pub) == m && KeyKnown(r, m, pub)
    && g.crypto.valid(pub, BodyOf(r.topic, text), sig)
  }

  /** A profile that is current and signed makes its author a member. */
  lemma ProfileJoins(g: Self, r: Room, f: Frame, now: int)
    requires Heard(g, r, f) && f.body.Profile?
    ensures Step(g, r, f, now) ==
            if f.body.current && Speaks(g, r, f.memberId, f.body.pub, f.body.sig, f.body.text)
            then Learnt(r, f.memberId, f.body.pub).(roster := r.roster.(members := r.roster.members + {f.memberId}))
            else r
  {
    StepWhenHeard(g, r, f, now);
    VerifiesIff(g, r, f.memberId, f.body.pub, f.body.sig, BodyOf(r.topic, f.body.text));
  }

  // The guest knows the member's key from now on.
  function Learnt(r: Room, m: Id, pub: string): Room {
    if m in r.identities then r else r.(identities := r.identities[m := pub])
  }

  // ---- Signed texts ----

  // Who a text frame is by.
  function AuthorOf(f: Frame): Id { if f.body.OwnerText? then f.signer else f.memberId }

  /** A text that is passed on and signed teaches the key of its author and nothing else: chat and
      edits, voice announcements, signals to this guest, and the owner's name and topic of the room. */
  lemma TextTeachesKey(g: Self, r: Room, f: Frame, now: int)
    requires Heard(g, r, f) && (f.body.Signed? || f.body.VoiceState? || f.body.VoiceSignal? || f.body.OwnerText?)
    ensures var gated, m := Gate(g, r, f, now), AuthorOf(f);
            Step(g, r, f, now) ==
            if gated.pass && Speaks(g, r, m, f.body.pub, f.body.sig, f.body.text)
               && (f.body.VoiceSignal? ==> f.body.to == g.id) && (f.body.OwnerText? ==> f.body.current)
            then Learnt(gated.room, m, f.body.pub) else gated.room
  {
    StepWhenHeard(g, r, f, now);
    VerifiesIff(g, r, AuthorOf(f), f.body.pub, f.body.sig, BodyOf(r.topic, f.body.text));
  }

  /** What a voice announcement that is passed on leaves: its sender known as v2 if it is. */
  lemma VoiceGate(g: Self, r: Room, f: Frame, now: int)
    requires f.body.VoiceState?
    ensures Gate(g, r, f, now).room ==
            if Gate(g, r, f, now).pass && f.body.v2 then r.(voiceV2 := r.voiceV2 + {f.memberId}) else r
  {}

  predicate SaysIt(g: Self, r: Room, p: Proof) { Speaks(g, r, p.signer, p.pub, p.sig, p.text) }

  /** Of a chat log every signed message teaches its author's key, one after the other, unless the
      author is banned; of the edits in a hello every signed one does. */
  lemma LogsTeachKeys(g: Self, r: Room, ps: seq<Proof>, p: Proof)
    ensures var before := AttestLog(g, r, ps);
            AttestLog(g, r, ps + [p]) ==
            if p.signer !in r.roster.bans && SaysIt(g, before, p) then Learnt(before, p.signer, p.pub) else before
    ensures var before := AttestAll(g, r, ps);
            AttestAll(g, r, ps + [p]) == if SaysIt(g, before, p) then Learnt(before, p.signer, p.pub) else before
    ensures AttestLog(g, r, []) == r && AttestAll(g, r, []) == r
  {
    assert (ps + [p])[..|ps|] == ps;
    var a, b := AttestLog(g, r, ps), AttestAll(g, r, ps);
    VerifiesIff(g, a, p.signer, p.pub, p.sig, BodyOf(a.topic, p.text));
    VerifiesIff(g, b, p.signer, p.pub, p.sig, BodyOf(b.topic, p.text));
  }

  // ---- Handovers ----

  /** A handover frame without a ban list extends the line held by its link, if it is by the owner the
      guest knows, or may now learn. */
  lemma HandoverIff(g: Self, r: Room, f: Frame, now: int)
    requires Heard(g, r, f) && f.body.Transfer? && f.body.banState == None
    ensures var l, told := f.body.link, r.(line := r.line.(ownerId := ToldOwner(r, f.body.link.signer)));
            Step(g, r, f, now) ==
            if told.line.ownerId == "" || told.line.ownerId == l.signer
            then AdoptChain(g, told, r.line.chain + [l], now) else told
  {
    StepWhenHeard(g, r, f, now);
  }

  // ---- The owner's orders ----

  /** The guest is put out by the owner's signed order that names it, and by no other kick. */
  lemma KickIff(g: Self, r: Room, f: Frame, now: int)
    requires Heard(g, r, f) && f.body.Kick?
    ensures var ordered := IsOwner(r, f.signer) && f.body.targetId == g.id && f.body.sig != ""
                           && g.crypto.memberIdOf(f.body.pub) == f.signer && KeyKnown(r, f.signer, f.body.pub)
                           && g.crypto.valid(f.body.pub, KickOf(r.topic, f.body.targetId, f.signer), f.body.sig);
            Step(g, r, f, now) ==
            if ordered then Learnt(r, f.signer, f.body.pub).(roster := r.roster.(kicked := true)) else r
  {
    StepWhenHeard(g, r, f, now);
    VerifiesIff(g, r, f.signer, f.body.pub, f.body.sig, KickOf(r.topic, f.body.targetId, f.signer));
  }

  // A new key for the room: what waited and the ban proof were for the old one.
  function NewKey(g: Self, r: Room, code: string): Room {
    if code == r.code then r
    else Room(r.identities, r.roster.(banState := None), r.log.(pendingTombs := Empty()), r.line,
              code, g.crypto.topicOf(code), r.voiceV2)
  }

  /** The owner's signed order to change the key bans the member it names, puts this guest out if
      that is the one, and else changes the key. */
  lemma RekeyIff(g: Self, r: Room, f: Frame, now: int)
    requires Heard(g, r, f) && f.body.Rekey?
    ensures var b := f.body;
            var ordered := IsOwner(r, f.signer) && b.sig != ""
                           && g.crypto.memberIdOf(b.pub) == f.signer && KeyKnown(r, f.signer, b.pub)
                           && g.crypto.valid(b.pub, RekeyOf(r.topic, b.newCode, b.kickedId, f.signer), b.sig);
            var known := Learnt(r, f.signer, b.pub);
            Step(g, r, f, now) ==
            if !ordered then r
            else if b.kickedId == g.id then known.(roster := r.roster.(kicked := true))
            else NewKey(g, known.(roster := r.roster.(bans := r.roster.bans + {b.kickedId},
                                                      members := r.roster.members - {b.kickedId})), b.newCode)
  {
    StepWhenHeard(g, r, f, now);
    VerifiesIff(g, r, f.signer, f.body.pub, f.body.sig, RekeyOf(r.topic, f.body.newCode, f.body.kickedId, f.signer));
  }

  // ---- Hellos ----

  // A room that knows no owner takes the one it is told, if it is the one its invite named.
  function ToldOwner(r: Room, owner: Id): Id {
    if r.line.ownerId == "" && (r.line.ownerPin == "" || r.line.ownerPin == owner) then owner else r.line.ownerId
  }

  /** A hello without handovers, bans or a manifest: its sender becomes a member if there is room,
      its key is learned if there is room for keys, and an owner is learned where none is known. */
  lemma PlainHello(g: Self, r: Room, f: Frame, now: int)
    requires Heard(g, r, f) && f.body.Greet? && KeysBelong(g.crypto, r.identities)
    requires var h := f.body.hello;
             && h.chain == [] && h.banState == None
             && h.files == [] && h.tombSigs == [] && h.edits == [] && h.topicMsg == None
    ensures var h, told := f.body.hello, r.(line := r.line.(ownerId := ToldOwner(r, f.body.hello.ownerId)));
            Step(g, r, f, now) ==
            if !h.pageAccepted || !HasPlace(r, f.memberId) then told
            else
              told.(roster := r.roster.(members := r.roster.members + {f.memberId}),
                    identities := if h.pub != "" && f.memberId !in r.identities && |r.identities| < 2048
                                  then r.identities[f.memberId := h.pub] else r.identities)
  {
    StepWhenHeard(g, r, f, now);
    NothingToLearn(g, r, f.body.hello, now);
    PlainGate(g, r, f, now);
    if Gate(g, r, f, now).pass { PlainDispatch(g, Gate(g, r, f, now).room, f, now); }
  }

  lemma NothingToLearn(g: Self, r: Room, h: Hello, now: int)
    requires h.chain == []
    ensures OwnerLearned(g, r, h.chain, h.ownerId, now) == r.(line := r.line.(ownerId := ToldOwner(r, h.ownerId)))
  {}

  lemma PlainGate(g: Self, r: Room, f: Frame, now: int)
    requires Heard(g, r, f) && f.body.Greet? && f.body.hello.chain == [] && f.body.hello.banState == None
    ensures Gate(g, r, f, now)
            == Gated(r.(line := r.line.(ownerId := ToldOwner(r, f.body.hello.ownerId))), HasPlace(r, f.memberId))
  {
    NothingToLearn(g, r, f.body.hello, now);
  }

  // The two lines name different handovers at place i.
  predicate ForkAt(held: seq<Link>, told: seq<Link>, i: nat)
    requires i < |held| && i < |told|
  {
    held[i].signer != told[i].signer || held[i].newOwnerId != told[i].newOwnerId || held[i].at != told[i].at
  }

  ghost predicate Fork(held: seq<Link>, told: seq<Link>) {
    exists i :: 0 <= i < |held| && i < |told| && ForkAt(held, told, i)
  }

  lemma NoFork(held: seq<Link>, told: seq<Link>)
    requires !Fork(held, told)
    ensures ChainsCompatible(held, told)
  {
    forall i | 0 <= i < |held| && i < |told| ensures SameLink(held[i], told[i]) {
      assert !ForkAt(held, told, i);
    }
  }

  /** A hello that contradicts the owner line the guest holds is ignored and not passed on. */
  lemma ForkedHelloIgnored(g: Self, r: Room, f: Frame, now: int)
    requires Heard(g, r, f) && f.body.Greet? && Fork(r.line.chain, f.body.hello.chain)
    ensures Step(g, r, f, now) == r && !Gate(g, r, f, now).pass
  {
    StepWhenHeard(g, r, f, now);
    var held, told := r.line.chain, f.body.hello.chain;
    var i :| 0 <= i < |held| && i < |told| && ForkAt(held, told, i);
    assert !SameLink(held[i], told[i]);
  }

  // The ban list is valid, follows on what r holds, and is signed by r's owner.
  predicate ListCounts(g: Self, r: Room, p: BanSnapshot) {
    ValidBanSnapshot(p) && BanSnapshotAdvances(p, r.line.ownerId, r.roster.banState, r.roster.bans)
    && g.crypto.memberIdOf(p.pub) == p.ownerId && KeyKnown(r, p.ownerId, p.pub)
    && g.crypto.valid(p.pub, BansOf(r.topic, p.ownerId, p.revision, p.bans), p.sig)
  }

  predicate ListHeld(r: Room, p: BanSnapshot) { r.roster.banState.Some? && r.roster.banState.value.sig == p.sig }

  // The list, if there is one, counts, is not the one held already, and names m.
  predicate NewlyBanned(g: Self, r: Room, list: Option<BanSnapshot>, m: Id) {
    list.Some? && ListCounts(g, r, list.value) && !ListHeld(r, list.value) && m in list.value.bans
  }

  // What the guest knows of the owner once it has taken up the handovers of a hello.
  function Told(g: Self, r: Room, h: Hello, now: int): Room {
    var met := AdoptChain(g, r, h.chain, now);
    met.(line := met.line.(ownerId := ToldOwner(met, h.ownerId)))
  }

  /** A hello that does not contradict the line held brings its handovers, its owner and the ban list
      of that owner, in this order, and is passed on if its sender is not banned by then, there is a
      place for it and the guest itself is not put out. */
  lemma HelloGate(g: Self, r: Room, f: Frame, now: int)
    requires f.body.Greet? && !Fork(r.line.chain, f.body.hello.chain)
    ensures var h, s := f.body.hello, Gate(g, r, f, now).room;
            var told := Told(g, r, h, now);
            && ListTaken(g, told, h.banState, s)
            && (Gate(g, r, f, now).pass <==>
                  !s.roster.kicked && f.memberId !in s.roster.bans && HasPlace(s, f.memberId))
  {
    var h := f.body.hello;
    NoFork(r.line.chain, h.chain);
    var told := Told(g, r, h, now);
    assert OwnerLearned(g, r, h.chain, h.ownerId, now) == told;
    if h.banState.Some? { BanListTakenIff(g, told, h.banState.value); }
  }

  // All that the list changes of r but a key learned.
  ghost predicate ListTaken(g: Self, r: Room, list: Option<BanSnapshot>, s: Room) {
    && s.line == r.line && s.log == r.log && s.voiceV2 == r.voiceV2
    && (forall m :: m in s.roster.bans <==> m in r.roster.bans || NewlyBanned(g, r, list, m))
    && (forall m :: m in s.roster.members <==> m in r.roster.members && !NewlyBanned(g, r, list, m))
    && (NewlyBanned(g, r, list, g.id) ==> s.roster.kicked)
  }

  /** A handover frame with a ban list counts only if its signer is the owner, vouches for the list,
      and the list counts and does not ban the new owner; then the list and the handover are taken up. */
  lemma HandoverWithBans(g: Self, r: Room, f: Frame, now: int)
    requires f.body.Transfer? && f.body.banState.Some?
    ensures var l, p, gated := f.body.link, f.body.banState.value, Gate(g, r, f, now);
            var told := r.(line := r.line.(ownerId := ToldOwner(r, l.signer)));
            var fits := (told.line.ownerId == "" || told.line.ownerId == l.signer)
                        && p.ownerId == l.signer && l.newOwnerId !in p.bans;
            && (gated.pass <==> fits && ListCounts(g, told, p) && !gated.room.roster.kicked)
            && ListTaken(g, told, if fits then Some(p) else None, gated.room)
  {
    var told := r.(line := r.line.(ownerId := ToldOwner(r, f.body.link.signer)));
    BanListTakenIff(g, told, f.body.banState.value);
  }

  /** A handover that is passed on extends the line held by its link, as the line admits it. */
  lemma HandoverExtends(g: Self, r: Room, f: Frame, now: int)
    requires Heard(g, r, f) && f.body.Transfer?
    ensures var gated := Gate(g, r, f, now);
            gated.room.line.chain == r.line.chain
            && Step(g, r, f, now) ==
               if gated.pass then AdoptChain(g, gated.room, r.line.chain + [f.body.link], now) else gated.room
  {
    StepWhenHeard(g, r, f, now);
  }

  lemma PlainDispatch(g: Self, r: Room, f: Frame, now: int)
    requires f.body.Greet? && HasPlace(r, f.memberId)
    requires var h := f.body.hello;
             h.chain == [] && h.files == [] && h.tombSigs == [] && h.edits == [] && h.topicMsg == None
    ensures var h := f.body.hello;
            Dispatch(g, r, f, now) ==
            if !h.pageAccepted then r
            else OwnerLearned(g, Greeted(r, f.memberId, h.pub), h.chain, h.ownerId, now)
  {}

  // ---- Hellos and their parts ----

  // A frame that is heard: passed on, and dispatched if it was.
  function Taken(g: Self, r: Room, f: Frame, now: int): Room {
    var gated := Gate(g, r, f, now);
    if gated.pass then Dispatch(g, gated.room, f, now) else gated.room
  }

  function TakenAll(g: Self, r: Room, fs: seq<Frame>, now: int): Room {
    if fs == [] then r else Taken(g, TakenAll(g, r, fs[..|fs| - 1], now), fs[|fs| - 1], now)
  }

  function TopicFrame(h: Hello): seq<Frame> {
    if h.topicMsg == None then [] else
      var p := h.topicMsg.value;
      [Frame("", p.signer, OwnerText(true, p.pub, p.sig, p.text))]
  }

  function AddFrame(o: Offer): Frame { Frame("", "", Add(o)) }

  function DelFrame(d: (Id, Deletion)): Frame { Frame(d.1.signer, "", Del(d.0, d.1.at, d.1.pub, d.1.sig)) }

  function EditFrame(p: Proof): Frame { Frame(p.signer, "", Signed(p.pub, p.sig, p.text)) }

  // The parts of a hello as frames of their own.
  function PartsOf(h: Hello): seq<Frame> {
    TopicFrame(h) + Map(AddFrame, h.files) + Map(DelFrame, h.tombSigs) + Map(EditFrame, h.edits)
  }

  function Map<T, U>(f: T -> U, xs: seq<T>): (r: seq<U>)
    ensures |r| == |xs| && forall i | 0 <= i < |xs| :: r[i] == f(xs[i])
  {
    if xs == [] then [] else Map(f, xs[..|xs| - 1]) + [f(xs[|xs| - 1])]
  }

  /** A hello does what it would do without its topic, files, deletions and edits, and then what these
      would do as frames of their own that are heard, in this order. */
  lemma HelloIsItsParts(g: Self, r: Room, f: Frame, now: int)
    requires f.body.Greet? && f.body.hello.pageAccepted && HasPlace(r, f.memberId)
    ensures var h := f.body.hello;
            var plain := f.(body := Greet(h.(topicMsg := None, files := [], tombSigs := [], edits := [])));
            Dispatch(g, r, f, now) == TakenAll(g, Dispatch(g, r, plain, now), PartsOf(h), now)
  {
    var h := f.body.hello;
    var met := OwnerLearned(g, Greeted(r, f.memberId, h.pub), h.chain, h.ownerId, now);
    var fs, ds, es := Map(AddFrame, h.files), Map(DelFrame, h.tombSigs), Map(EditFrame, h.edits);
    TakenAppend(g, met, TopicFrame(h) + fs + ds, es, now);
    TakenAppend(g, met, TopicFrame(h) + fs, ds, now);
    TakenAppend(g, met, TopicFrame(h), fs, now);
    OneTopic(g, met, h, now);
    var topical := Introduced(g, r, f, h, now);
    FilesAsFrames(g, topical, h.files, now);
    var listed := AdoptFiles(g, topical, h.files, now);
    TombsAsFrames(g, listed, h.tombSigs, now);
    EditsAsFrames(g, Manifest(g, topical, h, now), h.edits, now);
  }

  lemma OneTopic(g: Self, r: Room, h: Hello, now: int)
    ensures TakenAll(g, r, TopicFrame(h), now) == if h.topicMsg.Some? then OwnersWord(g, r, h.topicMsg.value) else r
  {
    if h.topicMsg.Some? { assert TopicFrame(h)[..0] == []; }
  }

  lemma {:induction false} TakenAppend(g: Self, r: Room, a: seq<Frame>, b: seq<Frame>, now: int)
    ensures TakenAll(g, r, a + b, now) == TakenAll(g, TakenAll(g, r, a, now), b, now)
  {
    if b == [] {
      assert a + b == a;
    } else {
      TakenAppend(g, r, a, b[..|b| - 1], now);
      assert (a + b)[..|a + b| - 1] == a + b[..|b| - 1];
    }
  }

  lemma {:induction false} FilesAsFrames(g: Self, r: Room, os: seq<Offer>, now: int)
    ensures TakenAll(g, r, Map(AddFrame, os), now) == AdoptFiles(g, r, os, now)
  {
    if os != [] {
      FilesAsFrames(g, r, os[..|os| - 1], now);
      assert Map(AddFrame, os)[..|os| - 1] == Map(AddFrame, os[..|os| - 1]);
    }
  }

  lemma {:induction false} TombsAsFrames(g: Self, r: Room, ds: seq<(Id, Deletion)>, now: int)
    ensures TakenAll(g, r, Map(DelFrame, ds), now) == AcceptTombs(g, r, ds, now)
  {
    if ds != [] {
      TombsAsFrames(g, r, ds[..|ds| - 1], now);
      assert Map(DelFrame, ds)[..|ds| - 1] == Map(DelFrame, ds[..|ds| - 1]);
      TombAsFrame(g, AcceptTombs(g, r, ds[..|ds| - 1], now), ds[|ds| - 1], now);
    }
  }

  lemma TombAsFrame(g: Self, r: Room, d: (Id, Deletion), now: int)
    ensures Taken(g, r, DelFrame(d), now) == AcceptTomb(g, r, d.0, d.1, now)
  {}

  lemma EditAsFrame(g: Self, r: Room, p: Proof, now: int)
    ensures Taken(g, r, EditFrame(p), now) == Attested(g, r, p)
  {}

  lemma {:induction false} EditsAsFrames(g: Self, r: Room, ps: seq<Proof>, now: int)
    ensures TakenAll(g, r, Map(EditFrame, ps), now) == AttestAll(g, r, ps)
  {
    if ps != [] {
      EditsAsFrames(g, r, ps[..|ps| - 1], now);
      EditAsFrame(g, AttestAll(g, r, ps[..|ps| - 1]), ps[|ps| - 1], now);
      assert Map(EditFrame, ps)[..|ps| - 1] == Map(EditFrame, ps[..|ps| - 1]);
    }
  }

  // ---- Listings ----

  // The deletions the guest knows of leave the file alone.
  predicate NotDeleted(r: Room, id: Id) { id !in r.log.tombs && id !in r.log.pendingTombs.at }

  /** A file that no deletion is known of is listed by the first offer that fits, under the member it
      names, not in the future; a listing is never replaced. */
  lemma AddLists(g: Self, r: Room, f: Frame, now: int)
    requires Heard(g, r, f) && f.body.Add? && NotDeleted(r, f.body.offer.fileId)
    ensures var o, files := f.body.offer, r.log.files;
            Step(g, r, f, now) ==
            if o.fileId !in files && |files| < 5000 && o.fits && o.stores && o.usable && o.addedBy !in r.roster.bans
            then
              var at := if o.addedAt <= now then o.addedAt else now;
              r.(log := r.log.(files := files[o.fileId := FileRec(o.addedBy, at)]))
            else r
  {
    StepWhenHeard(g, r, f, now);
  }
}
