/** Who a browser guest holds voice connections to (guest/voice.ts, the roster and peer
    bookkeeping; shared/room-voice-policy.ts), as values and as the class that updates them. */
module Voice {
  import opened Ids
  import opened Numbers

  const ROOM_VOICE_PEERS := 8
  const ROOM_VOICE_PARTICIPANTS := 9
  const ROOM_VOICE_ROSTER := 256
  const ROOM_VOICE_FLOORS := 2048

  function InRoom(self: Id, active: bool, roster: set<Id>): set<Id> {
    if active then roster + {self} else roster - {self}
  }

  /** Who belongs to the mesh: those with fewer than nine ids in voice before them. */
  ghost function Mesh(self: Id, active: bool, roster: set<Id>): set<Id> {
    var ids := InRoom(self, active, roster);
    set x | x in ids && |Below(ids, x)| < ROOM_VOICE_PARTICIPANTS
  }

  lemma MeshIsSlice(self: Id, active: bool, roster: set<Id>)
    ensures var ids := InRoom(self, active, roster);
            var slice := Sorted(ids)[..Smaller(ROOM_VOICE_PARTICIPANTS, |ids|)];
            Mesh(self, active, roster) == Elements(slice) && Distinct(slice)
  {
    var ids := InRoom(self, active, roster);
    var slice := Sorted(ids)[..Smaller(ROOM_VOICE_PARTICIPANTS, |ids|)];
    forall x ensures x in slice <==> x in Mesh(self, active, roster) { TakeSorted(ids, ROOM_VOICE_PARTICIPANTS, x); }
    AscendingIsDistinct(slice);
  }

  lemma MeshSize(self: Id, active: bool, roster: set<Id>)
    ensures |Mesh(self, active, roster)| == Smaller(ROOM_VOICE_PARTICIPANTS, |InRoom(self, active, roster)|)
  {
    MeshIsSlice(self, active, roster);
    var all := InRoom(self, active, roster);
    ElementsSize(Sorted(all)[..Smaller(ROOM_VOICE_PARTICIPANTS, |all|)]);
  }

  // Those in voice before x, oneself among them while active.
  function Ahead(self: Id, active: bool, roster: set<Id>, x: Id): set<Id> {
    set y | y in roster + {self} && (y == self ==> active) && Less(y, x)
  }

  /** Who is in the mesh: of those in voice the ones with fewer than nine of them before. */
  lemma MeshIff(self: Id, active: bool, roster: set<Id>, x: Id)
    ensures x in Mesh(self, active, roster) <==>
            (if x == self then active else x in roster) && |Ahead(self, active, roster, x)| < 9
  {
    assert Ahead(self, active, roster, x) == Below(InRoom(self, active, roster), x);
  }

  /** voiceMeshMembers: sort the ids in voice and keep the first nine. */
  method VoiceMeshMembers(self: Id, active: bool, roster: set<Id>) returns (m: set<Id>)
    ensures m == Mesh(self, active, roster)
  {
    var ids := if active then roster + {self} else roster - {self};
    var sorted := SortIds(ids);
    MeshIsSlice(self, active, roster);
    m := Elements(sorted[..Smaller(ROOM_VOICE_PARTICIPANTS, |ids|)]);
  }

  // Whom to be connected to: the rest of the mesh, for those in it.
  ghost function PeersFor(self: Id, active: bool, roster: set<Id>): set<Id> {
    var m := Mesh(self, active, roster);
    if active && self in m then m - {self} else {}
  }

  lemma PeersForSize(self: Id, active: bool, roster: set<Id>)
    ensures |PeersFor(self, active, roster)| <= ROOM_VOICE_PEERS
    ensures self !in PeersFor(self, active, roster) && PeersFor(self, active, roster) <= roster
  {
    MeshSize(self, active, roster);
  }

  // ---- State ----

  datatype Flags = Flags(muted: bool, deafened: bool)

  /** `peers` says of every connection whether this end is the polite one; `transmitting` is
      the enabled flag of the microphone track. */
  datatype State = State(
    inVoice: bool, joining: bool, generation: nat, hasStream: bool, transmitting: bool, muted: bool, deafened: bool,
    roster: map<Id, Flags>, peers: map<Id, bool>, speaking: set<Id>, pendingOffers: set<Id>,
    floors: map<Id, int>, lastAt: int)

  function Fresh(): State {
    State(false, false, 0, false, false, false, false, map[], map[], {}, {}, map[], 0)
  }

  predicate StampAccepted(floors: map<Id, int>, id: Id, at: int, now: int) {
    id != "" && SafeInteger(at) && at > (if id in floors then floors[id] else 0)
    && at <= now + CLOCK_SLACK && (id in floors || |floors| < ROOM_VOICE_FLOORS)
  }

  ghost predicate MayTransmit(self: Id, s: State) {
    s.inVoice && self in Mesh(self, s.inVoice, s.roster.Keys) && !s.muted && !s.deafened
  }

  ghost function Transmit(self: Id, s: State): State {
    if s.hasStream then s.(transmitting := MayTransmit(self, s)) else s
  }

  ghost function Connections(self: Id, want: set<Id>): map<Id, bool> { map id | id in want :: Less(id, self) }

  ghost function Reconciled(self: Id, s: State): State {
    var want := PeersFor(self, s.inVoice, s.roster.Keys);
    Transmit(self, s.(peers := Connections(self, want), speaking := s.speaking * want,
      pendingOffers := s.pendingOffers - want))
  }

  function NextAt(s: State, now: int): State { s.(lastAt := if now > s.lastAt + 1 then now else s.lastAt + 1) }

  function Announced(s: State, now: int): State { if s.inVoice then NextAt(s, now) else s }

  /** What happens to the voice state. A join ends later than it begins, when the microphone
      is granted or refused; `Speak` comes from a connection, so from a current peer. */
  datatype Event =
    | BeginJoin
    | EndJoin(generation: nat, granted: bool, now: int)
    | Leave(now: int)
    | SetMuted(on: bool, now: int)
    | SetDeafened(on: bool, now: int)
    | PeerState(id: Id, inVoice: bool, flags: Flags, at: int, now: int)
    | Signal(from: Id, offer: bool)
    | MemberGone(id: Id)
    | Speak(id: Id, speaking: bool)
    | Recaptured
    | Reannounce(now: int)

  // A join that was begun ends once; only a live connection reports speech.
  predicate Possible(s: State, e: Event) {
    (e.EndJoin? && e.generation == s.generation ==> s.joining) && (e.Speak? ==> e.id in s.peers)
  }

  function Left(s: State, now: int): State {
    var t := s.(generation := s.generation + 1, joining := false);
    if !s.inVoice && !s.joining then t
    else
      if s.inVoice then NextAt(HungUp(t), now) else HungUp(t)
  }

  function HungUp(s: State): State {
    s.(inVoice := false, hasStream := false, transmitting := false, peers := map[], speaking := {}, pendingOffers := {})
  }

  function Forgotten(s: State, id: Id): State {
    s.(pendingOffers := s.pendingOffers - {id}, roster := s.roster - {id}, peers := s.peers - {id},
      speaking := s.speaking - {id})
  }

  ghost function EndedJoin(self: Id, s: State, e: Event): State
    requires e.EndJoin?
  {
    if e.generation != s.generation then s
    else if !e.granted then Left(s, e.now)
    else Reconciled(self, NextAt(Captured(s), e.now)).(joining := false)
  }

  // The microphone is granted: its track is open until the rules are applied to it.
  function Captured(s: State): State { s.(inVoice := true, hasStream := true, transmitting := true) }

  ghost function HeardState(self: Id, s: State, e: Event): State
    requires e.PeerState?
  {
    if e.id == self || !StampAccepted(s.floors, e.id, e.at, e.now) then s
    else
      var t := s.(floors := s.floors[e.id := e.at]);
      if !e.inVoice then Reconciled(self, Forgotten(t, e.id))
      else if e.id !in s.roster && |s.roster| >= ROOM_VOICE_ROSTER then t
      else Reconciled(self, t.(roster := s.roster[e.id := e.flags]))
  }

  function HeardSignal(self: Id, s: State, from: Id, offer: bool): State {
    if !s.inVoice || from == self || from in s.roster then s
    else if offer && (from in s.pendingOffers || |s.pendingOffers| < ROOM_VOICE_PEERS)
    then s.(pendingOffers := s.pendingOffers + {from}) else s
  }

  function BegunJoin(s: State): State {
    if s.inVoice || s.joining then s else s.(generation := s.generation + 1, joining := true)
  }

  function Recapture(s: State): State {
    if s.inVoice then s.(transmitting := !s.muted && !s.deafened) else s
  }

  ghost function Spoken(self: Id, s: State, id: Id, on: bool): State {
    Reconciled(self, Noted(s, id, on))
  }

  function Noted(s: State, id: Id, on: bool): State {
    if on then s.(speaking := s.speaking + {id}) else s.(speaking := s.speaking - {id})
  }

  ghost function Step(self: Id, s: State, e: Event): State {
    match e
    case BeginJoin => BegunJoin(s)
    case EndJoin(_, _, _) => EndedJoin(self, s, e)
    case Leave(now) => Left(s, now)
    case PeerState(_, _, _, _, _) => HeardState(self, s, e)
    case MemberGone(id) => Reconciled(self, Forgotten(s, id))
    case Speak(id, on) => Spoken(self, s, id, on)
    case _ => Minor(self, s, e)
  }

  // The events that leave the roster and the connections alone.
  ghost function Minor(self: Id, s: State, e: Event): State {
    match e
    case SetMuted(on, now) => Announced(Transmit(self, s.(muted := on)), now)
    case SetDeafened(on, now) => Announced(Transmit(self, s.(deafened := on)), now)
    case Signal(from, offer) => HeardSignal(self, s, from, offer)
    case Recaptured => Recapture(s)
    case Reannounce(now) => Announced(s, now)
    case _ => s
  }

  // ---- The invariant ----

  ghost predicate RosterInv(self: Id, s: State) {
    && self !in s.roster && |s.roster| <= ROOM_VOICE_ROSTER && |s.floors| <= ROOM_VOICE_FLOORS
    && |s.pendingOffers| <= ROOM_VOICE_PEERS
    && (s.hasStream <==> s.inVoice) && (s.joining ==> !s.inVoice)
    && (!s.inVoice ==> s.pendingOffers == {})
    && (s.transmitting ==> s.inVoice && !s.muted && !s.deafened)
  }

  /** After every event the connections are exactly those of the mesh. */
  ghost predicate Inv(self: Id, s: State) {
    && RosterInv(self, s)
    && s.peers == Connections(self, PeersFor(self, s.inVoice, s.roster.Keys))
    && s.speaking <= s.peers.Keys && s.pendingOffers !! s.peers.Keys
  }

  lemma ReconciledInv(self: Id, s: State)
    requires RosterInv(self, s)
    ensures Inv(self, Reconciled(self, s))
  {
    var want := PeersFor(self, s.inVoice, s.roster.Keys);
    SubsetSize(s.pendingOffers - want, s.pendingOffers);
  }

  lemma MapGrows<V>(m: map<Id, V>, k: Id, v: V)
    ensures |m[k := v]| == if k in m then |m| else |m| + 1
  {
    assert m[k := v].Keys == m.Keys + {k};
    assert |m.Keys| == |m| && |m[k := v].Keys| == |m[k := v]|;
  }

  lemma MapShrinks<V>(m: map<Id, V>, k: Id)
    ensures |m - {k}| <= |m|
  {
    assert (m - {k}).Keys == m.Keys - {k};
    SubsetSize((m - {k}).Keys, m.Keys);
    assert |m.Keys| == |m| && |(m - {k}).Keys| == |m - {k}|;
  }

  lemma ForgottenInv(self: Id, s: State, id: Id)
    requires RosterInv(self, s)
    ensures RosterInv(self, Forgotten(s, id))
  {
    MapShrinks(s.roster, id);
    SubsetSize(s.pendingOffers - {id}, s.pendingOffers);
  }

  lemma HeardStateInv(self: Id, s: State, e: Event)
    requires Inv(self, s) && e.PeerState?
    ensures Inv(self, HeardState(self, s, e))
  {
    if e.id != self && StampAccepted(s.floors, e.id, e.at, e.now) {
      var t := s.(floors := s.floors[e.id := e.at]);
      MapGrows(s.floors, e.id, e.at);
      if !e.inVoice {
        ForgottenInv(self, t, e.id);
        ReconciledInv(self, Forgotten(t, e.id));
      } else if e.id in s.roster || |s.roster| < ROOM_VOICE_ROSTER {
        MapGrows(s.roster, e.id, e.flags);
        ReconciledInv(self, t.(roster := s.roster[e.id := e.flags]));
      }
    }
  }

  lemma LeftInv(self: Id, s: State, now: int)
    requires Inv(self, s)
    ensures Inv(self, Left(s, now))
  {}

  lemma EndedJoinInv(self: Id, s: State, e: Event)
    requires Inv(self, s) && e.EndJoin? && Possible(s, e)
    ensures Inv(self, EndedJoin(self, s, e))
  {
    LeftInv(self, s, e.now);
    if e.generation == s.generation && e.granted {
      var t := NextAt(Captured(s), e.now);
      ReconciledForJoin(self, t);
    }
  }

  // Just after the microphone is granted the track is open; reconciling settles that too.
  lemma ReconciledForJoin(self: Id, t: State)
    requires t.inVoice && t.hasStream
    requires RosterInv(self, t.(inVoice := false, hasStream := false, transmitting := false))
    ensures Inv(self, Reconciled(self, t).(joining := false))
  {}

  lemma MinorInv(self: Id, s: State, e: Event)
    requires Inv(self, s)
    ensures Inv(self, Minor(self, s, e))
  {
    if e.Signal? { HeardSignalInv(self, s, e.from, e.offer); }
  }

  lemma HeardSignalInv(self: Id, s: State, from: Id, offer: bool)
    requires Inv(self, s)
    ensures Inv(self, HeardSignal(self, s, from, offer))
  {
    PeersForSize(self, s.inVoice, s.roster.Keys);
    assert from !in s.pendingOffers ==> |s.pendingOffers + {from}| == |s.pendingOffers| + 1;
    assert from in s.pendingOffers ==> s.pendingOffers + {from} == s.pendingOffers;
  }

  lemma MemberGoneInv(self: Id, s: State, id: Id)
    requires Inv(self, s)
    ensures Inv(self, Reconciled(self, Forgotten(s, id)))
  {
    ForgottenInv(self, s, id);
    ReconciledInv(self, Forgotten(s, id));
  }

  lemma SpokenInv(self: Id, s: State, id: Id, on: bool)
    requires Inv(self, s)
    ensures Inv(self, Spoken(self, s, id, on))
  {
    ReconciledInv(self, Noted(s, id, on));
  }

  lemma BegunJoinInv(self: Id, s: State)
    requires Inv(self, s)
    ensures Inv(self, BegunJoin(s))
  {}

  lemma LocalInv(self: Id, s: State, e: Event)
    requires Inv(self, s) && !e.EndJoin? && !e.PeerState? && !e.MemberGone? && !e.Speak?
    ensures Inv(self, Step(self, s, e))
  {
    if e.Leave? {
      LeftInv(self, s, e.now);
    } else if e.BeginJoin? {
      BegunJoinInv(self, s);
    } else {
      MinorInv(self, s, e);
    }
  }

  lemma EndJoinStepInv(self: Id, s: State, e: Event)
    requires Inv(self, s) && Possible(s, e) && e.EndJoin?
    ensures Inv(self, Step(self, s, e))
  {
    EndedJoinInv(self, s, e);
  }

  lemma PeerStateStepInv(self: Id, s: State, e: Event)
    requires Inv(self, s) && e.PeerState?
    ensures Inv(self, Step(self, s, e))
  {
    HeardStateInv(self, s, e);
  }

  lemma GoneStepInv(self: Id, s: State, e: Event)
    requires Inv(self, s) && e.MemberGone?
    ensures Inv(self, Step(self, s, e))
  {
    MemberGoneInv(self, s, e.id);
  }

  lemma SpeakStepInv(self: Id, s: State, e: Event)
    requires Inv(self, s) && e.Speak?
    ensures Inv(self, Step(self, s, e))
  {
    SpokenInv(self, s, e.id, e.speaking);
  }

  lemma StepInv(self: Id, s: State, e: Event)
    requires Inv(self, s) && Possible(s, e)
    ensures Inv(self, Step(self, s, e))
  {
    if e.EndJoin? { EndJoinStepInv(self, s, e); }
    else if e.PeerState? { PeerStateStepInv(self, s, e); }
    else if e.MemberGone? { GoneStepInv(self, s, e); }
    else if e.Speak? { SpeakStepInv(self, s, e); }
    else { LocalInv(self, s, e); }
  }

  ghost predicate PossibleRun(self: Id, s: State, es: seq<Event>) {
    es == [] || (PossibleRun(self, s, es[..|es| - 1]) && Possible(Run(self, s, es[..|es| - 1]), es[|es| - 1]))
  }

  ghost function Run(self: Id, s: State, es: seq<Event>): State {
    if es == [] then s else Step(self, Run(self, s, es[..|es| - 1]), es[|es| - 1])
  }

  /** In every reachable state the connections are the other mesh members if this one is in
      the mesh, and none if it is not. */
  lemma {:induction false} RunInv(self: Id, s: State, es: seq<Event>)
    requires Inv(self, s) && PossibleRun(self, s, es)
    ensures Inv(self, Run(self, s, es))
  {
    if es != [] {
      RunInv(self, s, es[..|es| - 1]);
      StepInv(self, Run(self, s, es[..|es| - 1]), es[|es| - 1]);
    }
  }

  lemma FreshInv(self: Id)
    ensures Inv(self, Fresh())
  {
    assert PeersFor(self, false, {}) == {};
  }

  // ---- Agreement ----

  // The client knows of exactly those in voice.
  ghost predicate Converged(self: Id, s: State, inVoice: set<Id>) {
    Inv(self, s) && s.inVoice && self in inVoice && s.roster.Keys == inVoice - {self}
  }

  // Every roster within the cap can be converged on.
  lemma ConvergedExists(self: Id, inVoice: set<Id>) returns (s: State)
    requires self in inVoice && |inVoice| <= ROOM_VOICE_ROSTER
    ensures Converged(self, s, inVoice)
  {
    var roster := map id | id in inVoice - {self} :: Flags(false, false);
    assert roster.Keys == inVoice - {self};
    SubsetSize(roster.Keys, inVoice);
    assert |roster.Keys| == |roster|;
    var t := Fresh().(inVoice := true, hasStream := true, roster := roster);
    ReconciledInv(self, t);
    s := Reconciled(self, t);
  }

  // Connected: both ends have fewer than nine ids in voice before them.
  ghost predicate BothIn(a: Id, b: Id, inVoice: set<Id>) {
    a in inVoice && b in inVoice && |Below(inVoice, a)| < ROOM_VOICE_PARTICIPANTS
      && |Below(inVoice, b)| < ROOM_VOICE_PARTICIPANTS
  }

  lemma PeerIff(a: Id, s: State, b: Id, inVoice: set<Id>)
    requires a != b && Converged(a, s, inVoice)
    ensures b in s.peers <==> BothIn(a, b, inVoice)
    ensures b in s.peers ==> s.peers[b] == Less(b, a)
    ensures |s.peers| <= ROOM_VOICE_PEERS
  {
    var roster := inVoice - {a};
    assert InRoom(a, true, roster) == inVoice;
    PeersForSize(a, true, roster);
    assert s.peers.Keys == PeersFor(a, true, roster);
    assert |s.peers.Keys| == |s.peers|;
  }

  /** Two clients with converged rosters are connected to each other or not, alike: exactly
      when each has fewer than nine ids in voice before it; exactly one of the two ends is
      polite; and nobody holds more than eight connections. */
  lemma MeshAgreement(a: Id, s: State, b: Id, t: State, inVoice: set<Id>)
    requires a != b && Converged(a, s, inVoice) && Converged(b, t, inVoice)
    ensures b in s.peers <==> a in t.peers
    ensures b in s.peers <==> BothIn(a, b, inVoice)
    ensures b in s.peers ==> s.peers[b] != t.peers[a]
    ensures |s.peers| <= ROOM_VOICE_PEERS && |t.peers| <= ROOM_VOICE_PEERS
  {
    PeerIff(a, s, b, inVoice);
    PeerIff(b, t, a, inVoice);
    LessTotal(a, b);
    if Less(a, b) { LessAsymmetric(a, b); } else { LessAsymmetric(b, a); }
  }

  // ---- Stamps ----

  ghost predicate FloorsGrow(f: map<Id, int>, g: map<Id, int>) { forall id | id in f :: id in g && g[id] >= f[id] }

  /** A stamp once accepted is a floor for good: no later state, after leaving, rejoining or
      losing the member, accepts that stamp or an older one again. */
  lemma {:induction false} FloorsForGood(self: Id, s: State, es: seq<Event>, id: Id, at: int, now: int)
    requires id in s.floors && at <= s.floors[id]
    ensures FloorsGrow(s.floors, Run(self, s, es).floors)
    ensures !StampAccepted(Run(self, s, es).floors, id, at, now)
  {
    if es != [] {
      var t := Run(self, s, es[..|es| - 1]);
      FloorsForGood(self, s, es[..|es| - 1], id, at, now);
      FloorStep(self, t, es[|es| - 1]);
    }
  }

  lemma FloorStep(self: Id, s: State, e: Event)
    ensures FloorsGrow(s.floors, Step(self, s, e).floors)
  {
    if e.PeerState? { HeardStateFloors(self, s, e); } else { OtherFloors(self, s, e); }
  }

  lemma OtherFloors(self: Id, s: State, e: Event)
    requires !e.PeerState?
    ensures Step(self, s, e).floors == s.floors
  {
    if e.EndJoin? {
      EndedJoinFloors(self, s, e);
    } else if e.MemberGone? {
      ReconciledFloors(self, Forgotten(s, e.id));
    } else if e.Speak? {
      ReconciledFloors(self, Noted(s, e.id, e.speaking));
    } else {
      MinorFloors(self, s, e);
    }
  }

  lemma MinorFloors(self: Id, s: State, e: Event)
    ensures Minor(self, s, e).floors == s.floors
  {
    if e.SetMuted? {
      TransmitFloors(self, s.(muted := e.on));
    } else if e.SetDeafened? {
      TransmitFloors(self, s.(deafened := e.on));
    }
  }

  lemma TransmitFloors(self: Id, s: State)
    ensures Transmit(self, s).floors == s.floors
  {}

  lemma ReconciledFloors(self: Id, s: State)
    ensures Reconciled(self, s).floors == s.floors
  {}

  lemma HeardStateFloors(self: Id, s: State, e: Event)
    requires e.PeerState?
    ensures FloorsGrow(s.floors, HeardState(self, s, e).floors)
  {
    var t := s.(floors := s.floors[e.id := e.at]);
    ReconciledFloors(self, Forgotten(t, e.id));
    ReconciledFloors(self, t.(roster := s.roster[e.id := e.flags]));
    if StampAccepted(s.floors, e.id, e.at, e.now) { assert FloorsGrow(s.floors, t.floors); }
  }

  lemma EndedJoinFloors(self: Id, s: State, e: Event)
    requires e.EndJoin?
    ensures EndedJoin(self, s, e).floors == s.floors
  {
    ReconciledFloors(self, NextAt(Captured(s), e.now));
  }

  // ---- The microphone ----

  // The microphone is as the rules say.
  ghost predicate Right(self: Id, s: State) { s.transmitting <==> MayTransmit(self, s) }

  // The new track of a device change is opened without asking for a slot in the mesh.
  ghost predicate Slips(self: Id, s: State, e: Event) {
    e.Recaptured? && s.inVoice && self !in Mesh(self, true, s.roster.Keys) && !s.muted && !s.deafened
  }

  /** After a device change the microphone is as the rules say exactly when the guest is in the
      mesh or silenced anyway. */
  lemma RecaptureIgnoresMesh(self: Id, s: State)
    requires s.inVoice
    ensures Right(self, Step(self, s, Recaptured)) <==> self in Mesh(self, true, s.roster.Keys) || s.muted || s.deafened
  {
    assert Step(self, s, Recaptured) == Recapture(s);
  }

  lemma ReconciledRight(self: Id, s: State)
    requires s.hasStream <==> s.inVoice
    requires !s.inVoice ==> !s.transmitting
    ensures Right(self, Reconciled(self, s))
  {}

  lemma HeardStateRight(self: Id, s: State, e: Event)
    requires Inv(self, s) && Right(self, s) && e.PeerState?
    ensures Right(self, HeardState(self, s, e))
  {
    var t := s.(floors := s.floors[e.id := e.at]);
    ReconciledRight(self, Forgotten(t, e.id));
    ReconciledRight(self, t.(roster := s.roster[e.id := e.flags]));
  }

  lemma EndedJoinRight(self: Id, s: State, e: Event)
    requires Inv(self, s) && Right(self, s) && e.EndJoin?
    ensures Right(self, EndedJoin(self, s, e))
  {
    ReconciledRight(self, NextAt(Captured(s), e.now));
    LeftRight(self, s, e.now);
  }

  lemma LeftRight(self: Id, s: State, now: int)
    requires Inv(self, s) && Right(self, s)
    ensures Right(self, Left(s, now))
  {}

  lemma MinorRight(self: Id, s: State, e: Event)
    requires Inv(self, s) && Right(self, s) && !Slips(self, s, e)
    ensures Right(self, Minor(self, s, e))
  {}

  lemma ReconcilingRight(self: Id, s: State, e: Event)
    requires Inv(self, s) && (e.MemberGone? || e.Speak?)
    ensures Right(self, Step(self, s, e))
  {
    if e.MemberGone? {
      ReconciledRight(self, Forgotten(s, e.id));
    } else {
      ReconciledRight(self, Noted(s, e.id, e.speaking));
    }
  }

  lemma HearingRight(self: Id, s: State, e: Event)
    requires Inv(self, s) && Right(self, s) && (e.EndJoin? || e.PeerState?)
    ensures Right(self, Step(self, s, e))
  {
    if e.EndJoin? { EndedJoinRight(self, s, e); } else { HeardStateRight(self, s, e); }
  }

  lemma StepRight(self: Id, s: State, e: Event)
    requires Inv(self, s) && Right(self, s) && !Slips(self, s, e)
    ensures Right(self, Step(self, s, e))
  {
    if e.EndJoin? || e.PeerState? { HearingRight(self, s, e); }
    else if e.MemberGone? || e.Speak? { ReconcilingRight(self, s, e); }
    else { LocalRight(self, s, e); }
  }

  lemma LocalRight(self: Id, s: State, e: Event)
    requires Inv(self, s) && Right(self, s) && !Slips(self, s, e)
    requires !e.EndJoin? && !e.PeerState? && !e.MemberGone? && !e.Speak?
    ensures Right(self, Step(self, s, e))
  {
    if e.Leave? {
      LeftRight(self, s, e.now);
    } else if !e.BeginJoin? {
      MinorRight(self, s, e);
    }
  }

  ghost predicate AlwaysRight(self: Id, s: State, es: seq<Event>) {
    Right(self, Run(self, s, es)) && (es == [] || AlwaysRight(self, s, es[..|es| - 1]))
  }

  ghost predicate NeverSlips(self: Id, s: State, es: seq<Event>) {
    es == [] || (NeverSlips(self, s, es[..|es| - 1]) && !Slips(self, Run(self, s, es[..|es| - 1]), es[|es| - 1]))
  }

  /** From a fresh start, the microphone is as the rules say in every state of a run if and only
      if no device change falls into a time in voice, outside the mesh, neither muted nor
      deafened. */
  lemma {:induction false} MicrophoneRightIff(self: Id, es: seq<Event>)
    requires PossibleRun(self, Fresh(), es)
    ensures AlwaysRight(self, Fresh(), es) <==> NeverSlips(self, Fresh(), es)
  {
    if es == [] {
      assert Run(self, Fresh(), es) == Fresh();
    } else {
      var front, e := es[..|es| - 1], es[|es| - 1];
      var s := Run(self, Fresh(), front);
      MicrophoneRightIff(self, front);
      FreshInv(self);
      RunInv(self, Fresh(), front);
      if Slips(self, s, e) {
        RecaptureIgnoresMesh(self, s);
      } else if AlwaysRight(self, Fresh(), front) {
        RightAtEnd(self, Fresh(), front);
        StepRight(self, s, e);
      }
    }
  }

  lemma RightAtEnd(self: Id, s: State, es: seq<Event>)
    requires AlwaysRight(self, s, es)
    ensures Right(self, Run(self, s, es))
  {}

  // ---- The class ----

  class GuestVoice {
    const selfId: Id
    var inVoice: bool
    var joining: bool
    var captureGeneration: nat
    var hasStream: bool
    var transmitting: bool
    var muted: bool
    var deafened: bool
    var roster: map<Id, Flags>
    var peers: map<Id, bool>
    var speaking: set<Id>
    var pendingOffers: set<Id>
    var lastStateAt: map<Id, int>
    var lastAt: int

    function Now(): State
      reads this
    {
      State(inVoice, joining, captureGeneration, hasStream, transmitting, muted, deafened,
            roster, peers, speaking, pendingOffers, lastStateAt, lastAt)
    }

    constructor (id: Id)
      ensures selfId == id && Now() == Fresh() && Inv(id, Now())
    {
      selfId := id;
      inVoice, joining, captureGeneration, hasStream, transmitting := false, false, 0, false, false;
      muted, deafened, roster, peers := false, false, map[], map[];
      speaking, pendingOffers, lastStateAt, lastAt := {}, {}, map[], 0;
      new;
      FreshInv(id);
    }

    // nextAt: this client's own stamps strictly increase.
    method Stamp(now: int)
      modifies this`lastAt
      ensures Now() == NextAt(old(Now()), now) && lastAt > old(lastAt) && lastAt >= now
    {
      lastAt := if now > lastAt + 1 then now else lastAt + 1;
    }

    method AcceptVoiceStamp(id: Id, at: int, now: int) returns (ok: bool)
      modifies this`lastStateAt
      ensures ok == StampAccepted(old(lastStateAt), id, at, now)
      ensures Now() == if ok then old(Now()).(floors := old(lastStateAt)[id := at]) else old(Now())
    {
      var floor := if id in lastStateAt then lastStateAt[id] else 0;
      if id == "" || !SafeInteger(at) || at <= floor || at > now + CLOCK_SLACK { return false; }
      if id !in lastStateAt && |lastStateAt| >= ROOM_VOICE_FLOORS { return false; }
      lastStateAt := lastStateAt[id := at];
      ok := true;
    }

    method ApplyTransmit()
      modifies this`transmitting
      ensures Now() == Transmit(selfId, old(Now()))
    {
      var mesh := VoiceMeshMembers(selfId, inVoice, roster.Keys);
      if hasStream { transmitting := inVoice && selfId in mesh && !muted && !deafened; }
    }

    /** ensurePeer: connect to a mesh member, taking up the offer that waited for it. */
    method EnsurePeer(memberId: Id)
      modifies this`peers, this`pendingOffers
      ensures var made := inVoice && hasStream && memberId in PeersFor(selfId, inVoice, roster.Keys)
                          && memberId !in old(peers) && |old(peers)| < ROOM_VOICE_PEERS;
              && peers == (if made then old(peers)[memberId := Less(memberId, selfId)] else old(peers))
              && pendingOffers == if made then old(pendingOffers) - {memberId} else old(pendingOffers)
    {
      var admitted := VoiceMeshMembers(selfId, inVoice, roster.Keys);
      if !inVoice || selfId !in admitted || memberId !in admitted { return; }
      if !hasStream || memberId == selfId { return; }
      if memberId in peers { return; }
      if |peers| >= ROOM_VOICE_PEERS { return; }
      peers := peers[memberId := Less(memberId, selfId)];
      pendingOffers := pendingOffers - {memberId};
    }

    /** reconcilePeers: close what is outside the mesh, open what is missing. */
    method ReconcilePeers()
      requires hasStream <==> inVoice
      requires selfId !in peers && Polite()
      requires pendingOffers !! peers.Keys && speaking <= peers.Keys
      modifies this`peers, this`speaking, this`pendingOffers, this`transmitting
      ensures Now() == Reconciled(selfId, old(Now()))
    {
      ghost var want := PeersFor(selfId, inVoice, roster.Keys);
      CloseStale();
      if inVoice {
        var admitted := VoiceMeshMembers(selfId, inVoice, roster.Keys);
        if selfId in admitted { OpenMissing(admitted - {selfId}); }
      }
      assert peers == Connections(selfId, want);
      ApplyTransmit();
    }

    method CloseStale()
      requires selfId !in peers && Polite()
      requires speaking <= peers.Keys
      modifies this`peers, this`speaking
      ensures Polite()
      ensures peers.Keys == old(peers).Keys * PeersFor(selfId, inVoice, roster.Keys)
      ensures speaking == old(speaking) * peers.Keys
    {
      var admitted := VoiceMeshMembers(selfId, inVoice, roster.Keys);
      ghost var want := PeersFor(selfId, inVoice, roster.Keys);
      var todo := peers.Keys;
      while todo != {}
        invariant todo <= old(peers).Keys
        invariant Polite()
        invariant forall id :: id in peers <==> id in old(peers) && (id in todo || id in want)
        invariant speaking == old(speaking) * peers.Keys
      {
        var id :| id in todo;
        if !inVoice || selfId !in admitted || id !in admitted {
          peers, speaking := peers - {id}, speaking - {id};
        }
        todo := todo - {id};
      }
    }

    method OpenMissing(others: set<Id>)
      requires inVoice && hasStream && others == PeersFor(selfId, inVoice, roster.Keys)
      requires Polite()
      requires peers.Keys <= others && pendingOffers !! peers.Keys
      modifies this`peers, this`pendingOffers
      ensures peers == Connections(selfId, others)
      ensures pendingOffers == old(pendingOffers) - others
    {
      PeersForSize(selfId, inVoice, roster.Keys);
      OpenAll(others);
      IsConnections(selfId, peers);
    }

    method OpenAll(others: set<Id>)
      requires inVoice && hasStream && Within(others) && Polite()
      requires pendingOffers !! peers.Keys
      modifies this`peers, this`pendingOffers
      ensures Polite() && peers.Keys == others
      ensures forall id :: id in pendingOffers <==> id in old(pendingOffers) && id !in others
    {
      var todo := others;
      while todo != {}
        invariant Within(others) && todo <= others && Polite()
        invariant forall id | id in others :: id in todo || id in peers
        invariant forall id :: id in pendingOffers <==> id in old(pendingOffers) && id !in peers
      {
        var id :| id in todo;
        OpenOne(id, others);
        todo := todo - {id};
      }
    }

    ghost predicate Polite()
      reads this
    {
      forall id | id in peers :: peers[id] == Less(id, selfId)
    }

    ghost predicate Within(others: set<Id>)
      reads this
    {
      others == PeersFor(selfId, inVoice, roster.Keys) && |others| <= ROOM_VOICE_PEERS && peers.Keys <= others
    }

    method OpenOne(id: Id, others: set<Id>)
      requires inVoice && hasStream && Within(others) && id in others
      modifies this`peers, this`pendingOffers
      ensures peers == if id in old(peers) then old(peers) else old(peers)[id := Less(id, selfId)]
      ensures pendingOffers == if id in old(peers) then old(pendingOffers) else old(pendingOffers) - {id}
    {
      if id !in peers { RoomForOne(peers, others, id); }
      EnsurePeer(id);
    }

    // What an event may rely on; StepInv is why it holds again afterwards.
    ghost predicate Settled()
      reads this
    {
      Inv(selfId, Now())
    }

    method BeginJoin() returns (generation: nat)
      requires Settled()
      modifies this`joining, this`captureGeneration
      ensures Now() == BegunJoin(old(Now())) && generation == captureGeneration
    {
      generation := captureGeneration;
      if inVoice || joining { return; }
      captureGeneration := captureGeneration + 1;
      generation := captureGeneration;
      joining := true;
    }

    method EndJoin(generation: nat, granted: bool, now: int)
      requires Settled() && Possible(Now(), Event.EndJoin(generation, granted, now))
      modifies this
      ensures Now() == EndedJoin(selfId, old(Now()), Event.EndJoin(generation, granted, now))
    {
      if generation != captureGeneration { return; }
      if granted {
        NoConnections();
        Capture();
        Stamp(now);
        ReconcilePeers();
        joining := false;
      } else {
        Leave(now);
      }
    }

    method Capture()
      modifies this`inVoice, this`hasStream, this`transmitting
      ensures Now() == Captured(old(Now()))
    {
      hasStream, transmitting, inVoice := true, true, true;
    }

    lemma NoConnections()
      requires Settled() && !inVoice
      ensures peers == map[] && speaking == {} && pendingOffers == {}
    {}

    method Leave(now: int)
      modifies this
      ensures Now() == Left(old(Now()), now)
    {
      captureGeneration := captureGeneration + 1;
      var wasActive, wasJoining := inVoice, joining;
      joining := false;
      if !wasActive && !wasJoining { return; }
      HangUp();
      if wasActive { Stamp(now); }
    }

    method HangUp()
      modifies this`inVoice, this`hasStream, this`transmitting, this`peers, this`speaking, this`pendingOffers
      ensures Now() == HungUp(old(Now()))
    {
      inVoice, hasStream, transmitting := false, false, false;
      peers, speaking, pendingOffers := map[], {}, {};
    }

    method SetMuted(on: bool, now: int)
      requires Settled()
      modifies this`muted, this`transmitting, this`lastAt
      ensures Now() == Announced(Transmit(selfId, old(Now()).(muted := on)), now)
    {
      muted := on;
      ApplyTransmit();
      if inVoice { Stamp(now); }
    }

    method SetDeafened(on: bool, now: int)
      requires Settled()
      modifies this`deafened, this`transmitting, this`lastAt
      ensures Now() == Announced(Transmit(selfId, old(Now()).(deafened := on)), now)
    {
      deafened := on;
      ApplyTransmit();
      if inVoice { Stamp(now); }
    }

    /** onPeerState: a signed announcement of another member. */
    method OnPeerState(id: Id, active: bool, flags: Flags, at: int, now: int)
      requires Settled()
      modifies this
      ensures Now() == HeardState(selfId, old(Now()), Event.PeerState(id, active, flags, at, now))
    {
      ReadyToReconcile();
      if id == selfId { return; }
      var fresher := AcceptVoiceStamp(id, at, now);
      if !fresher { return; }
      if !active {
        Forget(id);
        ReconcilePeers();
        return;
      }
      if id !in roster && |roster| >= ROOM_VOICE_ROSTER { return; }
      Enlist(id, flags);
      ReconcilePeers();
    }

    method Enlist(id: Id, flags: Flags)
      modifies this`roster
      ensures Now() == old(Now()).(roster := old(roster)[id := flags])
    {
      roster := roster[id := flags];
    }

    lemma ReadyToReconcile()
      requires Settled()
      ensures (hasStream <==> inVoice) && selfId !in peers && Polite()
      ensures pendingOffers !! peers.Keys && speaking <= peers.Keys
    {
      PeersForSize(selfId, inVoice, roster.Keys);
    }

    method Forget(id: Id)
      modifies this`pendingOffers, this`roster, this`peers, this`speaking
      ensures Now() == Forgotten(old(Now()), id)
    {
      pendingOffers, roster := pendingOffers - {id}, roster - {id};
      peers, speaking := peers - {id}, speaking - {id};
    }

    method OnMemberGone(id: Id)
      requires Settled()
      modifies this`pendingOffers, this`roster, this`peers, this`speaking, this`transmitting
      ensures Now() == Reconciled(selfId, Forgotten(old(Now()), id))
    {
      ReadyToReconcile();
      Forget(id);
      ReconcilePeers();
    }

    /** onSignal: of a member in the roster it reaches its connection, if there is one; of
        another, one offer is kept until its announcement arrives. */
    method OnSignal(from: Id, offer: bool)
      requires Settled()
      modifies this`peers, this`pendingOffers
      ensures Now() == HeardSignal(selfId, old(Now()), from, offer)
    {
      if !inVoice || from == selfId { return; }
      if from in roster {
        EnsurePeer(from);
        return;
      }
      if offer && (from in pendingOffers || |pendingOffers| < ROOM_VOICE_PEERS) {
        pendingOffers := pendingOffers + {from};
      }
    }

    // The callback of a live connection's voice detector.
    method OnSpeaking(id: Id, on: bool)
      requires Settled() && id in peers
      modifies this`peers, this`speaking, this`pendingOffers, this`transmitting
      ensures Now() == Spoken(selfId, old(Now()), id, on)
    {
      ReadyToReconcile();
      NoteSpeaking(id, on);
      ReconcilePeers();
    }

    method NoteSpeaking(id: Id, on: bool)
      modifies this`speaking
      ensures Now() == Noted(old(Now()), id, on)
    {
      speaking := if on then speaking + {id} else speaking - {id};
    }

    // recapture, once the new device is granted.
    method OnRecaptured()
      requires Settled()
      modifies this`transmitting
      ensures Now() == Recapture(old(Now()))
    {
      if inVoice { transmitting := !muted && !deafened; }
    }

    method Reannounce(now: int)
      requires Settled()
      modifies this`lastAt
      ensures Now() == Announced(old(Now()), now)
    {
      if inVoice { Stamp(now); }
    }
  }

  lemma IsConnections(self: Id, peers: map<Id, bool>)
    requires forall id | id in peers :: peers[id] == Less(id, self)
    ensures peers == Connections(self, peers.Keys)
  {}

  lemma RoomForOne(peers: map<Id, bool>, others: set<Id>, id: Id)
    requires peers.Keys <= others && id in others && id !in peers && |others| <= ROOM_VOICE_PEERS
    ensures |peers| < ROOM_VOICE_PEERS
  {
    SubsetSize(peers.Keys + {id}, others);
    assert |peers.Keys| == |peers|;
  }
}
