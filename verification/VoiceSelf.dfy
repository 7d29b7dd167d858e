/** A client's own part in the voice room, event by event and over runs (guest/voice.ts): when it
    is in voice, what it announces, which offers wait and who is heard speaking. */
module VoiceSelf {
  import opened Ids
  import opened Numbers
  import opened Voice

  // ---- In and out ----

  datatype Standing = Out | Joining | In

  function StandingOf(s: State): Standing { if s.inVoice then In else if s.joining then Joining else Out }

  // The end of the join that is under way, and not of one that was overtaken.
  predicate EndsThisJoin(s: State, e: Event) { e.EndJoin? && e.generation == s.generation && s.joining }

  /** A client begins to join when it is out, is in once that very join is granted, and out when it
      is refused or when it leaves; nothing else moves it. */
  lemma StandingIff(self: Id, s: State, e: Event)
    requires Inv(self, s) && Possible(s, e)
    ensures StandingOf(Step(self, s, e)) ==
            if e.Leave? then Out
            else if e.BeginJoin? && StandingOf(s) == Out then Joining
            else if EndsThisJoin(s, e) then if e.granted then In else Out
            else StandingOf(s)
  {
    if e.PeerState? || e.MemberGone? || e.Speak? { OthersKeepStanding(self, s, e); }
    else if e.EndJoin? { JoinEnds(self, s, e); }
  }

  lemma JoinEnds(self: Id, s: State, e: Event)
    requires Inv(self, s) && Possible(s, e) && e.EndJoin?
    ensures StandingOf(Step(self, s, e)) ==
            if EndsThisJoin(s, e) then if e.granted then In else Out else StandingOf(s)
    ensures Step(self, s, e).generation >= s.generation
  {
    ReconciledSelf(self, NextAt(Captured(s), e.now));
  }

  // What reconciling leaves alone.
  lemma ReconciledSelf(self: Id, s: State)
    ensures var t := Reconciled(self, s);
            && t.inVoice == s.inVoice && t.joining == s.joining && t.generation == s.generation && t.lastAt == s.lastAt
            && t.muted == s.muted && t.deafened == s.deafened && t.hasStream == s.hasStream
            && t.pendingOffers == s.pendingOffers - t.peers.Keys && t.speaking == s.speaking * t.peers.Keys
  {}

  predicate SameSelf(s: State, t: State) {
    && StandingOf(t) == StandingOf(s) && t.generation == s.generation && t.lastAt == s.lastAt
    && t.muted == s.muted && t.deafened == s.deafened
  }

  lemma OthersKeepStanding(self: Id, s: State, e: Event)
    requires e.PeerState? || e.MemberGone? || e.Speak?
    ensures SameSelf(s, Step(self, s, e))
  {
    if e.PeerState? { AnnouncedKeepsStanding(self, s, e); }
    else if e.MemberGone? { GoneKeepsStanding(self, s, e); }
    else { SpeechKeepsStanding(self, s, e); }
  }

  // Reconciling after a change that leaves the client's own part alone leaves it alone.
  lemma StillSame(self: Id, s: State, u: State, t: State)
    requires SameSelf(s, u) && t == Reconciled(self, u)
    ensures SameSelf(s, t)
  {
    ReconciledSelf(self, u);
  }

  lemma GoneIs(self: Id, s: State, e: Event)
    requires e.MemberGone?
    ensures Step(self, s, e) == Reconciled(self, Forgotten(s, e.id))
  {}

  lemma SpeechIs(self: Id, s: State, e: Event)
    requires e.Speak?
    ensures Step(self, s, e) == Reconciled(self, Noted(s, e.id, e.speaking))
  {}

  lemma AnnouncedIs(self: Id, s: State, e: Event)
    requires e.PeerState?
    ensures Step(self, s, e) == HeardState(self, s, e)
  {}

  lemma GoneKeepsStanding(self: Id, s: State, e: Event)
    requires e.MemberGone?
    ensures SameSelf(s, Step(self, s, e))
  {
    GoneIs(self, s, e);
    StillSame(self, s, Forgotten(s, e.id), Step(self, s, e));
  }

  lemma SpeechKeepsStanding(self: Id, s: State, e: Event)
    requires e.Speak?
    ensures SameSelf(s, Step(self, s, e))
  {
    SpeechIs(self, s, e);
    StillSame(self, s, Noted(s, e.id, e.speaking), Step(self, s, e));
  }

  lemma AnnouncedKeepsStanding(self: Id, s: State, e: Event)
    requires e.PeerState?
    ensures SameSelf(s, Step(self, s, e))
  {
    AnnouncedIs(self, s, e);
    HeardKeepsStanding(self, s, e, HeardState(self, s, e));
  }

  lemma HeardKeepsStanding(self: Id, s: State, e: Event, h: State)
    requires e.PeerState? && h == HeardState(self, s, e)
    ensures SameSelf(s, h)
  {
    var t := s.(floors := s.floors[e.id := e.at]);
    var off, on := Forgotten(t, e.id), t.(roster := s.roster[e.id := e.flags]);
    StillSame(self, s, off, Reconciled(self, off));
    StillSame(self, s, on, Reconciled(self, on));
  }

  // A join begun or left behind is never the current one again.
  lemma GenerationGrows(self: Id, s: State, e: Event)
    ensures Step(self, s, e).generation >= s.generation
    ensures e.Leave? || (e.BeginJoin? && StandingOf(s) == Out) ==> Step(self, s, e).generation > s.generation
  {
    if e.PeerState? || e.MemberGone? || e.Speak? { OthersKeepStanding(self, s, e); }
    else if e.EndJoin? { ReconciledSelf(self, NextAt(Captured(s), e.now)); }
  }

  lemma {:induction false} GenerationNeverBack(self: Id, s: State, es: seq<Event>)
    ensures Run(self, s, es).generation >= s.generation
  {
    if es != [] {
      GenerationNeverBack(self, s, es[..|es| - 1]);
      GenerationGrows(self, Run(self, s, es[..|es| - 1]), es[|es| - 1]);
    }
  }

  /** A join that was overtaken by leaving has no effect when it ends, however much later. */
  lemma OvertakenJoinIgnored(self: Id, s: State, leave: Event, es: seq<Event>, end: Event)
    requires leave.Leave? && end.EndJoin? && end.generation <= s.generation
    ensures var t := Run(self, Step(self, s, leave), es); Step(self, t, end) == t
  {
    GenerationGrows(self, s, leave);
    GenerationNeverBack(self, Step(self, s, leave), es);
  }

  // ---- Mute and deafen ----

  /** The two switches are as they were set last, in voice or out. */
  lemma SwitchesIff(self: Id, s: State, e: Event)
    ensures Step(self, s, e).muted == if e.SetMuted? then e.on else s.muted
    ensures Step(self, s, e).deafened == if e.SetDeafened? then e.on else s.deafened
  {
    if e.PeerState? || e.MemberGone? || e.Speak? { OthersKeepStanding(self, s, e); }
    else if e.EndJoin? { ReconciledSelf(self, NextAt(Captured(s), e.now)); }
  }

  // ---- What is announced ----

  // The events on which a client tells the others how it stands.
  predicate Announces(s: State, e: Event) {
    || ((e.SetMuted? || e.SetDeafened? || e.Reannounce? || e.Leave?) && s.inVoice)
    || (EndsThisJoin(s, e) && e.granted)
  }

  function TimeOf(e: Event): int
    requires e.SetMuted? || e.SetDeafened? || e.Reannounce? || e.Leave? || e.EndJoin?
  {
    e.now
  }

  /** On exactly these it takes a new stamp: the least one after its last that is not in the past. */
  lemma StampIff(self: Id, s: State, e: Event)
    requires Inv(self, s) && Possible(s, e)
    ensures var at := Step(self, s, e).lastAt;
            if !Announces(s, e) then at == s.lastAt
            else at > s.lastAt && at >= TimeOf(e) && (at == s.lastAt + 1 || at == TimeOf(e))
  {
    if e.PeerState? || e.MemberGone? || e.Speak? { OthersKeepStanding(self, s, e); }
    else if e.EndJoin? { JoinStamp(self, s, e); }
    else { OwnStamp(self, s, e); }
  }

  lemma JoinStamp(self: Id, s: State, e: Event)
    requires Inv(self, s) && Possible(s, e) && e.EndJoin?
    ensures var at := Step(self, s, e).lastAt;
            if !Announces(s, e) then at == s.lastAt
            else at > s.lastAt && at >= TimeOf(e) && (at == s.lastAt + 1 || at == TimeOf(e))
  {
    ReconciledSelf(self, NextAt(Captured(s), e.now));
  }

  lemma OwnStamp(self: Id, s: State, e: Event)
    requires Inv(self, s) && !e.PeerState? && !e.MemberGone? && !e.Speak? && !e.EndJoin?
    ensures var at := Step(self, s, e).lastAt;
            if !Announces(s, e) then at == s.lastAt
            else at > s.lastAt && at >= TimeOf(e) && (at == s.lastAt + 1 || at == TimeOf(e))
  {}

  // ---- Offers that wait ----

  // An announcement that takes a member off the roster.
  predicate TakesOff(self: Id, s: State, e: Event, id: Id) {
    e.PeerState? && e.id == id && id != self && !e.inVoice && StampAccepted(s.floors, id, e.at, e.now)
  }

  // An offer of somebody the client has not heard announced, while there is room to keep it.
  predicate KeepsOffer(self: Id, s: State, e: Event, id: Id) {
    e.Signal? && e.from == id && e.offer && s.inVoice && id != self && id !in s.roster
    && (id in s.pendingOffers || |s.pendingOffers| < 8)
  }

  /** Whose offer waits: one that came before its sender was announced and for which there was
      room, until the sender is connected or gone, or the client is out. */
  lemma OfferWaitsIff(self: Id, s: State, e: Event, id: Id)
    requires Inv(self, s) && Possible(s, e)
    ensures var t := Step(self, s, e);
            id in t.pendingOffers <==>
            (id in s.pendingOffers || KeepsOffer(self, s, e, id))
            && t.inVoice && id !in t.peers && !TakesOff(self, s, e, id) && e != MemberGone(id)
  {
    if e.PeerState? { AnnouncedOffers(self, s, e, id); }
    else if e.MemberGone? { GoneOffers(self, s, e, id); }
    else if e.Speak? { SpeechOffers(self, s, e, id); }
    else if e.EndJoin? { JoinedOffers(self, s, e, id); }
    else { OwnOffers(self, s, e, id); }
  }

  lemma GoneOffers(self: Id, s: State, e: Event, id: Id)
    requires Inv(self, s) && e.MemberGone?
    ensures var t := Step(self, s, e);
            && (id in t.pendingOffers <==> id in s.pendingOffers && id !in t.peers && id != e.id)
            && t.inVoice == s.inVoice
  {
    GoneIs(self, s, e);
    ReconciledSelf(self, Forgotten(s, e.id));
  }

  lemma SpeechOffers(self: Id, s: State, e: Event, id: Id)
    requires Inv(self, s) && e.Speak?
    ensures var t := Step(self, s, e);
            (id in t.pendingOffers <==> id in s.pendingOffers && id !in t.peers) && t.inVoice == s.inVoice
  {
    SpeechIs(self, s, e);
    ReconciledSelf(self, Noted(s, e.id, e.speaking));
  }

  lemma JoinedOffers(self: Id, s: State, e: Event, id: Id)
    requires Inv(self, s) && Possible(s, e) && e.EndJoin?
    ensures var t := Step(self, s, e);
            id in t.pendingOffers <==> id in s.pendingOffers && t.inVoice && id !in t.peers
  {
    ReconciledSelf(self, NextAt(Captured(s), e.now));
  }

  lemma AnnouncedOffers(self: Id, s: State, e: Event, id: Id)
    requires Inv(self, s) && e.PeerState?
    ensures var t := Step(self, s, e);
            id in t.pendingOffers <==> id in s.pendingOffers && id !in t.peers && !TakesOff(self, s, e, id)
    ensures Step(self, s, e).inVoice == s.inVoice
  {
    var t := s.(floors := s.floors[e.id := e.at]);
    ReconciledSelf(self, Forgotten(t, e.id));
    ReconciledSelf(self, t.(roster := s.roster[e.id := e.flags]));
  }

  lemma OwnOffers(self: Id, s: State, e: Event, id: Id)
    requires Inv(self, s) && !e.PeerState? && !e.MemberGone? && !e.Speak? && !e.EndJoin?
    ensures var t := Step(self, s, e);
            id in t.pendingOffers <==>
            (id in s.pendingOffers || KeepsOffer(self, s, e, id)) && t.inVoice && id !in t.peers
  {
    PeersForSize(self, s.inVoice, s.roster.Keys);
  }

  // ---- Who speaks ----

  /** A member is heard speaking while it is connected and the last it reported is that it does. */
  lemma SpeaksIff(self: Id, s: State, e: Event, id: Id)
    requires Inv(self, s) && Possible(s, e)
    ensures var t := Step(self, s, e);
            id in t.speaking <==>
            id in t.peers && if e.Speak? && e.id == id then e.speaking else id in s.speaking
  {
    if e.PeerState? { AnnouncedSpeaking(self, s, e, id); }
    else if e.MemberGone? { GoneSpeaking(self, s, e, id); }
    else if e.Speak? { ReportedSpeaking(self, s, e, id); }
    else if e.EndJoin? { JoinedSpeaking(self, s, e, id); }
    else { OwnSpeaking(self, s, e, id); }
  }

  lemma GoneSpeaking(self: Id, s: State, e: Event, id: Id)
    requires Inv(self, s) && e.MemberGone?
    ensures var t := Step(self, s, e); id in t.speaking <==> id in t.peers && id in s.speaking
  {
    ReconciledSelf(self, Forgotten(s, e.id));
    GonePeers(self, s, e.id);
  }

  lemma GonePeers(self: Id, s: State, id: Id)
    ensures id !in Reconciled(self, Forgotten(s, id)).peers
  {
    PeersForSize(self, s.inVoice, Forgotten(s, id).roster.Keys);
  }

  lemma ReportedSpeaking(self: Id, s: State, e: Event, id: Id)
    requires e.Speak?
    ensures var t := Step(self, s, e);
            id in t.speaking <==> id in t.peers && if e.id == id then e.speaking else id in s.speaking
  {
    SpeechIs(self, s, e);
    NotedThen(self, s, e, id, Step(self, s, e));
  }

  lemma NotedThen(self: Id, s: State, e: Event, id: Id, t: State)
    requires e.Speak? && t == Reconciled(self, Noted(s, e.id, e.speaking))
    ensures id in t.speaking <==> id in t.peers && if e.id == id then e.speaking else id in s.speaking
  {
    ReconciledSelf(self, Noted(s, e.id, e.speaking));
  }

  lemma JoinedSpeaking(self: Id, s: State, e: Event, id: Id)
    requires Inv(self, s) && e.EndJoin?
    ensures var t := Step(self, s, e); id in t.speaking <==> id in t.peers && id in s.speaking
  {
    ReconciledSelf(self, NextAt(Captured(s), e.now));
  }

  lemma AnnouncedSpeaking(self: Id, s: State, e: Event, id: Id)
    requires Inv(self, s) && e.PeerState?
    ensures var t := Step(self, s, e); id in t.speaking <==> id in t.peers && id in s.speaking
  {
    var t := s.(floors := s.floors[e.id := e.at]);
    ReconciledSelf(self, Forgotten(t, e.id));
    ReconciledSelf(self, t.(roster := s.roster[e.id := e.flags]));
    HeardStateInv(self, s, e);
  }

  lemma OwnSpeaking(self: Id, s: State, e: Event, id: Id)
    requires Inv(self, s) && !e.PeerState? && !e.MemberGone? && !e.Speak? && !e.EndJoin?
    ensures var t := Step(self, s, e); id in t.speaking <==> id in t.peers && id in s.speaking
  {}
}
