/** The roster of the voice room over runs (guest/voice.ts): who is on it is what the newest
    announcements say, and clients that took up the same ones are connected alike. */
module VoiceRoster {
  import opened Ids
  import opened Numbers
  import opened Voice

  // The newest stamp taken up from a member, and its flags while it is in voice.
  datatype Word = Word(floor: int, here: Option<Flags>)

  predicate Timely(at: int, now: int) { 0 < at <= MAX_SAFE_INTEGER && at <= now + 60_000 }

  /** What a member last had to say: of its announcements each one counts that is timely and newer
      than those before, and a departure ends it. */
  function WordOf(self: Id, es: seq<Event>, id: Id): Word {
    if es == [] then Word(0, None) else
      var e, w := es[|es| - 1], WordOf(self, es[..|es| - 1], id);
      if e.PeerState? && e.id == id && id != self && id != "" && Timely(e.at, e.now) && e.at > w.floor
      then Word(e.at, if e.inVoice then Some(e.flags) else None)
      else if e.MemberGone? && e.id == id then w.(here := None)
      else w
  }

  ghost predicate AnnouncersWithin(es: seq<Event>, who: set<Id>) {
    |who| <= ROOM_VOICE_ROSTER && forall e | e in es && e.PeerState? :: e.id in who
  }

  predicate IsWord(s: State, w: Word, id: Id) {
    && (id in s.floors <==> w.floor != 0) && (id in s.floors ==> s.floors[id] == w.floor) && w.floor >= 0
    && (id in s.roster <==> w.here.Some?) && (id in s.roster ==> s.roster[id] == w.here.value)
  }

  // What everything but an announcement or a departure does to the roster: nothing.
  lemma OthersKeepRoster(self: Id, s: State, e: Event)
    requires !e.PeerState? && !e.MemberGone?
    ensures Step(self, s, e).roster == s.roster && Step(self, s, e).floors == s.floors
  {
    OtherFloors(self, s, e);
    if e.EndJoin? { EndedJoinRoster(self, s, e); }
    if e.Speak? { ReconciledRoster(self, Noted(s, e.id, e.speaking)); }
  }

  lemma ReconciledRoster(self: Id, s: State)
    ensures Reconciled(self, s).roster == s.roster && Reconciled(self, s).floors == s.floors
  {}

  lemma EndedJoinRoster(self: Id, s: State, e: Event)
    requires e.EndJoin?
    ensures EndedJoin(self, s, e).roster == s.roster
  {
    ReconciledRoster(self, NextAt(Captured(s), e.now));
  }

  lemma GoneRoster(self: Id, s: State, e: Event)
    requires e.MemberGone?
    ensures Step(self, s, e).roster == s.roster - {e.id} && Step(self, s, e).floors == s.floors
  {
    ReconciledRoster(self, Forgotten(s, e.id));
  }

  // An announcement, while there is room for everybody.
  lemma AnnouncedRoster(self: Id, s: State, e: Event)
    requires e.PeerState? && (e.id in s.roster || |s.roster| < ROOM_VOICE_ROSTER)
    requires e.id in s.floors || |s.floors| < ROOM_VOICE_FLOORS
    ensures var t, floor := Step(self, s, e), if e.id in s.floors then s.floors[e.id] else 0;
            if e.id != self && e.id != "" && SafeInteger(e.at) && e.at <= e.now + 60_000 && e.at > floor
            then t.floors == s.floors[e.id := e.at]
                 && t.roster == if e.inVoice then s.roster[e.id := e.flags] else s.roster - {e.id}
            else t.floors == s.floors && t.roster == s.roster
  {
    var t := s.(floors := s.floors[e.id := e.at]);
    ReconciledRoster(self, Forgotten(t, e.id));
    ReconciledRoster(self, t.(roster := s.roster[e.id := e.flags]));
  }

  lemma RoomForOneMore<V>(m: map<Id, V>, who: set<Id>, id: Id, cap: nat)
    requires m.Keys <= who && |who| <= cap && id in who
    ensures id in m || |m| < cap
  {
    assert |m| == |m.Keys|;
    if id !in m { SubsetSize(m.Keys + {id}, who); }
  }

  ghost predicate Tracks(self: Id, es: seq<Event>, who: set<Id>) {
    var s := Run(self, Fresh(), es);
    s.roster.Keys <= who && s.floors.Keys <= who && forall id :: IsWord(s, WordOf(self, es, id), id)
  }

  /** In every run in which no more announce than the roster holds: a member is on the roster
      exactly when the newest of its announcements that was taken up says that it is in voice and
      it has not gone since, and with the flags of that announcement. */
  lemma {:induction false} RosterIsWord(self: Id, es: seq<Event>, who: set<Id>)
    requires AnnouncersWithin(es, who)
    ensures Tracks(self, es, who)
  {
    if es != [] {
      var front, e := es[..|es| - 1], es[|es| - 1];
      assert forall x | x in front :: x in es;
      RosterIsWord(self, front, who);
      var s := Run(self, Fresh(), front);
      assert e in es;
      if e.PeerState? {
        RoomForOneMore(s.roster, who, e.id, ROOM_VOICE_ROSTER);
        RoomForOneMore(s.floors, who, e.id, ROOM_VOICE_FLOORS);
        AnnouncedRoster(self, s, e);
        AnnouncedTracks(self, es, who);
      } else if e.MemberGone? {
        GoneRoster(self, s, e);
      } else {
        OthersKeepRoster(self, s, e);
      }
    }
  }

  lemma AnnouncedTracks(self: Id, es: seq<Event>, who: set<Id>)
    requires es != [] && es[|es| - 1].PeerState? && es[|es| - 1].id in who && Tracks(self, es[..|es| - 1], who)
    requires var s, t, e := Run(self, Fresh(), es[..|es| - 1]), Run(self, Fresh(), es), es[|es| - 1];
             var floor := if e.id in s.floors then s.floors[e.id] else 0;
             if e.id != self && e.id != "" && SafeInteger(e.at) && e.at <= e.now + 60_000 && e.at > floor
             then t.floors == s.floors[e.id := e.at]
                  && t.roster == if e.inVoice then s.roster[e.id := e.flags] else s.roster - {e.id}
             else t.floors == s.floors && t.roster == s.roster
    ensures Tracks(self, es, who)
  {
    var s, t, e := Run(self, Fresh(), es[..|es| - 1]), Run(self, Fresh(), es), es[|es| - 1];
    assert IsWord(s, WordOf(self, es[..|es| - 1], e.id), e.id);
    forall id ensures IsWord(t, WordOf(self, es, id), id) { assert IsWord(s, WordOf(self, es[..|es| - 1], id), id); }
  }

  /** With a full roster a newcomer's announcement is used up and forgotten: its stamp is the
      member's floor, and only a newer announcement can bring it in. */
  lemma FullRosterForgets(self: Id, s: State, e: Event)
    requires e.PeerState? && e.inVoice && e.id != self && e.id != "" && Timely(e.at, e.now)
    requires e.id !in s.roster && |s.roster| >= ROOM_VOICE_ROSTER
    requires if e.id in s.floors then s.floors[e.id] < e.at else |s.floors| < ROOM_VOICE_FLOORS
    ensures Step(self, s, e) == s.(floors := s.floors[e.id := e.at])
    ensures !StampAccepted(Step(self, s, e).floors, e.id, e.at, e.now)
  {}

  // ---- From announcements to agreement ----

  datatype Announcement = Announcement(id: Id, inVoice: bool, flags: Flags, at: int)

  // What a client has heard of others.
  function Said(self: Id, es: seq<Event>): set<Announcement> {
    set e | e in es && e.PeerState? && e.id != self :: Announcement(e.id, e.inVoice, e.flags, e.at)
  }

  predicate IsNewest(all: set<Announcement>, a: Announcement) {
    a in all && forall b | b in all && b.id == a.id :: b.at <= a.at
  }

  function InVoiceNow(all: set<Announcement>): set<Id> { set a | a in all && IsNewest(all, a) && a.inVoice :: a.id }

  // Nobody uses a stamp twice, everybody has an id, and the roster has room for all.
  ghost predicate Orderly(all: set<Announcement>, who: set<Id>) {
    && |who| <= ROOM_VOICE_ROSTER && (forall a | a in all :: a.id in who && a.id != "")
    && forall a, b | a in all && b in all && a.id == b.id && a.at == b.at :: a == b
  }

  /** A client that has heard these announcements, in any order and any number of times, all of
      them timely, and that nobody has left. */
  ghost predicate HasHeard(self: Id, es: seq<Event>, all: set<Announcement>) {
    && PossibleRun(self, Fresh(), es) && Said(self, es) == (set a | a in all && a.id != self)
    && forall e | e in es :: !e.MemberGone? && (e.PeerState? ==> Timely(e.at, e.now) && (e.id == self || e.id != ""))
  }

  // The newest of the announcements heard of a member is its word.
  ghost predicate WordIs(self: Id, es: seq<Event>, id: Id) {
    var w := WordOf(self, es, id);
    && (forall a | a in Said(self, es) && a.id == id :: 0 < a.at <= w.floor)
    && if w.floor == 0 then w.here == None
       else exists a :: a in Said(self, es) && a.id == id && a.at == w.floor
                        && w.here == if a.inVoice then Some(a.flags) else None
  }

  lemma {:induction false} NewestIsWord(self: Id, es: seq<Event>, id: Id)
    requires id != self && id != "" && forall e | e in es :: !e.MemberGone? && (e.PeerState? ==> Timely(e.at, e.now))
    ensures WordIs(self, es, id) && WordOf(self, es, id).floor >= 0
  {
    if es != [] {
      var front, e := es[..|es| - 1], es[|es| - 1];
      assert es == front + [e] && e in es;
      assert forall x | x in front :: x in es;
      NewestIsWord(self, front, id);
      if e.PeerState? && e.id != self {
        assert Said(self, es) == Said(self, front) + {Announcement(e.id, e.inVoice, e.flags, e.at)};
      } else {
        assert Said(self, es) == Said(self, front);
      }
    }
  }

  lemma OnRosterIff(self: Id, es: seq<Event>, all: set<Announcement>, who: set<Id>, id: Id)
    requires Orderly(all, who) && HasHeard(self, es, all) && AnnouncersWithin(es, who) && id != self
    ensures id in Run(self, Fresh(), es).roster <==> id in InVoiceNow(all)
    ensures id in Run(self, Fresh(), es).roster ==>
            exists a :: IsNewest(all, a) && a.id == id && Run(self, Fresh(), es).roster[id] == a.flags
  {
    RosterIsWord(self, es, who);
    var s, w := Run(self, Fresh(), es), WordOf(self, es, id);
    assert IsWord(s, w, id);
    if id == "" {
      NamelessSilent(self, es);
    } else {
      NewestIsWord(self, es, id);
      forall a | a in all && a.id == id ensures a in Said(self, es) {}
      if w.floor != 0 {
        var a :| a in Said(self, es) && a.id == id && a.at == w.floor
                 && w.here == if a.inVoice then Some(a.flags) else None;
        assert IsNewest(all, a);
        forall b | IsNewest(all, b) && b.id == id ensures b == a { assert b.at <= a.at && a.at <= b.at; }
      }
    }
  }

  lemma {:induction false} NamelessSilent(self: Id, es: seq<Event>)
    ensures WordOf(self, es, "") == Word(0, None)
  {
    if es != [] { NamelessSilent(self, es[..|es| - 1]); }
  }

  /** So a client in voice that has heard what there is to hear knows exactly who is in voice. */
  lemma HeardConverges(self: Id, es: seq<Event>, all: set<Announcement>, who: set<Id>)
    requires Orderly(all, who) && HasHeard(self, es, all) && AnnouncersWithin(es, who)
    requires Run(self, Fresh(), es).inVoice && self in InVoiceNow(all)
    ensures Converged(self, Run(self, Fresh(), es), InVoiceNow(all))
  {
    var s := Run(self, Fresh(), es);
    FreshInv(self);
    RunInv(self, Fresh(), es);
    forall id ensures id in s.roster.Keys <==> id in InVoiceNow(all) - {self} {
      if id != self { OnRosterIff(self, es, all, who, id); }
    }
  }

  /** And any two of them are connected alike: exactly when each has fewer than nine ids in voice
      before it, with one polite end, and with at most eight connections each. */
  lemma HeardMeshAgrees(a: Id, es: seq<Event>, b: Id, fs: seq<Event>, all: set<Announcement>, who: set<Id>)
    requires a != b && Orderly(all, who)
    requires HasHeard(a, es, all) && AnnouncersWithin(es, who) && Run(a, Fresh(), es).inVoice && a in InVoiceNow(all)
    requires HasHeard(b, fs, all) && AnnouncersWithin(fs, who) && Run(b, Fresh(), fs).inVoice && b in InVoiceNow(all)
    ensures var s, t := Run(a, Fresh(), es), Run(b, Fresh(), fs);
            && (b in s.peers <==> a in t.peers) && (b in s.peers <==> BothIn(a, b, InVoiceNow(all)))
            && (b in s.peers ==> s.peers[b] != t.peers[a])
            && |s.peers| <= ROOM_VOICE_PEERS && |t.peers| <= ROOM_VOICE_PEERS
  {
    HeardConverges(a, es, all, who);
    HeardConverges(b, fs, all, who);
    MeshAgreement(a, Run(a, Fresh(), es), b, Run(b, Fresh(), fs), InVoiceNow(all));
  }
}
