/** The remembered session of a room and its watermark (shared/lan-prefs.ts), and
    why a session id may be reused across restarts. */
module LanPrefs {
  import opened Ids
  import opened Numbers
  import opened VirtualIp
  import opened Admission
  import opened Convergence

  const MAX_SESSION_ID := 192

  // The id and its floor are one value.
  datatype Remembered = Remembered(id: Id, floor: nat)

  datatype Prefs = Prefs(picks: seq<Id>, apps: seq<string>, session: Option<Remembered>)

  predicate Storable(sessionId: Id) { 0 < |sessionId| <= MAX_SESSION_ID }

  function ReusableSessionId(p: Prefs, self: Id): Option<Id> {
    if p.session.None? || self == "" then None
    else if SessionHostPrefix(p.session.value.id) == self then Some(p.session.value.id)
    else None
  }

  function SessionFloor(p: Prefs, sessionId: Id): nat {
    if p.session.Some? && p.session.value.id == sessionId then p.session.value.floor else 0
  }

  function WithSession(p: Prefs, sessionId: Id): Prefs {
    if !Storable(sessionId) || (p.session.Some? && p.session.value.id == sessionId) then p
    else p.(session := Some(Remembered(sessionId, 0)))
  }

  function NoteSessionFloor(p: Prefs, sessionId: Id, at: int): Prefs {
    if !Storable(sessionId) || at > MAX_SAFE_INTEGER || at <= 0 then p
    else if p.session.None? then p.(session := Some(Remembered(sessionId, at)))
    else if p.session.value.id != sessionId || at <= p.session.value.floor then p
    else p.(session := Some(Remembered(p.session.value.id, at)))
  }

  function RotateSession(p: Prefs): Prefs { p.(session := None) }

  /** Anything that can happen to a room's preferences. */
  datatype Op = Use(id: Id) | Note(id: Id, at: int) | Rotate | Picks(ids: seq<Id>) | Apps(paths: seq<string>)

  function Apply(p: Prefs, op: Op): Prefs {
    match op
    case Use(id) => WithSession(p, id)
    case Note(id, at) => NoteSessionFloor(p, id, at)
    case Rotate => RotateSession(p)
    case Picks(ids) => p.(picks := ids)
    case Apps(paths) => p.(apps := paths)
  }

  function ApplyAll(p: Prefs, ops: seq<Op>): Prefs {
    if ops == [] then p else Apply(ApplyAll(p, ops[..|ops| - 1]), ops[|ops| - 1])
  }

  // Leaving the session: a deliberate switch to another one, or a rotation.
  predicate Leaves(op: Op, sid: Id) {
    op.Rotate? || (op.Use? && op.id != sid && Storable(op.id))
  }

  /** The remembered watermark of a session survives a change exactly when the change
      does not leave the session. */
  lemma WatermarkSurvivesIff(p: Prefs, op: Op, sid: Id)
    requires p.session.Some? && p.session.value.id == sid
    ensures (Apply(p, op).session.Some? && Apply(p, op).session.value.id == sid) <==> !Leaves(op, sid)
    ensures SessionFloor(Apply(p, op), sid) >= SessionFloor(p, sid) <==> !Leaves(op, sid) || SessionFloor(p, sid) == 0
  {}

  /** Which session a room comes to remember: any id of 1 to 192 characters it enters, with a fresh
      watermark unless it is the remembered one already; and by a note only if it remembers none. */
  lemma EntersIff(p: Prefs, id: Id)
    ensures WithSession(p, id).session ==
            if 1 <= |id| <= 192 && !(p.session.Some? && p.session.value.id == id)
            then Some(Remembered(id, 0)) else p.session
  {}

  lemma NotesIff(p: Prefs, id: Id, at: int)
    ensures NoteSessionFloor(p, id, at).session ==
            if 1 <= |id| <= 192 && 1 <= at <= MAX_SAFE_INTEGER
               && (p.session.Some? ==> p.session.value.id == id && p.session.value.floor < at)
            then Some(Remembered(id, at)) else p.session
  {}

  // The last choice among some changes, if there is one.
  function LastPicks(ops: seq<Op>): Option<seq<Id>> {
    if ops == [] then None
    else if ops[|ops| - 1].Picks? then Some(ops[|ops| - 1].ids) else LastPicks(ops[..|ops| - 1])
  }

  function LastApps(ops: seq<Op>): Option<seq<string>> {
    if ops == [] then None
    else if ops[|ops| - 1].Apps? then Some(ops[|ops| - 1].paths) else LastApps(ops[..|ops| - 1])
  }

  /** The picks and the apps of a room are the last ones chosen, whatever happens to its session. */
  lemma {:induction false} ChoicesKept(p: Prefs, ops: seq<Op>)
    ensures var q, picks, apps := ApplyAll(p, ops), LastPicks(ops), LastApps(ops);
            && q.picks == (if picks.Some? then picks.value else p.picks)
            && q.apps == if apps.Some? then apps.value else p.apps
  {
    if ops != [] { ChoicesKept(p, ops[..|ops| - 1]); }
  }

  /** Noting a run's watermark records it exactly when the room remembers that session
      or none: a foreign session never overwrites, and is never recorded either. */
  lemma NoteRecordsIff(p: Prefs, sid: Id, at: int)
    requires Storable(sid) && 0 < at <= MAX_SAFE_INTEGER
    ensures SessionFloor(NoteSessionFloor(p, sid, at), sid) >= at
            <==> p.session.None? || p.session.value.id == sid
  {}

  /** Switching away and back forgets the watermark, and so does a rotation, after which the
      next note adopts the old id again. */
  lemma LeavingForgets(p: Prefs, sid: Id, other: Id, at: int)
    requires Storable(sid) && Storable(other) && other != sid && 0 < at <= MAX_SAFE_INTEGER
    ensures SessionFloor(ApplyAll(p, [Use(other), Use(sid)]), sid) == 0
    ensures SessionFloor(ApplyAll(p, [Rotate]), sid) == 0
    ensures SessionFloor(ApplyAll(p, [Rotate, Note(sid, at)]), sid) == at
  {
    assert [Use(other), Use(sid)][..1] == [Use(other)];
    assert [Rotate, Note(sid, at)][..1] == [Rotate];
  }

  // ---- Nights of one session ----

  /** What happens between two starts of the app: the session's core, seeded from the
      preferences, hears messages, and the preferences change. */
  datatype Action = Hear(e: Event) | Change(op: Op)

  datatype Evening = Evening(core: Core, prefs: Prefs)

  function NightConfig(p: Prefs, s: Session, self: Id): Config { Config(s, self, SessionFloor(p, s.id)) }

  // The core's watermark is noted when it has grown, and only then.
  function Act(cfg: Config, v: Evening, a: Action): Evening {
    match a
    case Change(op) => v.(prefs := Apply(v.prefs, op))
    case Hear(e) =>
      var core := Step(cfg, v.core, e).core;
      Evening(core, if core.authorityFloor > v.core.authorityFloor
                    then NoteSessionFloor(v.prefs, cfg.session.id, core.authorityFloor) else v.prefs)
  }

  function ActAll(cfg: Config, v: Evening, acts: seq<Action>): Evening {
    if acts == [] then v else Act(cfg, ActAll(cfg, v, acts[..|acts| - 1]), acts[|acts| - 1])
  }

  function Begin(p: Prefs, s: Session, self: Id): Evening { Evening(Initial(NightConfig(p, s, self)), p) }

  function Night(p: Prefs, s: Session, self: Id, acts: seq<Action>): Evening {
    ActAll(NightConfig(p, s, self), Begin(p, s, self), acts)
  }

  function PrefsAfter(p: Prefs, s: Session, self: Id, ns: seq<seq<Action>>): Prefs {
    if ns == [] then p else Night(PrefsAfter(p, s, self, ns[..|ns| - 1]), s, self, ns[|ns| - 1]).prefs
  }

  function Heard(acts: seq<Action>): seq<Event> {
    if acts == [] then [] else
      Heard(acts[..|acts| - 1]) + if acts[|acts| - 1].Hear? then [acts[|acts| - 1].e] else []
  }

  function Changes(acts: seq<Action>): seq<Op> {
    if acts == [] then [] else
      Changes(acts[..|acts| - 1]) + if acts[|acts| - 1].Change? then [acts[|acts| - 1].op] else []
  }

  // On night i the grant e is applied.
  ghost predicate GrantedOn(p: Prefs, s: Session, self: Id, ns: seq<seq<Action>>, i: nat, e: Event)
    requires i < |ns|
  {
    var cfg := NightConfig(PrefsAfter(p, s, self, ns[..i]), s, self);
    GrantedIn(cfg, Initial(cfg), Heard(ns[i]), e)
  }

  // Stamps are safe integers, so a watermark always can be stored.
  predicate SafeStamp(e: Event) { (e.Admit? || e.Evict?) ==> e.at <= MAX_SAFE_INTEGER }

  ghost predicate SafeNight(acts: seq<Action>) { forall e | e in Heard(acts) :: SafeStamp(e) }

  ghost predicate SafeStamps(ns: seq<seq<Action>>) { forall n | n in ns :: SafeNight(n) }

  ghost predicate Follows(ns: seq<seq<Action>>, plans: seq<seq<Op>>) {
    |ns| == |plans| && forall k | 0 <= k < |ns| :: Changes(ns[k]) == plans[k]
  }

  /** Whatever is heard on each night, and however it falls between the changes to the
      preferences, no grant is applied on two nights of the session. */
  ghost predicate ReplaySafe(p: Prefs, s: Session, self: Id, plans: seq<seq<Op>>) {
    forall ns, i: nat, j: nat, e | Follows(ns, plans) && SafeStamps(ns) && i < j < |ns|
      && GrantedOn(p, s, self, ns, i, e) ::
      !GrantedOn(p, s, self, ns, j, e)
  }

  // ---- What is remembered when nothing is heard ----

  function IdOf(p: Prefs): Option<Id> { if p.session.Some? then Some(p.session.value.id) else None }

  function NextId(id: Option<Id>, op: Op): Option<Id> {
    match op
    case Use(x) => if Storable(x) then Some(x) else id
    case Note(x, at) => if id == None && Storable(x) && 0 < at <= MAX_SAFE_INTEGER then Some(x) else id
    case Rotate => None
    case _ => id
  }

  function IdAfter(id: Option<Id>, ops: seq<Op>): Option<Id> {
    if ops == [] then id else NextId(IdAfter(id, ops[..|ops| - 1]), ops[|ops| - 1])
  }

  function IdAfterNights(id: Option<Id>, plans: seq<seq<Op>>): Option<Id> {
    if plans == [] then id else IdAfter(IdAfterNights(id, plans[..|plans| - 1]), plans[|plans| - 1])
  }

  predicate Home(id: Option<Id>, sid: Id) { id == None || id == Some(sid) }

  /** The changes of one night never rotate and never have another session remembered. */
  ghost predicate Loyal(id: Option<Id>, ops: seq<Op>, sid: Id) {
    && (forall op | op in ops :: !op.Rotate?)
    && (forall x | 0 <= x <= |ops| :: Home(IdAfter(id, ops[..x]), sid))
  }

  // Every night but the last.
  ghost predicate AllLoyal(p: Prefs, plans: seq<seq<Op>>, sid: Id) {
    forall k | 0 <= k < |plans| - 1 :: Loyal(IdAfterNights(IdOf(p), plans[..k]), plans[k], sid)
  }

  // ---- Loyal nights keep the watermark ----

  // `silent` is what would be remembered had nothing been heard.
  predicate Tracked(v: Evening, silent: Option<Id>, sid: Id) {
    && Home(silent, sid) && (IdOf(v.prefs) == silent || IdOf(v.prefs) == Some(sid))
    && 0 <= v.core.authorityFloor <= SessionFloor(v.prefs, sid) <= MAX_SAFE_INTEGER
  }

  lemma ChangeTracks(cfg: Config, v: Evening, op: Op, silent: Option<Id>)
    requires Tracked(v, silent, cfg.session.id) && !op.Rotate? && Home(NextId(silent, op), cfg.session.id)
    ensures Tracked(Act(cfg, v, Change(op)), NextId(silent, op), cfg.session.id)
  {}

  lemma HearTracks(cfg: Config, v: Evening, e: Event, silent: Option<Id>)
    requires Tracked(v, silent, cfg.session.id) && SafeStamp(e) && Storable(cfg.session.id)
    ensures Tracked(Act(cfg, v, Hear(e)), silent, cfg.session.id)
    ensures v.core.authorityFloor <= Act(cfg, v, Hear(e)).core.authorityFloor
  {}

  lemma LoyalPrefix(id: Option<Id>, ops: seq<Op>, sid: Id)
    requires ops != [] && Loyal(id, ops, sid)
    ensures Loyal(id, ops[..|ops| - 1], sid)
    ensures !ops[|ops| - 1].Rotate? && Home(NextId(IdAfter(id, ops[..|ops| - 1]), ops[|ops| - 1]), sid)
  {
    var front := ops[..|ops| - 1];
    assert forall x | 0 <= x <= |front| :: front[..x] == ops[..x];
    assert ops[..|ops|] == ops && IdAfter(id, ops) == NextId(IdAfter(id, front), ops[|ops| - 1]);
  }

  lemma {:induction false} NightTracks(cfg: Config, v: Evening, acts: seq<Action>, silent: Option<Id>)
    requires Tracked(v, silent, cfg.session.id) && Storable(cfg.session.id)
    requires Loyal(silent, Changes(acts), cfg.session.id) && SafeNight(acts)
    ensures Tracked(ActAll(cfg, v, acts), IdAfter(silent, Changes(acts)), cfg.session.id)
    ensures v.core.authorityFloor <= ActAll(cfg, v, acts).core.authorityFloor
  {
    if acts != [] {
      var front, a := acts[..|acts| - 1], acts[|acts| - 1];
      if a.Change? {
        assert Changes(acts)[..|Changes(acts)| - 1] == Changes(front);
        assert Heard(acts) == Heard(front);
        LoyalPrefix(silent, Changes(acts), cfg.session.id);
        NightTracks(cfg, v, front, silent);
        ChangeTracks(cfg, ActAll(cfg, v, front), a.op, IdAfter(silent, Changes(front)));
      } else {
        assert Changes(acts) == Changes(front) && Heard(acts) == Heard(front) + [a.e];
        NightTracks(cfg, v, front, silent);
        HearTracks(cfg, ActAll(cfg, v, front), a.e, IdAfter(silent, Changes(front)));
      }
    }
  }

  lemma {:induction false} CoreHears(cfg: Config, v: Evening, acts: seq<Action>)
    ensures ActAll(cfg, v, acts).core == Run(cfg, v.core, Heard(acts))
  {
    if acts != [] {
      var front, a := acts[..|acts| - 1], acts[|acts| - 1];
      CoreHears(cfg, v, front);
      if a.Hear? {
        assert Heard(acts)[..|Heard(acts)| - 1] == Heard(front);
      } else {
        assert Heard(acts) == Heard(front);
      }
    }
  }

  // Before night k: loyal to the session, and its watermark kept.
  ghost predicate Kept(p: Prefs, s: Session, self: Id, ns: seq<seq<Action>>, plans: seq<seq<Op>>, k: nat)
    requires k <= |ns| && k <= |plans|
  {
    Tracked(Begin(PrefsAfter(p, s, self, ns[..k]), s, self), IdAfterNights(IdOf(p), plans[..k]), s.id)
  }

  // The floor night k starts from, and the watermark it ends with.
  function FloorOn(p: Prefs, s: Session, self: Id, ns: seq<seq<Action>>, k: nat): int
    requires k <= |ns|
  {
    SessionFloor(PrefsAfter(p, s, self, ns[..k]), s.id)
  }

  function MarkOn(p: Prefs, s: Session, self: Id, ns: seq<seq<Action>>, k: nat): int
    requires k < |ns|
  {
    Night(PrefsAfter(p, s, self, ns[..k]), s, self, ns[k]).core.authorityFloor
  }

  lemma OneLoyalNight(p: Prefs, s: Session, self: Id, ns: seq<seq<Action>>, plans: seq<seq<Op>>, k: nat)
    requires Storable(s.id) && Follows(ns, plans) && SafeStamps(ns) && AllLoyal(p, plans, s.id)
    requires k < |ns| - 1 && Kept(p, s, self, ns, plans, k)
    ensures Kept(p, s, self, ns, plans, k + 1)
    ensures FloorOn(p, s, self, ns, k) <= MarkOn(p, s, self, ns, k) <= FloorOn(p, s, self, ns, k + 1)
  {
    var q := PrefsAfter(p, s, self, ns[..k]);
    assert ns[..k + 1][..k] == ns[..k] && plans[..k + 1][..k] == plans[..k];
    assert ns[k] in ns;
    NightTracks(NightConfig(q, s, self), Begin(q, s, self), ns[k], IdAfterNights(IdOf(p), plans[..k]));
  }

  lemma {:induction false} AlwaysKept(p: Prefs, s: Session, self: Id, ns: seq<seq<Action>>, plans: seq<seq<Op>>, j: nat)
    requires Storable(s.id) && Follows(ns, plans) && SafeStamps(ns) && AllLoyal(p, plans, s.id)
    requires SessionFloor(p, s.id) <= MAX_SAFE_INTEGER && |ns| > 1 && j < |ns|
    ensures Kept(p, s, self, ns, plans, j)
  {
    if j > 0 {
      AlwaysKept(p, s, self, ns, plans, j - 1);
      OneLoyalNight(p, s, self, ns, plans, j - 1);
    } else {
      FirstKept(p, s, self, ns, plans);
    }
  }

  lemma {:induction false} FloorsAcrossNights(
    p: Prefs, s: Session, self: Id, ns: seq<seq<Action>>, plans: seq<seq<Op>>, i: nat, j: nat)
    requires Storable(s.id) && Follows(ns, plans) && SafeStamps(ns) && AllLoyal(p, plans, s.id)
    requires SessionFloor(p, s.id) <= MAX_SAFE_INTEGER && i < j < |ns|
    ensures MarkOn(p, s, self, ns, i) <= FloorOn(p, s, self, ns, j)
    decreases j
  {
    AlwaysKept(p, s, self, ns, plans, j - 1);
    OneLoyalNight(p, s, self, ns, plans, j - 1);
    assert FloorOn(p, s, self, ns, j - 1) <= MarkOn(p, s, self, ns, j - 1) <= FloorOn(p, s, self, ns, j);
    if i < j - 1 { FloorsAcrossNights(p, s, self, ns, plans, i, j - 1); }
  }

  lemma FirstKept(p: Prefs, s: Session, self: Id, ns: seq<seq<Action>>, plans: seq<seq<Op>>)
    requires Follows(ns, plans) && AllLoyal(p, plans, s.id) && SessionFloor(p, s.id) <= MAX_SAFE_INTEGER && |ns| > 1
    ensures Kept(p, s, self, ns, plans, 0)
  {
    assert ns[..0] == [] && plans[..0] == [];
    assert Loyal(IdAfterNights(IdOf(p), plans[..0]), plans[0], s.id);
    assert plans[0][..0] == [];
    assert Home(IdAfter(IdOf(p), plans[0][..0]), s.id);
  }

  /** Cross-restart replay safety: on loyal nights, whatever is sent, a grant applied on one
      night of a session is never applied on a later night of it. */
  lemma NoReplayAcrossRestarts(p: Prefs, s: Session, self: Id, ns: seq<seq<Action>>, plans: seq<seq<Op>>,
                               i: nat, j: nat, e: Event)
    requires Storable(s.id) && Follows(ns, plans) && SafeStamps(ns) && AllLoyal(p, plans, s.id)
    requires SessionFloor(p, s.id) <= MAX_SAFE_INTEGER && i < j < |ns|
    requires GrantedOn(p, s, self, ns, i, e)
    ensures !GrantedOn(p, s, self, ns, j, e)
  {
    FloorsAcrossNights(p, s, self, ns, plans, i, j);
    var before, after := PrefsAfter(p, s, self, ns[..i]), PrefsAfter(p, s, self, ns[..j]);
    var first, later := NightConfig(before, s, self), NightConfig(after, s, self);
    CoreHears(first, Begin(before, s, self), ns[i]);
    GrantedBetween(first, Initial(first), Heard(ns[i]), e);
    if GrantedIn(later, Initial(later), Heard(ns[j]), e) { GrantedBetween(later, Initial(later), Heard(ns[j]), e); }
  }

  // ---- A disloyal night loses it ----

  function Silent(ops: seq<Op>): seq<Action> {
    if ops == [] then [] else Silent(ops[..|ops| - 1]) + [Change(ops[|ops| - 1])]
  }

  lemma {:induction false} SilentActs(cfg: Config, v: Evening, ops: seq<Op>)
    ensures ActAll(cfg, v, Silent(ops)) == v.(prefs := ApplyAll(v.prefs, ops))
  {
    if ops != [] {
      SilentActs(cfg, v, ops[..|ops| - 1]);
      assert Silent(ops)[..|Silent(ops)| - 1] == Silent(ops[..|ops| - 1]);
    }
  }

  lemma {:induction false} SilentHeard(ops: seq<Op>)
    ensures Heard(Silent(ops)) == [] && Changes(Silent(ops)) == ops
  {
    if ops != [] {
      SilentHeard(ops[..|ops| - 1]);
      assert Silent(ops)[..|Silent(ops)| - 1] == Silent(ops[..|ops| - 1]);
    }
  }

  lemma {:induction false} ActsJoin(cfg: Config, v: Evening, a: seq<Action>, b: seq<Action>)
    ensures ActAll(cfg, v, a + b) == ActAll(cfg, ActAll(cfg, v, a), b)
  {
    if b == [] {
      assert a + b == a;
    } else {
      assert (a + b)[..|a + b| - 1] == a + b[..|b| - 1];
      ActsJoin(cfg, v, a, b[..|b| - 1]);
    }
  }

  lemma {:induction false} HeardJoin(a: seq<Action>, b: seq<Action>)
    ensures Heard(a + b) == Heard(a) + Heard(b) && Changes(a + b) == Changes(a) + Changes(b)
  {
    if b == [] {
      assert a + b == a;
    } else {
      assert (a + b)[..|a + b| - 1] == a + b[..|b| - 1];
      HeardJoin(a, b[..|b| - 1]);
    }
  }

  lemma {:induction false} IdsTrack(p: Prefs, ops: seq<Op>)
    ensures IdOf(ApplyAll(p, ops)) == IdAfter(IdOf(p), ops)
  {
    if ops != [] { IdsTrack(p, ops[..|ops| - 1]); }
  }

  // Its own core is the only one that notes the session's watermark.
  ghost predicate NotedByCore(ops: seq<Op>, sid: Id) { forall op | op in ops :: op.Note? ==> op.id != sid }

  lemma {:induction false} ChangesNeverRaise(p: Prefs, ops: seq<Op>, sid: Id)
    requires NotedByCore(ops, sid)
    ensures SessionFloor(ApplyAll(p, ops), sid) <= SessionFloor(p, sid)
  {
    if ops != [] { ChangesNeverRaise(p, ops[..|ops| - 1], sid); }
  }

  lemma {:induction false} ApplyJoin(p: Prefs, a: seq<Op>, b: seq<Op>)
    ensures ApplyAll(p, a + b) == ApplyAll(ApplyAll(p, a), b)
  {
    if b == [] {
      assert a + b == a;
    } else {
      assert (a + b)[..|a + b| - 1] == a + b[..|b| - 1];
      ApplyJoin(p, a, b[..|b| - 1]);
    }
  }

  // The session opens and the host admits somebody at time t.
  function Opening(s: Session, self: Id, t: int): seq<Event> {
    var host := SessionHostPrefix(s.id);
    [Genesis(host, s.id, t), Admit(host, self, t, s.id)]
  }

  function Hears(es: seq<Event>): seq<Action> {
    if es == [] then [] else Hears(es[..|es| - 1]) + [Hear(es[|es| - 1])]
  }

  lemma OpeningHeard(p: Prefs, q: Prefs, s: Session, self: Id, t: int)
    requires SessionFloor(p, s.id) < t
    ensures var cfg, acts := NightConfig(p, s, self), Hears(Opening(s, self, t));
            && ActAll(cfg, Evening(Initial(cfg), q), acts).prefs == NoteSessionFloor(q, s.id, t)
            && Heard(acts) == Opening(s, self, t) && Changes(acts) == []
            && GrantedIn(cfg, Initial(cfg), Opening(s, self, t), Opening(s, self, t)[1])
  {
    var cfg, es := NightConfig(p, s, self), Opening(s, self, t);
    var g, e := es[0], es[1];
    HearsHeard(es);
    assert es[..1] == [g] && [g][..0] == [];
    assert Hears([g]) == [Hear(g)];
    var acts := Hears(es);
    assert acts == [Hear(g), Hear(e)] && acts[..1] == [Hear(g)] && [Hear(g)][..0] == [];
    var v := Evening(Initial(cfg), q);
    assert ActAll(cfg, v, acts[..1]) == Act(cfg, v, Hear(g));
    assert Run(cfg, Initial(cfg), es[..1]) == Step(cfg, Initial(cfg), g).core;
    assert Grants(cfg, Run(cfg, Initial(cfg), es[..1]), e);
  }

  lemma {:induction false} HearsHeard(es: seq<Event>)
    ensures Heard(Hears(es)) == es && Changes(Hears(es)) == []
  {
    if es != [] {
      HearsHeard(es[..|es| - 1]);
      assert Hears(es)[..|Hears(es)| - 1] == Hears(es[..|es| - 1]);
    }
  }

  // The changes of a night, with the opening heard after the first y of them.
  function Interrupted(ops: seq<Op>, y: nat, es: seq<Event>): seq<Action>
    requires y <= |ops|
  {
    Silent(ops[..y]) + Hears(es) + Silent(ops[y..])
  }

  lemma InterruptedActs(ops: seq<Op>, y: nat, es: seq<Event>)
    requires y <= |ops|
    ensures Changes(Interrupted(ops, y, es)) == ops && Heard(Interrupted(ops, y, es)) == es
  {
    var a, b, c := Silent(ops[..y]), Hears(es), Silent(ops[y..]);
    SilentHeard(ops[..y]);
    SilentHeard(ops[y..]);
    HearsHeard(es);
    HeardJoin(a, b);
    HeardJoin(a + b, c);
    assert ops[..y] + ops[y..] == ops;
  }

  lemma InterruptedNight(p: Prefs, s: Session, self: Id, ops: seq<Op>, y: nat, t: int)
    requires y <= |ops| && SessionFloor(p, s.id) < t
    ensures Night(p, s, self, Interrupted(ops, y, Opening(s, self, t))).prefs
            == ApplyAll(NoteSessionFloor(ApplyAll(p, ops[..y]), s.id, t), ops[y..])
  {
    var cfg, v, es := NightConfig(p, s, self), Begin(p, s, self), Opening(s, self, t);
    var a, b, c := Silent(ops[..y]), Hears(es), Silent(ops[y..]);
    SilentActs(cfg, v, ops[..y]);
    OpeningHeard(p, ApplyAll(p, ops[..y]), s, self, t);
    SilentActs(cfg, ActAll(cfg, v, a + b), ops[y..]);
    ActsJoin(cfg, v, a, b);
    ActsJoin(cfg, v, a + b, c);
  }

  // Where the watermark of an opening is lost for good.
  ghost predicate Loses(p: Prefs, ops: seq<Op>, y: nat, sid: Id)
    requires y <= |ops|
  {
    !Home(IdAfter(IdOf(p), ops[..y]), sid) || exists r :: y <= r < |ops| && ops[r].Rotate?
  }

  lemma Lost(p: Prefs, sid: Id, ops: seq<Op>, y: nat, t: int)
    requires y <= |ops| && NotedByCore(ops, sid) && Loses(p, ops, y, sid)
    ensures SessionFloor(ApplyAll(NoteSessionFloor(ApplyAll(p, ops[..y]), sid, t), ops[y..]), sid) == 0
  {
    var q, rest := NoteSessionFloor(ApplyAll(p, ops[..y]), sid, t), ops[y..];
    if r :| y <= r < |ops| && ops[r].Rotate? {
      assert rest == rest[..r - y] + [ops[r]] + rest[r - y + 1..];
      ApplyJoin(q, rest[..r - y], [ops[r]]);
      assert [ops[r]][..0] == [];
      assert ApplyAll(ApplyAll(q, rest[..r - y]), [ops[r]]) == RotateSession(ApplyAll(q, rest[..r - y]));
      ApplyJoin(q, rest[..r - y] + [ops[r]], rest[r - y + 1..]);
      ChangesNeverRaise(RotateSession(ApplyAll(q, rest[..r - y])), rest[r - y + 1..], sid);
    } else {
      IdsTrack(p, ops[..y]);
      ChangesNeverRaise(q, rest, sid);
    }
  }

  lemma DisloyalLoses(p: Prefs, ops: seq<Op>, sid: Id) returns (y: nat)
    requires !Loyal(IdOf(p), ops, sid)
    ensures y <= |ops| && Loses(p, ops, y, sid)
  {
    if op :| op in ops && op.Rotate? {
      var r :| 0 <= r < |ops| && ops[r] == op;
      y := 0;
    } else {
      y :| 0 <= y <= |ops| && !Home(IdAfter(IdOf(p), ops[..y]), sid);
    }
  }

  function SilentNights(plans: seq<seq<Op>>): seq<seq<Action>> {
    if plans == [] then [] else SilentNights(plans[..|plans| - 1]) + [Silent(plans[|plans| - 1])]
  }

  lemma {:induction false} SilentNightsKeep(p: Prefs, s: Session, self: Id, plans: seq<seq<Op>>)
    requires forall ops | ops in plans :: NotedByCore(ops, s.id)
    ensures var ns := SilentNights(plans); var q := PrefsAfter(p, s, self, ns);
            && |ns| == |plans| && IdOf(q) == IdAfterNights(IdOf(p), plans)
               && SessionFloor(q, s.id) <= SessionFloor(p, s.id)
  {
    if plans != [] {
      var front, ops := plans[..|plans| - 1], plans[|plans| - 1];
      SilentNightsKeep(p, s, self, front);
      var ns, q := SilentNights(front), PrefsAfter(p, s, self, SilentNights(front));
      assert SilentNights(plans)[..|ns|] == ns;
      assert ops in plans && forall o | o in front :: o in plans;
      SilentActs(NightConfig(q, s, self), Begin(q, s, self), ops);
      IdsTrack(q, ops);
      ChangesNeverRaise(q, ops, s.id);
    }
  }

  // The nights of a replay: silence, the opening on night k and once more on the next.
  function Twice(s: Session, self: Id, plans: seq<seq<Op>>, k: nat, y: nat, t: int): seq<seq<Action>>
    requires k + 1 < |plans| && y <= |plans[k]|
  {
    var es := Opening(s, self, t);
    SilentNights(plans[..k]) + [Interrupted(plans[k], y, es), Interrupted(plans[k + 1], 0, es)]
      + SilentNights(plans[k + 2..])
  }

  lemma {:induction false} SilentNightsFollow(plans: seq<seq<Op>>)
    ensures Follows(SilentNights(plans), plans) && SafeStamps(SilentNights(plans))
  {
    if plans != [] {
      var front, ops := plans[..|plans| - 1], plans[|plans| - 1];
      SilentNightsFollow(front);
      SilentHeard(ops);
      FollowsJoin(SilentNights(front), front, [Silent(ops)], [ops]);
      assert front + [ops] == plans;
    }
  }

  lemma TwiceFollows(s: Session, self: Id, plans: seq<seq<Op>>, k: nat, y: nat, t: int)
    requires k + 1 < |plans| && y <= |plans[k]| && t <= MAX_SAFE_INTEGER
    ensures Follows(Twice(s, self, plans, k, y, t), plans) && SafeStamps(Twice(s, self, plans, k, y, t))
  {
    var es := Opening(s, self, t);
    var a, b := SilentNights(plans[..k]), SilentNights(plans[k + 2..]);
    var two := [Interrupted(plans[k], y, es), Interrupted(plans[k + 1], 0, es)];
    SilentNightsFollow(plans[..k]);
    SilentNightsFollow(plans[k + 2..]);
    InterruptedActs(plans[k], y, es);
    InterruptedActs(plans[k + 1], 0, es);
    OneFollows(two[0], plans[k]);
    OneFollows(two[1], plans[k + 1]);
    FollowsJoin([two[0]], [plans[k]], [two[1]], [plans[k + 1]]);
    assert [two[0]] + [two[1]] == two && [plans[k]] + [plans[k + 1]] == [plans[k], plans[k + 1]];
    FollowsJoin(a, plans[..k], two, [plans[k], plans[k + 1]]);
    FollowsJoin(a + two, plans[..k] + [plans[k], plans[k + 1]], b, plans[k + 2..]);
    assert plans[..k] + [plans[k], plans[k + 1]] + plans[k + 2..] == plans;
  }

  lemma OneFollows(acts: seq<Action>, ops: seq<Op>)
    requires Changes(acts) == ops && SafeNight(acts)
    ensures Follows([acts], [ops]) && SafeStamps([acts])
  {}

  lemma FollowsJoin(a: seq<seq<Action>>, ps: seq<seq<Op>>, b: seq<seq<Action>>, qs: seq<seq<Op>>)
    requires Follows(a, ps) && SafeStamps(a) && Follows(b, qs) && SafeStamps(b)
    ensures Follows(a + b, ps + qs) && SafeStamps(a + b)
  {}

  lemma TwiceGranted(p: Prefs, s: Session, self: Id, plans: seq<seq<Op>>, k: nat, y: nat, t: int)
    requires k + 1 < |plans| && y <= |plans[k]|
    requires forall ops | ops in plans :: NotedByCore(ops, s.id)
    requires var q := PrefsAfter(p, s, self, SilentNights(plans[..k]));
             SessionFloor(q, s.id) < t && 0 < t && Loses(q, plans[k], y, s.id)
    ensures var ns := Twice(s, self, plans, k, y, t); var e := Opening(s, self, t)[1];
            k + 1 < |ns| && GrantedOn(p, s, self, ns, k, e) && GrantedOn(p, s, self, ns, k + 1, e)
  {
    var ns, es := Twice(s, self, plans, k, y, t), Opening(s, self, t);
    var q, night := PrefsAfter(p, s, self, SilentNights(plans[..k])), Interrupted(plans[k], y, es);
    assert forall ops | ops in plans[..k] :: ops in plans;
    SilentNightsKeep(p, s, self, plans[..k]);
    assert ns[..k] == SilentNights(plans[..k]) && ns[..k + 1] == SilentNights(plans[..k]) + [night];
    assert ns[..k + 1][..k] == ns[..k] && ns[k] == night && ns[k + 1] == Interrupted(plans[k + 1], 0, es);
    InterruptedActs(plans[k], y, es);
    InterruptedNight(q, s, self, plans[k], y, t);
    OpeningHeard(q, q, s, self, t);
    var r := PrefsAfter(p, s, self, ns[..k + 1]);
    assert plans[k] in plans;
    Lost(q, s.id, plans[k], y, t);
    InterruptedActs(plans[k + 1], 0, es);
    OpeningHeard(r, r, s, self, t);
  }

  lemma DisloyalReplays(p: Prefs, s: Session, self: Id, plans: seq<seq<Op>>, k: nat)
    requires k + 1 < |plans| && SessionFloor(p, s.id) < MAX_SAFE_INTEGER
    requires forall ops | ops in plans :: NotedByCore(ops, s.id)
    requires !Loyal(IdAfterNights(IdOf(p), plans[..k]), plans[k], s.id)
    ensures !ReplaySafe(p, s, self, plans)
  {
    var q := PrefsAfter(p, s, self, SilentNights(plans[..k]));
    assert forall ops | ops in plans[..k] :: ops in plans;
    SilentNightsKeep(p, s, self, plans[..k]);
    var t := SessionFloor(q, s.id) + 1;
    var y := DisloyalLoses(q, plans[k], s.id);
    TwiceFollows(s, self, plans, k, y, t);
    TwiceGranted(p, s, self, plans, k, y, t);
  }

  /** The exact condition over the changes to the preferences: no grant is ever applied on two
      nights if and only if, on every night but the last, nothing rotates and no other session
      is ever remembered, not even by a detour or from before. */
  lemma ReplaySafeIff(p: Prefs, s: Session, self: Id, plans: seq<seq<Op>>)
    requires Storable(s.id) && SessionFloor(p, s.id) < MAX_SAFE_INTEGER
    requires forall ops | ops in plans :: NotedByCore(ops, s.id)
    ensures ReplaySafe(p, s, self, plans) <==> AllLoyal(p, plans, s.id)
  {
    if AllLoyal(p, plans, s.id) {
      forall ns, i: nat, j: nat, e |
        Follows(ns, plans) && SafeStamps(ns) && i < j < |ns| && GrantedOn(p, s, self, ns, i, e)
        ensures !GrantedOn(p, s, self, ns, j, e)
      {
        NoReplayAcrossRestarts(p, s, self, ns, plans, i, j, e);
      }
    } else {
      var k :| 0 <= k < |plans| - 1 && !Loyal(IdAfterNights(IdOf(p), plans[..k]), plans[k], s.id);
      DisloyalReplays(p, s, self, plans, k);
    }
  }

  /** So a detour is not safe; nor is starting a session while another one is still remembered,
      as the new one is recorded only once it has started. */
  lemma DetoursReplay(p: Prefs, s: Session, self: Id, other: Id)
    requires Storable(s.id) && Storable(other) && other != s.id && SessionFloor(p, s.id) < MAX_SAFE_INTEGER
    ensures !ReplaySafe(p, s, self, [[Use(s.id), Use(other), Use(s.id)], []])
    ensures !ReplaySafe(p, s, self, [[Use(s.id), Rotate], []])
    ensures IdOf(p) == Some(other) ==> !ReplaySafe(p, s, self, [[Use(s.id)], []])
  {
    Detour(p, s, self, [Use(s.id), Use(other), Use(s.id)], 2);
    Detour(p, s, self, [Use(s.id), Rotate], 1);
    if IdOf(p) == Some(other) { Detour(p, s, self, [Use(s.id)], 0); }
  }

  lemma Detour(p: Prefs, s: Session, self: Id, ops: seq<Op>, x: nat)
    requires Storable(s.id) && SessionFloor(p, s.id) < MAX_SAFE_INTEGER && NotedByCore(ops, s.id) && x <= |ops|
    requires !Home(IdAfter(IdOf(p), ops[..x]), s.id) || (x < |ops| && ops[x].Rotate?)
    ensures !ReplaySafe(p, s, self, [ops, []])
  {
    var plans := [ops, []];
    assert plans[..0] == [] && plans[0] == ops;
    ReplaySafeIff(p, s, self, plans);
  }

  /** An id is reusable exactly when this member can pin its genesis. */
  lemma ReusableIffPinnable(p: Prefs, s: Session, self: Id, at: int)
    requires p.session.Some? && p.session.value.id == s.id && self != ""
    ensures var cfg := Config(s, self, 0);
            ReusableSessionId(p, self) == Some(s.id) <==> PinGenesis(cfg, Initial(cfg), self, s.id, at).ok
  {}
}
