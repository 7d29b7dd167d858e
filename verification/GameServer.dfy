/** The game-server state machine and its crash budget (shared/gameserver-core.ts). */
module GameServer {
  import opened Ids

  const MAX_RESTARTS := 3
  const RESTART_WINDOW_MS := 300_000

  datatype Status = Idle | Installing | Starting | Running | Stopping | Stopped | Crashed

  datatype FailReason =
    InstallFailed | FatalLog | CrashLoop | ExitedEarly | Unknown | StopTimeout | LaunchFailed | RuntimeMissing

  datatype Disposition = Gone | Restart | GivenUp

  /** What the module made of a line of output. */
  datatype LogEvent =
    Ready | PlayerJoin(name: string) | PlayerLeave(name: string) | Error(fatal: bool, text: string) | Other

  datatype Fsm = Fsm(
    status: Status, since: int, ready: bool, installPct: Option<int>, players: set<string>,
    failReason: Option<FailReason>, failDetail: Option<string>, crashes: seq<int>, fatalSeen: bool)

  function New(now: int, status: Status): Fsm { Fsm(status, now, false, None, {}, None, None, [], false) }

  function To(f: Fsm, status: Status, now: int): Fsm { f.(status := status, since := now) }

  predicate Settled(f: Fsm) { f.status == Idle || f.status == Stopped || f.status == Crashed }

  // isLive: a process is, or should be, alive.
  predicate IsLive(status: Status) { status == Starting || status == Running || status == Stopping }

  function BeginInstall(f: Fsm, now: int): Fsm {
    if !Settled(f) then f else To(f.(failReason := None, failDetail := None, installPct := Some(0)), Installing, now)
  }

  // Rounded half up, then held to a percentage.
  function Percent(pct: real): int {
    var n := (pct + 0.5).Floor;
    if n < 0 then 0 else if n > 100 then 100 else n
  }

  function InstallProgress(f: Fsm, pct: real): Fsm {
    if f.status != Installing then f else f.(installPct := Some(Percent(pct)))
  }

  function InstallDone(f: Fsm, now: int): Fsm {
    if f.status != Installing then f else To(f.(installPct := None), Idle, now)
  }

  function InstallFails(f: Fsm, detail: string, now: int): Fsm {
    if f.status != Installing then f
    else To(f.(installPct := None, failReason := Some(InstallFailed), failDetail := Some(detail)), Crashed, now)
  }

  function Cleared(f: Fsm): Fsm { f.(ready := false, players := {}) }

  function BeginStart(f: Fsm, now: int): Fsm {
    if !Settled(f) then f
    else To(Cleared(f).(fatalSeen := false, failReason := None, failDetail := None), Starting, now)
  }

  function StartFailed(f: Fsm, reason: FailReason, detail: string, now: int): Fsm {
    To(f.(failReason := Some(reason), failDetail := Some(detail)), Crashed, now)
  }

  function ApplyEvent(f: Fsm, e: LogEvent, now: int): Fsm {
    match e
    case Ready => if f.status == Starting then To(f.(ready := true, crashes := []), Running, now) else f
    case PlayerJoin(name) => f.(players := f.players + {name})
    case PlayerLeave(name) => f.(players := f.players - {name})
    case Error(fatal, text) => if fatal then f.(fatalSeen := true, failDetail := Some(text)) else f
    case Other => f
  }

  function BeginStop(f: Fsm, now: int): Fsm {
    if f.status != Starting && f.status != Running then f else To(f, Stopping, now)
  }

  // The crashes of the last five minutes.
  function Recent(crashes: seq<int>, now: int): seq<int> {
    if crashes == [] then [] else
      (if now - crashes[0] < RESTART_WINDOW_MS then [crashes[0]] else []) + Recent(crashes[1..], now)
  }

  datatype Exit = Exit(expected: bool, how: string, autoRestart: bool)

  datatype Exited = Exited(fsm: Fsm, disposition: Disposition)

  function OnExit(f: Fsm, x: Exit, now: int): Exited {
    var g := Cleared(f);
    if x.expected then Exited(To(g, Stopped, now), Gone)
    else if f.fatalSeen then
      var detail := if f.failDetail.Some? then f.failDetail else Some(x.how);
      Exited(To(g.(failReason := Some(FatalLog), failDetail := detail), Crashed, now), GivenUp)
    else Unexpected(g.(crashes := Recent(f.crashes, now) + [now]), x, now)
  }

  // The crash is counted; is there budget left?
  function Unexpected(g: Fsm, x: Exit, now: int): Exited {
    var why := if g.status == Starting then ExitedEarly else Unknown;
    if !x.autoRestart || |g.crashes| > MAX_RESTARTS then
      var reason := if |g.crashes| > MAX_RESTARTS then CrashLoop else why;
      Exited(To(g.(failReason := Some(reason), failDetail := Some(x.how)), Crashed, now), GivenUp)
    else Exited(To(g.(failReason := Some(why), failDetail := Some(x.how)), Starting, now), Restart)
  }

  function PrepareRestart(f: Fsm, now: int): Fsm { if f.status != Starting then f else To(f, Idle, now) }

  function Killed(f: Fsm, now: int): Fsm {
    To(Cleared(f).(failReason := Some(StopTimeout),
                   failDetail := Some("the process did not exit in time and was terminated")), Stopped, now)
  }

  function ClearFailure(f: Fsm, now: int): Fsm {
    if f.status != Crashed then f
    else To(f.(failReason := None, failDetail := None, crashes := [], fatalSeen := false), Idle, now)
  }

  // ---- Runs ----

  datatype Op =
    | OpInstall | OpProgress(pct: real) | OpInstalled | OpInstallFails(detail: string)
    | OpStart | OpStartFails(reason: FailReason, detail: string)
    | OpLog(e: LogEvent) | OpPlayers(names: set<string>) | OpStop | OpExit(x: Exit)
    | OpPrepare | OpKilled | OpClear

  datatype Timed = Timed(op: Op, now: int)

  function Apply(f: Fsm, t: Timed): Fsm {
    match t.op
    case OpInstall => BeginInstall(f, t.now)
    case OpProgress(pct) => InstallProgress(f, pct)
    case OpInstalled => InstallDone(f, t.now)
    case OpInstallFails(detail) => InstallFails(f, detail, t.now)
    case OpStart => BeginStart(f, t.now)
    case OpStartFails(reason, detail) => StartFailed(f, reason, detail, t.now)
    case OpLog(e) => ApplyEvent(f, e, t.now)
    case OpPlayers(names) => f.(players := names)
    case OpStop => BeginStop(f, t.now)
    case OpExit(x) => OnExit(f, x, t.now).fsm
    case OpPrepare => PrepareRestart(f, t.now)
    case OpKilled => Killed(f, t.now)
    case OpClear => ClearFailure(f, t.now)
  }

  function Run(f: Fsm, ts: seq<Timed>): Fsm {
    if ts == [] then f else Apply(Run(f, ts[..|ts| - 1]), ts[|ts| - 1])
  }

  predicate Restarts(f: Fsm, t: Timed) { t.op.OpExit? && OnExit(f, t.op.x, t.now).disposition == Restart }

  // When restarts were ordered.
  function RestartTimes(f: Fsm, ts: seq<Timed>): seq<int> {
    if ts == [] then [] else
      var n := |ts| - 1;
      RestartTimes(f, ts[..n]) + if Restarts(Run(f, ts[..n]), ts[n]) then [ts[n].now] else []
  }

  // The two steps that forgive past crashes, when they take effect.
  predicate Forgives(f: Fsm, t: Timed) {
    (t.op.OpLog? && t.op.e.Ready? && f.status == Starting) || (t.op.OpClear? && f.status == Crashed)
  }

  predicate Unforgiven(f: Fsm, ts: seq<Timed>) {
    ts == [] || (var n := |ts| - 1; Unforgiven(f, ts[..n]) && !Forgives(Run(f, ts[..n]), ts[n]))
  }

  predicate Clocked(ts: seq<Timed>) { forall i | 0 < i < |ts| :: ts[i - 1].now <= ts[i].now }

  // ---- Who is playing ----

  // What one step says of a player, if anything.
  function News(f: Fsm, t: Timed, name: string): Option<bool> {
    match t.op
    case OpLog(PlayerJoin(n)) => if n == name then Some(true) else None
    case OpLog(PlayerLeave(n)) => if n == name then Some(false) else None
    case OpPlayers(names) => Some(name in names)
    case OpStart => if f.status == Idle || f.status == Stopped || f.status == Crashed then Some(false) else None
    case OpExit(_) => Some(false)
    case OpKilled => Some(false)
    case _ => None
  }

  function LastNews(f: Fsm, ts: seq<Timed>, name: string): Option<bool> {
    if ts == [] then None else
      var n := |ts| - 1;
      var news := News(Run(f, ts[..n]), ts[n], name);
      if news.Some? then news else LastNews(f, ts[..n], name)
  }

  /** A player is listed exactly when the last thing heard of it is that it joined, or a probe saw
      it; nobody is after a start, an exit or a kill. */
  lemma {:induction false} PlayingIff(f: Fsm, ts: seq<Timed>, name: string)
    ensures var last := LastNews(f, ts, name);
            name in Run(f, ts).players <==> if last.Some? then last.value else name in f.players
  {
    if ts != [] {
      PlayingIff(f, ts[..|ts| - 1], name);
      OneStepPlaying(Run(f, ts[..|ts| - 1]), ts[|ts| - 1], name);
    }
  }

  lemma OneStepPlaying(f: Fsm, t: Timed, name: string)
    ensures var news := News(f, t, name);
            name in Apply(f, t).players <==> if news.Some? then news.value else name in f.players
  {}

  // ---- The budget ----

  function Count(s: seq<int>, now: int): nat { |Recent(s, now)| }

  lemma {:induction false} RecentAppend(s: seq<int>, t: int, now: int)
    ensures Recent(s + [t], now) == Recent(s, now) + if now - t < RESTART_WINDOW_MS then [t] else []
  {
    if s != [] {
      assert (s + [t])[1..] == s[1..] + [t];
      RecentAppend(s[1..], t, now);
    }
  }

  lemma {:induction false} RecentTwice(s: seq<int>, now: int, later: int)
    requires now <= later
    ensures Recent(Recent(s, now), later) == Recent(s, later)
  {
    if s != [] {
      RecentTwice(s[1..], now, later);
      if now - s[0] < RESTART_WINDOW_MS {
        assert Recent(s, now)[0] == s[0] && Recent(s, now)[1..] == Recent(s[1..], now);
      } else {
        assert Recent(s, now) == Recent(s[1..], now) && Recent(s, later) == Recent(s[1..], later);
      }
    }
  }

  lemma {:induction false} RecentShorter(s: seq<int>, now: int)
    ensures Count(s, now) <= |s|
  {
    if s != [] { RecentShorter(s[1..], now); }
  }

  // Every restart still in the window is among the exits still in the window.
  ghost predicate Covered(restarts: seq<int>, spent: seq<int>) {
    forall now :: Count(restarts, now) <= Count(spent, now)
  }

  /** When the budget was charged since it was last forgiven: exits that nobody asked for and
      no fatal line explains. */
  function Spent(f: Fsm, ts: seq<Timed>): seq<int> {
    if ts == [] then f.crashes else
      var n := |ts| - 1;
      if Forgives(Run(f, ts[..n]), ts[n]) then []
      else Spent(f, ts[..n]) + if Charges(Run(f, ts[..n]), ts[n]) then [ts[n].now] else []
  }

  predicate Charges(f: Fsm, t: Timed) { t.op.OpExit? && !t.op.x.expected && !f.fatalSeen }

  // The crash list is pruned as it goes, but never of what still counts.
  lemma {:induction false} CrashesAreSpent(f: Fsm, ts: seq<Timed>, now: int)
    requires Clocked(ts) && (ts != [] ==> ts[|ts| - 1].now <= now)
    ensures Recent(Run(f, ts).crashes, now) == Recent(Spent(f, ts), now)
  {
    if ts != [] {
      var n := |ts| - 1;
      var t, g := ts[n], Run(f, ts[..n]);
      assert n > 0 ==> ts[n - 1].now <= ts[n].now;
      CrashesAreSpent(f, ts[..n], t.now);
      CrashesAreSpent(f, ts[..n], now);
      if Charges(g, t) {
        RecentTwice(g.crashes, t.now, now);
        RecentAppend(Recent(g.crashes, t.now), t.now, now);
        RecentAppend(Spent(f, ts[..n]), t.now, now);
      } else {
        CrashesKept(g, t);
        assert Spent(f, ts[..n]) + [] == Spent(f, ts[..n]);
      }
    }
  }

  lemma CrashesKept(f: Fsm, t: Timed)
    requires !Charges(f, t)
    ensures Apply(f, t).crashes == if Forgives(f, t) then [] else f.crashes
  {}

  /** The exact budget: on a clock that does not go back, an exit is answered with a restart if
      and only if nobody asked for it, no fatal line was seen, restarting is on, and fewer than
      three charges since the last forgiveness are still in the window. */
  lemma RestartIff(f: Fsm, ts: seq<Timed>, x: Exit, now: int)
    requires Clocked(ts) && (ts != [] ==> ts[|ts| - 1].now <= now)
    ensures Restarts(Run(f, ts), Timed(OpExit(x), now)) <==>
            !x.expected && !Run(f, ts).fatalSeen && x.autoRestart && Count(Spent(f, ts), now) < MAX_RESTARTS
  {
    CrashesAreSpent(f, ts, now);
  }

  // Any four restarts span at least the window.
  predicate Spaced(r: seq<int>) { forall i | 0 <= i && i + 3 < |r| :: r[i + 3] - r[i] >= RESTART_WINDOW_MS }

  predicate UpTo(r: seq<int>, now: int) {
    (forall i | 0 < i < |r| :: r[i - 1] <= r[i]) && (r != [] ==> r[|r| - 1] <= now)
  }

  lemma {:induction false} OrderedTimes(r: seq<int>, now: int, i: nat, j: nat)
    requires UpTo(r, now) && i <= j < |r|
    ensures r[i] <= r[j]
  {
    if i < j { OrderedTimes(r, now, i, j - 1); }
  }

  // A suffix that began within the window is all within the window.
  lemma {:induction false} SuffixCounts(r: seq<int>, now: int, i: nat)
    requires UpTo(r, now) && i <= |r| && (i < |r| ==> now - r[i] < RESTART_WINDOW_MS)
    ensures Count(r, now) >= |r| - i
    decreases |r|
  {
    if i < |r| {
      var n := |r| - 1;
      assert r == r[..n] + [r[n]];
      RecentAppend(r[..n], r[n], now);
      OrderedTimes(r, now, i, n);
      if i < n { OrderedTimes(r, now, n - 1, n); }
      SuffixCounts(r[..n], now, i);
    }
  }

  lemma SpacedAppend(r: seq<int>, now: int)
    requires Spaced(r) && UpTo(r, now) && Count(r + [now], now) <= MAX_RESTARTS
    ensures Spaced(r + [now])
  {
    var s := r + [now];
    forall i | 0 <= i && i + 3 < |s| ensures s[i + 3] - s[i] >= RESTART_WINDOW_MS {
      if i + 3 == |r| {
        if now - s[i] < RESTART_WINDOW_MS { SuffixCounts(s, now, i); }
      } else {
        assert s[i + 3] == r[i + 3] && s[i] == r[i];
      }
    }
  }

  lemma {:induction false} RestartsCovered(f: Fsm, ts: seq<Timed>)
    requires Unforgiven(f, ts)
    ensures Covered(RestartTimes(f, ts), Spent(f, ts))
  {
    if ts != [] {
      var n := |ts| - 1;
      var r, q, t := RestartTimes(f, ts[..n]), Spent(f, ts[..n]), ts[n];
      RestartsCovered(f, ts[..n]);
      forall now ensures Count(RestartTimes(f, ts), now) <= Count(Spent(f, ts), now) {
        assert Count(r, now) <= Count(q, now) && r + [] == r && q + [] == q;
        RecentAppend(r, t.now, now);
        RecentAppend(q, t.now, now);
      }
    } else {
      assert forall now :: Count([], now) <= Count(f.crashes, now);
    }
  }

  lemma {:induction false} RestartsSpaced(f: Fsm, ts: seq<Timed>)
    requires Clocked(ts) && Unforgiven(f, ts)
    ensures Spaced(RestartTimes(f, ts)) && (ts != [] ==> UpTo(RestartTimes(f, ts), ts[|ts| - 1].now))
    ensures ts == [] ==> RestartTimes(f, ts) == []
  {
    if ts != [] {
      var n := |ts| - 1;
      var r, t := RestartTimes(f, ts[..n]), ts[n];
      RestartsSpaced(f, ts[..n]);
      var last := if n > 0 then ts[n - 1].now else t.now;
      if Restarts(Run(f, ts[..n]), t) { RestartLeavesRoom(f, ts[..n], t); }
      StillSpaced(r, last, t.now, Restarts(Run(f, ts[..n]), t));
    }
  }

  lemma RestartLeavesRoom(f: Fsm, ts: seq<Timed>, t: Timed)
    requires Clocked(ts) && Unforgiven(f, ts) && Restarts(Run(f, ts), t) && (ts != [] ==> ts[|ts| - 1].now <= t.now)
    ensures Count(RestartTimes(f, ts), t.now) < MAX_RESTARTS
  {
    RestartIff(f, ts, t.op.x, t.now);
    RestartsCovered(f, ts);
    assert Count(RestartTimes(f, ts), t.now) <= Count(Spent(f, ts), t.now);
  }

  lemma StillSpaced(r: seq<int>, last: int, now: int, restart: bool)
    requires Spaced(r) && UpTo(r, last) && last <= now && (restart ==> Count(r, now) < MAX_RESTARTS)
    ensures var s := r + if restart then [now] else []; Spaced(s) && UpTo(s, now)
  {
    if restart {
      assert UpTo(r, now);
      RecentAppend(r, now, now);
      SpacedAppend(r, now);
    } else {
      assert r + [] == r;
    }
  }

  /** Under a clock that does not go back, and as long as neither a clean start nor the user
      forgives, any four automatic restarts span at least the window: at most three fall in
      any shorter span, whatever starts, stops and installs happen between them. */
  lemma RestartsAreBounded(f: Fsm, ts: seq<Timed>, i: nat)
    requires Clocked(ts) && Unforgiven(f, ts) && i + 3 < |RestartTimes(f, ts)|
    ensures RestartTimes(f, ts)[i + 3] - RestartTimes(f, ts)[i] >= RESTART_WINDOW_MS
  {
    RestartsSpaced(f, ts);
  }

  /** Releasing the slot of a running start, where no restart was ordered, opens it again: the
      state machine alone would let a second start in. */
  lemma UnorderedReleaseReopens(now: int)
    ensures var f := BeginStart(New(now, Idle), now);
            f.status == Starting && BeginStart(f, now) == f
            && BeginStart(PrepareRestart(f, now), now).status == Starting && Settled(PrepareRestart(f, now))
  {}
}
