/** The supervisor of a game server's process (electron/gameserver/supervisor.ts): the handle
    of the child process, its timers, and the state machine it drives. */
module Supervisor {
  import opened Ids
  import G = GameServer
  import opened GameServer

  /** `handle` is the child process as far as the supervisor knows, `live` how many processes
      there really are. `stopArmed` and `owed` are the stop timer and the restart timer. */
  datatype Supervisor = Supervisor(
    fsm: Fsm, handle: bool, live: nat, expecting: bool, stopArmed: bool, owed: bool, autoRestart: bool)

  function Idling(now: int): Supervisor { Supervisor(New(now, Idle), false, 0, false, false, false, true) }

  // How a start ends: with a process, or with the reason there is none.
  datatype Outcome = Spawned | Failed(reason: FailReason, detail: string)

  datatype Act =
    | Launch(outcome: Outcome)                // the user starts the server
    | Report(e: LogEvent)                     // a line of output
    | Breaks(detail: string)                  // an error event of the process, which may live on
    | Ends(how: string)                       // the process has exited
    | StopIt
    | StopTimeout                             // it did not exit in time and is being terminated
    | RestartDue(outcome: Outcome)
    | Kill                                    // the app is closing
    | Pause                                   // no more automatic restarts
    | Elsewhere(op: Op)                       // installing, player probes, clearing a failure

  // Errors and exits come from a live process, and timers fire only while they are armed. Output
  // may still be read after the exit.
  predicate Allowed(v: Supervisor, a: Act) {
    match a
    case Breaks(_) => v.live > 0
    case Ends(_) => v.live > 0
    case StopTimeout => v.stopArmed
    case RestartDue(_) => v.owed
    case Elsewhere(op) =>
      op.OpInstall? || op.OpProgress? || op.OpInstalled? || op.OpInstallFails? || op.OpPlayers? || op.OpClear?
    case _ => true
  }

  function Start(v: Supervisor, outcome: Outcome, now: int): Supervisor {
    if v.handle || !Settled(v.fsm) then v
    else if outcome.Spawned? then
      v.(fsm := BeginStart(v.fsm, now), handle := true, live := v.live + 1, expecting := false)
    else v.(fsm := StartFailed(BeginStart(v.fsm, now), outcome.reason, outcome.detail, now))
  }

  function Stop(v: Supervisor, now: int): Supervisor {
    if !v.handle then v.(fsm := PrepareRestart(v.fsm, now), owed := false)
    else if v.fsm.status != Starting && v.fsm.status != Running then v.(owed := false)
    else v.(fsm := BeginStop(v.fsm, now), expecting := true, stopArmed := true, owed := false)
  }

  function ExitOf(v: Supervisor, how: string): Exit { Exit(v.expecting, how, v.autoRestart) }

  function End(v: Supervisor, how: string, now: int): Supervisor {
    var r := OnExit(v.fsm, ExitOf(v, how), now);
    Supervisor(r.fsm, false, if v.live > 0 then v.live - 1 else 0, false, false, v.owed || r.disposition == Restart,
               v.autoRestart)
  }

  function Step(v: Supervisor, a: Act, now: int): Supervisor {
    match a
    case Launch(outcome) => Start(v, outcome, now)
    case Report(e) => v.(fsm := ApplyEvent(v.fsm, e, now))
    case Breaks(detail) => v.(fsm := StartFailed(v.fsm, LaunchFailed, detail, now))
    case Ends(how) => End(v, how, now)
    case StopIt => Stop(v, now)
    case StopTimeout => v.(fsm := Killed(v.fsm, now), stopArmed := false)
    case RestartDue(outcome) => Start(v.(fsm := PrepareRestart(v.fsm, now), owed := false), outcome, now)
    case Kill => v.(owed := false, expecting := true)
    case Pause =>
      if v.owed && !v.handle then v.(fsm := PrepareRestart(v.fsm, now), owed := false, autoRestart := false)
      else v.(owed := false, autoRestart := false)
    case Elsewhere(op) => v.(fsm := Apply(v.fsm, Timed(op, now)))
  }

  function Run(v: Supervisor, acts: seq<(Act, int)>): Supervisor {
    if acts == [] then v else
      var n := |acts| - 1;
      Step(Run(v, acts[..n]), acts[n].0, acts[n].1)
  }

  predicate AllAllowed(v: Supervisor, acts: seq<(Act, int)>) {
    acts == [] || (var n := |acts| - 1; AllAllowed(v, acts[..n]) && Allowed(Run(v, acts[..n]), acts[n].0))
  }

  // ---- When the status is not what it says ----

  /** Astray: the process is being terminated or has failed, and its exit is still to come.
      Abandoned: the closing app cancelled a restart whose slot was never released. Haunted: a
      ready line was read after the exit, while the slot was kept for the restart. */
  datatype Oddity = Oddity(astray: bool, abandoned: bool, haunted: bool)

  predicate LateReady(v: Supervisor, a: Act) {
    a.Report? && a.e.Ready? && !v.handle && v.fsm.status == Starting
  }

  function NextOddity(o: Oddity, v: Supervisor, a: Act): Oddity {
    Oddity(a.StopTimeout? || a.Breaks? || (!a.Ends? && o.astray),
           (a.Kill? && v.owed && !o.haunted) || (!a.StopIt? && !LateReady(v, a) && o.abandoned),
           LateReady(v, a) || o.haunted)
  }

  function OddityAfter(v: Supervisor, acts: seq<(Act, int)>): Oddity {
    if acts == [] then Oddity(false, false, false) else
      var n := |acts| - 1;
      NextOddity(OddityAfter(v, acts[..n]), Run(v, acts[..n]), acts[n].0)
  }

  predicate Inv(v: Supervisor, o: Oddity) {
    && v.live == (if v.handle then 1 else 0)
    && (v.owed || o.abandoned ==> !v.handle && (v.fsm.status == Starting || o.haunted))
    && (o.abandoned ==> !v.owed && !o.haunted)
    && (o.haunted ==> !v.handle && v.fsm.status == Running)
    && (v.stopArmed || o.astray ==> v.handle) && (v.fsm.ready ==> v.handle || o.haunted)
    && (v.stopArmed && !o.astray ==> v.fsm.status == Stopping)
    && (IsLive(v.fsm.status) <==> (v.handle && !o.astray) || v.owed || o.abandoned || o.haunted)
  }

  lemma StepKeepsInv(v: Supervisor, a: Act, now: int, o: Oddity)
    requires Inv(v, o) && Allowed(v, a)
    ensures Inv(Step(v, a, now), NextOddity(o, v, a))
  {}

  lemma {:induction false} RunKeepsInv(v: Supervisor, acts: seq<(Act, int)>)
    requires Inv(v, Oddity(false, false, false)) && AllAllowed(v, acts)
    ensures Inv(Run(v, acts), OddityAfter(v, acts))
  {
    if acts != [] {
      var n := |acts| - 1;
      RunKeepsInv(v, acts[..n]);
      StepKeepsInv(Run(v, acts[..n]), acts[n].0, acts[n].1, OddityAfter(v, acts[..n]));
    }
  }

  /** However starts, stops, failures, exits, restarts and installs interleave, there is never
      more than one process. The status denies it exactly between a stop that timed out or a
      process error and the exit; and it claims one where there is none and none is owed exactly
      while a restart is abandoned, and for good once a late ready line has haunted the slot. */
  lemma NeverTwoProcesses(now: int, acts: seq<(Act, int)>)
    requires AllAllowed(Idling(now), acts)
    ensures var v, o := Run(Idling(now), acts), OddityAfter(Idling(now), acts);
            && v.live <= 1
            && (v.live == 1 && !IsLive(v.fsm.status) <==> o.astray)
            && (IsLive(v.fsm.status) && v.live == 0 && !v.owed <==> o.abandoned || (o.haunted && !v.owed))
            && (v.fsm.ready ==> v.live == 1 || o.haunted)
  {
    RunKeepsInv(Idling(now), acts);
  }

  /** A haunted server is lost: whatever follows, it is said to run, and no start or restart ever
      gives it a process again. */
  lemma {:induction false} HauntedForGood(v: Supervisor, acts: seq<(Act, int)>)
    requires !v.handle && v.live == 0 && !v.stopArmed && v.fsm.status == Running && AllAllowed(v, acts)
    ensures var w := Run(v, acts); !w.handle && w.live == 0 && !w.stopArmed && w.fsm.status == Running
  {
    if acts != [] { HauntedForGood(v, acts[..|acts| - 1]); }
  }

  /** A crash while starting whose output is read late gets a server there. */
  lemma LateReadyHaunts(now: int)
    ensures var acts := [(Launch(Spawned), now), (Ends("exit code 1"), now), (Report(Ready), now)];
            AllAllowed(Idling(now), acts) && OddityAfter(Idling(now), acts).haunted
  {
    var a, b, c := (Launch(Spawned), now), (Ends("exit code 1"), now), (Report(Ready), now);
    var acts := [a, b, c];
    var none: seq<(Act, int)> := [];
    assert [a][..0] == none;
    assert acts[..2] == [a, b] && [a, b][..1] == [a];
    var one := Step(Idling(now), a.0, now);
    assert Run(Idling(now), [a]) == one && AllAllowed(Idling(now), [a]);
    assert Run(Idling(now), [a, b]) == Step(one, b.0, now) && AllAllowed(Idling(now), [a, b]);
    assert Step(one, b.0, now).fsm.status == Starting;
  }

  // ---- The calls on the state machine ----

  function StartCalls(v: Supervisor, outcome: Outcome, now: int): seq<Timed> {
    if v.handle || !Settled(v.fsm) then []
    else if outcome.Spawned? then [Timed(OpStart, now)]
    else [Timed(OpStart, now), Timed(OpStartFails(outcome.reason, outcome.detail), now)]
  }

  function StepCalls(v: Supervisor, a: Act, now: int): seq<Timed> {
    match a
    case Launch(outcome) => StartCalls(v, outcome, now)
    case Report(e) => [Timed(OpLog(e), now)]
    case Breaks(detail) => [Timed(OpStartFails(LaunchFailed, detail), now)]
    case Ends(how) => [Timed(OpExit(ExitOf(v, how)), now)]
    case StopIt => [Timed(if v.handle then OpStop else OpPrepare, now)]
    case StopTimeout => [Timed(OpKilled, now)]
    case RestartDue(outcome) =>
      [Timed(OpPrepare, now)] + StartCalls(v.(fsm := PrepareRestart(v.fsm, now), owed := false), outcome, now)
    case Kill => []
    case Pause => if v.owed && !v.handle then [Timed(OpPrepare, now)] else []
    case Elsewhere(op) => [Timed(op, now)]
  }

  function Calls(v: Supervisor, acts: seq<(Act, int)>): seq<Timed> {
    if acts == [] then [] else
      var n := |acts| - 1;
      Calls(v, acts[..n]) + StepCalls(Run(v, acts[..n]), acts[n].0, acts[n].1)
  }

  predicate Forward(acts: seq<(Act, int)>) { forall i | 0 < i < |acts| :: acts[i - 1].1 <= acts[i].1 }

  predicate ClockedBy(ts: seq<Timed>, now: int) { Clocked(ts) && (ts != [] ==> ts[|ts| - 1].now <= now) }

  lemma {:induction false} RunJoin(f: Fsm, a: seq<Timed>, b: seq<Timed>)
    ensures G.Run(f, a + b) == G.Run(G.Run(f, a), b)
  {
    if b == [] {
      assert a + b == a;
    } else {
      assert (a + b)[..|a + b| - 1] == a + b[..|b| - 1];
      RunJoin(f, a, b[..|b| - 1]);
    }
  }

  lemma RunTwo(f: Fsm, t: Timed, u: Timed)
    ensures G.Run(f, [t]) == Apply(f, t) && G.Run(f, [t, u]) == Apply(Apply(f, t), u)
  {
    assert [t][..0] == [] && [t, u][..1] == [t];
  }

  lemma StartDrives(v: Supervisor, outcome: Outcome, now: int)
    ensures G.Run(v.fsm, StartCalls(v, outcome, now)) == Start(v, outcome, now).fsm
  {
    RunTwo(v.fsm, Timed(OpStart, now), Timed(OpStart, now));
    if outcome.Failed? { RunTwo(v.fsm, Timed(OpStart, now), Timed(OpStartFails(outcome.reason, outcome.detail), now)); }
  }

  lemma StepDrives(v: Supervisor, a: Act, now: int)
    ensures G.Run(v.fsm, StepCalls(v, a, now)) == Step(v, a, now).fsm
  {
    var calls := StepCalls(v, a, now);
    if a.Launch? {
      StartDrives(v, a.outcome, now);
    } else if a.RestartDue? {
      var w := v.(fsm := PrepareRestart(v.fsm, now), owed := false);
      RunTwo(v.fsm, Timed(OpPrepare, now), Timed(OpPrepare, now));
      RunJoin(v.fsm, [Timed(OpPrepare, now)], StartCalls(w, a.outcome, now));
      StartDrives(w, a.outcome, now);
    } else if calls != [] {
      assert calls == [calls[0]];
      RunTwo(v.fsm, calls[0], calls[0]);
      OneCallDrives(v, a, now);
    }
  }

  lemma OneCallDrives(v: Supervisor, a: Act, now: int)
    requires !a.Launch? && !a.RestartDue? && StepCalls(v, a, now) != []
    ensures |StepCalls(v, a, now)| == 1 && Apply(v.fsm, StepCalls(v, a, now)[0]) == Step(v, a, now).fsm
  {}

  /** The supervisor changes the state machine by these calls only, so what holds of every run of
      the machine holds of every supervised one. */
  lemma {:induction false} CallsDrive(v: Supervisor, acts: seq<(Act, int)>)
    ensures G.Run(v.fsm, Calls(v, acts)) == Run(v, acts).fsm
  {
    if acts != [] {
      var n := |acts| - 1;
      var w, a, now := Run(v, acts[..n]), acts[n].0, acts[n].1;
      CallsDrive(v, acts[..n]);
      StepDrives(w, a, now);
      RunJoin(v.fsm, Calls(v, acts[..n]), StepCalls(w, a, now));
    }
  }

  lemma {:induction false} CallsForward(v: Supervisor, acts: seq<(Act, int)>, now: int)
    requires Forward(acts) && (acts != [] ==> acts[|acts| - 1].1 <= now)
    ensures ClockedBy(Calls(v, acts), now)
  {
    if acts != [] {
      var n := |acts| - 1;
      var at := acts[n].1;
      assert n > 0 ==> acts[n - 1].1 <= acts[n].1;
      CallsForward(v, acts[..n], at);
      StepCallsNow(Run(v, acts[..n]), acts[n].0, at);
      ClockedJoin(Calls(v, acts[..n]), StepCalls(Run(v, acts[..n]), acts[n].0, at), at);
    }
  }

  lemma StepCallsNow(v: Supervisor, a: Act, now: int)
    ensures forall t | t in StepCalls(v, a, now) :: t.now == now
  {}

  lemma ClockedJoin(a: seq<Timed>, b: seq<Timed>, now: int)
    requires ClockedBy(a, now) && forall t | t in b :: t.now == now
    ensures ClockedBy(a + b, now)
  {
    var c := a + b;
    forall i | 0 < i < |c| ensures c[i - 1].now <= c[i].now {
      if i >= |a| { assert c[i] in b; }
      if i > |a| { assert c[i - 1] in b; }
    }
    if b != [] { assert c[|c| - 1] in b; } else { assert c == a; }
  }

  /** When an exit is answered with a restart, over every supervised run on a clock that does not
      go back: if and only if nobody asked for it, no fatal line was seen, restarting is on, and
      fewer than three such exits since the last clean start or cleared failure lie in the window. */
  lemma SupervisedRestartIff(began: int, acts: seq<(Act, int)>, how: string, now: int)
    requires Forward(acts) && (acts != [] ==> acts[|acts| - 1].1 <= now) && AllAllowed(Idling(began), acts)
    requires Allowed(Run(Idling(began), acts), Ends(how))
    ensures var v := Run(Idling(began), acts);
            Step(v, Ends(how), now).owed <==>
            !v.expecting && !v.fsm.fatalSeen && v.autoRestart
            && Count(Spent(New(began, Idle), Calls(Idling(began), acts)), now) < MAX_RESTARTS
  {
    var u := Idling(began);
    var v := Run(u, acts);
    RunKeepsInv(u, acts);
    CallsDrive(u, acts);
    CallsForward(u, acts, now);
    RestartIff(u.fsm, Calls(u, acts), ExitOf(v, how), now);
  }

  // ---- Forgiveness ----

  // A process that has come up, with at most k of the budget spent.
  predicate Up(v: Supervisor, k: nat) {
    && v.handle && v.live == 1 && !v.expecting && v.autoRestart && !v.fsm.fatalSeen
    && (v.fsm.status == Starting || v.fsm.status == Running) && |v.fsm.crashes| <= k
  }

  // A supervised run with its restarts.
  predicate Leads(acts: seq<(Act, int)>, now: int, k: nat, restarts: seq<int>) {
    var v := Idling(0);
    && AllAllowed(v, acts) && Forward(acts) && (acts != [] ==> acts[|acts| - 1].1 <= now)
    && Up(Run(v, acts), k) && RestartTimes(v.fsm, Calls(v, acts)) == restarts
  }

  lemma AppendAct(acts: seq<(Act, int)>, a: Act, now: int)
    requires AllAllowed(Idling(0), acts) && Allowed(Run(Idling(0), acts), a)
    requires Forward(acts) && (acts != [] ==> acts[|acts| - 1].1 <= now)
    ensures var v, more := Idling(0), acts + [(a, now)];
            && AllAllowed(v, more) && Forward(more) && more[|more| - 1].1 == now
            && Run(v, more) == Step(Run(v, acts), a, now)
            && Calls(v, more) == Calls(v, acts) + StepCalls(Run(v, acts), a, now)
  {
    var more := acts + [(a, now)];
    assert more[..|more| - 1] == acts && more[|more| - 1] == (a, now);
  }

  lemma {:induction false} NoExitNoRestart(f: Fsm, a: seq<Timed>, b: seq<Timed>)
    requires forall t | t in b :: !t.op.OpExit?
    ensures RestartTimes(f, a + b) == RestartTimes(f, a)
  {
    if b == [] {
      assert a + b == a;
    } else {
      assert (a + b)[..|a + b| - 1] == a + b[..|b| - 1];
      NoExitNoRestart(f, a, b[..|b| - 1]);
    }
  }

  lemma OneMoreCall(f: Fsm, a: seq<Timed>, t: Timed)
    ensures RestartTimes(f, a + [t]) == RestartTimes(f, a) + if Restarts(G.Run(f, a), t) then [t.now] else []
  {
    assert (a + [t])[..|a|] == a;
  }

  lemma CrashIsRestarted(v: Supervisor, k: nat, now: int, later: int)
    requires Up(v, k) && k < MAX_RESTARTS
    ensures var w := Step(v, Ends("exit code 1"), now);
            && Allowed(v, Ends("exit code 1")) && Restarts(v.fsm, Timed(OpExit(ExitOf(v, "exit code 1")), now))
            && Allowed(w, RestartDue(Spawned)) && Up(Step(w, RestartDue(Spawned), later), k + 1)
            && Step(w, RestartDue(Spawned), later).fsm.status == Starting
            && forall t | t in StepCalls(w, RestartDue(Spawned), later) :: !t.op.OpExit?
  {
    RecentShorter(v.fsm.crashes, now);
  }

  // The process crashes at `now` and is up again five seconds later.
  lemma Round(acts: seq<(Act, int)>, now: int, k: nat, r: seq<int>) returns (more: seq<(Act, int)>)
    requires Leads(acts, now, k, r) && k < MAX_RESTARTS
    ensures Leads(more, now + 5000, k + 1, r + [now]) && Run(Idling(0), more).fsm.status == Starting
  {
    var u, crash, due := Idling(0), Ends("exit code 1"), RestartDue(Spawned);
    var v := Run(u, acts);
    CrashIsRestarted(v, k, now, now + 5000);
    var mid := acts + [(crash, now)];
    more := mid + [(due, now + 5000)];
    AppendAct(acts, crash, now);
    AppendAct(mid, due, now + 5000);
    CallsDrive(u, acts);
    OneMoreCall(u.fsm, Calls(u, acts), Timed(OpExit(ExitOf(v, "exit code 1")), now));
    NoExitNoRestart(u.fsm, Calls(u, mid), StepCalls(Run(u, mid), due, now + 5000));
  }

  lemma CleanStart(acts: seq<(Act, int)>, now: int, k: nat, r: seq<int>) returns (more: seq<(Act, int)>)
    requires Leads(acts, now, k, r) && Run(Idling(0), acts).fsm.status == Starting
    ensures Leads(more, now, 0, r)
  {
    more := acts + [(Report(Ready), now)];
    AppendAct(acts, Report(Ready), now);
    NoExitNoRestart(Idling(0).fsm, Calls(Idling(0), acts), StepCalls(Run(Idling(0), acts), Report(Ready), now));
  }

  lemma Launched() returns (acts: seq<(Act, int)>)
    ensures Leads(acts, 0, 0, [])
  {
    var none: seq<(Act, int)> := [];
    acts := none + [(Launch(Spawned), 0)];
    AppendAct(none, Launch(Spawned), 0);
    NoExitNoRestart(Idling(0).fsm, [], StepCalls(Idling(0), Launch(Spawned), 0));
  }

  lemma Wait(acts: seq<(Act, int)>, now: int, later: int, k: nat, r: seq<int>)
    requires Leads(acts, now, k, r) && now <= later
    ensures Leads(acts, later, k, r)
  {}

  lemma ThreeCrashes() returns (acts: seq<(Act, int)>)
    ensures Leads(acts, 15003, 3, [1, 5002, 10003]) && Run(Idling(0), acts).fsm.status == Starting
  {
    acts := Launched();
    Wait(acts, 0, 1, 0, []);
    acts := Round(acts, 1, 0, []);
    Wait(acts, 5001, 5002, 1, [1]);
    acts := Round(acts, 5002, 1, [1]);
    Wait(acts, 10002, 10003, 2, [1, 5002]);
    acts := Round(acts, 10003, 2, [1, 5002]);
  }

  /** A clean start in between gives the whole budget back: a server that crashes right away
      three times, comes up once and crashes again is restarted four times in 15 seconds. */
  lemma ReadyRefills() returns (acts: seq<(Act, int)>)
    ensures AllAllowed(Idling(0), acts) && Forward(acts)
    ensures RestartTimes(New(0, Idle), Calls(Idling(0), acts)) == [1, 5002, 10003, 15005]
  {
    acts := ThreeCrashes();
    Wait(acts, 15003, 15004, 3, [1, 5002, 10003]);
    acts := CleanStart(acts, 15004, 3, [1, 5002, 10003]);
    Wait(acts, 15004, 15005, 0, [1, 5002, 10003]);
    acts := Round(acts, 15005, 0, [1, 5002, 10003]);
  }

  /** The same bound for supervised runs: while nothing forgives, any four restarts span at least
      the window. */
  lemma SupervisedRestartsAreBounded(acts: seq<(Act, int)>, i: nat)
    requires Forward(acts) && Unforgiven(New(0, Idle), Calls(Idling(0), acts))
    requires i + 3 < |RestartTimes(New(0, Idle), Calls(Idling(0), acts))|
    ensures var r := RestartTimes(New(0, Idle), Calls(Idling(0), acts)); r[i + 3] - r[i] >= RESTART_WINDOW_MS
  {
    CallsForward(Idling(0), acts, if acts == [] then 0 else acts[|acts| - 1].1);
    RestartsAreBounded(New(0, Idle), Calls(Idling(0), acts), i);
  }
}
