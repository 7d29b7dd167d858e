/** The flags and timers of the supervisor over whole runs (electron/gameserver/supervisor.ts): what
    each of them says about what has happened, and whether a stopped server stays stopped. */
module SupervisorRuns {
  import opened Ids
  import G = GameServer
  import opened Supervisor

  // ---- Since ----

  type Event = (Supervisor, Act, int) -> bool

  // Did step i set it, and has nothing cleared it since?
  predicate SetAt(v: Supervisor, acts: seq<(Act, int)>, sets: Event, clears: Event, i: nat)
    requires i < |acts|
  {
    sets(Run(v, acts[..i]), acts[i].0, acts[i].1)
    && forall j | i < j < |acts| :: !clears(Run(v, acts[..j]), acts[j].0, acts[j].1)
  }

  predicate Since(v: Supervisor, acts: seq<(Act, int)>, sets: Event, clears: Event) {
    exists i | 0 <= i < |acts| :: SetAt(v, acts, sets, clears, i)
  }

  lemma EarlierSet(v: Supervisor, acts: seq<(Act, int)>, sets: Event, clears: Event, i: nat)
    requires i + 1 < |acts|
    ensures var n := |acts| - 1;
            SetAt(v, acts, sets, clears, i) <==>
            SetAt(v, acts[..n], sets, clears, i) && !clears(Run(v, acts[..n]), acts[n].0, acts[n].1)
  {
    var n := |acts| - 1;
    assert forall j | 0 <= j < n :: acts[..n][..j] == acts[..j] && acts[..n][j] == acts[j];
  }

  lemma OneMoreStep(v: Supervisor, acts: seq<(Act, int)>, sets: Event, clears: Event)
    requires acts != []
    ensures var n := |acts| - 1;
            var w, a, now := Run(v, acts[..n]), acts[n].0, acts[n].1;
            Since(v, acts, sets, clears) <==>
            sets(w, a, now) || (Since(v, acts[..n], sets, clears) && !clears(w, a, now))
  {
    var n := |acts| - 1;
    forall i | 0 <= i < n
      ensures SetAt(v, acts, sets, clears, i) <==>
              SetAt(v, acts[..n], sets, clears, i) && !clears(Run(v, acts[..n]), acts[n].0, acts[n].1)
    {
      EarlierSet(v, acts, sets, clears, i);
    }
    assert SetAt(v, acts, sets, clears, n) <==> sets(Run(v, acts[..n]), acts[n].0, acts[n].1);
  }

  // ---- What happens ----

  // A process comes up.
  predicate Spawns(v: Supervisor, a: Act, now: int) {
    !v.handle
    && ((a == Launch(Spawned) && v.fsm.status in {G.Idle, G.Stopped, G.Crashed})
        || (a == RestartDue(Spawned) && v.fsm.status in {G.Idle, G.Stopped, G.Crashed, G.Starting}))
  }

  predicate Exits(v: Supervisor, a: Act, now: int) { a.Ends? }

  // A stop that the process is told about.
  predicate Asks(v: Supervisor, a: Act, now: int) {
    a.StopIt? && v.handle && v.fsm.status in {G.Starting, G.Running}
  }

  predicate Wanted(v: Supervisor, a: Act, now: int) { Asks(v, a, now) || a.Kill? }

  predicate Fresh(v: Supervisor, a: Act, now: int) { Exits(v, a, now) || Spawns(v, a, now) }

  predicate TimerOver(v: Supervisor, a: Act, now: int) { a.Ends? || a.StopTimeout? }

  // An exit that nobody asked for, not after a fatal line, and with fewer than three in five minutes
  // before it.
  predicate Orders(v: Supervisor, a: Act, now: int) {
    a.Ends? && !v.expecting && v.autoRestart && !v.fsm.fatalSeen && G.Count(v.fsm.crashes, now) < 3
  }

  predicate CallsOff(v: Supervisor, a: Act, now: int) { a.StopIt? || a.RestartDue? || a.Kill? || a.Pause? }

  // ---- The flags ----

  lemma FlagsAfter(v: Supervisor, a: Act, now: int)
    ensures var w := Step(v, a, now);
            && (w.handle <==> Spawns(v, a, now) || (v.handle && !a.Ends?))
            && (w.expecting <==> Wanted(v, a, now) || (v.expecting && !Fresh(v, a, now)))
  {}

  lemma TimersAfter(v: Supervisor, a: Act, now: int)
    ensures var w := Step(v, a, now);
            && (w.stopArmed <==> Asks(v, a, now) || (v.stopArmed && !TimerOver(v, a, now)))
            && (w.autoRestart <==> v.autoRestart && !a.Pause?)
  {}

  lemma OwedAfter(v: Supervisor, a: Act, now: int)
    ensures Step(v, a, now).owed <==> Orders(v, a, now) || (v.owed && !CallsOff(v, a, now))
  {}

  /** In every run: there is a process if one came up and has not exited since; its exit is expected
      if it was asked to stop, or the app is closing, since it came up and the last exit; the stop timer
      runs from that request to the exit or the timeout; a restart is owed if an exit ordered it and no
      stop, closing or pause has called it off; and restarts stay automatic until the first pause. */
  lemma {:induction false} FlagsSince(now: int, acts: seq<(Act, int)>)
    ensures var v, w := Idling(now), Run(Idling(now), acts);
            && (w.handle <==> Since(v, acts, Spawns, Exits))
            && (w.expecting <==> Since(v, acts, Wanted, Fresh))
            && (w.stopArmed <==> Since(v, acts, Asks, TimerOver))
            && (w.owed <==> Since(v, acts, Orders, CallsOff))
            && (w.autoRestart <==> forall i | 0 <= i < |acts| :: !acts[i].0.Pause?)
  {
    if acts != [] {
      var n := |acts| - 1;
      var v, w := Idling(now), Run(Idling(now), acts[..n]);
      FlagsSince(now, acts[..n]);
      FlagsAfter(w, acts[n].0, acts[n].1);
      TimersAfter(w, acts[n].0, acts[n].1);
      OwedAfter(w, acts[n].0, acts[n].1);
      OneMoreStep(v, acts, Spawns, Exits);
      OneMoreStep(v, acts, Wanted, Fresh);
      OneMoreStep(v, acts, Asks, TimerOver);
      OneMoreStep(v, acts, Orders, CallsOff);
    }
  }

  // ---- Does a stopped server stay stopped? ----

  predicate NoLaunch(acts: seq<(Act, int)>) { forall i | 0 <= i < |acts| :: !acts[i].0.Launch? }

  // Some step brings a process up.
  predicate ComesUp(v: Supervisor, acts: seq<(Act, int)>) {
    exists i | 0 <= i < |acts| :: Spawns(Run(v, acts[..i]), acts[i].0, acts[i].1)
  }

  // Nothing will bring a process up again but a launch.
  predicate Laid(v: Supervisor) {
    !v.owed && v.live == (if v.handle then 1 else 0) && (v.handle ==> v.expecting || !v.autoRestart)
  }

  lemma LaidStays(v: Supervisor, a: Act, now: int)
    requires Laid(v) && Allowed(v, a) && !a.Launch?
    ensures Laid(Step(v, a, now)) && !Spawns(v, a, now)
  {}

  lemma UpOneMore(v: Supervisor, acts: seq<(Act, int)>)
    requires acts != []
    ensures var n := |acts| - 1;
            ComesUp(v, acts) <==> ComesUp(v, acts[..n]) || Spawns(Run(v, acts[..n]), acts[n].0, acts[n].1)
  {
    var n := |acts| - 1;
    assert forall i | 0 <= i < n :: acts[..n][..i] == acts[..i] && acts[..n][i] == acts[i];
  }

  lemma {:induction false} LaidForGood(v: Supervisor, acts: seq<(Act, int)>)
    requires Laid(v) && AllAllowed(v, acts) && NoLaunch(acts)
    ensures Laid(Run(v, acts)) && !ComesUp(v, acts)
  {
    if acts != [] {
      var n := |acts| - 1;
      LaidForGood(v, acts[..n]);
      UpOneMore(v, acts);
      LaidStays(Run(v, acts[..n]), acts[n].0, acts[n].1);
    }
  }

  // The process has failed, nobody has asked it to stop, and restarts are automatic.
  predicate Unstoppable(v: Supervisor) {
    v.handle && !v.expecting && v.autoRestart && v.fsm.status !in {G.Starting, G.Running}
  }

  // An error of the process, its dismissal, the exit, and the restart.
  function Comeback(now: int): seq<(Act, int)> {
    [(Breaks("error"), now), (Elsewhere(G.OpClear), now), (Ends("exit"), now), (RestartDue(Spawned), now)]
  }

  lemma NextAct(v: Supervisor, acts: seq<(Act, int)>, k: nat)
    requires k < |acts| && AllAllowed(v, acts[..k]) && Allowed(Run(v, acts[..k]), acts[k].0)
    ensures AllAllowed(v, acts[..k + 1]) && Run(v, acts[..k + 1]) == Step(Run(v, acts[..k]), acts[k].0, acts[k].1)
  {
    assert acts[..k + 1][..k] == acts[..k];
  }

  lemma ComebackRuns(v: Supervisor, now: int)
    requires v.handle && v.live == 1 && !v.expecting && v.autoRestart
    ensures AllAllowed(v, Comeback(now)) && ComesUp(v, Comeback(now))
  {
    var acts := Comeback(now);
    ComebackOwed(v, now);
    NextAct(v, acts, 3);
    assert acts[..4] == acts;
    assert Spawns(Run(v, acts[..3]), acts[3].0, acts[3].1);
  }

  lemma ComebackOwed(v: Supervisor, now: int)
    requires v.handle && v.live == 1 && !v.expecting && v.autoRestart
    ensures var acts := Comeback(now);
            var w := Run(v, acts[..3]);
            AllAllowed(v, acts[..3]) && w.owed && !w.handle && w.fsm.status == G.Starting
  {
    var acts := Comeback(now);
    ComebackCleared(v, now);
    NextAct(v, acts, 2);
    ClearedRestarts(Step(v, acts[0].0, now), Run(v, acts[..2]), now);
  }

  lemma ComebackCleared(v: Supervisor, now: int)
    requires v.handle && v.live == 1 && !v.expecting && v.autoRestart
    ensures var acts := Comeback(now);
            AllAllowed(v, acts[..2]) && Run(v, acts[..2]) == Step(Step(v, acts[0].0, now), acts[1].0, now)
  {
    var acts := Comeback(now);
    assert acts[..0] == [];
    NextAct(v, acts, 0);
    NextAct(v, acts, 1);
  }

  lemma ClearedRestarts(failed: Supervisor, cleared: Supervisor, now: int)
    requires failed.fsm.status == G.Crashed && cleared == Step(failed, Elsewhere(G.OpClear), now)
    requires !failed.expecting && failed.autoRestart
    ensures var s := Step(cleared, Ends("exit"), now); s.owed && !s.handle && s.fsm.status == G.Starting
  {}

  /** Whatever follows a stop, no process comes up without a launch, if and only if the stop did not
      come while a process that had failed was still there, unasked, with automatic restarts. */
  lemma StopIsFinalIff(began: int, acts: seq<(Act, int)>, now: int)
    requires AllAllowed(Idling(began), acts)
    ensures var v := Run(Idling(began), acts);
            var s := Step(v, StopIt, now);
            (forall more | AllAllowed(s, more) && NoLaunch(more) :: !ComesUp(s, more)) <==> !Unstoppable(v)
  {
    RunKeepsInv(Idling(began), acts);
    var v := Run(Idling(began), acts);
    var s := Step(v, StopIt, now);
    if Unstoppable(v) {
      ComebackRuns(s, now);
    } else {
      forall more | AllAllowed(s, more) && NoLaunch(more) ensures !ComesUp(s, more) { LaidForGood(s, more); }
    }
  }
}
