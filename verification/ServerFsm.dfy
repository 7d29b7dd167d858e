/** The game-server state machine with its fields updated in place
    (shared/gameserver-core.ts); what the states are is in GameServer.dfy. */
module ServerFsm {
  import opened Ids
  import G = GameServer
  import opened GameServer

  class Machine {
    var status: Status
    var since: int
    var ready: bool
    var installPct: Option<int>
    var players: set<string>
    var failReason: Option<FailReason>
    var failDetail: Option<string>
    var crashes: seq<int>
    var fatalSeen: bool

    function State(): Fsm
      reads this
    {
      Fsm(status, since, ready, installPct, players, failReason, failDetail, crashes, fatalSeen)
    }

    constructor (now: int, initial: Status)
      ensures State() == New(now, initial)
    {
      status, since, ready, installPct, players := initial, now, false, None, {};
      failReason, failDetail, crashes, fatalSeen := None, None, [], false;
    }

    method Move(next: Status, now: int)
      modifies this`status, this`since
      ensures State() == To(old(State()), next, now)
    {
      status, since := next, now;
    }

    method BeginInstall(now: int) returns (ok: bool)
      modifies this
      ensures State() == G.BeginInstall(old(State()), now) && ok == Settled(old(State()))
    {
      if status != Idle && status != Stopped && status != Crashed { return false; }
      failReason, failDetail, installPct := None, None, Some(0);
      Move(Installing, now);
      ok := true;
    }

    method InstallProgress(pct: real)
      modifies this`installPct
      ensures State() == G.InstallProgress(old(State()), pct)
    {
      if status != Installing { return; }
      installPct := Some(Percent(pct));
    }

    method InstallDone(now: int)
      modifies this
      ensures State() == G.InstallDone(old(State()), now)
    {
      if status != Installing { return; }
      installPct := None;
      Move(Idle, now);
    }

    method InstallFailed(detail: string, now: int)
      modifies this
      ensures State() == G.InstallFails(old(State()), detail, now)
    {
      if status != Installing { return; }
      installPct, failReason, failDetail := None, Some(G.InstallFailed), Some(detail);
      Move(Crashed, now);
    }

    method BeginStart(now: int) returns (ok: bool)
      modifies this
      ensures State() == G.BeginStart(old(State()), now) && ok == Settled(old(State()))
    {
      if status != Idle && status != Stopped && status != Crashed { return false; }
      ready, players := false, {};
      fatalSeen, failReason, failDetail := false, None, None;
      Move(Starting, now);
      ok := true;
    }

    method StartFailed(reason: FailReason, detail: string, now: int)
      modifies this
      ensures State() == G.StartFailed(old(State()), reason, detail, now)
    {
      failReason, failDetail := Some(reason), Some(detail);
      Move(Crashed, now);
    }

    method ApplyEvent(e: LogEvent, now: int)
      modifies this
      ensures State() == G.ApplyEvent(old(State()), e, now)
    {
      match e {
        case Ready =>
          if status == Starting {
            ready := true;
            Move(Running, now);
            crashes := [];
          }
        case PlayerJoin(name) => players := players + {name};
        case PlayerLeave(name) => players := players - {name};
        case Error(fatal, text) => if fatal { fatalSeen, failDetail := true, Some(text); }
        case Other =>
      }
    }

    method SetPlayers(names: set<string>)
      modifies this`players
      ensures State() == old(State()).(players := names)
    {
      players := names;
    }

    method BeginStop(now: int) returns (ok: bool)
      modifies this`status, this`since
      ensures State() == G.BeginStop(old(State()), now) && ok == (old(status) == Starting || old(status) == Running)
    {
      if status != Starting && status != Running { return false; }
      Move(Stopping, now);
      ok := true;
    }

    // Keep the crashes of the window, and add this one.
    method CountCrash(now: int)
      modifies this`crashes
      ensures crashes == Recent(old(crashes), now) + [now]
    {
      var kept: seq<int> := [];
      for i := 0 to |crashes|
        invariant crashes == old(crashes) && kept == Recent(crashes[..i], now)
      {
        assert crashes[..i + 1] == crashes[..i] + [crashes[i]];
        RecentAppend(crashes[..i], crashes[i], now);
        if now - crashes[i] < RESTART_WINDOW_MS { kept := kept + [crashes[i]]; }
      }
      assert crashes[..|crashes|] == crashes;
      crashes := kept + [now];
    }

    /** exited: what the supervisor is to do next. */
    method Exited(x: Exit, now: int) returns (d: Disposition)
      modifies this
      ensures G.OnExit(old(State()), x, now) == G.Exited(State(), d)
    {
      ready, players := false, {};
      if x.expected {
        Move(Stopped, now);
        return Gone;
      }
      var early := status == Starting;
      if fatalSeen {
        failReason, failDetail := Some(FatalLog), if failDetail.Some? then failDetail else Some(x.how);
        Move(Crashed, now);
        return GivenUp;
      }
      CountCrash(now);
      failDetail := Some(x.how);
      if !x.autoRestart || |crashes| > MAX_RESTARTS {
        failReason := Some(if |crashes| > MAX_RESTARTS then CrashLoop else if early then ExitedEarly else Unknown);
        Move(Crashed, now);
        return GivenUp;
      }
      failReason := Some(if early then ExitedEarly else Unknown);
      Move(Starting, now);
      d := Restart;
    }

    method PrepareRestart(now: int) returns (ok: bool)
      modifies this`status, this`since
      ensures State() == G.PrepareRestart(old(State()), now) && ok == (old(status) == Starting)
    {
      if status != Starting { return false; }
      Move(Idle, now);
      ok := true;
    }

    method Killed(now: int)
      modifies this
      ensures State() == G.Killed(old(State()), now)
    {
      ready, players := false, {};
      failReason, failDetail := Some(StopTimeout), Some("the process did not exit in time and was terminated");
      Move(Stopped, now);
    }

    method ClearFailure(now: int)
      modifies this
      ensures State() == G.ClearFailure(old(State()), now)
    {
      if status != Crashed { return; }
      failReason, failDetail, crashes, fatalSeen := None, None, [], false;
      Move(Idle, now);
    }
  }
}
