/** The server state machine field by field (shared/gameserver-core.ts): what each step leaves of
    the status, the flags and the reason for a failure, and what a snapshot always shows. */
module ServerFields {
  import opened Ids
  import opened GameServer

  predicate Down(s: Status) { s == Idle || s == Stopped || s == Crashed }

  lemma StatusAfter(f: Fsm, t: Timed)
    ensures Apply(f, t).status ==
            match t.op
            case OpInstall => if Down(f.status) then Installing else f.status
            case OpInstalled => if f.status == Installing then Idle else f.status
            case OpInstallFails(_) => if f.status == Installing then Crashed else f.status
            case OpStart => if Down(f.status) then Starting else f.status
            case OpStartFails(_, _) => Crashed
            case OpLog(Ready) => if f.status == Starting then Running else f.status
            case OpStop => if f.status == Starting || f.status == Running then Stopping else f.status
            case OpExit(x) => if x.expected then Stopped else if Restarts(f, t) then Starting else Crashed
            case OpPrepare => if f.status == Starting then Idle else f.status
            case OpKilled => Stopped
            case OpClear => if f.status == Crashed then Idle else f.status
            case _ => f.status
  {}

  // The steps that settle the status anew.
  predicate Moves(f: Fsm, t: Timed) {
    match t.op
    case OpInstall => Down(f.status)
    case OpInstalled => f.status == Installing
    case OpInstallFails(_) => f.status == Installing
    case OpStart => Down(f.status)
    case OpStartFails(_, _) => true
    case OpLog(Ready) => f.status == Starting
    case OpStop => f.status == Starting || f.status == Running
    case OpExit(_) => true
    case OpPrepare => f.status == Starting
    case OpKilled => true
    case OpClear => f.status == Crashed
    case _ => false
  }

  // The time shown with a status is that of the last of them.
  lemma SinceAfter(f: Fsm, t: Timed)
    ensures Apply(f, t).since == if Moves(f, t) then t.now else f.since
    ensures !Moves(f, t) ==> Apply(f, t).status == f.status
  {}

  // A server is ready from its ready line on, until it is started anew or gone.
  lemma ReadyAfter(f: Fsm, t: Timed)
    ensures Apply(f, t).ready <==>
            (t.op == OpLog(Ready) && f.status == Starting)
            || (f.ready && !t.op.OpExit? && !t.op.OpKilled? && !(t.op.OpStart? && Down(f.status)))
  {}

  // The nearest whole percentage, between 0 and 100.
  predicate Rounds(n: int, pct: real) {
    && 0 <= n <= 100 && (0.0 <= pct <= 100.0 ==> n as real - 0.5 <= pct < n as real + 0.5)
    && (pct < 0.0 ==> n == 0) && (pct > 100.0 ==> n == 100)
  }

  lemma InstallAfter(f: Fsm, t: Timed)
    ensures var n := Apply(f, t).installPct;
            if t.op.OpInstall? && Down(f.status) then n == Some(0)
            else if f.status == Installing && t.op.OpProgress? then n.Some? && Rounds(n.value, t.op.pct)
            else if f.status == Installing && (t.op.OpInstalled? || t.op.OpInstallFails?) then n == None
            else n == f.installPct
  {
    if t.op.OpProgress? { ProgressAfter(f, t); }
  }

  lemma ProgressAfter(f: Fsm, t: Timed)
    requires t.op.OpProgress?
    ensures var n := Apply(f, t).installPct;
            if f.status == Installing then n.Some? && Rounds(n.value, t.op.pct) else n == f.installPct
  {
    PercentRounds(t.op.pct);
  }

  lemma PercentRounds(pct: real)
    ensures Rounds(Percent(pct), pct)
  {}

  // An exit that nobody asked for: too early, in a loop, or for no known reason.
  function ExitReason(f: Fsm, now: int): FailReason {
    if f.fatalSeen then FatalLog
    else if Count(f.crashes, now) >= 3 then CrashLoop
    else if f.status == Starting then ExitedEarly else Unknown
  }

  lemma ReasonAfter(f: Fsm, t: Timed)
    ensures Apply(f, t).failReason ==
            match t.op
            case OpInstall => if Down(f.status) then None else f.failReason
            case OpInstallFails(_) => if f.status == Installing then Some(InstallFailed) else f.failReason
            case OpStart => if Down(f.status) then None else f.failReason
            case OpStartFails(reason, _) => Some(reason)
            case OpExit(x) => if x.expected then f.failReason else Some(ExitReason(f, t.now))
            case OpKilled => Some(StopTimeout)
            case OpClear => if f.status == Crashed then None else f.failReason
            case _ => f.failReason
  {}

  lemma DetailAfter(f: Fsm, t: Timed)
    ensures Apply(f, t).failDetail ==
            match t.op
            case OpInstall => if Down(f.status) then None else f.failDetail
            case OpInstallFails(detail) => if f.status == Installing then Some(detail) else f.failDetail
            case OpStart => if Down(f.status) then None else f.failDetail
            case OpStartFails(_, detail) => Some(detail)
            case OpLog(Error(true, text)) => Some(text)
            case OpExit(x) => if x.expected || (f.fatalSeen && f.failDetail.Some?) then f.failDetail else Some(x.how)
            case OpKilled => Some("the process did not exit in time and was terminated")
            case OpClear => if f.status == Crashed then None else f.failDetail
            case _ => f.failDetail
  {}

  predicate IsFatal(t: Timed) { t.op.OpLog? && t.op.e.Error? && t.op.e.fatal }

  // A start, or clearing the failure.
  predicate Resets(f: Fsm, t: Timed) {
    (t.op.OpStart? && Down(f.status)) || (t.op.OpClear? && f.status == Crashed)
  }

  lemma FatalAfter(f: Fsm, t: Timed)
    ensures Apply(f, t).fatalSeen <==> IsFatal(t) || (f.fatalSeen && !Resets(f, t))
  {}

  // Line i is fatal, and nothing after it resets that.
  predicate FatalSince(f: Fsm, ts: seq<Timed>, i: nat)
    requires i < |ts|
  {
    IsFatal(ts[i]) && forall j | i < j < |ts| :: !Resets(Run(f, ts[..j]), ts[j])
  }

  lemma OneMoreLine(f: Fsm, ts: seq<Timed>, i: nat)
    requires i + 1 < |ts|
    ensures var n := |ts| - 1; FatalSince(f, ts, i) <==> FatalSince(f, ts[..n], i) && !Resets(Run(f, ts[..n]), ts[n])
  {
    var n := |ts| - 1;
    assert forall j | 0 <= j < n :: ts[..n][..j] == ts[..j] && ts[..n][j] == ts[j];
  }

  /** In every run the server holds a fatal line against its process if and only if there was one
      since the last start and the last clearing of a failure. */
  lemma {:induction false} FatalSeenIff(now: int, ts: seq<Timed>)
    ensures Run(New(now, Idle), ts).fatalSeen <==> exists i | 0 <= i < |ts| :: FatalSince(New(now, Idle), ts, i)
  {
    if ts != [] {
      var n := |ts| - 1;
      var f := New(now, Idle);
      FatalSeenIff(now, ts[..n]);
      FatalAfter(Run(f, ts[..n]), ts[n]);
      forall i | 0 <= i < n
        ensures FatalSince(f, ts, i) <==> FatalSince(f, ts[..n], i) && !Resets(Run(f, ts[..n]), ts[n])
      {
        OneMoreLine(f, ts, i);
      }
      assert FatalSince(f, ts, n) <==> IsFatal(ts[n]);
    }
  }

  // What a snapshot shows of one state.
  predicate Sound(f: Fsm) {
    && (f.status == Crashed ==> f.failReason.Some?)
    && (f.installPct.Some? ==> 0 <= f.installPct.value <= 100)
    && (f.status == Installing ==> f.installPct.Some?)
  }

  /** In every run a crashed server says why, and an install shows its percentage. */
  lemma {:induction false} AlwaysSound(now: int, ts: seq<Timed>)
    ensures Sound(Run(New(now, Idle), ts))
  {
    if ts != [] {
      AlwaysSound(now, ts[..|ts| - 1]);
      StepSound(Run(New(now, Idle), ts[..|ts| - 1]), ts[|ts| - 1]);
    }
  }

  lemma StepSound(f: Fsm, t: Timed)
    requires Sound(f)
    ensures Sound(Apply(f, t))
  {
    ReasonAfter(f, t);
    StatusAfter(f, t);
    InstallAfter(f, t);
  }
}
