// What every session keeps, whatever the agent, the operator and the clock do.
module SessionSafety {
  import opened Common
  import opened EventLog
  import opened SessionModel
  import ToolFilter

  // ---- Budgets ----

  function TotalTime(ledger: seq<Charge>): nat {
    if ledger == [] then 0 else TotalTime(ledger[..|ledger| - 1]) + ledger[|ledger| - 1].durationMs
  }

  function TotalBytes(ledger: seq<Charge>): nat {
    if ledger == [] then 0 else TotalBytes(ledger[..|ledger| - 1]) + ledger[|ledger| - 1].outputBytes
  }

  /** No single charge can push the time counter past the end of its 64 bits. */
  predicate TimeFits(s: Session) {
    forall i :: 0 <= i < |s.ledger| ==> 1000 * s.budget.maxToolTimeS + s.ledger[i].durationMs <= U64_LIMIT
  }

  predicate BytesFit(s: Session) {
    forall i :: 0 <= i < |s.ledger| ==> s.budget.maxOutputBytes + s.ledger[i].outputBytes <= U64_LIMIT
  }

  /** The time counter is the sum over the successful calls and passes its limit by less than the last of them. */
  predicate TimeSafe(s: Session) {
    && s.used.toolTimeMs == TotalTime(s.ledger) % U64_LIMIT
    && (s.used.toolTimeMs == TotalTime(s.ledger) <==> TotalTime(s.ledger) < U64_LIMIT)
    && (TimeFits(s) ==> s.used.toolTimeMs == TotalTime(s.ledger))
    && (s.ledger != [] ==> s.used.toolTimeMs < 1000 * s.budget.maxToolTimeS + s.ledger[|s.ledger| - 1].durationMs)
  }

  predicate BytesSafe(s: Session) {
    && s.used.outputBytes == TotalBytes(s.ledger) % U64_LIMIT
    && (s.used.outputBytes == TotalBytes(s.ledger) <==> TotalBytes(s.ledger) < U64_LIMIT)
    && (BytesFit(s) ==> s.used.outputBytes == TotalBytes(s.ledger))
    && (s.ledger != [] ==> s.used.outputBytes < s.budget.maxOutputBytes + s.ledger[|s.ledger| - 1].outputBytes)
  }

  /**
   * The counters are the sums over the successful calls (modulo 2^64, and exactly when no charge can
   * overflow), and no counter passes its limit by more than the last successful call.
   */
  predicate BudgetSafe(s: Session) {
    s.used.toolCalls == |s.ledger| <= s.budget.maxToolCalls && TimeSafe(s) && BytesSafe(s)
  }

  lemma WrapSum(a: nat, x: u64, y: u64)
    requires x == a % U64_LIMIT
    ensures WrapAdd64(x, y) == (a + y) % U64_LIMIT
  {
  }

  function WithCharge(s: Session, c: Charge): Session { s.(used := Charged(s.used, c), ledger := s.ledger + [c]) }

  lemma ChargeKeepsTime(s: Session, c: Charge)
    requires TimeSafe(s) && s.used.toolTimeMs < 1000 * s.budget.maxToolTimeS
    ensures TimeSafe(WithCharge(s, c))
  {
    var s', n := WithCharge(s, c), |s.ledger|;
    assert s'.ledger[..n] == s.ledger && s'.ledger[n] == c;
    WrapSum(TotalTime(s.ledger), s.used.toolTimeMs, c.durationMs);
    if TimeFits(s') {
      assert forall i :: 0 <= i < n ==> s'.ledger[i] == s.ledger[i];
      assert TimeFits(s);
      assert 1000 * s.budget.maxToolTimeS + s'.ledger[n].durationMs <= U64_LIMIT;
    }
  }

  lemma ChargeKeepsBytes(s: Session, c: Charge)
    requires BytesSafe(s) && s.used.outputBytes < s.budget.maxOutputBytes
    ensures BytesSafe(WithCharge(s, c))
  {
    var s', n := WithCharge(s, c), |s.ledger|;
    assert s'.ledger[..n] == s.ledger && s'.ledger[n] == c;
    WrapSum(TotalBytes(s.ledger), s.used.outputBytes, c.outputBytes);
    if BytesFit(s') {
      assert forall i :: 0 <= i < n ==> s'.ledger[i] == s.ledger[i];
      assert BytesFit(s);
      assert s.budget.maxOutputBytes + s'.ledger[n].outputBytes <= U64_LIMIT;
    }
  }

  lemma ChargeKeepsBudget(s: Session, c: Charge)
    requires BudgetSafe(s) && AllBelow(s)
    ensures BudgetSafe(WithCharge(s, c))
  {
    ChargeKeepsTime(s, c);
    ChargeKeepsBytes(s, c);
  }

  lemma DispatchKeepsBudget(cfg: Config, s: Session, r: Request)
    requires BudgetSafe(s)
    ensures BudgetSafe(AfterDispatch(cfg, s, r))
  {
    if VerdictOf(cfg, s, r).ToolDone? {
      ChargeKeepsBudget(s, ChargeOf(r.outcome));
    }
  }

  lemma ExtensionKeepsBudget(s: Session, e: Extension)
    requires BudgetSafe(s)
    ensures BudgetSafe(AfterExtension(s, e))
  {
    var s' := AfterExtension(s, e);
    if TimeFits(s') { assert TimeFits(s); }
    if BytesFit(s') { assert BytesFit(s); }
  }

  // ---- Exhaustion ----

  /** While the loop runs, the state is one of two, and exhaustion has a counter to show for it. */
  predicate StateSound(s: Session) {
    s.state == Running || (s.state == Exhausted && !AllBelow(s))
  }

  lemma DispatchKeepsState(cfg: Config, s: Session, r: Request)
    requires StateSound(s)
    ensures StateSound(AfterDispatch(cfg, s, r))
  {
  }

  /** An extension resumes an exhausted session exactly when all three counters are below their limits. */
  lemma ExtensionResumesExactly(s: Session, e: Extension)
    requires StateSound(s)
    ensures StateSound(AfterExtension(s, e))
    ensures s.state == Exhausted ==>
              (AfterExtension(s, e).state == Running <==>
                 Below(s.used, Extended(s.budget, e)))
  {
  }

  // ---- The log ----

  predicate ResultsFollow(log: seq<SessionEventKind>) {
    forall i :: 0 <= i < |log| && log[i].ToolResult? ==>
      i > 0 && log[i - 1].ToolDispatch? && log[i - 1].callId == log[i].callId
  }

  /** No budget is warned about twice. */
  predicate WarningsOnce(log: seq<SessionEventKind>) {
    forall i, j :: 0 <= i < j < |log| && log[i].BudgetWarning? && log[j].BudgetWarning? ==>
      log[i].budgetName != log[j].budgetName
  }

  predicate HasFlag(w: Warned, name: BudgetName) {
    (name == ToolCalls && w.calls) || (name == ToolTime && w.time) || (name == OutputBytes && w.bytes)
  }

  /** Every warning in the log has its flag set. */
  predicate WarningsFlagged(log: seq<SessionEventKind>, w: Warned) {
    forall i :: 0 <= i < |log| && log[i].BudgetWarning? ==> HasFlag(w, log[i].budgetName)
  }

  predicate NoBoundary(events: seq<SessionEventKind>) {
    forall i :: 0 <= i < |events| ==> !events[i].SessionStart? && !events[i].SessionStop?
  }

  /** The log of a session that is still running. */
  predicate OpenLog(s: Session) {
    && s.log != [] && s.log[0].SessionStart? && NoBoundary(s.log[1..])
    && ResultsFollow(s.log)
    && WarningsOnce(s.log)
    && WarningsFlagged(s.log, s.warned)
  }

  lemma BoundaryAppend(log: seq<SessionEventKind>, events: seq<SessionEventKind>)
    requires log != [] && log[0].SessionStart? && NoBoundary(log[1..]) && NoBoundary(events)
    ensures (log + events)[0].SessionStart? && NoBoundary((log + events)[1..])
  {
    assert (log + events)[1..] == log[1..] + events;
  }

  lemma ResultsAppend(log: seq<SessionEventKind>, events: seq<SessionEventKind>)
    requires ResultsFollow(log) && ResultsFollow(events)
    ensures ResultsFollow(log + events)
  {
    var all := log + events;
    forall i | 0 <= i < |all| && all[i].ToolResult?
      ensures i > 0 && all[i - 1].ToolDispatch? && all[i - 1].callId == all[i].callId
    {
      if i >= |log| { assert all[i] == events[i - |log|]; }
    }
  }

  /** Appended warnings are new if their names were not flagged before. */
  lemma WarningsAppend(log: seq<SessionEventKind>, events: seq<SessionEventKind>, before: Warned, after: Warned)
    requires WarningsOnce(log) && WarningsFlagged(log, before)
    requires WarningsOnce(events) && WarningsFlagged(events, after)
    requires forall i :: 0 <= i < |events| && events[i].BudgetWarning? ==> !HasFlag(before, events[i].budgetName)
    requires forall name: BudgetName :: HasFlag(before, name) ==> HasFlag(after, name)
    ensures WarningsOnce(log + events) && WarningsFlagged(log + events, after)
  {
    var all := log + events;
    forall i | 0 <= i < |all| ensures i >= |log| ==> all[i] == events[i - |log|] {}
  }

  predicate WarnsOf(events: seq<SessionEventKind>, name: BudgetName) {
    |events| <= 1 && forall i :: 0 <= i < |events| ==> events[i].BudgetWarning? && events[i].budgetName == name
  }

  lemma WarnedOnce(a: seq<SessionEventKind>, b: seq<SessionEventKind>, c: seq<SessionEventKind>)
    requires WarnsOf(a, ToolCalls) && WarnsOf(b, ToolTime) && WarnsOf(c, OutputBytes)
    ensures WarningsOnce(a + b + c)
  {
  }

  lemma EachIsFresh(s: Session, at: Thresholds, i: nat)
    requires i < |Warnings(s, at)|
    ensures var e := Warnings(s, at)[i];
            e.BudgetWarning? && !HasFlag(s.warned, e.budgetName) && HasFlag(WarnedAfter(s, at), e.budgetName)
  {
  }

  lemma WarningsAreFresh(s: Session, at: Thresholds)
    ensures var w := Warnings(s, at);
            && WarningsOnce(w) && WarningsFlagged(w, WarnedAfter(s, at)) && NoBoundary(w) && ResultsFollow(w)
            && (forall i :: 0 <= i < |w| ==> w[i].BudgetWarning? && !HasFlag(s.warned, w[i].budgetName))
  {
    WarnedOnce(CallsWarning(s, at), TimeWarning(s, at), BytesWarning(s, at));
    var w := Warnings(s, at);
    forall i | 0 <= i < |w|
      ensures w[i].BudgetWarning? && !HasFlag(s.warned, w[i].budgetName) &&
                HasFlag(WarnedAfter(s, at), w[i].budgetName)
    {
      EachIsFresh(s, at, i);
    }
  }

  lemma PreambleBlock(cfg: Config, s: Session, r: Request)
    ensures var p := Preamble(cfg, s, r);
            NoBoundary(p) && ResultsFollow(p) && p[|p| - 1] == ToolDispatch(r.id, r.command)
  {
    WarningsAreFresh(s, r.warnAt);
    ResultsAppend(ApprovalEvents(cfg, r), Warnings(s, r.warnAt));
    ResultsAppend(ApprovalEvents(cfg, r) + Warnings(s, r.warnAt), [ToolDispatch(r.id, r.command)]);
  }

  lemma ResultAfterDispatch(p: seq<SessionEventKind>, result: SessionEventKind)
    requires NoBoundary(p) && ResultsFollow(p) && p != [] && p[|p| - 1].ToolDispatch?
    requires result.ToolResult? && result.callId == p[|p| - 1].callId
    ensures NoBoundary(p + [result]) && ResultsFollow(p + [result])
  {
  }

  /** The events of one request: properties of the block on its own. */
  lemma EventsBlock(cfg: Config, s: Session, r: Request)
    ensures NoBoundary(EventsOf(cfg, s, r)) && ResultsFollow(EventsOf(cfg, s, r))
  {
    PreambleBlock(cfg, s, r);
    var p := Preamble(cfg, s, r);
    match VerdictOf(cfg, s, r)
    case ToolFailed => ResultAfterDispatch(p, ToolResult(r.id, "", -1, None));
    case ToolDone =>
      ResultAfterDispatch(p, ToolResult(r.id, r.outcome.runId, r.outcome.exitCode, r.outcome.traceHash));
    case _ =>
  }

  predicate NoWarning(events: seq<SessionEventKind>) {
    forall i :: 0 <= i < |events| ==> !events[i].BudgetWarning?
  }

  /** The warnings of a block that none of `before` covers and all of `after` do. */
  predicate FreshWarnings(events: seq<SessionEventKind>, before: Warned, after: Warned) {
    && WarningsOnce(events) && WarningsFlagged(events, after)
    && forall i :: 0 <= i < |events| && events[i].BudgetWarning? ==> !HasFlag(before, events[i].budgetName)
  }

  lemma PadWarnings(a: seq<SessionEventKind>, w: seq<SessionEventKind>, b: seq<SessionEventKind>,
                    before: Warned, after: Warned)
    requires NoWarning(a) && NoWarning(b) && FreshWarnings(w, before, after)
    ensures FreshWarnings(a + w + b, before, after)
  {
    var all := a + w + b;
    forall i | 0 <= i < |all| && all[i].BudgetWarning? ensures |a| <= i < |a| + |w| && all[i] == w[i - |a|] {
    }
  }

  /** What a dispatched call logs behind its approval and its warnings. */
  ghost function TailEvents(cfg: Config, s: Session, r: Request): seq<SessionEventKind> {
    match VerdictOf(cfg, s, r)
    case ToolFailed => [ToolDispatch(r.id, r.command), ToolResult(r.id, "", -1, None)]
    case ToolDone =>
      [ToolDispatch(r.id, r.command), ToolResult(r.id, r.outcome.runId, r.outcome.exitCode, r.outcome.traceHash)]
    case _ => [ToolDispatch(r.id, r.command)]
  }

  lemma EventsInThree(cfg: Config, s: Session, r: Request)
    requires Dispatched(VerdictOf(cfg, s, r))
    ensures EventsOf(cfg, s, r) == ApprovalEvents(cfg, r) + Warnings(s, r.warnAt) + TailEvents(cfg, s, r)
  {
    var head, tail := ApprovalEvents(cfg, r) + Warnings(s, r.warnAt), TailEvents(cfg, s, r);
    if |tail| == 2 {
      assert head + [tail[0]] + [tail[1]] == head + tail;
    }
  }

  lemma NewWarnings(s: Session, at: Thresholds)
    ensures FreshWarnings(Warnings(s, at), s.warned, WarnedAfter(s, at))
  {
    WarningsAreFresh(s, at);
  }

  lemma NoneAround(cfg: Config, s: Session, r: Request)
    ensures NoWarning(ApprovalEvents(cfg, r)) && NoWarning(TailEvents(cfg, s, r))
  {
  }

  lemma FlagsStay(s: Session, at: Thresholds, name: BudgetName)
    requires HasFlag(s.warned, name)
    ensures HasFlag(WarnedAfter(s, at), name)
  {
  }

  lemma DispatchedWarnings(cfg: Config, s: Session, r: Request)
    requires Dispatched(VerdictOf(cfg, s, r))
    ensures FreshWarnings(EventsOf(cfg, s, r), s.warned, WarnedAfter(s, r.warnAt))
  {
    var a, w, b := ApprovalEvents(cfg, r), Warnings(s, r.warnAt), TailEvents(cfg, s, r);
    NoneAround(cfg, s, r);
    NewWarnings(s, r.warnAt);
    PadWarnings(a, w, b, s.warned, WarnedAfter(s, r.warnAt));
    EventsInThree(cfg, s, r);
  }

  lemma FlagsAfter(cfg: Config, s: Session, r: Request)
    ensures AfterDispatch(cfg, s, r).warned ==
              if Dispatched(VerdictOf(cfg, s, r)) then WarnedAfter(s, r.warnAt) else s.warned
  {
  }

  lemma EventsWarnings(cfg: Config, s: Session, r: Request)
    ensures FreshWarnings(EventsOf(cfg, s, r), s.warned, AfterDispatch(cfg, s, r).warned)
    ensures forall name: BudgetName :: HasFlag(s.warned, name) ==> HasFlag(AfterDispatch(cfg, s, r).warned, name)
  {
    FlagsAfter(cfg, s, r);
    if Dispatched(VerdictOf(cfg, s, r)) {
      DispatchedWarnings(cfg, s, r);
      forall name: BudgetName | HasFlag(s.warned, name) ensures HasFlag(WarnedAfter(s, r.warnAt), name) {
        FlagsStay(s, r.warnAt, name);
      }
    } else {
      assert NoWarning(EventsOf(cfg, s, r));
    }
  }

  lemma DispatchKeepsLog(cfg: Config, s: Session, r: Request)
    requires OpenLog(s)
    ensures OpenLog(AfterDispatch(cfg, s, r))
  {
    var events := EventsOf(cfg, s, r);
    var s' := AfterDispatch(cfg, s, r);
    assert s'.log == s.log + events;
    EventsBlock(cfg, s, r);
    EventsWarnings(cfg, s, r);
    BoundaryAppend(s.log, events);
    ResultsAppend(s.log, events);
    WarningsAppend(s.log, events, s.warned, s'.warned);
  }

  predicate Quiet(events: seq<SessionEventKind>) {
    NoBoundary(events) && forall i :: 0 <= i < |events| ==> !events[i].ToolResult? && !events[i].BudgetWarning?
  }

  lemma QuietKeepsLog(s: Session, events: seq<SessionEventKind>)
    requires OpenLog(s) && Quiet(events)
    ensures OpenLog(s.(log := s.log + events))
  {
    BoundaryAppend(s.log, events);
    ResultsAppend(s.log, events);
    WarningsAppend(s.log, events, s.warned, s.warned);
  }

  // ---- The loop ----

  predicate Inv(s: Session) { BudgetSafe(s) && StateSound(s) && OpenLog(s) }

  lemma DispatchKeepsInv(cfg: Config, s: Session, r: Request)
    requires Inv(s)
    ensures Inv(AfterDispatch(cfg, s, r))
  {
    DispatchKeepsBudget(cfg, s, r);
    DispatchKeepsState(cfg, s, r);
    DispatchKeepsLog(cfg, s, r);
  }

  lemma ExtensionKeepsInv(s: Session, e: Extension)
    requires Inv(s)
    ensures Inv(AfterExtension(s, e))
  {
    ExtensionKeepsBudget(s, e);
    ExtensionResumesExactly(s, e);
    QuietKeepsLog(s, ExtensionEvents(s.budget, e));
  }

  lemma {:induction false} LinesKeepInv(cfg: Config, s: Session, lines: seq<TimedLine>)
    requires Inv(s)
    ensures Inv(AfterLines(cfg, s, lines).0)
    decreases |lines|
  {
    if lines != [] && !(lines[0].elapsedS >= s.budget.maxWallTimeS) && !lines[0].line.Oversized? {
      if lines[0].line.Call? {
        DispatchKeepsInv(cfg, s, lines[0].line.request);
        LinesKeepInv(cfg, AfterDispatch(cfg, s, lines[0].line.request), lines[1..]);
      } else {
        LinesKeepInv(cfg, s, lines[1..]);
      }
    }
  }

  /** The session before the stop event, whatever stopped it. */
  ghost predicate Ended(s: Session) {
    exists pre, state, events, status ::
      && Inv(pre) && Quiet(events) && StatusAgrees(state, status)
      && s == Stop(pre, state, events, status)
  }

  predicate StatusAgrees(state: SessionState, status: StopStatus) {
    match state
    case Running => false
    case Stopped => status == StatusStopped || status == StatusHeartbeatTimeout || status.StatusError?
    case TimedOut => status == StatusTimedOut
    case Exhausted => status == StatusBudgetExhausted
  }

  lemma StopEnds(pre: Session, state: SessionState, events: seq<SessionEventKind>, status: StopStatus)
    requires Inv(pre) && Quiet(events) && StatusAgrees(state, status)
    ensures Ended(Stop(pre, state, events, status))
  {
  }

  lemma TickKeepsInv(cfg: Config, s: Session, t: Tick)
    requires Inv(s)
    ensures var (s', exit) := AfterTick(cfg, s, t); if exit == Finished then Ended(s') else Inv(s')
  {
    if t.killed {
      StopEnds(s, Exhausted, [BudgetExhausted(AgentOutputBytes)], StatusBudgetExhausted);
    } else if t.agent.Exited? {
      StopEnds(s, Stopped, [], StatusStopped);
    } else if t.agent.PollFailed? {
    } else if t.elapsedS >= s.budget.maxWallTimeS {
      StopEnds(s, TimedOut, [], StatusTimedOut);
    } else if HeartbeatLost(cfg, t) {
      StopEnds(s, Stopped, [HeartbeatTimeout(t.idleS, cfg.heartbeatS)], StatusHeartbeatTimeout);
    } else {
      HousekeepingKeepsInv(s, t);
      ServeKeepsInv(cfg, Housekeeping(s, t), t);
    }
  }

  lemma HousekeepingKeepsInv(s: Session, t: Tick)
    requires Inv(s)
    ensures Inv(Housekeeping(s, t))
  {
    if t.extension.Some? { ExtensionKeepsInv(s, t.extension.value); }
    var s1 := if t.extension.Some? then AfterExtension(s, t.extension.value) else s;
    if t.snapshotDue { QuietKeepsLog(s1, [Snapshot(s1, t.elapsedS)]); }
  }

  lemma ServeKeepsInv(cfg: Config, s: Session, t: Tick)
    requires Inv(s)
    ensures Inv(Serve(cfg, s, t).0) && Serve(cfg, s, t).1 != Finished
  {
    if t.accept.Connection? {
      LinesKeepInv(cfg, s, t.accept.lines);
      LinesNeverFinish(cfg, s, t.accept.lines);
    }
  }

  lemma LinesNeverFinish(cfg: Config, s: Session, lines: seq<TimedLine>)
    ensures AfterLines(cfg, s, lines).1 != Finished
    decreases |lines|
  {
  }

  lemma {:induction false} TicksKeepInv(cfg: Config, s: Session, ticks: seq<Tick>)
    requires Inv(s)
    ensures var (s', exit) := AfterTicks(cfg, s, ticks); if exit == Finished then Ended(s') else Inv(s')
    decreases |ticks|
  {
    if ticks == [] {
    } else {
      TickKeepsInv(cfg, s, ticks[0]);
      var (s1, exit) := AfterTick(cfg, s, ticks[0]);
      if exit == Continue { TicksKeepInv(cfg, s1, ticks[1..]); }
    }
  }

  // ---- Whole sessions ----

  /** The shape of a finished session's log. */
  predicate FinishedLog(log: seq<SessionEventKind>, state: SessionState) {
    && |log| >= 2
    && log[0].SessionStart? && NoBoundary(log[1..|log| - 1])
    && log[|log| - 1].SessionStop? && StatusAgrees(state, log[|log| - 1].status)
    && ResultsFollow(log) && WarningsOnce(log)
  }

  lemma EndedLog(pre: Session, state: SessionState, events: seq<SessionEventKind>, status: StopStatus)
    requires Inv(pre) && Quiet(events) && StatusAgrees(state, status)
    ensures var s := Stop(pre, state, events, status); FinishedLog(s.log, s.state) && BudgetSafe(s)
  {
    QuietKeepsLog(pre, events);
    var body := pre.log + events;
    var log := body + [SessionStop(status)];
    assert log[1..|log| - 1] == body[1..];
    ResultsAppend(body, [SessionStop(status)]);
    WarningsAppend(body, [SessionStop(status)], pre.warned, pre.warned);
  }

  /** For every agent, operator and clock: a finished session has a well-formed log and kept its budget. */
  lemma EverySession(cfg: Config, budget: Budget, command: seq<string>, ticks: seq<Tick>, error: string)
    ensures var (s, exit) := RunSession(cfg, budget, command, ticks, error);
            && BudgetSafe(s)
            && (exit == Continue ==> StateSound(s) && OpenLog(s))
            && (exit != Continue ==> FinishedLog(s.log, s.state))
  {
    var start := Started(budget, command);
    assert Inv(start);
    TicksKeepInv(cfg, start, ticks);
    var (s, exit) := AfterTicks(cfg, start, ticks);
    if exit == Failed {
      EndedLog(s, Stopped, [], StatusError(error));
    } else if exit == Finished {
      var pre, state, events, status :|
        Inv(pre) && Quiet(events) && StatusAgrees(state, status) && s == Stop(pre, state, events, status);
      EndedLog(pre, state, events, status);
    }
  }

  // ---- Exhaustion is sticky ----

  function Granted(b: Budget, t: Tick): Budget { if t.extension.Some? then Extended(b, t.extension.value) else b }

  function GrantedAll(b: Budget, ticks: seq<Tick>): Budget
    decreases |ticks|
  {
    if ticks == [] then b else GrantedAll(Granted(b, ticks[0]), ticks[1..])
  }

  /** The extensions of `ticks`, if any, never bring all three limits above the counters `u`. */
  predicate NeverEnough(u: Used, b: Budget, ticks: seq<Tick>)
    decreases |ticks|
  {
    ticks == [] || (!Below(u, Granted(b, ticks[0])) && NeverEnough(u, Granted(b, ticks[0]), ticks[1..]))
  }

  /** With a counter at its limit no request gets as far as being dispatched. */
  lemma AtLimitNothingDispatches(cfg: Config, s: Session, r: Request)
    requires !AllBelow(s)
    ensures !Dispatched(VerdictOf(cfg, s, r))
    ensures forall e :: e in EventsOf(cfg, s, r) ==> !e.ToolDispatch? && !e.ToolResult?
  {
  }

  /** Same counters, nothing dispatched in between, and a session that was not running still is not. */
  predicate Frozen(s: Session, s': Session) {
    && s'.used == s.used && s'.ledger == s.ledger && (s.state != Running ==> s'.state != Running)
    && |s'.log| >= |s.log| && s'.log[..|s.log|] == s.log
    && forall i :: |s.log| <= i < |s'.log| ==> !s'.log[i].ToolDispatch? && !s'.log[i].ToolResult?
  }

  lemma FrozenTransitive(a: Session, b: Session, c: Session)
    requires Frozen(a, b) && Frozen(b, c)
    ensures Frozen(a, c)
  {
    assert c.log[..|a.log|] == b.log[..|a.log|];
    forall i | |a.log| <= i < |c.log| ensures !c.log[i].ToolDispatch? && !c.log[i].ToolResult? {
      if i < |b.log| { assert c.log[..|b.log|][i] == b.log[i]; }
    }
  }

  lemma DispatchFrozen(cfg: Config, s: Session, r: Request)
    requires !AllBelow(s)
    ensures Frozen(s, AfterDispatch(cfg, s, r)) && AfterDispatch(cfg, s, r).budget == s.budget
  {
    AtLimitNothingDispatches(cfg, s, r);
  }

  lemma {:induction false} LinesFrozen(cfg: Config, s: Session, lines: seq<TimedLine>)
    requires !AllBelow(s)
    ensures Frozen(s, AfterLines(cfg, s, lines).0) && AfterLines(cfg, s, lines).0.budget == s.budget
    decreases |lines|
  {
    if lines != [] && !(lines[0].elapsedS >= s.budget.maxWallTimeS) && !lines[0].line.Oversized? {
      if lines[0].line.Call? {
        var s1 := AfterDispatch(cfg, s, lines[0].line.request);
        DispatchFrozen(cfg, s, lines[0].line.request);
        if lines[0].line.responseWritten {
          LinesFrozen(cfg, s1, lines[1..]);
          FrozenTransitive(s, s1, AfterLines(cfg, s1, lines[1..]).0);
        }
      } else {
        LinesFrozen(cfg, s, lines[1..]);
      }
    }
  }

  /** An extension that is not enough changes the limits and nothing else. */
  lemma HousekeepingFrozen(s: Session, t: Tick)
    requires !Below(s.used, Granted(s.budget, t))
    ensures Frozen(s, Housekeeping(s, t)) && Housekeeping(s, t).budget == Granted(s.budget, t)
  {
  }

  lemma StopFrozen(s: Session, state: SessionState, events: seq<SessionEventKind>, status: StopStatus)
    requires state != Running && forall i :: 0 <= i < |events| ==> !events[i].ToolDispatch? && !events[i].ToolResult?
    ensures Frozen(s, Stop(s, state, events, status))
  {
  }

  lemma ServeFrozen(cfg: Config, s: Session, t: Tick)
    requires !AllBelow(s)
    ensures Frozen(s, Serve(cfg, s, t).0) && Serve(cfg, s, t).0.budget == s.budget
  {
    if t.accept.Connection? { LinesFrozen(cfg, s, t.accept.lines); }
  }

  lemma TickFrozen(cfg: Config, s: Session, t: Tick)
    requires !Below(s.used, Granted(s.budget, t))
    ensures Frozen(s, AfterTick(cfg, s, t).0)
    ensures AfterTick(cfg, s, t).1 == Continue ==> AfterTick(cfg, s, t).0.budget == Granted(s.budget, t)
  {
    if t.killed {
      StopFrozen(s, Exhausted, [BudgetExhausted(AgentOutputBytes)], StatusBudgetExhausted);
    } else if t.agent.Exited? {
      StopFrozen(s, Stopped, [], StatusStopped);
    } else if t.agent.PollFailed? {
    } else if t.elapsedS >= s.budget.maxWallTimeS {
      StopFrozen(s, TimedOut, [], StatusTimedOut);
    } else if HeartbeatLost(cfg, t) {
      StopFrozen(s, Stopped, [HeartbeatTimeout(t.idleS, cfg.heartbeatS)], StatusHeartbeatTimeout);
    } else {
      HousekeepingFrozen(s, t);
      ServeFrozen(cfg, Housekeeping(s, t), t);
      FrozenTransitive(s, Housekeeping(s, t), Serve(cfg, Housekeeping(s, t), t).0);
    }
  }

  /**
   * From a counter at its limit on, nothing is dispatched or charged and an exhausted session does not run
   * again, over any turns whose extensions never bring all three limits above the counters.
   */
  lemma {:induction false} ExhaustionIsSticky(cfg: Config, s: Session, ticks: seq<Tick>)
    requires NeverEnough(s.used, s.budget, ticks)
    ensures Frozen(s, AfterTicks(cfg, s, ticks).0)
    ensures AfterTicks(cfg, s, ticks).1 == Continue ==>
              AfterTicks(cfg, s, ticks).0.budget == GrantedAll(s.budget, ticks)
    decreases |ticks|
  {
    if ticks == [] {
    } else {
      TickFrozen(cfg, s, ticks[0]);
      var (s1, exit) := AfterTick(cfg, s, ticks[0]);
      if exit == Continue {
        ExhaustionIsSticky(cfg, s1, ticks[1..]);
        FrozenTransitive(s, s1, AfterTicks(cfg, s1, ticks[1..]).0);
      }
    }
  }

  /**
   * An exhausted session that was never given enough runs again in the very turn whose extension brings all
   * three limits above the counters, and in no other.
   */
  lemma ResumesExactly(cfg: Config, s: Session, before: seq<Tick>, t: Tick)
    requires Inv(s) && s.state == Exhausted && NeverEnough(s.used, s.budget, before)
    requires AfterTicks(cfg, s, before).1 == Continue
    ensures Housekeeping(AfterTicks(cfg, s, before).0, t).state == Running <==>
              t.extension.Some? && Below(s.used, Granted(GrantedAll(s.budget, before), t))
  {
    ExhaustionIsSticky(cfg, s, before);
    TicksKeepInv(cfg, s, before);
    var now := AfterTicks(cfg, s, before).0;
    assert now.state == Exhausted && now.used == s.used;
    if t.extension.Some? { ExtensionResumesExactly(now, t.extension.value); }
  }

  // ---- A counter does wrap ----

  function LongCall(ms: u64): TimedLine {
    var outcome := RunDone("r", 0, ms, [], None);
    TimedLine(0, Call(Request("c", ["t"], true, true, Thresholds(0, 0, 0), true, outcome), true))
  }

  lemma LongCallRuns(cfg: Config, s: Session, ms: u64)
    requires AllBelow(s) && cfg.filter.None? && !cfg.approval && cfg.maxConcurrentTools > 0
    ensures var s' := AfterDispatch(cfg, s, LongCall(ms).line.request);
            && s'.used == Charged(s.used, Charge(ms, 0)) && s'.ledger == s.ledger + [Charge(ms, 0)]
            && s'.budget == s.budget
  {
    ToolFilter.SegmentsOfName("c");
    assert "c"[0] == 'c' && "c"[1..] == "";
    assert Utf8Len("c") == 1 + Utf8Len("");
    assert ValidCallId("c");
  }

  lemma TwoLongCalls(cfg: Config, s: Session, a: u64, b: u64)
    requires AllBelow(s) && s.budget.maxWallTimeS > 0
    requires Below(Charged(s.used, Charge(a, 0)), s.budget)
    requires cfg.filter.None? && !cfg.approval && cfg.maxConcurrentTools > 0
    ensures var s' := AfterLines(cfg, s, [LongCall(a), LongCall(b)]).0;
            && s'.used == Charged(Charged(s.used, Charge(a, 0)), Charge(b, 0))
            && s'.ledger == s.ledger + [Charge(a, 0)] + [Charge(b, 0)]
  {
    var lines := [LongCall(a), LongCall(b)];
    assert lines[1..] == [LongCall(b)] && [LongCall(b)][1..] == [];
    var s1 := AfterDispatch(cfg, s, LongCall(a).line.request);
    LongCallRuns(cfg, s, a);
    LongCallRuns(cfg, s1, b);
    assert AfterLines(cfg, s1, [LongCall(b)]) ==
           AfterLines(cfg, AfterDispatch(cfg, s1, LongCall(b).line.request), []);
  }

  lemma LongCharges()
    ensures var u := Charged(Used(0, 0, 0), Charge(U64_LIMIT - 1, 0));
            u == Used(1, U64_LIMIT - 1, 0) && Charged(u, Charge(1, 0)) == Used(2, 0, 0)
  {
  }

  lemma TotalOfTwo(a: Charge, b: Charge)
    ensures TotalTime([a] + [b]) == a.durationMs + b.durationMs
  {
    assert ([a] + [b])[..1] == [a] && [a][..0] == [];
    assert TotalTime([a]) == TotalTime([]) + a.durationMs;
  }

  /** A turn that serves one connection and nothing else. */
  function Serving(lines: seq<TimedLine>): Tick { Tick(false, StillRunning, 0, 0, None, false, Connection(lines)) }

  lemma OneConnection(cfg: Config, s: Session, lines: seq<TimedLine>)
    requires s.budget.maxWallTimeS > 0 && cfg.heartbeatS == 0
    ensures AfterTicks(cfg, s, [Serving(lines)]).0 == AfterLines(cfg, s, lines).0
  {
    var t := Serving(lines);
    assert [t][0] == t && [t][1..] == [];
    assert AfterTick(cfg, s, t) == AfterLines(cfg, s, lines);
    var s1 := AfterLines(cfg, s, lines).0;
    assert AfterTicks(cfg, s1, []) == (s1, Continue);
  }

  /** Two calls within the limits, and the time used reads zero. */
  lemma CounterWraps(command: seq<string>)
    ensures var ticks := [Serving([LongCall(U64_LIMIT - 1), LongCall(1)])];
            var s := RunSession(Config(None, false, 1, 0), Budget(2, 1, U64_LIMIT - 1, 1), command, ticks, "").0;
            s.used.toolTimeMs == 0 && TotalTime(s.ledger) == U64_LIMIT
  {
    var cfg, s := Config(None, false, 1, 0), Started(Budget(2, 1, U64_LIMIT - 1, 1), command);
    var lines := [LongCall(U64_LIMIT - 1), LongCall(1)];
    LongCharges();
    TwoLongCalls(cfg, s, U64_LIMIT - 1, 1);
    OneConnection(cfg, s, lines);
    var a, b := Charge(U64_LIMIT - 1, 0), Charge(1, 0);
    assert [] + [a] + [b] == [a] + [b];
    TotalOfTwo(a, b);
  }
}
