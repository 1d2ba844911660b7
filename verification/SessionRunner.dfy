// The session supervisor in its own form: an object whose methods update the state, the budget, the
// counters and the event writer in place. Every method is tied to the state machine of SessionModel.
module SessionRunner {
  import opened Common
  import opened EventLog
  import opened SessionModel
  import SessionAccount
  import SessionSafety
  import ToolFilter

  datatype Response = Response(id: string, runId: string, exitCode: int, durationMs: nat, error: Option<Verdict>)

  lemma ModStep(x: u64, y: u64, rest: nat)
    ensures (WrapAdd64(x, y) + rest) % U64_LIMIT == (x + (y + rest)) % U64_LIMIT
  {
  }

  class Supervisor {
    const cfg: Config
    var state: SessionState
    var budget: Budget
    var toolCalls: u32
    var toolTimeMs: u64
    var outputBytes: u64
    var warnedToolCalls: bool
    var warnedToolTime: bool
    var warnedOutputBytes: bool
    var activeTools: u32
    ghost var ledger: seq<Charge>
    /** The kinds of the emitted events; the chain over them is the event writer's business. */
    var log: seq<SessionEventKind>

    ghost predicate Valid()
      reads this
    {
      activeTools == 0
    }

    ghost function View(): Session
      reads this
    {
      Session(state, budget, Used(toolCalls, toolTimeMs, outputBytes),
              Warned(warnedToolCalls, warnedToolTime, warnedOutputBytes), log, ledger)
    }

    constructor (cfg: Config, budget: Budget)
      ensures Valid() && this.cfg == cfg
      ensures View() == Session(Running, budget, Used(0, 0, 0), Warned(false, false, false), [], [])
    {
      this.cfg, this.budget := cfg, budget;
      state := Running;
      toolCalls, toolTimeMs, outputBytes, activeTools := 0, 0, 0, 0;
      warnedToolCalls, warnedToolTime, warnedOutputBytes := false, false, false;
      ledger, log := [], [];
    }

    method Emit(kind: SessionEventKind)
      modifies this`log
      ensures log == old(log) + [kind]
    {
      log := log + [kind];
    }

    method CheckBudgetWarnings(at: Thresholds)
      requires Valid()
      modifies this`warnedToolCalls, this`warnedToolTime, this`warnedOutputBytes, this`log
      ensures Valid()
      ensures View() == old(View()).(
                          log := old(log) + Warnings(old(View()), at),
                          warned := WarnedAfter(old(View()), at))
    {
      ghost var s := View();
      if toolCalls >= at.calls && toolCalls > 0 && !warnedToolCalls {
        warnedToolCalls := true;
        Emit(BudgetWarning(ToolCalls, toolCalls, budget.maxToolCalls));
      }
      assert log == s.log + CallsWarning(s, at);
      if toolTimeMs >= at.timeMs && !warnedToolTime {
        warnedToolTime := true;
        Emit(BudgetWarning(ToolTime, toolTimeMs / 1000, budget.maxToolTimeS));
      }
      assert log == s.log + (CallsWarning(s, at) + TimeWarning(s, at));
      if outputBytes >= at.bytes && !warnedOutputBytes {
        warnedOutputBytes := true;
        Emit(BudgetWarning(OutputBytes, outputBytes, budget.maxOutputBytes));
      }
      assert log == s.log + Warnings(s, at);
    }

    method CheckBudgetExtension(ext: Option<Extension>)
      requires Valid()
      modifies this`budget, this`state, this`log
      ensures Valid()
      ensures View() == if ext.Some? then AfterExtension(old(View()), ext.value) else old(View())
    {
      if ext.None? { return; }
      var e := ext.value;
      ApplyExtension(e);
      if state == Exhausted {
        var callsOk := toolCalls < budget.maxToolCalls;
        var timeOk := toolTimeMs / 1000 < budget.maxToolTimeS;
        var bytesOk := outputBytes < budget.maxOutputBytes;
        if callsOk && timeOk && bytesOk { state := Running; }
      }
    }

    method ApplyExtension(e: Extension)
      requires Valid()
      modifies this`budget, this`log
      ensures Valid()
      ensures budget == Extended(old(budget), e) && log == old(log) + ExtensionEvents(old(budget), e)
    {
      ghost var b, b', l := budget, Extended(budget, e), log;
      ghost var calls := ExtensionEvent(ToolCalls, b.maxToolCalls, e.addToolCalls, b'.maxToolCalls);
      ghost var wall := ExtensionEvent(WallTime, b.maxWallTimeS, e.addWallTimeS, b'.maxWallTimeS);
      ghost var time := ExtensionEvent(ToolTime, b.maxToolTimeS, e.addToolTimeS, b'.maxToolTimeS);
      if e.addToolCalls > 0 {
        var before := budget.maxToolCalls;
        budget := budget.(maxToolCalls := SaturatingAdd32(before, e.addToolCalls));
        Emit(BudgetExtension(ToolCalls, budget.maxToolCalls, before));
      }
      assert log == l + calls && budget == b.(maxToolCalls := b'.maxToolCalls);
      if e.addWallTimeS > 0 {
        var before := budget.maxWallTimeS;
        budget := budget.(maxWallTimeS := SaturatingAdd64(before, e.addWallTimeS));
        Emit(BudgetExtension(WallTime, budget.maxWallTimeS, before));
      }
      assert log == l + (calls + wall) &&
          budget == b'.(maxToolTimeS := b.maxToolTimeS, maxOutputBytes := b.maxOutputBytes);
      if e.addToolTimeS > 0 {
        var before := budget.maxToolTimeS;
        budget := budget.(maxToolTimeS := SaturatingAdd64(before, e.addToolTimeS));
        Emit(BudgetExtension(ToolTime, budget.maxToolTimeS, before));
      }
      assert log == l + (calls + wall + time) && budget == b'.(maxOutputBytes := b.maxOutputBytes);
      if e.addOutputBytes > 0 {
        var before := budget.maxOutputBytes;
        budget := budget.(maxOutputBytes := SaturatingAdd64(before, e.addOutputBytes));
        Emit(BudgetExtension(OutputBytes, budget.maxOutputBytes, before));
      }
      assert log == l + ExtensionEvents(b, e);
    }

    function Refusal(r: Request, why: Verdict): Response { Response(r.id, "", -1, 0, Some(why)) }

    method DispatchToolCall(r: Request) returns (resp: Response)
      requires Valid()
      modifies this
      ensures Valid()
      ensures View() == AfterDispatch(cfg, old(View()), r)
      ensures resp.error.None? <==> VerdictOf(cfg, old(View()), r).ToolDone?
      ensures resp.error.None? ==>
                resp == Response(r.id, r.outcome.runId, r.outcome.exitCode, r.outcome.durationMs, None)
    {
      ghost var s := View();
      var refused := CheckGates(r);
      if refused.Some? { return refused.value; }
      WarningsIgnoreLog(s, s.log + ApprovalEvents(cfg, r), r.warnAt);
      Announce(r);
      assert log == s.log + Preamble(cfg, s, r) by { PreambleInLegs(cfg, s, r); }
      DispatchInLegs(cfg, s, r);
      resp := Execute(r);
    }

    method Announce(r: Request)
      requires Valid()
      modifies this`warnedToolCalls, this`warnedToolTime, this`warnedOutputBytes, this`log
      ensures Valid()
      ensures View() == old(View()).(
                          log := old(log) + Warnings(old(View()), r.warnAt) + [ToolDispatch(r.id, r.command)],
                          warned := WarnedAfter(old(View()), r.warnAt))
    {
      CheckBudgetWarnings(r.warnAt);
      Emit(ToolDispatch(r.id, r.command));
    }

    /** The gates in front of a dispatch, in order; the time and byte budgets stand last. */
    method CheckGates(r: Request) returns (refused: Option<Response>)
      requires Valid()
      modifies this`state, this`log
      ensures Valid()
      ensures refused.Some? <==> !Dispatched(VerdictOf(cfg, old(View()), r))
      ensures refused.Some? ==> refused.value.error.Some? && View() == AfterDispatch(cfg, old(View()), r)
      ensures refused.None? ==> View() == old(View()).(log := old(log) + ApprovalEvents(cfg, r))
    {
      ghost var s := View();
      if !ValidCallId(r.id) {
        return Some(Response(if |r.id| > 64 then r.id[..64] else r.id, "", -1, 0, Some(BadRequest)));
      }
      if r.command == [] { return Some(Refusal(r, BadRequest)); }
      if toolCalls >= budget.maxToolCalls {
        state := Exhausted;
        Emit(BudgetExhausted(ToolCalls));
        return Some(Refusal(r, OverCalls));
      }
      if !r.inputsStaged { return Some(Refusal(r, InputsFailed)); }
      var allowed := Permitted(r.command[0]);
      if !allowed {
        Emit(ToolDenied(r.id, r.command));
        return Some(Refusal(r, Denied));
      }
      if cfg.approval {
        Emit(ApprovalRequired(r.id, r.command, r.approved));
        if !r.approved { return Some(Refusal(r, NotApproved)); }
      }
      assert log == s.log + ApprovalEvents(cfg, r);
      if toolTimeMs / 1000 >= budget.maxToolTimeS {
        state := Exhausted;
        Emit(BudgetExhausted(ToolTime));
        assert log == s.log + (ApprovalEvents(cfg, r) + [BudgetExhausted(ToolTime)]);
        return Some(Refusal(r, OverTime));
      }
      if outputBytes >= budget.maxOutputBytes {
        state := Exhausted;
        Emit(BudgetExhausted(OutputBytes));
        assert log == s.log + (ApprovalEvents(cfg, r) + [BudgetExhausted(OutputBytes)]);
        return Some(Refusal(r, OverBytes));
      }
      return None;
    }

    method Permitted(command: string) returns (ok: bool)
      ensures ok <==> Allowed(cfg, command)
    {
      match cfg.filter
      case None => ok := true;
      case Some(filter) => ok := ToolFilter.IsAllowed(filter, command);
    }

    /** The part of a dispatch under the semaphore's guard. */
    method Execute(r: Request) returns (resp: Response)
      requires Valid()
      modifies this`activeTools, this`toolCalls, this`toolTimeMs, this`outputBytes, this`ledger, this`log
      ensures Valid()
      ensures resp.error.None? <==> cfg.maxConcurrentTools > 0 && r.runnerReady && r.outcome.RunDone?
      ensures resp.error.None? ==>
                resp == Response(r.id, r.outcome.runId, r.outcome.exitCode, r.outcome.durationMs, None)
      ensures View() == Executed(cfg, old(View()), r)
    {
      var active := activeTools;
      activeTools := (activeTools + 1) % U32_LIMIT;
      if active >= cfg.maxConcurrentTools {
        resp := Refusal(r, Busy);
      } else if !r.runnerReady {
        resp := Refusal(r, RunnerFailed);
      } else {
        match r.outcome
        case RunFailed =>
          Emit(ToolResult(r.id, "", -1, None));
          resp := Refusal(r, ToolFailed);
        case RunDone(runId, exitCode, durationMs, artifacts, traceHash) =>
          toolCalls := (toolCalls + 1) % U32_LIMIT;
          toolTimeMs := WrapAdd64(toolTimeMs, durationMs);
          var total := TotalOutputSize(artifacts);
          outputBytes := WrapAdd64(outputBytes, total);
          ledger := ledger + [Charge(durationMs, total)];
          Emit(ToolResult(r.id, runId, exitCode, traceHash));
          resp := Response(r.id, runId, exitCode, durationMs, None);
      }
      activeTools := (activeTools - 1) % U32_LIMIT;
    }

    method TotalOutputSize(artifacts: seq<Artifact>) returns (total: u64)
      ensures total == CopiedBytes(artifacts) % U64_LIMIT
    {
      total := 0;
      for i := 0 to |artifacts|
        invariant (total + CopiedBytes(artifacts[i..])) % U64_LIMIT == CopiedBytes(artifacts) % U64_LIMIT
      {
        assert artifacts[i..][1..] == artifacts[i + 1..];
        ModStep(total, artifacts[i].size, CopiedBytes(artifacts[i + 1..]));
        if artifacts[i].copied { total := WrapAdd64(total, artifacts[i].size); }
      }
    }

    /** Serves one connection; false when a response could not be written. */
    method HandleConnection(lines: seq<TimedLine>) returns (ok: bool)
      requires Valid()
      modifies this
      ensures Valid()
      ensures (View(), if ok then Continue else Failed) == AfterLines(cfg, old(View()), lines)
    {
      var i := 0;
      while i < |lines|
        invariant 0 <= i <= |lines| && Valid()
        invariant AfterLines(cfg, old(View()), lines) == AfterLines(cfg, View(), lines[i..])
      {
        assert lines[i..][1..] == lines[i + 1..];
        if lines[i].elapsedS >= budget.maxWallTimeS || lines[i].line.Oversized? { return true; }
        if lines[i].line.Call? {
          var _ := DispatchToolCall(lines[i].line.request);
          if !lines[i].line.responseWritten { return false; }
        }
        i := i + 1;
      }
      ok := true;
    }

    /** One turn of the dispatch loop. */
    method Turn(t: Tick) returns (exit: LoopExit)
      requires Valid()
      modifies this
      ensures Valid()
      ensures (View(), exit) == AfterTick(cfg, old(View()), t)
    {
      if t.killed {
        state := Exhausted;
        Emit(BudgetExhausted(AgentOutputBytes));
        Emit(SessionStop(StatusBudgetExhausted));
        return Finished;
      }
      if t.agent.Exited? {
        state := Stopped;
        assert log + [] == log;
        Emit(SessionStop(StatusStopped));
        return Finished;
      }
      if t.agent.PollFailed? { return Failed; }
      if t.elapsedS >= budget.maxWallTimeS {
        state := TimedOut;
        assert log + [] == log;
        Emit(SessionStop(StatusTimedOut));
        return Finished;
      }
      if HeartbeatLost(cfg, t) {
        Emit(HeartbeatTimeout(t.idleS, cfg.heartbeatS));
        state := Stopped;
        Emit(SessionStop(StatusHeartbeatTimeout));
        return Finished;
      }
      CheckBudgetExtension(t.extension);
      if t.snapshotDue {
        Emit(ResourceSnapshot(t.elapsedS, toolCalls, toolTimeMs / 1000, outputBytes));
      }
      match t.accept
      case NoConnection => exit := Continue;
      case WrongPeer => exit := Continue;
      case AcceptFailed => exit := Failed;
      case Connection(lines) =>
        var ok := HandleConnection(lines);
        exit := if ok then Continue else Failed;
    }

    method DispatchLoop(ticks: seq<Tick>) returns (exit: LoopExit)
      requires Valid()
      modifies this
      ensures Valid()
      ensures (View(), exit) == AfterTicks(cfg, old(View()), ticks)
    {
      exit := Continue;
      var i := 0;
      while i < |ticks|
        invariant 0 <= i <= |ticks| && Valid() && exit == Continue
        invariant AfterTicks(cfg, old(View()), ticks) == AfterTicks(cfg, View(), ticks[i..])
      {
        assert ticks[i..][1..] == ticks[i + 1..];
        exit := Turn(ticks[i]);
        if exit != Continue { return; }
        i := i + 1;
      }
    }

    /** A whole session; its event writer ends up holding a log the verifier accepts. */
    method Run(command: seq<string>, ticks: seq<Tick>, error: string) returns (exit: LoopExit)
      requires Valid() && View() == Session(Running, budget, Used(0, 0, 0), Warned(false, false, false), [], [])
      modifies this
      ensures Valid()
      ensures (View(), exit) == RunSession(cfg, old(budget), command, ticks, error)
      ensures SessionSafety.BudgetSafe(View())
      ensures exit != Continue ==> SessionSafety.FinishedLog(log, state)
      ensures var (a, ending) := SessionAccount.TurnedAll(cfg, SessionAccount.Opened(old(budget), command), ticks);
              && log == a.log + SessionAccount.Closing(cfg, ending, error)
              && outputBytes == SessionAccount.Copied(cfg, a.admitted) % U64_LIMIT
              && toolTimeMs == SessionAccount.Millis(cfg, a.admitted) % U64_LIMIT
              && toolCalls == SessionAccount.Calls(cfg, a.admitted) % U32_LIMIT
    {
      SessionAccount.EverySessionAccounted(cfg, budget, command, ticks, error);
      Emit(SessionStart(command));
      assert View() == Started(old(budget), command);
      exit := DispatchLoop(ticks);
      if exit == Failed {
        state := Stopped;
        assert log + [] == log;
        Emit(SessionStop(StatusError(error)));
      }
      SessionSafety.EverySession(cfg, old(budget), command, ticks, error);
    }
  }

  /** Feeds the emitted kinds to an event writer, one by one; `wire` is how a kind is written. */
  method WriteLog<K(!new)>(chain: Chain<K>, wire: SessionEventKind -> K, clock: nat -> string,
      kinds: seq<SessionEventKind>)
    returns (writer: SessionEventWriter<K>)
    ensures fresh(writer) && writer.Valid() && writer.chain == chain
    ensures |writer.events| == |kinds| && forall i :: 0 <= i < |kinds| ==> writer.events[i].kind == wire(kinds[i])
  {
    writer := new SessionEventWriter(chain);
    for i := 0 to |kinds|
      invariant fresh(writer) && writer.Valid() && writer.chain == chain
      invariant |writer.events| == i && forall k :: 0 <= k < i ==> writer.events[k].kind == wire(kinds[k])
    {
      var _ := writer.Emit(wire(kinds[i]), clock(i));
    }
  }

  /** From the first event to the verifier: the log of every finished session is accepted, integrity and tip. */
  method SessionThenVerify<K(!new)>(cfg: Config, budget: Budget, command: seq<string>, ticks: seq<Tick>, error: string,
                                    chain: Chain<K>, wire: SessionEventKind -> K, clock: nat -> string)
    returns (exit: LoopExit, integrity: CheckStatus, tip: CheckStatus)
    requires chain.Valid()
    ensures exit == RunSession(cfg, budget, command, ticks, error).1
    ensures exit != Continue ==> integrity == Pass && tip == Pass
  {
    var s := new Supervisor(cfg, budget);
    exit := s.Run(command, ticks, error);
    integrity, tip := Skip, Skip;
    if exit != Continue {
      var writer := WriteLog(chain, wire, clock, s.log);
      integrity, tip := WriterThenVerifier(writer);
    }
  }
}
