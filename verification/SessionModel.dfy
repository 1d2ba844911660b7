// The session supervisor as a state machine: what one dispatch, one budget extension, one turn of the
// dispatch loop and a whole session do to the state, the budget counters and the event log.
module SessionModel {
  import opened Common
  import opened EventLog
  import ToolFilter

  datatype SessionState = Running | Stopped | TimedOut | Exhausted

  datatype Budget = Budget(maxToolCalls: u32, maxWallTimeS: u64, maxToolTimeS: u64, maxOutputBytes: u64)

  datatype Used = Used(toolCalls: u32, toolTimeMs: u64, outputBytes: u64)

  datatype Warned = Warned(calls: bool, time: bool, bytes: bool)

  /** What one successful call cost. */
  datatype Charge = Charge(durationMs: u64, outputBytes: u64)

  /** `ledger` lists the successful calls so far; no decision reads it. */
  datatype Session = Session(
    state: SessionState, budget: Budget, used: Used, warned: Warned,
    log: seq<SessionEventKind>, ledger: seq<Charge>)

  /** The settings of a session that never change while it runs. */
  datatype Config = Config(
    filter: Option<ToolFilter.Filter>, approval: bool, maxConcurrentTools: u32, heartbeatS: nat)

  /** An output artifact of a run; `copied` tells whether it reached the session directory. */
  datatype Artifact = Artifact(size: u64, copied: bool)

  datatype RunOutcome =
    | RunFailed
    | RunDone(runId: string, exitCode: int, durationMs: u64, artifacts: seq<Artifact>, traceHash: Option<string>)

  /** The 80% marks, which the source computes in floating point; any numbers will do here. */
  datatype Thresholds = Thresholds(calls: nat, timeMs: nat, bytes: nat)

  /** A dispatch request together with everything its processing learns from outside. */
  datatype Request = Request(
    id: string, command: seq<string>,
    inputsStaged: bool, approved: bool, warnAt: Thresholds, runnerReady: bool, outcome: RunOutcome)

  datatype Extension = Extension(addToolCalls: u32, addWallTimeS: u64, addToolTimeS: u64, addOutputBytes: u64)

  // ---- One dispatch ----

  predicate SafeLabel(name: string) {
    name != "" && name[0] != '/' && ".." !in ToolFilter.Segments(name)
  }

  predicate ValidCallId(id: string) {
    Utf8Len(id) <= 256 && '\0' !in id && '\n' !in id && '\r' !in id && SafeLabel(id)
  }

  ghost predicate Allowed(cfg: Config, command: string) {
    cfg.filter.Some? ==>
      && !ToolFilter.MatchesAny(cfg.filter.value.deny, ToolFilter.Basename(command))
      && (cfg.filter.value.allow == [] || ToolFilter.MatchesAny(cfg.filter.value.allow, ToolFilter.Basename(command)))
  }

  predicate CallsBelow(s: Session) { s.used.toolCalls < s.budget.maxToolCalls }

  predicate TimeBelow(s: Session) { s.used.toolTimeMs / 1000 < s.budget.maxToolTimeS }

  predicate BytesBelow(s: Session) { s.used.outputBytes < s.budget.maxOutputBytes }

  /** All three counters are below their limits. */
  predicate Below(u: Used, b: Budget) {
    u.toolCalls < b.maxToolCalls && u.toolTimeMs / 1000 < b.maxToolTimeS && u.outputBytes < b.maxOutputBytes
  }

  predicate AllBelow(s: Session) { Below(s.used, s.budget) }

  datatype Verdict =
    | BadRequest | OverCalls | InputsFailed | Denied | NotApproved | OverTime | OverBytes
    | Busy | RunnerFailed | ToolFailed | ToolDone

  /** The first gate that stops the request, in the order the gates stand. */
  ghost function VerdictOf(cfg: Config, s: Session, r: Request): Verdict {
    if !ValidCallId(r.id) || r.command == [] then BadRequest
    else if !CallsBelow(s) then OverCalls
    else if !r.inputsStaged then InputsFailed
    else if !Allowed(cfg, r.command[0]) then Denied
    else if cfg.approval && !r.approved then NotApproved
    else if !TimeBelow(s) then OverTime
    else if !BytesBelow(s) then OverBytes
    else if cfg.maxConcurrentTools == 0 then Busy
    else if !r.runnerReady then RunnerFailed
    else if r.outcome.RunFailed? then ToolFailed
    else ToolDone
  }

  predicate WarnCalls(s: Session, at: Thresholds) {
    s.used.toolCalls >= at.calls && s.used.toolCalls > 0 && !s.warned.calls
  }

  predicate WarnTime(s: Session, at: Thresholds) { s.used.toolTimeMs >= at.timeMs && !s.warned.time }

  predicate WarnBytes(s: Session, at: Thresholds) { s.used.outputBytes >= at.bytes && !s.warned.bytes }

  function CallsWarning(s: Session, at: Thresholds): seq<SessionEventKind> {
    if WarnCalls(s, at) then [BudgetWarning(ToolCalls, s.used.toolCalls, s.budget.maxToolCalls)] else []
  }

  function TimeWarning(s: Session, at: Thresholds): seq<SessionEventKind> {
    if WarnTime(s, at) then [BudgetWarning(ToolTime, s.used.toolTimeMs / 1000, s.budget.maxToolTimeS)] else []
  }

  function BytesWarning(s: Session, at: Thresholds): seq<SessionEventKind> {
    if WarnBytes(s, at) then [BudgetWarning(OutputBytes, s.used.outputBytes, s.budget.maxOutputBytes)] else []
  }

  function Warnings(s: Session, at: Thresholds): seq<SessionEventKind> {
    CallsWarning(s, at) + TimeWarning(s, at) + BytesWarning(s, at)
  }

  function WarnedAfter(s: Session, at: Thresholds): Warned {
    Warned(s.warned.calls || WarnCalls(s, at), s.warned.time || WarnTime(s, at), s.warned.bytes || WarnBytes(s, at))
  }

  function ApprovalEvents(cfg: Config, r: Request): seq<SessionEventKind> {
    if cfg.approval then [ApprovalRequired(r.id, r.command, r.approved)] else []
  }

  predicate Dispatched(v: Verdict) { v.Busy? || v.RunnerFailed? || v.ToolFailed? || v.ToolDone? }

  function Preamble(cfg: Config, s: Session, r: Request): seq<SessionEventKind> {
    ApprovalEvents(cfg, r) + Warnings(s, r.warnAt) + [ToolDispatch(r.id, r.command)]
  }

  /** The events a request adds to the log. */
  ghost function EventsOf(cfg: Config, s: Session, r: Request): seq<SessionEventKind> {
    match VerdictOf(cfg, s, r)
    case BadRequest => []
    case InputsFailed => []
    case OverCalls => [BudgetExhausted(ToolCalls)]
    case Denied => [ToolDenied(r.id, r.command)]
    case NotApproved => ApprovalEvents(cfg, r)
    case OverTime => ApprovalEvents(cfg, r) + [BudgetExhausted(ToolTime)]
    case OverBytes => ApprovalEvents(cfg, r) + [BudgetExhausted(OutputBytes)]
    case Busy => Preamble(cfg, s, r)
    case RunnerFailed => Preamble(cfg, s, r)
    case ToolFailed => Preamble(cfg, s, r) + [ToolResult(r.id, "", -1, None)]
    case ToolDone => Preamble(cfg, s, r) + [ToolResult(r.id, r.outcome.runId, r.outcome.exitCode, r.outcome.traceHash)]
  }

  /** Bytes of the artifacts that were copied into the session. */
  function CopiedBytes(artifacts: seq<Artifact>): nat {
    if artifacts == [] then 0
    else (if artifacts[0].copied then artifacts[0].size else 0) + CopiedBytes(artifacts[1..])
  }

  lemma CopiedAppend(artifacts: seq<Artifact>, a: Artifact)
    ensures CopiedBytes(artifacts + [a]) == CopiedBytes(artifacts) + (if a.copied then a.size else 0)
  {
    if artifacts == [] {
    } else {
      assert (artifacts + [a])[1..] == artifacts[1..] + [a];
      CopiedAppend(artifacts[1..], a);
    }
  }

  function ChargeOf(o: RunOutcome): Charge
    requires o.RunDone?
  {
    Charge(o.durationMs, CopiedBytes(o.artifacts) % U64_LIMIT)
  }

  function Charged(u: Used, c: Charge): Used {
    Used((u.toolCalls + 1) % U32_LIMIT, WrapAdd64(u.toolTimeMs, c.durationMs), WrapAdd64(u.outputBytes, c.outputBytes))
  }

  ghost function AfterDispatch(cfg: Config, s: Session, r: Request): Session {
    var v := VerdictOf(cfg, s, r);
    var s1 := s.(log := s.log + EventsOf(cfg, s, r));
    if v.OverCalls? || v.OverTime? || v.OverBytes? then s1.(state := Exhausted)
    else if !Dispatched(v) then s1
    else
      var s2 := s1.(warned := WarnedAfter(s, r.warnAt));
      if v.ToolDone? then
        s2.(used := Charged(s.used, ChargeOf(r.outcome)), ledger := s.ledger + [ChargeOf(r.outcome)])
      else s2
  }

  /** The last leg of a dispatch, after its `ToolDispatch` event. */
  function Executed(cfg: Config, s: Session, r: Request): Session {
    if cfg.maxConcurrentTools == 0 || !r.runnerReady then s
    else if r.outcome.RunFailed? then s.(log := s.log + [ToolResult(r.id, "", -1, None)])
    else
      s.(used := Charged(s.used, ChargeOf(r.outcome)), ledger := s.ledger + [ChargeOf(r.outcome)],
         log := s.log + [ToolResult(r.id, r.outcome.runId, r.outcome.exitCode, r.outcome.traceHash)])
  }

  /** Warnings depend on the counters, the limits and the flags only. */
  lemma WarningsIgnoreLog(s: Session, l: seq<SessionEventKind>, at: Thresholds)
    ensures Warnings(s.(log := l), at) == Warnings(s, at) && WarnedAfter(s.(log := l), at) == WarnedAfter(s, at)
  {
  }

  lemma PreambleInLegs(cfg: Config, s: Session, r: Request)
    ensures s.log + ApprovalEvents(cfg, r) + Warnings(s, r.warnAt) + [ToolDispatch(r.id, r.command)] ==
              s.log + Preamble(cfg, s, r)
  {
    var a, w, t := ApprovalEvents(cfg, r), Warnings(s, r.warnAt), [ToolDispatch(r.id, r.command)];
    Associative(s.log, a, w);
    Associative(s.log, a + w, t);
  }

  lemma DispatchInLegs(cfg: Config, s: Session, r: Request)
    requires Dispatched(VerdictOf(cfg, s, r))
    ensures AfterDispatch(cfg, s, r) ==
              Executed(cfg, s.(log := s.log + Preamble(cfg, s, r), warned := WarnedAfter(s, r.warnAt)), r)
    ensures VerdictOf(cfg, s, r).ToolDone? <==> cfg.maxConcurrentTools > 0 && r.runnerReady && r.outcome.RunDone?
  {
    var p := s.log + Preamble(cfg, s, r);
    if r.outcome.RunFailed? {
      assert p + [ToolResult(r.id, "", -1, None)] == s.log + (Preamble(cfg, s, r) + [ToolResult(r.id, "", -1, None)]);
    } else {
      var result := ToolResult(r.id, r.outcome.runId, r.outcome.exitCode, r.outcome.traceHash);
      assert p + [result] == s.log + (Preamble(cfg, s, r) + [result]);
    }
  }

  // ---- One budget extension ----

  function Extended(b: Budget, e: Extension): Budget {
    Budget(SaturatingAdd32(b.maxToolCalls, e.addToolCalls), SaturatingAdd64(b.maxWallTimeS, e.addWallTimeS),
           SaturatingAdd64(b.maxToolTimeS, e.addToolTimeS), SaturatingAdd64(b.maxOutputBytes, e.addOutputBytes))
  }

  function ExtensionEvent(name: BudgetName, before: nat, add: nat, after: nat): seq<SessionEventKind> {
    if add > 0 then [BudgetExtension(name, after, before)] else []
  }

  function ExtensionEvents(b: Budget, e: Extension): seq<SessionEventKind> {
    var b' := Extended(b, e);
    ExtensionEvent(ToolCalls, b.maxToolCalls, e.addToolCalls, b'.maxToolCalls) +
    ExtensionEvent(WallTime, b.maxWallTimeS, e.addWallTimeS, b'.maxWallTimeS) +
    ExtensionEvent(ToolTime, b.maxToolTimeS, e.addToolTimeS, b'.maxToolTimeS) +
    ExtensionEvent(OutputBytes, b.maxOutputBytes, e.addOutputBytes, b'.maxOutputBytes)
  }

  function AfterExtension(s: Session, e: Extension): Session {
    var s1 := s.(budget := Extended(s.budget, e), log := s.log + ExtensionEvents(s.budget, e));
    if s.state == Exhausted && AllBelow(s1) then s1.(state := Running) else s1
  }

  // ---- One connection ----

  /** A request line: `Call` carries whether the response could be written back. */
  datatype Line = Blank | Malformed | Oversized | Call(request: Request, responseWritten: bool)

  datatype TimedLine = TimedLine(elapsedS: nat, line: Line)

  datatype LoopExit = Continue | Finished | Failed

  /** Processes the lines in order, until the wall clock runs out, a line is oversized or a write fails. */
  ghost function AfterLines(cfg: Config, s: Session, lines: seq<TimedLine>): (Session, LoopExit)
    decreases |lines|
  {
    if lines == [] || lines[0].elapsedS >= s.budget.maxWallTimeS || lines[0].line.Oversized? then (s, Continue)
    else if !lines[0].line.Call? then AfterLines(cfg, s, lines[1..])
    else
      var s1 := AfterDispatch(cfg, s, lines[0].line.request);
      if lines[0].line.responseWritten then AfterLines(cfg, s1, lines[1..]) else (s1, Failed)
  }

  // ---- One turn of the dispatch loop ----

  datatype AgentPoll = StillRunning | Exited | PollFailed

  datatype Accept = NoConnection | WrongPeer | AcceptFailed | Connection(lines: seq<TimedLine>)

  /** What one turn of the loop observes. */
  datatype Tick = Tick(
    killed: bool, agent: AgentPoll, elapsedS: nat, idleS: nat,
    extension: Option<Extension>, snapshotDue: bool, accept: Accept)

  function Snapshot(s: Session, elapsedS: nat): SessionEventKind {
    ResourceSnapshot(elapsedS, s.used.toolCalls, s.used.toolTimeMs / 1000, s.used.outputBytes)
  }

  function Stop(s: Session, state: SessionState, events: seq<SessionEventKind>, status: StopStatus): Session {
    s.(state := state, log := s.log + events + [SessionStop(status)])
  }

  predicate HeartbeatLost(cfg: Config, t: Tick) { cfg.heartbeatS > 0 && t.idleS >= cfg.heartbeatS }

  /** The extension poll and the periodic snapshot. */
  function Housekeeping(s: Session, t: Tick): Session {
    var s1 := if t.extension.Some? then AfterExtension(s, t.extension.value) else s;
    if t.snapshotDue then s1.(log := s1.log + [Snapshot(s1, t.elapsedS)]) else s1
  }

  ghost function Serve(cfg: Config, s: Session, t: Tick): (Session, LoopExit) {
    match t.accept
    case NoConnection => (s, Continue)
    case WrongPeer => (s, Continue)
    case AcceptFailed => (s, Failed)
    case Connection(lines) => AfterLines(cfg, s, lines)
  }

  ghost function AfterTick(cfg: Config, s: Session, t: Tick): (Session, LoopExit) {
    if t.killed then (Stop(s, Exhausted, [BudgetExhausted(AgentOutputBytes)], StatusBudgetExhausted), Finished)
    else if t.agent.Exited? then (Stop(s, Stopped, [], StatusStopped), Finished)
    else if t.agent.PollFailed? then (s, Failed)
    else if t.elapsedS >= s.budget.maxWallTimeS then (Stop(s, TimedOut, [], StatusTimedOut), Finished)
    else if HeartbeatLost(cfg, t) then
      (Stop(s, Stopped, [HeartbeatTimeout(t.idleS, cfg.heartbeatS)], StatusHeartbeatTimeout), Finished)
    else Serve(cfg, Housekeeping(s, t), t)
  }

  ghost function AfterTicks(cfg: Config, s: Session, ticks: seq<Tick>): (Session, LoopExit)
    decreases |ticks|
  {
    if ticks == [] then (s, Continue)
    else
      var (s1, exit) := AfterTick(cfg, s, ticks[0]);
      if exit == Continue then AfterTicks(cfg, s1, ticks[1..]) else (s1, exit)
  }

  // ---- A whole session ----

  function Started(budget: Budget, command: seq<string>): Session {
    Session(Running, budget, Used(0, 0, 0), Warned(false, false, false), [SessionStart(command)], [])
  }

  /** A session that ran through `ticks`; a loop error is turned into a stop event. */
  ghost function RunSession(cfg: Config, budget: Budget, command: seq<string>, ticks: seq<Tick>, error: string)
    : (Session, LoopExit)
  {
    var (s, exit) := AfterTicks(cfg, Started(budget, command), ticks);
    if exit == Failed then (Stop(s, Stopped, [], StatusError(error)), Failed) else (s, exit)
  }
}
