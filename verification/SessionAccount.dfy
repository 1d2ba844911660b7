// What a session amounts to when it is told from its requests: the list of admitted requests, the limits in
// force and a transcript. Counters are plain sums over that list, and every event has its condition written
// out. The supervisor agrees with this account in every session.
module SessionAccount {
  import opened Common
  import opened EventLog
  import opened SessionModel
  import ToolFilter

  /** `spent` says that a request was turned away for lack of budget and no extension made up for it yet. */
  datatype Account = Account(
    admitted: seq<Request>, limits: Budget, warned: set<BudgetName>, spent: bool, log: seq<SessionEventKind>)

  // ---- Sums over the requests that were served ----

  /** An admitted request is served without error. */
  predicate Succeeds(cfg: Config, r: Request) { cfg.maxConcurrentTools > 0 && r.runnerReady && r.outcome.RunDone? }

  /** The sizes of the artifacts that reached the session directory. */
  function CopiedSizes(artifacts: seq<Artifact>): nat {
    if artifacts == [] then 0
    else
      var last := artifacts[|artifacts| - 1];
      CopiedSizes(artifacts[..|artifacts| - 1]) + (if last.copied then last.size else 0)
  }

  function Calls(cfg: Config, rs: seq<Request>): nat {
    if rs == [] then 0 else Calls(cfg, rs[..|rs| - 1]) + (if Succeeds(cfg, rs[|rs| - 1]) then 1 else 0)
  }

  function Millis(cfg: Config, rs: seq<Request>): nat {
    if rs == [] then 0
    else
      Millis(cfg, rs[..|rs| - 1]) + (if Succeeds(cfg, rs[|rs| - 1]) then rs[|rs| - 1].outcome.durationMs else 0)
  }

  function Copied(cfg: Config, rs: seq<Request>): nat {
    if rs == [] then 0
    else
      Copied(cfg, rs[..|rs| - 1]) +
      (if Succeeds(cfg, rs[|rs| - 1]) then CopiedSizes(rs[|rs| - 1].outcome.artifacts) else 0)
  }

  // ---- The gates, each written out ----

  /** Two dots between slashes or ends. */
  predicate Climbs(path: string) {
    exists i :: 0 <= i <= |path| - 2 && DotsAt(path, i)
  }

  predicate DotsAt(path: string, i: nat)
    requires i + 2 <= |path|
  {
    && path[i] == '.' && path[i + 1] == '.'
    && (i == 0 || path[i - 1] == '/') && (i + 2 == |path| || path[i + 2] == '/')
  }

  predicate Proper(r: Request) {
    && r.id != "" && Utf8Len(r.id) <= 256 && r.id[0] != '/' && !Climbs(r.id)
    && (forall i :: 0 <= i < |r.id| ==> r.id[i] != '\0' && r.id[i] != '\n' && r.id[i] != '\r')
    && r.command != []
  }

  /** No deny pattern matches, and an allow pattern does unless there are none. */
  ghost predicate Permits(filter: Option<ToolFilter.Filter>, name: string) {
    filter.Some? ==>
      && (forall i :: 0 <= i < |filter.value.deny| ==> !ToolFilter.Denotes(filter.value.deny[i], name))
      && (|filter.value.allow| > 0 ==>
            exists i :: 0 <= i < |filter.value.allow| && ToolFilter.Denotes(filter.value.allow[i], name))
  }

  predicate CallsLeft(cfg: Config, a: Account) { Calls(cfg, a.admitted) % U32_LIMIT < a.limits.maxToolCalls }

  predicate TimeLeft(cfg: Config, a: Account) {
    Millis(cfg, a.admitted) % U64_LIMIT / 1000 < a.limits.maxToolTimeS
  }

  predicate BytesLeft(cfg: Config, a: Account) { Copied(cfg, a.admitted) % U64_LIMIT < a.limits.maxOutputBytes }

  predicate ReachesFilter(cfg: Config, a: Account, r: Request) {
    Proper(r) && CallsLeft(cfg, a) && r.inputsStaged
  }

  ghost predicate ReachesApproval(cfg: Config, a: Account, r: Request) {
    ReachesFilter(cfg, a, r) && Permits(cfg.filter, ToolFilter.Basename(r.command[0]))
  }

  ghost predicate ReachesBudget(cfg: Config, a: Account, r: Request) {
    ReachesApproval(cfg, a, r) && (cfg.approval ==> r.approved)
  }

  /** The request passes every gate. */
  ghost predicate Admits(cfg: Config, a: Account, r: Request) {
    ReachesBudget(cfg, a, r) && TimeLeft(cfg, a) && BytesLeft(cfg, a)
  }

  // ---- One request ----

  function When(condition: bool, event: SessionEventKind): seq<SessionEventKind> {
    if condition then [event] else []
  }

  predicate DueCalls(cfg: Config, a: Account, at: Thresholds) {
    Calls(cfg, a.admitted) % U32_LIMIT >= at.calls && Calls(cfg, a.admitted) % U32_LIMIT > 0 && ToolCalls !in a.warned
  }

  predicate DueTime(cfg: Config, a: Account, at: Thresholds) {
    Millis(cfg, a.admitted) % U64_LIMIT >= at.timeMs && ToolTime !in a.warned
  }

  predicate DueBytes(cfg: Config, a: Account, at: Thresholds) {
    Copied(cfg, a.admitted) % U64_LIMIT >= at.bytes && OutputBytes !in a.warned
  }

  function Cautions(cfg: Config, a: Account, at: Thresholds): seq<SessionEventKind> {
    When(DueCalls(cfg, a, at),
         BudgetWarning(ToolCalls, Calls(cfg, a.admitted) % U32_LIMIT, a.limits.maxToolCalls)) +
    When(DueTime(cfg, a, at),
         BudgetWarning(ToolTime, Millis(cfg, a.admitted) % U64_LIMIT / 1000, a.limits.maxToolTimeS)) +
    When(DueBytes(cfg, a, at),
         BudgetWarning(OutputBytes, Copied(cfg, a.admitted) % U64_LIMIT, a.limits.maxOutputBytes))
  }

  /** The names warned about. */
  function Named(events: seq<SessionEventKind>): set<BudgetName> {
    set e | e in events && e.BudgetWarning? :: e.budgetName
  }

  /** A run that got a slot and a runner leaves a result, failed or not. */
  function Result(cfg: Config, r: Request): seq<SessionEventKind> {
    if cfg.maxConcurrentTools == 0 || !r.runnerReady then []
    else if r.outcome.RunDone? then [ToolResult(r.id, r.outcome.runId, r.outcome.exitCode, r.outcome.traceHash)]
    else [ToolResult(r.id, "", -1, None)]
  }

  ghost function Refused(cfg: Config, a: Account, r: Request): seq<SessionEventKind> {
    When(Proper(r) && !CallsLeft(cfg, a), BudgetExhausted(ToolCalls)) +
    When(ReachesFilter(cfg, a, r) && !ReachesApproval(cfg, a, r), ToolDenied(r.id, r.command))
  }

  ghost function Asked(cfg: Config, a: Account, r: Request): seq<SessionEventKind> {
    When(ReachesApproval(cfg, a, r) && cfg.approval, ApprovalRequired(r.id, r.command, r.approved))
  }

  ghost function RunOut(cfg: Config, a: Account, r: Request): seq<SessionEventKind> {
    When(ReachesBudget(cfg, a, r) && !TimeLeft(cfg, a), BudgetExhausted(ToolTime)) +
    When(ReachesBudget(cfg, a, r) && TimeLeft(cfg, a) && !BytesLeft(cfg, a), BudgetExhausted(OutputBytes))
  }

  ghost function Says(cfg: Config, a: Account, r: Request): seq<SessionEventKind> {
    Refused(cfg, a, r) + Asked(cfg, a, r) + RunOut(cfg, a, r) +
    if Admits(cfg, a, r) then Cautions(cfg, a, r.warnAt) + [ToolDispatch(r.id, r.command)] + Result(cfg, r) else []
  }

  ghost predicate Exhausts(cfg: Config, a: Account, r: Request) {
    || (Proper(r) && !CallsLeft(cfg, a))
    || (ReachesBudget(cfg, a, r) && !(TimeLeft(cfg, a) && BytesLeft(cfg, a)))
  }

  ghost function Handled(cfg: Config, a: Account, r: Request): Account {
    Account(if Admits(cfg, a, r) then a.admitted + [r] else a.admitted, a.limits,
            if Admits(cfg, a, r) then a.warned + Named(Cautions(cfg, a, r.warnAt)) else a.warned,
            a.spent || Exhausts(cfg, a, r), a.log + Says(cfg, a, r))
  }

  // ---- Extensions, connections, turns ----

  function Min(x: nat, y: nat): nat { if x < y then x else y }

  /** Each limit grows by what was added, up to the largest number it can hold. */
  function Raised(b: Budget, e: Extension): Budget {
    Budget(Min(b.maxToolCalls + e.addToolCalls, U32_LIMIT - 1), Min(b.maxWallTimeS + e.addWallTimeS, U64_LIMIT - 1),
           Min(b.maxToolTimeS + e.addToolTimeS, U64_LIMIT - 1), Min(b.maxOutputBytes + e.addOutputBytes, U64_LIMIT - 1))
  }

  function Grants(b: Budget, e: Extension): seq<SessionEventKind> {
    var b' := Raised(b, e);
    When(e.addToolCalls > 0, BudgetExtension(ToolCalls, b'.maxToolCalls, b.maxToolCalls)) +
    When(e.addWallTimeS > 0, BudgetExtension(WallTime, b'.maxWallTimeS, b.maxWallTimeS)) +
    When(e.addToolTimeS > 0, BudgetExtension(ToolTime, b'.maxToolTimeS, b.maxToolTimeS)) +
    When(e.addOutputBytes > 0, BudgetExtension(OutputBytes, b'.maxOutputBytes, b.maxOutputBytes))
  }

  function Topped(cfg: Config, a: Account, e: Extension): Account {
    var a' := a.(limits := Raised(a.limits, e), log := a.log + Grants(a.limits, e));
    a'.(spent := a.spent && !(CallsLeft(cfg, a') && TimeLeft(cfg, a') && BytesLeft(cfg, a')))
  }

  /** The periodic reading of the counters. */
  function Reading(cfg: Config, a: Account, elapsedS: nat): SessionEventKind {
    ResourceSnapshot(elapsedS, Calls(cfg, a.admitted) % U32_LIMIT, Millis(cfg, a.admitted) % U64_LIMIT / 1000,
                     Copied(cfg, a.admitted) % U64_LIMIT)
  }

  function Polled(cfg: Config, a: Account, t: Tick): Account {
    var a' := if t.extension.Some? then Topped(cfg, a, t.extension.value) else a;
    a'.(log := a'.log + When(t.snapshotDue, Reading(cfg, a', t.elapsedS)))
  }

  /** A line that is handled: there is time left and it is not too long. */
  predicate InTime(a: Account, l: TimedLine) { l.elapsedS < a.limits.maxWallTimeS && !l.line.Oversized? }

  /** The account behind a connection, and whether every response could be written. */
  ghost function HandledLines(cfg: Config, a: Account, lines: seq<TimedLine>): (Account, bool)
    decreases |lines|
  {
    if lines == [] || !InTime(a, lines[0]) then (a, true)
    else if !lines[0].line.Call? then HandledLines(cfg, a, lines[1..])
    else if lines[0].line.responseWritten then HandledLines(cfg, Handled(cfg, a, lines[0].line.request), lines[1..])
    else (Handled(cfg, a, lines[0].line.request), false)
  }

  /** Why a session ended. */
  datatype Ending = Open | TooMuchOutput | AgentLeft | OutOfTime | AgentSilent(idleS: nat) | Broken

  /** What ends the session at the start of this turn, if anything does; the kill flag is looked at first. */
  function EndsBefore(cfg: Config, a: Account, t: Tick): Ending {
    if t.killed then TooMuchOutput
    else if t.agent.Exited? then AgentLeft
    else if t.agent.PollFailed? then Broken
    else if a.limits.maxWallTimeS <= t.elapsedS then OutOfTime
    else if 0 < cfg.heartbeatS <= t.idleS then AgentSilent(t.idleS)
    else Open
  }

  ghost function Turned(cfg: Config, a: Account, t: Tick): (Account, Ending) {
    var ending := EndsBefore(cfg, a, t);
    if ending != Open then (a, ending)
    else
      var a' := Polled(cfg, a, t);
      if t.accept.AcceptFailed? then (a', Broken)
      else if t.accept.Connection? then
        var (a'', written) := HandledLines(cfg, a', t.accept.lines);
        (a'', if written then Open else Broken)
      else (a', Open)
  }

  ghost function TurnedAll(cfg: Config, a: Account, ticks: seq<Tick>): (Account, Ending)
    decreases |ticks|
  {
    if ticks == [] then (a, Open)
    else
      var (a', ending) := Turned(cfg, a, ticks[0]);
      if ending == Open then TurnedAll(cfg, a', ticks[1..]) else (a', ending)
  }

  function Opened(budget: Budget, command: seq<string>): Account {
    Account([], budget, {}, false, [SessionStart(command)])
  }

  /** The last events of a session, its state and how the loop returned. */
  function Closing(cfg: Config, ending: Ending, error: string): seq<SessionEventKind> {
    match ending
    case Open => []
    case TooMuchOutput => [BudgetExhausted(AgentOutputBytes), SessionStop(StatusBudgetExhausted)]
    case AgentLeft => [SessionStop(StatusStopped)]
    case OutOfTime => [SessionStop(StatusTimedOut)]
    case AgentSilent(idleS) => [HeartbeatTimeout(idleS, cfg.heartbeatS), SessionStop(StatusHeartbeatTimeout)]
    case Broken => [SessionStop(StatusError(error))]
  }

  function FinalState(a: Account, ending: Ending): SessionState {
    match ending
    case Open => if a.spent then Exhausted else Running
    case TooMuchOutput => Exhausted
    case OutOfTime => TimedOut
    case _ => Stopped
  }

  function FinalExit(ending: Ending): LoopExit {
    if ending == Open then Continue else if ending == Broken then Failed else Finished
  }

  // ---- Agreement ----

  function WarnedOf(names: set<BudgetName>): Warned {
    Warned(ToolCalls in names, ToolTime in names, OutputBytes in names)
  }

  function UsedOf(cfg: Config, a: Account): Used {
    Used(Calls(cfg, a.admitted) % U32_LIMIT, Millis(cfg, a.admitted) % U64_LIMIT, Copied(cfg, a.admitted) % U64_LIMIT)
  }

  /** The session is in the state the account tells. */
  predicate Agrees(cfg: Config, a: Account, s: Session) {
    && s.state == (if a.spent then Exhausted else Running)
    && s.budget == a.limits && s.used == UsedOf(cfg, a) && s.warned == WarnedOf(a.warned) && s.log == a.log
  }

  lemma {:induction false} CopiedSame(artifacts: seq<Artifact>)
    ensures CopiedBytes(artifacts) == CopiedSizes(artifacts)
  {
    if artifacts == [] {
    } else {
      var n := |artifacts| - 1;
      CopiedSame(artifacts[..n]);
      CopiedAppend(artifacts[..n], artifacts[n]);
      assert artifacts[..n] + [artifacts[n]] == artifacts;
    }
  }

  // ---- The call id ----

  lemma DotsSegment(path: string)
    requires '/' !in path
    ensures ToolFilter.Segments(path) == (if path == "" then [] else [path])
    ensures Climbs(path) <==> path == ".."
  {
    assert ToolFilter.SlashIndex(path) == |path| && path[..|path|] == path;
    if path == ".." { assert DotsAt(path, 0); }
  }

  lemma DotsSplit(head: string, tail: string)
    requires '/' !in head
    ensures Climbs(head + ['/'] + tail) <==> head == ".." || Climbs(tail)
  {
    var path, n := head + ['/'] + tail, |head| + 1;
    assert path[|head|] == '/';
    if head == ".." { assert DotsAt(path, 0); }
    if j :| 0 <= j <= |tail| - 2 && DotsAt(tail, j) {
      assert path[n + j] == tail[j] && path[n + j + 1] == tail[j + 1];
      assert DotsAt(path, n + j);
    }
    if i :| 0 <= i <= |path| - 2 && DotsAt(path, i) {
      if i >= n {
        assert DotsAt(tail, i - n);
      } else {
        HeadDots(head, tail, i);
      }
    }
  }

  lemma HeadDots(head: string, tail: string, i: nat)
    requires '/' !in head && i <= |head| && i + 2 <= |head + ['/'] + tail| && DotsAt(head + ['/'] + tail, i)
    ensures head == ".."
  {
    var path := head + ['/'] + tail;
    assert path[|head|] == '/' && forall k :: 0 <= k < |head| ==> path[k] == head[k];
    assert i == 0;
    assert |head| == 2;
  }

  lemma {:induction false} ClimbsExactly(path: string)
    ensures Climbs(path) <==> ".." in ToolFilter.Segments(path)
    decreases |path|
  {
    var cut := ToolFilter.SlashIndex(path);
    if cut == |path| {
      assert path[..cut] == path;
      DotsSegment(path);
    } else {
      var head, tail := path[..cut], path[cut + 1..];
      assert path == head + ['/'] + tail;
      DotsSplit(head, tail);
      ClimbsExactly(tail);
    }
  }

  lemma ProperExactly(r: Request)
    ensures Proper(r) <==> ValidCallId(r.id) && r.command != []
  {
    ClimbsExactly(r.id);
  }

  // ---- One request ----

  lemma SumsOfOneMore(cfg: Config, rs: seq<Request>, r: Request)
    ensures Calls(cfg, rs + [r]) == Calls(cfg, rs) + (if Succeeds(cfg, r) then 1 else 0)
    ensures Millis(cfg, rs + [r]) == Millis(cfg, rs) + (if Succeeds(cfg, r) then r.outcome.durationMs else 0)
    ensures Copied(cfg, rs + [r]) ==
              Copied(cfg, rs) + (if Succeeds(cfg, r) then CopiedSizes(r.outcome.artifacts) else 0)
  {
    assert (rs + [r])[..|rs + [r]| - 1] == rs;
  }

  /** The gates in a row are the first verdict that stops a request. */
  lemma GatesExactly(cfg: Config, a: Account, s: Session, r: Request)
    requires Agrees(cfg, a, s)
    ensures var v := VerdictOf(cfg, s, r);
            && (Admits(cfg, a, r) <==> Dispatched(v))
            && (Admits(cfg, a, r) && Succeeds(cfg, r) <==> v.ToolDone?)
            && (Exhausts(cfg, a, r) <==> v.OverCalls? || v.OverTime? || v.OverBytes?)
            && (Proper(r) && !CallsLeft(cfg, a) <==> v.OverCalls?)
            && (ReachesFilter(cfg, a, r) && !ReachesApproval(cfg, a, r) <==> v.Denied?)
            && (ReachesApproval(cfg, a, r) <==> Dispatched(v) || v.NotApproved? || v.OverTime? || v.OverBytes?)
            && (ReachesBudget(cfg, a, r) && !TimeLeft(cfg, a) <==> v.OverTime?)
            && (ReachesBudget(cfg, a, r) && TimeLeft(cfg, a) && !BytesLeft(cfg, a) <==> v.OverBytes?)
  {
    ProperExactly(r);
    if r.command != [] { PermitsExactly(cfg, r.command[0]); }
  }

  lemma PermitsExactly(cfg: Config, command: string)
    ensures Permits(cfg.filter, ToolFilter.Basename(command)) <==> Allowed(cfg, command)
  {
  }

  lemma CautionsExactly(cfg: Config, a: Account, s: Session, at: Thresholds)
    requires Agrees(cfg, a, s)
    ensures Cautions(cfg, a, at) == Warnings(s, at)
    ensures WarnedOf(a.warned + Named(Cautions(cfg, a, at))) == WarnedAfter(s, at)
  {
    var w := Cautions(cfg, a, at);
    assert ToolCalls in Named(w) <==> DueCalls(cfg, a, at);
    assert ToolTime in Named(w) <==> DueTime(cfg, a, at);
    assert OutputBytes in Named(w) <==> DueBytes(cfg, a, at);
  }

  /** Two blocks, one of which is empty. */
  lemma OneOf(x: seq<SessionEventKind>, y: seq<SessionEventKind>)
    ensures x == [] ==> x + y == y
    ensures y == [] ==> x + y == x
  {
  }

  lemma AdmittedSays(cfg: Config, a: Account, r: Request)
    requires Admits(cfg, a, r)
    ensures Says(cfg, a, r) ==
              ApprovalEvents(cfg, r) + Cautions(cfg, a, r.warnAt) + [ToolDispatch(r.id, r.command)] + Result(cfg, r)
  {
    var asked, warns, said := Asked(cfg, a, r), Cautions(cfg, a, r.warnAt), [ToolDispatch(r.id, r.command)];
    assert Refused(cfg, a, r) == [] && RunOut(cfg, a, r) == [] && asked == ApprovalEvents(cfg, r);
    OneOf([], asked);
    OneOf(asked, []);
    Associative(asked, warns + said, Result(cfg, r));
    Associative(asked, warns, said);
  }

  lemma AdmittedEvents(cfg: Config, s: Session, r: Request)
    requires Dispatched(VerdictOf(cfg, s, r))
    ensures EventsOf(cfg, s, r) == Preamble(cfg, s, r) + Result(cfg, r)
  {
    OneOf(Preamble(cfg, s, r), []);
  }

  lemma TurnedAwaySays(cfg: Config, a: Account, s: Session, r: Request)
    requires Agrees(cfg, a, s) && !Admits(cfg, a, r)
    ensures Says(cfg, a, r) == EventsOf(cfg, s, r)
  {
    GatesExactly(cfg, a, s, r);
    var refused, asked, out := Refused(cfg, a, r), Asked(cfg, a, r), RunOut(cfg, a, r);
    OneOf(refused, asked);
    OneOf(refused + asked, out);
    OneOf(refused + asked + out, []);
  }

  lemma SaysExactly(cfg: Config, a: Account, s: Session, r: Request)
    requires Agrees(cfg, a, s)
    ensures Says(cfg, a, r) == EventsOf(cfg, s, r)
  {
    if Admits(cfg, a, r) {
      GatesExactly(cfg, a, s, r);
      CautionsExactly(cfg, a, s, r.warnAt);
      AdmittedSays(cfg, a, r);
      AdmittedEvents(cfg, s, r);
    } else {
      TurnedAwaySays(cfg, a, s, r);
    }
  }

  lemma ChargedExactly(cfg: Config, a: Account, s: Session, r: Request)
    requires Agrees(cfg, a, s) && Succeeds(cfg, r)
    ensures Charged(s.used, ChargeOf(r.outcome)) == UsedOf(cfg, a.(admitted := a.admitted + [r]))
  {
    SumsOfOneMore(cfg, a.admitted, r);
    CopiedSame(r.outcome.artifacts);
    OneMoreCall(Calls(cfg, a.admitted));
    WrapsTwice(Millis(cfg, a.admitted), r.outcome.durationMs);
    WrapsTwice(Copied(cfg, a.admitted), CopiedSizes(r.outcome.artifacts));
    assert ChargeOf(r.outcome).durationMs % U64_LIMIT == r.outcome.durationMs;
  }

  lemma OneMoreCall(n: nat)
    ensures (n % U32_LIMIT + 1) % U32_LIMIT == (n + 1) % U32_LIMIT
  {
  }

  lemma WrapsTwice(x: nat, y: nat)
    ensures WrapAdd64(x % U64_LIMIT, y % U64_LIMIT) == (x + y) % U64_LIMIT
  {
  }

  lemma HandledAgrees(cfg: Config, a: Account, s: Session, r: Request)
    requires Agrees(cfg, a, s)
    ensures Agrees(cfg, Handled(cfg, a, r), AfterDispatch(cfg, s, r))
  {
    GatesExactly(cfg, a, s, r);
    SaysExactly(cfg, a, s, r);
    if Admits(cfg, a, r) {
      CautionsExactly(cfg, a, s, r.warnAt);
      SumsOfOneMore(cfg, a.admitted, r);
      if Succeeds(cfg, r) { ChargedExactly(cfg, a, s, r); }
    }
  }

  // ---- Turns ----

  lemma RaisedExactly(b: Budget, e: Extension)
    ensures Extended(b, e) == Raised(b, e) && ExtensionEvents(b, e) == Grants(b, e)
  {
  }

  lemma ToppedAgrees(cfg: Config, a: Account, s: Session, e: Extension)
    requires Agrees(cfg, a, s)
    ensures Agrees(cfg, Topped(cfg, a, e), AfterExtension(s, e))
  {
    RaisedExactly(s.budget, e);
  }

  lemma PolledAgrees(cfg: Config, a: Account, s: Session, t: Tick)
    requires Agrees(cfg, a, s)
    ensures Agrees(cfg, Polled(cfg, a, t), Housekeeping(s, t))
  {
    if t.extension.Some? { ToppedAgrees(cfg, a, s, t.extension.value); }
    var a' := if t.extension.Some? then Topped(cfg, a, t.extension.value) else a;
    assert a'.log + [] == a'.log;
  }

  lemma {:induction false} LinesAgree(cfg: Config, a: Account, s: Session, lines: seq<TimedLine>)
    requires Agrees(cfg, a, s)
    ensures var (a', written) := HandledLines(cfg, a, lines);
            var (s', exit) := AfterLines(cfg, s, lines);
            Agrees(cfg, a', s') && exit == if written then Continue else Failed
    decreases |lines|
  {
    if lines == [] || !InTime(a, lines[0]) {
    } else if lines[0].line.Call? {
      var r := lines[0].line.request;
      HandledAgrees(cfg, a, s, r);
      LinesAgree(cfg, Handled(cfg, a, r), AfterDispatch(cfg, s, r), lines[1..]);
    } else {
      LinesAgree(cfg, a, s, lines[1..]);
    }
  }

  /** The session after a turn: as the account tells while it is open, closed in its own way otherwise. */
  ghost predicate Ends(cfg: Config, a: Account, ending: Ending, s: Session, exit: LoopExit) {
    if ending == Open || ending == Broken then
      Agrees(cfg, a, s) && exit == (if ending == Open then Continue else Failed)
    else
      && exit == Finished && s.state == FinalState(a, ending) && s.log == a.log + Closing(cfg, ending, "")
      && s.budget == a.limits && s.used == UsedOf(cfg, a) && s.warned == WarnedOf(a.warned)
  }

  lemma StopsAs(cfg: Config, a: Account, s: Session, ending: Ending, events: seq<SessionEventKind>, status: StopStatus)
    requires Agrees(cfg, a, s) && ending != Open && ending != Broken
    requires Closing(cfg, ending, "") == events + [SessionStop(status)]
    ensures Ends(cfg, a, ending, Stop(s, FinalState(a, ending), events, status), Finished)
  {
    Associative(s.log, events, [SessionStop(status)]);
  }

  lemma TurnAgrees(cfg: Config, a: Account, s: Session, t: Tick)
    requires Agrees(cfg, a, s)
    ensures var (a', ending) := Turned(cfg, a, t);
            var (s', exit) := AfterTick(cfg, s, t);
            Ends(cfg, a', ending, s', exit)
  {
    match EndsBefore(cfg, a, t)
    case TooMuchOutput => StopsAs(cfg, a, s, TooMuchOutput, [BudgetExhausted(AgentOutputBytes)], StatusBudgetExhausted);
    case AgentLeft => StopsAs(cfg, a, s, AgentLeft, [], StatusStopped);
    case OutOfTime => StopsAs(cfg, a, s, OutOfTime, [], StatusTimedOut);
    case AgentSilent(idleS) =>
      StopsAs(cfg, a, s, AgentSilent(idleS), [HeartbeatTimeout(idleS, cfg.heartbeatS)], StatusHeartbeatTimeout);
    case Broken =>
    case Open =>
      PolledAgrees(cfg, a, s, t);
      if t.accept.Connection? { LinesAgree(cfg, Polled(cfg, a, t), Housekeeping(s, t), t.accept.lines); }
  }

  lemma {:induction false} TurnsAgree(cfg: Config, a: Account, s: Session, ticks: seq<Tick>)
    requires Agrees(cfg, a, s)
    ensures var (a', ending) := TurnedAll(cfg, a, ticks);
            var (s', exit) := AfterTicks(cfg, s, ticks);
            Ends(cfg, a', ending, s', exit)
    decreases |ticks|
  {
    if ticks == [] {
    } else {
      TurnAgrees(cfg, a, s, ticks[0]);
      var (a', ending) := Turned(cfg, a, ticks[0]);
      if ending == Open { TurnsAgree(cfg, a', AfterTick(cfg, s, ticks[0]).0, ticks[1..]); }
    }
  }

  // ---- Whole sessions ----

  /**
   * For every agent, operator and clock: the counters are the sums over the requests served, the limits are the
   * given ones with every extension added, the log is the transcript, and the session ends for the first of
   * the reasons to end that comes up.
   */
  lemma EverySessionAccounted(cfg: Config, budget: Budget, command: seq<string>, ticks: seq<Tick>, error: string)
    ensures var (s, exit) := RunSession(cfg, budget, command, ticks, error);
            var (a, ending) := TurnedAll(cfg, Opened(budget, command), ticks);
            && s.used.toolCalls == Calls(cfg, a.admitted) % U32_LIMIT
            && s.used.toolTimeMs == Millis(cfg, a.admitted) % U64_LIMIT
            && s.used.outputBytes == Copied(cfg, a.admitted) % U64_LIMIT
            && s.budget == a.limits
            && s.log == a.log + Closing(cfg, ending, error)
            && s.state == FinalState(a, ending) && exit == FinalExit(ending)
  {
    assert Agrees(cfg, Opened(budget, command), Started(budget, command));
    TurnsAgree(cfg, Opened(budget, command), Started(budget, command), ticks);
    var (a, ending) := TurnedAll(cfg, Opened(budget, command), ticks);
    if ending == Open { OneOf(a.log, []); }
    if ending == Broken { Associative(a.log, [], [SessionStop(StatusError(error))]); OneOf(a.log, []); }
  }

  // ---- What the log says about the gates ----

  /** A dispatched command is one the filter permits, and the operator approved it before if asked. */
  ghost predicate Vetted(cfg: Config, log: seq<SessionEventKind>, i: nat)
    requires i < |log| && log[i].ToolDispatch?
  {
    && log[i].command != [] && Permits(cfg.filter, ToolFilter.Basename(log[i].command[0]))
    && (cfg.approval ==> exists j :: 0 <= j < i && log[j] == ApprovalRequired(log[i].callId, log[i].command, true))
  }

  ghost predicate AllVetted(cfg: Config, log: seq<SessionEventKind>) {
    forall i :: 0 <= i < |log| && log[i].ToolDispatch? ==> Vetted(cfg, log, i)
  }

  lemma VettedAppend(cfg: Config, a: seq<SessionEventKind>, b: seq<SessionEventKind>)
    requires AllVetted(cfg, a) && AllVetted(cfg, b)
    ensures AllVetted(cfg, a + b)
  {
    var log := a + b;
    forall i | 0 <= i < |log| && log[i].ToolDispatch? ensures Vetted(cfg, log, i) {
      if i < |a| {
        assert Vetted(cfg, a, i);
        if cfg.approval {
          var j :| 0 <= j < i && a[j] == ApprovalRequired(a[i].callId, a[i].command, true);
          assert log[j] == a[j];
        }
      } else {
        assert Vetted(cfg, b, i - |a|);
        if cfg.approval {
          var j :| 0 <= j < i - |a| && b[j] == ApprovalRequired(b[i - |a|].callId, b[i - |a|].command, true);
          assert log[|a| + j] == b[j];
        }
      }
    }
  }

  predicate NoDispatch(events: seq<SessionEventKind>) { forall i :: 0 <= i < |events| ==> !events[i].ToolDispatch? }

  lemma DispatchVetted(cfg: Config, before: seq<SessionEventKind>, r: Request)
    requires r.command != [] && Permits(cfg.filter, ToolFilter.Basename(r.command[0])) && NoDispatch(before)
    requires cfg.approval ==> before != [] && before[0] == ApprovalRequired(r.id, r.command, true)
    ensures AllVetted(cfg, before + [ToolDispatch(r.id, r.command)])
  {
    var said := before + [ToolDispatch(r.id, r.command)];
    if cfg.approval { assert said[0] == before[0]; }
    assert Vetted(cfg, said, |before|);
  }

  lemma QuietAppend(a: seq<SessionEventKind>, b: seq<SessionEventKind>)
    requires NoDispatch(a) && NoDispatch(b)
    ensures NoDispatch(a + b)
  {
  }

  lemma QuietRefusal(cfg: Config, a: Account, r: Request)
    ensures NoDispatch(Refused(cfg, a, r) + Asked(cfg, a, r) + RunOut(cfg, a, r))
  {
    assert NoDispatch(Refused(cfg, a, r));
    assert NoDispatch(RunOut(cfg, a, r));
    QuietAppend(Refused(cfg, a, r), Asked(cfg, a, r));
    QuietAppend(Refused(cfg, a, r) + Asked(cfg, a, r), RunOut(cfg, a, r));
  }

  lemma QuietBefore(cfg: Config, a: Account, r: Request)
    ensures NoDispatch(ApprovalEvents(cfg, r) + Cautions(cfg, a, r.warnAt))
  {
    assert NoDispatch(Cautions(cfg, a, r.warnAt));
    QuietAppend(ApprovalEvents(cfg, r), Cautions(cfg, a, r.warnAt));
  }

  lemma SaysVetted(cfg: Config, a: Account, r: Request)
    ensures AllVetted(cfg, Says(cfg, a, r))
  {
    if Admits(cfg, a, r) {
      AdmittedSays(cfg, a, r);
      QuietBefore(cfg, a, r);
      var before := ApprovalEvents(cfg, r) + Cautions(cfg, a, r.warnAt);
      DispatchVetted(cfg, before, r);
      VettedAppend(cfg, before + [ToolDispatch(r.id, r.command)], Result(cfg, r));
    } else {
      QuietRefusal(cfg, a, r);
      OneOf(Refused(cfg, a, r) + Asked(cfg, a, r) + RunOut(cfg, a, r), []);
    }
  }

  lemma {:induction false} LinesVetted(cfg: Config, a: Account, lines: seq<TimedLine>)
    requires AllVetted(cfg, a.log)
    ensures AllVetted(cfg, HandledLines(cfg, a, lines).0.log)
    decreases |lines|
  {
    if lines == [] || !InTime(a, lines[0]) {
    } else if lines[0].line.Call? {
      var r := lines[0].line.request;
      SaysVetted(cfg, a, r);
      VettedAppend(cfg, a.log, Says(cfg, a, r));
      LinesVetted(cfg, Handled(cfg, a, r), lines[1..]);
    } else {
      LinesVetted(cfg, a, lines[1..]);
    }
  }

  lemma PolledVetted(cfg: Config, a: Account, t: Tick)
    requires AllVetted(cfg, a.log)
    ensures AllVetted(cfg, Polled(cfg, a, t).log)
  {
    var a' := if t.extension.Some? then Topped(cfg, a, t.extension.value) else a;
    if t.extension.Some? { VettedAppend(cfg, a.log, Grants(a.limits, t.extension.value)); }
    VettedAppend(cfg, a'.log, When(t.snapshotDue, Reading(cfg, a', t.elapsedS)));
  }

  lemma {:induction false} TurnsVetted(cfg: Config, a: Account, ticks: seq<Tick>)
    requires AllVetted(cfg, a.log)
    ensures AllVetted(cfg, TurnedAll(cfg, a, ticks).0.log)
    decreases |ticks|
  {
    if ticks == [] {
    } else {
      var t := ticks[0];
      PolledVetted(cfg, a, t);
      if t.accept.Connection? { LinesVetted(cfg, Polled(cfg, a, t), t.accept.lines); }
      TurnsVetted(cfg, Turned(cfg, a, t).0, ticks[1..]);
    }
  }

  /**
   * Over every session: whatever was dispatched has a command whose name no deny pattern matches and, unless
   * the allow list is empty, an allow pattern does; and with approval on, the operator approved it before.
   */
  lemma DispatchesAreVetted(cfg: Config, budget: Budget, command: seq<string>, ticks: seq<Tick>, error: string)
    ensures AllVetted(cfg, RunSession(cfg, budget, command, ticks, error).0.log)
  {
    EverySessionAccounted(cfg, budget, command, ticks, error);
    var (a, ending) := TurnedAll(cfg, Opened(budget, command), ticks);
    TurnsVetted(cfg, Opened(budget, command), ticks);
    VettedAppend(cfg, a.log, Closing(cfg, ending, error));
  }

  /** Every gate open, in terms of the counters and limits as they are. */
  ghost predicate AllGatesOpen(cfg: Config, s: Session, r: Request) {
    && Proper(r) && s.used.toolCalls < s.budget.maxToolCalls && r.inputsStaged
    && Permits(cfg.filter, ToolFilter.Basename(r.command[0]))
    && (cfg.approval ==> r.approved)
    && s.used.toolTimeMs / 1000 < s.budget.maxToolTimeS && s.used.outputBytes < s.budget.maxOutputBytes
  }

  /** In any state, a request is dispatched if and only if it finds every gate open. */
  lemma DispatchedExactly(cfg: Config, s: Session, r: Request)
    ensures ToolDispatch(r.id, r.command) in AfterDispatch(cfg, s, r).log[|s.log|..] <==> AllGatesOpen(cfg, s, r)
  {
    ProperExactly(r);
    if r.command != [] { PermitsExactly(cfg, r.command[0]); }
    assert AfterDispatch(cfg, s, r).log[|s.log|..] == EventsOf(cfg, s, r);
    if Dispatched(VerdictOf(cfg, s, r)) {
      AdmittedEvents(cfg, s, r);
      var p := ApprovalEvents(cfg, r) + Warnings(s, r.warnAt);
      assert EventsOf(cfg, s, r)[|p|] == ToolDispatch(r.id, r.command);
    }
  }
}
