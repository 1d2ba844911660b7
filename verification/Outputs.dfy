// Collecting a run's output files under limits, and what that bounds in the session that ran it.
module Outputs {
  import opened Common
  import opened SessionModel
  import SessionSafety

  /** One entry of the output walk: `fstatSize` is what the check sees, `storedSize` what the store read. */
  datatype Entry =
    | WalkError
    | Entry(isFile: bool, opens: bool, regular: bool, fstatSize: u64, labelOk: bool, stores: bool, storedSize: u64)

  datatype Limits = Limits(maxFiles: u64, maxSingle: u64, maxTotal: u64)

  predicate Eligible(e: Entry, lim: Limits) {
    e.Entry? && e.isFile && e.regular && e.fstatSize <= lim.maxSingle
  }

  /** The eligible entries in front of position `n`, in order. */
  function Picks(entries: seq<Entry>, n: nat, lim: Limits): (picked: seq<nat>)
    requires n <= |entries|
    ensures forall k :: 0 <= k < |picked| ==> picked[k] < n && Eligible(entries[picked[k]], lim)
  {
    if n == 0 then []
    else Picks(entries, n - 1, lim) + (if Eligible(entries[n - 1], lim) then [n - 1] else [])
  }

  /** What the store read for them, together. */
  function StoredTotal(entries: seq<Entry>, n: nat, lim: Limits): nat
    requires n <= |entries|
  {
    if n == 0 then 0
    else StoredTotal(entries, n - 1, lim) + (if Eligible(entries[n - 1], lim) then entries[n - 1].storedSize else 0)
  }

  datatype Fate = Abort | Halt | Take | Ignore

  /** What happens at entry `i`, with everything eligible before it collected. */
  function Decide(entries: seq<Entry>, i: nat, lim: Limits): Fate
    requires i < |entries|
  {
    var e := entries[i];
    if e.WalkError? then Abort
    else if !e.isFile then Ignore
    else if |Picks(entries, i, lim)| >= lim.maxFiles then Halt
    else if !e.opens then Abort
    else if !Eligible(e, lim) then Ignore
    else if SaturatingAdd64(StoredTotal(entries, i, lim) % U64_LIMIT, e.fstatSize) > lim.maxTotal then Halt
    else if !e.labelOk || !e.stores then Abort
    else Take
  }

  /** Every entry in front of `n` was passed by. */
  predicate PassedBy(entries: seq<Entry>, n: nat, lim: Limits)
    requires n <= |entries|
  {
    forall i :: 0 <= i < n ==> Decide(entries, i, lim) == Take || Decide(entries, i, lim) == Ignore
  }

  /** The walk is left at `end`: there a limit is hit for the first time, or the entries are used up. */
  predicate EndsAt(entries: seq<Entry>, end: nat, lim: Limits) {
    end <= |entries| && PassedBy(entries, end, lim) && (end < |entries| ==> Decide(entries, end, lim) == Halt)
  }

  /** The files read are no longer than they were when they were measured. */
  predicate Steady(entries: seq<Entry>) {
    forall i :: 0 <= i < |entries| && entries[i].Entry? ==> entries[i].storedSize <= entries[i].fstatSize
  }

  /** `picked` are the indices collected, in order; `end` is where the walk was left. */
  datatype Outcome = Aborted | Collected(picked: seq<nat>, end: nat)

  lemma SumWraps(sum: nat, size: u64)
    ensures WrapAdd64(sum % U64_LIMIT, size) == (sum + size) % U64_LIMIT
  {
  }

  /** Collects exactly the eligible files in front of the first limit hit, or aborts at the first bad entry. */
  method CollectOutputs(entries: seq<Entry>, lim: Limits) returns (r: Outcome)
    ensures r.Collected? ==> EndsAt(entries, r.end, lim) && r.picked == Picks(entries, r.end, lim)
    ensures r.Collected? ==> |r.picked| <= lim.maxFiles
    ensures r.Aborted? ==>
              exists i :: 0 <= i < |entries| && PassedBy(entries, i, lim) && Decide(entries, i, lim) == Abort
  {
    var picked: seq<nat>, total: u64 := [], 0;
    var i := 0;
    while i < |entries|
      invariant i <= |entries| && picked == Picks(entries, i, lim) && |picked| <= lim.maxFiles
      invariant total == StoredTotal(entries, i, lim) % U64_LIMIT
      invariant PassedBy(entries, i, lim)
    {
      var e := entries[i];
      if e.WalkError? { return Aborted; }
      if e.isFile {
        if |picked| >= lim.maxFiles { return Collected(picked, i); }
        if !e.opens { return Aborted; }
        if e.regular && e.fstatSize <= lim.maxSingle {
          if SaturatingAdd64(total, e.fstatSize) > lim.maxTotal { return Collected(picked, i); }
          if !e.labelOk { return Aborted; }
          if !e.stores { return Aborted; }
          SumWraps(StoredTotal(entries, i, lim), e.storedSize);
          total := WrapAdd64(total, e.storedSize);
          picked := picked + [i];
        }
      }
      i := i + 1;
    }
    return Collected(picked, i);
  }

  // ---- What is collected ----

  /** What the store read for the files at these positions, together. */
  function SumStored(entries: seq<Entry>, at: seq<nat>): nat
    requires forall k :: 0 <= k < |at| ==> at[k] < |entries| && entries[at[k]].Entry?
  {
    if at == [] then 0 else SumStored(entries, at[..|at| - 1]) + entries[at[|at| - 1]].storedSize
  }

  lemma {:induction false} TotalIsSum(entries: seq<Entry>, n: nat, lim: Limits)
    requires n <= |entries|
    ensures StoredTotal(entries, n, lim) == SumStored(entries, Picks(entries, n, lim))
  {
    if n == 0 {
    } else {
      TotalIsSum(entries, n - 1, lim);
      var before, picked := Picks(entries, n - 1, lim), Picks(entries, n, lim);
      if Eligible(entries[n - 1], lim) {
        assert picked[..|picked| - 1] == before;
      } else {
        assert picked == before;
      }
    }
  }

  lemma {:induction false} PicksExactly(entries: seq<Entry>, n: nat, lim: Limits)
    requires n <= |entries|
    ensures Ascending(Picks(entries, n, lim), n)
    ensures forall i :: 0 <= i < n ==>
              (i in Picks(entries, n, lim) <==>
                 && entries[i].Entry? && entries[i].isFile && entries[i].regular
                 && entries[i].fstatSize <= lim.maxSingle)
  {
    if n == 0 {
    } else {
      PicksExactly(entries, n - 1, lim);
    }
  }

  /** One more file of this size passes the total limit, as the saturating 64-bit check has it. */
  predicate Overflows(total: nat, size: u64, lim: Limits) {
    total % U64_LIMIT + size > lim.maxTotal && lim.maxTotal < U64_LIMIT - 1
  }

  /** An entry that neither stops nor aborts the collection: a file is opened, and stored if it is wanted. */
  predicate Smooth(entries: seq<Entry>, i: nat, lim: Limits)
    requires i < |entries|
  {
    var e, picked := entries[i], Picks(entries, i, lim);
    && e.Entry?
    && (e.isFile ==> e.opens && |picked| < lim.maxFiles)
    && (e.isFile && e.regular && e.fstatSize <= lim.maxSingle ==>
          e.labelOk && e.stores && !Overflows(SumStored(entries, picked), e.fstatSize, lim))
  }

  lemma SmoothExactly(entries: seq<Entry>, i: nat, lim: Limits)
    requires i < |entries|
    ensures Decide(entries, i, lim) == Take || Decide(entries, i, lim) == Ignore <==> Smooth(entries, i, lim)
  {
    TotalIsSum(entries, i, lim);
  }

  /**
   * What a collection that ends at `end` has done: every entry before it went smoothly, the files collected are
   * exactly the regular files no larger than the single-file limit, and at `end` there is a file that is one too
   * many or too much for the total limit.
   */
  lemma CollectedExactly(entries: seq<Entry>, end: nat, lim: Limits)
    requires EndsAt(entries, end, lim)
    ensures var picked := Picks(entries, end, lim);
            && Ascending(picked, end)
            && (forall i :: 0 <= i < end ==>
                  && Smooth(entries, i, lim)
                  && (i in picked <==>
                        entries[i].isFile && entries[i].regular && entries[i].fstatSize <= lim.maxSingle))
            && (end < |entries| ==>
                  && entries[end].Entry? && entries[end].isFile
                  && (|picked| >= lim.maxFiles ||
                      (&& entries[end].opens && entries[end].regular && entries[end].fstatSize <= lim.maxSingle
                       && Overflows(SumStored(entries, picked), entries[end].fstatSize, lim))))
  {
    PicksExactly(entries, end, lim);
    forall i | 0 <= i < end ensures Smooth(entries, i, lim) {
      SmoothExactly(entries, i, lim);
    }
    TotalIsSum(entries, end, lim);
  }

  /** What aborts a collection: an entry that cannot be walked, or a file within all limits that cannot be had. */
  lemma AbortedExactly(entries: seq<Entry>, i: nat, lim: Limits)
    requires i < |entries|
    ensures var e, picked := entries[i], Picks(entries, i, lim);
            Decide(entries, i, lim) == Abort <==>
              || e.WalkError?
              || (&& e.isFile && |picked| < lim.maxFiles
                  && (|| !e.opens
                      || (&& e.regular && e.fstatSize <= lim.maxSingle && !(e.labelOk && e.stores)
                          && !Overflows(SumStored(entries, picked), e.fstatSize, lim))))
  {
    TotalIsSum(entries, i, lim);
  }

  // ---- The total limit ----

  /** The last file collected and what came before it. */
  lemma {:induction false} LastPick(entries: seq<Entry>, n: nat, lim: Limits)
    requires n <= |entries|
    ensures var picked := Picks(entries, n, lim);
            if picked == [] then StoredTotal(entries, n, lim) == 0
            else var p := picked[|picked| - 1];
                 StoredTotal(entries, n, lim) == StoredTotal(entries, p, lim) + entries[p].storedSize
  {
    if n == 0 {
    } else if !Eligible(entries[n - 1], lim) {
      LastPick(entries, n - 1, lim);
    }
  }

  /**
   * The total exceeds the limit if and only if the last file collected is longer than what was left for it.
   * Below the largest limit it was measured to fit what was left, as the wrapping counter has it. So, while
   * the files before it fit 64 bits, the limit is exceeded only by a file that grew, and by no more than it
   * grew.
   */
  lemma OvershootExactly(entries: seq<Entry>, end: nat, lim: Limits)
    requires EndsAt(entries, end, lim)
    ensures var picked, total := Picks(entries, end, lim), StoredTotal(entries, end, lim);
            if picked == [] then total == 0
            else
              var p := picked[|picked| - 1];
              var before, file := StoredTotal(entries, p, lim), entries[p];
              && (total > lim.maxTotal <==> file.storedSize > lim.maxTotal - before)
              && (lim.maxTotal < U64_LIMIT - 1 ==>
                    && file.fstatSize <= lim.maxTotal - before % U64_LIMIT
                    && (before < U64_LIMIT && total > lim.maxTotal ==>
                          0 < total - lim.maxTotal <= file.storedSize - file.fstatSize))
  {
    var picked := Picks(entries, end, lim);
    LastPick(entries, end, lim);
    if picked != [] {
      assert Decide(entries, picked[|picked| - 1], lim) == Take;
    }
  }

  /** Under the largest limit the saturating check never fires: two steady files exceed it. */
  lemma LargestLimitIsNone()
    ensures var top := U64_LIMIT - 1;
            var e, lim := Entry(true, true, true, top, true, true, top), Limits(top, top, top);
            && EndsAt([e, e], 2, lim) && Steady([e, e]) && StoredTotal([e, e], 2, lim) > lim.maxTotal
  {
    var top := U64_LIMIT - 1;
    var e, lim := Entry(true, true, true, top, true, true, top), Limits(top, top, top);
    var entries := [e, e];
    assert Picks(entries, 0, lim) == [] && Picks(entries, 1, lim) == [0];
    assert StoredTotal(entries, 0, lim) == 0 && StoredTotal(entries, 1, lim) == top;
    assert Decide(entries, 0, lim) == Take && Decide(entries, 1, lim) == Take;
  }

  /** Files that do not grow stay within the limit. */
  lemma {:induction false} SteadyWithinLimit(entries: seq<Entry>, n: nat, lim: Limits)
    requires n <= |entries| && PassedBy(entries, n, lim) && Steady(entries) && lim.maxTotal < U64_LIMIT - 1
    ensures StoredTotal(entries, n, lim) <= lim.maxTotal
  {
    if n == 0 {
    } else {
      SteadyWithinLimit(entries, n - 1, lim);
      assert Decide(entries, n - 1, lim) == Take || Decide(entries, n - 1, lim) == Ignore;
    }
  }

  /** One file measured at `before` and read at `after`: the limit is exceeded exactly when `after` is over it. */
  method GrowingFile(before: u64, after: u64, lim: Limits) returns (entries: seq<Entry>, r: Outcome)
    requires before <= lim.maxSingle && before <= lim.maxTotal && lim.maxFiles > 0
    ensures entries == [Entry(true, true, true, before, true, true, after)]
    ensures r == Collected([0], 1) && (StoredTotal(entries, 1, lim) > lim.maxTotal <==> after > lim.maxTotal)
  {
    entries := [Entry(true, true, true, before, true, true, after)];
    assert Picks(entries, 0, lim) == [] && StoredTotal(entries, 0, lim) == 0;
    assert Decide(entries, 0, lim) == Take;
    r := CollectOutputs(entries, lim);
  }

  // ---- The session's output budget ----

  predicate LineCapped(l: TimedLine, cap: nat) {
    l.line.Call? && l.line.request.outcome.RunDone? ==> CopiedBytes(l.line.request.outcome.artifacts) <= cap
  }

  predicate LinesCapped(lines: seq<TimedLine>, cap: nat) { forall i :: 0 <= i < |lines| ==> LineCapped(lines[i], cap) }

  /** No run hands back more than `cap` bytes of copied artifacts. */
  predicate TicksCapped(ticks: seq<Tick>, cap: nat) {
    forall i :: 0 <= i < |ticks| && ticks[i].accept.Connection? ==> LinesCapped(ticks[i].accept.lines, cap)
  }

  predicate LedgerCapped(s: Session, cap: nat) { forall i :: 0 <= i < |s.ledger| ==> s.ledger[i].outputBytes <= cap }

  lemma LedgerAfter(cfg: Config, s: Session, r: Request)
    ensures VerdictOf(cfg, s, r).ToolDone? ==> r.outcome.RunDone?
    ensures AfterDispatch(cfg, s, r).ledger ==
              if VerdictOf(cfg, s, r).ToolDone? then s.ledger + [ChargeOf(r.outcome)] else s.ledger
  {
  }

  lemma ChargeAtMostCopied(o: RunOutcome)
    requires o.RunDone?
    ensures ChargeOf(o).outputBytes <= CopiedBytes(o.artifacts)
  {
  }

  lemma DispatchKeepsCap(cfg: Config, s: Session, r: Request, cap: nat)
    requires LedgerCapped(s, cap) && (r.outcome.RunDone? ==> CopiedBytes(r.outcome.artifacts) <= cap)
    ensures LedgerCapped(AfterDispatch(cfg, s, r), cap)
  {
    LedgerAfter(cfg, s, r);
    if r.outcome.RunDone? { ChargeAtMostCopied(r.outcome); }
  }

  lemma {:induction false} LinesKeepCap(cfg: Config, s: Session, lines: seq<TimedLine>, cap: nat)
    requires LedgerCapped(s, cap) && LinesCapped(lines, cap)
    ensures LedgerCapped(AfterLines(cfg, s, lines).0, cap)
    decreases |lines|
  {
    if lines == [] {
    } else if !(lines[0].elapsedS >= s.budget.maxWallTimeS) && !lines[0].line.Oversized? {
      assert LineCapped(lines[0], cap);
      if lines[0].line.Call? {
        DispatchKeepsCap(cfg, s, lines[0].line.request, cap);
        LinesKeepCap(cfg, AfterDispatch(cfg, s, lines[0].line.request), lines[1..], cap);
      } else {
        LinesKeepCap(cfg, s, lines[1..], cap);
      }
    }
  }

  lemma {:induction false} TicksKeepCap(cfg: Config, s: Session, ticks: seq<Tick>, cap: nat)
    requires LedgerCapped(s, cap) && TicksCapped(ticks, cap)
    ensures LedgerCapped(AfterTicks(cfg, s, ticks).0, cap)
    decreases |ticks|
  {
    if ticks == [] {
    } else {
      var t := ticks[0];
      if t.accept.Connection? { LinesKeepCap(cfg, Housekeeping(s, t), t.accept.lines, cap); }
      var (s1, exit) := AfterTick(cfg, s, t);
      assert LedgerCapped(s1, cap);
      if exit == Continue { TicksKeepCap(cfg, s1, ticks[1..], cap); }
    }
  }

  /** Copying some of the collected files costs no more than all of them. */
  lemma {:induction false} CopiedAtMostStored(artifacts: seq<Artifact>, entries: seq<Entry>, n: nat, lim: Limits)
    requires n <= |entries| && |artifacts| == |Picks(entries, n, lim)|
    requires forall k :: 0 <= k < |artifacts| ==> artifacts[k].size == entries[Picks(entries, n, lim)[k]].storedSize
    ensures CopiedBytes(artifacts) <= StoredTotal(entries, n, lim)
  {
    if n == 0 {
    } else {
      if Eligible(entries[n - 1], lim) {
        var m := |artifacts| - 1;
        CopiedAtMostStored(artifacts[..m], entries, n - 1, lim);
        CopiedAppend(artifacts[..m], artifacts[m]);
        assert artifacts[..m] + [artifacts[m]] == artifacts;
      } else {
        CopiedAtMostStored(artifacts, entries, n - 1, lim);
      }
    }
  }

  /** With no run over `cap`, the output counter passes its budget by at most `cap`. */
  lemma CappedOvershoot(cfg: Config, budget: Budget, command: seq<string>, ticks: seq<Tick>, error: string, cap: nat)
    requires TicksCapped(ticks, cap)
    ensures var s := RunSession(cfg, budget, command, ticks, error).0;
            s.used.outputBytes <= s.budget.maxOutputBytes + cap
  {
    SessionSafety.EverySession(cfg, budget, command, ticks, error);
    TicksKeepCap(cfg, Started(budget, command), ticks, cap);
  }

  /** The artifacts are what `CollectOutputs` leaves of some steady entries. */
  ghost predicate CollectedFrom(artifacts: seq<Artifact>, entries: seq<Entry>, end: nat, lim: Limits) {
    && EndsAt(entries, end, lim) && Steady(entries)
    && |artifacts| == |Picks(entries, end, lim)|
    && forall k :: 0 <= k < |artifacts| ==> artifacts[k].size == entries[Picks(entries, end, lim)[k]].storedSize
  }

  ghost predicate LineCollected(l: TimedLine, lim: Limits) {
    l.line.Call? && l.line.request.outcome.RunDone? ==>
      exists entries, end :: CollectedFrom(l.line.request.outcome.artifacts, entries, end, lim)
  }

  /** Every finished run of the session collected its outputs under `lim`. */
  ghost predicate RunsCollected(ticks: seq<Tick>, lim: Limits) {
    forall i, j :: 0 <= i < |ticks| && ticks[i].accept.Connection? && 0 <= j < |ticks[i].accept.lines| ==>
                     LineCollected(ticks[i].accept.lines[j], lim)
  }

  lemma CollectedIsCapped(l: TimedLine, lim: Limits)
    requires LineCollected(l, lim) && lim.maxTotal < U64_LIMIT - 1
    ensures LineCapped(l, lim.maxTotal)
  {
    if l.line.Call? && l.line.request.outcome.RunDone? {
      var artifacts := l.line.request.outcome.artifacts;
      var entries, end :| CollectedFrom(artifacts, entries, end, lim);
      CopiedAtMostStored(artifacts, entries, end, lim);
      SteadyWithinLimit(entries, end, lim);
    }
  }

  /** Over every session, the output counter passes its budget by at most the store's limit for one run. */
  lemma OutputOvershoot(cfg: Config, budget: Budget, command: seq<string>, ticks: seq<Tick>, error: string, lim: Limits)
    requires RunsCollected(ticks, lim)
    ensures var s := RunSession(cfg, budget, command, ticks, error).0;
            s.used.outputBytes <= s.budget.maxOutputBytes + lim.maxTotal
  {
    if lim.maxTotal < U64_LIMIT - 1 {
      forall i | 0 <= i < |ticks| && ticks[i].accept.Connection?
        ensures LinesCapped(ticks[i].accept.lines, lim.maxTotal)
      {
        forall j | 0 <= j < |ticks[i].accept.lines| ensures LineCapped(ticks[i].accept.lines[j], lim.maxTotal) {
          CollectedIsCapped(ticks[i].accept.lines[j], lim);
        }
      }
      CappedOvershoot(cfg, budget, command, ticks, error, lim.maxTotal);
    }
  }
}
