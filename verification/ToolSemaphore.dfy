// The concurrent-tool semaphore: acquire-then-check on one atomic counter, released by a guard.
// Any number of dispatchers interleave; an interleaving is a sequence of actions.
module ToolSemaphore {
  import opened Common

  datatype Phase = Acquired | Executing | Rejected

  /** A live guard: the dispatcher that holds it and the counter value its increment returned. */
  datatype Guard = Guard(thread: nat, observed: u32, phase: Phase)

  /** The guards stand in the order they were taken; no decision reads that order. */
  datatype State = State(max: u32, counter: u32, dispatchers: nat, guards: seq<Guard>)

  /** A dispatcher takes its next step, or unwinds and drops its guard wherever it is. */
  datatype Action = Advance(thread: nat) | Unwind(thread: nat)

  function IndexOf(guards: seq<Guard>, thread: nat): (i: nat)
    ensures i <= |guards|
    ensures i < |guards| ==> guards[i].thread == thread
    ensures i == |guards| ==> forall k :: 0 <= k < |guards| ==> guards[k].thread != thread
  {
    if guards == [] || guards[0].thread == thread then 0 else 1 + IndexOf(guards[1..], thread)
  }

  function Acquire(s: State, t: nat): State {
    s.(counter := (s.counter + 1) % U32_LIMIT, guards := s.guards + [Guard(t, s.counter, Acquired)])
  }

  function Check(s: State, i: nat): State
    requires i < |s.guards|
  {
    var g := s.guards[i];
    s.(guards := s.guards[i := g.(phase := if g.observed >= s.max then Rejected else Executing)])
  }

  function DropGuard(s: State, i: nat): State
    requires i < |s.guards|
  {
    s.(counter := (s.counter - 1) % U32_LIMIT, guards := s.guards[..i] + s.guards[i + 1..])
  }

  function Step(s: State, a: Action): State {
    var i := IndexOf(s.guards, a.thread);
    if i == |s.guards| then
      if a.Advance? && a.thread < s.dispatchers then Acquire(s, a.thread) else s
    else if a.Advance? && s.guards[i].phase == Acquired then Check(s, i)
    else DropGuard(s, i)
  }

  function Run(s: State, actions: seq<Action>): State
    decreases |actions|
  {
    if actions == [] then s else Run(Step(s, actions[0]), actions[1..])
  }

  function CountExecuting(guards: seq<Guard>): nat {
    if guards == [] then 0
    else (if guards[0].phase == Executing then 1 else 0) + CountExecuting(guards[1..])
  }

  /** The counter follows the guards, modulo its 32 bits, and every dispatcher holds at most one. */
  ghost predicate Counting(s: State) {
    && s.counter == |s.guards| % U32_LIMIT
    && (forall i :: 0 <= i < |s.guards| ==> s.guards[i].thread < s.dispatchers)
    && (forall i, j :: 0 <= i < j < |s.guards| ==> s.guards[i].thread != s.guards[j].thread)
  }

  ghost predicate Inv(s: State) {
    && Counting(s)
    // A guard saw at least the guards taken before it that are still alive.
    && (forall i :: 0 <= i < |s.guards| ==> i <= s.guards[i].observed)
    && (forall i :: 0 <= i < |s.guards| && s.guards[i].phase == Executing ==> s.guards[i].observed < s.max)
  }

  /** Fewer than 2^32 guards are alive before each of the actions. */
  predicate Uncrowded(s: State, actions: seq<Action>)
    decreases |actions|
  {
    actions == [] || (|s.guards| < U32_LIMIT && Uncrowded(Step(s, actions[0]), actions[1..]))
  }

  lemma DropKeepsCounting(s: State, i: nat)
    requires Counting(s) && i < |s.guards|
    ensures Counting(DropGuard(s, i))
  {
    var s' := DropGuard(s, i);
    forall k | 0 <= k < |s'.guards| ensures s'.guards[k] == s.guards[if k < i then k else k + 1] {}
    DropCount(|s.guards|);
  }

  lemma StepKeepsCounting(s: State, a: Action)
    requires Counting(s)
    ensures Counting(Step(s, a))
  {
    var i := IndexOf(s.guards, a.thread);
    if i < |s.guards| && !(a.Advance? && s.guards[i].phase == Acquired) {
      DropKeepsCounting(s, i);
    }
  }

  lemma DropCount(n: nat)
    requires n > 0
    ensures (n % U32_LIMIT - 1) % U32_LIMIT == (n - 1) % U32_LIMIT
  {
  }

  lemma AcquireKeepsInv(s: State, t: nat)
    requires Inv(s) && |s.guards| < U32_LIMIT && t < s.dispatchers && IndexOf(s.guards, t) == |s.guards|
    ensures Inv(Acquire(s, t))
  {
  }

  lemma CheckKeepsInv(s: State, i: nat)
    requires Inv(s) && i < |s.guards|
    ensures Inv(Check(s, i))
  {
  }

  lemma DropKeepsInv(s: State, i: nat)
    requires Inv(s) && i < |s.guards|
    ensures Inv(DropGuard(s, i))
  {
    DropKeepsCounting(s, i);
    var s' := DropGuard(s, i);
    forall k | 0 <= k < |s'.guards| ensures s'.guards[k] == s.guards[if k < i then k else k + 1] {}
  }

  lemma StepKeepsInv(s: State, a: Action)
    requires Inv(s) && |s.guards| < U32_LIMIT
    ensures Inv(Step(s, a))
  {
    var i := IndexOf(s.guards, a.thread);
    if i == |s.guards| {
      if a.Advance? && a.thread < s.dispatchers { AcquireKeepsInv(s, a.thread); }
    } else if a.Advance? && s.guards[i].phase == Acquired {
      CheckKeepsInv(s, i);
    } else {
      DropKeepsInv(s, i);
    }
  }

  lemma {:induction false} RunKeepsInv(s: State, actions: seq<Action>)
    requires Counting(s)
    ensures Counting(Run(s, actions)) && Run(s, actions).max == s.max && Run(s, actions).dispatchers == s.dispatchers
    ensures Inv(s) && Uncrowded(s, actions) ==> Inv(Run(s, actions))
    decreases |actions|
  {
    if actions == [] {
    } else {
      StepKeepsCounting(s, actions[0]);
      if Inv(s) && Uncrowded(s, actions) { StepKeepsInv(s, actions[0]); }
      RunKeepsInv(Step(s, actions[0]), actions[1..]);
    }
  }

  /** Every executing guard stands among the first `max`. */
  lemma {:induction false} ExecutingBound(guards: seq<Guard>, bound: nat)
    requires forall i :: 0 <= i < |guards| && guards[i].phase == Executing ==> i < bound
    ensures CountExecuting(guards) <= bound
  {
    if guards == [] {
    } else {
      ExecutingBound(guards[1..], if bound == 0 then 0 else bound - 1);
    }
  }

  function Init(max: u32, dispatchers: nat): State { State(max, 0, dispatchers, []) }

  /**
   * For every interleaving of any number of dispatchers: the counter is the number of live guards modulo 2^32,
   * and as long as fewer than 2^32 of them are alive no more than `max` calls execute at once.
   */
  lemma SemaphoreSafety(max: u32, dispatchers: nat, actions: seq<Action>)
    ensures var s := Run(Init(max, dispatchers), actions);
            && s.counter == |s.guards| % U32_LIMIT
            && (Uncrowded(Init(max, dispatchers), actions) ==> CountExecuting(s.guards) <= max)
  {
    RunKeepsInv(Init(max, dispatchers), actions);
    if Uncrowded(Init(max, dispatchers), actions) {
      ExecutingBound(Run(Init(max, dispatchers), actions).guards, max);
    }
  }

  /** Distinct dispatchers: there are never more guards than dispatchers. */
  lemma {:induction false} Pigeonhole(guards: seq<Guard>, n: nat)
    requires forall i :: 0 <= i < |guards| ==> guards[i].thread < n
    requires forall i, j :: 0 <= i < j < |guards| ==> guards[i].thread != guards[j].thread
    ensures |guards| <= n
    decreases n
  {
    if guards == [] {
    } else {
      assert guards[0].thread < n;
      var i := IndexOf(guards, n - 1);
      var rest := if i == |guards| then guards else guards[..i] + guards[i + 1..];
      Pigeonhole(rest, n - 1);
    }
  }

  /** Fewer than 2^32 dispatchers never crowd it. */
  lemma {:induction false} FewDispatchers(s: State, actions: seq<Action>)
    requires Counting(s) && s.dispatchers < U32_LIMIT
    ensures Uncrowded(s, actions)
    decreases |actions|
  {
    Pigeonhole(s.guards, s.dispatchers);
    if actions == [] {
    } else {
      StepKeepsCounting(s, actions[0]);
      FewDispatchers(Step(s, actions[0]), actions[1..]);
    }
  }

  // ---- The bound fails in a crowd ----

  function Arrive(n: nat): seq<Action> { seq(n, (i: nat) => Advance(i)) }

  function Crowd(n: nat): seq<Guard> { seq(n, (i: nat) => Guard(i, i % U32_LIMIT, Acquired)) }

  lemma OneArrives(s: State, n: nat)
    requires n < s.dispatchers && s.guards == Crowd(n) && s.counter == n % U32_LIMIT
    ensures Step(s, Advance(n)) == State(s.max, (n + 1) % U32_LIMIT, s.dispatchers, Crowd(n + 1))
  {
    assert IndexOf(s.guards, n) == |s.guards|;
    assert Crowd(n + 1) == Crowd(n) + [Guard(n, n % U32_LIMIT, Acquired)];
  }

  lemma {:induction false} AllArrive(max: u32, dispatchers: nat, n: nat)
    requires n <= dispatchers
    ensures Run(Init(max, dispatchers), Arrive(n)) == State(max, n % U32_LIMIT, dispatchers, Crowd(n))
  {
    if n == 0 {
      assert Crowd(0) == [];
    } else {
      AllArrive(max, dispatchers, n - 1);
      assert Arrive(n) == Arrive(n - 1) + [Advance(n - 1)];
      RunOneMore(Init(max, dispatchers), Arrive(n - 1), Advance(n - 1));
      OneArrives(Run(Init(max, dispatchers), Arrive(n - 1)), n - 1);
    }
  }

  lemma {:induction false} RunOneMore(s: State, actions: seq<Action>, a: Action)
    ensures Run(s, actions + [a]) == Step(Run(s, actions), a)
    decreases |actions|
  {
    if actions == [] {
      assert [] + [a] == [a] && [a][1..] == [];
      assert Run(s, [a]) == Run(Step(s, a), []);
    } else {
      assert (actions + [a])[0] == actions[0] && (actions + [a])[1..] == actions[1..] + [a];
      RunOneMore(Step(s, actions[0]), actions[1..], a);
    }
  }

  lemma {:induction false} SomeExecuting(guards: seq<Guard>, i: nat)
    requires i < |guards| && guards[i].phase == Executing
    ensures CountExecuting(guards) >= 1
  {
    if i == 0 {
    } else {
      SomeExecuting(guards[1..], i - 1);
    }
  }

  /** With 2^32 guards alive one more dispatcher sees zero: with a limit of one, two calls execute at once. */
  lemma CrowdBreaksTheLimit()
    ensures var late := U32_LIMIT;
            var s := Run(Init(1, late + 1), Arrive(late) + [Advance(0)] + [Advance(late)] + [Advance(late)]);
            CountExecuting(s.guards) > 1
  {
    var late, init := U32_LIMIT, Init(1, U32_LIMIT + 1);
    AllArrive(1, late + 1, late);
    var s0 := Run(init, Arrive(late));
    RunOneMore(init, Arrive(late), Advance(0));
    var s1 := Run(init, Arrive(late) + [Advance(0)]);
    assert s0.guards[0].thread == 0 && IndexOf(s0.guards, 0) == 0;
    assert s1.guards == s0.guards[0 := Guard(0, 0, Executing)];
    RunOneMore(init, Arrive(late) + [Advance(0)], Advance(late));
    var s2 := Run(init, Arrive(late) + [Advance(0)] + [Advance(late)]);
    assert IndexOf(s1.guards, late) == |s1.guards|;
    assert s2.guards == s1.guards + [Guard(late, 0, Acquired)];
    RunOneMore(init, Arrive(late) + [Advance(0)] + [Advance(late)], Advance(late));
    var s3 := Step(s2, Advance(late));
    assert s2.guards[late].thread == late;
    assert IndexOf(s2.guards, late) == late;
    assert s3.guards[0].phase == Executing && s3.guards[1..][late - 1] == Guard(late, 0, Executing);
    SomeExecuting(s3.guards[1..], late - 1);
  }

  // ---- Draining and refusing ----

  /** Letting the dispatcher that holds the first guard go on, until no guard is left. */
  lemma {:induction false} Drains(s: State) returns (actions: seq<Action>)
    requires Counting(s)
    ensures forall i :: 0 <= i < |actions| ==> actions[i].Advance?
    ensures Run(s, actions).guards == [] && Run(s, actions).counter == 0
    decreases |s.guards|, if s.guards != [] && s.guards[0].phase == Acquired then 1 else 0
  {
    if s.guards == [] {
      actions := [];
    } else {
      var a := Advance(s.guards[0].thread);
      StepKeepsCounting(s, a);
      var rest := Drains(Step(s, a));
      actions := [a] + rest;
      assert actions[1..] == rest;
    }
  }

  /** From every reachable state the calls in progress can all finish, and then the counter is zero again. */
  lemma CounterReturnsToZero(max: u32, dispatchers: nat, actions: seq<Action>) returns (more: seq<Action>)
    ensures forall i :: 0 <= i < |more| ==> more[i].Advance?
    ensures Run(Run(Init(max, dispatchers), actions), more).counter == 0
  {
    RunKeepsInv(Init(max, dispatchers), actions);
    more := Drains(Run(Init(max, dispatchers), actions));
  }

  /** An uninterrupted dispatcher is refused exactly when the live guards, refused or not, count to `max`. */
  lemma RefusedOnlyWhenFull(max: u32, dispatchers: nat, actions: seq<Action>, thread: nat)
    requires var s := Run(Init(max, dispatchers), actions);
             IndexOf(s.guards, thread) == |s.guards| && thread < dispatchers
    ensures var s := Run(Init(max, dispatchers), actions);
            var s' := Step(Step(s, Advance(thread)), Advance(thread));
            var i := IndexOf(s'.guards, thread);
            && i == |s.guards| < |s'.guards|
            && (s'.guards[i].phase == Rejected <==> |s.guards| % U32_LIMIT >= max)
            && (s'.guards[i].phase == Executing <==> |s.guards| % U32_LIMIT < max)
  {
    var s := Run(Init(max, dispatchers), actions);
    RunKeepsInv(Init(max, dispatchers), actions);
    var s1 := Step(s, Advance(thread));
    assert s1 == Acquire(s, thread);
    StepKeepsCounting(s, Advance(thread));
    assert s1.guards[|s.guards|].thread == thread;
    var j := IndexOf(s1.guards, thread);
    assert j == |s.guards|;
    var s2 := Step(s1, Advance(thread));
    StepKeepsCounting(s1, Advance(thread));
    assert s2.guards[j].thread == thread;
  }
}
