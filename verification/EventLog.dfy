// The hash-chained session event log: its writer, its independent verifier, and what the chain proves.
module EventLog {
  import opened Common

  /** The budget names that appear in events. */
  datatype BudgetName = ToolCalls | WallTime | ToolTime | OutputBytes | AgentOutputBytes

  /** The status strings of a stop event. */
  datatype StopStatus =
    | StatusStopped | StatusTimedOut | StatusBudgetExhausted | StatusHeartbeatTimeout | StatusError(message: string)

  datatype SessionEventKind =
    | SessionStart(command: seq<string>)
    | SessionStop(status: StopStatus)
    | ToolDispatch(callId: string, command: seq<string>)
    | ToolResult(callId: string, runId: string, exitCode: int, traceHash: Option<string>)
    | BudgetWarning(budgetName: BudgetName, used: nat, limit: nat)
    | BudgetExhausted(budgetName: BudgetName)
    | BudgetExtension(budgetName: BudgetName, newLimit: nat, oldLimit: nat)
    | HeartbeatTimeout(elapsedS: nat, intervalS: nat)
    | ResourceSnapshot(elapsedS: nat, toolCallsUsed: nat, toolTimeUsedS: nat, outputBytesUsed: nat)
    | ToolDenied(callId: string, command: seq<string>)
    | AgentOutput(channel: string, text: string)
    | ApprovalRequired(callId: string, command: seq<string>, approved: bool)

  /** An event with any kind of content: nothing about the chain depends on what the content may be. */
  datatype SessionEvent<K> = SessionEvent(seqNo: nat, timestamp: string, kind: K, prevHash: string)

  /** A printed event is one line holding a JSON object. */
  predicate ObjectLine(s: string) {
    |s| >= 2 && s[0] == '{' && s[|s| - 1] == '}' && '\n' !in s
  }

  /** The store's hash algorithm and the JSON printer and parser of events, all left abstract. */
  datatype Chain<!K(!new)> = Chain(
    algo: string,
    hash: string -> string,
    print_: SessionEvent<K> -> string,
    parse: string -> Option<SessionEvent<K>>)
  {
    ghost predicate Valid() {
      && ':' !in algo
      && (forall s :: ':' !in hash(s))
      && (forall e :: ObjectLine(print_(e)) && parse(print_(e)) == Some(e))
    }

    function Genesis(): string { "oaie-session-genesis-" + algo }

    /** The hash the next event has to carry. */
    function Tip(events: seq<SessionEvent<K>>): string {
      if events == [] then hash(Genesis()) else hash(print_(events[|events| - 1]))
    }

    /** Every event carries the hash of its predecessor. */
    predicate Linked(events: seq<SessionEvent<K>>) {
      forall i :: 0 <= i < |events| ==> events[i].prevHash == Tip(events[..i])
    }

    /** Newline-delimited JSON, one event a line. */
    function Ndjson(events: seq<SessionEvent<K>>): string {
      if events == [] then "" else print_(events[0]) + "\n" + Ndjson(events[1..])
    }

    /** The verifier's reading of a log: lines that do not parse are dropped. */
    function ParseLines(lines: seq<string>): seq<SessionEvent<K>> {
      if lines == [] then []
      else
        var rest := ParseLines(lines[1..]);
        match parse(lines[0])
        case Some(e) => [e] + rest
        case None => rest
    }

    function ParseLog(text: string): seq<SessionEvent<K>> { ParseLines(Lines(text)) }

    /** `x` is what some position of the chain hashed: the genesis string or a printed event. */
    predicate Hashed(events: seq<SessionEvent<K>>, x: string) {
      x == Genesis() || exists i :: 0 <= i < |events| && x == print_(events[i])
    }

    predicate Collide(x: string, y: string) { x != y && hash(x) == hash(y) }
  }

  // ---- Lines ----

  function NewlineIndex(text: string): (i: nat)
    ensures i <= |text| && '\n' !in text[..i]
    ensures i < |text| ==> text[i] == '\n'
  {
    if text == "" || text[0] == '\n' then 0 else
      var i := NewlineIndex(text[1..]);
      assert text[..i + 1] == [text[0]] + text[1..][..i];
      i + 1
  }

  /** `str::lines`: a carriage return before the newline is dropped with it. */
  function Lines(text: string): seq<string>
    decreases |text|
  {
    if text == "" then [] else
      var cut := NewlineIndex(text);
      if cut == |text| then [text]
      else
        var line := text[..cut];
        var trimmed := if line != "" && line[|line| - 1] == '\r' then line[..|line| - 1] else line;
        [trimmed] + Lines(text[cut + 1..])
  }

  lemma {:induction false} LinesCons(line: string, rest: string)
    requires ObjectLine(line)
    ensures Lines(line + "\n" + rest) == [line] + Lines(rest)
  {
    var text := line + "\n" + rest;
    NewlineAfter(line, rest);
    assert text[..|line|] == line;
    assert text[|line| + 1..] == rest;
  }

  lemma NewlineAfter(line: string, rest: string)
    requires '\n' !in line
    ensures NewlineIndex(line + "\n" + rest) == |line|
  {
    if line != "" {
      assert (line + "\n" + rest)[1..] == line[1..] + "\n" + rest;
      NewlineAfter(line[1..], rest);
    }
  }

  /** A line ends at a newline, with one carriage return in front of it dropped, or at the end of the text. */
  lemma LinesExactly(line: string, rest: string)
    requires '\n' !in line
    ensures Lines(line + "\r\n" + rest) == [line] + Lines(rest)
    ensures (line == "" || line[|line| - 1] != '\r') ==> Lines(line + "\n" + rest) == [line] + Lines(rest)
    ensures Lines(line) == if line == "" then [] else [line]
  {
    var text, cut := line + "\r\n" + rest, line + "\r";
    assert text == cut + "\n" + rest;
    NewlineAfter(cut, rest);
    assert text[..|cut|] == cut && cut[..|cut| - 1] == line && text[|cut| + 1..] == rest;
    NewlineAfter(line, rest);
    assert (line + "\n" + rest)[..|line|] == line && (line + "\n" + rest)[|line| + 1..] == rest;
    assert NewlineIndex(line) == |line|;
  }

  function ParsedFlags<K(!new)>(c: Chain<K>, lines: seq<string>): (flags: seq<bool>)
    ensures |flags| == |lines| && forall i :: 0 <= i < |lines| ==> flags[i] == c.parse(lines[i]).Some?
  {
    seq(|lines|, i requires 0 <= i < |lines| => c.parse(lines[i]).Some?)
  }

  lemma {:induction false} ParsedAreOfPicked<K(!new)>(c: Chain<K>, lines: seq<string>)
    ensures var picked := Picked(ParsedFlags(c, lines), lines);
            && |c.ParseLines(lines)| == |picked|
            && forall k :: 0 <= k < |picked| ==> c.parse(picked[k]) == Some(c.ParseLines(lines)[k])
  {
    if lines == [] {
    } else {
      ParsedAreOfPicked(c, lines[1..]);
      assert ParsedFlags(c, lines)[1..] == ParsedFlags(c, lines[1..]);
    }
  }

  /** The events read from a list of lines are those of the lines that parse, in order; the others are dropped. */
  lemma ParsedExactly<K(!new)>(c: Chain<K>, lines: seq<string>) returns (at: seq<nat>)
    ensures Ascending(at, |lines|) && forall i :: 0 <= i < |lines| ==> (i in at <==> c.parse(lines[i]).Some?)
    ensures |c.ParseLines(lines)| == |at|
    ensures forall k :: 0 <= k < |at| ==> c.parse(lines[at[k]]) == Some(c.ParseLines(lines)[k])
  {
    ParsedAreOfPicked(c, lines);
    at := PickedExactly(ParsedFlags(c, lines), lines);
  }

  /** Reading back what the writer printed gives the same events. */
  lemma {:induction false} ParseAfterPrint<K(!new)>(c: Chain<K>, events: seq<SessionEvent<K>>)
    requires c.Valid()
    ensures c.ParseLog(c.Ndjson(events)) == events
  {
    if events == [] {
    } else {
      LinesCons(c.print_(events[0]), c.Ndjson(events[1..]));
      var lines := Lines(c.Ndjson(events));
      assert lines[1..] == Lines(c.Ndjson(events[1..]));
      ParseAfterPrint(c, events[1..]);
    }
  }

  // ---- The writer ----

  class SessionEventWriter<K(!new)> {
    const chain: Chain<K>
    var events: seq<SessionEvent<K>>
    var nextSeq: nat
    var prevHash: string

    ghost predicate Valid()
      reads this
    {
      && nextSeq == |events|
      && (forall i :: 0 <= i < |events| ==> events[i].seqNo == i)
      && chain.Linked(events)
      && prevHash == chain.Tip(events)
    }

    constructor (chain: Chain<K>)
      ensures Valid() && this.chain == chain && events == []
    {
      this.chain := chain;
      events, nextSeq := [], 0;
      prevHash := chain.hash(chain.Genesis());
    }

    method Emit(kind: K, timestamp: string) returns (event: SessionEvent<K>)
      requires Valid()
      modifies this
      ensures Valid()
      ensures event == SessionEvent(old(nextSeq), timestamp, kind, old(prevHash))
      ensures events == old(events) + [event]
    {
      event := SessionEvent(nextSeq, timestamp, kind, prevHash);
      prevHash := chain.hash(chain.print_(event));
      nextSeq := nextSeq + 1;
      events := events + [event];
      LinkedAppend(chain, old(events), event);
    }

    method Finalize() returns (ndjson: string, tip: string)
      requires Valid()
      ensures ndjson == chain.Ndjson(events) && tip == chain.Tip(events)
    {
      ndjson := "";
      for i := 0 to |events|
        invariant ndjson + chain.Ndjson(events[i..]) == chain.Ndjson(events)
      {
        assert events[i..][0] == events[i] && events[i..][1..] == events[i + 1..];
        var line := chain.print_(events[i]) + "\n";
        Associative(ndjson, line, chain.Ndjson(events[i + 1..]));
        ndjson := ndjson + line;
      }
      assert events[|events|..] == [] && ndjson + "" == ndjson;
      tip := prevHash;
    }
  }

  lemma LinkedAppend<K(!new)>(c: Chain<K>, events: seq<SessionEvent<K>>, e: SessionEvent<K>)
    requires c.Linked(events) && e.prevHash == c.Tip(events)
    ensures c.Linked(events + [e])
  {
    var all := events + [e];
    forall i | 0 <= i < |all| ensures all[i].prevHash == c.Tip(all[..i]) {
      assert all[..i] == events[..i];
      if i == |events| { assert events[..i] == events; }
    }
  }

  // ---- The verifier ----

  /** Re-hashes the chain and stops at the first event that does not carry its predecessor's hash. */
  method VerifyChain<K(!new)>(c: Chain<K>, events: seq<SessionEvent<K>>) returns (ok: bool, breakIdx: nat, tip: string)
    ensures ok <==> c.Linked(events)
    ensures ok ==> tip == c.Tip(events)
    ensures !ok ==> breakIdx < |events| && c.Linked(events[..breakIdx])
    ensures !ok ==> events[breakIdx].prevHash != c.Tip(events[..breakIdx])
  {
    tip, breakIdx := c.hash(c.Genesis()), 0;
    for i := 0 to |events|
      invariant c.Linked(events[..i]) && tip == c.Tip(events[..i])
    {
      if events[i].prevHash != tip { return false, i, tip; }
      tip := c.hash(c.print_(events[i]));
      assert events[..i + 1] == events[..i] + [events[i]];
      LinkedAppend(c, events[..i], events[i]);
    }
    assert events[..|events|] == events;
    ok := true;
  }

  function ColonIndex(s: string): (i: nat)
    ensures i <= |s| && ':' !in s[..i] && (i < |s| ==> s[i] == ':')
  {
    if s == "" || s[0] == ':' then 0 else
      var i := ColonIndex(s[1..]);
      assert s[..i + 1] == [s[0]] + s[1..][..i];
      i + 1
  }

  /** `split(':').nth(1)`, or the whole string when it has no colon. */
  function AfterFirstColon(s: string): string {
    var i := ColonIndex(s);
    if i == |s| then s else
      var rest := s[i + 1..];
      rest[..ColonIndex(rest)]
  }

  /** The second of the parts between colons, or the whole string when there is none. */
  lemma SecondPart(first: string, second: string, rest: string)
    requires ':' !in first && ':' !in second
    ensures AfterFirstColon(first) == first
    ensures AfterFirstColon(first + ":" + second) == second
    ensures AfterFirstColon(first + ":" + (second + ":" + rest)) == second
  {
    assert ColonIndex(first) == |first|;
    ColonAfter(first, second);
    assert (first + ":" + second)[|first| + 1..] == second && second[..ColonIndex(second)] == second;
    ColonAfter(first, second + ":" + rest);
    ColonAfter(second, rest);
    assert (first + ":" + (second + ":" + rest))[|first| + 1..] == second + ":" + rest;
    assert (second + ":" + rest)[..|second|] == second;
  }

  /** The `chain_tip` value the manifest holds. */
  function ManifestTip<K(!new)>(c: Chain<K>, events: seq<SessionEvent<K>>): string { c.algo + ":" + c.Tip(events) }

  lemma {:induction false} TipOfManifestTip<K(!new)>(c: Chain<K>, events: seq<SessionEvent<K>>)
    requires c.Valid()
    ensures AfterFirstColon(ManifestTip(c, events)) == c.Tip(events)
  {
    var s := ManifestTip(c, events);
    ColonAfter(c.algo, c.Tip(events));
    var rest := s[|c.algo| + 1..];
    assert rest == c.Tip(events);
    assert rest[..ColonIndex(rest)] == rest;
  }

  lemma ColonAfter(prefix: string, rest: string)
    requires ':' !in prefix
    ensures ColonIndex(prefix + ":" + rest) == |prefix|
  {
    if prefix != "" {
      assert (prefix + ":" + rest)[1..] == prefix[1..] + ":" + rest;
      ColonAfter(prefix[1..], rest);
    }
  }

  ghost predicate TipMatches<K(!new)>(c: Chain<K>, events: seq<SessionEvent<K>>, manifestTip: Option<string>) {
    manifestTip.Some? && AfterFirstColon(manifestTip.value) == c.Tip(events)
  }

  /** The chain-integrity and chain-tip checks of a session, on the text of its event log. */
  method CheckEventLog<K(!new)>(c: Chain<K>, text: string, manifestTip: Option<string>)
    returns (integrity: CheckStatus, tip: CheckStatus)
    ensures integrity == Skip <==> c.ParseLog(text) == []
    ensures integrity == Pass <==> c.ParseLog(text) != [] && c.Linked(c.ParseLog(text))
    ensures tip == Pass <==> integrity == Pass && TipMatches(c, c.ParseLog(text), manifestTip)
    ensures tip == Fail <==> integrity == Pass && manifestTip.Some? && !TipMatches(c, c.ParseLog(text), manifestTip)
  {
    var events := c.ParseLog(text);
    if events == [] { return Skip, Skip; }
    var ok, _, computed := VerifyChain(c, events);
    if !ok { return Fail, Skip; }
    integrity := Pass;
    match manifestTip
    case None => tip := Skip;
    case Some(claimed) => tip := if computed == AfterFirstColon(claimed) then Pass else Fail;
  }

  // ---- What the chain proves ----

  /** Every log the writer can produce is accepted, integrity and tip, from its own text and manifest. */
  method WriterThenVerifier<K(!new)>(writer: SessionEventWriter<K>) returns (integrity: CheckStatus, tip: CheckStatus)
    requires writer.Valid() && writer.chain.Valid() && writer.events != []
    ensures integrity == Pass && tip == Pass
  {
    var c := writer.chain;
    var ndjson, chainTip := writer.Finalize();
    ParseAfterPrint(c, writer.events);
    TipOfManifestTip(c, writer.events);
    integrity, tip := CheckEventLog(c, ndjson, Some(c.algo + ":" + chainTip));
  }

  /** Two distinct strings with one hash, each of them hashed somewhere along one of the two chains. */
  ghost predicate CollisionAlong<K(!new)>(c: Chain<K>, a: seq<SessionEvent<K>>, b: seq<SessionEvent<K>>, x: string,
      y: string) {
    c.Collide(x, y) && c.Hashed(a, x) && c.Hashed(b, y)
  }

  /**
   * Tamper evidence. Two linked logs with the same tip are the same log, or the lemma hands back an
   * explicit collision among the strings the two chains hashed.
   */
  lemma {:induction false} TamperEvidence<K(!new)>(c: Chain<K>, a: seq<SessionEvent<K>>, b: seq<SessionEvent<K>>)
    returns (x: string, y: string)
    requires c.Valid() && c.Linked(a) && c.Linked(b) && c.Tip(a) == c.Tip(b)
    ensures a == b || CollisionAlong(c, a, b, x, y)
    ensures a != b && (a == [] || b == []) ==> x == c.Genesis() || y == c.Genesis()
    decreases |a|
  {
    x, y := LastHashed(c, a), LastHashed(c, b);
    LastIsHashed(c, a);
    LastIsHashed(c, b);
    if x == y {
      SameLast(c, a, b);
      if a != [] {
        var m, n := |a| - 1, |b| - 1;
        LinkedPrefix(c, a, m);
        LinkedPrefix(c, b, n);
        x, y := TamperEvidence(c, a[..m], b[..n]);
        HashedExtend(c, a, m, x);
        HashedExtend(c, b, n, y);
      }
    }
  }

  function LastHashed<K(!new)>(c: Chain<K>, events: seq<SessionEvent<K>>): string {
    if events == [] then c.Genesis() else c.print_(events[|events| - 1])
  }

  lemma LastIsHashed<K(!new)>(c: Chain<K>, events: seq<SessionEvent<K>>)
    ensures c.Hashed(events, LastHashed(c, events)) && c.hash(LastHashed(c, events)) == c.Tip(events)
  {
  }

  /** Printing tells events apart from each other and from the genesis string. */
  lemma SameLast<K(!new)>(c: Chain<K>, a: seq<SessionEvent<K>>, b: seq<SessionEvent<K>>)
    requires c.Valid() && LastHashed(c, a) == LastHashed(c, b)
    ensures a == [] <==> b == []
    ensures a != [] && a[..|a| - 1] == b[..|b| - 1] ==> a == b
    ensures a != [] && c.Linked(a) && c.Linked(b) ==> c.Tip(a[..|a| - 1]) == c.Tip(b[..|b| - 1])
  {
    assert c.Genesis()[0] == 'o';
    if a != [] && b != [] {
      var m, n := |a| - 1, |b| - 1;
      assert c.parse(LastHashed(c, a)) == Some(a[m]) == Some(b[n]);
      assert a == a[..m] + [a[m]] && b == b[..n] + [b[n]];
    }
  }

  lemma LinkedPrefix<K(!new)>(c: Chain<K>, events: seq<SessionEvent<K>>, n: nat)
    requires c.Linked(events) && n <= |events|
    ensures c.Linked(events[..n])
  {
    forall i | 0 <= i < n ensures events[..n][i].prevHash == c.Tip(events[..n][..i]) {
      assert events[..n][..i] == events[..i];
    }
  }

  lemma HashedExtend<K(!new)>(c: Chain<K>, events: seq<SessionEvent<K>>, n: nat, x: string)
    requires n <= |events|
    ensures c.Hashed(events[..n], x) ==> c.Hashed(events, x)
  {
  }

  /**
   * End to end: any text the verifier passes against the tip of a written log reads as that log,
   * event by event, or the hash has an explicit collision.
   */
  lemma AcceptedTextIsTheWrittenLog<K(!new)>(c: Chain<K>, text: string, written: seq<SessionEvent<K>>)
    returns (x: string, y: string)
    requires c.Valid() && c.Linked(written)
    requires c.Linked(c.ParseLog(text)) && TipMatches(c, c.ParseLog(text), Some(ManifestTip(c, written)))
    ensures c.ParseLog(text) == written || CollisionAlong(c, c.ParseLog(text), written, x, y)
  {
    TipOfManifestTip(c, written);
    x, y := TamperEvidence(c, c.ParseLog(text), written);
  }

  /** Neither chain check fails; the report counts a skipped check as passed. */
  ghost predicate ChainChecksPassed<K(!new)>(c: Chain<K>, text: string, manifestTip: Option<string>) {
    var events := c.ParseLog(text);
    events == [] || (c.Linked(events) && (manifestTip.None? || TipMatches(c, events, manifestTip)))
  }

  /**
   * "Passed" means "the written log, or a collision" exactly for texts with a parseable event:
   * a text with none passes against every tip, the empty text being one.
   */
  lemma PassedLog<K(!new)>(c: Chain<K>, text: string, written: seq<SessionEvent<K>>) returns (x: string, y: string)
    requires c.Valid() && c.Linked(written) && written != []
    ensures ChainChecksPassed(c, "", Some(ManifestTip(c, written))) && c.ParseLog("") != written
    ensures ChainChecksPassed(c, text, Some(ManifestTip(c, written))) &&
              !CollisionAlong(c, c.ParseLog(text), written, x, y) ==>
              (c.ParseLog(text) == written <==> c.ParseLog(text) != [])
  {
    x, y := "", "";
    if ChainChecksPassed(c, text, Some(ManifestTip(c, written))) && c.ParseLog(text) != [] {
      x, y := AcceptedTextIsTheWrittenLog(c, text, written);
    }
  }
}
