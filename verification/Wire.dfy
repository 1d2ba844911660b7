// Length-prefixed JSON frames between the host and the agent inside a microVM.
module Wire {
  import opened Common
  import opened Base64
  import opened Units

  const MAX_FRAME_SIZE: int := 16 * 1024 * 1024

  datatype Message =
    | AgentReady(version: string)
    | RunJob(command: seq<string>, env: map<string, string>, timeoutSecs: Option<u64>, trace: bool)
    | OutputChunk(stream: string, data: string)
    | TraceEvent(event: string)
    | JobDone(exitCode: int, durationMs: u64)
    | Shutdown
    | Failure(message: string)

  /** The JSON reader of the host; `None` stands for its error. */
  type Parser = Bytes -> Option<Message>

  function Be32(n: u32): Bytes {
    [n / 0x100_0000, n / 0x1_0000 % 0x100, n / 0x100 % 0x100, n % 0x100]
  }

  function FromBe32(b: Bytes): u32
    requires |b| == 4
  {
    b[0] as int * 0x100_0000 + b[1] as int * 0x1_0000 + b[2] as int * 0x100 + b[3] as int
  }

  lemma Be32RoundTrip(n: u32)
    ensures FromBe32(Be32(n)) == n
  {
    assert n / 0x100 / 0x100 == n / 0x1_0000;
    assert n / 0x1_0000 / 0x100 == n / 0x100_0000;
  }

  /** A payload with its length in front; nothing when it is over the limit. */
  function EncodeFrame(payload: Bytes): Option<Bytes> {
    if |payload| > MAX_FRAME_SIZE then None else Some(Framed(payload))
  }

  function Framed(payload: Bytes): Bytes
    requires |payload| <= MAX_FRAME_SIZE
  {
    Be32(|payload|) + payload
  }

  datatype Received = Eof | Broken | Got(message: Message, rest: Bytes)

  /** One frame off the front of the bytes that arrived before the connection ended. */
  function Receive(parse: Parser, input: Bytes): (r: Received)
    ensures r.Got? ==> |r.rest| < |input|
  {
    if |input| < 4 then Eof
    else
      var len := FromBe32(input[..4]);
      if len > MAX_FRAME_SIZE || |input| < 4 + len then Broken
      else
        var m := parse(input[4..4 + len]);
        if m.None? then Broken else Got(m.value, input[4 + len..])
  }

  /** A whole frame gives back its payload and leaves exactly what follows it. */
  lemma ReceiveFramed(parse: Parser, payload: Bytes, rest: Bytes)
    requires |payload| <= MAX_FRAME_SIZE
    ensures Receive(parse, Framed(payload) + rest) ==
              if parse(payload).None? then Broken else Got(parse(payload).value, rest)
  {
    var input := Framed(payload) + rest;
    Be32RoundTrip(|payload|);
    assert input[..4] == Be32(|payload|);
    assert input[4..4 + |payload|] == payload && input[4 + |payload|..] == rest;
  }

  /** A frame cut short never gives a message. */
  lemma ReceiveCut(parse: Parser, payload: Bytes, k: nat)
    requires |payload| <= MAX_FRAME_SIZE && k < |Framed(payload)|
    ensures Receive(parse, Framed(payload)[..k]) == if k < 4 then Eof else Broken
  {
    var input := Framed(payload)[..k];
    Be32RoundTrip(|payload|);
    if k >= 4 {
      assert input[..4] == Be32(|payload|);
    }
  }

  /** A frame: four bytes of length, the most significant first, and that many bytes that parse as `m`. */
  predicate IsFrame(parse: Parser, frame: Bytes, m: Message) {
    && |frame| >= 4
    && frame[0] as int * 0x100_0000 + frame[1] as int * 0x1_0000 + frame[2] as int * 0x100 + frame[3] as int ==
       |frame| - 4
    && |frame| - 4 <= 16 * 1024 * 1024 && parse(frame[4..]) == Some(m)
  }

  /** Whatever arrives: a message is received if and only if the bytes begin with its frame. */
  lemma ReceivedExactly(parse: Parser, input: Bytes, m: Message, rest: Bytes)
    ensures Receive(parse, input) == Got(m, rest) <==>
              exists n :: 0 <= n <= |input| && IsFrame(parse, input[..n], m) && rest == input[n..]
  {
    if Receive(parse, input) == Got(m, rest) {
      var n := 4 + FromBe32(input[..4]);
      assert input[..n][4..] == input[4..n] && input[..n][..4] == input[..4];
      assert IsFrame(parse, input[..n], m);
    }
    if n :| 0 <= n <= |input| && IsFrame(parse, input[..n], m) && rest == input[n..] {
      assert input[..n][4..] == input[4..n] && input[..n][..4] == input[..4];
      assert FromBe32(input[..4]) == n - 4;
    }
  }

  /** With nothing received, the connection ended between frames, or in one, or the frame is no good. */
  lemma EofExactly(parse: Parser, input: Bytes)
    ensures Receive(parse, input).Eof? <==> |input| < 4
  {
  }

  // ---- Sequences of messages ----

  type Printer = Message -> Bytes

  /** The frames of `ms`, when each fits. */
  function Frames(print_: Printer, ms: seq<Message>): Bytes
    requires AllFit(print_, ms)
  {
    if ms == [] then [] else Framed(print_(ms[0])) + Frames(print_, ms[1..])
  }

  predicate AllFit(print_: Printer, ms: seq<Message>) {
    forall i :: 0 <= i < |ms| ==> |print_(ms[i])| <= MAX_FRAME_SIZE
  }

  /** Each of `ms` fits a frame and is read back as it was. */
  predicate Carried(parse: Parser, print_: Printer, ms: seq<Message>) {
    AllFit(print_, ms) && forall i :: 0 <= i < |ms| ==> parse(print_(ms[i])) == Some(ms[i])
  }

  lemma FitParts(print_: Printer, a: seq<Message>, b: seq<Message>)
    ensures AllFit(print_, a + b) <==> AllFit(print_, a) && AllFit(print_, b)
  {
    if AllFit(print_, a + b) {
      forall i | 0 <= i < |a| ensures |print_(a[i])| <= MAX_FRAME_SIZE { assert (a + b)[i] == a[i]; }
      forall i | 0 <= i < |b| ensures |print_(b[i])| <= MAX_FRAME_SIZE { assert (a + b)[|a| + i] == b[i]; }
    }
  }

  lemma {:induction false} FramesAppend(print_: Printer, a: seq<Message>, b: seq<Message>)
    requires AllFit(print_, a) && AllFit(print_, b)
    ensures AllFit(print_, a + b) && Frames(print_, a + b) == Frames(print_, a) + Frames(print_, b)
  {
    FitParts(print_, a, b);
    if a == [] {
      assert a + b == b;
    } else {
      assert (a + b)[0] == a[0] && (a + b)[1..] == a[1..] + b;
      FramesAppend(print_, a[1..], b);
      var frame, f, g := Framed(print_(a[0])), Frames(print_, a[1..]), Frames(print_, b);
      assert frame + (f + g) == (frame + f) + g;
    }
  }

  /** The messages in `input` up to its end or the first broken frame. */
  datatype Arrivals = Arrivals(messages: seq<Message>, broken: bool)

  /** `ms` arrived before `a`. */
  function Then(ms: seq<Message>, a: Arrivals): Arrivals { Arrivals(ms + a.messages, a.broken) }

  function Arriving(parse: Parser, input: Bytes): Arrivals
    decreases |input|
  {
    match Receive(parse, input)
    case Eof => Arrivals([], false)
    case Broken => Arrivals([], true)
    case Got(m, rest) => Then([m], Arriving(parse, rest))
  }

  lemma ArrivingOne(parse: Parser, payload: Bytes, m: Message, rest: Bytes)
    requires |payload| <= MAX_FRAME_SIZE && parse(payload) == Some(m)
    ensures Arriving(parse, Framed(payload) + rest) == Then([m], Arriving(parse, rest))
  {
    ReceiveFramed(parse, payload, rest);
  }

  lemma ThenThen(m: Message, ms: seq<Message>, a: Arrivals)
    ensures Then([m], Then(ms, a)) == Then([m] + ms, a) && Then([], a) == a
  {
    assert [m] + (ms + a.messages) == [m] + ms + a.messages;
    assert [] + a.messages == a.messages;
  }

  /** Frames arrive one by one, in order, and nothing behind them is touched. */
  lemma {:induction false} ArrivingFrames(parse: Parser, print_: Printer, ms: seq<Message>, rest: Bytes)
    requires Carried(parse, print_, ms)
    ensures Arriving(parse, Frames(print_, ms) + rest) == Then(ms, Arriving(parse, rest))
  {
    if ms == [] {
      assert Frames(print_, ms) + rest == rest;
      ThenThen(Shutdown, [], Arriving(parse, rest));
    } else {
      var frame, tail := Framed(print_(ms[0])), Frames(print_, ms[1..]);
      assert Frames(print_, ms) + rest == frame + (tail + rest);
      ArrivingOne(parse, print_(ms[0]), ms[0], tail + rest);
      ArrivingFrames(parse, print_, ms[1..], rest);
      ThenThen(ms[0], ms[1..], Arriving(parse, rest));
      assert [ms[0]] + ms[1..] == ms;
    }
  }

  /** Cut anywhere, the frames give a proper beginning of the messages and nothing else. */
  lemma {:induction false} ArrivingCut(parse: Parser, print_: Printer, ms: seq<Message>, k: nat)
    requires Carried(parse, print_, ms) && k < |Frames(print_, ms)|
    ensures Arriving(parse, Frames(print_, ms)[..k]).messages < ms
  {
    var frame, tail := Framed(print_(ms[0])), Frames(print_, ms[1..]);
    var input := (frame + tail)[..k];
    if k < |frame| {
      assert input == frame[..k];
      ReceiveCut(parse, print_(ms[0]), k);
    } else {
      assert input == frame + tail[..k - |frame|];
      ArrivingOne(parse, print_(ms[0]), ms[0], tail[..k - |frame|]);
      ArrivingCut(parse, print_, ms[1..], k - |frame|);
      var after := Arriving(parse, tail[..k - |frame|]).messages;
      assert [ms[0]] + after < [ms[0]] + ms[1..] == ms;
    }
  }

  // ---- The two messages that carry a job's result ----

  /** The bytes of an ASCII text. */
  function Octets(s: string): Bytes {
    seq(|s|, i requires 0 <= i < |s| => s[i] as int % 256)
  }

  /** A JSON string none of whose characters needs an escape. */
  function Quoted(s: string): string { "\"" + s + "\"" }

  function ChunkJson(stream: string, data: string): string {
    "{\"data\":" + Quoted(data) + ",\"stream\":" + Quoted(stream) + ",\"type\":\"output_chunk\"}"
  }

  function DoneJson(exitCode: int, durationMs: u64): string {
    "{\"duration_ms\":" + Dec(durationMs) + ",\"exit_code\":" + SignedDec(exitCode) + ",\"type\":\"job_done\"}"
  }

  datatype Stream = Stdout | Stderr

  function Name(to: Stream): string { if to == Stdout then "stdout" else "stderr" }

  function StreamNamed(name: string): Option<Stream> {
    if name == "stdout" then Some(Stdout) else if name == "stderr" then Some(Stderr) else None
  }

  lemma NameRoundTrip(to: Stream)
    ensures StreamNamed(Name(to)) == Some(to)
  {
    assert "stdout"[3] == 'o' && "stderr"[3] == 'e';
  }

  predicate IsI32(n: int) { -0x8000_0000 <= n < 0x8000_0000 }

  /** What the agent writes; only the two messages below are ever sent for a job. */
  function PrintJson(m: Message): Bytes {
    match m
    case OutputChunk(stream, data) => Octets(ChunkJson(stream, data))
    case JobDone(code, ms) => Octets(DoneJson(code, ms))
    case _ => []
  }

  /** A JSON reader that reads these texts back. */
  ghost predicate ReadsBack(parse: Parser) {
    && (forall to: Stream, data :: IsBase64(data) ==>
          parse(PrintJson(OutputChunk(Name(to), data))) == Some(OutputChunk(Name(to), data)))
    && (forall code, ms: u64 :: IsI32(code) ==> parse(PrintJson(JobDone(code, ms))) == Some(JobDone(code, ms)))
  }

  lemma ChunkJsonLength(stream: string, data: string)
    ensures |Octets(ChunkJson(stream, data))| <= |stream| + |data| + 60
  {
  }

  lemma {:induction false} DecLength(n: nat, k: nat, limit: nat)
    requires n < limit && k > 0 && limit <= Power10(k)
    ensures |Dec(n)| <= k
  {
    if n >= 10 {
      if k == 1 {
        assert false;
      } else {
        DecLength(n / 10, k - 1, Power10(k - 1));
      }
    }
  }

  function Power10(k: nat): nat {
    if k == 0 then 1 else 10 * Power10(k - 1)
  }

  lemma DoneJsonLength(code: int, ms: u64)
    requires IsI32(code)
    ensures |Octets(DoneJson(code, ms))| <= 100
  {
    TenToTheTwenty();
    DecLength(ms, 20, U64_LIMIT);
    DecLength(if code < 0 then -code else code, 20, U64_LIMIT);
  }

  lemma TenToTheTwenty()
    ensures U64_LIMIT <= Power10(20)
  {
    assert Power10(5) == 100000;
    assert Power10(10) == 10000000000;
    assert Power10(15) == 1000000000000000;
    assert Power10(20) == 100000000000000000000;
  }
}
