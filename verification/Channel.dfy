// A job inside a microVM: the agent sends what the tool printed, the host writes it to two files.
module Channel {
  import opened Common
  import opened Base64
  import opened Wire

  const OUTPUT_CHUNK_SIZE: int := 64 * 1024
  const MAX_OUTPUT_BYTES: int := 64 * 1024 * 1024
  const MAX_STREAM_BYTES: int := 1024 * 1024 * 1024

  // ---- The agent ----

  /** What the agent keeps of one stream. */
  function Capped(data: Bytes): (r: Bytes)
    ensures r <= data && |r| <= MAX_OUTPUT_BYTES
    ensures |data| <= MAX_OUTPUT_BYTES ==> r == data
    ensures |data| > MAX_OUTPUT_BYTES ==> |r| == MAX_OUTPUT_BYTES
  {
    if |data| <= MAX_OUTPUT_BYTES then data else data[..MAX_OUTPUT_BYTES]
  }

  function ChunkSize(data: Bytes): (n: nat)
    ensures n <= |data| && n <= OUTPUT_CHUNK_SIZE && (data != [] ==> n > 0)
  {
    if |data| < OUTPUT_CHUNK_SIZE then |data| else OUTPUT_CHUNK_SIZE
  }

  function ChunkMessage(to: Stream, chunk: Bytes): Message { OutputChunk(Name(to), EncodeFrom(chunk)) }

  /** One stream in chunks. */
  function Chunks(to: Stream, data: Bytes): seq<Message> {
    if data == [] then []
    else [ChunkMessage(to, data[..ChunkSize(data)])] + Chunks(to, data[ChunkSize(data)..])
  }

  /** Everything the agent sends for a job. */
  function JobMessages(stdout: Bytes, stderr: Bytes, code: int, ms: u64): seq<Message> {
    Chunks(Stdout, Capped(stdout)) + (Chunks(Stderr, Capped(stderr)) + [JobDone(code, ms)])
  }

  /** A chunk fits a frame, and a reader of plain JSON reads it back. */
  lemma ChunkCarried(parse: Parser, to: Stream, chunk: Bytes)
    requires |chunk| <= OUTPUT_CHUNK_SIZE
    ensures AllFit(PrintJson, [ChunkMessage(to, chunk)])
    ensures ReadsBack(parse) ==> Carried(parse, PrintJson, [ChunkMessage(to, chunk)])
  {
    EncodedLength(chunk);
    ChunkJsonLength(Name(to), EncodeFrom(chunk));
    OnlyAlphabet(chunk);
  }

  lemma {:induction false} ChunksCarried(parse: Parser, to: Stream, data: Bytes)
    ensures AllFit(PrintJson, Chunks(to, data))
    ensures ReadsBack(parse) ==> Carried(parse, PrintJson, Chunks(to, data))
    decreases |data|
  {
    if data == [] {
    } else {
      ChunkCarried(parse, to, data[..ChunkSize(data)]);
      ChunksCarried(parse, to, data[ChunkSize(data)..]);
    }
  }

  lemma DoneCarried(parse: Parser, code: int, ms: u64)
    requires IsI32(code)
    ensures AllFit(PrintJson, [JobDone(code, ms)])
    ensures ReadsBack(parse) ==> Carried(parse, PrintJson, [JobDone(code, ms)])
  {
    DoneJsonLength(code, ms);
  }

  /** No frame of a finished job is ever too large to send. */
  lemma JobCarried(parse: Parser, stdout: Bytes, stderr: Bytes, code: int, ms: u64)
    requires IsI32(code)
    ensures AllFit(PrintJson, JobMessages(stdout, stderr, code, ms))
    ensures ReadsBack(parse) ==> Carried(parse, PrintJson, JobMessages(stdout, stderr, code, ms))
  {
    ChunksCarried(parse, Stdout, Capped(stdout));
    ChunksCarried(parse, Stderr, Capped(stderr));
    DoneCarried(parse, code, ms);
  }

  /** The bytes of a job on the wire. */
  function JobBytes(stdout: Bytes, stderr: Bytes, code: int, ms: u64): Bytes
    requires IsI32(code)
  {
    JobCarried(_ => None, stdout, stderr, code, ms);
    Frames(PrintJson, JobMessages(stdout, stderr, code, ms))
  }

  class Agent {
    const print_: Printer
    var sent: Bytes

    constructor (p: Printer)
      ensures print_ == p && sent == []
    {
      print_, sent := p, [];
    }

    /** Sends one frame, or nothing when the message is over the frame limit. */
    method SendMessage(m: Message) returns (ok: bool)
      modifies this
      ensures ok == (|print_(m)| <= MAX_FRAME_SIZE)
      ensures sent == if ok then old(sent) + Framed(print_(m)) else old(sent)
    {
      var frame := EncodeFrame(print_(m));
      ok := frame.Some?;
      if ok { sent := sent + frame.value; }
    }

    /** The chunk at `i`, the next of `all`. */
    method SendNext(to: Stream, data: Bytes, i: nat, ghost all: seq<Message>, ghost before: Bytes)
      returns (ok: bool, n: nat)
      requires i < |data| && Underway(print_, all, Chunks(to, data[i..]), before, sent)
      modifies this
      ensures 0 < n == ChunkSize(data[i..])
      ensures if ok then Underway(print_, all, Chunks(to, data[i + n..]), before, sent) else !AllFit(print_, all)
    {
      SendChunk(print_, all, to, data, i, before, sent);
      n := ChunkSize(data[i..]);
      ok := SendMessage(ChunkMessage(to, data[i..i + n]));
    }

    /** All chunks of one stream, or those before the first that does not fit. */
    method SendStream(to: Stream, data: Bytes) returns (ok: bool)
      modifies this
      ensures ok == AllFit(print_, Chunks(to, data))
      ensures ok ==> sent == old(sent) + Frames(print_, Chunks(to, data))
    {
      var i := 0;
      ghost var all := Chunks(to, data);
      assert data[0..] == data;
      while i < |data|
        invariant 0 <= i <= |data|
        invariant Underway(print_, all, Chunks(to, data[i..]), old(sent), sent)
      {
        var n;
        ok, n := SendNext(to, data, i, all, old(sent));
        if !ok { return; }
        i := i + n;
      }
      assert data[i..] == [];
      AllSent(print_, all, old(sent), sent);
      ok := true;
    }

    /** A job whose messages all fit is sent whole. */
    method ReportJob(stdout: Bytes, stderr: Bytes, code: int, ms: u64) returns (ok: bool)
      modifies this
      ensures ok == AllFit(print_, JobMessages(stdout, stderr, code, ms))
      ensures ok ==> sent == old(sent) + Frames(print_, JobMessages(stdout, stderr, code, ms))
    {
      JobParts(print_, Chunks(Stdout, Capped(stdout)), Chunks(Stderr, Capped(stderr)), [JobDone(code, ms)], sent);
      ok := SendStream(Stdout, Capped(stdout));
      if !ok { return; }
      ok := SendStream(Stderr, Capped(stderr));
      if !ok { return; }
      ok := SendMessage(JobDone(code, ms));
      FramesOfOne(print_, JobDone(code, ms));
    }
  }

  /** `rest` of `all` is still to be sent. */
  predicate Underway(print_: Printer, all: seq<Message>, rest: seq<Message>, before: Bytes, sent: Bytes) {
    && (AllFit(print_, all) <==> AllFit(print_, rest))
    && (AllFit(print_, all) ==> sent + Frames(print_, rest) == before + Frames(print_, all))
  }

  lemma SendStep(print_: Printer, all: seq<Message>, rest: seq<Message>, before: Bytes, sent: Bytes)
    requires rest != [] && Underway(print_, all, rest, before, sent)
    ensures if |print_(rest[0])| <= MAX_FRAME_SIZE
            then Underway(print_, all, rest[1..], before, sent + Framed(print_(rest[0])))
            else !AllFit(print_, all)
  {
    FitParts(print_, [rest[0]], rest[1..]);
    assert [rest[0]] + rest[1..] == rest;
    if AllFit(print_, rest) {
      assert sent + (Framed(print_(rest[0])) + Frames(print_, rest[1..])) ==
             sent + Framed(print_(rest[0])) + Frames(print_, rest[1..]);
    }
  }

  lemma SendChunk(print_: Printer, all: seq<Message>, to: Stream, data: Bytes, i: nat, before: Bytes, sent: Bytes)
    requires i < |data| && Underway(print_, all, Chunks(to, data[i..]), before, sent)
    ensures var n := ChunkSize(data[i..]);
            var m := ChunkMessage(to, data[i..i + n]);
            if |print_(m)| <= MAX_FRAME_SIZE
            then Underway(print_, all, Chunks(to, data[i + n..]), before, sent + Framed(print_(m)))
            else !AllFit(print_, all)
  {
    ChunksFrom(to, data, i);
    var n := ChunkSize(data[i..]);
    SendFirst(print_, all, ChunkMessage(to, data[i..i + n]), Chunks(to, data[i + n..]), before, sent);
  }

  lemma SendFirst(print_: Printer, all: seq<Message>, m: Message, rest: seq<Message>, before: Bytes, sent: Bytes)
    requires Underway(print_, all, [m] + rest, before, sent)
    ensures if |print_(m)| <= MAX_FRAME_SIZE then Underway(print_, all, rest, before, sent + Framed(print_(m)))
            else !AllFit(print_, all)
  {
    SendStep(print_, all, [m] + rest, before, sent);
    assert ([m] + rest)[0] == m && ([m] + rest)[1..] == rest;
  }

  lemma AllSent(print_: Printer, all: seq<Message>, before: Bytes, sent: Bytes)
    requires Underway(print_, all, [], before, sent)
    ensures AllFit(print_, all) && sent == before + Frames(print_, all)
  {
    assert sent + [] == sent;
  }

  lemma ChunksFrom(to: Stream, data: Bytes, i: nat)
    requires i < |data|
    ensures var n := ChunkSize(data[i..]);
            Chunks(to, data[i..]) == [ChunkMessage(to, data[i..i + n])] + Chunks(to, data[i + n..])
  {
    var n := ChunkSize(data[i..]);
    assert data[i..][..n] == data[i..i + n] && data[i..][n..] == data[i + n..];
  }

  lemma FramesOfOne(print_: Printer, m: Message)
    ensures AllFit(print_, [m]) <==> |print_(m)| <= MAX_FRAME_SIZE
    ensures AllFit(print_, [m]) ==> Frames(print_, [m]) == Framed(print_(m))
  {
    assert [m][0] == m && [m][1..] == [];
    if AllFit(print_, [m]) { assert Framed(print_(m)) + [] == Framed(print_(m)); }
  }

  lemma JobParts(print_: Printer, a: seq<Message>, b: seq<Message>, c: seq<Message>, sent: Bytes)
    ensures AllFit(print_, a + (b + c)) <==> AllFit(print_, a) && AllFit(print_, b) && AllFit(print_, c)
    ensures AllFit(print_, a + (b + c)) ==>
              sent + Frames(print_, a) + Frames(print_, b) + Frames(print_, c) == sent + Frames(print_, a + (b + c))
  {
    FitParts(print_, b, c);
    FitParts(print_, a, b + c);
    if AllFit(print_, a + (b + c)) {
      FramesAppend(print_, b, c);
      FramesAppend(print_, a, b + c);
      Reassociate(sent, Frames(print_, a), Frames(print_, b), Frames(print_, c));
    }
  }

  lemma Reassociate(sent: Bytes, a: Bytes, b: Bytes, c: Bytes)
    ensures sent + a + b + c == sent + (a + (b + c))
  {
  }

  // ---- The host ----

  datatype JobResult = Exited(code: int) | TimedOut | Disconnected | Corrupt | OverCap | GuestError | Unexpected

  /** The two files, the bytes counted against the cap, and the turns of the receive loop so far. */
  datatype Host = Host(stdout: Bytes, stderr: Bytes, total: u64, turn: nat)

  datatype Reaction = Continue(host: Host) | Stop(result: JobResult)

  /** One chunk counted and written; a chunk for an unknown stream is only counted. */
  function Written(h: Host, to: Option<Stream>, data: Bytes): Host {
    Host(if to == Some(Stdout) then h.stdout + data else h.stdout,
         if to == Some(Stderr) then h.stderr + data else h.stderr,
         SaturatingAdd64(h.total, |data|), h.turn + 1)
  }

  /** What a message says to the host; a chunk that is not base64 carries no data. */
  datatype Event = Chunk(to: Option<Stream>, data: Option<Bytes>) | Trace | Done(code: int) | Failed | Other

  function EventOf(m: Message): Event {
    match m
    case OutputChunk(stream, text) => Chunk(StreamNamed(stream), DecodeFrom(text))
    case TraceEvent(_) => Trace
    case JobDone(code, _) => Done(code)
    case Failure(_) => Failed
    case _ => Other
  }

  function EventsOf(ms: seq<Message>): (es: seq<Event>)
    ensures |es| == |ms| && forall i :: 0 <= i < |ms| ==> es[i] == EventOf(ms[i])
  {
    seq(|ms|, i requires 0 <= i < |ms| => EventOf(ms[i]))
  }

  function React(h: Host, e: Event): Reaction {
    match e
    case Chunk(to, data) =>
      if data.None? then Stop(Corrupt)
      else if SaturatingAdd64(h.total, |data.value|) > MAX_STREAM_BYTES then Stop(OverCap)
      else Continue(Written(h, to, data.value))
    case Trace => Continue(h.(turn := h.turn + 1))
    case Done(code) => Stop(Exited(code))
    case Failed => Stop(GuestError)
    case Other => Stop(Unexpected)
  }

  datatype JobEnd = JobEnd(result: JobResult, stdout: Bytes, stderr: Bytes)

  function Ended(result: JobResult, h: Host): JobEnd { JobEnd(result, h.stdout, h.stderr) }

  /** The deadline is looked at once a turn: `late(i)` says whether it has passed at turn `i`. */
  type Clock = nat -> bool

  function Handle(late: Clock, h: Host, es: seq<Event>, broken: bool): JobEnd
    decreases |es|
  {
    if late(h.turn) then Ended(TimedOut, h)
    else if es == [] then Ended(if broken then Corrupt else Disconnected, h)
    else
      match React(h, es[0])
      case Stop(result) => Ended(result, h)
      case Continue(h') => Handle(late, h', es[1..], broken)
  }

  const FRESH := Host([], [], 0, 0)

  function Serve(parse: Parser, late: Clock, h: Host, input: Bytes): JobEnd {
    var a := Arriving(parse, input);
    Handle(late, h, EventsOf(a.messages), a.broken)
  }

  /** One turn of the receive loop. */
  lemma ServeTurn(parse: Parser, late: Clock, h: Host, input: Bytes)
    ensures Serve(parse, late, h, input) ==
              if late(h.turn) then Ended(TimedOut, h)
              else match Receive(parse, input)
                   case Eof => Ended(Disconnected, h)
                   case Broken => Ended(Corrupt, h)
                   case Got(m, rest) =>
                     match React(h, EventOf(m))
                     case Stop(result) => Ended(result, h)
                     case Continue(h') => Serve(parse, late, h', rest)
  {
    var r := Receive(parse, input);
    if r.Got? {
      assert EventsOf(Arriving(parse, input).messages)[1..] == EventsOf(Arriving(parse, r.rest).messages);
    }
  }

  class Vm {
    var stdoutFile: Bytes
    var stderrFile: Bytes
    var socket: Bytes

    constructor (input: Bytes)
      ensures socket == input && stdoutFile == [] && stderrFile == []
    {
      stdoutFile, stderrFile, socket := [], [], input;
    }

    /** Takes exactly `n` bytes off the socket; a socket with fewer is used up. */
    method ReadExact(n: nat) returns (r: Option<Bytes>)
      modifies this`socket
      ensures n <= |old(socket)| ==> r == Some(old(socket)[..n]) && socket == old(socket)[n..]
      ensures n > |old(socket)| ==> r == None && socket == []
    {
      if |socket| < n {
        socket := [];
        return None;
      }
      r := Some(socket[..n]);
      socket := socket[n..];
    }

    /** Reads one frame; after a good one the socket stands exactly behind it. */
    method Recv(parse: Parser) returns (r: Received)
      modifies this`socket
      ensures r == Receive(parse, old(socket))
      ensures r.Got? ==> socket == r.rest
      ensures EndsWith(old(socket), socket)
    {
      var head := ReadExact(4);
      if head.None? { return Eof; }
      var len := FromBe32(head.value);
      if len > MAX_FRAME_SIZE { return Broken; }
      var payload := ReadExact(len);
      if payload.None? { return Broken; }
      assert old(socket)[4..][..len] == old(socket)[4..4 + len] && old(socket)[4..][len..] == old(socket)[4 + len..];
      var m := parse(payload.value);
      r := if m.None? then Broken else Got(m.value, socket);
    }

    /** Acts on one message: the result that ends the job, or the new byte count. */
    method HandleMessage(m: Message, total: u64, ghost turn: nat) returns (stop: Option<JobResult>, counted: u64)
      modifies this`stdoutFile, this`stderrFile
      ensures var h := Host(old(stdoutFile), old(stderrFile), total, turn);
              match React(h, EventOf(m))
              case Stop(result) => stop == Some(result) && stdoutFile == h.stdout && stderrFile == h.stderr
              case Continue(h') => stop == None && Host(stdoutFile, stderrFile, counted, turn + 1) == h'
    {
      stop, counted := None, total;
      match m {
        case OutputChunk(stream, text) =>
          var data := Base64.Decode(text);
          if data.None? { return Some(Corrupt), total; }
          counted := SaturatingAdd64(total, |data.value|);
          if counted > MAX_STREAM_BYTES { return Some(OverCap), counted; }
          var to := StreamNamed(stream);
          if to == Some(Stdout) {
            stdoutFile := stdoutFile + data.value;
          } else if to == Some(Stderr) {
            stderrFile := stderrFile + data.value;
          }
        case TraceEvent(_) =>
        case JobDone(code, _) => stop := Some(Exited(code));
        case Failure(_) => stop := Some(GuestError);
        case _ => stop := Some(Unexpected);
      }
    }

    /** Both files start empty and stay under the cap; what is read off the socket is a beginning of what arrives. */
    method RunJob(parse: Parser, late: Clock) returns (result: JobResult)
      modifies this
      ensures JobEnd(result, stdoutFile, stderrFile) == Serve(parse, late, FRESH, old(socket))
      ensures exists n ::
                ExplainedBy(late, Arriving(parse, old(socket)), n, JobEnd(result, stdoutFile, stderrFile))
      ensures |stdoutFile| + |stderrFile| <= MAX_STREAM_BYTES
      ensures EndsWith(old(socket), socket)
    {
      ServeCap(parse, late, socket);
      ghost var end := JobExplained(parse, late, socket);
      stdoutFile, stderrFile := [], [];
      var total: u64, turn: nat := 0, 0;
      while true
        invariant Serve(parse, late, Host(stdoutFile, stderrFile, total, turn), socket) ==
                    Serve(parse, late, FRESH, old(socket))
        invariant EndsWith(old(socket), socket)
        decreases |socket|
      {
        ServeTurn(parse, late, Host(stdoutFile, stderrFile, total, turn), socket);
        if late(turn) { return TimedOut; }
        var received := Recv(parse);
        if !received.Got? { return if received.Eof? then Disconnected else Corrupt; }
        var stop;
        stop, total := HandleMessage(received.message, total, turn);
        if stop.Some? { return stop.value; }
        turn := turn + 1;
      }
    }
  }

  // ---- What holds of any guest ----

  predicate WithinCap(h: Host) { |h.stdout| + |h.stderr| <= h.total <= MAX_STREAM_BYTES }

  /** Whatever arrives, the host never writes more than the cap, and what it wrote stays. */
  lemma {:induction false} HostCap(late: Clock, h: Host, es: seq<Event>, broken: bool)
    requires WithinCap(h)
    ensures var e := Handle(late, h, es, broken);
            |e.stdout| + |e.stderr| <= MAX_STREAM_BYTES && h.stdout <= e.stdout && h.stderr <= e.stderr
    decreases |es|
  {
    if !late(h.turn) && es != [] && React(h, es[0]).Continue? {
      HostCap(late, React(h, es[0]).host, es[1..], broken);
    }
  }

  lemma ServeCap(parse: Parser, late: Clock, input: Bytes)
    ensures var e := Serve(parse, late, FRESH, input); |e.stdout| + |e.stderr| <= MAX_STREAM_BYTES
  {
    var a := Arriving(parse, input);
    HostCap(late, FRESH, EventsOf(a.messages), a.broken);
  }

  // ---- What any job comes to ----

  function Decoded(m: Message): Option<Bytes> { if m.OutputChunk? then DecodeFrom(m.data) else None }

  /** A trace event, or a chunk that can be decoded. */
  predicate Harmless(m: Message) { m.TraceEvent? || Decoded(m).Some? }

  /** The decoded bytes of the first `n` messages, whatever stream they name. */
  function Volume(ms: seq<Message>, n: nat): nat
    requires n <= |ms|
  {
    if n == 0 then 0 else Volume(ms, n - 1) + (if Decoded(ms[n - 1]).Some? then |Decoded(ms[n - 1]).value| else 0)
  }

  /** The decoded chunks of one stream among the first `n` messages, put together. */
  function Gathered(ms: seq<Message>, n: nat, stream: string): Bytes
    requires n <= |ms|
  {
    if n == 0 then []
    else
      var m := ms[n - 1];
      Gathered(ms, n - 1, stream) +
      if m.OutputChunk? && m.stream == stream && Decoded(m).Some? then Decoded(m).value else []
  }

  /** The first `n` messages are in time, harmless and together within the cap. */
  ghost predicate Unremarkable(late: Clock, ms: seq<Message>, n: nat) {
    && n <= |ms| && (forall i :: 0 <= i < n ==> !late(i) && Harmless(ms[i]))
    && Volume(ms, n) <= MAX_STREAM_BYTES
  }

  /** What ends the job at turn `n`, if anything does. */
  function EndsWithin(late: Clock, a: Arrivals, n: nat): Option<JobResult>
    requires n <= |a.messages|
  {
    if late(n) then Some(TimedOut)
    else if n == |a.messages| then Some(if a.broken then Corrupt else Disconnected)
    else
      match a.messages[n]
      case JobDone(code, _) => Some(Exited(code))
      case Failure(_) => Some(GuestError)
      case TraceEvent(_) => None
      case OutputChunk(_, _) =>
        if Decoded(a.messages[n]).None? then Some(Corrupt)
        else if Volume(a.messages, n + 1) > MAX_STREAM_BYTES then Some(OverCap)
        else None
      case _ => Some(Unexpected)
  }

  /** The job ended at turn `n` with everything before it unremarkable, and its files hold what came before. */
  ghost predicate ExplainedBy(late: Clock, a: Arrivals, n: nat, e: JobEnd) {
    && Unremarkable(late, a.messages, n) && EndsWithin(late, a, n) == Some(e.result)
    && e.stdout == Gathered(a.messages, n, "stdout") && e.stderr == Gathered(a.messages, n, "stderr")
  }

  /** The host after `n` unremarkable messages. */
  function HostAt(ms: seq<Message>, n: nat): Host
    requires n <= |ms| && Volume(ms, n) <= MAX_STREAM_BYTES
  {
    Host(Gathered(ms, n, "stdout"), Gathered(ms, n, "stderr"), Volume(ms, n), n)
  }

  lemma ReactExactly(late: Clock, a: Arrivals, n: nat)
    requires n < |a.messages| && Unremarkable(late, a.messages, n) && !late(n)
    ensures match React(HostAt(a.messages, n), EventOf(a.messages[n]))
            case Stop(result) => EndsWithin(late, a, n) == Some(result)
            case Continue(h) => Unremarkable(late, a.messages, n + 1) && h == HostAt(a.messages, n + 1)
  {
  }

  lemma {:induction false} HandleExplained(late: Clock, a: Arrivals, n: nat) returns (end: nat)
    requires Unremarkable(late, a.messages, n)
    ensures ExplainedBy(late, a, end, Handle(late, HostAt(a.messages, n), EventsOf(a.messages)[n..], a.broken))
    decreases |a.messages| - n
  {
    var es := EventsOf(a.messages)[n..];
    if late(n) || n == |a.messages| {
      end := n;
    } else {
      ReactExactly(late, a, n);
      assert es[0] == EventOf(a.messages[n]) && es[1..] == EventsOf(a.messages)[n + 1..];
      if React(HostAt(a.messages, n), es[0]).Stop? {
        end := n;
      } else {
        end := HandleExplained(late, a, n + 1);
      }
    }
  }

  /** Whatever bytes arrive and whenever the deadline passes, the result and both files are explained. */
  lemma JobExplained(parse: Parser, late: Clock, input: Bytes) returns (n: nat)
    ensures ExplainedBy(late, Arriving(parse, input), n, Serve(parse, late, FRESH, input))
  {
    var a := Arriving(parse, input);
    n := HandleExplained(late, a, 0);
    assert EventsOf(a.messages)[0..] == EventsOf(a.messages);
  }

  lemma {:induction false} VolumeGrows(ms: seq<Message>, m: nat, n: nat)
    requires m <= n <= |ms|
    ensures Volume(ms, m) <= Volume(ms, n)
  {
    if m == n {
    } else {
      VolumeGrows(ms, m, n - 1);
    }
  }

  lemma GoesOn(late: Clock, a: Arrivals, n: nat)
    requires n < |a.messages| && !late(n) && Harmless(a.messages[n]) && Volume(a.messages, n + 1) <= MAX_STREAM_BYTES
    ensures EndsWithin(late, a, n).None?
  {
  }

  /** There is only one turn at which a job can end. */
  lemma OneEnd(late: Clock, a: Arrivals, m: nat, n: nat)
    requires Unremarkable(late, a.messages, n) && m < n
    ensures EndsWithin(late, a, m).None?
  {
    VolumeGrows(a.messages, m + 1, n);
    GoesOn(late, a, m);
  }

  /** An exit with this code is what ends the job at turn `n`. */
  ghost predicate ExitAt(late: Clock, ms: seq<Message>, n: nat, code: int) {
    && n < |ms| && ms[n].JobDone? && ms[n].exitCode == code
    && (forall i :: 0 <= i < n ==> Harmless(ms[i])) && Volume(ms, n) <= MAX_STREAM_BYTES
    && (forall i :: 0 <= i <= n ==> !late(i))
  }

  lemma ExitEnds(late: Clock, a: Arrivals, n: nat, code: int)
    requires Unremarkable(late, a.messages, n)
    ensures EndsWithin(late, a, n) == Some(Exited(code)) <==> ExitAt(late, a.messages, n, code)
  {
  }

  lemma NotHarmless(late: Clock, ms: seq<Message>, m: nat, n: nat, code: int)
    requires Unremarkable(late, ms, m) && ExitAt(late, ms, n, code)
    ensures m <= n && Unremarkable(late, ms, n)
  {
  }

  /**
   * For any bytes and any clock: the job is reported as an exit with a code if and only if some message says so,
   * all before it are trace events or chunks that decode to at most 1 GiB together, and every turn up to it is
   * in time.
   */
  lemma ExitedExactly(parse: Parser, late: Clock, input: Bytes, code: int)
    ensures Serve(parse, late, FRESH, input).result == Exited(code) <==>
              exists n: nat :: ExitAt(late, Arriving(parse, input).messages, n, code)
  {
    var a := Arriving(parse, input);
    var m := JobExplained(parse, late, input);
    ExitEnds(late, a, m, code);
    if n: nat :| ExitAt(late, a.messages, n, code) {
      NotHarmless(late, a.messages, m, n, code);
      if m < n { OneEnd(late, a, m, n); }
    }
  }

  // ---- What holds of the agent's messages ----

  /** `e` came from a host that had `h` and saw no more than some of `data` on stream `to`. */
  predicate Partial(e: JobEnd, h: Host, to: Stream, data: Bytes) {
    && !e.result.Exited?
    && e.stdout <= (if to == Stdout then h.stdout + data else h.stdout)
    && e.stderr <= (if to == Stderr then h.stderr + data else h.stderr)
    && (to == Stderr ==> e.stdout == h.stdout)
  }

  lemma PartialNone(result: JobResult, h: Host, to: Stream, data: Bytes)
    requires !result.Exited?
    ensures Partial(Ended(result, h), h, to, data)
  {
  }

  lemma PrefixOfSum(s: Bytes, a: Bytes, b: Bytes, c: Bytes)
    requires s <= (a + b) + c
    ensures s <= a + (b + c)
  {
    assert (a + b) + c == a + (b + c);
  }

  lemma PartialFirst(e: JobEnd, h: Host, to: Stream, chunk: Bytes, rest: Bytes)
    requires Partial(e, Written(h, Some(to), chunk), to, rest)
    ensures Partial(e, h, to, chunk + rest)
  {
    if to == Stdout {
      PrefixOfSum(e.stdout, h.stdout, chunk, rest);
    } else {
      PrefixOfSum(e.stderr, h.stderr, chunk, rest);
    }
  }

  /** One stream as the host sees it. */
  function Pieces(to: Stream, data: Bytes): seq<Event> {
    if data == [] then []
    else [Chunk(Some(to), Some(data[..ChunkSize(data)]))] + Pieces(to, data[ChunkSize(data)..])
  }

  lemma EventsAppend(a: seq<Message>, b: seq<Message>)
    ensures EventsOf(a + b) == EventsOf(a) + EventsOf(b)
  {
  }

  lemma ChunkEvent(to: Stream, chunk: Bytes)
    ensures EventsOf([ChunkMessage(to, chunk)]) == [Chunk(Some(to), Some(chunk))]
  {
    RoundTrip(chunk);
    NameRoundTrip(to);
  }

  /** Decoding undoes the encoding of every chunk. */
  lemma {:induction false} PiecesOf(to: Stream, data: Bytes)
    ensures EventsOf(Chunks(to, data)) == Pieces(to, data)
    decreases |data|
  {
    if data == [] {
    } else {
      var n := ChunkSize(data);
      ChunkEvent(to, data[..n]);
      PiecesOf(to, data[n..]);
      EventsAppend([ChunkMessage(to, data[..n])], Chunks(to, data[n..]));
    }
  }

  /** The host's state after a whole stream. */
  function After(h: Host, to: Stream, data: Bytes): Host
    requires h.total + |data| <= MAX_STREAM_BYTES
  {
    Host(if to == Stdout then h.stdout + data else h.stdout,
         if to == Stderr then h.stderr + data else h.stderr,
         h.total + |data|, h.turn + |Pieces(to, data)|)
  }

  lemma AfterFirst(h: Host, to: Stream, data: Bytes)
    requires data != [] && h.total + |data| <= MAX_STREAM_BYTES
    ensures var n := ChunkSize(data);
            var h' := Written(h, Some(to), data[..n]);
            h'.total + |data[n..]| <= MAX_STREAM_BYTES && After(h', to, data[n..]) == After(h, to, data)
  {
    var n := ChunkSize(data);
    assert h.stdout + data[..n] + data[n..] == h.stdout + data;
    assert h.stderr + data[..n] + data[n..] == h.stderr + data;
  }

  /** One turn of the loop. */
  lemma HandleOne(late: Clock, h: Host, e: Event, more: seq<Event>, broken: bool)
    requires !late(h.turn) && React(h, e).Continue?
    ensures Handle(late, h, [e] + more, broken) == Handle(late, React(h, e).host, more, broken)
  {
    assert ([e] + more)[1..] == more;
  }

  /** The host takes the first chunk of a stream and goes on with the rest. */
  lemma FirstChunk(late: Clock, h: Host, to: Stream, data: Bytes, more: seq<Event>, broken: bool)
    requires data != [] && h.total + |data| <= MAX_STREAM_BYTES && !late(h.turn)
    ensures var n := ChunkSize(data);
            Handle(late, h, Pieces(to, data) + more, broken) ==
            Handle(late, Written(h, Some(to), data[..n]), Pieces(to, data[n..]) + more, broken)
  {
    var n := ChunkSize(data);
    var m, rest := Chunk(Some(to), Some(data[..n])), Pieces(to, data[n..]);
    assert Pieces(to, data) + more == [m] + (rest + more);
    HandleOne(late, h, m, rest + more, broken);
  }

  /** The deadline passes in none of the `n` turns from `first` on. */
  ghost predicate OnTime(late: Clock, first: nat, n: nat) { forall j :: first <= j < first + n ==> !late(j) }

  /** A stream in chunks is written whole when there is time for it. */
  lemma {:induction false} StreamWritten(late: Clock, h: Host, to: Stream, data: Bytes, more: seq<Event>, broken: bool)
    requires h.total + |data| <= MAX_STREAM_BYTES && OnTime(late, h.turn, |Pieces(to, data)|)
    ensures Handle(late, h, Pieces(to, data) + more, broken) == Handle(late, After(h, to, data), more, broken)
    decreases |data|
  {
    if data == [] {
      assert Pieces(to, data) + more == more;
      assert h.stdout + [] == h.stdout && h.stderr + [] == h.stderr;
    } else {
      var n := ChunkSize(data);
      assert !late(h.turn);
      FirstChunk(late, h, to, data, more, broken);
      AfterFirst(h, to, data);
      StreamWritten(late, Written(h, Some(to), data[..n]), to, data[n..], more, broken);
    }
  }

  lemma FirstOfSome(late: Clock, h: Host, to: Stream, data: Bytes, j: nat, broken: bool)
    requires data != [] && h.total + |data| <= MAX_STREAM_BYTES && !late(h.turn) && 0 < j <= |Pieces(to, data)|
    ensures var n := ChunkSize(data);
            Handle(late, h, Pieces(to, data)[..j], broken) ==
            Handle(late, Written(h, Some(to), data[..n]), Pieces(to, data[n..])[..j - 1], broken)
  {
    var n := ChunkSize(data);
    var m, rest := Chunk(Some(to), Some(data[..n])), Pieces(to, data[n..]);
    assert ([m] + rest)[..j] == [m] + rest[..j - 1];
    HandleOne(late, h, m, rest[..j - 1], broken);
  }

  /** A stream that breaks off after `j` chunks, or meets the deadline, leaves a beginning of it. */
  lemma {:induction false} StreamCut(late: Clock, h: Host, to: Stream, data: Bytes, j: nat, broken: bool)
    requires h.total + |data| <= MAX_STREAM_BYTES && j <= |Pieces(to, data)|
    ensures Partial(Handle(late, h, Pieces(to, data)[..j], broken), h, to, data)
    decreases |data|
  {
    if late(h.turn) || j == 0 {
      PartialNone(if late(h.turn) then TimedOut else if broken then Corrupt else Disconnected, h, to, data);
    } else {
      var n := ChunkSize(data);
      var h', e := Written(h, Some(to), data[..n]), Handle(late, h, Pieces(to, data)[..j], broken);
      assert Partial(e, h', to, data[n..]) by {
        FirstOfSome(late, h, to, data, j, broken);
        AfterFirst(h, to, data);
        StreamCut(late, h', to, data[n..], j - 1, broken);
      }
      PartialFirst(e, h, to, data[..n], data[n..]);
      assert data[..n] + data[n..] == data;
    }
  }

  /** A deadline met within a stream hides everything behind it. */
  lemma {:induction false} LateInStream(late: Clock, h: Host, to: Stream, data: Bytes, more: seq<Event>, broken: bool)
    requires h.total + |data| <= MAX_STREAM_BYTES && !OnTime(late, h.turn, |Pieces(to, data)|)
    ensures Handle(late, h, Pieces(to, data) + more, broken) == Handle(late, h, Pieces(to, data), broken)
    decreases |data|
  {
    if !late(h.turn) {
      var n := ChunkSize(data);
      FirstChunk(late, h, to, data, more, broken);
      FirstChunk(late, h, to, data, [], broken);
      assert Pieces(to, data) + [] == Pieces(to, data) && Pieces(to, data[n..]) + [] == Pieces(to, data[n..]);
      AfterFirst(h, to, data);
      LateInStream(late, Written(h, Some(to), data[..n]), to, data[n..], more, broken);
    }
  }

  // ---- Whole jobs ----

  /** A job as the host sees it. */
  function JobPieces(stdout: Bytes, stderr: Bytes, code: int): seq<Event> {
    Pieces(Stdout, Capped(stdout)) + (Pieces(Stderr, Capped(stderr)) + [Done(code)])
  }

  lemma JobPiecesOf(stdout: Bytes, stderr: Bytes, code: int, ms: u64)
    ensures EventsOf(JobMessages(stdout, stderr, code, ms)) == JobPieces(stdout, stderr, code)
  {
    var a, b, c := Chunks(Stdout, Capped(stdout)), Chunks(Stderr, Capped(stderr)), [JobDone(code, ms)];
    EventsAppend(b, c);
    EventsAppend(a, b + c);
    assert EventsOf(c) == [Done(code)];
    PiecesOf(Stdout, Capped(stdout));
    PiecesOf(Stderr, Capped(stderr));
  }

  /** The turns of the host's loop that a job takes: one a chunk and one for the exit. */
  function JobTurns(stdout: Bytes, stderr: Bytes): nat { |JobPieces(stdout, stderr, 0)| }

  /** Both files hold exactly what the tool printed, up to the agent's limit, and the exit code is the tool's. */
  lemma JobDelivered(parse: Parser, late: Clock, stdout: Bytes, stderr: Bytes, code: int, ms: u64, more: Bytes)
    requires IsI32(code) && ReadsBack(parse) && OnTime(late, 0, JobTurns(stdout, stderr))
    ensures Serve(parse, late, FRESH, JobBytes(stdout, stderr, code, ms) + more) ==
              JobEnd(Exited(code), Capped(stdout), Capped(stderr))
  {
    JobCarried(parse, stdout, stderr, code, ms);
    JobPiecesOf(stdout, stderr, code, ms);
    var a := Arriving(parse, more);
    ServeFrames(parse, late, PrintJson, JobMessages(stdout, stderr, code, ms), more);
    JobHandled(late, stdout, stderr, code, EventsOf(a.messages), a.broken);
  }

  lemma ServeFrames(parse: Parser, late: Clock, print_: Printer, ms: seq<Message>, more: Bytes)
    requires Carried(parse, print_, ms)
    ensures var a := Arriving(parse, more);
            Serve(parse, late, FRESH, Frames(print_, ms) + more) ==
            Handle(late, FRESH, EventsOf(ms) + EventsOf(a.messages), a.broken)
  {
    ArrivingFrames(parse, print_, ms, more);
    EventsAppend(ms, Arriving(parse, more).messages);
  }

  lemma JobHandled(late: Clock, stdout: Bytes, stderr: Bytes, code: int, more: seq<Event>, broken: bool)
    requires OnTime(late, 0, JobTurns(stdout, stderr))
    ensures Handle(late, FRESH, JobPieces(stdout, stderr, code) + more, broken) ==
              JobEnd(Exited(code), Capped(stdout), Capped(stderr))
  {
    var out, err := Capped(stdout), Capped(stderr);
    var c1, c2, last := Pieces(Stdout, out), Pieces(Stderr, err), [Done(code)];
    Associative(c1, c2 + last, more);
    Associative(c2, last, more);
    OnTimeParts(late, |c1|, |c2|);
    var h1 := After(FRESH, Stdout, out);
    StreamWritten(late, FRESH, Stdout, out, c2 + (last + more), broken);
    assert h1.stdout == out && h1.stderr == [];
    TailHandled(late, h1, err, code, more, broken);
  }

  lemma TailHandled(late: Clock, h: Host, err: Bytes, code: int, more: seq<Event>, broken: bool)
    requires h.stderr == [] && h.total + |err| <= MAX_STREAM_BYTES
    requires var n := |Pieces(Stderr, err)|; OnTime(late, h.turn, n) && !late(h.turn + n)
    ensures Handle(late, h, Pieces(Stderr, err) + ([Done(code)] + more), broken) == JobEnd(Exited(code), h.stdout, err)
  {
    StreamWritten(late, h, Stderr, err, [Done(code)] + more, broken);
    HandleDone(late, After(h, Stderr, err), code, more, broken);
    assert [] + err == err;
  }

  lemma OnTimeParts(late: Clock, a: nat, b: nat)
    requires OnTime(late, 0, a + (b + 1))
    ensures OnTime(late, 0, a) && OnTime(late, a, b) && !late(a + b)
  {
  }

  lemma NothingElse(parse: Parser, late: Clock, stdout: Bytes, stderr: Bytes, code: int, ms: u64, sent: Bytes)
    requires IsI32(code) && ReadsBack(parse) && OnTime(late, 0, JobTurns(stdout, stderr))
    requires sent == [] + JobBytes(stdout, stderr, code, ms)
    ensures Serve(parse, late, FRESH, sent) == JobEnd(Exited(code), Capped(stdout), Capped(stderr))
  {
    JobDelivered(parse, late, stdout, stderr, code, ms, []);
    assert sent == JobBytes(stdout, stderr, code, ms) + [];
  }

  /** The agent's program and the host's, end to end over a connection that stays up. */
  method RunTool(parse: Parser, late: Clock, stdout: Bytes, stderr: Bytes, code: int, ms: u64)
    returns (result: JobResult, stdoutFile: Bytes, stderrFile: Bytes)
    requires IsI32(code) && ReadsBack(parse)
    ensures OnTime(late, 0, JobTurns(stdout, stderr)) ==>
              result == Exited(code) && stdoutFile == Capped(stdout) && stderrFile == Capped(stderr)
  {
    var agent := new Agent(PrintJson);
    JobCarried(parse, stdout, stderr, code, ms);
    var ok := agent.ReportJob(stdout, stderr, code, ms);
    var vm := new Vm(agent.sent);
    result := vm.RunJob(parse, late);
    stdoutFile, stderrFile := vm.stdoutFile, vm.stderrFile;
    if OnTime(late, 0, JobTurns(stdout, stderr)) {
      NothingElse(parse, late, stdout, stderr, code, ms, agent.sent);
    }
  }

  /** The job as the host may see it before it is complete. */
  predicate Incomplete(e: JobEnd, stdout: Bytes, stderr: Bytes) {
    && !e.result.Exited?
    && e.stdout <= stdout && e.stderr <= stderr
    && (e.stderr != [] ==> e.stdout == stdout)
  }

  lemma IncompleteOut(e: JobEnd, out: Bytes, err: Bytes)
    requires Partial(e, FRESH, Stdout, out)
    ensures Incomplete(e, out, err)
  {
    assert [] + out == out;
  }

  lemma IncompleteErr(e: JobEnd, out: Bytes, err: Bytes)
    requires |out| <= MAX_OUTPUT_BYTES && Partial(e, After(FRESH, Stdout, out), Stderr, err)
    ensures Incomplete(e, out, err)
  {
    assert [] + err == err && [] + out == out;
  }

  /** Standard error and the last message, broken off or too late. */
  lemma TailCut(late: Clock, h: Host, err: Bytes, code: int, j: nat, broken: bool)
    requires h.total + |err| <= MAX_STREAM_BYTES
    requires var n := |Pieces(Stderr, err)|; j <= n || (j == n + 1 && !OnTime(late, h.turn, n + 1))
    ensures Partial(Handle(late, h, (Pieces(Stderr, err) + [Done(code)])[..j], broken), h, Stderr, err)
  {
    var c, last := Pieces(Stderr, err), [Done(code)];
    if j <= |c| {
      assert (c + last)[..j] == c[..j];
      StreamCut(late, h, Stderr, err, j, broken);
    } else {
      assert (c + last)[..j] == c + last;
      if OnTime(late, h.turn, |c|) {
        LateAtDone(late, h, err, last, broken);
      } else {
        LateInStream(late, h, Stderr, err, last, broken);
        StreamCut(late, h, Stderr, err, |c|, broken);
        assert c[..|c|] == c;
      }
    }
  }

  lemma LateAtDone(late: Clock, h: Host, err: Bytes, last: seq<Event>, broken: bool)
    requires h.total + |err| <= MAX_STREAM_BYTES
    requires var n := |Pieces(Stderr, err)|; OnTime(late, h.turn, n) && !OnTime(late, h.turn, n + 1)
    ensures Partial(Handle(late, h, Pieces(Stderr, err) + last, broken), h, Stderr, err)
  {
    var h2, e := After(h, Stderr, err), Handle(late, h, Pieces(Stderr, err) + last, broken);
    assert e == Ended(TimedOut, h2) by {
      StreamWritten(late, h, Stderr, err, last, broken);
      LateAtLast(late, h.turn, |Pieces(Stderr, err)|);
      HandleLate(late, h2, last, broken);
    }
    PartialAll(TimedOut, h, Stderr, err);
  }

  lemma PartialAll(result: JobResult, h: Host, to: Stream, data: Bytes)
    requires !result.Exited? && h.total + |data| <= MAX_STREAM_BYTES
    ensures Partial(Ended(result, After(h, to, data)), h, to, data)
  {
  }

  lemma HandleLate(late: Clock, h: Host, es: seq<Event>, broken: bool)
    requires late(h.turn)
    ensures Handle(late, h, es, broken) == Ended(TimedOut, h)
  {
  }

  lemma HandleDone(late: Clock, h: Host, code: int, more: seq<Event>, broken: bool)
    requires !late(h.turn)
    ensures Handle(late, h, [Done(code)] + more, broken) == Ended(Exited(code), h)
  {
    assert ([Done(code)] + more)[0] == Done(code);
  }

  lemma LateAtLast(late: Clock, first: nat, n: nat)
    requires OnTime(late, first, n) && !OnTime(late, first, n + 1)
    ensures late(first + n)
  {
  }

  lemma LateLater(late: Clock, a: nat, b: nat)
    requires OnTime(late, 0, a) && !OnTime(late, 0, a + b)
    ensures !OnTime(late, a, b)
  {
    var j :| 0 <= j < 0 + (a + b) && late(j);
    assert a <= j < a + b;
  }

  lemma JobCut(late: Clock, stdout: Bytes, stderr: Bytes, code: int, j: nat, broken: bool)
    requires j <= JobTurns(stdout, stderr) &&
        (j < JobTurns(stdout, stderr) || !OnTime(late, 0, JobTurns(stdout, stderr)))
    ensures Incomplete(Handle(late, FRESH, JobPieces(stdout, stderr, code)[..j], broken), Capped(stdout),
              Capped(stderr))
  {
    var out, err := Capped(stdout), Capped(stderr);
    var c1, tail := Pieces(Stdout, out), Pieces(Stderr, err) + [Done(code)];
    var seen := (c1 + tail)[..j];
    if j <= |c1| {
      assert seen == c1[..j];
      StreamCut(late, FRESH, Stdout, out, j, broken);
      IncompleteOut(Handle(late, FRESH, seen, broken), out, err);
    } else {
      var rest := tail[..j - |c1|];
      assert seen == c1 + rest;
      if OnTime(late, 0, |c1|) {
        StreamWritten(late, FRESH, Stdout, out, rest, broken);
        if j == JobTurns(stdout, stderr) { LateLater(late, |c1|, |tail|); }
        TailCut(late, After(FRESH, Stdout, out), err, code, j - |c1|, broken);
        IncompleteErr(Handle(late, FRESH, seen, broken), out, err);
      } else {
        LateInStream(late, FRESH, Stdout, out, rest, broken);
        StreamCut(late, FRESH, Stdout, out, |c1|, broken);
        assert c1[..|c1|] == c1;
        IncompleteOut(Handle(late, FRESH, seen, broken), out, err);
      }
    }
  }

  /**
   * The connection may break after any byte and the deadline may pass at any turn: the host then never
   * reports an exit, each file holds a beginning of its stream, and standard error stays empty until
   * standard output is complete.
   */
  lemma CutIsNoticed(parse: Parser, late: Clock, stdout: Bytes, stderr: Bytes, code: int, ms: u64, k: nat)
    requires IsI32(code) && ReadsBack(parse)
    ensures var bytes := JobBytes(stdout, stderr, code, ms);
            k < |bytes| || (k == |bytes| && !OnTime(late, 0, JobTurns(stdout, stderr))) ==>
              Incomplete(Serve(parse, late, FRESH, bytes[..k]), Capped(stdout), Capped(stderr))
  {
    if k < |JobBytes(stdout, stderr, code, ms)| {
      CutShort(parse, late, stdout, stderr, code, ms, k);
    } else if k == |JobBytes(stdout, stderr, code, ms)| && !OnTime(late, 0, JobTurns(stdout, stderr)) {
      WholeButLate(parse, late, stdout, stderr, code, ms);
    }
  }

  lemma CutShort(parse: Parser, late: Clock, stdout: Bytes, stderr: Bytes, code: int, ms: u64, k: nat)
    requires IsI32(code) && ReadsBack(parse) && k < |JobBytes(stdout, stderr, code, ms)|
    ensures Incomplete(Serve(parse, late, FRESH, JobBytes(stdout, stderr, code, ms)[..k]), Capped(stdout),
              Capped(stderr))
  {
    var all := JobMessages(stdout, stderr, code, ms);
    JobCarried(parse, stdout, stderr, code, ms);
    var a := Arriving(parse, JobBytes(stdout, stderr, code, ms)[..k]);
    ArrivingCut(parse, PrintJson, all, k);
    JobPiecesOf(stdout, stderr, code, ms);
    assert EventsOf(a.messages) == EventsOf(all)[..|a.messages|];
    JobCut(late, stdout, stderr, code, |a.messages|, a.broken);
  }

  lemma WholeButLate(parse: Parser, late: Clock, stdout: Bytes, stderr: Bytes, code: int, ms: u64)
    requires IsI32(code) && ReadsBack(parse) && !OnTime(late, 0, JobTurns(stdout, stderr))
    ensures var bytes := JobBytes(stdout, stderr, code, ms);
            Incomplete(Serve(parse, late, FRESH, bytes[..|bytes|]), Capped(stdout), Capped(stderr))
  {
    var all, bytes := JobMessages(stdout, stderr, code, ms), JobBytes(stdout, stderr, code, ms);
    JobCarried(parse, stdout, stderr, code, ms);
    assert bytes[..|bytes|] == bytes + [];
    ArrivingFrames(parse, PrintJson, all, []);
    var a := Arriving(parse, bytes + []);
    assert a.messages == all + [] == all;
    JobPiecesOf(stdout, stderr, code, ms);
    assert EventsOf(all) == JobPieces(stdout, stderr, code)[..|all|];
    JobCut(late, stdout, stderr, code, |all|, a.broken);
  }
}
