// The parts of a session manifest that carry text from outside: escaping, argument arrays and call records.
module ManifestToml {
  import opened Common
  import opened Hex
  import opened Units

  // ---- Printing ----

  function UpperNibble(n: int): char
    requires 0 <= n < 16
  {
    if n < 10 then ('0' as int + n) as char else ('A' as int + n - 10) as char
  }

  /** `char::is_control`. */
  predicate IsControl(c: char) { c as int < 0x20 || 0x7F <= c as int < 0xA0 }

  function EscapeChar(c: char): string {
    var n := c as int;
    if c == '\\' then ['\\', '\\']
    else if c == '"' then ['\\', '"']
    else if n == 0xA then ['\\', 'n']
    else if n == 0xD then ['\\', 'r']
    else if n == 0x9 then ['\\', 't']
    else if n == 0x8 then ['\\', 'b']
    else if n == 0xC then ['\\', 'f']
    else if IsControl(c) then ['\\', 'u', '0', '0', UpperNibble(n / 16), UpperNibble(n % 16)]
    else [c]
  }

  function Escape(s: string): string {
    if s == "" then "" else EscapeChar(s[0]) + Escape(s[1..])
  }

  function Quoted(s: string): string { ['"'] + Escape(s) + ['"'] }

  function Items(list: seq<string>): string {
    if list == [] then ""
    else if |list| == 1 then Quoted(list[0])
    else Quoted(list[0]) + [',', ' '] + Items(list[1..])
  }

  function Array(list: seq<string>): string { ['['] + Items(list) + [']'] }

  lemma EscapeStep(s: string, i: nat)
    requires i < |s|
    ensures Escape(s[i..]) == EscapeChar(s[i]) + Escape(s[i + 1..])
  {
    assert s[i..][0] == s[i] && s[i..][1..] == s[i + 1..];
  }

  method TomlEscape(s: string) returns (out: string)
    ensures out == Escape(s)
  {
    out := "";
    assert s[0..] == s && "" + Escape(s) == Escape(s);
    for i := 0 to |s|
      invariant out + Escape(s[i..]) == Escape(s)
    {
      EscapeStep(s, i);
      var piece := EscapeChar(s[i]);
      Associative(out, piece, Escape(s[i + 1..]));
      out := out + piece;
    }
    assert s[|s|..] == "" && out + "" == out;
  }

  // ---- Reading, as TOML v1.0.0 defines basic strings, arrays and integers ----

  datatype Read<T> = Bad | Got(value: T, rest: string)

  function HexNumber(s: string): Option<nat> {
    if s == "" then Some(0)
    else
      var high, low := HexNumber(s[..|s| - 1]), NibbleValue(s[|s| - 1]);
      if high.None? || low.None? then None else Some(high.value * 16 + low.value)
  }

  /** The character with a given number, unless the number is not a Unicode scalar value. */
  function Scalar(n: nat): Option<char> {
    if n < 0xD800 || 0xE000 <= n < 0x11_0000 then Some(n as char) else None
  }

  function ReadUnicode(s: string, digits: nat): Read<char> {
    if |s| < 2 + digits then Bad
    else
      var n := HexNumber(s[2..2 + digits]);
      var c := if n.None? then None else Scalar(n.value);
      if c.None? then Bad else Got(c.value, s[2 + digits..])
  }

  /** One character of a basic string. */
  function ReadChar(s: string): (r: Read<char>)
    ensures r.Got? ==> |r.rest| < |s|
  {
    if s == "" then Bad
    else if s[0] == '\\' then
      if |s| < 2 then Bad
      else if s[1] == '\\' || s[1] == '"' then Got(s[1], s[2..])
      else if s[1] == 'n' then Got(0xA as char, s[2..])
      else if s[1] == 'r' then Got(0xD as char, s[2..])
      else if s[1] == 't' then Got(0x9 as char, s[2..])
      else if s[1] == 'b' then Got(0x8 as char, s[2..])
      else if s[1] == 'f' then Got(0xC as char, s[2..])
      else if s[1] == 'u' then ReadUnicode(s, 4)
      else if s[1] == 'U' then ReadUnicode(s, 8)
      else Bad
    else if s[0] == '"' || (s[0] as int < 0x20 && s[0] as int != 0x9) || s[0] as int == 0x7F then Bad
    else Got(s[0], s[1..])
  }

  /** The rest of a basic string after its opening quote. */
  function ReadText(s: string): (r: Read<string>)
    ensures r.Got? ==> |r.rest| < |s|
    decreases |s|
  {
    if s != "" && s[0] == '"' then Got("", s[1..])
    else
      var c := ReadChar(s);
      if c.Bad? then Bad
      else
        var t := ReadText(c.rest);
        if t.Bad? then Bad else Got([c.value] + t.value, t.rest)
  }

  function ReadString(s: string): (r: Read<string>)
    ensures r.Got? ==> |r.rest| < |s|
  {
    if s != "" && s[0] == '"' then ReadText(s[1..]) else Bad
  }

  function SkipSpace(s: string): (r: string)
    ensures |r| <= |s|
  {
    if s != "" && (s[0] == ' ' || s[0] == '\t' || s[0] == '\n' || s[0] == '\r') then SkipSpace(s[1..]) else s
  }

  /** The items of an array after its opening bracket or a comma. */
  function ReadItems(s: string): (r: Read<seq<string>>)
    ensures r.Got? ==> |r.rest| < |s|
    decreases |s|
  {
    var t := SkipSpace(s);
    if t != "" && t[0] == ']' then Got([], t[1..])
    else
      var item := ReadString(t);
      if item.Bad? then Bad
      else
        var after := SkipSpace(item.rest);
        if after != "" && after[0] == ']' then Got([item.value], after[1..])
        else if after != "" && after[0] == ',' then
          var more := ReadItems(after[1..]);
          if more.Bad? then Bad else Got([item.value] + more.value, more.rest)
        else Bad
  }

  function ReadArray(s: string): (r: Read<seq<string>>)
    ensures r.Got? ==> |r.rest| < |s|
  {
    if s != "" && s[0] == '[' then ReadItems(s[1..]) else Bad
  }

  // ---- Strings and arrays come back ----

  lemma HexOfControl(n: nat)
    requires n < 0xA0
    ensures HexNumber(['0', '0', UpperNibble(n / 16), UpperNibble(n % 16)]) == Some(n)
  {
    var s := ['0', '0', UpperNibble(n / 16), UpperNibble(n % 16)];
    assert s[..3] == ['0', '0', UpperNibble(n / 16)] && s[..3][..2] == ['0', '0'];
    assert ['0', '0'][..1] == ['0'] && ['0'][..0] == "";
    assert HexNumber(['0']) == Some(0);
    assert HexNumber(['0', '0']) == Some(0);
    assert HexNumber(s[..3]) == Some(n / 16);
  }

  lemma ControlRead(c: char, rest: string)
    requires IsControl(c)
    ensures var n := c as int;
            ReadChar(['\\', 'u', '0', '0', UpperNibble(n / 16), UpperNibble(n % 16)] + rest) == Got(c, rest)
  {
    var n := c as int;
    var digits := ['0', '0', UpperNibble(n / 16), UpperNibble(n % 16)];
    var s := ['\\', 'u'] + digits + rest;
    assert s == ['\\', 'u', '0', '0', UpperNibble(n / 16), UpperNibble(n % 16)] + rest;
    assert s[2..6] == digits && s[6..] == rest;
    HexOfControl(n);
  }

  lemma CharRead(c: char, rest: string)
    ensures ReadChar(EscapeChar(c) + rest) == Got(c, rest) && (EscapeChar(c) + rest)[0] != '"'
  {
    var s := EscapeChar(c) + rest;
    if |EscapeChar(c)| == 6 {
      ControlRead(c, rest);
    } else if |EscapeChar(c)| == 2 {
      assert s[2..] == rest;
    } else {
      assert s[1..] == rest;
    }
  }

  lemma {:induction false} TextRead(s: string, rest: string)
    ensures ReadText(Escape(s) + (['"'] + rest)) == Got(s, rest)
  {
    if s == "" {
      assert "" + (['"'] + rest) == ['"'] + rest && (['"'] + rest)[1..] == rest;
    } else {
      var tail := Escape(s[1..]) + (['"'] + rest);
      Associative(EscapeChar(s[0]), Escape(s[1..]), ['"'] + rest);
      TextRead(s[1..], rest);
      CharThenText(s[0], tail, s[1..], rest);
      assert [s[0]] + s[1..] == s;
    }
  }

  lemma CharThenText(c: char, tail: string, s: string, rest: string)
    requires ReadText(tail) == Got(s, rest)
    ensures ReadText(EscapeChar(c) + tail) == Got([c] + s, rest)
  {
    CharRead(c, tail);
  }

  /** Whatever the characters, the printed string ends at its own closing quote and means the original. */
  lemma StringRead(s: string, rest: string)
    ensures ReadString(Quoted(s) + rest) == Got(s, rest)
  {
    var text := Quoted(s) + rest;
    assert text[1..] == Escape(s) + (['"'] + rest);
    TextRead(s, rest);
  }

  lemma LastItem(item: string, rest: string)
    ensures ReadItems(Quoted(item) + ([']'] + rest)) == Got([item], rest)
  {
    var text := Quoted(item) + ([']'] + rest);
    assert text[0] == '"' && SkipSpace(text) == text;
    StringRead(item, [']'] + rest);
    assert SkipSpace([']'] + rest) == [']'] + rest && ([']'] + rest)[1..] == rest;
  }

  lemma NextItem(item: string, tail: string, list: seq<string>, rest: string)
    requires ReadItems(tail) == Got(list, rest)
    ensures ReadItems(Quoted(item) + ([',', ' '] + tail)) == Got([item] + list, rest)
  {
    var text := Quoted(item) + ([',', ' '] + tail);
    assert text[0] == '"' && SkipSpace(text) == text;
    StringRead(item, [',', ' '] + tail);
    assert ([',', ' '] + tail)[1..] == [' '] + tail;
    SpaceSkipped(tail);
  }

  lemma {:induction false} ItemsRead(list: seq<string>, rest: string)
    requires list != []
    ensures ReadItems(Items(list) + ([']'] + rest)) == Got(list, rest)
  {
    if |list| == 1 {
      LastItem(list[0], rest);
      assert list == [list[0]];
    } else {
      ItemsRead(list[1..], rest);
      ItemsStep(list, [']'] + rest);
      NextItem(list[0], Items(list[1..]) + ([']'] + rest), list[1..], rest);
      assert [list[0]] + list[1..] == list;
    }
  }

  lemma ItemsStep(list: seq<string>, rest: string)
    requires |list| > 1
    ensures Items(list) + rest == Quoted(list[0]) + ([',', ' '] + (Items(list[1..]) + rest))
  {
    var first, tail := Quoted(list[0]), Items(list[1..]);
    Associative(first + [',', ' '], tail, rest);
    Associative(first, [',', ' '], tail + rest);
  }

  lemma SpaceSkipped(tail: string)
    ensures ReadItems([' '] + tail) == ReadItems(tail)
  {
    assert ([' '] + tail)[1..] == tail;
    assert SkipSpace([' '] + tail) == SkipSpace(tail);
  }

  lemma EmptyRead(rest: string)
    ensures ReadItems([']'] + rest) == Got([], rest)
  {
    assert SkipSpace([']'] + rest) == [']'] + rest && ([']'] + rest)[1..] == rest;
  }

  lemma ArrayRead(list: seq<string>, rest: string)
    ensures ReadArray(Array(list) + rest) == Got(list, rest)
  {
    var text, items := Array(list) + rest, Items(list) + ([']'] + rest);
    assert text[0] == '[' && text[1..] == items;
    assert ReadItems(items) == Got(list, rest) by {
      if list == [] {
        assert items == [']'] + rest;
        EmptyRead(rest);
      } else {
        ItemsRead(list, rest);
      }
    }
  }

  // ---- Call records ----

  /** One tool call as the manifest lists it. */
  datatype CallRecord = CallRecord(
    index: int, callId: string, runId: string, command: seq<string>, exitCode: int, durationMs: int)

  const KEY_SEQ := "[[session.calls]]\nseq = "
  const KEY_CALL_ID := "\ncall_id = "
  const KEY_RUN_ID := "\nrun_id = "
  const KEY_COMMAND := "\ncommand = "
  const KEY_EXIT_CODE := "\nexit_code = "
  const KEY_DURATION := "\nduration_ms = "
  const NEWLINE := "\n"

  /** The text of a record in front of `rest`. */
  function CallText(c: CallRecord, rest: string): string {
    KEY_SEQ + (SignedDec(c.index) +
    (KEY_CALL_ID + (Quoted(c.callId) +
    (KEY_RUN_ID + (Quoted(c.runId) + CallTail(c, rest))))))
  }

  function CallTail(c: CallRecord, rest: string): string {
    KEY_COMMAND + (Array(c.command) +
    (KEY_EXIT_CODE + (SignedDec(c.exitCode) +
    (KEY_DURATION + (SignedDec(c.durationMs) + (NEWLINE + rest))))))
  }

  type Printer = (CallRecord, string) -> string

  type Reader = string -> Read<CallRecord>

  /** The records one after the other, a blank line between two, and the newline that ends the manifest. */
  function ListText(print_: Printer, calls: seq<CallRecord>): string {
    if calls == [] then NEWLINE
    else if |calls| == 1 then print_(calls[0], NEWLINE)
    else print_(calls[0], NEWLINE + ListText(print_, calls[1..]))
  }

  function CallsText(calls: seq<CallRecord>): string { ListText(CallText, calls) }

  function Digits(s: string): (n: nat)
    ensures n <= |s| && AllDigits(s[..n])
  {
    if s != "" && IsDigit(s[0]) then
      var n := Digits(s[1..]);
      assert s[..n + 1] == [s[0]] + s[1..][..n];
      n + 1
    else 0
  }

  function ReadNat(s: string): (r: Read<int>)
    ensures r.Got? ==> r.value >= 0 && |r.rest| < |s|
  {
    var n := Digits(s);
    if n == 0 then Bad else Got(DecValue(s[..n]), s[n..])
  }

  function ReadInt(s: string): (r: Read<int>)
    ensures r.Got? ==> |r.rest| < |s|
  {
    var negative := s != "" && s[0] == '-';
    var n := ReadNat(if negative then s[1..] else s);
    if n.Bad? then Bad else Got(if negative then -n.value else n.value, n.rest)
  }

  function AfterKey(key: string, s: string): Option<string> {
    if StartsWith(s, key) then Some(s[|key|..]) else None
  }

  function IntField(key: string, s: string): (r: Read<int>)
    ensures r.Got? ==> |r.rest| < |s|
  {
    var t := AfterKey(key, s);
    if t.None? then Bad else ReadInt(t.value)
  }

  function StringField(key: string, s: string): (r: Read<string>)
    ensures r.Got? ==> |r.rest| < |s|
  {
    var t := AfterKey(key, s);
    if t.None? then Bad else ReadString(t.value)
  }

  function ArrayField(key: string, s: string): (r: Read<seq<string>>)
    ensures r.Got? ==> |r.rest| < |s|
  {
    var t := AfterKey(key, s);
    if t.None? then Bad else ReadArray(t.value)
  }

  function ReadCall(s: string): (r: Read<CallRecord>)
    ensures r.Got? ==> |r.rest| < |s|
  {
    var index := IntField(KEY_SEQ, s);
    if index.Bad? then Bad
    else
      var callId := StringField(KEY_CALL_ID, index.rest);
      if callId.Bad? then Bad
      else
        var runId := StringField(KEY_RUN_ID, callId.rest);
        if runId.Bad? then Bad else ReadCallTail(index.value, callId.value, runId.value, runId.rest)
  }

  function ReadCallTail(index: int, callId: string, runId: string, s: string): (r: Read<CallRecord>)
    ensures r.Got? ==> |r.rest| < |s|
  {
    var command := ArrayField(KEY_COMMAND, s);
    if command.Bad? then Bad
    else
      var code := IntField(KEY_EXIT_CODE, command.rest);
      if code.Bad? then Bad
      else
        var ms := IntField(KEY_DURATION, code.rest);
        if ms.Bad? then Bad
        else
          var end := AfterKey(NEWLINE, ms.rest);
          if end.None? then Bad
              else Got(CallRecord(index, callId, runId, command.value, code.value, ms.value), end.value)
  }

  /** Records until the text ends. */
  function ReadList(read: Reader, s: string): Option<seq<CallRecord>>
    decreases |s|
  {
    var t := SkipSpace(s);
    if t == "" then Some([])
    else
      var c := read(t);
      if c.Bad? || |c.rest| >= |t| then None
      else
        var more := ReadList(read, c.rest);
        if more.None? then None else Some([c.value] + more.value)
  }

  function ReadCalls(s: string): Option<seq<CallRecord>> { ReadList(ReadCall, s) }

  lemma KeyRead(key: string, s: string)
    ensures AfterKey(key, key + s) == Some(s)
  {
  }

  lemma {:induction false} DigitsRead(s: string, rest: string)
    requires AllDigits(s) && (rest == "" || !IsDigit(rest[0]))
    ensures Digits(s + rest) == |s|
  {
    if s == "" {
    } else {
      assert (s + rest)[1..] == s[1..] + rest;
      DigitsRead(s[1..], rest);
    }
  }

  lemma NatRead(n: nat, rest: string)
    requires rest == "" || !IsDigit(rest[0])
    ensures ReadNat(Dec(n) + rest) == Got(n, rest)
  {
    DecRoundTrip(n);
    DigitsRead(Dec(n), rest);
    assert (Dec(n) + rest)[..|Dec(n)|] == Dec(n) && (Dec(n) + rest)[|Dec(n)|..] == rest;
  }

  lemma NegativeRead(n: int, rest: string)
    requires n < 0 && (rest == "" || !IsDigit(rest[0]))
    ensures ReadInt(SignedDec(n) + rest) == Got(n, rest)
  {
    var digits := Dec(-n) + rest;
    NatRead(-n, rest);
    MinusRead(digits, -n, rest);
    assert SignedDec(n) + rest == ['-'] + digits;
  }

  lemma MinusRead(digits: string, v: int, rest: string)
    requires ReadNat(digits) == Got(v, rest)
    ensures ReadInt(['-'] + digits) == Got(-v, rest)
  {
    assert (['-'] + digits)[1..] == digits;
  }

  lemma NonNegativeRead(n: int, rest: string)
    requires n >= 0 && (rest == "" || !IsDigit(rest[0]))
    ensures ReadInt(SignedDec(n) + rest) == Got(n, rest)
  {
    NatRead(n, rest);
    DecRoundTrip(n);
    assert IsDigit(Dec(n)[0]) && (Dec(n) + rest)[0] == Dec(n)[0];
  }

  lemma KeyIntRead(key: string, text: string)
    ensures IntField(key, key + text) == ReadInt(text)
  {
    KeyRead(key, text);
  }

  lemma IntRead(key: string, n: int, rest: string)
    requires rest == "" || !IsDigit(rest[0])
    ensures IntField(key, key + (SignedDec(n) + rest)) == Got(n, rest)
  {
    KeyIntRead(key, SignedDec(n) + rest);
    if n < 0 {
      NegativeRead(n, rest);
    } else {
      NonNegativeRead(n, rest);
    }
  }

  lemma StringFieldRead(key: string, value: string, rest: string)
    ensures StringField(key, key + (Quoted(value) + rest)) == Got(value, rest)
  {
    KeyRead(key, Quoted(value) + rest);
    StringRead(value, rest);
  }

  lemma ArrayFieldRead(key: string, value: seq<string>, rest: string)
    ensures ArrayField(key, key + (Array(value) + rest)) == Got(value, rest)
  {
    KeyRead(key, Array(value) + rest);
    ArrayRead(value, rest);
  }

  lemma CallTailRead(c: CallRecord, rest: string)
    ensures ReadCallTail(c.index, c.callId, c.runId, CallTail(c, rest)) == Got(c, rest)
  {
    var end := NEWLINE + rest;
    var ms := KEY_DURATION + (SignedDec(c.durationMs) + end);
    var code := KEY_EXIT_CODE + (SignedDec(c.exitCode) + ms);
    ArrayFieldRead(KEY_COMMAND, c.command, code);
    IntRead(KEY_EXIT_CODE, c.exitCode, ms);
    IntRead(KEY_DURATION, c.durationMs, end);
    KeyRead(NEWLINE, rest);
  }

  /** A record comes back whatever its strings hold, and nothing of what follows is taken for part of it. */
  lemma CallRead(c: CallRecord, rest: string)
    ensures ReadCall(CallText(c, rest)) == Got(c, rest)
  {
    var tail := CallTail(c, rest);
    var runId := KEY_RUN_ID + (Quoted(c.runId) + tail);
    var callId := KEY_CALL_ID + (Quoted(c.callId) + runId);
    IntRead(KEY_SEQ, c.index, callId);
    StringFieldRead(KEY_CALL_ID, c.callId, runId);
    StringFieldRead(KEY_RUN_ID, c.runId, tail);
    CallTailRead(c, rest);
  }

  lemma NewlineSkipped(read: Reader, s: string)
    ensures ReadList(read, NEWLINE + s) == ReadList(read, s) && ReadList(read, NEWLINE) == Some([])
  {
    assert (NEWLINE + s)[1..] == s;
    assert SkipSpace(NEWLINE + s) == SkipSpace(s);
    assert NEWLINE[1..] == "";
    assert SkipSpace(NEWLINE) == SkipSpace("");
  }

  /** Every printed record is read back, starts without space and takes some text. */
  ghost predicate Inverse(read: Reader, print_: Printer) {
    forall c, rest ::
      && read(print_(c, rest)) == Got(c, rest)
      && SkipSpace(print_(c, rest)) == print_(c, rest)
      && |print_(c, rest)| > |rest|
  }

  lemma {:induction false} ListRead(read: Reader, print_: Printer, calls: seq<CallRecord>)
    requires Inverse(read, print_)
    ensures ReadList(read, ListText(print_, calls)) == Some(calls)
  {
    if calls == [] {
      NewlineSkipped(read, "");
    } else {
      var rest := if |calls| == 1 then NEWLINE else NEWLINE + ListText(print_, calls[1..]);
      assert ReadList(read, rest) == Some(calls[1..]) by {
        if |calls| == 1 {
          assert calls[1..] == [];
          NewlineSkipped(read, "");
        } else {
          ListRead(read, print_, calls[1..]);
          NewlineSkipped(read, ListText(print_, calls[1..]));
        }
      }
      assert read(print_(calls[0], rest)) == Got(calls[0], rest);
      assert [calls[0]] + calls[1..] == calls;
    }
  }

  lemma NoSpace(key: string, rest: string)
    requires key != "" && key[0] == '['
    ensures SkipSpace(key + rest) == key + rest
  {
    assert (key + rest)[0] == '[';
  }

  lemma RecordStarts(c: CallRecord, rest: string)
    ensures SkipSpace(CallText(c, rest)) == CallText(c, rest)
  {
    var tail := KEY_CALL_ID + (Quoted(c.callId) + (KEY_RUN_ID + (Quoted(c.runId) + CallTail(c, rest))));
    NoSpace(KEY_SEQ, SignedDec(c.index) + tail);
  }

  /** No argument, call id or run id can add, remove or change a record of the manifest. */
  lemma CallsRead(calls: seq<CallRecord>)
    ensures ReadCalls(CallsText(calls)) == Some(calls)
  {
    forall c, rest
      ensures ReadCall(CallText(c, rest)) == Got(c, rest) && SkipSpace(CallText(c, rest)) == CallText(c, rest)
      ensures |CallText(c, rest)| > |rest|
    {
      CallRead(c, rest);
      RecordStarts(c, rest);
    }
    assert Inverse(ReadCall, CallText);
    ListRead(ReadCall, CallText, calls);
  }
}
