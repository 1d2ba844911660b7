// Human-readable sizes and durations: the printers and the parsers that read them back.
module Units {
  import opened Common

  // ---- Decimal numbers ----

  predicate IsDigit(c: char) { '0' <= c <= '9' }

  predicate AllDigits(s: string) { forall i :: 0 <= i < |s| ==> IsDigit(s[i]) }

  function DigitChar(n: int): char
    requires 0 <= n < 10
  {
    ('0' as int + n) as char
  }

  function Dec(n: nat): string {
    if n < 10 then [DigitChar(n)] else Dec(n / 10) + [DigitChar(n % 10)]
  }

  function DecValue(s: string): nat
    requires AllDigits(s)
  {
    if s == "" then 0 else 10 * DecValue(s[..|s| - 1]) + (s[|s| - 1] as int - '0' as int)
  }

  lemma {:induction false} DecRoundTrip(n: nat)
    ensures Dec(n) != "" && AllDigits(Dec(n)) && DecValue(Dec(n)) == n
  {
    var s := Dec(n);
    if n < 10 {
      assert s[..0] == "" && DecValue(s[..0]) == 0;
    } else {
      DecRoundTrip(n / 10);
      assert s[..|s| - 1] == Dec(n / 10);
    }
  }

  function SignedDec(n: int): string {
    if n < 0 then "-" + Dec(-n) else Dec(n)
  }

  /** `u64::from_str`: decimal digits after an optional plus sign, below 2^64. */
  function ParseU64(s: string): Option<u64> {
    var digits := if s != "" && s[0] == '+' then s[1..] else s;
    if digits != "" && AllDigits(digits) && DecValue(digits) < U64_LIMIT then Some(DecValue(digits)) else None
  }

  // ---- Trimming ----

  predicate IsSpace(c: char) {
    var n := c as int;
    0x9 <= n <= 0xD || n == 0x20 || n == 0x85 || n == 0xA0 || n == 0x1680 || 0x2000 <= n <= 0x200A ||
    n == 0x2028 || n == 0x2029 || n == 0x202F || n == 0x205F || n == 0x3000
  }

  function Trim(s: string): (t: string)
    ensures t != "" ==> !IsSpace(t[0]) && !IsSpace(t[|t| - 1])
    decreases |s|
  {
    if s == "" then ""
    else if IsSpace(s[0]) then Trim(s[1..])
    else if IsSpace(s[|s| - 1]) then Trim(s[..|s| - 1])
    else s
  }

  // ---- Sizes ----

  /** The suffixes G, M and K, in either case, multiply by powers of 1024. */
  function Scaled(n: nat, c: char): nat {
    if c == 'G' || c == 'g' then n * 0x4000_0000
    else if c == 'M' || c == 'm' then n * 0x10_0000
    else if c == 'K' || c == 'k' then n * 0x400
    else n
  }

  function SizeOf(num: string, c: char): Option<u64> {
    var n := ParseU64(Trim(num));
    if n.None? then None
    else
      var scaled := Scaled(n.value, c);
      if scaled < U64_LIMIT then Some(scaled) else None
  }

  predicate IsSizeSuffix(c: char) { c == 'G' || c == 'g' || c == 'M' || c == 'm' || c == 'K' || c == 'k' }

  function ParseSize(s: string): Option<u64> {
    var t := Trim(s);
    if t == "" then None
    else
      var last := t[|t| - 1];
      SizeOf(if IsSizeSuffix(last) then t[..|t| - 1] else t, last)
  }

  function FormatSize(bytes: u64): string {
    if bytes == 0 then "0"
    else if bytes % 0x4000_0000 == 0 then Dec(bytes / 0x4000_0000) + "G"
    else if bytes % 0x10_0000 == 0 then Dec(bytes / 0x10_0000) + "M"
    else if bytes % 0x400 == 0 then Dec(bytes / 0x400) + "K"
    else Dec(bytes)
  }

  lemma DigitsAreTrimmed(s: string)
    requires s != "" && AllDigits(s)
    ensures Trim(s) == s
    ensures forall c :: IsSizeSuffix(c) ==> Trim(s + [c]) == s + [c]
  {
    assert IsDigit(s[0]) && IsDigit(s[|s| - 1]);
  }

  function Factor(c: char): nat {
    if c == 'K' || c == 'k' then 1024
    else if c == 'M' || c == 'm' then 1024 * 1024
    else if c == 'G' || c == 'g' then 1024 * 1024 * 1024
    else 1
  }

  lemma SizeOfDigits(digits: string, c: char)
    requires digits != "" && AllDigits(digits)
    ensures var bytes := Scaled(DecValue(digits), c);
            SizeOf(digits, c) == if bytes < U64_LIMIT then Some(bytes) else None
  {
    DigitsAreTrimmed(digits);
    assert IsDigit(digits[0]);
    assert DecValue(digits) <= Scaled(DecValue(digits), c);
  }

  /** Any number with a suffix: K, M and G stand for 2^10, 2^20 and 2^30, and a product over 64 bits is refused. */
  lemma SizeMeaning(digits: string, c: char)
    requires digits != "" && AllDigits(digits) && Factor(c) > 1
    ensures var bytes := DecValue(digits) * Factor(c);
            ParseSize(digits + [c]) == if bytes < U64_LIMIT then Some(bytes) else None
  {
    var s := digits + [c];
    DigitsAreTrimmed(digits);
    assert Trim(s) == s && s[|s| - 1] == c && s[..|s| - 1] == digits;
    SizeOfDigits(digits, c);
  }

  lemma SizeOfDec(n: u64, c: char)
    requires Scaled(n, c) < U64_LIMIT
    ensures SizeOf(Dec(n), c) == Some(Scaled(n, c))
  {
    DecRoundTrip(n);
    DigitsAreTrimmed(Dec(n));
    assert IsDigit(Dec(n)[0]);
  }

  lemma WithSuffix(n: u64, c: char)
    requires (c == 'G' || c == 'M' || c == 'K') && Scaled(n, c) < U64_LIMIT
    ensures ParseSize(Dec(n) + [c]) == Some(Scaled(n, c))
  {
    var s := Dec(n) + [c];
    DecRoundTrip(n);
    DigitsAreTrimmed(Dec(n));
    assert Trim(s) == s && s[|s| - 1] == c && s[..|s| - 1] == Dec(n);
    SizeOfDec(n, c);
  }

  lemma WithoutSuffix(n: u64)
    ensures ParseSize(Dec(n)) == Some(n)
  {
    var s := Dec(n);
    DecRoundTrip(n);
    DigitsAreTrimmed(s);
    var last := s[|s| - 1];
    assert IsDigit(last) && !IsSizeSuffix(last);
    SizeOfDigits(s, last);
  }

  /** A number of bytes that is a whole number of units. */
  lemma WholeUnits(bytes: u64, c: char, unit: nat)
    requires (c == 'G' && unit == 0x4000_0000) || (c == 'M' && unit == 0x10_0000) || (c == 'K' && unit == 0x400)
    requires bytes % unit == 0
    ensures ParseSize(Dec(bytes / unit) + [c]) == Some(bytes)
  {
    var n := bytes / unit;
    assert Scaled(n, c) == bytes;
    WithSuffix(n, c);
  }

  /** Every size is read back exactly; the printer never makes the overflow check fire. */
  lemma {:induction false} SizeRoundTrip(bytes: u64)
    ensures ParseSize(FormatSize(bytes)) == Some(bytes)
  {
    var text := FormatSize(bytes);
    assert ParseSize(text) == Some(bytes) by {
      if bytes == 0 {
        WithoutSuffix(0);
        assert text == Dec(0);
      } else if bytes % 0x4000_0000 == 0 {
        WholeUnits(bytes, 'G', 0x4000_0000);
      } else if bytes % 0x10_0000 == 0 {
        WholeUnits(bytes, 'M', 0x10_0000);
      } else if bytes % 0x400 == 0 {
        WholeUnits(bytes, 'K', 0x400);
      } else {
        WithoutSuffix(bytes);
      }
    }
  }

  // ---- Durations ----

  predicate IsUnit(c: char) {
    c == 'd' || c == 'D' || c == 'h' || c == 'H' || c == 'm' || c == 'M' || c == 's' || c == 'S'
  }

  /** `n` of the unit `c`, in seconds. */
  function InSeconds(n: nat, c: char): nat
    requires IsUnit(c)
  {
    if c == 'd' || c == 'D' then n * 86400
    else if c == 'h' || c == 'H' then n * 3600
    else if c == 'm' || c == 'M' then n * 60
    else n
  }

  datatype Segment = Segment(digits: string, unit: char)

  predicate SegmentOk(seg: Segment) { seg.digits != "" && AllDigits(seg.digits) && IsUnit(seg.unit) }

  predicate SegmentsOk(segs: seq<Segment>) { forall i :: 0 <= i < |segs| ==> SegmentOk(segs[i]) }

  function Render(segs: seq<Segment>): string {
    if segs == [] then "" else segs[0].digits + [segs[0].unit] + Render(segs[1..])
  }

  function Seconds(segs: seq<Segment>): nat
    requires SegmentsOk(segs)
  {
    if segs == [] then 0
    else InSeconds(DecValue(segs[0].digits), segs[0].unit) + Seconds(segs[1..])
  }

  /** `segs` spell out `text`, and `v` is what they add to `total`. */
  predicate Spells(segs: seq<Segment>, text: string, total: nat, v: nat) {
    SegmentsOk(segs) && Render(segs) == text && total + Seconds(segs) == v
  }

  /** What a duration string means, as a number of seconds of any size. */
  ghost predicate Denotes(t: string, v: nat) {
    || (exists segs: seq<Segment> :: segs != [] && Spells(segs, t, 0, v))
    || (t != "" && AllDigits(t) && DecValue(t) == v)
  }

  /** What is left to mean when `total` is collected, `cur` is the open number and `rest` is unread. */
  ghost predicate Pending(cur: string, rest: string, total: nat, hadUnit: bool, v: nat) {
    || (exists segs: seq<Segment> :: (segs != [] || hadUnit) && Spells(segs, cur + rest, total, v))
    || (!hadUnit && cur + rest != "" && AllDigits(cur + rest) && total + DecValue(cur + rest) == v)
  }

  /** The parser's position still has the meaning of the whole text. */
  ghost predicate Faithful(t: string, cur: string, rest: string, total: nat, hadUnit: bool) {
    AllDigits(cur) && forall v: nat :: Denotes(t, v) <==> Pending(cur, rest, total, hadUnit, v)
  }

  lemma FaithfulAtStart(t: string)
    ensures Faithful(t, "", t, 0, false)
  {
    assert "" + t == t;
  }

  lemma FaithfulDigit(t: string, cur: string, rest: string, total: nat, hadUnit: bool)
    requires Faithful(t, cur, rest, total, hadUnit) && rest != "" && IsDigit(rest[0])
    ensures Faithful(t, cur + [rest[0]], rest[1..], total, hadUnit)
  {
    assert cur + rest == cur + [rest[0]] + rest[1..];
  }

  /** The first segment of a rendering is its leading digits and the character after them. */
  lemma FirstSegment(segs: seq<Segment>, cur: string, c: char, rest: string)
    requires segs != [] && SegmentsOk(segs) && AllDigits(cur) && !IsDigit(c) && Render(segs) == cur + [c] + rest
    ensures segs[0] == Segment(cur, c) && Render(segs[1..]) == rest
  {
    var d, u := segs[0].digits, segs[0].unit;
    assert SegmentOk(segs[0]) && !IsDigit(u);
    var text := cur + [c] + rest;
    assert text == d + [u] + Render(segs[1..]);
    assert text[|cur|] == c && text[|d|] == u;
    assert forall k :: 0 <= k < |cur| ==> IsDigit(text[k]);
    assert forall k :: 0 <= k < |d| ==> IsDigit(text[k]);
    assert |d| == |cur|;
    assert d == text[..|d|] && cur == text[..|cur|];
    assert rest == text[|cur| + 1..] && Render(segs[1..]) == text[|d| + 1..];
  }

  lemma UnitCloses(segs: seq<Segment>, cur: string, rest: string, total: nat, v: nat)
    requires rest != "" && AllDigits(cur) && !IsDigit(rest[0])
    requires Spells(segs, cur + rest, total, v)
    ensures segs != [] && cur != "" && IsUnit(rest[0])
    ensures Spells(segs[1..], rest[1..], total + InSeconds(DecValue(cur), rest[0]), v)
  {
    assert cur + rest == cur + [rest[0]] + rest[1..];
    FirstSegment(segs, cur, rest[0], rest[1..]);
    assert SegmentOk(segs[0]);
  }

  lemma UnitOpens(tail: seq<Segment>, cur: string, rest: string, total: nat, v: nat)
    requires rest != "" && AllDigits(cur) && cur != "" && IsUnit(rest[0])
    requires Spells(tail, rest[1..], total + InSeconds(DecValue(cur), rest[0]), v)
    ensures Spells([Segment(cur, rest[0])] + tail, cur + rest, total, v)
  {
    var segs := [Segment(cur, rest[0])] + tail;
    assert segs[1..] == tail && SegmentsOk(segs);
    assert rest == [rest[0]] + rest[1..];
  }

  lemma PendingCloses(cur: string, rest: string, total: nat, hadUnit: bool, v: nat)
    requires rest != "" && AllDigits(cur) && !IsDigit(rest[0])
    requires Pending(cur, rest, total, hadUnit, v)
    ensures cur != "" && IsUnit(rest[0]) && Pending("", rest[1..], total + InSeconds(DecValue(cur), rest[0]), true, v)
  {
    assert !AllDigits(cur + rest) by { assert (cur + rest)[|cur|] == rest[0]; }
    var segs: seq<Segment> :| (segs != [] || hadUnit) && Spells(segs, cur + rest, total, v);
    UnitCloses(segs, cur, rest, total, v);
    assert "" + rest[1..] == rest[1..];
  }

  lemma PendingOpens(cur: string, rest: string, total: nat, hadUnit: bool, v: nat)
    requires rest != "" && AllDigits(cur) && cur != "" && IsUnit(rest[0])
    requires Pending("", rest[1..], total + InSeconds(DecValue(cur), rest[0]), true, v)
    ensures Pending(cur, rest, total, hadUnit, v)
  {
    assert "" + rest[1..] == rest[1..];
    var tail: seq<Segment> :| Spells(tail, rest[1..], total + InSeconds(DecValue(cur), rest[0]), v);
    UnitOpens(tail, cur, rest, total, v);
  }

  lemma PendingUnit(cur: string, rest: string, total: nat, hadUnit: bool, v: nat)
    requires rest != "" && AllDigits(cur) && !IsDigit(rest[0])
    ensures Pending(cur, rest, total, hadUnit, v) <==>
              cur != "" && IsUnit(rest[0]) && Pending("", rest[1..], total + InSeconds(DecValue(cur), rest[0]), true, v)
  {
    if Pending(cur, rest, total, hadUnit, v) {
      PendingCloses(cur, rest, total, hadUnit, v);
    } else if cur != "" && IsUnit(rest[0]) &&
        Pending("", rest[1..], total + InSeconds(DecValue(cur), rest[0]), true, v) {
      PendingOpens(cur, rest, total, hadUnit, v);
    }
  }

  lemma FaithfulUnit(t: string, cur: string, rest: string, total: nat, hadUnit: bool)
    requires Faithful(t, cur, rest, total, hadUnit) && rest != "" && !IsDigit(rest[0])
    requires cur != "" && IsUnit(rest[0])
    ensures Faithful(t, "", rest[1..], total + InSeconds(DecValue(cur), rest[0]), true)
  {
    forall v: nat
      ensures Denotes(t, v) <==> Pending("", rest[1..], total + InSeconds(DecValue(cur), rest[0]), true, v)
    {
      PendingUnit(cur, rest, total, hadUnit, v);
    }
  }

  /** A unit without a number, or an unknown unit, makes the text meaningless. */
  lemma Meaningless(t: string, cur: string, rest: string, total: nat, hadUnit: bool)
    requires Faithful(t, cur, rest, total, hadUnit) && rest != "" && !IsDigit(rest[0])
    requires cur == "" || !IsUnit(rest[0])
    ensures forall v: nat :: !Denotes(t, v)
  {
    forall v: nat ensures !Denotes(t, v) {
      PendingUnit(cur, rest, total, hadUnit, v);
    }
  }

  lemma FaithfulAtEnd(t: string, cur: string, total: nat, hadUnit: bool, v: nat)
    requires Faithful(t, cur, "", total, hadUnit)
    ensures Denotes(t, v) <==> (cur == "") == hadUnit && v == total + DecValue(cur)
  {
    assert cur + "" == cur;
    if segs: seq<Segment> :| segs != [] && Spells(segs, cur, total, v) {
      assert SegmentOk(segs[0]);
      assert Render(segs)[|segs[0].digits|] == segs[0].unit;
      assert false;
    }
    assert SegmentsOk([]) && Render([]) == "" && Seconds([]) == 0;
    assert Spells([], "", total, total);
  }

  /** The result the meaning of `t` calls for. */
  ghost predicate Answers(t: string, r: Option<u64>) {
    && (r.Some? ==> r.value > 0 && Denotes(t, r.value))
    && forall v: nat :: Denotes(t, v) ==> r == if 0 < v < U64_LIMIT then Some(v) else None
  }

  /** A sum that has left 64 bits never comes back. */
  lemma TooLarge(t: string, cur: string, rest: string, total: nat, hadUnit: bool)
    requires Faithful(t, cur, rest, total, hadUnit) && total >= U64_LIMIT
    ensures Answers(t, None)
  {
    forall v: nat | Denotes(t, v) ensures v >= U64_LIMIT {
      assert Pending(cur, rest, total, hadUnit, v);
    }
  }

  lemma MeaningAtEnd(t: string, cur: string, total: nat, hadUnit: bool)
    requires Faithful(t, cur, "", total, hadUnit)
    ensures forall v: nat :: Denotes(t, v) <==> (cur == "") == hadUnit && v == total + DecValue(cur)
  {
    forall v: nat ensures Denotes(t, v) <==> (cur == "") == hadUnit && v == total + DecValue(cur) {
      FaithfulAtEnd(t, cur, total, hadUnit, v);
    }
  }

  lemma EndAnswers(t: string, cur: string, total: nat, hadUnit: bool)
    requires Faithful(t, cur, "", total, hadUnit)
    ensures var v := total + DecValue(cur);
            Answers(t, if (cur == "") == hadUnit && 0 < v < U64_LIMIT then Some(v) else None)
  {
    MeaningAtEnd(t, cur, total, hadUnit);
  }

  /**
   * Accepts exactly the strings that denote a positive number of seconds below 2^64, with that number:
   * numbers with units added up, or one bare number of seconds.
   */
  method ParseDuration(s: string) returns (r: Option<u64>)
    ensures r.Some? ==> r.value > 0 && Denotes(Trim(s), r.value)
    ensures forall v: nat :: Denotes(Trim(s), v) ==> r == if 0 < v < U64_LIMIT then Some(v) else None
  {
    r := ParseTrimmed(Trim(s));
  }

  /** The new total after a unit character; nothing when the text cannot be accepted any more. */
  method CloseNumber(ghost t: string, cur: string, c: char, ghost rest: string, total: nat, ghost hadUnit: bool)
    returns (next: Option<nat>)
    requires Faithful(t, cur, [c] + rest, total, hadUnit) && !IsDigit(c)
    ensures next.None? ==> Answers(t, None)
    ensures next.Some? ==> next.value < U64_LIMIT && Faithful(t, "", rest, next.value, true)
  {
    ghost var text := [c] + rest;
    assert text[0] == c && text[1..] == rest;
    if cur == "" || !IsUnit(c) {
      Meaningless(t, cur, text, total, hadUnit);
      return None;
    }
    FaithfulUnit(t, cur, text, total, hadUnit);
    if DecValue(cur) >= U64_LIMIT || total + InSeconds(DecValue(cur), c) >= U64_LIMIT {
      TooLarge(t, "", rest, total + InSeconds(DecValue(cur), c), true);
      return None;
    }
    next := Some(total + InSeconds(DecValue(cur), c));
  }

  /** The end of the text: a number still open is seconds, if no unit came before it. */
  method Finish(ghost t: string, cur: string, total: nat, hadUnit: bool) returns (r: Option<u64>)
    requires Faithful(t, cur, "", total, hadUnit)
    requires total < U64_LIMIT && (total > 0 ==> hadUnit)
    ensures Answers(t, r)
  {
    EndAnswers(t, cur, total, hadUnit);
    var sum := total;
    if cur != "" {
      if DecValue(cur) >= U64_LIMIT || hadUnit || total + DecValue(cur) >= U64_LIMIT { return None; }
      sum := total + DecValue(cur);
    }
    if sum == 0 { return None; }
    r := Some(sum);
  }

  method ParseTrimmed(t: string) returns (r: Option<u64>)
    ensures Answers(t, r)
  {
    FaithfulAtStart(t);
    if t == "" {
      EndAnswers(t, "", 0, false);
      return None;
    }
    var total: nat, cur: string, hadUnit := 0, "", false;
    for i := 0 to |t|
      invariant Faithful(t, cur, t[i..], total, hadUnit)
      invariant total < U64_LIMIT && (total > 0 ==> hadUnit)
    {
      assert t[i..] == [t[i]] + t[i + 1..];
      if IsDigit(t[i]) {
        FaithfulDigit(t, cur, t[i..], total, hadUnit);
        cur := cur + [t[i]];
      } else {
        var next := CloseNumber(t, cur, t[i], t[i + 1..], total, hadUnit);
        if next.None? { return None; }
        total, cur, hadUnit := next.value, "", true;
      }
    }
    assert t[|t|..] == "";
    r := Finish(t, cur, total, hadUnit);
  }

  /** A count with its unit; nothing when the count is zero. */
  function Part(n: nat, c: char): seq<Segment> {
    if n > 0 then [Segment(Dec(n), c)] else []
  }

  function PartText(n: nat, c: char): string {
    if n > 0 then Dec(n) + [c] else ""
  }

  function Hms(secs: u64): seq<Segment> {
    Part(secs / 3600, 'h') + Part((secs % 3600) / 60, 'm') + Part(secs % 60, 's')
  }

  lemma {:induction false} SpellsAppend(a: seq<Segment>, s: string, v: nat, b: seq<Segment>, t: string, w: nat)
    requires Spells(a, s, 0, v) && Spells(b, t, 0, w)
    ensures Spells(a + b, s + t, 0, v + w)
  {
    if a == [] {
      assert a + b == b;
    } else {
      assert (a + b)[1..] == a[1..] + b;
      SpellsAppend(a[1..], Render(a[1..]), Seconds(a[1..]), b, t, w);
    }
  }

  lemma OnePart(n: nat, c: char)
    requires IsUnit(c)
    ensures Spells(Part(n, c), PartText(n, c), 0, InSeconds(n, c))
  {
    DecRoundTrip(n);
    if n > 0 {
      var segs := Part(n, c);
      assert segs[1..] == [];
    }
  }

  /** What the three parts say together. */
  lemma ThreeParts(h: nat, m: nat, s: nat)
    ensures Spells(Part(h, 'h') + Part(m, 'm') + Part(s, 's'),
                   PartText(h, 'h') + PartText(m, 'm') + PartText(s, 's'), 0, h * 3600 + m * 60 + s)
  {
    assert InSeconds(h, 'h') == h * 3600 && InSeconds(m, 'm') == m * 60 && InSeconds(s, 's') == s;
    OnePart(h, 'h');
    OnePart(m, 'm');
    OnePart(s, 's');
    SpellsAppend(Part(h, 'h'), PartText(h, 'h'), h * 3600, Part(m, 'm'), PartText(m, 'm'), m * 60);
    SpellsAppend(Part(h, 'h') + Part(m, 'm'), PartText(h, 'h') + PartText(m, 'm'), h * 3600 + m * 60,
                 Part(s, 's'), PartText(s, 's'), s);
  }

  method FormatDuration(secs: u64) returns (out: string)
    ensures secs == 0 ==> out == "0s"
    ensures secs > 0 ==> out == Render(Hms(secs))
  {
    if secs == 0 { return "0s"; }
    var h, m, s := secs / 3600, (secs % 3600) / 60, secs % 60;
    ThreeParts(h, m, s);
    out := "";
    if h > 0 { out := out + (Dec(h) + "h"); }
    assert out == PartText(h, 'h');
    if m > 0 { out := out + (Dec(m) + "m"); }
    assert out == PartText(h, 'h') + PartText(m, 'm');
    if s > 0 { out := out + (Dec(s) + "s"); }
    assert out == PartText(h, 'h') + PartText(m, 'm') + PartText(s, 's');
  }

  lemma Remainder(q: nat, t: nat)
    requires t < 60
    ensures (60 * q + t) % 60 == t
  {
  }

  lemma Recombine(secs: nat)
    ensures secs / 3600 * 3600 + (secs % 3600) / 60 * 60 + secs % 60 == secs
  {
    var h, rest := secs / 3600, secs % 3600;
    var m, t := rest / 60, rest % 60;
    assert secs == 3600 * h + rest && rest == 60 * m + t;
    assert secs == 60 * (60 * h + m) + t;
    Remainder(60 * h + m, t);
  }

  /** Nothing is lost by splitting into hours, minutes and seconds. */
  lemma HmsSeconds(secs: u64)
    ensures SegmentsOk(Hms(secs)) && Seconds(Hms(secs)) == secs
    ensures secs > 0 ==> Hms(secs) != []
  {
    Recombine(secs);
    ThreeParts(secs / 3600, (secs % 3600) / 60, secs % 60);
  }

  /** A rendering starts with a digit and ends with a unit, so trimming leaves it alone. */
  lemma {:induction false} RenderIsTrimmed(segs: seq<Segment>)
    requires SegmentsOk(segs) && segs != []
    ensures Render(segs) != "" && IsDigit(Render(segs)[0]) && IsUnit(Render(segs)[|Render(segs)| - 1])
    ensures Trim(Render(segs)) == Render(segs)
  {
    assert SegmentOk(segs[0]);
    if |segs| > 1 {
      RenderIsTrimmed(segs[1..]);
    }
  }

  /** Every positive whole number of seconds is printed and read back exactly. */
  method DurationRoundTrip(secs: u64) returns (out: string, back: Option<u64>)
    ensures secs > 0 ==> back == Some(secs)
    ensures secs == 0 ==> back == None
  {
    out := FormatDuration(secs);
    back := ParseDuration(out);
    if secs > 0 {
      HmsSeconds(secs);
      RenderIsTrimmed(Hms(secs));
      assert Spells(Hms(secs), out, 0, secs);
    } else {
      ZeroSeconds();
    }
  }

  lemma ZeroSeconds()
    ensures Trim("0s") == "0s" && Denotes("0s", 0)
  {
    var text := "0s";
    assert text[0] == '0' && text[1] == 's';
    var segs := [Segment("0", 's')];
    assert SegmentOk(segs[0]) && segs[1..] == [];
    assert "0"[..0] == "" && DecValue("0") == 0;
    assert Spells(segs, text, 0, 0);
  }
}
