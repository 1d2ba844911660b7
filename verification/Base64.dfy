// Base64 as both ends of the guest channel implement it: section 4 of RFC 4648, with padding.
module Base64 {
  import opened Common

  function Letter(v: int): char
    requires 0 <= v < 64
  {
    if v < 26 then ('A' as int + v) as char
    else if v < 52 then ('a' as int + v - 26) as char
    else if v < 62 then ('0' as int + v - 52) as char
    else if v == 62 then '+'
    else '/'
  }

  function Value(c: char): (v: Option<int>)
    ensures v.Some? ==> 0 <= v.value < 64 && Letter(v.value) == c
  {
    if 'A' <= c <= 'Z' then Some(c as int - 'A' as int)
    else if 'a' <= c <= 'z' then Some(c as int - 'a' as int + 26)
    else if '0' <= c <= '9' then Some(c as int - '0' as int + 52)
    else if c == '+' then Some(62)
    else if c == '/' then Some(63)
    else None
  }

  lemma ValueOfLetter(v: int)
    requires 0 <= v < 64
    ensures Value(Letter(v)) == Some(v) && Letter(v) != '='
  {
  }

  // ---- One group ----

  /** The 24 bits of one to three bytes, short groups filled with zeros. */
  function Triple(g: Bytes): (t: int)
    requires 1 <= |g| <= 3
    ensures 0 <= t < 0x100_0000
  {
    g[0] as int * 0x1_0000 + (if |g| > 1 then g[1] as int * 0x100 else 0) + (if |g| > 2 then g[2] as int else 0)
  }

  function EncodeGroup(g: Bytes): (q: string)
    requires 1 <= |g| <= 3
    ensures |q| == 4
  {
    var t := Triple(g);
    [ Letter(t / 0x4_0000), Letter(t / 0x1000 % 64),
      if |g| > 1 then Letter(t / 64 % 64) else '=',
      if |g| > 2 then Letter(t % 64) else '=' ]
  }

  function Padding(q: string): (n: nat)
    ensures n <= |q|
  {
    if q == "" then 0 else (if q[0] == '=' then 1 else 0) + Padding(q[1..])
  }

  /** A sextet that padding may replace. */
  function ValueOrPad(c: char): (v: Option<int>)
    ensures v.Some? ==> 0 <= v.value < 64
  {
    if c == '=' then Some(0) else Value(c)
  }

  function FromSextets(a: int, b: int, c: int, d: int, pad: nat): Bytes
    requires 0 <= a < 64 && 0 <= b < 64 && 0 <= c < 64 && 0 <= d < 64
  {
    var t := a * 0x4_0000 + b * 0x1000 + c * 64 + d;
    [(t / 0x1_0000) as byte] +
    (if pad < 2 then [(t / 0x100 % 0x100) as byte] else []) +
    (if pad < 1 then [(t % 0x100) as byte] else [])
  }

  function DecodeGroup(q: string): (g: Option<Bytes>)
    requires |q| == 4
    ensures g.Some? ==> 1 <= |g.value| <= 3
  {
    var a, b, c, d := Value(q[0]), Value(q[1]), ValueOrPad(q[2]), ValueOrPad(q[3]);
    if a.None? || b.None? || c.None? || d.None? then None
    else Some(FromSextets(a.value, b.value, c.value, d.value, Padding(q)))
  }

  lemma PaddingOfFour(q: string)
    requires |q| == 4
    ensures Padding(q) == (if q[0] == '=' then 1 else 0) + (if q[1] == '=' then 1 else 0) +
                          (if q[2] == '=' then 1 else 0) + (if q[3] == '=' then 1 else 0)
  {
    assert q[1..][1..] == q[2..] && q[2..][1..] == q[3..] && q[3..][1..] == "";
    assert Padding(q[3..]) == if q[3] == '=' then 1 else 0;
    assert Padding(q[2..]) == (if q[2] == '=' then 1 else 0) + Padding(q[3..]);
  }

  /** Cutting 24 bits into sextets and gluing them together again. */
  lemma Sextets(t: int)
    requires 0 <= t < 0x100_0000
    ensures 0 <= t / 0x4_0000 < 64
    ensures t == t / 0x4_0000 * 0x4_0000 + t / 0x1000 % 64 * 0x1000 + t / 64 % 64 * 64 + t % 64
  {
    assert t / 64 / 64 == t / 0x1000;
    assert t / 0x1000 / 64 == t / 0x4_0000;
  }

  /** What a short group leaves of the last sextets. */
  lemma ShortSextets(g: Bytes)
    requires 1 <= |g| <= 3
    ensures |g| < 2 ==> Triple(g) / 64 % 64 == 0
    ensures |g| < 3 ==> Triple(g) % 64 == 0
  {
  }

  /** The three digits of a number in base 256. */
  lemma Digits(x: int, y: int, z: int)
    requires 0 <= y < 0x100 && 0 <= z < 0x100
    ensures var t := x * 0x1_0000 + y * 0x100 + z;
            t / 0x1_0000 == x && t / 0x100 % 0x100 == y && t % 0x100 == z
  {
    assert (x * 0x1_0000 + y * 0x100 + z) / 0x100 == x * 0x100 + y;
  }

  lemma BytesOfTriple(g: Bytes)
    requires 1 <= |g| <= 3
    ensures var t := Triple(g);
            && t / 0x1_0000 == g[0] as int
            && (|g| > 1 ==> t / 0x100 % 0x100 == g[1] as int)
            && (|g| > 2 ==> t % 0x100 == g[2] as int)
  {
    Digits(g[0] as int, if |g| > 1 then g[1] as int else 0, if |g| > 2 then g[2] as int else 0);
  }

  lemma GroupRoundTrip(g: Bytes)
    requires 1 <= |g| <= 3
    ensures DecodeGroup(EncodeGroup(g)) == Some(g)
  {
    var t, q := Triple(g), EncodeGroup(g);
    Sextets(t);
    ShortSextets(g);
    BytesOfTriple(g);
    ValueOfLetter(t / 0x4_0000);
    ValueOfLetter(t / 0x1000 % 64);
    ValueOfLetter(t / 64 % 64);
    ValueOfLetter(t % 64);
    PaddingOfFour(q);
    var a, b, c, d := t / 0x4_0000, t / 0x1000 % 64, t / 64 % 64, t % 64;
    assert Value(q[0]) == Some(a) && Value(q[1]) == Some(b) && ValueOrPad(q[2]) == Some(c) &&
        ValueOrPad(q[3]) == Some(d);
    assert Padding(q) == 3 - |g|;
    assert FromSextets(a, b, c, d, Padding(q)) == g;
  }

  /** The letters of a full group, as digits in base 64, are the number its bytes are in base 256. */
  lemma GroupMeaning(g: Bytes)
    requires |g| == 3
    ensures var q := EncodeGroup(g);
            && Value(q[0]).Some? && Value(q[1]).Some? && Value(q[2]).Some? && Value(q[3]).Some?
            && Value(q[0]).value * 0x4_0000 + Value(q[1]).value * 0x1000 + Value(q[2]).value * 64 + Value(q[3]).value ==
               g[0] as int * 0x1_0000 + g[1] as int * 0x100 + g[2] as int
  {
    var t := Triple(g);
    Sextets(t);
    ValueOfLetter(t / 0x4_0000);
    ValueOfLetter(t / 0x1000 % 64);
    ValueOfLetter(t / 64 % 64);
    ValueOfLetter(t % 64);
  }

  // ---- Whole texts ----

  function GroupSize(data: Bytes): (n: nat)
    ensures n <= |data| && n <= 3 && (data != [] ==> n > 0)
  {
    if |data| < 3 then |data| else 3
  }

  function EncodeFrom(data: Bytes): string {
    if data == [] then ""
    else EncodeGroup(data[..GroupSize(data)]) + EncodeFrom(data[GroupSize(data)..])
  }

  function DecodeFrom(s: string): Option<Bytes> {
    if s == "" then Some([])
    else if |s| < 4 then None
    else Joined(DecodeGroup(s[..4]), DecodeFrom(s[4..]))
  }

  /** Both or neither. */
  function Joined(g: Option<Bytes>, rest: Option<Bytes>): Option<Bytes> {
    if g.None? || rest.None? then None else Some(g.value + rest.value)
  }

  lemma DecodeStep(q: string, t: string)
    requires |q| == 4
    ensures DecodeFrom(q + t) == Joined(DecodeGroup(q), DecodeFrom(t))
  {
    assert (q + t)[..4] == q && (q + t)[4..] == t;
  }

  lemma GroupThenRest(g: Bytes, rest: string)
    requires 1 <= |g| <= 3
    ensures DecodeFrom(EncodeGroup(g) + rest) == Joined(Some(g), DecodeFrom(rest))
  {
    GroupRoundTrip(g);
    DecodeStep(EncodeGroup(g), rest);
  }

  /** Whatever bytes go in come out. */
  lemma {:induction false} RoundTrip(data: Bytes)
    ensures DecodeFrom(EncodeFrom(data)) == Some(data)
  {
    if data == [] {
    } else {
      var n := GroupSize(data);
      assert data[..n] + data[n..] == data;
      RoundTrip(data[n..]);
      GroupThenRest(data[..n], EncodeFrom(data[n..]));
    }
  }

  lemma GroupsOf(length: nat, n: nat)
    requires 0 < n <= length && n == if length < 3 then length else 3
    ensures (length + 2) / 3 == (length - n + 2) / 3 + 1
  {
  }

  /** Four characters for every three bytes begun. */
  lemma {:induction false} EncodedLength(data: Bytes)
    ensures |EncodeFrom(data)| == (|data| + 2) / 3 * 4
  {
    if data == [] {
    } else {
      var n := GroupSize(data);
      EncodedLength(data[n..]);
      GroupsOf(|data|, n);
      assert |EncodeFrom(data)| == 4 + |EncodeFrom(data[n..])|;
    }
  }

  predicate IsBase64Char(c: char) { c == '=' || Value(c).Some? }

  predicate IsBase64(s: string) { forall i :: 0 <= i < |s| ==> IsBase64Char(s[i]) }

  /** Only alphabet characters and padding, so a JSON string holds the text without escapes. */
  lemma {:induction false} OnlyAlphabet(data: Bytes)
    ensures IsBase64(EncodeFrom(data))
  {
    if data == [] {
    } else {
      GroupAlphabet(data[..GroupSize(data)]);
      OnlyAlphabet(data[GroupSize(data)..]);
    }
  }

  lemma GroupAlphabet(g: Bytes)
    requires 1 <= |g| <= 3
    ensures IsBase64(EncodeGroup(g))
  {
    var t := Triple(g);
    ValueOfLetter(t / 0x4_0000);
    ValueOfLetter(t / 0x1000 % 64);
    ValueOfLetter(t / 64 % 64);
    ValueOfLetter(t % 64);
  }

  lemma EncodeStep(data: Bytes, i: nat)
    requires i < |data|
    ensures var n := if |data| - i < 3 then |data| - i else 3;
            EncodeFrom(data[i..]) == EncodeGroup(data[i..i + n]) + EncodeFrom(data[i + n..])
  {
    var n := GroupSize(data[i..]);
    assert data[i..][..n] == data[i..i + n] && data[i..][n..] == data[i + n..];
  }

  lemma EncodeMore(out: string, data: Bytes, i: nat)
    requires i < |data|
    ensures var n := if |data| - i < 3 then |data| - i else 3;
            out + EncodeFrom(data[i..]) == (out + EncodeGroup(data[i..i + n])) + EncodeFrom(data[i + n..])
  {
    var n := if |data| - i < 3 then |data| - i else 3;
    EncodeStep(data, i);
    Associative(out, EncodeGroup(data[i..i + n]), EncodeFrom(data[i + n..]));
  }

  method Encode(data: Bytes) returns (out: string)
    ensures out == EncodeFrom(data)
    ensures DecodeFrom(out) == Some(data)
  {
    out := "";
    var i := 0;
    assert data[0..] == data;
    while i < |data|
      invariant 0 <= i <= |data|
      invariant out + EncodeFrom(data[i..]) == EncodeFrom(data)
    {
      var n := if |data| - i < 3 then |data| - i else 3;
      EncodeMore(out, data, i);
      out := out + EncodeGroup(data[i..i + n]);
      i := i + n;
    }
    assert data[i..] == [];
    RoundTrip(data);
  }

  /** Everything decoded so far in front of what the rest decodes to. */
  function Prepend(out: Bytes, rest: Option<Bytes>): Option<Bytes> {
    if rest.None? then None else Some(out + rest.value)
  }

  lemma PrependNothing(out: Bytes, rest: Option<Bytes>)
    ensures Prepend([], rest) == rest && Prepend(out, DecodeFrom("")) == Some(out)
  {
    assert out + [] == out;
    if rest.Some? { assert [] + rest.value == rest.value; }
  }

  lemma PrependJoined(out: Bytes, g: Option<Bytes>, rest: Option<Bytes>)
    ensures Prepend(out, Joined(g, rest)) == if g.None? then None else Prepend(out + g.value, rest)
  {
    if g.Some? && rest.Some? { Associative(out, g.value, rest.value); }
  }

  lemma PrependGroup(out: Bytes, s: string, i: nat)
    requires i + 4 <= |s|
    ensures var g := DecodeGroup(s[i..i + 4]);
            Prepend(out, DecodeFrom(s[i..])) == if g.None? then None else Prepend(out + g.value, DecodeFrom(s[i + 4..]))
  {
    assert s[i..] == s[i..i + 4] + s[i + 4..];
    DecodeStep(s[i..i + 4], s[i + 4..]);
    PrependJoined(out, DecodeGroup(s[i..i + 4]), DecodeFrom(s[i + 4..]));
  }

  method Decode(s: string) returns (r: Option<Bytes>)
    ensures r == DecodeFrom(s)
  {
    var out: Bytes, i := [], 0;
    assert s[0..] == s;
    PrependNothing([], DecodeFrom(s));
    while i < |s|
      invariant 0 <= i <= |s|
      invariant Prepend(out, DecodeFrom(s[i..])) == DecodeFrom(s)
    {
      if |s| - i < 4 { return None; }
      PrependGroup(out, s, i);
      var g := DecodeGroup(s[i..i + 4]);
      if g.None? { return None; }
      out := out + g.value;
      i := i + 4;
    }
    assert s[i..] == "";
    PrependNothing(out, None);
    r := Some(out);
  }
}
