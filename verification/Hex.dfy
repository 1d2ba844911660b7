// Hexadecimal names of content hashes: the printer, the more liberal reader, and blob paths.
module Hex {
  import opened Common

  function NibbleChar(n: int): char
    requires 0 <= n < 16
  {
    if n < 10 then ('0' as int + n) as char else ('a' as int + n - 10) as char
  }

  function NibbleValue(c: char): (v: Option<int>)
    ensures v.Some? ==> 0 <= v.value < 16
  {
    if '0' <= c <= '9' then Some(c as int - '0' as int)
    else if 'a' <= c <= 'f' then Some(c as int - 'a' as int + 10)
    else if 'A' <= c <= 'F' then Some(c as int - 'A' as int + 10)
    else None
  }

  /** `{:02x}` for every byte. */
  function ToHex(d: Bytes): (s: string)
    ensures |s| == 2 * |d|
  {
    if d == [] then "" else [NibbleChar(d[0] / 16), NibbleChar(d[0] % 16)] + ToHex(d[1..])
  }

  /** `u8::from_str_radix(.., 16)` on two characters: either case, and a plus sign may stand first. */
  function ByteOfPair(hi: char, lo: char): (b: Option<byte>)
    ensures b.Some? ==> 0 <= b.value < 256
  {
    var l := NibbleValue(lo);
    var h := if hi == '+' then Some(0) else NibbleValue(hi);
    if h.Some? && l.Some? then Some(16 * h.value + l.value) else None
  }

  function ReadPairs(s: string): (r: Option<Bytes>)
    requires |s| % 2 == 0
    ensures r.Some? ==> 2 * |r.value| == |s|
  {
    if s == "" then Some([])
    else
      var b := ByteOfPair(s[0], s[1]);
      var rest := ReadPairs(s[2..]);
      if b.Some? && rest.Some? then Some([b.value] + rest.value) else None
  }

  function FromHex(s: string): (r: Option<Digest>)
    ensures r.Some? ==> |r.value| == 32
  {
    if |s| == 64 then ReadPairs(s) else None
  }

  predicate IsDigest(d: Bytes) { |d| == 32 }

  lemma NibbleRoundTrip(n: int)
    requires 0 <= n < 16
    ensures NibbleValue(NibbleChar(n)) == Some(n)
  {
  }

  lemma {:induction false} ReadAfterPrint(d: Bytes)
    ensures ReadPairs(ToHex(d)) == Some(d)
  {
    if d == [] {
    } else {
      NibbleRoundTrip(d[0] / 16);
      NibbleRoundTrip(d[0] % 16);
      var s := ToHex(d);
      assert NibbleChar(d[0] / 16) != '+';
      assert s[0] == NibbleChar(d[0] / 16) && s[1] == NibbleChar(d[0] % 16);
      assert s[2..] == ToHex(d[1..]);
      ReadAfterPrint(d[1..]);
      assert d == [d[0]] + d[1..];
      assert 16 * (d[0] / 16) + d[0] % 16 == d[0];
    }
  }

  /** Two digits for each byte, the high one first. */
  lemma {:induction false} DigitsOf(d: Bytes, i: nat)
    requires i < |d|
    ensures NibbleValue(ToHex(d)[2 * i]) == Some(d[i] / 16) && NibbleValue(ToHex(d)[2 * i + 1]) == Some(d[i] % 16)
  {
    if i == 0 {
      NibbleRoundTrip(d[0] / 16);
      NibbleRoundTrip(d[0] % 16);
    } else {
      DigitsOf(d[1..], i - 1);
      assert ToHex(d)[2..] == ToHex(d[1..]);
    }
  }

  lemma FromHexAfterToHex(d: Digest)
    requires IsDigest(d)
    ensures FromHex(ToHex(d)) == Some(d)
  {
    ReadAfterPrint(d);
  }

  lemma ToHexInjective(a: Digest, b: Digest)
    requires IsDigest(a) && IsDigest(b) && ToHex(a) == ToHex(b)
    ensures a == b
  {
    FromHexAfterToHex(a);
    FromHexAfterToHex(b);
  }

  predicate LowerHex(c: char) { '0' <= c <= '9' || 'a' <= c <= 'f' }

  /** A spelling that printing reproduces. */
  predicate Canonical(s: string) { FromHex(s).Some? && ToHex(FromHex(s).value) == s }

  lemma {:induction false} PrintAfterRead(s: string)
    requires |s| % 2 == 0
    ensures (ReadPairs(s).Some? && ToHex(ReadPairs(s).value) == s) <==> forall i :: 0 <= i < |s| ==> LowerHex(s[i])
  {
    if s == "" {
    } else {
      PrintAfterRead(s[2..]);
      assert s == [s[0], s[1]] + s[2..];
      PairCanonical(s[0], s[1]);
      assert (forall i :: 0 <= i < |s| ==> LowerHex(s[i])) <==>
             LowerHex(s[0]) && LowerHex(s[1]) && forall i :: 0 <= i < |s[2..]| ==> LowerHex(s[2..][i]) by {
        if LowerHex(s[0]) && LowerHex(s[1]) && forall i :: 0 <= i < |s[2..]| ==> LowerHex(s[2..][i]) {
          forall i | 0 <= i < |s| ensures LowerHex(s[i]) {
            if i >= 2 { assert s[i] == s[2..][i - 2]; }
          }
        }
      }
      var r := ReadPairs(s);
      if r.Some? {
        assert r.value[1..] == ReadPairs(s[2..]).value;
        assert ToHex(r.value)[2..] == ToHex(r.value[1..]);
      }
    }
  }

  lemma PairCanonical(hi: char, lo: char)
    ensures var b := ByteOfPair(hi, lo);
            (b.Some? && NibbleChar(b.value / 16) == hi && NibbleChar(b.value % 16) == lo) <==>
                LowerHex(hi) && LowerHex(lo)
  {
  }

  /** The reader accepts more than it prints: exactly 64 lower-case digits come back unchanged. */
  lemma CanonicalIsLowerHex(s: string)
    ensures Canonical(s) <==> |s| == 64 && forall i :: 0 <= i < |s| ==> LowerHex(s[i])
  {
    if |s| == 64 { PrintAfterRead(s); }
  }

  // ---- Paths ----

  /** `<root>/<byte 0>/<byte 1>/<hex>`, relative to the root. */
  datatype BlobPath = BlobPath(l1: string, l2: string, name: string)

  function PathOf(d: Digest): BlobPath
    requires IsDigest(d)
  {
    BlobPath(ToHex([d[0]]), ToHex([d[1]]), ToHex(d))
  }

  predicate HexPrefix(s: string) { |s| == 2 && NibbleValue(s[0]).Some? && NibbleValue(s[1]).Some? }

  /** Distinct hashes have distinct paths, and the store's listing finds a blob under its own hash. */
  lemma PathsAreDistinct(a: Digest, b: Digest)
    requires IsDigest(a) && IsDigest(b)
    ensures PathOf(a) == PathOf(b) ==> a == b
    ensures HexPrefix(PathOf(a).l1) && HexPrefix(PathOf(a).l2) && FromHex(PathOf(a).name) == Some(a)
  {
    FromHexAfterToHex(a);
    if PathOf(a) == PathOf(b) { ToHexInjective(a, b); }
    NibbleRoundTrip(a[0] / 16);
    NibbleRoundTrip(a[0] % 16);
    NibbleRoundTrip(a[1] / 16);
    NibbleRoundTrip(a[1] % 16);
  }
}
