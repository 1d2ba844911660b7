// Types and sequence helpers shared by the other modules.
module Common {

  datatype Option<+T> = None | Some(value: T)

  /** The outcome of one check of a verification report. */
  datatype CheckStatus = Pass | Fail | Skip

  type byte = x: int | 0 <= x < 256
  type Bytes = seq<byte>

  /** A 32-byte content hash. */
  type Digest = Bytes

  const U32_LIMIT: int := 0x1_0000_0000
  const U64_LIMIT: int := 0x1_0000_0000_0000_0000

  type u32 = x: int | 0 <= x < U32_LIMIT
  type u64 = x: int | 0 <= x < U64_LIMIT

  /** Addition of an atomic counter: `fetch_add` wraps around. */
  function WrapAdd64(x: u64, y: u64): u64 { (x + y) % U64_LIMIT }

  function SaturatingAdd32(x: u32, y: u32): u32 { if x + y < U32_LIMIT then x + y else U32_LIMIT - 1 }

  function SaturatingAdd64(x: u64, y: nat): u64 { if x + y < U64_LIMIT then x + y else U64_LIMIT - 1 }

  lemma Associative<T>(a: seq<T>, b: seq<T>, c: seq<T>)
    ensures (a + b) + c == a + (b + c)
  {
  }

  /** Concatenation of a sequence of sequences. */
  function Flatten<T>(parts: seq<seq<T>>): seq<T> {
    if parts == [] then [] else parts[0] + Flatten(parts[1..])
  }

  lemma FlattenAppend<T>(a: seq<seq<T>>, b: seq<seq<T>>)
    ensures Flatten(a + b) == Flatten(a) + Flatten(b)
  {
    if a == [] {
      assert a + b == b;
    } else {
      assert (a + b)[1..] == a[1..] + b;
      FlattenAppend(a[1..], b);
    }
  }

  lemma FlattenOne<T>(x: seq<T>)
    ensures Flatten([x]) == x
  {
    assert [x][1..] == [];
  }

  /** Length of the UTF-8 encoding, which is what `str::len` counts. */
  function Utf8Len(s: string): nat {
    if s == "" then 0
    else
      var c := s[0] as int;
      (if c < 0x80 then 1 else if c < 0x800 then 2 else if c < 0x1_0000 then 3 else 4) + Utf8Len(s[1..])
  }

  predicate StartsWith<T(==)>(s: seq<T>, p: seq<T>) { |p| <= |s| && s[..|p|] == p }

  predicate EndsWith<T(==)>(s: seq<T>, p: seq<T>) { |p| <= |s| && s[|s| - |p|..] == p }

  // ---- Positions in a list ----

  /** Positions below `n`, in order. */
  predicate Ascending(at: seq<nat>, n: nat) {
    && (forall k :: 0 <= k < |at| ==> at[k] < n)
    && (forall k, l :: 0 <= k < l < |at| ==> at[k] < at[l])
  }

  /** The items whose flag is set, in order. */
  function Picked<T>(flags: seq<bool>, items: seq<T>): seq<T>
    requires |flags| == |items|
  {
    if items == [] then [] else (if flags[0] then [items[0]] else []) + Picked(flags[1..], items[1..])
  }

  lemma {:induction false} PickedLast<T>(flags: seq<bool>, items: seq<T>, flag: bool, item: T)
    requires |flags| == |items|
    ensures Picked(flags + [flag], items + [item]) == Picked(flags, items) + if flag then [item] else []
  {
    if items == [] {
      assert ([] + [flag])[1..] == [] && ([] + [item])[1..] == [];
      assert Picked<T>([], []) == [];
    } else {
      assert (flags + [flag])[1..] == flags[1..] + [flag] && (items + [item])[1..] == items[1..] + [item];
      PickedLast(flags[1..], items[1..], flag, item);
      Associative(if flags[0] then [items[0]] else [], Picked(flags[1..], items[1..]), if flag then [item] else []);
    }
  }

  /** `at` are the positions whose flag is set. */
  predicate FlaggedAt(at: seq<nat>, flags: seq<bool>) {
    Ascending(at, |flags|) && forall i :: 0 <= i < |flags| ==> (i in at <==> flags[i])
  }

  lemma FlaggedLast(rest: seq<nat>, flags: seq<bool>, n: nat)
    requires |flags| == n + 1 && FlaggedAt(rest, flags[..n])
    ensures FlaggedAt(if flags[n] then rest + [n] else rest, flags)
  {
    var at := if flags[n] then rest + [n] else rest;
    assert n !in rest;
    forall i | 0 <= i < |flags| ensures i in at <==> flags[i] {
      if i < n { assert flags[..n][i] == flags[i] && (i in at <==> i in rest); }
    }
  }

  /** The items at the given positions. */
  predicate Selects<T(==)>(picked: seq<T>, items: seq<T>, at: seq<nat>)
    requires Ascending(at, |items|)
  {
    |picked| == |at| && forall k :: 0 <= k < |at| ==> picked[k] == items[at[k]]
  }

  lemma SelectsLast<T>(picked: seq<T>, items: seq<T>, rest: seq<nat>, n: nat)
    requires |items| == n + 1 && Ascending(rest, n) && Selects(picked, items[..n], rest)
    ensures Ascending(rest, n + 1) && Selects(picked, items, rest)
    ensures Ascending(rest + [n], n + 1) && Selects(picked + [items[n]], items, rest + [n])
  {
  }

  lemma SelectedLast<T>(flags: seq<bool>, items: seq<T>, rest: seq<nat>, n: nat)
    requires |flags| == |items| == n + 1 && Ascending(rest, n)
    requires Selects(Picked(flags[..n], items[..n]), items[..n], rest)
    ensures var at := if flags[n] then rest + [n] else rest;
            Ascending(at, n + 1) && Selects(Picked(flags, items), items, at)
  {
    var picked := Picked(flags[..n], items[..n]);
    PickedLast(flags[..n], items[..n], flags[n], items[n]);
    assert flags[..n] + [flags[n]] == flags && items[..n] + [items[n]] == items;
    SelectsLast(picked, items, rest, n);
    assert !flags[n] ==> picked + [] == picked;
  }

  lemma {:induction false} PickedExactly<T>(flags: seq<bool>, items: seq<T>) returns (at: seq<nat>)
    requires |flags| == |items|
    ensures FlaggedAt(at, flags) && Selects(Picked(flags, items), items, at)
  {
    if items == [] {
      at := [];
    } else {
      var n := |items| - 1;
      var rest := PickedExactly(flags[..n], items[..n]);
      FlaggedLast(rest, flags, n);
      SelectedLast(flags, items, rest, n);
      at := if flags[n] then rest + [n] else rest;
    }
  }
}
