// Looking a run up by the first characters of its id, through an SQL LIKE pattern.
module LikePrefix {
  import opened Common

  /** LIKE ignores the case of ASCII letters. */
  function Fold(c: char): char {
    if 'A' <= c <= 'Z' then (c as int + 32) as char else c
  }

  /** `s LIKE p ESCAPE '\'`. */
  predicate Like(p: string, s: string)
    decreases |p| + |s|
  {
    if p == "" then s == ""
    else if p[0] == '\\' then |p| > 1 && s != "" && Fold(p[1]) == Fold(s[0]) && Like(p[2..], s[1..])
    else if p[0] == '%' then Like(p[1..], s) || (s != "" && Like(p, s[1..]))
    else if p[0] == '_' then s != "" && Like(p[1..], s[1..])
    else s != "" && Fold(p[0]) == Fold(s[0]) && Like(p[1..], s[1..])
  }

  function Escape(prefix: string): string {
    if prefix == "" then ""
    else (if prefix[0] == '%' || prefix[0] == '_' || prefix[0] == '\\' then ['\\', prefix[0]] else [prefix[0]]) +
         Escape(prefix[1..])
  }

  predicate HasPrefix(s: string, prefix: string) {
    |prefix| <= |s| && forall i :: 0 <= i < |prefix| ==> Fold(s[i]) == Fold(prefix[i])
  }

  lemma {:induction false} PercentMatchesAll(s: string)
    ensures Like("%", s)
  {
    if s == "" {
    } else {
      PercentMatchesAll(s[1..]);
    }
  }

  lemma HasPrefixStep(s: string, prefix: string)
    requires prefix != ""
    ensures HasPrefix(s, prefix) <==> s != "" && Fold(s[0]) == Fold(prefix[0]) && HasPrefix(s[1..], prefix[1..])
  {
    if s != "" && Fold(s[0]) == Fold(prefix[0]) && HasPrefix(s[1..], prefix[1..]) {
      forall i | 0 <= i < |prefix| ensures Fold(s[i]) == Fold(prefix[i]) {
        if i > 0 { assert s[1..][i - 1] == s[i] && prefix[1..][i - 1] == prefix[i]; }
      }
    }
  }

  /** Wildcards in the prefix lose their meaning: the pattern matches exactly the ids that start with it. */
  lemma {:induction false} PatternMeansPrefix(prefix: string, s: string)
    ensures Like(Escape(prefix) + "%", s) <==> HasPrefix(s, prefix)
    decreases |prefix|
  {
    var p := Escape(prefix) + "%";
    if prefix == "" {
      assert p == "%";
      PercentMatchesAll(s);
    } else {
      var rest := Escape(prefix[1..]) + "%";
      HasPrefixStep(s, prefix);
      if s != "" { PatternMeansPrefix(prefix[1..], s[1..]); }
      if prefix[0] == '%' || prefix[0] == '_' || prefix[0] == '\\' {
        assert p == ['\\', prefix[0]] + rest && p[2..] == rest;
      } else {
        assert p == [prefix[0]] + rest && p[1..] == rest;
      }
    }
  }

  /** The rows a query returns, in order. */
  function Select(ids: seq<string>, pattern: string): seq<string> {
    if ids == [] then []
    else (if Like(pattern, ids[0]) then [ids[0]] else []) + Select(ids[1..], pattern)
  }

  datatype Lookup = EmptyPrefix | NotFound | Found(id: string) | Ambiguous(matches: seq<string>)

  function GetRunByPrefix(ids: seq<string>, prefix: string): Lookup {
    if prefix == "" then EmptyPrefix
    else
      var rows := Select(ids, Escape(prefix) + "%");
      if |rows| == 0 then NotFound else if |rows| == 1 then Found(rows[0]) else Ambiguous(rows)
  }

  /** How many ids start with `prefix`. */
  function Count(ids: seq<string>, prefix: string): nat {
    if ids == [] then 0 else (if HasPrefix(ids[0], prefix) then 1 else 0) + Count(ids[1..], prefix)
  }

  lemma {:induction false} SelectsByPrefix(ids: seq<string>, prefix: string)
    ensures var rows := Select(ids, Escape(prefix) + "%");
            && |rows| == Count(ids, prefix)
            && (forall r :: r in rows ==> r in ids && HasPrefix(r, prefix))
            && (forall id :: id in ids && HasPrefix(id, prefix) ==> id in rows)
  {
    if ids == [] {
    } else {
      PatternMeansPrefix(prefix, ids[0]);
      SelectsByPrefix(ids[1..], prefix);
    }
  }

  /** A run is returned exactly when its id is the only one with the prefix; an ambiguous answer drops no match. */
  lemma LookupIsExact(ids: seq<string>, prefix: string)
    requires prefix != ""
    ensures var r := GetRunByPrefix(ids, prefix);
            && (r == NotFound <==> forall id :: id in ids ==> !HasPrefix(id, prefix))
            && (r.Found? <==> Count(ids, prefix) == 1)
            && (r.Found? ==> r.id in ids && HasPrefix(r.id, prefix))
            && (r.Found? ==> forall id :: id in ids && HasPrefix(id, prefix) ==> id == r.id)
            && (r.Ambiguous? ==> forall id :: id in r.matches <==> id in ids && HasPrefix(id, prefix))
            && !r.EmptyPrefix?
  {
    SelectsByPrefix(ids, prefix);
    var rows := Select(ids, Escape(prefix) + "%");
    if |rows| > 0 { assert rows[0] in rows; }
  }
}
