// The session's tool filter: glob matching on the command's basename, deny before allow.
module ToolFilter {
  import opened Common

  /** What a glob means: every `*` stands for some string, any other character for itself. */
  ghost predicate Denotes(pattern: string, text: string)
    decreases |pattern|
  {
    if pattern == "" then text == ""
    else if pattern[0] == '*' then exists k :: 0 <= k <= |text| && Denotes(pattern[1..], text[k..])
    else text != "" && text[0] == pattern[0] && Denotes(pattern[1..], text[1..])
  }

  /** `pattern.split('*')`: never empty. */
  function Split(pattern: string): (parts: seq<string>)
    ensures |parts| >= 1
    ensures |parts| == 1 <==> '*' !in pattern
    ensures parts[|parts| - 1] == "" <==> pattern == "" || pattern[|pattern| - 1] == '*'
  {
    if pattern == "" then [""]
    else
      var rest := Split(pattern[1..]);
      if pattern[0] == '*' then [""] + rest
      else [[pattern[0]] + rest[0]] + rest[1..]
  }

  /** `text` is the parts in order, with arbitrary gaps between neighbours. */
  ghost predicate Anchored(parts: seq<string>, text: string)
    requires parts != []
    decreases |parts|, 0
  {
    if |parts| == 1 then text == parts[0]
    else StartsWith(text, parts[0]) && Floating(parts[1..], text[|parts[0]|..])
  }

  /** As `Anchored`, with an arbitrary gap in front too. */
  ghost predicate Floating(parts: seq<string>, text: string)
    requires parts != []
    decreases |parts|, 1
  {
    exists k :: 0 <= k <= |text| && Anchored(parts, text[k..])
  }

  lemma {:induction false} SplitMeansDenotes(pattern: string, text: string)
    ensures Anchored(Split(pattern), text) <==> Denotes(pattern, text)
    decreases |pattern|
  {
    if pattern == "" {
    } else {
      var rest := Split(pattern[1..]);
      if pattern[0] == '*' {
        assert Split(pattern)[1..] == rest;
        assert text[|""|..] == text;
        forall k | 0 <= k <= |text| ensures Anchored(rest, text[k..]) <==> Denotes(pattern[1..], text[k..]) {
          SplitMeansDenotes(pattern[1..], text[k..]);
        }
      } else {
        ConsHead(pattern[0], rest, text);
        if text != "" { SplitMeansDenotes(pattern[1..], text[1..]); }
      }
    }
  }

  /** Putting a character in front of the first part consumes one character of the text. */
  lemma ConsHead(c: char, rest: seq<string>, text: string)
    requires rest != []
    ensures Anchored([[c] + rest[0]] + rest[1..], text) <==> text != "" && text[0] == c && Anchored(rest, text[1..])
  {
    var head := [c] + rest[0];
    var parts := [head] + rest[1..];
    if text != "" {
      assert text == [text[0]] + text[1..];
      if |rest| > 1 {
        assert parts[1..] == rest[1..];
        if |head| <= |text| {
          assert text[..|head|] == [text[0]] + text[1..][..|rest[0]|];
          assert text[|head|..] == text[1..][|rest[0]|..];
        }
      }
    }
  }

  /** Starting earlier can only help. */
  lemma FloatingMonotone(parts: seq<string>, text: string, from: nat)
    requires parts != [] && from <= |text| && Floating(parts, text[from..])
    ensures Floating(parts, text)
  {
    var k :| 0 <= k <= |text[from..]| && Anchored(parts, text[from..][k..]);
    assert text[from..][k..] == text[from + k..];
  }

  ghost predicate OccursAt(text: string, part: string, k: int) {
    0 <= k <= |text| - |part| && text[k..k + |part|] == part
  }

  /** `str::find`: the first occurrence. */
  method Find(text: string, part: string) returns (r: Option<nat>)
    ensures r.None? ==> forall k :: !OccursAt(text, part, k)
    ensures r.Some? ==> OccursAt(text, part, r.value) && forall k :: 0 <= k < r.value ==> !OccursAt(text, part, k)
  {
    var i := 0;
    while i + |part| <= |text|
      invariant forall k :: 0 <= k < i ==> !OccursAt(text, part, k)
    {
      if text[i..i + |part|] == part { return Some(i); }
      i := i + 1;
    }
    return None;
  }

  /** The exchange step: committing to the first occurrence of a part loses no match. */
  lemma FirstOccurrenceSuffices(parts: seq<string>, text: string, found: nat)
    requires |parts| >= 2
    requires OccursAt(text, parts[0], found) && forall k :: 0 <= k < found ==> !OccursAt(text, parts[0], k)
    ensures Floating(parts, text) <==> Floating(parts[1..], text[found + |parts[0]|..])
  {
    var after := found + |parts[0]|;
    if Floating(parts, text) {
      var k :| 0 <= k <= |text| && Anchored(parts, text[k..]);
      AnchoredOccurs(parts, text, k);
      assert text[k..][|parts[0]|..] == text[after..][k - found..];
      FloatingMonotone(parts[1..], text[after..], k - found);
    }
    if Floating(parts[1..], text[after..]) {
      assert text[found..][..|parts[0]|] == text[found..after];
      assert text[found..][|parts[0]|..] == text[after..];
      assert Anchored(parts, text[found..]);
    }
  }

  lemma AnchoredOccurs(parts: seq<string>, text: string, k: nat)
    requires parts != [] && k <= |text| && Anchored(parts, text[k..])
    ensures OccursAt(text, parts[0], k)
  {
    var rest := text[k..];
    assert |parts[0]| <= |rest| && rest[..|parts[0]|] == parts[0];
    assert rest[..|parts[0]|] == text[k..k + |parts[0]|];
  }

  lemma NoOccurrenceNoMatch(parts: seq<string>, text: string)
    requires parts != [] && forall k :: !OccursAt(text, parts[0], k)
    ensures !Floating(parts, text)
  {
    if Floating(parts, text) {
      var k :| 0 <= k <= |text| && Anchored(parts, text[k..]);
      AnchoredOccurs(parts, text, k);
      assert false;
    }
  }

  /** The last part floats exactly when the text ends with it. */
  lemma LastPart(part: string, text: string)
    ensures Floating([part], text) <==> EndsWith(text, part)
  {
    if EndsWith(text, part) {
      assert Anchored([part], text[|text| - |part|..]);
    }
    if Floating([part], text) {
      var k :| 0 <= k <= |text| && Anchored([part], text[k..]);
      assert k == |text| - |part|;
    }
  }

  /** What is still to be matched before part `i` when the text up to `pos` is consumed. */
  ghost predicate Remaining(parts: seq<string>, i: nat, text: string, pos: nat)
    requires |parts| >= 2 && i <= |parts| && pos <= |text|
  {
    if i == 0 then Anchored(parts, text)
    else if i < |parts| then Floating(parts[i..], text[pos..])
    else EndsWith(text, parts[|parts| - 1])
  }

  lemma StepFound(parts: seq<string>, i: nat, text: string, pos: nat, found: nat)
    requires |parts| >= 2 && i < |parts| && pos <= |text|
    requires i == 0 ==> pos == 0 && found == 0
    requires OccursAt(text[pos..], parts[i], found)
    requires forall k :: 0 <= k < found ==> !OccursAt(text[pos..], parts[i], k)
    ensures Remaining(parts, i, text, pos) <==> Remaining(parts, i + 1, text, pos + found + |parts[i]|)
  {
    var next := pos + found + |parts[i]|;
    assert text[pos..][found + |parts[i]|..] == text[next..];
    if i == 0 {
      assert text[pos..] == text;
    } else if i < |parts| - 1 {
      assert parts[i..][1..] == parts[i + 1..];
      FirstOccurrenceSuffices(parts[i..], text[pos..], found);
    } else {
      assert parts[i..] == [parts[i]];
      LastPart(parts[i], text[pos..]);
    }
  }

  lemma StepNotFound(parts: seq<string>, i: nat, text: string, pos: nat)
    requires |parts| >= 2 && i < |parts| && pos <= |text|
    requires i == 0 ==> pos == 0
    requires forall k :: (i == 0 ==> k == 0) ==> !OccursAt(text[pos..], parts[i], k)
    ensures !Remaining(parts, i, text, pos)
  {
    if i == 0 {
      assert text[0..] == text;
      assert !OccursAt(text[0..], parts[0], 0);
    } else {
      NoOccurrenceNoMatch(parts[i..], text[pos..]);
    }
  }

  /** The greedy loop: each part at its first occurrence behind the one before it. */
  method PlaceParts(parts: seq<string>, text: string) returns (placed: bool)
    requires |parts| >= 2
    ensures Anchored(parts, text) <==> placed && EndsWith(text, parts[|parts| - 1])
  {
    var pos: nat := 0;
    for i := 0 to |parts|
      invariant pos <= |text| && (i == 0 ==> pos == 0)
      invariant Anchored(parts, text) <==> Remaining(parts, i, text, pos)
    {
      if parts[i] == "" {
        StepFound(parts, i, text, pos, 0);
        continue;
      }
      var found := Find(text[pos..], parts[i]);
      if found.None? || (i == 0 && found.value != 0) {
        StepNotFound(parts, i, text, pos);
        return false;
      }
      StepFound(parts, i, text, pos, found.value);
      pos := pos + found.value + |parts[i]|;
    }
    placed := true;
  }

  /** The greedy matcher decides the declarative meaning, for every pattern and text. */
  method GlobMatch(pattern: string, text: string) returns (matched: bool)
    ensures matched <==> Denotes(pattern, text)
  {
    SplitMeansDenotes(pattern, text);
    if pattern == "*" {
      assert Denotes("", text[|text|..]);
      return true;
    }
    if '*' !in pattern {
      PlainSplit(pattern);
      return pattern == text;
    }
    var parts := Split(pattern);
    var placed := PlaceParts(parts, text);
    matched := placed && (pattern[|pattern| - 1] == '*' || EndsWith(text, parts[|parts| - 1]));
  }

  lemma {:induction false} PlainSplit(pattern: string)
    requires '*' !in pattern
    ensures Split(pattern) == [pattern]
  {
    if pattern == "" {
    } else {
      var rest := pattern[1..];
      assert '*' !in rest && pattern[0] != '*';
      PlainSplit(rest);
      assert [rest][1..] == [] && [pattern[0]] + rest == pattern;
    }
  }

  /** The parts of `path` between slashes, without the empty ones. */
  function Segments(path: string): seq<string>
    decreases |path|
  {
    var cut := SlashIndex(path);
    var head := if cut == 0 then [] else [path[..cut]];
    if cut == |path| then head else head + Segments(path[cut + 1..])
  }

  function SlashIndex(path: string): (i: nat)
    ensures i <= |path| && '/' !in path[..i]
    ensures i < |path| ==> path[i] == '/'
  {
    if path == "" || path[0] == '/' then 0 else
      var i := SlashIndex(path[1..]);
      assert path[..i + 1] == [path[0]] + path[1..][..i];
      i + 1
  }

  /** The last segment that is not a trailing `.`, if that is a name. */
  function LastName(segments: seq<string>): Option<string> {
    if segments == [] then None
    else
      var last := segments[|segments| - 1];
      if last == "." then LastName(segments[..|segments| - 1])
      else if last == ".." then None
      else Some(last)
  }

  /** `Path::file_name`, falling back to the whole command. */
  function Basename(command: string): string {
    var name := LastName(Segments(command));
    if name.Some? then name.value else command
  }

  lemma {:induction false} BasenameOfPath(dir: string, name: string)
    requires '/' !in name && name != "" && name != "." && name != ".."
    ensures Basename(name) == name && Basename(dir + "/" + name) == name
  {
    SegmentsOfName(name);
    SegmentsOfPath(dir, name);
  }

  /** Trailing slashes and dots do not count, and a path that ends in two dots has no name. */
  lemma BasenameOfTrailing(dir: string)
    ensures LastName(Segments(dir + "/")) == LastName(Segments(dir))
    ensures LastName(Segments(dir + "/" + ".")) == LastName(Segments(dir))
    ensures Basename(dir + "/" + "..") == dir + "/" + ".."
  {
    SegmentsOfSlash(dir);
    SegmentsOfPath(dir, ".");
    SegmentsOfPath(dir, "..");
    var segments := Segments(dir);
    assert (segments + ["."])[..|segments|] == segments;
  }

  lemma {:induction false} SegmentsOfSlash(dir: string)
    ensures Segments(dir + "/") == Segments(dir)
    decreases |dir|
  {
    var path, cut := dir + "/", SlashIndex(dir);
    SlashInPrefix(dir, "");
    assert dir + "/" + "" == path;
    if cut == |dir| {
      assert path[..cut] == dir && dir[..cut] == dir && path[cut + 1..] == "";
    } else {
      assert path[..cut] == dir[..cut] && path[cut + 1..] == dir[cut + 1..] + "/";
      SegmentsOfSlash(dir[cut + 1..]);
    }
  }

  lemma SegmentsOfName(name: string)
    requires '/' !in name && name != ""
    ensures Segments(name) == [name]
  {
    assert SlashIndex(name) == |name|;
    assert name[..|name|] == name;
  }

  lemma {:induction false} SegmentsOfPath(dir: string, name: string)
    requires '/' !in name && name != ""
    ensures Segments(dir + "/" + name) == Segments(dir) + [name]
    decreases |dir|
  {
    var path := dir + "/" + name;
    var cut := SlashIndex(path);
    SlashInPrefix(dir, name);
    if cut == |dir| {
      assert path[cut + 1..] == name && path[..cut] == dir && dir[..cut] == dir;
      SegmentsOfName(name);
    } else {
      assert path[..cut] == dir[..cut];
      assert path[cut + 1..] == dir[cut + 1..] + "/" + name;
      SegmentsOfPath(dir[cut + 1..], name);
    }
  }

  lemma SlashInPrefix(dir: string, name: string)
    ensures SlashIndex(dir + "/" + name) == SlashIndex(dir)
  {
    var path := dir + "/" + name;
    if dir != "" && dir[0] != '/' {
      assert path[1..] == dir[1..] + "/" + name;
    }
  }

  datatype Filter = Filter(allow: seq<string>, deny: seq<string>)

  ghost predicate MatchesAny(patterns: seq<string>, name: string) {
    exists i :: 0 <= i < |patterns| && Denotes(patterns[i], name)
  }

  /** Deny-first membership: a denied name is refused whatever the allow list says. */
  method IsAllowed(filter: Filter, command: string) returns (allowed: bool)
    ensures allowed <==>
              && !MatchesAny(filter.deny, Basename(command))
              && (filter.allow == [] || MatchesAny(filter.allow, Basename(command)))
  {
    var basename := Basename(command);
    for i := 0 to |filter.deny|
      invariant forall k :: 0 <= k < i ==> !Denotes(filter.deny[k], basename)
    {
      var hit := GlobMatch(filter.deny[i], basename);
      if hit { return false; }
    }
    if filter.allow == [] { return true; }
    for i := 0 to |filter.allow|
      invariant forall k :: 0 <= k < i ==> !Denotes(filter.allow[k], basename)
    {
      var hit := GlobMatch(filter.allow[i], basename);
      if hit { return true; }
    }
    return false;
  }
}
