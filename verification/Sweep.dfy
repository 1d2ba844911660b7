// Store cleanup: pruning old runs, marking what the remaining runs refer to, sweeping the rest; and
// exactly when a sweep is noticed by the verification of a run.
module Sweep {
  import opened Common
  import opened Hex
  import opened BlobStore
  import opened RunVerify

  datatype RunRecord = RunRecord(created: int, manifestHash: Option<string>, dir: RunDir)

  // ---- Marking ----

  function Elements(names: seq<string>): (marks: set<string>)
    ensures forall i :: 0 <= i < |names| ==> names[i] in marks
  {
    if names == [] then {} else {names[0]} + Elements(names[1..])
  }

  function ArtifactMarks(artifacts: seq<ArtifactRef>): (marks: set<string>)
    ensures forall i :: 0 <= i < |artifacts| ==> ToHex(artifacts[i].hash) in marks
  {
    if artifacts == [] then {} else {ToHex(artifacts[0].hash)} + ArtifactMarks(artifacts[1..])
  }

  function ManifestMarks(env: Env, files: Files, m: Manifest): set<string> {
    ArtifactMarks(m.artifacts) + (if m.trace.Some? then Elements(Followed(env, files, m.trace.value)) else {})
  }

  function MarksOf(env: Env, files: Files, r: RunRecord): set<string> {
    if r.dir.manifest.None? || env.parseManifest(r.dir.manifest.value).None? then {}
    else
      ManifestMarks(env, files, env.parseManifest(r.dir.manifest.value).value) +
      (if r.manifestHash.Some? then {r.manifestHash.value} else {})
  }

  ghost function Referenced(env: Env, files: Files, runs: seq<RunRecord>): set<string> {
    if runs == [] then {} else MarksOf(env, files, runs[0]) + Referenced(env, files, runs[1..])
  }

  /** Builds the set of referenced hash strings, run by run. */
  method Mark(env: Env, files: Files, runs: seq<RunRecord>) returns (referenced: set<string>)
    ensures referenced == Referenced(env, files, runs)
  {
    referenced := {};
    for i := 0 to |runs|
      invariant referenced + Referenced(env, files, runs[i..]) == Referenced(env, files, runs)
    {
      assert runs[i..][0] == runs[i] && runs[i..][1..] == runs[i + 1..];
      var marks := MarkRun(env, files, runs[i]);
      referenced := referenced + marks;
    }
    assert runs[|runs|..] == [];
  }

  method MarkRun(env: Env, files: Files, r: RunRecord) returns (marks: set<string>)
    ensures marks == MarksOf(env, files, r)
  {
    marks := {};
    if r.dir.manifest.None? { return; }
    var m := env.parseManifest(r.dir.manifest.value);
    if m.None? { return; }
    marks := MarkArtifacts(m.value.artifacts);
    if m.value.trace.Some? {
      var more := MarkTrace(env, files, m.value.trace.value);
      marks := marks + more;
    }
    if r.manifestHash.Some? { marks := marks + {r.manifestHash.value}; }
  }

  method MarkArtifacts(artifacts: seq<ArtifactRef>) returns (marks: set<string>)
    ensures marks == ArtifactMarks(artifacts)
  {
    marks := {};
    for i := 0 to |artifacts|
      invariant marks + ArtifactMarks(artifacts[i..]) == ArtifactMarks(artifacts)
    {
      assert artifacts[i..][0] == artifacts[i] && artifacts[i..][1..] == artifacts[i + 1..];
      marks := marks + {ToHex(artifacts[i].hash)};
    }
    assert artifacts[|artifacts|..] == [];
  }

  /** The index, and the chunks as far as the index can be read: the strings the verifier follows. */
  method MarkTrace(env: Env, files: Files, trace: TraceInfo) returns (marks: set<string>)
    ensures marks == Elements(Followed(env, files, trace))
  {
    marks := {};
    if trace.indexHash.None? { return; }
    marks := marks + {trace.indexHash.value};
    ghost var names := Followed(env, files, trace);
    assert names[0] == trace.indexHash.value;
    var h := FromHex(trace.indexHash.value);
    if h.None? { return; }
    var bytes := ReadBlob(files, h.value);
    if bytes.None? { return; }
    var index := env.parseIndex(bytes.value);
    if index.None? { return; }
    var chunks := index.value.chunks;
    for i := 0 to |chunks|
      invariant marks + Elements(names[i + 1..]) == Elements(names)
    {
      assert names[i + 1..][0] == names[i + 1] == chunks[i].hash && names[i + 1..][1..] == names[i + 2..];
      marks := marks + {chunks[i].hash};
    }
    assert names[|chunks| + 1..] == [];
  }

  lemma {:induction false} MarkedByItsRun(env: Env, files: Files, runs: seq<RunRecord>, i: nat)
    requires i < |runs|
    ensures MarksOf(env, files, runs[i]) <= Referenced(env, files, runs)
  {
    if i == 0 {
    } else {
      MarkedByItsRun(env, files, runs[1..], i - 1);
    }
  }

  // ---- Listing ----

  datatype Listed = Listed(digest: Digest, size: nat)

  /** The walk lists this file. */
  predicate Walked(files: Files, p: BlobPath) {
    p in files && HexPrefix(p.l1) && HexPrefix(p.l2) && FromHex(p.name).Some?
  }

  /** The files the directory walk lists: `order` is the order in which entries are found. */
  function WalkedPaths(files: Files, order: seq<BlobPath>): (paths: seq<BlobPath>)
    ensures forall p :: p in paths <==> p in order && Walked(files, p)
    ensures forall i :: 0 <= i < |paths| ==> Walked(files, paths[i])
  {
    if order == [] then []
    else (if Walked(files, order[0]) then [order[0]] else []) + WalkedPaths(files, order[1..])
  }

  function Entry(files: Files, p: BlobPath): (e: Listed)
    requires Walked(files, p)
    ensures IsDigest(e.digest)
  {
    Listed(FromHex(p.name).value, files[p].size)
  }

  function ListAll(files: Files, order: seq<BlobPath>): (entries: seq<Listed>)
    ensures |entries| == |WalkedPaths(files, order)|
    ensures forall i :: 0 <= i < |entries| ==> entries[i] == Entry(files, WalkedPaths(files, order)[i])
    ensures forall i :: 0 <= i < |entries| ==> IsDigest(entries[i].digest)
  {
    var paths := WalkedPaths(files, order);
    seq(|paths|, i requires 0 <= i < |paths| => Entry(files, paths[i]))
  }

  function WalkedFlags(files: Files, order: seq<BlobPath>): (flags: seq<bool>)
    ensures |flags| == |order| && forall i :: 0 <= i < |order| ==> flags[i] == Walked(files, order[i])
  {
    seq(|order|, i requires 0 <= i < |order| => Walked(files, order[i]))
  }

  lemma {:induction false} WalkedIsPicked(files: Files, order: seq<BlobPath>)
    ensures WalkedPaths(files, order) == Picked(WalkedFlags(files, order), order)
  {
    if order == [] {
    } else {
      WalkedIsPicked(files, order[1..]);
      assert WalkedFlags(files, order)[1..] == WalkedFlags(files, order[1..]);
    }
  }

  /** The listing holds exactly the files in directories named by two hex digits whose own name reads as a hash. */
  lemma ListedExactly(files: Files, order: seq<BlobPath>) returns (at: seq<nat>)
    ensures Ascending(at, |order|)
    ensures forall i :: 0 <= i < |order| ==>
              (i in at <==> order[i] in files && HexPrefix(order[i].l1) && HexPrefix(order[i].l2) &&
                              FromHex(order[i].name).Some?)
    ensures var entries := ListAll(files, order);
            && |entries| == |at|
            && forall k :: 0 <= k < |at| ==>
                 && FromHex(order[at[k]].name) == Some(entries[k].digest)
                 && order[at[k]] in files && entries[k].size == files[order[at[k]]].size
  {
    WalkedIsPicked(files, order);
    at := PickedExactly(WalkedFlags(files, order), order);
    forall k | 0 <= k < |at| ensures Walked(files, order[at[k]]) { assert at[k] in at; }
  }

  lemma PresentIsListed(files: Files, order: seq<BlobPath>, d: Digest)
    requires IsDigest(d) && PathOf(d) in files && PathOf(d) in order
    ensures exists i :: 0 <= i < |ListAll(files, order)| && ListAll(files, order)[i].digest == d
  {
    var paths := WalkedPaths(files, order);
    PathsAreDistinct(d, d);
    assert PathOf(d) in paths;
    var i :| 0 <= i < |paths| && paths[i] == PathOf(d);
    assert ListAll(files, order)[i] == Entry(files, PathOf(d));
  }

  // ---- Sweeping ----

  /** One sweep: what is marked, the clock, and the blobs whose removal the file system refuses. */
  datatype Cfg = Cfg(marks: set<string>, now: int, minAge: nat, failing: set<Digest>)

  function Age(now: int, mtime: int): nat { if now >= mtime then now - mtime else 0 }

  /** Unmarked, a regular file, and old enough. */
  predicate Removable(files: Files, c: Cfg, d: Digest)
    requires IsDigest(d)
  {
    && ToHex(d) !in c.marks
    && Lookup(files, d).Some?
    && var node := Lookup(files, d).value;
       node.regular && node.mtime.Some? && Age(c.now, node.mtime.value) >= c.minAge
  }

  predicate Takes(files: Files, c: Cfg, d: Digest)
    requires IsDigest(d)
  {
    Removable(files, c, d) && d !in c.failing
  }

  predicate AllDigests(entries: seq<Listed>) { forall i :: 0 <= i < |entries| ==> IsDigest(entries[i].digest) }

  /** The blobs gone after the first `n` entries. */
  function Gone(files: Files, entries: seq<Listed>, c: Cfg, n: nat): (gone: set<Digest>)
    requires n <= |entries| && AllDigests(entries)
    ensures forall d :: d in gone ==> IsDigest(d) && Takes(files, c, d)
  {
    if n == 0 then {}
    else
      var before := Gone(files, entries, c, n - 1);
      if Takes(files, c, entries[n - 1].digest) then before + {entries[n - 1].digest} else before
  }

  lemma {:induction false} GoneExactly(files: Files, entries: seq<Listed>, c: Cfg, n: nat, d: Digest)
    requires n <= |entries| && AllDigests(entries)
    ensures d in Gone(files, entries, c, n) <==> exists i :: 0 <= i < n && entries[i].digest == d && Takes(files, c, d)
  {
    if n == 0 {
    } else {
      GoneExactly(files, entries, c, n - 1, d);
      if Takes(files, c, entries[n - 1].digest) && entries[n - 1].digest == d {
        assert d in Gone(files, entries, c, n);
      }
    }
  }

  lemma OneMoreGone(files: Files, entries: seq<Listed>, c: Cfg, i: nat)
    requires i < |entries| && AllDigests(entries)
    ensures |Gone(files, entries, c, i + 1)| - |Gone(files, entries, c, i)| ==
              Removed(files, entries, c, i + 1) - Removed(files, entries, c, i)
  {
    var d, before := entries[i].digest, Gone(files, entries, c, i);
    OneMore(before, d);
  }

  lemma OneMore(s: set<Digest>, d: Digest)
    ensures |s + {d}| == |s| + if d in s then 0 else 1
  {
    if d in s { assert s + {d} == s; }
  }

  /** Their listed sizes: an entry counts when its blob was still there. */
  function FreedBytes(files: Files, entries: seq<Listed>, c: Cfg, n: nat): nat
    requires n <= |entries| && AllDigests(entries)
  {
    if n == 0 then 0
    else
      var e := entries[n - 1];
      FreedBytes(files, entries, c, n - 1) +
      (if Takes(files, c, e.digest) && e.digest !in Gone(files, entries, c, n - 1) then e.size else 0)
  }

  /** How many of the first `n` entries the real sweep removes something for. */
  function Removed(files: Files, entries: seq<Listed>, c: Cfg, n: nat): nat
    requires n <= |entries| && AllDigests(entries)
  {
    if n == 0 then 0
    else
      var d := entries[n - 1].digest;
      Removed(files, entries, c, n - 1) + (if Takes(files, c, d) && d !in Gone(files, entries, c, n - 1) then 1 else 0)
  }

  function Paths(ds: set<Digest>): set<BlobPath>
    requires forall d :: d in ds ==> IsDigest(d)
  {
    set d | d in ds :: PathOf(d)
  }

  /** The store without the blobs in `gone`. */
  function Without(files: Files, gone: set<Digest>): (files': Files)
    requires forall d :: d in gone ==> IsDigest(d)
    ensures Reduced(files, files')
  {
    files - Paths(gone)
  }

  lemma WithoutLookup(files: Files, gone: set<Digest>, d: Digest)
    requires IsDigest(d) && forall g :: g in gone ==> IsDigest(g)
    ensures Lookup(Without(files, gone), d) == if d in gone then None else Lookup(files, d)
  {
    if PathOf(d) in Paths(gone) {
      var g :| g in gone && PathOf(g) == PathOf(d);
      PathsAreDistinct(g, d);
    }
  }

  datatype SweepResult = SweepResult(scanned: nat, removed: nat, bytesFreed: nat, retained: nat)

  /** One entry of the sweep: nothing marked, young or stuck is removed. */
  method SweepOne(cas: CasStore, d: Digest, c: Cfg) returns (gone: bool)
    requires IsDigest(d)
    modifies cas`files
    ensures gone <==> !(ToHex(d) in c.marks || !OldFile(old(cas.files), c, d) || d in c.failing)
    ensures cas.files == if gone then old(cas.files) - {PathOf(d)} else old(cas.files)
  {
    if ToHex(d) in c.marks { return false; }
    if !OldFile(cas.files, c, d) || d in c.failing { return false; }
    cas.files := cas.files - {PathOf(d)};
    gone := true;
  }

  /** The real sweep: the store loses exactly the taken blobs, and every entry is counted once. */
  method SweepBlobs(cas: CasStore, entries: seq<Listed>, c: Cfg) returns (r: SweepResult)
    requires AllDigests(entries)
    modifies cas`files
    ensures cas.files == Without(old(cas.files), Gone(old(cas.files), entries, c, |entries|))
    ensures r.scanned == |entries| == r.removed + r.retained
    ensures r.removed == |Gone(old(cas.files), entries, c, |entries|)|
    ensures r.bytesFreed == FreedBytes(old(cas.files), entries, c, |entries|)
  {
    r := SweepResult(0, 0, 0, 0);
    ghost var files := cas.files;
    assert Without(files, {}) == files;
    for i := 0 to |entries|
      invariant cas.files == Without(files, Gone(files, entries, c, i))
      invariant r.scanned == i == r.removed + r.retained
      invariant r.removed == Removed(files, entries, c, i) && r.bytesFreed == FreedBytes(files, entries, c, i)
    {
      var e := entries[i];
      Decision(files, entries, c, i);
      r := r.(scanned := r.scanned + 1);
      var gone := SweepOne(cas, e.digest, c);
      if gone {
        RemoveOne(files, entries, c, i);
        r := r.(removed := r.removed + 1, bytesFreed := r.bytesFreed + e.size);
      } else {
        KeepOne(files, entries, c, i);
        r := r.(retained := r.retained + 1);
      }
    }
    RemovedIsGone(files, entries, c, |entries|);
  }

  predicate OldFile(files: Files, c: Cfg, d: Digest)
    requires IsDigest(d)
  {
    && PathOf(d) in files && files[PathOf(d)].regular && files[PathOf(d)].mtime.Some?
    && Age(c.now, files[PathOf(d)].mtime.value) >= c.minAge
  }

  /** Deciding on the store as it is now comes to deciding on the store at the start. */
  lemma Decision(files: Files, entries: seq<Listed>, c: Cfg, i: nat)
    requires AllDigests(entries) && i < |entries|
    ensures var d, gone := entries[i].digest, Gone(files, entries, c, i);
            ToHex(d) in c.marks || !OldFile(Without(files, gone), c, d) || d in c.failing <==>
                d in gone || !Takes(files, c, d)
  {
    WithoutLookup(files, Gone(files, entries, c, i), entries[i].digest);
  }

  lemma KeepOne(files: Files, entries: seq<Listed>, c: Cfg, i: nat)
    requires AllDigests(entries) && i < |entries|
    requires entries[i].digest in Gone(files, entries, c, i) || !Takes(files, c, entries[i].digest)
    ensures Gone(files, entries, c, i + 1) == Gone(files, entries, c, i)
    ensures Removed(files, entries, c, i + 1) == Removed(files, entries, c, i)
    ensures FreedBytes(files, entries, c, i + 1) == FreedBytes(files, entries, c, i)
  {
  }

  lemma RemoveOne(files: Files, entries: seq<Listed>, c: Cfg, i: nat)
    requires AllDigests(entries) && i < |entries|
    requires Takes(files, c, entries[i].digest) && entries[i].digest !in Gone(files, entries, c, i)
    ensures Without(files, Gone(files, entries, c, i + 1)) ==
              Without(files, Gone(files, entries, c, i)) - {PathOf(entries[i].digest)}
    ensures Removed(files, entries, c, i + 1) == Removed(files, entries, c, i) + 1
    ensures FreedBytes(files, entries, c, i + 1) == FreedBytes(files, entries, c, i) + entries[i].size
  {
    var before := Gone(files, entries, c, i);
    GoneStep(files, entries, c, i);
    WithoutOneMore(files, before, entries[i].digest);
  }

  lemma GoneStep(files: Files, entries: seq<Listed>, c: Cfg, i: nat)
    requires AllDigests(entries) && i < |entries|
    requires Takes(files, c, entries[i].digest) && entries[i].digest !in Gone(files, entries, c, i)
    ensures Gone(files, entries, c, i + 1) == Gone(files, entries, c, i) + {entries[i].digest}
    ensures FreedBytes(files, entries, c, i + 1) == FreedBytes(files, entries, c, i) + entries[i].size
  {
  }

  lemma WithoutOneMore(files: Files, gone: set<Digest>, d: Digest)
    requires IsDigest(d) && forall g :: g in gone ==> IsDigest(g)
    ensures Without(files, gone + {d}) == Without(files, gone) - {PathOf(d)}
  {
    assert Paths(gone + {d}) == Paths(gone) + {PathOf(d)};
  }

  /** The dry run counts every removable entry and changes nothing. */
  method DryRun(files: Files, entries: seq<Listed>, c: Cfg) returns (r: SweepResult)
    requires AllDigests(entries)
    ensures r.scanned == |entries| == r.removed + r.retained
    ensures r.removed == Announced(files, entries, c, |entries|)
    ensures r.bytesFreed == AnnouncedBytes(files, entries, c, |entries|)
  {
    r := SweepResult(0, 0, 0, 0);
    for i := 0 to |entries|
      invariant r.scanned == i == r.removed + r.retained
      invariant r.removed == Announced(files, entries, c, i)
      invariant r.bytesFreed == AnnouncedBytes(files, entries, c, i)
    {
      var e := entries[i];
      r := r.(scanned := r.scanned + 1);
      if ToHex(e.digest) in c.marks || !OldFile(files, c, e.digest) {
        r := r.(retained := r.retained + 1);
      } else {
        r := r.(removed := r.removed + 1, bytesFreed := r.bytesFreed + e.size);
      }
    }
  }

  /** How many of the first `n` entries name a removable blob. */
  function Announced(files: Files, entries: seq<Listed>, c: Cfg, n: nat): nat
    requires n <= |entries| && AllDigests(entries)
  {
    if n == 0 then 0
    else Announced(files, entries, c, n - 1) + (if Removable(files, c, entries[n - 1].digest) then 1 else 0)
  }

  /** Their listed sizes together. */
  function AnnouncedBytes(files: Files, entries: seq<Listed>, c: Cfg, n: nat): nat
    requires n <= |entries| && AllDigests(entries)
  {
    if n == 0 then 0
    else AnnouncedBytes(files, entries, c, n - 1) + (if Removable(files, c, entries[n - 1].digest)
        then entries[n - 1].size else 0)
  }

  // ---- A sweep and the verification of a run ----

  predicate Complete(order: seq<BlobPath>, files: Files) { forall p :: p in files ==> p in order }

  ghost function AfterSweep(files: Files, order: seq<BlobPath>, c: Cfg): Files {
    var entries := ListAll(files, order);
    Without(files, Gone(files, entries, c, |entries|))
  }

  /** A sweep takes away exactly the blobs that are unmarked, regular, old and removable. */
  lemma SweptExactly(files: Files, order: seq<BlobPath>, c: Cfg, d: Digest)
    requires Complete(order, files) && IsDigest(d)
    ensures Lookup(AfterSweep(files, order, c), d) == if Takes(files, c, d) then None else Lookup(files, d)
  {
    var entries := ListAll(files, order);
    WithoutLookup(files, Gone(files, entries, c, |entries|), d);
    GoneExactly(files, entries, c, |entries|, d);
    if Takes(files, c, d) { PresentIsListed(files, order, d); }
  }

  ghost predicate ObservedIsTaken(env: Env, files: Files, c: Cfg, dir: RunDir)
    requires env.Valid()
  {
    exists d :: IsDigest(d) && Observes(env, files, dir, d) && Takes(files, c, d)
  }

  /** The report of a run changes if and only if the sweep takes a blob its verifier observes. */
  lemma SweepNoticedExactly(env: Env, files: Files, order: seq<BlobPath>, c: Cfg, dir: RunDir)
    requires env.Valid() && Complete(order, files)
    ensures Report(env, AfterSweep(files, order, c), dir) != Report(env, files, dir) <==>
              ObservedIsTaken(env, files, c, dir)
  {
    var files' := AfterSweep(files, order, c);
    if d :| IsDigest(d) && Observes(env, files, dir, d) && Takes(files, c, d) {
      SweptExactly(files, order, c, d);
      LostBlobShows(env, files, files', dir, d);
    } else {
      forall d | Observes(env, files, dir, d) ensures Agree(files, files', d) {
        if IsDigest(d) { SweptExactly(files, order, c, d); }
      }
      ReportDependsOnObserved(env, files, files', dir);
    }
  }

  /** The hash strings a run lets its verifier follow for its trace. */
  function FollowedBy(env: Env, files: Files, dir: RunDir): seq<string> {
    if dir.manifest.None? || env.parseManifest(dir.manifest.value).None? then []
    else
      var m := env.parseManifest(dir.manifest.value).value;
      if m.trace.None? then [] else Followed(env, files, m.trace.value)
  }

  /** They are spelled the way hashes are printed. */
  predicate SpelledCanonically(env: Env, files: Files, dir: RunDir) {
    var f := FollowedBy(env, files, dir);
    forall i :: 0 <= i < |f| && FromHex(f[i]).Some? ==> Canonical(f[i])
  }

  /** One of them is spelled otherwise, and the sweep takes its blob. */
  predicate OtherwiseSpelledAndTaken(env: Env, files: Files, c: Cfg, dir: RunDir) {
    var f := FollowedBy(env, files, dir);
    exists i :: 0 <= i < |f| && FromHex(f[i]).Some? && !Canonical(f[i]) && Takes(files, c, FromHex(f[i]).value)
  }

  /** Whatever a recorded run lets its verifier observe is marked, or is followed under another spelling only. */
  lemma ObservedIsMarked(env: Env, files: Files, runs: seq<RunRecord>, k: nat, d: Digest)
    requires env.Valid() && k < |runs| && Observes(env, files, runs[k].dir, d)
    ensures var f := FollowedBy(env, files, runs[k].dir);
            || ToHex(d) in Referenced(env, files, runs)
            || exists i :: 0 <= i < |f| && FromHex(f[i]) == Some(d) && !Canonical(f[i])
  {
    MarkedByItsRun(env, files, runs, k);
    var m := env.parseManifest(runs[k].dir.manifest.value).value;
    if d in OutputHashes(m.artifacts) {
      var i :| 0 <= i < |m.artifacts| && m.artifacts[i].hash == d;
      assert ToHex(m.artifacts[i].hash) in MarksOf(env, files, runs[k]);
    } else {
      var f := Followed(env, files, m.trace.value);
      var i :| 0 <= i < |f| && FromHex(f[i]) == Some(d);
      assert f == FollowedBy(env, files, runs[k].dir) && f[i] in MarksOf(env, files, runs[k]);
      if Canonical(f[i]) { assert ToHex(d) == f[i]; }
    }
  }

  /**
   * For recorded runs, whatever the store, clock, age and failing removals: the sweep changes the report of a
   * run if and only if the run's trace names a hash in another spelling and the sweep takes that blob.
   */
  lemma RecordedNoticedExactly(env: Env, files: Files, order: seq<BlobPath>, runs: seq<RunRecord>, c: Cfg, k: nat)
    requires env.Valid() && Complete(order, files) && c.marks == Referenced(env, files, runs) && k < |runs|
    ensures Report(env, AfterSweep(files, order, c), runs[k].dir) != Report(env, files, runs[k].dir) <==>
              OtherwiseSpelledAndTaken(env, files, c, runs[k].dir)
  {
    SweepNoticedExactly(env, files, order, c, runs[k].dir);
    if ObservedIsTaken(env, files, c, runs[k].dir) {
      TakenIsOtherwiseSpelled(env, files, runs, c, k);
    }
    if OtherwiseSpelledAndTaken(env, files, c, runs[k].dir) {
      OtherwiseSpelledIsObserved(env, files, c, runs[k].dir);
    }
  }

  lemma TakenIsOtherwiseSpelled(env: Env, files: Files, runs: seq<RunRecord>, c: Cfg, k: nat)
    requires env.Valid() && c.marks == Referenced(env, files, runs) && k < |runs|
    requires ObservedIsTaken(env, files, c, runs[k].dir)
    ensures OtherwiseSpelledAndTaken(env, files, c, runs[k].dir)
  {
    var d :| IsDigest(d) && Observes(env, files, runs[k].dir, d) && Takes(files, c, d);
    ObservedIsMarked(env, files, runs, k, d);
  }

  lemma NamedIsObserved(env: Env, files: Files, dir: RunDir, d: Digest)
    requires env.Valid() && Names(FollowedBy(env, files, dir), d)
    ensures Observes(env, files, dir, d)
  {
  }

  lemma OtherwiseSpelledIsObserved(env: Env, files: Files, c: Cfg, dir: RunDir)
    requires env.Valid() && OtherwiseSpelledAndTaken(env, files, c, dir)
    ensures ObservedIsTaken(env, files, c, dir)
  {
    var f := FollowedBy(env, files, dir);
    var i :| 0 <= i < |f| && FromHex(f[i]).Some? && !Canonical(f[i]) && Takes(files, c, FromHex(f[i]).value);
    var d := FromHex(f[i]).value;
    assert Names(f, d);
    NamedIsObserved(env, files, dir, d);
  }

  /**
   * Sweeping never changes a verification: for every store, clock, age and set of failing removals, each
   * run in the database whose trace hashes are spelled canonically has the same report before and after.
   */
  lemma SweepIsUnnoticed(env: Env, files: Files, order: seq<BlobPath>, runs: seq<RunRecord>, c: Cfg, k: nat)
    requires env.Valid() && Complete(order, files) && c.marks == Referenced(env, files, runs)
    requires k < |runs| && SpelledCanonically(env, files, runs[k].dir)
    ensures Report(env, AfterSweep(files, order, c), runs[k].dir) == Report(env, files, runs[k].dir)
  {
    RecordedNoticedExactly(env, files, order, runs, c, k);
  }

  /** A spelling with capital letters. */
  function Capitals(n: nat): (s: string)
    ensures |s| == 2 * n
  {
    if n == 0 then "" else ['A', 'A'] + Capitals(n - 1)
  }

  lemma {:induction false} CapitalsRead(n: nat)
    ensures ReadPairs(Capitals(n)).Some?
  {
    if n == 0 {
    } else {
      assert Capitals(n)[2..] == Capitals(n - 1);
      CapitalsRead(n - 1);
    }
  }

  /** The reader accepts it and the printer would not print it. */
  lemma CapitalsNotCanonical()
    ensures FromHex(Capitals(32)).Some? && !Canonical(Capitals(32))
  {
    CapitalsRead(32);
    CanonicalIsLowerHex(Capitals(32));
    assert Capitals(32)[0] == 'A';
  }

  function CapitalDigest(): (d: Digest)
    ensures IsDigest(d) && FromHex(Capitals(32)) == Some(d)
  {
    CapitalsNotCanonical();
    FromHex(Capitals(32)).value
  }

  /** A run whose manifest lists nothing but a trace index, named by `index`. */
  function IndexOnly(hash: Bytes -> Digest, index: string): Env {
    Env(hash, _ => Some(Manifest([], Some(TraceInfo("", Some(index))))), _ => None,
        (_, _, _) => (CheckResult(EventChainIntegrity, Skip, NoDetail), CheckResult(EventChainTip, Skip, NoDetail)),
        (_, _) => CheckResult(ManifestSignature, Skip, NoDetail))
  }

  /**
   * The exception is real: one recorded run, its trace index in the store as an old file and named in
   * capital letters by the manifest. The marks are those of that run, and its report changes.
   */
  lemma OtherSpellingIsNoticed(hash: Bytes -> Digest, content: Bytes, minAge: nat)
    ensures var env, d := IndexOnly(hash, Capitals(32)), CapitalDigest();
            var files := map[PathOf(d) := Node(true, Some(content), |content|, Some(0))];
            var run := RunRecord(0, None, RunDir(Some([]), None));
            var c := Cfg(Referenced(env, files, [run]), minAge, minAge, {});
            && env.Valid() && Complete([PathOf(d)], files)
            && Report(env, AfterSweep(files, [PathOf(d)], c), run.dir) != Report(env, files, run.dir)
  {
    CapitalsNotCanonical();
    var index, d := Capitals(32), CapitalDigest();
    var env := IndexOnly(hash, index);
    var files := map[PathOf(d) := Node(true, Some(content), |content|, Some(0))];
    var run := RunRecord(0, None, RunDir(Some([]), None));
    var c := Cfg(Referenced(env, files, [run]), minAge, minAge, {});
    OnlyMark(env, files, run, index);
    assert FollowedBy(env, files, run.dir)[0] == index;
    LoneBlobTaken(d, Node(true, Some(content), |content|, Some(0)), files, c);
    RecordedNoticedExactly(env, files, [PathOf(d)], [run], c, 0);
  }

  lemma LoneBlobTaken(d: Digest, node: Node, files: Files, c: Cfg)
    requires IsDigest(d) && PathOf(d) in files && files[PathOf(d)] == node
    requires ToHex(d) !in c.marks && d !in c.failing
    requires node.regular && node.mtime.Some? && Age(c.now, node.mtime.value) >= c.minAge
    ensures Takes(files, c, d)
  {
  }

  lemma OnlyMark(env: Env, files: Files, run: RunRecord, index: string)
    requires run.manifestHash.None? && FollowedBy(env, files, run.dir) == [index]
    requires env.parseManifest(run.dir.manifest.value).value.artifacts == []
    ensures Referenced(env, files, [run]) == {index}
  {
    assert [run][1..] == [] && [index][1..] == [];
    assert Elements([index]) == {index} + Elements([index][1..]);
  }

  // ---- What a run keeps ----

  /** The trace names this blob in the printed spelling, as its index or as a chunk of its readable index. */
  predicate TraceKeeps(env: Env, files: Files, trace: TraceInfo, d: Digest)
    requires IsDigest(d)
  {
    && trace.indexHash.Some?
    && var h := FromHex(trace.indexHash.value);
       || trace.indexHash.value == ToHex(d)
       || (&& h.Some? && PathOf(h.value) in files && files[PathOf(h.value)].data.Some?
           && var index := env.parseIndex(files[PathOf(h.value)].data.value);
              index.Some? && exists i :: 0 <= i < |index.value.chunks| && index.value.chunks[i].hash == ToHex(d))
  }

  /** A run whose manifest parses keeps the manifest's own blob, its artifacts and what its trace names. */
  predicate Keeps(env: Env, files: Files, r: RunRecord, d: Digest)
    requires IsDigest(d)
  {
    && r.dir.manifest.Some? && env.parseManifest(r.dir.manifest.value).Some?
    && var m := env.parseManifest(r.dir.manifest.value).value;
       || r.manifestHash == Some(ToHex(d))
       || (exists i :: 0 <= i < |m.artifacts| && m.artifacts[i].hash == d)
       || (m.trace.Some? && TraceKeeps(env, files, m.trace.value, d))
  }

  lemma {:induction false} ElementsExactly(names: seq<string>, s: string)
    ensures s in Elements(names) <==> exists i :: 0 <= i < |names| && names[i] == s
  {
    if names == [] {
    } else {
      ElementsExactly(names[1..], s);
      if i :| 0 <= i < |names| && names[i] == s {
        if i > 0 { assert names[1..][i - 1] == s; }
      }
    }
  }

  lemma {:induction false} ArtifactMarksExactly(artifacts: seq<ArtifactRef>, d: Digest)
    requires IsDigest(d) && forall i :: 0 <= i < |artifacts| ==> IsDigest(artifacts[i].hash)
    ensures ToHex(d) in ArtifactMarks(artifacts) <==> exists i :: 0 <= i < |artifacts| && artifacts[i].hash == d
  {
    if artifacts == [] {
    } else {
      ArtifactMarksExactly(artifacts[1..], d);
      if ToHex(artifacts[0].hash) == ToHex(d) { ToHexInjective(artifacts[0].hash, d); }
      if i :| 0 <= i < |artifacts| && artifacts[i].hash == d {
        if i > 0 { assert artifacts[1..][i - 1].hash == d; }
      }
    }
  }

  lemma FollowedExactly(env: Env, files: Files, trace: TraceInfo, d: Digest)
    requires IsDigest(d)
    ensures ToHex(d) in Elements(Followed(env, files, trace)) <==> TraceKeeps(env, files, trace, d)
  {
    var f := Followed(env, files, trace);
    ElementsExactly(f, ToHex(d));
    var index := IndexOf(env, files, trace);
    if index.Some? {
      var chunks := index.value.chunks;
      assert forall i :: 0 <= i < |chunks| ==> f[i + 1] == chunks[i].hash;
      if i :| 0 <= i < |f| && f[i] == ToHex(d) {
        if i > 0 { assert chunks[i - 1].hash == ToHex(d); }
      }
    }
  }

  lemma MarksExactly(env: Env, files: Files, r: RunRecord, d: Digest)
    requires env.Valid() && IsDigest(d)
    ensures ToHex(d) in MarksOf(env, files, r) <==> Keeps(env, files, r, d)
  {
    if r.dir.manifest.Some? && env.parseManifest(r.dir.manifest.value).Some? {
      var m := env.parseManifest(r.dir.manifest.value).value;
      ArtifactMarksExactly(m.artifacts, d);
      if m.trace.Some? { FollowedExactly(env, files, m.trace.value, d); }
    }
  }

  lemma {:induction false} ReferencedExactly(env: Env, files: Files, runs: seq<RunRecord>, d: Digest)
    requires env.Valid() && IsDigest(d)
    ensures ToHex(d) in Referenced(env, files, runs) <==>
              exists k :: 0 <= k < |runs| && Keeps(env, files, runs[k], d)
  {
    if runs == [] {
    } else {
      MarksExactly(env, files, runs[0], d);
      ReferencedExactly(env, files, runs[1..], d);
      if k :| 0 <= k < |runs| && Keeps(env, files, runs[k], d) {
        if k > 0 { assert runs[1..][k - 1] == runs[k]; }
      }
      if k :| 0 <= k < |runs[1..]| && Keeps(env, files, runs[1..][k], d) { assert runs[k + 1] == runs[1..][k]; }
    }
  }

  /** A regular file last changed at least `minAge` before `now`; a file from the future has age zero. */
  predicate OldRegular(files: Files, d: Digest, now: int, minAge: nat)
    requires IsDigest(d)
  {
    && PathOf(d) in files && files[PathOf(d)].regular && files[PathOf(d)].mtime.Some?
    && (minAge == 0 || files[PathOf(d)].mtime.value + minAge <= now)
  }

  /**
   * The store after a cleanup: a blob is gone if and only if no run that is left keeps it, it is a regular file
   * of the required age and the file system lets it go. Everything else is as before.
   */
  ghost predicate CleanedExactly(env: Env, before: Files, after: Files, left: seq<RunRecord>, now: int, minAge: nat,
      failing: set<Digest>) {
    && (forall p :: p in after ==> p in before && after[p] == before[p])
    && (forall p :: p in before && p !in after ==> exists d :: IsDigest(d) && p == PathOf(d))
    && forall d :: IsDigest(d) && PathOf(d) in before ==>
         (PathOf(d) !in after <==>
            && (forall k :: 0 <= k < |left| ==> !Keeps(env, before, left[k], d))
            && OldRegular(before, d, now, minAge) && d !in failing)
  }

  lemma TakesExactly(env: Env, files: Files, left: seq<RunRecord>, c: Cfg, d: Digest)
    requires env.Valid() && IsDigest(d) && c.marks == Referenced(env, files, left)
    ensures Takes(files, c, d) <==>
              && (forall k :: 0 <= k < |left| ==> !Keeps(env, files, left[k], d))
              && OldRegular(files, d, c.now, c.minAge) && d !in c.failing
  {
    ReferencedExactly(env, files, left, d);
  }

  lemma SweepCleans(env: Env, files: Files, order: seq<BlobPath>, left: seq<RunRecord>, c: Cfg)
    requires env.Valid() && Complete(order, files) && c.marks == Referenced(env, files, left)
    ensures CleanedExactly(env, files, AfterSweep(files, order, c), left, c.now, c.minAge, c.failing)
  {
    var after := AfterSweep(files, order, c);
    forall d | IsDigest(d) && PathOf(d) in files
      ensures PathOf(d) !in after <==>
                && (forall k :: 0 <= k < |left| ==> !Keeps(env, files, left[k], d))
                && OldRegular(files, d, c.now, c.minAge) && d !in c.failing
    {
      SweptExactly(files, order, c, d);
      TakesExactly(env, files, left, c, d);
    }
  }

  /** In particular nothing a run names is lost, and nothing young is. */
  lemma NamedBlobsStay(env: Env, before: Files, after: Files, left: seq<RunRecord>, now: int, minAge: nat,
      failing: set<Digest>, k: nat, d: Digest)
    requires CleanedExactly(env, before, after, left, now, minAge, failing) && IsDigest(d)
    requires (k < |left| && Keeps(env, before, left[k], d)) || !OldRegular(before, d, now, minAge)
    ensures Lookup(after, d) == Lookup(before, d)
  {
  }

  // ---- Dry run against real sweep ----

  /** No removable blob is listed twice. */
  predicate ListedOnce(files: Files, entries: seq<Listed>, c: Cfg, n: nat)
    requires n <= |entries| && AllDigests(entries)
  {
    forall i, j :: 0 <= i < j < n && entries[i].digest == entries[j].digest ==> !Removable(files, c, entries[i].digest)
  }

  /** Every file whose name reads as a removable hash is that blob itself. */
  predicate OneNameEach(files: Files, c: Cfg) {
    forall p :: p in files && Walked(files, p) && Removable(files, c, FromHex(p.name).value) ==>
        p == PathOf(FromHex(p.name).value)
  }

  predicate NoDuplicates(order: seq<BlobPath>) { forall i, j :: 0 <= i < j < |order| ==> order[i] != order[j] }

  lemma {:induction false} WalkedOnce(files: Files, order: seq<BlobPath>)
    requires NoDuplicates(order)
    ensures NoDuplicates(WalkedPaths(files, order))
  {
    if order == [] {
    } else {
      WalkedOnce(files, order[1..]);
      assert order[0] !in order[1..];
      assert order[0] !in WalkedPaths(files, order[1..]);
    }
  }

  /** When a complete walk without repetitions lists a removable blob twice. */
  lemma ListedOnceExactly(files: Files, order: seq<BlobPath>, c: Cfg)
    requires Complete(order, files) && NoDuplicates(order)
    ensures ListedOnce(files, ListAll(files, order), c, |ListAll(files, order)|) <==> OneNameEach(files, c)
  {
    if ListedOnce(files, ListAll(files, order), c, |ListAll(files, order)|) {
      forall p | p in files && Walked(files, p) && Removable(files, c, FromHex(p.name).value)
        ensures p == PathOf(FromHex(p.name).value)
      {
        SecondNameIsListed(files, order, c, p);
      }
    }
    if OneNameEach(files, c) {
      OneNameIsListedOnce(files, order, c);
    }
  }

  lemma SecondNameIsListed(files: Files, order: seq<BlobPath>, c: Cfg, p: BlobPath)
    requires Complete(order, files) && Walked(files, p) && Removable(files, c, FromHex(p.name).value)
    requires ListedOnce(files, ListAll(files, order), c, |ListAll(files, order)|)
    ensures p == PathOf(FromHex(p.name).value)
  {
    var d, paths, entries := FromHex(p.name).value, WalkedPaths(files, order), ListAll(files, order);
    PathsAreDistinct(d, d);
    assert p in paths && PathOf(d) in paths;
    var i :| 0 <= i < |paths| && paths[i] == p;
    var j :| 0 <= j < |paths| && paths[j] == PathOf(d);
    assert entries[i].digest == d && entries[j].digest == d;
  }

  lemma OneNameIsListedOnce(files: Files, order: seq<BlobPath>, c: Cfg)
    requires NoDuplicates(order) && OneNameEach(files, c)
    ensures ListedOnce(files, ListAll(files, order), c, |ListAll(files, order)|)
  {
    var paths, entries := WalkedPaths(files, order), ListAll(files, order);
    WalkedOnce(files, order);
    forall i, j | 0 <= i < j < |entries| && entries[i].digest == entries[j].digest
      ensures !Removable(files, c, entries[i].digest)
    {
      assert Walked(files, paths[i]) && Walked(files, paths[j]) && paths[i] != paths[j];
    }
  }

  lemma {:induction false} RemovedIsGone(files: Files, entries: seq<Listed>, c: Cfg, n: nat)
    requires n <= |entries| && AllDigests(entries)
    ensures Removed(files, entries, c, n) == |Gone(files, entries, c, n)|
  {
    if n == 0 {
    } else {
      RemovedIsGone(files, entries, c, n - 1);
      OneMoreGone(files, entries, c, n - 1);
    }
  }

  /** No removable entry names a blob that an earlier entry already took, entry by entry. */
  predicate NoneAgain(files: Files, entries: seq<Listed>, c: Cfg, n: nat)
    requires n <= |entries| && AllDigests(entries)
  {
    n == 0 ||
    (NoneAgain(files, entries, c, n - 1) &&
     !(Removable(files, c, entries[n - 1].digest) && entries[n - 1].digest in Gone(files, entries, c, n - 1)))
  }

  lemma {:induction false} NoneAgainIsOnce(files: Files, entries: seq<Listed>, c: Cfg, n: nat)
    requires n <= |entries| && AllDigests(entries) && c.failing == {}
    ensures NoneAgain(files, entries, c, n) <==> ListedOnce(files, entries, c, n)
  {
    if n == 0 {
    } else {
      NoneAgainIsOnce(files, entries, c, n - 1);
      OnceStep(files, entries, c, n - 1);
    }
  }

  lemma {:induction false} CountsAgree(files: Files, entries: seq<Listed>, c: Cfg, n: nat)
    requires n <= |entries| && AllDigests(entries) && c.failing == {}
    ensures Removed(files, entries, c, n) <= Announced(files, entries, c, n)
    ensures Removed(files, entries, c, n) == Announced(files, entries, c, n) <==> NoneAgain(files, entries, c, n)
  {
    if n == 0 {
    } else {
      CountsAgree(files, entries, c, n - 1);
    }
  }

  lemma {:induction false} BytesAgree(files: Files, entries: seq<Listed>, c: Cfg, n: nat)
    requires n <= |entries| && AllDigests(entries) && c.failing == {}
    ensures FreedBytes(files, entries, c, n) <= AnnouncedBytes(files, entries, c, n)
    ensures NoneAgain(files, entries, c, n) ==> FreedBytes(files, entries, c, n) == AnnouncedBytes(files, entries, c, n)
  {
    if n == 0 {
    } else {
      BytesAgree(files, entries, c, n - 1);
    }
  }

  /**
   * Without removal failures a dry run never announces fewer blobs or bytes than the real sweep removes, and
   * it announces the same number of blobs exactly when no second file's name reads as a removable hash.
   */
  lemma DryRunPredicts(files: Files, order: seq<BlobPath>, c: Cfg)
    requires Complete(order, files) && NoDuplicates(order) && c.failing == {}
    ensures var entries := ListAll(files, order);
            var n := |entries|;
            && |Gone(files, entries, c, n)| <= Announced(files, entries, c, n)
            && FreedBytes(files, entries, c, n) <= AnnouncedBytes(files, entries, c, n)
            && (|Gone(files, entries, c, n)| == Announced(files, entries, c, n) <==> OneNameEach(files, c))
            && (OneNameEach(files, c) ==>
                  FreedBytes(files, entries, c, n) == AnnouncedBytes(files, entries, c, n))
  {
    var entries := ListAll(files, order);
    RemovedIsGone(files, entries, c, |entries|);
    CountsAgree(files, entries, c, |entries|);
    BytesAgree(files, entries, c, |entries|);
    NoneAgainIsOnce(files, entries, c, |entries|);
    ListedOnceExactly(files, order, c);
  }

  lemma TwoPaths(p: BlobPath, q: BlobPath, node: Node)
    requires p != q
    ensures Complete([p, q], map[p := node, q := node]) && NoDuplicates([p, q])
  {
  }

  /** A blob and a second file whose name reads as its hash are announced twice and removed once. */
  lemma TwoNamesMislead(d: Digest, q: BlobPath, node: Node, c: Cfg)
    requires IsDigest(d) && HexPrefix(q.l1) && HexPrefix(q.l2) && FromHex(q.name) == Some(d) && q != PathOf(d)
    requires ToHex(d) !in c.marks && d !in c.failing
    requires node.regular && node.mtime.Some? && Age(c.now, node.mtime.value) >= c.minAge
    ensures var files, order := map[PathOf(d) := node, q := node], [PathOf(d), q];
            var entries := ListAll(files, order);
            && Complete(order, files) && NoDuplicates(order) && |entries| == 2
            && Announced(files, entries, c, 2) == 2 && |Gone(files, entries, c, 2)| == 1
  {
    var files := map[PathOf(d) := node, q := node];
    var e := Listed(d, node.size);
    TwoPaths(PathOf(d), q, node);
    PathsAreDistinct(d, d);
    ListTwo(files, PathOf(d), q, e);
    LoneBlobTaken(d, node, files, c);
    TwoEntries(files, e, c);
  }

  /** The exception is real: such a second name is the hash in capital letters. */
  lemma SecondNameExists()
    ensures var d := CapitalDigest();
            var q := BlobPath(PathOf(d).l1, PathOf(d).l2, Capitals(32));
            HexPrefix(q.l1) && HexPrefix(q.l2) && FromHex(q.name) == Some(d) && q != PathOf(d)
  {
    var d := CapitalDigest();
    PathsAreDistinct(d, d);
    CapitalsNotCanonical();
  }

  lemma ListTwo(files: Files, p: BlobPath, q: BlobPath, e: Listed)
    requires Walked(files, p) && FromHex(p.name) == Some(e.digest) && files[p].size == e.size
    requires Walked(files, q) && FromHex(q.name) == Some(e.digest) && files[q].size == e.size
    ensures ListAll(files, [p, q]) == [e, e]
  {
    assert [p, q][1..] == [q] && [q][1..] == [];
    assert WalkedPaths(files, [q]) == [q] + WalkedPaths(files, []);
    assert WalkedPaths(files, [p, q]) == [p, q];
  }

  lemma TwoEntries(files: Files, e: Listed, c: Cfg)
    requires IsDigest(e.digest) && Takes(files, c, e.digest)
    ensures Announced(files, [e, e], c, 2) == 2 && |Gone(files, [e, e], c, 2)| == 1
  {
    var entries := [e, e];
    assert Announced(files, entries, c, 1) == 1;
    assert Gone(files, entries, c, 0) == {};
    assert Gone(files, entries, c, 1) == {e.digest};
    assert Gone(files, entries, c, 2) == {e.digest};
  }

  lemma OnceStep(files: Files, entries: seq<Listed>, c: Cfg, i: nat)
    requires AllDigests(entries) && i < |entries| && c.failing == {}
    ensures ListedOnce(files, entries, c, i + 1) <==>
              ListedOnce(files, entries, c, i) && !(Removable(files, c, entries[i].digest) &&
                  entries[i].digest in Gone(files, entries, c, i))
  {
    var d := entries[i].digest;
    GoneExactly(files, entries, c, i, d);
    if Removable(files, c, d) && d in Gone(files, entries, c, i) {
      var k :| 0 <= k < i && entries[k].digest == d;
      assert !ListedOnce(files, entries, c, i + 1);
    } else if Removable(files, c, d) {
      assert forall k :: 0 <= k < i ==> entries[k].digest != d;
    }
  }

  // ---- What the freed bytes are ----

  /** What the removed files along the walk held. */
  function LostAlong(before: Files, after: Files, order: seq<BlobPath>): nat {
    if order == [] then 0
    else
      (if order[0] in before && order[0] !in after then before[order[0]].size else 0) +
      LostAlong(before, after, order[1..])
  }

  function TakenSize(files: Files, c: Cfg, e: Listed): nat
    requires IsDigest(e.digest)
  {
    if Takes(files, c, e.digest) then e.size else 0
  }

  function TakenSizes(files: Files, entries: seq<Listed>, c: Cfg): nat
    requires AllDigests(entries)
  {
    if entries == [] then 0 else TakenSize(files, c, entries[0]) + TakenSizes(files, entries[1..], c)
  }

  lemma {:induction false} TakenSizesAppend(files: Files, entries: seq<Listed>, e: Listed, c: Cfg)
    requires AllDigests(entries) && IsDigest(e.digest)
    ensures AllDigests(entries + [e])
    ensures TakenSizes(files, entries + [e], c) == TakenSizes(files, entries, c) + TakenSize(files, c, e)
  {
    if entries == [] {
      assert entries + [e] == [e] && [e][1..] == [];
    } else {
      assert (entries + [e])[0] == entries[0] && (entries + [e])[1..] == entries[1..] + [e];
      TakenSizesAppend(files, entries[1..], e, c);
    }
  }

  /** Without repetitions, what is freed is what the taken entries list. */
  lemma {:induction false} FreedIsTaken(files: Files, entries: seq<Listed>, c: Cfg, n: nat)
    requires n <= |entries| && AllDigests(entries) && ListedOnce(files, entries, c, |entries|)
    ensures FreedBytes(files, entries, c, n) == TakenSizes(files, entries[..n], c)
  {
    if n == 0 {
    } else {
      FreedIsTaken(files, entries, c, n - 1);
      TakenSizesAppend(files, entries[..n - 1], entries[n - 1], c);
      assert entries[..n - 1] + [entries[n - 1]] == entries[..n];
      GoneExactly(files, entries, c, n - 1, entries[n - 1].digest);
    }
  }

  /** Each file on the walk is lost exactly when its entry is taken. */
  predicate LostWhenTaken(files: Files, after: Files, c: Cfg, p: BlobPath) {
    p in files && p !in after <==> Walked(files, p) && Takes(files, c, FromHex(p.name).value)
  }

  /** The listed sizes of the taken files, file by file. */
  function TakenAlong(files: Files, paths: seq<BlobPath>, c: Cfg): nat
    requires forall i :: 0 <= i < |paths| ==> Walked(files, paths[i])
  {
    if paths == [] then 0 else TakenSize(files, c, Entry(files, paths[0])) + TakenAlong(files, paths[1..], c)
  }

  lemma {:induction false} SizesAlong(files: Files, paths: seq<BlobPath>, entries: seq<Listed>, c: Cfg)
    requires |paths| == |entries| && AllDigests(entries)
    requires forall i :: 0 <= i < |paths| ==> Walked(files, paths[i]) && entries[i] == Entry(files, paths[i])
    ensures TakenSizes(files, entries, c) == TakenAlong(files, paths, c)
  {
    if paths == [] {
    } else {
      SizesAlong(files, paths[1..], entries[1..], c);
    }
  }

  lemma LostFirst(files: Files, after: Files, order: seq<BlobPath>, c: Cfg)
    requires order != [] && LostWhenTaken(files, after, c, order[0])
    ensures TakenAlong(files, WalkedPaths(files, order), c) - TakenAlong(files, WalkedPaths(files, order[1..]), c) ==
              if order[0] in files && order[0] !in after then files[order[0]].size else 0
  {
    var rest := WalkedPaths(files, order[1..]);
    if Walked(files, order[0]) {
      assert WalkedPaths(files, order) == [order[0]] + rest;
      assert ([order[0]] + rest)[1..] == rest;
    } else {
      assert WalkedPaths(files, order) == rest;
    }
  }

  lemma {:induction false} TakenIsLost(files: Files, after: Files, order: seq<BlobPath>, c: Cfg)
    requires forall i :: 0 <= i < |order| ==> LostWhenTaken(files, after, c, order[i])
    ensures TakenAlong(files, WalkedPaths(files, order), c) == LostAlong(files, after, order)
  {
    if order == [] {
    } else {
      LostFirst(files, after, order, c);
      TakenIsLost(files, after, order[1..], c);
    }
  }

  lemma LostExactly(files: Files, order: seq<BlobPath>, c: Cfg, p: BlobPath)
    requires Complete(order, files) && OneNameEach(files, c)
    ensures LostWhenTaken(files, AfterSweep(files, order, c), c, p)
  {
    var after := AfterSweep(files, order, c);
    if p in files && p !in after {
      var entries := ListAll(files, order);
      var d :| d in Gone(files, entries, c, |entries|) && PathOf(d) == p;
      PathsAreDistinct(d, d);
    }
    if Walked(files, p) && Takes(files, c, FromHex(p.name).value) {
      SweptExactly(files, order, c, FromHex(p.name).value);
    }
  }

  /** If no second file's name reads as a removable hash, the bytes freed are what the files now gone held. */
  lemma FreedIsLost(files: Files, order: seq<BlobPath>, c: Cfg)
    requires Complete(order, files) && NoDuplicates(order) && OneNameEach(files, c)
    ensures var entries := ListAll(files, order);
            FreedBytes(files, entries, c, |entries|) == LostAlong(files, AfterSweep(files, order, c), order)
  {
    var entries, after := ListAll(files, order), AfterSweep(files, order, c);
    ListedOnceExactly(files, order, c);
    FreedIsTaken(files, entries, c, |entries|);
    assert entries[..|entries|] == entries;
    SizesAlong(files, WalkedPaths(files, order), entries, c);
    forall i | 0 <= i < |order| ensures LostWhenTaken(files, after, c, order[i]) {
      LostExactly(files, order, c, order[i]);
    }
    TakenIsLost(files, after, order, c);
  }

  // ---- Pruning first ----

  function Kept(runs: seq<RunRecord>, cutoff: int): seq<RunRecord> {
    if runs == [] then []
    else (if runs[0].created < cutoff then [] else [runs[0]]) + Kept(runs[1..], cutoff)
  }

  function KeptFlags(runs: seq<RunRecord>, cutoff: int): (flags: seq<bool>)
    ensures |flags| == |runs| && forall i :: 0 <= i < |runs| ==> flags[i] == (runs[i].created >= cutoff)
  {
    seq(|runs|, i requires 0 <= i < |runs| => runs[i].created >= cutoff)
  }

  lemma {:induction false} KeptIsPicked(runs: seq<RunRecord>, cutoff: int)
    ensures Kept(runs, cutoff) == Picked(KeptFlags(runs, cutoff), runs)
  {
    if runs == [] {
    } else {
      KeptIsPicked(runs[1..], cutoff);
      assert KeptFlags(runs, cutoff)[1..] == KeptFlags(runs[1..], cutoff);
    }
  }

  /** Exactly the runs created at the cutoff or later stay, in order. */
  lemma KeptExactly(runs: seq<RunRecord>, cutoff: int) returns (at: seq<nat>)
    ensures Ascending(at, |runs|) && forall i :: 0 <= i < |runs| ==> (i in at <==> runs[i].created >= cutoff)
    ensures Selects(Kept(runs, cutoff), runs, at)
  {
    KeptIsPicked(runs, cutoff);
    at := PickedExactly(KeptFlags(runs, cutoff), runs);
  }

  lemma {:induction false} PruningUnmarks(env: Env, files: Files, runs: seq<RunRecord>, cutoff: int)
    ensures Referenced(env, files, Kept(runs, cutoff)) <= Referenced(env, files, runs)
  {
    if runs == [] {
    } else {
      PruningUnmarks(env, files, runs[1..], cutoff);
      if runs[0].created >= cutoff {
        assert Kept(runs, cutoff)[1..] == Kept(runs[1..], cutoff);
      } else {
        assert Kept(runs, cutoff) == Kept(runs[1..], cutoff);
      }
    }
  }

  /** The database refuses to delete this run, which ends the pruning. */
  predicate Refused(runs: seq<RunRecord>, cutoff: int, failing: set<nat>, i: nat)
    requires i < |runs|
  {
    runs[i].created < cutoff && i in failing
  }

  predicate StoppedAt(runs: seq<RunRecord>, cutoff: int, failing: set<nat>, i: nat, left: seq<RunRecord>)
    requires i < |runs|
  {
    Refused(runs, cutoff, failing, i) && left == Kept(runs[..i], cutoff) + runs[i..]
  }

  /**
   * Drops the runs from before the cutoff; a dry run counts the same and drops none. The first deletion
   * that fails ends it with the later runs still there.
   */
  method PruneRuns(runs: seq<RunRecord>, cutoff: int, dryRun: bool, failing: set<nat>)
    returns (ok: bool, left: seq<RunRecord>, deleted: nat, retained: nat)
    ensures ok <==> dryRun || forall i :: 0 <= i < |runs| ==> !Refused(runs, cutoff, failing, i)
    ensures ok ==> left == if dryRun then runs else Kept(runs, cutoff)
    ensures ok ==> retained == |Kept(runs, cutoff)| && deleted + retained == |runs|
    ensures !ok ==> exists i :: 0 <= i < |runs| && StoppedAt(runs, cutoff, failing, i, left)
  {
    left, deleted, retained := [], 0, 0;
    for i := 0 to |runs|
      invariant deleted + retained == i && retained == |Kept(runs[..i], cutoff)|
      invariant left == if dryRun then runs[..i] else Kept(runs[..i], cutoff)
      invariant !dryRun ==> forall k :: 0 <= k < i ==> !Refused(runs, cutoff, failing, k)
    {
      KeptOneMore(runs, cutoff, i);
      assert runs[..i + 1] == runs[..i] + [runs[i]];
      if runs[i].created < cutoff {
        if dryRun {
          left := left + [runs[i]];
        } else if i in failing {
          left := left + runs[i..];
          assert StoppedAt(runs, cutoff, failing, i, left);
          return false, left, deleted, retained;
        }
        deleted := deleted + 1;
      } else {
        retained := retained + 1;
        left := left + [runs[i]];
      }
    }
    assert runs[..|runs|] == runs;
    ok := true;
  }

  lemma KeptOneMore(runs: seq<RunRecord>, cutoff: int, i: nat)
    requires i < |runs|
    ensures Kept(runs[..i + 1], cutoff) == Kept(runs[..i], cutoff) + if runs[i].created < cutoff then [] else [runs[i]]
  {
    assert runs[..i + 1] == runs[..i] + [runs[i]];
    KeptAppend(runs[..i], runs[i], cutoff);
  }

  lemma {:induction false} KeptAppend(runs: seq<RunRecord>, r: RunRecord, cutoff: int)
    ensures Kept(runs + [r], cutoff) == Kept(runs, cutoff) + if r.created < cutoff then [] else [r]
  {
    if runs == [] {
      assert runs + [r] == [r] && [r][1..] == [];
    } else {
      var first := if runs[0].created < cutoff then [] else [runs[0]];
      assert (runs + [r])[0] == runs[0] && (runs + [r])[1..] == runs[1..] + [r];
      KeptAppend(runs[1..], r, cutoff);
      Associative(first, Kept(runs[1..], cutoff), if r.created < cutoff then [] else [r]);
    }
  }

  /** With pruning, everything a dry run announces is removable in the real run too. */
  lemma DryRunWithPruningIsSafe(env: Env, files: Files, runs: seq<RunRecord>, cutoff: int, now: int, minAge: nat,
      d: Digest)
    requires IsDigest(d)
    requires Removable(files, Cfg(Referenced(env, files, runs), now, minAge, {}), d)
    ensures Takes(files, Cfg(Referenced(env, files, Kept(runs, cutoff)), now, minAge, {}), d)
  {
    PruningUnmarks(env, files, runs, cutoff);
  }

  /** Pruning, if asked for, runs to its end. */
  predicate Prunable(runs: seq<RunRecord>, cutoff: Option<int>, dryRun: bool, undeletable: set<nat>) {
    cutoff.None? || dryRun || forall i :: 0 <= i < |runs| ==> !Refused(runs, cutoff.value, undeletable, i)
  }

  /**
   * The whole cleanup: prune, mark, list, sweep. A failed deletion or a listing that fails anywhere ends it
   * before anything is swept. Of the runs that stay, a report changes exactly when its trace names a swept
   * blob in another spelling.
   */
  method Clean(env: Env, cas: CasStore, runs: seq<RunRecord>, cutoff: Option<int>, undeletable: set<nat>,
      order: seq<BlobPath>, listingFails: bool, now: int, minAge: nat, failing: set<Digest>, dryRun: bool)
    returns (left: seq<RunRecord>, r: Option<SweepResult>)
    requires env.Valid() && Complete(order, cas.files)
    modifies cas`files
    ensures r.Some? <==> !listingFails && Prunable(runs, cutoff, dryRun, undeletable)
    ensures Prunable(runs, cutoff, dryRun, undeletable) ==>
              left == if cutoff.None? || dryRun then runs else Kept(runs, cutoff.value)
    ensures r.Some? ==> r.value.scanned == r.value.removed + r.value.retained
    ensures dryRun || r.None? ==> cas.files == old(cas.files)
    ensures !dryRun && r.Some? ==>
              var c := Cfg(Referenced(env, old(cas.files), left), now, minAge, failing);
              && cas.files == AfterSweep(old(cas.files), order, c)
              && CleanedExactly(env, old(cas.files), cas.files, left, now, minAge, failing)
              && forall k :: 0 <= k < |left| ==>
                   (Report(env, cas.files, left[k].dir) != Report(env, old(cas.files), left[k].dir) <==>
                      OtherwiseSpelledAndTaken(env, old(cas.files), c, left[k].dir))
  {
    left := runs;
    if cutoff.Some? {
      var ok, deleted, retained;
      ok, left, deleted, retained := PruneRuns(runs, cutoff.value, dryRun, undeletable);
      if !ok { return left, None; }
    }
    var marks := Mark(env, cas.files, left);
    if listingFails { return left, None; }
    var entries := ListAll(cas.files, order);
    var c := Cfg(marks, now, minAge, failing);
    var result;
    if dryRun {
      result := DryRun(cas.files, entries, c);
    } else {
      result := SweepBlobs(cas, entries, c);
      SweepCleans(env, old(cas.files), order, left, c);
      forall k | 0 <= k < |left|
        ensures Report(env, cas.files, left[k].dir) != Report(env, old(cas.files), left[k].dir) <==>
                  OtherwiseSpelledAndTaken(env, old(cas.files), c, left[k].dir)
      {
        RecordedNoticedExactly(env, old(cas.files), order, left, c, k);
      }
    }
    r := Some(result);
  }
}
