// What a verification report says about the store: when each check passes, which blobs a failing check names,
// and what a report without a failure is worth. Everything is stated over the manifest and the files.
module ReportMeaning {
  import opened Common
  import opened Hex
  import opened BlobStore
  import opened RunVerify

  // ---- The blobs ----

  predicate Present(files: Files, d: Digest)
    requires IsDigest(d)
  {
    PathOf(d) in files
  }

  predicate Readable(files: Files, d: Digest)
    requires IsDigest(d)
  {
    PathOf(d) in files && files[PathOf(d)].data.Some?
  }

  /** The blob is there and its content hashes to its name. */
  predicate Good(hash: Bytes -> Digest, files: Files, d: Digest)
    requires IsDigest(d)
  {
    Readable(files, d) && hash(files[PathOf(d)].data.value) == d
  }

  /** What is said about a blob that is there and not good. */
  function Finding(hash: Bytes -> Digest, files: Files, d: Digest): VerifyResult
    requires IsDigest(d) && Present(files, d)
  {
    if Readable(files, d) then Corrupted(d, hash(files[PathOf(d)].data.value)) else ReadError
  }

  predicate ChunkPresent(files: Files, c: ChunkRef) { FromHex(c.hash).Some? && Present(files, FromHex(c.hash).value) }

  /** The chunk can be read and its content does not hash to its name. */
  predicate ChunkWrong(hash: Bytes -> Digest, files: Files, c: ChunkRef) {
    FromHex(c.hash).Some? && Readable(files, FromHex(c.hash).value) && !Good(hash, files, FromHex(c.hash).value)
  }

  // ---- The lists in the report ----

  function AbsentFlags(files: Files, ds: seq<Digest>): (flags: seq<bool>)
    requires Digests(ds)
    ensures |flags| == |ds| && forall i :: 0 <= i < |ds| ==> flags[i] == !Present(files, ds[i])
  {
    seq(|ds|, i requires 0 <= i < |ds| => !Present(files, ds[i]))
  }

  lemma {:induction false} MissingIsPicked(files: Files, ds: seq<Digest>)
    requires Digests(ds)
    ensures MissingOf(files, ds) == Picked(AbsentFlags(files, ds), ds)
  {
    if ds == [] {
    } else {
      MissingIsPicked(files, ds[1..]);
      assert AbsentFlags(files, ds)[1..] == AbsentFlags(files, ds[1..]);
    }
  }

  /** The outputs reported missing are the absent ones, in order. */
  lemma MissingExactly(files: Files, ds: seq<Digest>) returns (at: seq<nat>)
    requires Digests(ds)
    ensures Ascending(at, |ds|) && forall i :: 0 <= i < |ds| ==> (i in at <==> !Present(files, ds[i]))
    ensures |MissingOf(files, ds)| == |at| && forall k :: 0 <= k < |at| ==> MissingOf(files, ds)[k] == ds[at[k]]
  {
    MissingIsPicked(files, ds);
    at := PickedExactly(AbsentFlags(files, ds), ds);
  }

  predicate Offends(hash: Bytes -> Digest, files: Files, d: Digest)
    requires IsDigest(d)
  {
    Present(files, d) && !Good(hash, files, d)
  }

  function BadFlags(hash: Bytes -> Digest, files: Files, ds: seq<Digest>): (flags: seq<bool>)
    requires Digests(ds)
    ensures |flags| == |ds| && forall i :: 0 <= i < |ds| ==> flags[i] == Offends(hash, files, ds[i])
  {
    seq(|ds|, i requires 0 <= i < |ds| => Offends(hash, files, ds[i]))
  }

  function FindingsAt(hash: Bytes -> Digest, files: Files, ds: seq<Digest>): (found: seq<VerifyResult>)
    requires Digests(ds)
    ensures |found| == |ds|
    ensures forall i :: 0 <= i < |ds| && Present(files, ds[i]) ==> found[i] == Finding(hash, files, ds[i])
  {
    seq(|ds|, i requires 0 <= i < |ds| => if Present(files, ds[i]) then Finding(hash, files, ds[i]) else Missing)
  }

  lemma {:induction false} BadIsPicked(hash: Bytes -> Digest, files: Files, ds: seq<Digest>)
    requires Digests(ds)
    ensures BadOf(hash, files, ds) == Picked(BadFlags(hash, files, ds), FindingsAt(hash, files, ds))
  {
    if ds == [] {
    } else {
      BadIsPicked(hash, files, ds[1..]);
      assert BadFlags(hash, files, ds)[1..] == BadFlags(hash, files, ds[1..]);
      assert FindingsAt(hash, files, ds)[1..] == FindingsAt(hash, files, ds[1..]);
    }
  }

  /** The findings are about the outputs that are there and not good, in order, and say what is wrong. */
  lemma FindingsExactly(hash: Bytes -> Digest, files: Files, ds: seq<Digest>) returns (at: seq<nat>)
    requires Digests(ds)
    ensures Ascending(at, |ds|) && forall i :: 0 <= i < |ds| ==> (i in at <==> Offends(hash, files, ds[i]))
    ensures var bad := BadOf(hash, files, ds);
            && |bad| == |at|
            && forall k :: 0 <= k < |at| ==> Present(files, ds[at[k]]) && bad[k] == Finding(hash, files, ds[at[k]])
  {
    BadIsPicked(hash, files, ds);
    at := PickedExactly(BadFlags(hash, files, ds), FindingsAt(hash, files, ds));
    forall k | 0 <= k < |at| ensures Present(files, ds[at[k]]) { assert at[k] in at; }
  }

  function Indices(chunks: seq<ChunkRef>): (numbers: seq<nat>)
    ensures |numbers| == |chunks| && forall i :: 0 <= i < |chunks| ==> numbers[i] == chunks[i].index
  {
    seq(|chunks|, i requires 0 <= i < |chunks| => chunks[i].index)
  }

  function ChunkAbsent(files: Files, chunks: seq<ChunkRef>): (flags: seq<bool>)
    ensures |flags| == |chunks| && forall i :: 0 <= i < |chunks| ==> flags[i] == !ChunkPresent(files, chunks[i])
  {
    seq(|chunks|, i requires 0 <= i < |chunks| => !ChunkPresent(files, chunks[i]))
  }

  function ChunkFlags(hash: Bytes -> Digest, files: Files, chunks: seq<ChunkRef>): (flags: seq<bool>)
    ensures |flags| == |chunks| && forall i :: 0 <= i < |chunks| ==> flags[i] == ChunkWrong(hash, files, chunks[i])
  {
    seq(|chunks|, i requires 0 <= i < |chunks| => ChunkWrong(hash, files, chunks[i]))
  }

  lemma {:induction false} ChunksArePicked(hash: Bytes -> Digest, files: Files, chunks: seq<ChunkRef>)
    ensures MissingChunks(files, chunks) == Picked(ChunkAbsent(files, chunks), Indices(chunks))
    ensures CorruptedChunks(hash, files, chunks) == Picked(ChunkFlags(hash, files, chunks), Indices(chunks))
  {
    if chunks == [] {
    } else {
      ChunksArePicked(hash, files, chunks[1..]);
      assert Indices(chunks)[1..] == Indices(chunks[1..]);
      assert ChunkAbsent(files, chunks)[1..] == ChunkAbsent(files, chunks[1..]);
      assert ChunkFlags(hash, files, chunks)[1..] == ChunkFlags(hash, files, chunks[1..]);
    }
  }

  /** The chunks reported missing are those whose hash cannot be read or whose blob is absent. */
  lemma MissingChunksExactly(files: Files, chunks: seq<ChunkRef>) returns (at: seq<nat>)
    ensures Ascending(at, |chunks|) && forall i :: 0 <= i < |chunks| ==> (i in at <==> !ChunkPresent(files, chunks[i]))
    ensures var missing := MissingChunks(files, chunks);
            |missing| == |at| && forall k :: 0 <= k < |at| ==> missing[k] == chunks[at[k]].index
  {
    ChunksArePicked((x: Bytes) => [], files, chunks);
    at := PickedExactly(ChunkAbsent(files, chunks), Indices(chunks));
  }

  /** The chunks reported corrupted are those that can be read and do not hash to their name. */
  lemma CorruptedChunksExactly(hash: Bytes -> Digest, files: Files, chunks: seq<ChunkRef>) returns (at: seq<nat>)
    ensures Ascending(at, |chunks|)
    ensures forall i :: 0 <= i < |chunks| ==> (i in at <==> ChunkWrong(hash, files, chunks[i]))
    ensures var corrupted := CorruptedChunks(hash, files, chunks);
            |corrupted| == |at| && forall k :: 0 <= k < |at| ==> corrupted[k] == chunks[at[k]].index
  {
    ChunksArePicked(hash, files, chunks);
    at := PickedExactly(ChunkFlags(hash, files, chunks), Indices(chunks));
  }

  // ---- When the checks pass ----

  /** Both checks on the outputs pass or fail; they pass exactly when nothing is absent and nothing present is bad. */
  lemma OutputChecksExactly(hash: Bytes -> Digest, files: Files, ds: seq<Digest>)
    requires Digests(ds)
    ensures ExistenceCheck(files, ds).status ==
              if forall i :: 0 <= i < |ds| ==> Present(files, ds[i]) then Pass else Fail
    ensures HashesCheck(hash, files, ds).status ==
              if forall i :: 0 <= i < |ds| && Present(files, ds[i]) ==> Good(hash, files, ds[i]) then Pass else Fail
    ensures ExistenceCheck(files, ds).status == Fail ==> ExistenceCheck(files, ds).detail == Blobs(MissingOf(files, ds))
    ensures HashesCheck(hash, files, ds).status == Fail ==>
              HashesCheck(hash, files, ds).detail == Findings(BadOf(hash, files, ds))
  {
    var absent := MissingExactly(files, ds);
    var bad := FindingsExactly(hash, files, ds);
    if absent != [] { assert absent[0] in absent; }
    if bad != [] { assert bad[0] in bad; }
  }

  lemma ChunkChecksExactly(hash: Bytes -> Digest, files: Files, chunks: seq<ChunkRef>)
    ensures MissingChunks(files, chunks) == [] <==> forall i :: 0 <= i < |chunks| ==> ChunkPresent(files, chunks[i])
    ensures CorruptedChunks(hash, files, chunks) == [] <==>
              forall i :: 0 <= i < |chunks| ==> !ChunkWrong(hash, files, chunks[i])
  {
    var absent := MissingChunksExactly(files, chunks);
    var wrong := CorruptedChunksExactly(hash, files, chunks);
    if absent != [] { assert absent[0] in absent; }
    if wrong != [] { assert wrong[0] in wrong; }
  }

  /** Every artifact of the manifest that is no trace chunk is there and good. */
  predicate OutputsGood(hash: Bytes -> Digest, files: Files, artifacts: seq<ArtifactRef>)
    requires forall i :: 0 <= i < |artifacts| ==> IsDigest(artifacts[i].hash)
  {
    forall i :: 0 <= i < |artifacts| && !artifacts[i].isTrace ==> Good(hash, files, artifacts[i].hash)
  }

  lemma {:induction false} OutputHashesExactly(artifacts: seq<ArtifactRef>, d: Digest)
    ensures d in OutputHashes(artifacts) <==>
              exists i :: 0 <= i < |artifacts| && !artifacts[i].isTrace && artifacts[i].hash == d
  {
    if artifacts == [] {
    } else {
      OutputHashesExactly(artifacts[1..], d);
      if i :| 0 <= i < |artifacts| && !artifacts[i].isTrace && artifacts[i].hash == d {
        if i > 0 { assert artifacts[1..][i - 1] == artifacts[i]; }
      }
      if j :| 0 <= j < |artifacts| - 1 && !artifacts[1..][j].isTrace && artifacts[1..][j].hash == d {
        assert artifacts[j + 1] == artifacts[1..][j];
      }
    }
  }

  lemma OutputsPassExactly(hash: Bytes -> Digest, files: Files, artifacts: seq<ArtifactRef>)
    requires forall i :: 0 <= i < |artifacts| ==> IsDigest(artifacts[i].hash)
    ensures var ds := OutputHashes(artifacts);
            ExistenceCheck(files, ds).status != Fail && HashesCheck(hash, files, ds).status != Fail <==>
                OutputsGood(hash, files, artifacts)
  {
    var ds := OutputHashes(artifacts);
    OutputChecksExactly(hash, files, ds);
    if forall k :: 0 <= k < |ds| ==> Good(hash, files, ds[k]) {
      forall i | 0 <= i < |artifacts| && !artifacts[i].isTrace ensures Good(hash, files, artifacts[i].hash) {
        OutputHashesExactly(artifacts, artifacts[i].hash);
        var k :| 0 <= k < |ds| && ds[k] == artifacts[i].hash;
      }
    }
    if OutputsGood(hash, files, artifacts) {
      forall k | 0 <= k < |ds| ensures Good(hash, files, ds[k]) {
        OutputHashesExactly(artifacts, ds[k]);
      }
    }
  }

  // ---- A report without a failure ----

  predicate NoFail(checks: seq<CheckResult>) { forall i :: 0 <= i < |checks| ==> checks[i].status != Fail }

  lemma NoFailAppend(a: seq<CheckResult>, b: seq<CheckResult>)
    ensures NoFail(a + b) <==> NoFail(a) && NoFail(b)
  {
    if NoFail(a + b) {
      forall i | 0 <= i < |a| ensures a[i].status != Fail { assert (a + b)[i] == a[i]; }
      forall i | 0 <= i < |b| ensures b[i].status != Fail { assert (a + b)[|a| + i] == b[i]; }
    }
  }

  lemma {:induction false} SkippedNoFail(kinds: seq<CheckKind>)
    ensures NoFail(Skipped(kinds))
  {
    if kinds == [] {
    } else {
      SkippedNoFail(kinds[1..]);
    }
  }

  /** The chunks of an index: all there, none wrong, and the chain over what can be read of them holds. */
  predicate ChunksSound(env: Env, files: Files, trace: TraceInfo, index: TraceIndex) {
    && (forall i :: 0 <= i < |index.chunks| ==>
          ChunkPresent(files, index.chunks[i]) && !ChunkWrong(env.hash, files, index.chunks[i]))
    && var (chain, tip) := env.checkChain(trace, index, ChunkContents(files, index.chunks));
       chain.status != Fail && tip.status != Fail
  }

  /** The trace of a run, if its manifest names an index. */
  predicate TraceSound(env: Env, files: Files, trace: TraceInfo) {
    trace.indexHash.Some? ==>
      var h := FromHex(trace.indexHash.value);
      && h.Some? && Readable(files, h.value)
      && var index := env.parseIndex(files[PathOf(h.value)].data.value);
         index.Some? && ChunksSound(env, files, trace, index.value)
  }

  lemma IndexChecksExactly(env: Env, files: Files, trace: TraceInfo, index: TraceIndex)
    ensures NoFail(IndexChecks(env, files, trace, index)) <==> ChunksSound(env, files, trace, index)
  {
    ChunkChecksExactly(env.hash, files, index.chunks);
    var checks := IndexChecks(env, files, trace, index);
    assert |checks| == 4;
    assert NoFail(checks) <==>
      checks[0].status != Fail && checks[1].status != Fail && checks[2].status != Fail && checks[3].status != Fail;
  }

  lemma TraceChecksExactly(env: Env, files: Files, trace: TraceInfo)
    ensures NoFail(TraceChecks(env, files, trace)) <==> TraceSound(env, files, trace)
  {
    var checks := TraceChecks(env, files, trace);
    if trace.indexHash.None? {
      SkippedNoFail([TraceIndexExists, TraceChunksExist, TraceChunkHashes, EventChainIntegrity, EventChainTip]);
    } else {
      var h := FromHex(trace.indexHash.value);
      if h.None? || !Present(files, h.value) {
        assert checks[0].status == Fail;
      } else {
        var content := ReadBlob(files, h.value);
        if content.None? || env.parseIndex(content.value).None? {
          assert checks[1].status == Fail;
        } else {
          var index := env.parseIndex(content.value).value;
          IndexChecksExactly(env, files, trace, index);
          NoFailAppend([CheckResult(TraceIndexExists, Pass, NoDetail)], IndexChecks(env, files, trace, index));
        }
      }
    }
  }

  /** What a run's report without a failure says, over the run directory and the files. */
  ghost predicate RunSound(env: Env, files: Files, dir: RunDir)
    requires env.Valid()
  {
    && dir.manifest.Some? && env.parseManifest(dir.manifest.value).Some?
    && var m := env.parseManifest(dir.manifest.value).value;
       && OutputsGood(env.hash, files, m.artifacts)
       && (m.trace.Some? ==> TraceSound(env, files, m.trace.value))
       && (dir.signature.Some? ==> env.checkSignature(dir.manifest.value, dir.signature.value).status != Fail)
  }

  /**
   * No check of a run fails if and only if its manifest is there and parses, every output it lists is in the
   * store with the content its name says, the trace is sound and the signature check does not fail.
   */
  lemma CleanReportExactly(env: Env, files: Files, dir: RunDir)
    requires env.Valid()
    ensures NoFail(Report(env, files, dir)) <==> RunSound(env, files, dir)
  {
    var report := Report(env, files, dir);
    if dir.manifest.None? {
      assert report[0].status == Fail;
    } else if env.parseManifest(dir.manifest.value).None? {
      assert report[1].status == Fail;
    } else {
      var m := env.parseManifest(dir.manifest.value).value;
      ManifestReport(env, files, dir, m);
      OutputsPassExactly(env.hash, files, m.artifacts);
      if m.trace.Some? { TraceChecksExactly(env, files, m.trace.value); }
    }
  }

  lemma ManifestReport(env: Env, files: Files, dir: RunDir, m: Manifest)
    requires env.Valid() && dir.manifest.Some? && env.parseManifest(dir.manifest.value) == Some(m)
    ensures var ds := OutputHashes(m.artifacts);
            NoFail(Report(env, files, dir)) <==>
              && ExistenceCheck(files, ds).status != Fail && HashesCheck(env.hash, files, ds).status != Fail
              && (m.trace.Some? ==> NoFail(TraceChecks(env, files, m.trace.value)))
              && SignatureCheck(env, dir).status != Fail
  {
    var kinds := [TraceIndexExists, TraceChunksExist, TraceChunkHashes, EventChainIntegrity, EventChainTip];
    SkippedNoFail(kinds);
    var ds := OutputHashes(m.artifacts);
    var head := [CheckResult(ManifestExists, Pass, NoDetail), CheckResult(ManifestParseable, Pass, NoDetail),
                 CheckResult(InputArtifactsExist, Skip, NoDetail), ExistenceCheck(files, ds),
                 CheckResult(InputArtifactHashes, Skip, NoDetail), HashesCheck(env.hash, files, ds)];
    var trace := if m.trace.Some? then TraceChecks(env, files, m.trace.value) else Skipped(kinds);
    var last := [SignatureCheck(env, dir)];
    NoFailAppend(head, trace);
    NoFailAppend(head + trace, last);
    assert NoFail(head) <==> head[3].status != Fail && head[5].status != Fail;
    assert NoFail(last) <==> last[0].status != Fail;
  }

  // ---- Chunks that cannot be read ----

  /** The chain check fails when one of the chunks could not be read. */
  ghost predicate ChainNeedsChunks(env: Env) {
    forall trace, index, contents ::
      None in contents ==> env.checkChain(trace, index, contents).0.status == Fail
  }

  lemma {:induction false} ContentsOf(files: Files, chunks: seq<ChunkRef>)
    ensures |ChunkContents(files, chunks)| == |chunks|
    ensures forall i :: 0 <= i < |chunks| ==>
              ChunkContents(files, chunks)[i] ==
                if ChunkPresent(files, chunks[i]) then files[PathOf(FromHex(chunks[i].hash).value)].data else None
  {
    if chunks == [] {
    } else {
      ContentsOf(files, chunks[1..]);
    }
  }

  /** Then a trace without a failure has every chunk in the store with the content its name says. */
  lemma SoundChunksAreGood(env: Env, files: Files, trace: TraceInfo, index: TraceIndex, i: nat)
    requires ChainNeedsChunks(env) && ChunksSound(env, files, trace, index) && i < |index.chunks|
    ensures FromHex(index.chunks[i].hash).Some? && Good(env.hash, files, FromHex(index.chunks[i].hash).value)
  {
    ContentsOf(files, index.chunks);
    var contents := ChunkContents(files, index.chunks);
    assert ChunkPresent(files, index.chunks[i]) && !ChunkWrong(env.hash, files, index.chunks[i]);
    assert contents[i] in contents;
  }

  /** A report without a failure: every output and every chunk of the index is there and hashes to its name. */
  lemma CleanReportIsIntact(env: Env, files: Files, dir: RunDir)
    requires env.Valid() && ChainNeedsChunks(env) && NoFail(Report(env, files, dir))
    ensures dir.manifest.Some? && env.parseManifest(dir.manifest.value).Some?
    ensures var m := env.parseManifest(dir.manifest.value).value;
            && (forall i :: 0 <= i < |m.artifacts| && !m.artifacts[i].isTrace ==>
                  Good(env.hash, files, m.artifacts[i].hash))
            && (m.trace.Some? && m.trace.value.indexHash.Some? ==>
                  var h := FromHex(m.trace.value.indexHash.value);
                  && h.Some? && Readable(files, h.value)
                  && var index := env.parseIndex(files[PathOf(h.value)].data.value);
                     && index.Some?
                     && forall i :: 0 <= i < |index.value.chunks| ==>
                          var c := FromHex(index.value.chunks[i].hash);
                          c.Some? && Good(env.hash, files, c.value))
  {
    CleanReportExactly(env, files, dir);
    var m := env.parseManifest(dir.manifest.value).value;
    if m.trace.Some? && m.trace.value.indexHash.Some? {
      var index := env.parseIndex(files[PathOf(FromHex(m.trace.value.indexHash.value).value)].data.value).value;
      forall i | 0 <= i < |index.chunks|
        ensures FromHex(index.chunks[i].hash).Some? && Good(env.hash, files, FromHex(index.chunks[i].hash).value)
      {
        SoundChunksAreGood(env, files, m.trace.value, index, i);
      }
    }
  }

  // ---- The index is not among the blobs that are re-hashed ----

  /**
   * Another content at the path of the index that parses as the same index leaves the report as it is, unless
   * the same blob is also an output or a chunk: the index is looked up and parsed, and not re-hashed.
   */
  lemma IndexContentUnchecked(env: Env, files: Files, dir: RunDir, content: Bytes)
    requires env.Valid() && dir.manifest.Some? && env.parseManifest(dir.manifest.value).Some?
    requires var m := env.parseManifest(dir.manifest.value).value;
             && m.trace.Some? && m.trace.value.indexHash.Some?
             && var h := FromHex(m.trace.value.indexHash.value);
                && h.Some? && Readable(files, h.value)
                && var index := env.parseIndex(files[PathOf(h.value)].data.value);
                   && index.Some? && env.parseIndex(content) == index
                   && (forall i :: 0 <= i < |m.artifacts| ==> m.artifacts[i].hash != h.value)
                   && (forall i :: 0 <= i < |index.value.chunks| ==> FromHex(index.value.chunks[i].hash) != h)
    ensures var m := env.parseManifest(dir.manifest.value).value;
            var p := PathOf(FromHex(m.trace.value.indexHash.value).value);
            Report(env, files[p := files[p].(data := Some(content))], dir) == Report(env, files, dir)
  {
    var m := env.parseManifest(dir.manifest.value).value;
    var d := FromHex(m.trace.value.indexHash.value).value;
    var files' := files[PathOf(d) := files[PathOf(d)].(data := Some(content))];
    forall e | IsDigest(e) && e != d ensures Agree(files, files', e) { PathsAreDistinct(e, d); }
    var ds := OutputHashes(m.artifacts);
    forall e | e in ds ensures Agree(files, files', e) { OutputHashesExactly(m.artifacts, e); }
    OutputsDepend(env.hash, files, files', ds);
    ChunksDepend(env.hash, files, files', env.parseIndex(content).value.chunks);
  }
}
