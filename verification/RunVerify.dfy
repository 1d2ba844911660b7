// Verification of a run against the blob store, and exactly which blobs its report depends on.
module RunVerify {
  import opened Common
  import opened Hex
  import opened BlobStore

  datatype ArtifactRef = ArtifactRef(hash: Digest, isTrace: bool)

  datatype TraceInfo = TraceInfo(chainTip: string, indexHash: Option<string>)

  datatype Manifest = Manifest(artifacts: seq<ArtifactRef>, trace: Option<TraceInfo>)

  datatype ChunkRef = ChunkRef(index: nat, hash: string)

  datatype TraceIndex = TraceIndex(genesisHash: string, chunks: seq<ChunkRef>)

  /** A run directory: its manifest file and its signature file, if there. */
  datatype RunDir = RunDir(manifest: Option<Bytes>, signature: Option<Bytes>)

  datatype CheckKind =
    | ManifestExists | ManifestParseable | InputArtifactsExist | OutputArtifactsExist | InputArtifactHashes
    | OutputArtifactHashes | TraceIndexExists | TraceChunksExist | TraceChunkHashes | EventChainIntegrity
    | EventChainTip | ManifestSignature

  datatype Detail =
    | NoDetail
    | Note(text: string)
    | Counted(n: nat)
    | Blobs(digests: seq<Digest>)
    | Findings(results: seq<VerifyResult>)
    | Chunks(indices: seq<nat>)

  datatype CheckResult = CheckResult(check: CheckKind, status: CheckStatus, detail: Detail)

  /** The parsers, the trace-chain check and the signature check: fixed functions of what they read. */
  datatype Env = Env(
    hash: Bytes -> Digest,
    parseManifest: Bytes -> Option<Manifest>,
    parseIndex: Bytes -> Option<TraceIndex>,
    checkChain: (TraceInfo, TraceIndex, seq<Option<Bytes>>) -> (CheckResult, CheckResult),
    checkSignature: (Bytes, Bytes) -> CheckResult)
  {
    /** Artifact hashes are 32 bytes: the manifest parser reads them from 64 hex digits. */
    ghost predicate Valid() {
      forall b, i ::
        parseManifest(b).Some? && 0 <= i < |parseManifest(b).value.artifacts| ==>
          IsDigest(parseManifest(b).value.artifacts[i].hash)
    }
  }

  // ---- The report as a function of the store ----

  predicate Digests(ds: seq<Digest>) { forall i :: 0 <= i < |ds| ==> IsDigest(ds[i]) }

  /** The hashes of the artifacts that are not trace chunks, in order. */
  function OutputHashes(artifacts: seq<ArtifactRef>): (ds: seq<Digest>)
    ensures (forall i :: 0 <= i < |artifacts| ==> IsDigest(artifacts[i].hash)) ==> Digests(ds)
    ensures forall d :: d in ds ==> exists i :: 0 <= i < |artifacts| && artifacts[i].hash == d
  {
    if artifacts == [] then []
    else
      var rest := OutputHashes(artifacts[1..]);
      if artifacts[0].isTrace then rest else [artifacts[0].hash] + rest
  }

  function MissingOf(files: Files, ds: seq<Digest>): seq<Digest>
    requires Digests(ds)
  {
    if ds == [] then []
    else (if Lookup(files, ds[0]).None? then [ds[0]] else []) + MissingOf(files, ds[1..])
  }

  /** The blobs that are there and do not verify; missing ones are reported by the existence check. */
  function BadOf(hash: Bytes -> Digest, files: Files, ds: seq<Digest>): seq<VerifyResult>
    requires Digests(ds)
  {
    if ds == [] then []
    else
      var r := VerifyBlob(hash, files, ds[0]);
      (if r == Intact || r == Missing then [] else [r]) + BadOf(hash, files, ds[1..])
  }

  function ExistenceCheck(files: Files, ds: seq<Digest>): CheckResult
    requires Digests(ds)
  {
    var missing := MissingOf(files, ds);
    if missing == [] then CheckResult(OutputArtifactsExist, Pass, Counted(|ds|))
    else CheckResult(OutputArtifactsExist, Fail, Blobs(missing))
  }

  function HashesCheck(hash: Bytes -> Digest, files: Files, ds: seq<Digest>): CheckResult
    requires Digests(ds)
  {
    var bad := BadOf(hash, files, ds);
    if bad == [] then CheckResult(OutputArtifactHashes, Pass, NoDetail)
    else CheckResult(OutputArtifactHashes, Fail, Findings(bad))
  }

  predicate ChunkMissing(files: Files, c: ChunkRef) {
    var h := FromHex(c.hash);
    h.None? || Lookup(files, h.value).None?
  }

  predicate ChunkCorrupted(hash: Bytes -> Digest, files: Files, c: ChunkRef) {
    var h := FromHex(c.hash);
    h.Some? && VerifyBlob(hash, files, h.value).Corrupted?
  }

  function MissingChunks(files: Files, chunks: seq<ChunkRef>): seq<nat> {
    if chunks == [] then []
    else (if ChunkMissing(files, chunks[0]) then [chunks[0].index] else []) + MissingChunks(files, chunks[1..])
  }

  function CorruptedChunks(hash: Bytes -> Digest, files: Files, chunks: seq<ChunkRef>): seq<nat> {
    if chunks == [] then []
    else
      (if ChunkCorrupted(hash, files, chunks[0]) then [chunks[0].index] else []) +
      CorruptedChunks(hash, files, chunks[1..])
  }

  /** What reading the chunks for the chain check gets. */
  function ChunkContents(files: Files, chunks: seq<ChunkRef>): seq<Option<Bytes>> {
    if chunks == [] then []
    else
      var h := FromHex(chunks[0].hash);
      [if h.None? then None else ReadBlob(files, h.value)] + ChunkContents(files, chunks[1..])
  }

  function Skipped(kinds: seq<CheckKind>): seq<CheckResult> {
    if kinds == [] then [] else [CheckResult(kinds[0], Skip, NoDetail)] + Skipped(kinds[1..])
  }

  function IndexChecks(env: Env, files: Files, trace: TraceInfo, index: TraceIndex): seq<CheckResult> {
    var missing := MissingChunks(files, index.chunks);
    var corrupted := CorruptedChunks(env.hash, files, index.chunks);
    var (chain, tip) := env.checkChain(trace, index, ChunkContents(files, index.chunks));
    [if missing == [] then CheckResult(TraceChunksExist, Pass, Counted(|index.chunks|))
     else CheckResult(TraceChunksExist, Fail, Chunks(missing)),
     if corrupted == [] then CheckResult(TraceChunkHashes, Pass, NoDetail)
     else CheckResult(TraceChunkHashes, Fail, Chunks(corrupted)),
     chain, tip]
  }

  function TraceChecks(env: Env, files: Files, trace: TraceInfo): seq<CheckResult> {
    if trace.indexHash.None? then
      Skipped([TraceIndexExists, TraceChunksExist, TraceChunkHashes, EventChainIntegrity, EventChainTip])
    else
      var h := FromHex(trace.indexHash.value);
      if h.None? || Lookup(files, h.value).None? then
        [CheckResult(TraceIndexExists, Fail, if h.None? then NoDetail else Blobs([h.value]))] +
        Skipped([TraceChunksExist, TraceChunkHashes, EventChainIntegrity, EventChainTip])
      else
        var content := ReadBlob(files, h.value);
        var index := if content.None? then None else env.parseIndex(content.value);
        [CheckResult(TraceIndexExists, Pass, NoDetail)] +
        if index.None? then
          [CheckResult(TraceChunksExist, Fail, NoDetail)] + Skipped([EventChainIntegrity, EventChainTip])
        else IndexChecks(env, files, trace, index.value)
  }

  function SignatureCheck(env: Env, dir: RunDir): CheckResult {
    if dir.signature.Some? && dir.manifest.Some? then env.checkSignature(dir.manifest.value, dir.signature.value)
    else CheckResult(ManifestSignature, Skip, NoDetail)
  }

  ghost function Report(env: Env, files: Files, dir: RunDir): seq<CheckResult>
    requires env.Valid()
  {
    if dir.manifest.None? then [CheckResult(ManifestExists, Fail, NoDetail)]
    else
      var m := env.parseManifest(dir.manifest.value);
      if m.None? then
        [CheckResult(ManifestExists, Pass, NoDetail), CheckResult(ManifestParseable, Fail, NoDetail)]
      else
        var ds := OutputHashes(m.value.artifacts);
        [CheckResult(ManifestExists, Pass, NoDetail), CheckResult(ManifestParseable, Pass, NoDetail),
         CheckResult(InputArtifactsExist, Skip, NoDetail), ExistenceCheck(files, ds),
         CheckResult(InputArtifactHashes, Skip, NoDetail), HashesCheck(env.hash, files, ds)] +
        (if m.value.trace.Some? then TraceChecks(env, files, m.value.trace.value)
         else Skipped([TraceIndexExists, TraceChunksExist, TraceChunkHashes, EventChainIntegrity, EventChainTip])) +
        [SignatureCheck(env, dir)]
  }

  // ---- The blobs a report depends on ----

  /** The index the verifier gets to read, if any. */
  function IndexOf(env: Env, files: Files, trace: TraceInfo): Option<TraceIndex> {
    if trace.indexHash.None? then None
    else
      var h := FromHex(trace.indexHash.value);
      if h.None? || ReadBlob(files, h.value).None? then None
      else env.parseIndex(ReadBlob(files, h.value).value)
  }

  /** The hash strings the verifier follows into the store for a run's trace. */
  function Followed(env: Env, files: Files, trace: TraceInfo): seq<string> {
    if trace.indexHash.None? then []
    else
      var index := IndexOf(env, files, trace);
      [trace.indexHash.value] +
      if index.None? then []
      else seq(|index.value.chunks|, i requires 0 <= i < |index.value.chunks| => index.value.chunks[i].hash)
  }

  /** One of the strings reads as the hash `d`. */
  predicate Names(f: seq<string>, d: Digest) { exists i :: 0 <= i < |f| && FromHex(f[i]) == Some(d) }

  /** The verifier of the run looks this blob up. */
  ghost predicate Observes(env: Env, files: Files, dir: RunDir, d: Digest)
    requires env.Valid()
  {
    && dir.manifest.Some? && env.parseManifest(dir.manifest.value).Some?
    && var m := env.parseManifest(dir.manifest.value).value;
       || d in OutputHashes(m.artifacts)
       || (m.trace.Some? && Names(Followed(env, files, m.trace.value), d))
  }

  /** Two stores that agree on a blob. */
  predicate Agree(a: Files, b: Files, d: Digest) { IsDigest(d) ==> Lookup(a, d) == Lookup(b, d) }

  lemma {:induction false} OutputsDepend(hash: Bytes -> Digest, a: Files, b: Files, ds: seq<Digest>)
    requires Digests(ds) && forall d :: d in ds ==> Agree(a, b, d)
    ensures MissingOf(a, ds) == MissingOf(b, ds) && BadOf(hash, a, ds) == BadOf(hash, b, ds)
  {
    if ds == [] {
    } else {
      assert Agree(a, b, ds[0]);
      OutputsDepend(hash, a, b, ds[1..]);
    }
  }

  lemma {:induction false} ChunksDepend(hash: Bytes -> Digest, a: Files, b: Files, chunks: seq<ChunkRef>)
    requires forall i :: 0 <= i < |chunks| && FromHex(chunks[i].hash).Some? ==>
                           Agree(a, b, FromHex(chunks[i].hash).value)
    ensures MissingChunks(a, chunks) == MissingChunks(b, chunks)
    ensures CorruptedChunks(hash, a, chunks) == CorruptedChunks(hash, b, chunks)
    ensures ChunkContents(a, chunks) == ChunkContents(b, chunks)
  {
    if chunks == [] {
    } else {
      ChunksDepend(hash, a, b, chunks[1..]);
    }
  }

  lemma TraceDepends(env: Env, a: Files, b: Files, trace: TraceInfo)
    requires forall i :: 0 <= i < |Followed(env, a, trace)| && FromHex(Followed(env, a, trace)[i]).Some? ==>
                           Agree(a, b, FromHex(Followed(env, a, trace)[i]).value)
    ensures TraceChecks(env, a, trace) == TraceChecks(env, b, trace)
  {
    if trace.indexHash.Some? {
      var f := Followed(env, a, trace);
      assert f[0] == trace.indexHash.value;
      var index := IndexOf(env, a, trace);
      if index.Some? {
        forall i | 0 <= i < |index.value.chunks| && FromHex(index.value.chunks[i].hash).Some?
          ensures Agree(a, b, FromHex(index.value.chunks[i].hash).value)
        {
          assert f[i + 1] == index.value.chunks[i].hash;
        }
        ChunksDepend(env.hash, a, b, index.value.chunks);
      }
    }
  }

  /** Stores that agree on the observed blobs give the same report. */
  lemma ReportDependsOnObserved(env: Env, a: Files, b: Files, dir: RunDir)
    requires env.Valid() && forall d :: Observes(env, a, dir, d) ==> Agree(a, b, d)
    ensures Report(env, a, dir) == Report(env, b, dir)
  {
    if dir.manifest.Some? && env.parseManifest(dir.manifest.value).Some? {
      var m := env.parseManifest(dir.manifest.value).value;
      var ds := OutputHashes(m.artifacts);
      forall d | d in ds ensures Agree(a, b, d) { assert Observes(env, a, dir, d); }
      OutputsDepend(env.hash, a, b, ds);
      if m.trace.Some? {
        var f := Followed(env, a, m.trace.value);
        forall i | 0 <= i < |f| && FromHex(f[i]).Some? ensures Agree(a, b, FromHex(f[i]).value) {
          assert Observes(env, a, dir, FromHex(f[i]).value);
        }
        TraceDepends(env, a, b, m.trace.value);
      }
    }
  }

  // ---- Losing an observed blob shows ----

  /** `b` is `a` with some blobs taken away. */
  predicate Reduced(a: Files, b: Files) { forall p :: p in b ==> p in a && b[p] == a[p] }

  predicate Lost(a: Files, b: Files, d: Digest) { IsDigest(d) && Lookup(a, d).Some? && Lookup(b, d).None? }

  lemma {:induction false} LostOutputShows(a: Files, b: Files, ds: seq<Digest>)
    requires Reduced(a, b) && Digests(ds)
    ensures |MissingOf(a, ds)| <= |MissingOf(b, ds)|
    ensures (exists d :: d in ds && Lost(a, b, d)) ==> |MissingOf(a, ds)| < |MissingOf(b, ds)|
  {
    if ds == [] {
    } else {
      LostOutputShows(a, b, ds[1..]);
      assert forall d :: d in ds <==> d == ds[0] || d in ds[1..];
    }
  }

  lemma {:induction false} LostChunkShows(a: Files, b: Files, chunks: seq<ChunkRef>)
    requires Reduced(a, b)
    ensures |MissingChunks(a, chunks)| <= |MissingChunks(b, chunks)|
    ensures (exists i :: 0 <= i < |chunks| && FromHex(chunks[i].hash).Some? &&
              Lost(a, b, FromHex(chunks[i].hash).value)) ==>
              |MissingChunks(a, chunks)| < |MissingChunks(b, chunks)|
  {
    if chunks == [] {
    } else {
      LostChunkShows(a, b, chunks[1..]);
      if i :| 0 <= i < |chunks| && FromHex(chunks[i].hash).Some? && Lost(a, b, FromHex(chunks[i].hash).value) {
        if i > 0 { assert chunks[1..][i - 1] == chunks[i]; }
      }
    }
  }

  lemma LostTraceShows(env: Env, a: Files, b: Files, trace: TraceInfo, i: nat)
    requires Reduced(a, b) && i < |Followed(env, a, trace)|
    requires FromHex(Followed(env, a, trace)[i]).Some? && Lost(a, b, FromHex(Followed(env, a, trace)[i]).value)
    ensures TraceChecks(env, a, trace) != TraceChecks(env, b, trace)
  {
    var h := FromHex(trace.indexHash.value);
    if i == 0 || Lookup(b, h.value).None? {
      assert TraceChecks(env, a, trace)[0].status == Pass && TraceChecks(env, b, trace)[0].status == Fail;
    } else {
      var index := IndexOf(env, a, trace).value;
      assert index.chunks[i - 1].hash == Followed(env, a, trace)[i];
      assert IndexOf(env, b, trace) == Some(index);
      LostChunkShows(a, b, index.chunks);
      assert TraceChecks(env, a, trace)[1] == IndexChecks(env, a, trace, index)[0];
      assert TraceChecks(env, b, trace)[1] == IndexChecks(env, b, trace, index)[0];
    }
  }

  /** Taking away a blob the verifier observes changes the report. */
  lemma LostBlobShows(env: Env, a: Files, b: Files, dir: RunDir, d: Digest)
    requires env.Valid() && Reduced(a, b) && Observes(env, a, dir, d) && Lost(a, b, d)
    ensures Report(env, a, dir) != Report(env, b, dir)
  {
    var m := env.parseManifest(dir.manifest.value).value;
    var ds := OutputHashes(m.artifacts);
    var ra, rb := Report(env, a, dir), Report(env, b, dir);
    if d in ds {
      LostOutputShows(a, b, ds);
      assert ra[3] == ExistenceCheck(a, ds) && rb[3] == ExistenceCheck(b, ds);
    } else {
      var f := Followed(env, a, m.trace.value);
      var i :| 0 <= i < |f| && FromHex(f[i]) == Some(d);
      LostTraceShows(env, a, b, m.trace.value, i);
      var ta, tb := TraceChecks(env, a, m.trace.value), TraceChecks(env, b, m.trace.value);
      assert ra[6..|ra| - 1] == ta && rb[6..|rb| - 1] == tb;
    }
  }

  // ---- The verifier as it runs ----

  function MissingStep(files: Files, d: Digest): seq<Digest>
    requires IsDigest(d)
  {
    if Lookup(files, d).None? then [d] else []
  }

  function BadStep(r: VerifyResult): seq<VerifyResult> { if r == Intact || r == Missing then [] else [r] }

  lemma OutputsUnroll(hash: Bytes -> Digest, files: Files, ds: seq<Digest>, i: nat)
    requires Digests(ds) && i < |ds|
    ensures MissingOf(files, ds[i..]) == MissingStep(files, ds[i]) + MissingOf(files, ds[i + 1..])
    ensures BadOf(hash, files, ds[i..]) == BadStep(VerifyBlob(hash, files, ds[i])) + BadOf(hash, files, ds[i + 1..])
  {
    assert ds[i..][0] == ds[i] && ds[i..][1..] == ds[i + 1..];
  }

  function Flagged(flag: bool, c: ChunkRef): seq<nat> { if flag then [c.index] else [] }

  lemma ChunksUnroll(hash: Bytes -> Digest, files: Files, chunks: seq<ChunkRef>, i: nat)
    requires i < |chunks|
    ensures MissingChunks(files, chunks[i..]) ==
              Flagged(ChunkMissing(files, chunks[i]), chunks[i]) + MissingChunks(files, chunks[i + 1..])
    ensures CorruptedChunks(hash, files, chunks[i..]) ==
              Flagged(ChunkCorrupted(hash, files, chunks[i]), chunks[i]) + CorruptedChunks(hash, files, chunks[i + 1..])
  {
    assert chunks[i..][0] == chunks[i] && chunks[i..][1..] == chunks[i + 1..];
  }

  method VerifyArtifactExistence(files: Files, ds: seq<Digest>) returns (check: CheckResult)
    requires Digests(ds)
    ensures check == ExistenceCheck(files, ds)
  {
    var missing: seq<Digest> := [];
    ghost var all, rest := MissingOf(files, ds), MissingOf(files, ds[0..]);
    assert ds[0..] == ds;
    for i := 0 to |ds|
      invariant rest == MissingOf(files, ds[i..]) && missing + rest == all
    {
      OutputsUnroll((x: Bytes) => [], files, ds, i);
      rest := MissingOf(files, ds[i + 1..]);
      Associative(missing, MissingStep(files, ds[i]), rest);
      if Lookup(files, ds[i]).None? { missing := missing + [ds[i]]; } else { assert missing == missing + []; }
    }
    assert ds[|ds|..] == [];
    assert missing == all;
    if missing == [] {
      check := CheckResult(OutputArtifactsExist, Pass, Counted(|ds|));
    } else {
      check := CheckResult(OutputArtifactsExist, Fail, Blobs(missing));
    }
  }

  method VerifyArtifactHashes(cas: CasStore, ds: seq<Digest>) returns (check: CheckResult)
    requires Digests(ds)
    ensures check == HashesCheck(cas.hash, cas.files, ds)
  {
    var bad: seq<VerifyResult> := [];
    ghost var all, rest := BadOf(cas.hash, cas.files, ds), BadOf(cas.hash, cas.files, ds[0..]);
    assert ds[0..] == ds;
    for i := 0 to |ds|
      invariant rest == BadOf(cas.hash, cas.files, ds[i..]) && bad + rest == all
    {
      OutputsUnroll(cas.hash, cas.files, ds, i);
      rest := BadOf(cas.hash, cas.files, ds[i + 1..]);
      var r := cas.Verify(ds[i]);
      Associative(bad, BadStep(r), rest);
      if r != Intact && r != Missing { bad := bad + [r]; } else { assert bad == bad + []; }
    }
    assert ds[|ds|..] == [];
    assert bad == all;
    if bad == [] {
      check := CheckResult(OutputArtifactHashes, Pass, NoDetail);
    } else {
      check := CheckResult(OutputArtifactHashes, Fail, Findings(bad));
    }
  }

  method FindMissing(files: Files, chunks: seq<ChunkRef>) returns (missing: seq<nat>)
    ensures missing == MissingChunks(files, chunks)
  {
    missing := [];
    ghost var all, rest := MissingChunks(files, chunks), MissingChunks(files, chunks[0..]);
    assert chunks[0..] == chunks;
    for i := 0 to |chunks|
      invariant rest == MissingChunks(files, chunks[i..]) && missing + rest == all
    {
      ChunksUnroll((x: Bytes) => [], files, chunks, i);
      var gone := ChunkMissing(files, chunks[i]);
      rest := MissingChunks(files, chunks[i + 1..]);
      Associative(missing, Flagged(gone, chunks[i]), rest);
      missing := missing + (if gone then [chunks[i].index] else []);
    }
    assert chunks[|chunks|..] == [];
  }

  method FindCorrupted(cas: CasStore, chunks: seq<ChunkRef>) returns (corrupted: seq<nat>)
    ensures corrupted == CorruptedChunks(cas.hash, cas.files, chunks)
  {
    corrupted := [];
    ghost var all, rest := CorruptedChunks(cas.hash, cas.files, chunks), CorruptedChunks(cas.hash, cas.files,
        chunks[0..]);
    assert chunks[0..] == chunks;
    for i := 0 to |chunks|
      invariant rest == CorruptedChunks(cas.hash, cas.files, chunks[i..]) && corrupted + rest == all
    {
      ChunksUnroll(cas.hash, cas.files, chunks, i);
      var bad := IsCorrupted(cas, chunks[i]);
      rest := CorruptedChunks(cas.hash, cas.files, chunks[i + 1..]);
      Associative(corrupted, Flagged(bad, chunks[i]), rest);
      corrupted := corrupted + (if bad then [chunks[i].index] else []);
    }
    assert chunks[|chunks|..] == [];
  }

  method IsCorrupted(cas: CasStore, c: ChunkRef) returns (bad: bool)
    ensures bad == ChunkCorrupted(cas.hash, cas.files, c)
  {
    var h := FromHex(c.hash);
    if h.None? { return false; }
    var r := cas.Verify(h.value);
    bad := r.Corrupted?;
  }

  method VerifyChunks(env: Env, cas: CasStore, trace: TraceInfo, index: TraceIndex) returns (checks: seq<CheckResult>)
    requires cas.hash == env.hash
    ensures checks == IndexChecks(env, cas.files, trace, index)
  {
    var chunks := index.chunks;
    var missing := FindMissing(cas.files, chunks);
    var corrupted := FindCorrupted(cas, chunks);
    checks := [];
    if missing == [] {
      checks := checks + [CheckResult(TraceChunksExist, Pass, Counted(|chunks|))];
    } else {
      checks := checks + [CheckResult(TraceChunksExist, Fail, Chunks(missing))];
    }
    if corrupted == [] {
      checks := checks + [CheckResult(TraceChunkHashes, Pass, NoDetail)];
    } else {
      checks := checks + [CheckResult(TraceChunkHashes, Fail, Chunks(corrupted))];
    }
    var (chain, tip) := env.checkChain(trace, index, ChunkContents(cas.files, chunks));
    checks := checks + [chain, tip];
  }

  method VerifyTraceArtifacts(env: Env, cas: CasStore, trace: TraceInfo) returns (checks: seq<CheckResult>)
    requires cas.hash == env.hash
    ensures checks == TraceChecks(env, cas.files, trace)
  {
    if trace.indexHash.None? {
      return Skipped([TraceIndexExists, TraceChunksExist, TraceChunkHashes, EventChainIntegrity, EventChainTip]);
    }
    var rest := Skipped([TraceChunksExist, TraceChunkHashes, EventChainIntegrity, EventChainTip]);
    var h := FromHex(trace.indexHash.value);
    if h.None? { return [CheckResult(TraceIndexExists, Fail, NoDetail)] + rest; }
    if Lookup(cas.files, h.value).None? { return [CheckResult(TraceIndexExists, Fail, Blobs([h.value]))] + rest; }
    checks := [CheckResult(TraceIndexExists, Pass, NoDetail)];
    var content := ReadBlob(cas.files, h.value);
    var index := if content.None? then None else env.parseIndex(content.value);
    if index.None? {
      return checks + ([CheckResult(TraceChunksExist, Fail, NoDetail)] + Skipped([EventChainIntegrity, EventChainTip]));
    }
    var more := VerifyChunks(env, cas, trace, index.value);
    checks := checks + more;
  }

  method VerifyRun(env: Env, cas: CasStore, dir: RunDir) returns (checks: seq<CheckResult>)
    requires env.Valid() && cas.hash == env.hash
    ensures checks == Report(env, cas.files, dir)
  {
    if dir.manifest.None? { return [CheckResult(ManifestExists, Fail, NoDetail)]; }
    checks := [CheckResult(ManifestExists, Pass, NoDetail)];
    var m := env.parseManifest(dir.manifest.value);
    if m.None? { return checks + [CheckResult(ManifestParseable, Fail, NoDetail)]; }
    var ds := OutputHashes(m.value.artifacts);
    var existence := VerifyArtifactExistence(cas.files, ds);
    var hashes := VerifyArtifactHashes(cas, ds);
    checks := checks + [CheckResult(ManifestParseable, Pass, NoDetail),
                        CheckResult(InputArtifactsExist, Skip, NoDetail), existence,
                        CheckResult(InputArtifactHashes, Skip, NoDetail), hashes];
    if m.value.trace.Some? {
      var trace := VerifyTraceArtifacts(env, cas, m.value.trace.value);
      checks := checks + trace;
    } else {
      checks := checks + Skipped([TraceIndexExists, TraceChunksExist, TraceChunkHashes, EventChainIntegrity,
          EventChainTip]);
    }
    checks := checks + [SignatureCheck(env, dir)];
  }
}
