// The content-addressed store as one caller sees it: looking a blob up, re-hashing it, storing one.
module BlobStore {
  import opened Common
  import opened Hex

  /** A directory entry at a blob path. `data` is None when opening or reading it fails. */
  datatype Node = Node(regular: bool, data: Option<Bytes>, size: nat, mtime: Option<int>)

  type Files = map<BlobPath, Node>

  ghost predicate HashOk(hash: Bytes -> Digest) { forall x :: IsDigest(hash(x)) }

  function Lookup(files: Files, d: Digest): Option<Node>
    requires IsDigest(d)
  {
    if PathOf(d) in files then Some(files[PathOf(d)]) else None
  }

  function ReadBlob(files: Files, d: Digest): Option<Bytes>
    requires IsDigest(d)
  {
    if PathOf(d) in files then files[PathOf(d)].data else None
  }

  datatype VerifyResult = Intact | Missing | Corrupted(expected: Digest, actual: Digest) | ReadError

  /** What re-hashing the blob of `d` finds. */
  function VerifyBlob(hash: Bytes -> Digest, files: Files, d: Digest): VerifyResult
    requires IsDigest(d)
  {
    match Lookup(files, d)
    case None => Missing
    case Some(node) =>
      if node.data.None? then ReadError
      else if hash(node.data.value) == d then Intact
      else Corrupted(d, hash(node.data.value))
  }

  /** The steps of a `store` that can fail: removing a bad blob and cleaning up do not end it, the others do. */
  datatype Fault =
    | CreateFails | CopyFails(chunk: nat) | SyncFails | DirectoryFails | RemoveFails | ModeFails | RenameFails
    | CleanupFails

  predicate CopyStops(faults: set<Fault>, n: nat) { exists i :: 0 <= i < n && CopyFails(i) in faults }

  /** The call fails before it looks for an existing blob. */
  predicate FailsEarly(faults: set<Fault>, n: nat) {
    CreateFails in faults || CopyStops(faults, n) || SyncFails in faults || DirectoryFails in faults
  }

  /** It fails while publishing. */
  predicate FailsLate(faults: set<Fault>) { ModeFails in faults || RenameFails in faults }

  class CasStore {
    const hash: Bytes -> Digest
    var files: Files
    var temps: map<nat, Bytes>

    constructor (hash: Bytes -> Digest, files: Files)
      ensures this.hash == hash && this.files == files && temps == map[]
    {
      this.hash, this.files, this.temps := hash, files, map[];
    }

    /** Hashes in pieces; the digest is that of the whole content. */
    method Rehash(content: Bytes) returns (d: Digest)
      ensures d == hash(content)
    {
      var fed: Bytes := [];
      while |fed| < |content|
        invariant |fed| <= |content| && fed == content[..|fed|]
      {
        var n := if |content| - |fed| < 65536 then |content| - |fed| else 65536;
        fed := fed + content[|fed|..|fed| + n];
      }
      assert content[..|content|] == content;
      d := hash(fed);
    }

    method Verify(d: Digest) returns (r: VerifyResult)
      requires IsDigest(d)
      ensures r == VerifyBlob(hash, files, d)
    {
      if PathOf(d) !in files { return Missing; }
      var node := files[PathOf(d)];
      if node.data.None? { return ReadError; }
      var actual := Rehash(node.data.value);
      r := if actual == d then Intact else Corrupted(d, actual);
    }

    /** Appends the chunks to the temporary file one by one, until one of them fails. */
    method Copy(reader: seq<Bytes>, tmp: nat, faults: set<Fault>) returns (ok: bool)
      requires tmp in temps && temps[tmp] == []
      modifies this`temps
      ensures tmp in temps && temps - {tmp} == old(temps) - {tmp}
      ensures ok <==> !CopyStops(faults, |reader|)
      ensures temps[tmp] <= Flatten(reader) && (ok ==> temps[tmp] == Flatten(reader))
    {
      for i := 0 to |reader|
        invariant tmp in temps && temps - {tmp} == old(temps) - {tmp} && temps[tmp] == Flatten(reader[..i])
        invariant !CopyStops(faults, i)
      {
        if CopyFails(i) in faults {
          assert reader == reader[..i] + reader[i..];
          FlattenAppend(reader[..i], reader[i..]);
          return false;
        }
        temps := temps[tmp := temps[tmp] + reader[i]];
        assert reader[..i + 1] == reader[..i] + [reader[i]];
        FlattenAppend(reader[..i], [reader[i]]);
        FlattenOne(reader[i]);
      }
      assert reader[..|reader|] == reader;
      ok := true;
    }

    /** Best effort: the temporary file stays when its removal fails. */
    method Cleanup(tmp: nat, faults: set<Fault>)
      modifies this`temps
      ensures temps == if CleanupFails in faults then old(temps) else old(temps) - {tmp}
    {
      if CleanupFails !in faults { temps := temps - {tmp}; }
    }

    /**
     * One `store` on its own, with any of its steps failing. It returns a hash exactly when none of the steps
     * it needs fails. Then, whatever stood at the blob's path before, corrupted, unreadable or nothing, the
     * blob verifies, hash and size are those of the data read, an intact blob is left alone and nothing else
     * changed; a bad blob that cannot be removed is replaced all the same. When it fails, at most a bad blob
     * of the same name is gone. A temporary file stays behind only if its mode could not be set or its
     * removal failed, and it holds a beginning of the data. `tmp` is its fresh name.
     */
    method Store(reader: seq<Bytes>, tmp: nat, now: int, faults: set<Fault>) returns (r: Option<(Digest, nat)>)
      requires HashOk(hash) && tmp !in temps
      modifies this
      ensures var d, data := hash(Flatten(reader)), Flatten(reader);
              var wasIntact := VerifyBlob(hash, old(files), d) == Intact;
              && (r.Some? <==> !FailsEarly(faults, |reader|) && (wasIntact || !FailsLate(faults)))
              && (r.Some? ==>
                    && r.value == (d, |data|) && VerifyBlob(hash, files, d) == Intact
                    && files == if wasIntact then old(files)
                                else old(files)[PathOf(d) := Node(true, Some(data), |data|, Some(now))])
              && (r.None? ==>
                    files == if FailsEarly(faults, |reader|) || RemoveFails in faults then old(files)
                             else old(files) - {PathOf(d)})
      ensures temps == old(temps) || (tmp in temps && temps[tmp] <= Flatten(reader) && temps - {tmp} == old(temps))
      ensures tmp in temps ==> CleanupFails in faults || (r.None? && ModeFails in faults)
    {
      if CreateFails in faults { return None; }
      temps := temps[tmp := []];
      var copied := Copy(reader, tmp, faults);
      assert temps - {tmp} == old(temps);
      if !copied || SyncFails in faults || DirectoryFails in faults {
        Cleanup(tmp, faults);
        return None;
      }
      var fed, size := temps[tmp], |temps[tmp]|;
      var d := hash(fed);
      var existing := Verify(d);
      if existing == Intact {
        Cleanup(tmp, faults);
        return Some((d, size));
      }
      if existing != Missing && RemoveFails !in faults { files := files - {PathOf(d)}; }
      assert RemoveFails !in faults ==> files == old(files) - {PathOf(d)};
      if ModeFails in faults { return None; }
      if RenameFails in faults {
        Cleanup(tmp, faults);
        return None;
      }
      files := files[PathOf(d) := Node(true, Some(temps[tmp]), size, Some(now))];
      temps := temps - {tmp};
      r := Some((d, size));
    }
  }

  /** Storing twice is storing once. */
  method StoreTwice(cas: CasStore, reader: seq<Bytes>, again: seq<Bytes>, tmp: nat, t1: int, t2: int)
    returns (first: Option<(Digest, nat)>, second: Option<(Digest, nat)>)
    requires HashOk(cas.hash) && tmp !in cas.temps && Flatten(reader) == Flatten(again)
    modifies cas
    ensures first == second == Some((cas.hash(Flatten(reader)), |Flatten(reader)|))
    ensures var d := cas.hash(Flatten(reader));
            cas.files == if VerifyBlob(cas.hash, old(cas.files), d) == Intact then old(cas.files)
                         else old(cas.files)[PathOf(d) := Node(true, Some(Flatten(reader)), |Flatten(reader)|,
                             Some(t1))]
  {
    first := cas.Store(reader, tmp, t1, {});
    second := cas.Store(again, tmp, t2, {});
  }
}
