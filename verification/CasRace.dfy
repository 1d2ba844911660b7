// Concurrent writers of the content-addressed store. Every `store` call is a sequence of atomic
// file-system steps; calls interleave freely, may fail or crash between any two steps, and old
// temporary files may be cleaned away under them at any time.
module CasRace {
  import opened Common

  datatype Path = Temp(writer: nat) | Blob(digest: Digest)

  type FileSystem = map<Path, Bytes>

  datatype Pc =
    | Ready
    | Writing(chunksDone: nat)
    | Hashed
    | Probed(exists_: bool)
    | Judged(intact: bool)
    | Cleared
    | Returned
    | Gone

  /** One `store` call and the chunks its reader delivers. */
  datatype Writer = Writer(chunks: seq<Bytes>, pc: Pc)

  datatype State = State(fs: FileSystem, writers: map<nat, Writer>)

  /** `ioFails` makes the read of an existing blob, or the removal of a bad one, fail. */
  datatype Action =
    | Step(writer: nat, ioFails: bool)
    | Abort(writer: nat, cleanup: bool)
    | CleanTemp(writer: nat)

  function DigestOf(hash: Bytes -> Digest, w: Writer): Digest { hash(Flatten(w.chunks)) }

  function Move(s: State, w: nat, pc: Pc): State
    requires w in s.writers
  {
    s.(writers := s.writers[w := s.writers[w].(pc := pc)])
  }

  /** `rename`, replacing the target; it fails when the temporary file is gone. */
  function Publish(hash: Bytes -> Digest, s: State, w: nat): State
    requires w in s.writers
  {
    if Temp(w) in s.fs then
      var content := s.fs[Temp(w)];
      Move(s, w, Returned).(fs := (s.fs - {Temp(w)})[Blob(DigestOf(hash, s.writers[w])) := content])
    else Move(s, w, Gone)
  }

  function StepWriter(hash: Bytes -> Digest, s: State, w: nat, ioFails: bool): State
    requires w in s.writers
  {
    var target := Blob(DigestOf(hash, s.writers[w]));
    match s.writers[w].pc
    case Ready => Move(s, w, Writing(0)).(fs := s.fs[Temp(w) := []])
    case Writing(k) =>
      if k >= |s.writers[w].chunks| then Move(s, w, Hashed)
      else if Temp(w) in s.fs then
        Move(s, w, Writing(k + 1)).(fs := s.fs[Temp(w) := s.fs[Temp(w)] + s.writers[w].chunks[k]])
      else Move(s, w, Writing(k + 1))
    case Hashed => Move(s, w, Probed(target in s.fs))
    case Probed(there) =>
      if there then Move(s, w, Judged(!ioFails && target in s.fs && hash(s.fs[target]) == target.digest))
      else Publish(hash, s, w)
    case Judged(intact) =>
      if intact then Move(s, w, Returned).(fs := s.fs - {Temp(w)})
      else Move(s, w, Cleared).(fs := if ioFails then s.fs else s.fs - {target})
    case Cleared => Publish(hash, s, w)
    case Returned => s
    case Gone => s
  }

  function Next(hash: Bytes -> Digest, s: State, a: Action): State {
    match a
    case Step(w, ioFails) => if w in s.writers then StepWriter(hash, s, w, ioFails) else s
    case Abort(w, cleanup) =>
      if w in s.writers && s.writers[w].pc != Returned then
        Move(s, w, Gone).(fs := if cleanup then s.fs - {Temp(w)} else s.fs)
      else s
    case CleanTemp(w) => s.(fs := s.fs - {Temp(w)})
  }

  function Run(hash: Bytes -> Digest, s: State, actions: seq<Action>): State
    decreases |actions|
  {
    if actions == [] then s else Run(hash, Next(hash, s, actions[0]), actions[1..])
  }

  /** No call has started and no temporary file of theirs is there; the blobs may be anything. */
  predicate Initial(s: State) {
    forall w :: w in s.writers ==> s.writers[w].pc == Ready && Temp(w) !in s.fs
  }

  // ---- A blob is never published wrong ----

  /** How much of its data a writer's temporary file holds. */
  predicate TempInStep(s: State, w: nat) {
    w in s.writers && Temp(w) in s.fs ==>
      match s.writers[w].pc
      case Ready => false
      case Writing(k) => k <= |s.writers[w].chunks| && s.fs[Temp(w)] == Flatten(s.writers[w].chunks[..k])
      case Returned => true
      case Gone => true
      case _ => s.fs[Temp(w)] == Flatten(s.writers[w].chunks)
  }

  ghost predicate TempsInStep(s: State) { forall w :: TempInStep(s, w) }

  /** Every blob is what it was at the start, or hashes to its name. */
  ghost predicate Sound(hash: Bytes -> Digest, start: FileSystem, fs: FileSystem) {
    forall d :: Blob(d) in fs ==> hash(fs[Blob(d)]) == d || (Blob(d) in start && fs[Blob(d)] == start[Blob(d)])
  }

  lemma ChunkAppended(chunks: seq<Bytes>, k: nat)
    requires k < |chunks|
    ensures Flatten(chunks[..k + 1]) == Flatten(chunks[..k]) + chunks[k]
  {
    assert chunks[..k + 1] == chunks[..k] + [chunks[k]];
    FlattenAppend(chunks[..k], [chunks[k]]);
    FlattenOne(chunks[k]);
  }

  /** A step changes no other writer's temporary file. */
  lemma OnlyOwnTemp(hash: Bytes -> Digest, s: State, w: nat, ioFails: bool, v: nat)
    requires w in s.writers && v != w
    ensures var s' := StepWriter(hash, s, w, ioFails);
            && (Temp(v) in s'.fs <==> Temp(v) in s.fs)
            && (Temp(v) in s.fs ==> s'.fs[Temp(v)] == s.fs[Temp(v)])
            && (v in s'.writers <==> v in s.writers)
            && (v in s.writers ==> s'.writers[v] == s.writers[v])
  {
  }

  lemma OwnTemp(hash: Bytes -> Digest, s: State, w: nat, ioFails: bool)
    requires w in s.writers && TempInStep(s, w)
    ensures TempInStep(StepWriter(hash, s, w, ioFails), w)
  {
    var chunks := s.writers[w].chunks;
    match s.writers[w].pc
    case Writing(k) =>
      if k < |chunks| { ChunkAppended(chunks, k); } else { assert chunks[..|chunks|] == chunks; }
    case _ =>
  }

  lemma NextKeepsTemps(hash: Bytes -> Digest, s: State, a: Action)
    requires TempsInStep(s)
    ensures TempsInStep(Next(hash, s, a))
  {
    forall v ensures TempInStep(Next(hash, s, a), v) {
      assert TempInStep(s, v);
      if a.Step? && a.writer in s.writers {
        if v == a.writer { OwnTemp(hash, s, v, a.ioFails); } else { OnlyOwnTemp(hash, s, a.writer, a.ioFails, v); }
      }
    }
  }

  lemma PublishIsSound(hash: Bytes -> Digest, start: FileSystem, s: State, w: nat)
    requires w in s.writers && Sound(hash, start, s.fs)
    requires Temp(w) in s.fs ==> s.fs[Temp(w)] == Flatten(s.writers[w].chunks)
    ensures Sound(hash, start, Publish(hash, s, w).fs)
  {
  }

  lemma NextKeepsSound(hash: Bytes -> Digest, start: FileSystem, s: State, a: Action)
    requires TempsInStep(s) && Sound(hash, start, s.fs)
    ensures Sound(hash, start, Next(hash, s, a).fs)
  {
    if a.Step? && a.writer in s.writers {
      assert TempInStep(s, a.writer);
      var pc := s.writers[a.writer].pc;
      if (pc.Probed? && !pc.exists_) || pc.Cleared? { PublishIsSound(hash, start, s, a.writer); }
    }
  }

  /**
   * From any store, corrupted or not, in every interleaving with any failures and crashes: a final path
   * never holds content whose hash differs from its name, unless it is the content it started with.
   */
  lemma {:induction false} NeverPublishedWrong(hash: Bytes -> Digest, start: FileSystem, s: State, actions: seq<Action>)
    requires TempsInStep(s) && Sound(hash, start, s.fs)
    ensures TempsInStep(Run(hash, s, actions)) && Sound(hash, start, Run(hash, s, actions).fs)
    decreases |actions|
  {
    if actions == [] {
    } else {
      NextKeepsTemps(hash, s, actions[0]);
      NextKeepsSound(hash, start, s, actions[0]);
      NeverPublishedWrong(hash, start, Next(hash, s, actions[0]), actions[1..]);
    }
  }

  // ---- Exactly when a stored blob stays ----

  /** The state after the first `i` actions. */
  function At(hash: Bytes -> Digest, s: State, acts: seq<Action>, i: nat): State
    requires i <= |acts|
  {
    Run(hash, s, acts[..i])
  }

  ghost predicate IntactIn(hash: Bytes -> Digest, fs: FileSystem, d: Digest) {
    Blob(d) in fs ==> hash(fs[Blob(d)]) == d
  }

  predicate WriterOf(hash: Bytes -> Digest, s: State, w: nat, d: Digest) {
    w in s.writers && DigestOf(hash, s.writers[w]) == d
  }

  /** Writer `w` found the blob of `d` there and cannot read it. */
  predicate ReadFails(hash: Bytes -> Digest, s: State, a: Action, w: nat, d: Digest) {
    a == Step(w, true) && WriterOf(hash, s, w, d) && s.writers[w].pc == Probed(true)
  }

  /** Writer `w` takes the blob of `d` for corrupted and removes it. */
  predicate Removes(hash: Bytes -> Digest, s: State, a: Action, w: nat, d: Digest) {
    a == Step(w, false) && WriterOf(hash, s, w, d) && s.writers[w].pc == Judged(false)
  }

  ghost predicate ReadFailed(hash: Bytes -> Digest, s: State, acts: seq<Action>, w: nat, d: Digest, n: nat)
    requires n <= |acts|
  {
    exists j :: 0 <= j < n && ReadFails(hash, At(hash, s, acts, j), acts[j], w, d)
  }

  ghost predicate RemovedAfterFailedRead(hash: Bytes -> Digest, s: State, acts: seq<Action>, d: Digest) {
    exists i, w ::
      0 <= i < |acts| && Removes(hash, At(hash, s, acts, i), acts[i], w, d) && ReadFailed(hash, s, acts, w, d, i)
  }

  ghost predicate LostAt(hash: Bytes -> Digest, s: State, acts: seq<Action>, d: Digest, i: nat)
    requires i < |acts|
  {
    Blob(d) in At(hash, s, acts, i).fs && Blob(d) !in At(hash, s, acts, i + 1).fs
  }

  ghost predicate Lost(hash: Bytes -> Digest, s: State, acts: seq<Action>, d: Digest, n: nat)
    requires n <= |acts|
  {
    exists i :: 0 <= i < n && LostAt(hash, s, acts, d, i)
  }

  /** What the writers of `d` have seen or made is there; one that is about to remove it had a failed read. */
  ghost predicate Accounted(hash: Bytes -> Digest, s: State, acts: seq<Action>, d: Digest, n: nat, w: nat)
    requires n <= |acts|
  {
    var now := At(hash, s, acts, n);
    WriterOf(hash, now, w, d) ==>
      match now.writers[w].pc
      case Probed(there) => there ==> Blob(d) in now.fs
      case Judged(intact) => Blob(d) in now.fs && (!intact ==> ReadFailed(hash, s, acts, w, d, n))
      case Returned => Blob(d) in now.fs
      case _ => true
  }

  ghost predicate AllAccounted(hash: Bytes -> Digest, s: State, acts: seq<Action>, d: Digest, n: nat)
    requires n <= |acts|
  {
    forall w :: Accounted(hash, s, acts, d, n, w)
  }

  /** Nothing but a removal takes a blob away. */
  lemma OnlyRemovalLoses(hash: Bytes -> Digest, s: State, a: Action, d: Digest)
    requires Blob(d) in s.fs
    ensures Blob(d) !in Next(hash, s, a).fs <==> exists w :: Removes(hash, s, a, w, d)
  {
    if Blob(d) !in Next(hash, s, a).fs {
      assert Removes(hash, s, a, a.writer, d);
    }
  }

  /** One writer over one of its own steps, or an end of its call, that does not lose the blob. */
  lemma OwnStepAccounted(hash: Bytes -> Digest, s: State, a: Action, w: nat, d: Digest)
    requires a.writer == w && IntactIn(hash, s.fs, d) && WriterOf(hash, s, w, d)
    requires Blob(d) in s.fs ==> Blob(d) in Next(hash, s, a).fs
    ensures var s' := Next(hash, s, a);
            && WriterOf(hash, s', w, d)
            && (s'.writers[w].pc != s.writers[w].pc ==>
                  match s'.writers[w].pc
                  case Probed(there) => there ==> Blob(d) in s'.fs
                  case Judged(intact) =>
                    (Blob(d) in s.fs ==> !intact ==> ReadFails(hash, s, a, w, d)) && s.writers[w].pc == Probed(true)
                  case Returned => s.writers[w].pc == Judged(true) || Blob(d) in s'.fs
                  case _ => true)
  {
  }

  lemma OthersUnmoved(hash: Bytes -> Digest, s: State, a: Action, w: nat)
    requires a.writer != w && w in s.writers
    ensures w in Next(hash, s, a).writers && Next(hash, s, a).writers[w] == s.writers[w]
  {
    if a.Step? && a.writer in s.writers { OnlyOwnTemp(hash, s, a.writer, a.ioFails, w); }
  }

  lemma AccountedStep(hash: Bytes -> Digest, s: State, acts: seq<Action>, d: Digest, n: nat, w: nat)
    requires n < |acts| && Accounted(hash, s, acts, d, n, w) && !LostAt(hash, s, acts, d, n)
    requires IntactIn(hash, At(hash, s, acts, n).fs, d)
    ensures Accounted(hash, s, acts, d, n + 1, w)
  {
    RunOneMore(hash, s, acts, n);
    var now, next := At(hash, s, acts, n), At(hash, s, acts, n + 1);
    if WriterOf(hash, next, w, d) {
      SameWriter(hash, now, acts[n], w);
      if acts[n].writer == w {
        OwnStepAccounted(hash, now, acts[n], w, d);
      } else {
        OthersUnmoved(hash, now, acts[n], w);
      }
    }
  }

  lemma SameWriter(hash: Bytes -> Digest, s: State, a: Action, w: nat)
    ensures w in Next(hash, s, a).writers <==> w in s.writers
    ensures w in s.writers ==> Next(hash, s, a).writers[w].chunks == s.writers[w].chunks
  {
  }

  lemma IntactAlong(hash: Bytes -> Digest, s: State, acts: seq<Action>, d: Digest, n: nat)
    requires Initial(s) && IntactIn(hash, s.fs, d) && n <= |acts|
    ensures IntactIn(hash, At(hash, s, acts, n).fs, d)
  {
    NeverPublishedWrong(hash, s.fs, s, acts[..n]);
  }

  /** Until the blob of `d` is lost for the first time, every writer of `d` is accounted for. */
  lemma {:induction false} AccountedUntilLost(hash: Bytes -> Digest, s: State, acts: seq<Action>, d: Digest, n: nat)
    requires Initial(s) && IntactIn(hash, s.fs, d) && n <= |acts| && !Lost(hash, s, acts, d, n)
    ensures AllAccounted(hash, s, acts, d, n)
  {
    if n == 0 {
      assert acts[..0] == [];
    } else {
      AccountedUntilLost(hash, s, acts, d, n - 1);
      IntactAlong(hash, s, acts, d, n - 1);
      forall w ensures Accounted(hash, s, acts, d, n, w) {
        assert Accounted(hash, s, acts, d, n - 1, w);
        AccountedStep(hash, s, acts, d, n - 1, w);
      }
    }
  }

  lemma {:induction false} FirstLoss(hash: Bytes -> Digest, s: State, acts: seq<Action>, d: Digest, n: nat)
    returns (i: nat)
    requires n <= |acts| && Lost(hash, s, acts, d, n)
    ensures i < n && LostAt(hash, s, acts, d, i) && !Lost(hash, s, acts, d, i)
  {
    if Lost(hash, s, acts, d, n - 1) {
      i := FirstLoss(hash, s, acts, d, n - 1);
    } else {
      i := n - 1;
    }
  }

  /**
   * Whatever else fails or crashes, a blob that was not corrupted at the start is lost at some point of a
   * run if and only if a writer of the same content failed to read it and then went on to remove it.
   */
  lemma BlobLostExactly(hash: Bytes -> Digest, s: State, acts: seq<Action>, d: Digest)
    requires Initial(s) && IntactIn(hash, s.fs, d)
    ensures Lost(hash, s, acts, d, |acts|) <==> RemovedAfterFailedRead(hash, s, acts, d)
  {
    if Lost(hash, s, acts, d, |acts|) {
      LossHasCause(hash, s, acts, d);
    }
    if RemovedAfterFailedRead(hash, s, acts, d) {
      var i, w :| 0 <= i < |acts| && Removes(hash, At(hash, s, acts, i), acts[i], w, d);
      RemovalLoses(hash, s, acts, d, i, w);
    }
  }

  lemma RemovalLoses(hash: Bytes -> Digest, s: State, acts: seq<Action>, d: Digest, i: nat, w: nat)
    requires Initial(s) && IntactIn(hash, s.fs, d)
    requires i < |acts| && Removes(hash, At(hash, s, acts, i), acts[i], w, d)
    ensures Lost(hash, s, acts, d, |acts|)
  {
    if !Lost(hash, s, acts, d, i) {
      AccountedUntilLost(hash, s, acts, d, i);
      assert Accounted(hash, s, acts, d, i, w);
      RunOneMore(hash, s, acts, i);
      OnlyRemovalLoses(hash, At(hash, s, acts, i), acts[i], d);
      assert LostAt(hash, s, acts, d, i);
    }
  }

  lemma LossHasCause(hash: Bytes -> Digest, s: State, acts: seq<Action>, d: Digest)
    requires Initial(s) && IntactIn(hash, s.fs, d) && Lost(hash, s, acts, d, |acts|)
    ensures RemovedAfterFailedRead(hash, s, acts, d)
  {
    var i := FirstLoss(hash, s, acts, d, |acts|);
    AccountedUntilLost(hash, s, acts, d, i);
    RunOneMore(hash, s, acts, i);
    OnlyRemovalLoses(hash, At(hash, s, acts, i), acts[i], d);
    var w :| Removes(hash, At(hash, s, acts, i), acts[i], w, d);
    assert Accounted(hash, s, acts, d, i, w);
  }

  lemma {:induction false} StaysUntilLost(hash: Bytes -> Digest, s: State, acts: seq<Action>, d: Digest, m: nat, n: nat)
    requires m <= n <= |acts| && !Lost(hash, s, acts, d, n) && Blob(d) in At(hash, s, acts, m).fs
    ensures Blob(d) in At(hash, s, acts, n).fs
    decreases n - m
  {
    if m < n {
      assert !LostAt(hash, s, acts, d, m);
      StaysUntilLost(hash, s, acts, d, m + 1, n);
    }
  }

  /**
   * A blob that is there, or that a returned `store` call named, is there and correct at every later
   * point, unless a writer of the same content fails to read it and then removes it.
   */
  lemma StoredBlobsStay(hash: Bytes -> Digest, s: State, acts: seq<Action>, d: Digest, m: nat, w: nat)
    requires Initial(s) && IntactIn(hash, s.fs, d) && m <= |acts| && !RemovedAfterFailedRead(hash, s, acts, d)
    requires var mid := At(hash, s, acts, m);
             Blob(d) in mid.fs || (WriterOf(hash, mid, w, d) && mid.writers[w].pc == Returned)
    ensures var end := Run(hash, s, acts); Blob(d) in end.fs && hash(end.fs[Blob(d)]) == d
  {
    assert acts[..|acts|] == acts;
    BlobLostExactly(hash, s, acts, d);
    assert !Lost(hash, s, acts, d, m);
    AccountedUntilLost(hash, s, acts, d, m);
    assert Accounted(hash, s, acts, d, m, w);
    StaysUntilLost(hash, s, acts, d, m, |acts|);
    IntactAlong(hash, s, acts, d, |acts|);
  }

  /** Both results for a whole run, any store to start from, and any point `m` of it. */
  lemma EveryInterleaving(hash: Bytes -> Digest, s: State, acts: seq<Action>, m: nat)
    requires Initial(s) && m <= |acts|
    ensures Sound(hash, s.fs, Run(hash, s, acts).fs)
    ensures var mid, end := At(hash, s, acts, m), Run(hash, s, acts);
            forall w :: w in mid.writers && mid.writers[w].pc == Returned ==>
              var d := DigestOf(hash, mid.writers[w]);
              IntactIn(hash, s.fs, d) && !RemovedAfterFailedRead(hash, s, acts, d) ==>
                Blob(d) in end.fs && hash(end.fs[Blob(d)]) == d
  {
    NeverPublishedWrong(hash, s.fs, s, acts);
    var mid := At(hash, s, acts, m);
    forall w | w in mid.writers && mid.writers[w].pc == Returned
      ensures var d, end := DigestOf(hash, mid.writers[w]), Run(hash, s, acts);
              IntactIn(hash, s.fs, d) && !RemovedAfterFailedRead(hash, s, acts, d) ==>
                Blob(d) in end.fs && hash(end.fs[Blob(d)]) == d
    {
      var d := DigestOf(hash, mid.writers[w]);
      if IntactIn(hash, s.fs, d) && !RemovedAfterFailedRead(hash, s, acts, d) {
        StoredBlobsStay(hash, s, acts, d, m, w);
      }
    }
  }

  // ---- Any store: exactly when what a call returned is there ----

  predicate Stored(hash: Bytes -> Digest, fs: FileSystem, d: Digest) { Blob(d) in fs && hash(fs[Blob(d)]) == d }

  /** Writer `u` renames its temporary file to the blob of `d`. */
  predicate Publishes(hash: Bytes -> Digest, s: State, a: Action, u: nat, d: Digest) {
    && a.Step? && a.writer == u && WriterOf(hash, s, u, d) && Temp(u) in s.fs
    && (s.writers[u].pc == Probed(false) || s.writers[u].pc == Cleared)
  }

  /** Up to `n`, the blob of `d` was removed by some call, and no call has put it back since. */
  ghost predicate RemovedForGood(hash: Bytes -> Digest, s: State, acts: seq<Action>, d: Digest, n: nat)
    requires n <= |acts|
  {
    exists j, v ::
      0 <= j < n && Removes(hash, At(hash, s, acts, j), acts[j], v, d) && NotPutBack(hash, s, acts, d, j + 1, n)
  }

  ghost predicate NotPutBack(hash: Bytes -> Digest, s: State, acts: seq<Action>, d: Digest, m: nat, n: nat)
    requires m <= n <= |acts|
  {
    forall k, u :: m <= k < n ==> !Publishes(hash, At(hash, s, acts, k), acts[k], u, d)
  }

  /** Some call of `d` has returned, or trusts the blob and is about to. */
  predicate Settled(hash: Bytes -> Digest, s: State, w: nat, d: Digest) {
    WriterOf(hash, s, w, d) && (s.writers[w].pc == Returned || s.writers[w].pc == Judged(true))
  }

  lemma PublishStores(hash: Bytes -> Digest, s: State, a: Action, u: nat, d: Digest)
    requires Publishes(hash, s, a, u, d) && TempInStep(s, u)
    ensures Stored(hash, Next(hash, s, a).fs, d)
  {
  }

  /** A stored blob stays, unless this action removes it; what publishes over it is as good. */
  lemma StoredOrRemoved(hash: Bytes -> Digest, s: State, a: Action, d: Digest)
    requires Stored(hash, s.fs, d) && TempInStep(s, a.writer)
    ensures Stored(hash, Next(hash, s, a).fs, d) || Removes(hash, s, a, a.writer, d)
  {
    if a.Step? && a.writer in s.writers && Publishes(hash, s, a, a.writer, d) {
      PublishStores(hash, s, a, a.writer, d);
    }
  }

  /** A call becomes settled by reading the blob good or by publishing it. */
  lemma NewlySettled(hash: Bytes -> Digest, s: State, a: Action, w: nat, d: Digest)
    requires !Settled(hash, s, w, d) && Settled(hash, Next(hash, s, a), w, d) && TempInStep(s, w)
    ensures Stored(hash, Next(hash, s, a).fs, d)
  {
    SameWriter(hash, s, a, w);
    if a.writer == w {
      if Publishes(hash, s, a, w, d) { PublishStores(hash, s, a, w, d); }
    } else {
      OthersUnmoved(hash, s, a, w);
    }
  }

  lemma {:induction false} TempsAlong(hash: Bytes -> Digest, s: State, acts: seq<Action>, n: nat)
    requires Initial(s) && n <= |acts|
    ensures TempsInStep(At(hash, s, acts, n))
  {
    NeverPublishedWrong(hash, s.fs, s, acts[..n]);
  }

  lemma RemovedStep(hash: Bytes -> Digest, s: State, acts: seq<Action>, d: Digest, n: nat)
    requires n < |acts| && TempsInStep(At(hash, s, acts, n)) && RemovedForGood(hash, s, acts, d, n)
    ensures RemovedForGood(hash, s, acts, d, n + 1) || Stored(hash, At(hash, s, acts, n + 1).fs, d)
  {
    var now := At(hash, s, acts, n);
    RunOneMore(hash, s, acts, n);
    var j, v :|
      0 <= j < n && Removes(hash, At(hash, s, acts, j), acts[j], v, d) && NotPutBack(hash, s, acts, d, j + 1, n);
    if Publishes(hash, now, acts[n], acts[n].writer, d) {
      assert TempInStep(now, acts[n].writer);
      PublishStores(hash, now, acts[n], acts[n].writer, d);
    } else {
      assert NotPutBack(hash, s, acts, d, j + 1, n + 1);
    }
  }

  lemma StoredStep(hash: Bytes -> Digest, s: State, acts: seq<Action>, d: Digest, n: nat)
    requires n < |acts| && TempsInStep(At(hash, s, acts, n)) && Stored(hash, At(hash, s, acts, n).fs, d)
    ensures RemovedForGood(hash, s, acts, d, n + 1) || Stored(hash, At(hash, s, acts, n + 1).fs, d)
  {
    var now := At(hash, s, acts, n);
    RunOneMore(hash, s, acts, n);
    assert TempInStep(now, acts[n].writer);
    StoredOrRemoved(hash, now, acts[n], d);
    if Removes(hash, now, acts[n], acts[n].writer, d) {
      assert NotPutBack(hash, s, acts, d, n + 1, n + 1);
    }
  }

  /** Once a call of `d` is settled, its blob is good or has been removed for good. */
  lemma {:induction false} SettledIsStored(hash: Bytes -> Digest, s: State, acts: seq<Action>, d: Digest, n: nat,
      w: nat)
    requires Initial(s) && n <= |acts| && Settled(hash, At(hash, s, acts, n), w, d)
    ensures Stored(hash, At(hash, s, acts, n).fs, d) || RemovedForGood(hash, s, acts, d, n)
  {
    if n == 0 {
    } else {
      var before := At(hash, s, acts, n - 1);
      TempsAlong(hash, s, acts, n - 1);
      if Settled(hash, before, w, d) {
        SettledIsStored(hash, s, acts, d, n - 1, w);
        if Stored(hash, before.fs, d) {
          StoredStep(hash, s, acts, d, n - 1);
        } else {
          RemovedStep(hash, s, acts, d, n - 1);
        }
      } else {
        RunOneMore(hash, s, acts, n - 1);
        assert TempInStep(before, w);
        NewlySettled(hash, before, acts[n - 1], w, d);
      }
    }
  }

  /** Nothing but publishing brings a blob into being. */
  lemma AbsentUntilPublished(hash: Bytes -> Digest, s: State, a: Action, d: Digest)
    requires Blob(d) !in s.fs && Blob(d) in Next(hash, s, a).fs
    ensures Publishes(hash, s, a, a.writer, d)
  {
  }

  lemma {:induction false} StaysAway(hash: Bytes -> Digest, s: State, acts: seq<Action>, d: Digest, m: nat, n: nat)
    requires m <= n <= |acts| && Blob(d) !in At(hash, s, acts, m).fs && NotPutBack(hash, s, acts, d, m, n)
    ensures Blob(d) !in At(hash, s, acts, n).fs
    decreases n - m
  {
    if m == n {
    } else {
      RunOneMore(hash, s, acts, m);
      if Blob(d) in At(hash, s, acts, m + 1).fs {
        AbsentUntilPublished(hash, At(hash, s, acts, m), acts[m], d);
      }
      StaysAway(hash, s, acts, d, m + 1, n);
    }
  }

  /**
   * From any store, corrupted or not, with any failures and crashes: what a returned call named is there and
   * correct at the end if and only if no call removed it without any call putting it back afterwards.
   */
  lemma ReturnedIsStoredExactly(hash: Bytes -> Digest, s: State, acts: seq<Action>, w: nat)
    requires Initial(s)
    requires var end := Run(hash, s, acts); w in end.writers && end.writers[w].pc == Returned
    ensures var end := Run(hash, s, acts);
            var d := DigestOf(hash, end.writers[w]);
            Stored(hash, end.fs, d) <==> !RemovedForGood(hash, s, acts, d, |acts|)
  {
    assert acts[..|acts|] == acts;
    var d := DigestOf(hash, Run(hash, s, acts).writers[w]);
    SettledIsStored(hash, s, acts, d, |acts|, w);
    if RemovedForGood(hash, s, acts, d, |acts|) {
      var j, v :| 0 <= j < |acts| && Removes(hash, At(hash, s, acts, j), acts[j], v, d) &&
                  NotPutBack(hash, s, acts, d, j + 1, |acts|);
      RunOneMore(hash, s, acts, j);
      StaysAway(hash, s, acts, d, j + 1, |acts|);
    }
  }

  /** A call of `d` that had cleared the way for its blob crashes, or has lost its temporary file. */
  predicate Drops(hash: Bytes -> Digest, s: State, a: Action, v: nat, d: Digest) {
    && WriterOf(hash, s, v, d) && s.writers[v].pc == Cleared
    && v in Next(hash, s, a).writers && Next(hash, s, a).writers[v].pc == Gone
  }

  ghost predicate NoneDropped(hash: Bytes -> Digest, s: State, acts: seq<Action>, d: Digest) {
    forall i, v :: 0 <= i < |acts| ==> !Drops(hash, At(hash, s, acts, i), acts[i], v, d)
  }

  predicate Replacing(hash: Bytes -> Digest, s: State, v: nat, d: Digest) {
    WriterOf(hash, s, v, d) && s.writers[v].pc == Cleared
  }

  /** A call that is replacing its blob goes on doing so until it publishes or is dropped. */
  lemma ReplacingStep(hash: Bytes -> Digest, s: State, a: Action, v: nat, d: Digest)
    requires Replacing(hash, s, v, d) && !Drops(hash, s, a, v, d) && !Publishes(hash, s, a, v, d)
    ensures Replacing(hash, Next(hash, s, a), v, d)
  {
    SameWriter(hash, s, a, v);
    if a.writer != v { OthersUnmoved(hash, s, a, v); }
  }

  lemma {:induction false} StillReplacing(hash: Bytes -> Digest, s: State, acts: seq<Action>, d: Digest, m: nat, v: nat)
    requires m <= |acts| && NoneDropped(hash, s, acts, d) && NotPutBack(hash, s, acts, d, m, |acts|)
    requires Replacing(hash, At(hash, s, acts, m), v, d)
    ensures Replacing(hash, At(hash, s, acts, |acts|), v, d)
    decreases |acts| - m
  {
    if m == |acts| {
    } else {
      RunOneMore(hash, s, acts, m);
      assert !Drops(hash, At(hash, s, acts, m), acts[m], v, d);
      ReplacingStep(hash, At(hash, s, acts, m), acts[m], v, d);
      StillReplacing(hash, s, acts, d, m + 1, v);
    }
  }

  /**
   * Repair under concurrency. From any store, whatever fails or crashes elsewhere: as long as no call of this
   * content is cut off between removing the blob and replacing it, the blob of a returned call is there and
   * correct whenever none is in between, in particular once all have finished.
   */
  lemma AllRepaired(hash: Bytes -> Digest, s: State, acts: seq<Action>, w: nat)
    requires Initial(s)
    requires var end := Run(hash, s, acts); w in end.writers && end.writers[w].pc == Returned
    ensures var end := Run(hash, s, acts);
            var d := DigestOf(hash, end.writers[w]);
            NoneDropped(hash, s, acts, d) && (forall v :: !Replacing(hash, end, v, d)) ==> Stored(hash, end.fs, d)
  {
    assert acts[..|acts|] == acts;
    var end := Run(hash, s, acts);
    var d := DigestOf(hash, end.writers[w]);
    ReturnedIsStoredExactly(hash, s, acts, w);
    if NoneDropped(hash, s, acts, d) && RemovedForGood(hash, s, acts, d, |acts|) {
      var j, v :| 0 <= j < |acts| && Removes(hash, At(hash, s, acts, j), acts[j], v, d) &&
                  NotPutBack(hash, s, acts, d, j + 1, |acts|);
      RunOneMore(hash, s, acts, j);
      StillReplacing(hash, s, acts, d, j + 1, v);
      assert Replacing(hash, end, v, d);
    }
  }

  // ---- A call that is let alone finishes ----

  /** Steps a call still has to take, at most. */
  function Remaining(w: Writer): nat {
    match w.pc
    case Ready => |w.chunks| + 6
    case Writing(k) => if k < |w.chunks| then |w.chunks| - k + 5 else 5
    case Hashed => 4
    case Probed(_) => 3
    case Judged(_) => 2
    case Cleared => 1
    case Returned => 0
    case Gone => 0
  }

  /** The call has what it needs to finish: its temporary file, or a blob it has judged good. */
  predicate CanFinish(hash: Bytes -> Digest, s: State, w: nat) {
    && w in s.writers && TempInStep(s, w) && s.writers[w].pc != Gone
    && (s.writers[w].pc == Ready || s.writers[w].pc == Returned || Temp(w) in s.fs)
    && (s.writers[w].pc == Returned || s.writers[w].pc == Judged(true) ==>
          Stored(hash, s.fs, DigestOf(hash, s.writers[w])))
  }

  /** `b` is `a` up to the call's own temporary file and its blob. */
  ghost predicate ElsewhereSame(a: FileSystem, b: FileSystem, w: nat, d: Digest) {
    a - {Temp(w), Blob(d)} == b - {Temp(w), Blob(d)}
  }

  lemma OneStepOn(hash: Bytes -> Digest, s: State, w: nat)
    requires CanFinish(hash, s, w) && s.writers[w].pc != Returned
    ensures var s' := Next(hash, s, Step(w, false));
            && CanFinish(hash, s', w) && s'.writers[w].chunks == s.writers[w].chunks
            && Remaining(s'.writers[w]) < Remaining(s.writers[w])
  {
    OwnTemp(hash, s, w, false);
  }

  lemma OneStepElsewhere(hash: Bytes -> Digest, s: State, w: nat)
    requires w in s.writers
    ensures ElsewhereSame(s.fs, Next(hash, s, Step(w, false)).fs, w, DigestOf(hash, s.writers[w]))
  {
  }

  /** Left alone, a call returns, and its blob is there and correct; no other file has changed. */
  lemma {:induction false} FinishesAlone(hash: Bytes -> Digest, s: State, w: nat) returns (acts: seq<Action>)
    requires CanFinish(hash, s, w)
    ensures forall i :: 0 <= i < |acts| ==> acts[i] == Step(w, false)
    ensures var end, d := Run(hash, s, acts), DigestOf(hash, s.writers[w]);
            && w in end.writers && end.writers[w] == Writer(s.writers[w].chunks, Returned)
            && Stored(hash, end.fs, d) && ElsewhereSame(s.fs, end.fs, w, d)
    decreases Remaining(s.writers[w])
  {
    if s.writers[w].pc == Returned {
      acts := [];
    } else {
      OneStepOn(hash, s, w);
      OneStepElsewhere(hash, s, w);
      var rest := FinishesAlone(hash, Next(hash, s, Step(w, false)), w);
      acts := [Step(w, false)] + rest;
      assert acts[1..] == rest;
    }
  }

  /** From every reachable state, a call that has not lost its temporary file can still finish. */
  lemma CallsCanFinish(hash: Bytes -> Digest, s: State, acts: seq<Action>, w: nat) returns (more: seq<Action>)
    requires Initial(s)
    requires var now := Run(hash, s, acts);
             && w in now.writers && now.writers[w].pc != Gone && now.writers[w].pc != Returned
             && now.writers[w].pc != Judged(true) && (now.writers[w].pc == Ready || Temp(w) in now.fs)
    ensures forall i :: 0 <= i < |more| ==> more[i] == Step(w, false)
    ensures var now, end := Run(hash, s, acts), Run(hash, Run(hash, s, acts), more);
            && w in end.writers && end.writers[w].pc == Returned
            && Stored(hash, end.fs, DigestOf(hash, now.writers[w]))
  {
    TempsAlong(hash, s, acts, |acts|);
    assert acts[..|acts|] == acts;
    assert TempInStep(Run(hash, s, acts), w);
    more := FinishesAlone(hash, Run(hash, s, acts), w);
  }

  // ---- Both ways of losing a blob happen ----

  lemma RunTwo(hash: Bytes -> Digest, s: State, a: Action, b: Action)
    ensures Run(hash, s, [a, b]) == Next(hash, Next(hash, s, a), b)
  {
    assert [a, b][1..] == [b] && [b][1..] == [];
    assert Run(hash, Next(hash, s, a), [b]) == Run(hash, Next(hash, Next(hash, s, a), b), []);
  }

  /** The steps of a call of one chunk up to looking whether its blob is there. */
  function Probing(w: nat): seq<Action> { [Step(w, false), Step(w, false)] + [Step(w, false), Step(w, false)] }

  lemma ProbedThere(hash: Bytes -> Digest, s: State, w: nat, data: Bytes)
    requires w in s.writers && s.writers[w] == Writer([data], Ready) && Blob(hash(data)) in s.fs
    ensures Run(hash, s, Probing(w)) == State(s.fs[Temp(w) := data], s.writers[w := Writer([data], Probed(true))])
  {
    FlattenOne(data);
    var a := Step(w, false);
    var s2 := Next(hash, Next(hash, s, a), a);
    assert s2.fs[Temp(w)] == [] + data == data;
    RunTwo(hash, s, a, a);
    RunTwo(hash, s2, a, a);
    RunAppend(hash, s, [a, a], [a, a]);
  }

  /** A call whose read fails removes its blob. */
  lemma RemovesUnread(hash: Bytes -> Digest, s: State, w: nat, data: Bytes)
    requires w in s.writers && s.writers[w] == Writer([data], Probed(true))
    ensures Run(hash, s, [Step(w, true), Step(w, false)]) ==
              State(s.fs - {Blob(hash(data))}, s.writers[w := Writer([data], Cleared)])
  {
    FlattenOne(data);
    RunTwo(hash, s, Step(w, true), Step(w, false));
    assert Next(hash, s, Step(w, true)) == State(s.fs, s.writers[w := Writer([data], Judged(false))]);
  }

  /**
   * For every hash and every content, a failed read of an intact blob makes a second `store` of the same
   * content remove it, and a crash right there leaves it lost.
   */
  lemma FailedReadLosesBlob(hash: Bytes -> Digest, data: Bytes)
    ensures var s := State(map[Blob(hash(data)) := data], map[0 := Writer([data], Ready)]);
            && Initial(s) && IntactIn(hash, s.fs, hash(data))
            && Blob(hash(data)) !in Run(hash, s, Probing(0) + [Step(0, true), Step(0, false)]).fs
  {
    var s := State(map[Blob(hash(data)) := data], map[0 := Writer([data], Ready)]);
    ProbedThere(hash, s, 0, data);
    RemovesUnread(hash, Run(hash, s, Probing(0)), 0, data);
    RunAppend(hash, s, Probing(0), [Step(0, true), Step(0, false)]);
  }

  /** A call that reads a corrupted blob, and one that has read it so far and replaces it. */
  lemma ReadsBad(hash: Bytes -> Digest, s: State, w: nat, data: Bytes)
    requires w in s.writers && s.writers[w] == Writer([data], Probed(true))
    requires Blob(hash(data)) in s.fs && hash(s.fs[Blob(hash(data))]) != hash(data)
    ensures Next(hash, s, Step(w, false)) == State(s.fs, s.writers[w := Writer([data], Judged(false))])
  {
    FlattenOne(data);
  }

  lemma Replaces(hash: Bytes -> Digest, s: State, w: nat, data: Bytes)
    requires w in s.writers && s.writers[w] == Writer([data], Judged(false)) && Temp(w) in s.fs && s.fs[Temp(w)] == data
    ensures Run(hash, s, [Step(w, false), Step(w, false)]) ==
              State((s.fs - {Temp(w)})[Blob(hash(data)) := data], s.writers[w := Writer([data], Returned)])
  {
    FlattenOne(data);
    RunTwo(hash, s, Step(w, false), Step(w, false));
    assert s.fs - {Blob(hash(data))} - {Temp(w)} == s.fs - {Temp(w)} - {Blob(hash(data))};
  }

  lemma RemovesAndCrashes(hash: Bytes -> Digest, s: State, w: nat, data: Bytes)
    requires w in s.writers && s.writers[w] == Writer([data], Judged(false))
    ensures Run(hash, s, [Step(w, false), Abort(w, true)]) ==
              State(s.fs - {Blob(hash(data))} - {Temp(w)}, s.writers[w := Writer([data], Gone)])
  {
    FlattenOne(data);
    RunTwo(hash, s, Step(w, false), Abort(w, true));
  }

  /** Two calls of `data` that have both found a blob there and read it, with content `bad`. */
  function BothJudgedBad(hash: Bytes -> Digest, data: Bytes, bad: Bytes): State {
    var w := Writer([data], Judged(false));
    State(map[Blob(hash(data)) := bad, Temp(0) := data, Temp(1) := data], map[0 := w, 1 := w])
  }

  lemma BothJudge(hash: Bytes -> Digest, data: Bytes, bad: Bytes)
    requires hash(bad) != hash(data)
    ensures var w := Writer([data], Ready);
            var s := State(map[Blob(hash(data)) := bad], map[0 := w, 1 := w]);
            Run(hash, s, Probing(0) + (Probing(1) + [Step(0, false), Step(1, false)])) == BothJudgedBad(hash, data, bad)
  {
    var w := Writer([data], Ready);
    var s := State(map[Blob(hash(data)) := bad], map[0 := w, 1 := w]);
    ProbedThere(hash, s, 0, data);
    var s1 := Run(hash, s, Probing(0));
    ProbedThere(hash, s1, 1, data);
    var s2 := Run(hash, s1, Probing(1));
    ReadsBad(hash, s2, 0, data);
    var s3 := Next(hash, s2, Step(0, false));
    ReadsBad(hash, s3, 1, data);
    RunTwo(hash, s2, Step(0, false), Step(1, false));
    RunAppend(hash, s, Probing(0), Probing(1) + [Step(0, false), Step(1, false)]);
    RunAppend(hash, s1, Probing(1), [Step(0, false), Step(1, false)]);
  }

  lemma SecondRemoves(hash: Bytes -> Digest, data: Bytes, bad: Bytes)
    ensures var acts := [Step(0, false), Step(0, false)] + [Step(1, false), Abort(1, true)];
            var end := Run(hash, BothJudgedBad(hash, data, bad), acts);
            0 in end.writers && end.writers[0] == Writer([data], Returned) && Blob(hash(data)) !in end.fs
  {
    var s := BothJudgedBad(hash, data, bad);
    var first, second := [Step(0, false), Step(0, false)], [Step(1, false), Abort(1, true)];
    Replaces(hash, s, 0, data);
    RemovesAndCrashes(hash, Run(hash, s, first), 1, data);
    RunAppend(hash, s, first, second);
  }

  /**
   * The other way to lose what a call returned, for every hash, content and corruption, and without a single
   * read failing: two calls judge a corrupted blob bad, the first replaces it and returns, and the second
   * removes the good blob and crashes.
   */
  lemma LateRemovalLosesBlob(hash: Bytes -> Digest, data: Bytes, bad: Bytes)
    requires hash(bad) != hash(data)
    ensures var w := Writer([data], Ready);
            var s := State(map[Blob(hash(data)) := bad], map[0 := w, 1 := w]);
            var acts := Probing(0) + (Probing(1) + [Step(0, false), Step(1, false)]) +
                        ([Step(0, false), Step(0, false)] + [Step(1, false), Abort(1, true)]);
            var end := Run(hash, s, acts);
            && Initial(s)
            && 0 in end.writers && end.writers[0] == Writer([data], Returned) && Blob(hash(data)) !in end.fs
  {
    var w := Writer([data], Ready);
    var s := State(map[Blob(hash(data)) := bad], map[0 := w, 1 := w]);
    BothJudge(hash, data, bad);
    SecondRemoves(hash, data, bad);
    RunAppend(hash, s, Probing(0) + (Probing(1) + [Step(0, false), Step(1, false)]),
              [Step(0, false), Step(0, false)] + [Step(1, false), Abort(1, true)]);
  }

  lemma RunOneMore(hash: Bytes -> Digest, s: State, actions: seq<Action>, i: nat)
    requires i < |actions|
    ensures Run(hash, s, actions[..i + 1]) == Next(hash, Run(hash, s, actions[..i]), actions[i])
  {
    assert actions[..i + 1] == actions[..i] + [actions[i]];
    RunAppend(hash, s, actions[..i], [actions[i]]);
    var s1 := Run(hash, s, actions[..i]);
    assert Run(hash, s1, [actions[i]]) == Run(hash, Next(hash, s1, actions[i]), []);
  }

  lemma RunAppend(hash: Bytes -> Digest, s: State, a: seq<Action>, b: seq<Action>)
    ensures Run(hash, s, a + b) == Run(hash, Run(hash, s, a), b)
    decreases |a|
  {
    if a == [] {
      assert a + b == b;
    } else {
      assert (a + b)[1..] == a[1..] + b;
      RunAppend(hash, Next(hash, s, a[0]), a[1..], b);
    }
  }
}
