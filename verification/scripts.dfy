/**
 * The three entry points, each a run over a ledger file: load it (or start
 * empty), optionally rebuild it from the listing, run the per-key loop, and
 * write it back in a `finally` block, so the file ends up holding the
 * ledger as the loop left it, whether the loop finished or was interrupted.
 */
module Scripts {
  import opened Cache
  import opened StereoConversion
  import opened FusedRetry
  import opened Ledger

  /** The stereo scripts' ledger file. */
  const StereoCacheFile: string := "scripts/annotation/X-STEREO-CONVERT-CACHE.pkl"
  /** The fused-MP4 script's ledger file. */
  const FusedCacheFile: string := "scripts/annotation/X-CONVERT-CACHE.pkl"

  /** The local files the scripts read and write, by path; a file holds a serialized ledger. */
  class Disk {
    var files: map<string, Buckets>

    constructor (files: map<string, Buckets>)
      ensures this.files == files
    {
      this.files := files;
    }
  }

  /** The ledger a run starts from: the file's contents if it exists, else the empty ledger. */
  function Loaded(files: map<string, Buckets>, path: string): Buckets
  {
    if path in files then files[path] else Empty
  }

  /** The ledger after the optional rebuild step. */
  function Indexed(start: Buckets, rebuildCache: bool, pages: seq<seq<Key>>, now: Stamp): Buckets
  {
    if rebuildCache then Admit(start, Listing(pages), now) else start
  }

  /**
   * The full stereo run: load the cache file or start empty, rebuild and
   * write it when `rebuildCache` is set, run the loop over a snapshot of
   * `new`, and write the ledger back to the same file. No other ledger
   * file changes.
   */
  method FullSvoToStereo(disk: Disk, rebuildCache: bool, pages: seq<seq<Key>>, now: Stamp, world: Key -> StereoAnswers)
    returns (nSuccess: nat, nErrored: nat, order: seq<Key>)
    modifies disk
    ensures var indexed := Indexed(Loaded(old(disk.files), StereoCacheFile), rebuildCache, pages, now);
      && Distinct(order) && (forall k :: k in order <==> k in indexed.pending)
      && disk.files == old(disk.files)[StereoCacheFile := Sweep(indexed, New, order, StereoVerdicts(world))]
      && nSuccess == Successes(order, StereoVerdicts(world)) && nErrored == Errors(order, StereoVerdicts(world))
  {
    var ledger := new LedgerState(Loaded(disk.files, StereoCacheFile));
    if rebuildCache {
      ledger.Rebuild(pages, now);
      disk.files := disk.files[StereoCacheFile := ledger.State()];
    }
    nSuccess, nErrored, order := ledger.RunStereo(world);
    disk.files := disk.files[StereoCacheFile := ledger.State()];
  }

  /**
   * The shard run: when the shard file does not exist the run stops before
   * any processing and the disk is untouched; otherwise the loop runs over
   * the shard's `new` and the ledger is written back to the shard's own path.
   */
  method ShardedSvoToStereo(disk: Disk, shard: string, world: Key -> StereoAnswers)
    returns (ran: bool, nSuccess: nat, nErrored: nat, order: seq<Key>)
    modifies disk
    ensures ran <==> shard in old(disk.files)
    ensures !ran ==> disk.files == old(disk.files) && order == []
    ensures ran ==>
      var loaded := old(disk.files)[shard];
      && Distinct(order) && (forall k :: k in order <==> k in loaded.pending)
      && disk.files == old(disk.files)[shard := Sweep(loaded, New, order, StereoVerdicts(world))]
      && nSuccess == Successes(order, StereoVerdicts(world)) && nErrored == Errors(order, StereoVerdicts(world))
  {
    if shard !in disk.files {
      return false, 0, 0, [];
    }
    ran := true;
    var ledger := new LedgerState(disk.files[shard]);
    nSuccess, nErrored, order := ledger.RunStereo(world);
    disk.files := disk.files[shard := ledger.State()];
  }

  /**
   * The fused-MP4 retry run: load the cache file or start empty, rebuild and
   * write it when `rebuildCache` is set, run the retry loop over a snapshot
   * of `errored`, and write the ledger back to the same file.
   */
  method JsonToStitched(disk: Disk, rebuildCache: bool, pages: seq<seq<Key>>, now: Stamp, world: Key -> FusedAnswers)
    returns (order: seq<Key>)
    modifies disk
    ensures var indexed := Indexed(Loaded(old(disk.files), FusedCacheFile), rebuildCache, pages, now);
      && Distinct(order) && (forall k :: k in order <==> k in indexed.errored)
      && disk.files == old(disk.files)[FusedCacheFile := Sweep(indexed, Errored, order, RetryVerdicts(world))]
  {
    var ledger := new LedgerState(Loaded(disk.files, FusedCacheFile));
    if rebuildCache {
      ledger.Rebuild(pages, now);
      disk.files := disk.files[FusedCacheFile := ledger.State()];
    }
    order := ledger.RunRetry(world);
    disk.files := disk.files[FusedCacheFile := ledger.State()];
  }

  /**
   * What a stereo run leaves in any ledger, whether the loop finished or
   * stopped at an interrupt: every key it handled has left `new` for its
   * outcome's bucket, the key it stopped at, every later one and every key
   * outside the snapshot are untouched, `new` is empty when no key was
   * interrupted, and `exported`, `failure-trajectories` and `errored` only
   * gain keys.
   */
  lemma StereoRunLeavesLedger(b: Buckets, order: seq<Key>, world: Key -> StereoAnswers)
    requires Distinct(order) && forall k :: k in order <==> k in b.pending
    ensures var verdict := StereoVerdicts(world);
      var done := Handled(order, verdict);
      var r := Sweep(b, New, order, verdict);
      && (forall k | k in done :: New !in Where(r, k) && Target(verdict(k).outcome) in Where(r, k))
      && (forall k | k !in done :: SameAt(r, b, k))
      && (done == order ==> r.pending == map[])
      && b.exported.Keys <= r.exported.Keys
      && b.failures.Keys <= r.failures.Keys
      && b.errored.Keys <= r.errored.Keys
  {
    var verdict := StereoVerdicts(world);
    var done := Handled(order, verdict);
    var r := Sweep(b, New, order, verdict);
    SweepOnlyTouchesSnapshot(b, New, order, verdict);
    forall k | k in order && k !in done ensures SameAt(r, b, k) {
      SweepAt(b, New, order, verdict, k);
    }
    forall k | k in done ensures New !in Where(r, k) && Target(verdict(k).outcome) in Where(r, k) {
      SweepMoves(b, New, order, verdict, k);
    }
    if done == order {
      SweepDrainsNew(b, order, verdict);
    }
    SweepNewMonotone(b, order, verdict);
  }

  /**
   * From a partitioned ledger a stereo run leaves a partition, each handled
   * key in its outcome's bucket alone, and bucket sizes grown by the
   * counters: `exported` and `failure-trajectories` by `n_success`,
   * `errored` by `n_errored` plus the caught exceptions.
   */
  lemma StereoRunKeepsPartition(b: Buckets, order: seq<Key>, world: Key -> StereoAnswers)
    requires Partitioned(b) && Distinct(order) && forall k :: k in order <==> k in b.pending
    ensures var verdict := StereoVerdicts(world);
      var r := Sweep(b, New, order, verdict);
      && Partitioned(r)
      && (forall k | k in Handled(order, verdict) :: Where(r, k) == {Target(verdict(k).outcome)})
      && |r.exported| + |r.failures| == |b.exported| + |b.failures| + Successes(order, verdict)
      && |r.errored| == |b.errored| + Errors(order, verdict) + Exceptions(order, verdict)
  {
    var verdict := StereoVerdicts(world);
    forall k | k in order ensures New in Where(b, k) {
      assert k in b.pending;
    }
    SweepSnapshot(b, New, order, verdict);
    SweepSizes(b, order, verdict);
  }

  /**
   * What a retry run leaves in any ledger: every key it handled sits in its
   * outcome's bucket (a failed retry stays in `errored` with the new record,
   * the others have left it), unhandled keys are untouched, `new` is
   * unchanged, `errored` only shrinks and `exported` and
   * `failure-trajectories` only grow.
   */
  lemma RetryRunLeavesLedger(b: Buckets, order: seq<Key>, world: Key -> FusedAnswers)
    requires Distinct(order) && forall k :: k in order <==> k in b.errored
    ensures var verdict := RetryVerdicts(world);
      var done := Handled(order, verdict);
      var r := Sweep(b, Errored, order, verdict);
      && (forall k | k in done :: Target(verdict(k).outcome) in Where(r, k)
            && (Target(verdict(k).outcome) != Errored ==> Errored !in Where(r, k)))
      && (forall k | k !in done :: SameAt(r, b, k))
      && r.pending == b.pending
      && r.errored.Keys <= b.errored.Keys
      && b.exported.Keys <= r.exported.Keys && b.failures.Keys <= r.failures.Keys
  {
    var verdict := RetryVerdicts(world);
    var done := Handled(order, verdict);
    var r := Sweep(b, Errored, order, verdict);
    SweepKeepsNew(b, Errored, order, verdict);
    SweepErroredMonotone(b, order, verdict);
    SweepOnlyTouchesSnapshot(b, Errored, order, verdict);
    forall k | k in order && k !in done ensures SameAt(r, b, k) {
      SweepAt(b, Errored, order, verdict, k);
    }
    forall k | k in done
      ensures Target(verdict(k).outcome) in Where(r, k)
      ensures Target(verdict(k).outcome) != Errored ==> Errored !in Where(r, k)
    {
      SweepMoves(b, Errored, order, verdict, k);
    }
  }

  /** From a partitioned ledger a retry run leaves a partition, each handled key in its outcome's bucket alone. */
  lemma RetryRunKeepsPartition(b: Buckets, order: seq<Key>, world: Key -> FusedAnswers)
    requires Partitioned(b) && Distinct(order) && forall k :: k in order <==> k in b.errored
    ensures var verdict := RetryVerdicts(world);
      var r := Sweep(b, Errored, order, verdict);
      && Partitioned(r)
      && forall k | k in Handled(order, verdict) :: Where(r, k) == {Target(verdict(k).outcome)}
  {
    var verdict := RetryVerdicts(world);
    forall k | k in order ensures Errored in Where(b, k) {
      assert k in b.errored;
    }
    SweepSnapshot(b, Errored, order, verdict);
  }
}
