/**
 * The conversion ledger as a value: four buckets keyed by metadata key.
 * `new` (here `pending`), `exported` and `failure-trajectories` (here
 * `failures`) map a key to a timestamp; `errored` maps it to a timestamp and
 * a message. This module defines, as functions, what the scripts do to it:
 * the rebuild from a listing (`Admit`), the move of one key after its
 * handling (`Settle`), and a loop over a snapshot of keys (`Sweep`), and
 * proves what those do to each key and to the bucket sizes.
 */
module Cache {
  import opened Remote
  import opened Messages
  import opened Text
  import opened ObjectKeys

  type Key = string
  /** A `utcnow()` reading, `MM/DD/YYYY, HH:MM:SS`; its format plays no part here. */
  type Stamp = string

  /** The `[timestamp, message]` pair the `errored` bucket holds. */
  datatype ErrorRecord = ErrorRecord(at: Stamp, message: string)

  datatype Buckets = Buckets(
    pending: map<Key, Stamp>,
    exported: map<Key, Stamp>,
    failures: map<Key, Stamp>,
    errored: map<Key, ErrorRecord>)

  /** `{"new": {}, "exported": {}, "failure-trajectories": {}, "errored": {}}` */
  const Empty: Buckets := Buckets(map[], map[], map[], map[])

  datatype Bucket = New | Exported | Failures | Errored

  /** The buckets that hold `k`. */
  function Where(b: Buckets, k: Key): set<Bucket>
  {
    (if k in b.pending then {New} else {}) +
    (if k in b.exported then {Exported} else {}) +
    (if k in b.failures then {Failures} else {}) +
    (if k in b.errored then {Errored} else {})
  }

  /** `k` sits in at most one bucket. */
  predicate Exclusive(b: Buckets, k: Key)
  {
    && (k in b.pending ==> k !in b.exported && k !in b.failures && k !in b.errored)
    && (k in b.exported ==> k !in b.failures && k !in b.errored)
    && (k in b.failures ==> k !in b.errored)
  }

  /** The intended ledger invariant: no key sits in two buckets. */
  ghost predicate Partitioned(b: Buckets)
  {
    forall k :: Exclusive(b, k)
  }

  /** `b` and `c` hold the same entry, or none, for `k` in every bucket. */
  predicate SameAt(b: Buckets, c: Buckets, k: Key)
  {
    && (k in b.pending <==> k in c.pending) && (k in b.pending ==> b.pending[k] == c.pending[k])
    && (k in b.exported <==> k in c.exported) && (k in b.exported ==> b.exported[k] == c.exported[k])
    && (k in b.failures <==> k in c.failures) && (k in b.failures ==> b.failures[k] == c.failures[k])
    && (k in b.errored <==> k in c.errored) && (k in b.errored ==> b.errored[k] == c.errored[k])
  }

  lemma SameAtTrans(a: Buckets, b: Buckets, c: Buckets, k: Key)
    requires SameAt(a, b, k) && SameAt(b, c, k)
    ensures SameAt(a, c, k)
  {
  }

  predicate Distinct(keys: seq<Key>)
  {
    forall i, j | 0 <= i < j < |keys| :: keys[i] != keys[j]
  }

  // ---------------------------------------------------------------- rebuild

  /** A listed key the rebuild puts into `new`: a metadata file neither exported nor errored. */
  predicate Admissible(b: Buckets, k: Key)
  {
    IsMetadataKey(k) && k !in b.exported && k !in b.errored
  }

  /** The rebuild: walk the listing in order and set `new[k] = now` for every admissible key. */
  function Admit(b: Buckets, listing: seq<Key>, now: Stamp): Buckets
    decreases |listing|
  {
    if listing == [] then b
    else
      var c := Admit(b, listing[..|listing| - 1], now);
      var k := listing[|listing| - 1];
      if Admissible(c, k) then c.(pending := c.pending[k := now]) else c
  }

  /**
   * After a rebuild, `k` is in `new` exactly when it was already there or it
   * is a listed, admissible key; admitted keys carry `now`; the rebuild
   * removes nothing and touches no other bucket.
   */
  lemma {:induction false} AdmitAt(b: Buckets, listing: seq<Key>, now: Stamp, k: Key)
    ensures var r := Admit(b, listing, now);
      && r.exported == b.exported && r.failures == b.failures && r.errored == b.errored
      && (k in r.pending <==> k in b.pending || (k in listing && Admissible(b, k)))
      && (k in r.pending ==> r.pending[k] == if k in listing && Admissible(b, k) then now else b.pending[k])
    decreases |listing|
  {
    if listing != [] {
      var init := listing[..|listing| - 1];
      AdmitAt(b, init, now, k);
      assert listing == init + [listing[|listing| - 1]];
      assert k in listing <==> k in init || k == listing[|listing| - 1];
    }
  }

  /** Admitting one more listed key looks only at the buckets built so far. */
  lemma AdmitSnoc(b: Buckets, listing: seq<Key>, k: Key, now: Stamp)
    ensures Admit(b, listing + [k], now)
      == var c := Admit(b, listing, now);
         if Admissible(c, k) then c.(pending := c.pending[k := now]) else c
  {
    assert (listing + [k])[..|listing|] == listing;
  }

  /** Membership of `new` after a rebuild, for every key at once. */
  lemma AdmitMembers(b: Buckets, listing: seq<Key>, now: Stamp)
    ensures var r := Admit(b, listing, now);
      && r.exported == b.exported && r.failures == b.failures && r.errored == b.errored
      && forall k :: k in r.pending <==> k in b.pending || (k in listing && Admissible(b, k))
  {
    var r := Admit(b, listing, now);
    AdmitAt(b, listing, now, "");
    forall k ensures k in r.pending <==> k in b.pending || (k in listing && Admissible(b, k)) {
      AdmitAt(b, listing, now, k);
    }
  }

  /** A rebuild never puts into `new` a key that is exported or errored, so it keeps `new` apart from both. */
  lemma AdmitKeepsNewApart(b: Buckets, listing: seq<Key>, now: Stamp)
    requires b.pending.Keys !! b.exported.Keys && b.pending.Keys !! b.errored.Keys
    ensures var r := Admit(b, listing, now);
      r.pending.Keys !! r.exported.Keys && r.pending.Keys !! r.errored.Keys
  {
    var r := Admit(b, listing, now);
    forall k | k in r.pending ensures k !in r.exported && k !in r.errored {
      AdmitAt(b, listing, now, k);
    }
  }

  /** A rebuild keeps the partition when no admitted key is a failure trajectory. */
  lemma AdmitPartitioned(b: Buckets, listing: seq<Key>, now: Stamp)
    requires Partitioned(b)
    requires forall k | k in listing && Admissible(b, k) :: k !in b.failures
    ensures Partitioned(Admit(b, listing, now))
  {
    var r := Admit(b, listing, now);
    forall k ensures Exclusive(r, k) {
      AdmitAt(b, listing, now, k);
      assert Exclusive(b, k);
    }
  }

  /**
   * The rebuild checks only `exported` and `errored`: a listed metadata key
   * already in `failure-trajectories` is put back into `new` and then sits in
   * two buckets.
   */
  lemma AdmitReadmitsFailure(b: Buckets, listing: seq<Key>, now: Stamp, k: Key)
    requires Partitioned(b) && k in b.failures && k in listing && IsMetadataKey(k)
    ensures var r := Admit(b, listing, now);
      k in r.pending && r.pending[k] == now && k in r.failures && !Partitioned(r)
  {
    assert Exclusive(b, k);
    AdmitAt(b, listing, now, k);
    assert !Exclusive(Admit(b, listing, now), k);
  }

  /**
   * On a ledger whose `new` and `failure-trajectories` share a key (what the
   * rebuild can produce), settling that key breaks what holds for a
   * partition: an exported key also stays in `failure-trajectories`, and a
   * non-usable one counts as a success while neither bucket grows.
   */
  lemma ReadmittedFailureSettles(b: Buckets, k: Key, at: Stamp)
    requires k in b.pending && k in b.failures && k !in b.exported && k !in b.errored
    ensures Where(Settle(b, New, k, Uploaded, at), k) == {Exported, Failures}
    ensures var r := Settle(b, New, k, NonUsable, at);
      && CountsAsSuccess(NonUsable)
      && |r.exported| + |r.failures| == |b.exported| + |b.failures|
  {
    var u := Settle(b, New, k, Uploaded, at);
    assert k !in u.pending && k in u.exported && k in u.failures && k !in u.errored;
    WhereExportedFailures(u, k);
    ReadmittedNonUsableSizes(b, k, at);
  }

  lemma WhereExportedFailures(u: Buckets, k: Key)
    requires k !in u.pending && k in u.exported && k in u.failures && k !in u.errored
    ensures Where(u, k) == {Exported, Failures}
  {
  }

  /** A non-usable outcome only restamps a key already in `failure-trajectories`. */
  lemma ReadmittedNonUsableSizes(b: Buckets, k: Key, at: Stamp)
    requires k in b.failures
    ensures var r := Settle(b, New, k, NonUsable, at);
      |r.exported| + |r.failures| == |b.exported| + |b.failures|
  {
    var r := Settle(b, New, k, NonUsable, at);
    assert r.exported == b.exported && r.failures == b.failures[k := at];
    assert r.failures.Keys == b.failures.Keys;
  }

  // ---------------------------------------------------------------- one key

  /** What handling one key came to. */
  datatype Outcome =
    | Interrupted                      // an exception `except Exception` does not catch: nothing recorded
    | NonUsable                        // metadata `success` is false
    | Uploaded                         // every required upload succeeded
    | ConvertFailed(converted: Views)  // some SVO export reported failure
    | UploadFailed(uploaded: Views)    // some stereo upload reported failure
    | Failed(error: string)            // a caught exception, or a rejected upload of the retry script

  /** `n_success` counts non-usable and exported keys. */
  predicate CountsAsSuccess(o: Outcome)
  {
    o.NonUsable? || o.Uploaded?
  }

  /** `n_errored` counts the flagged failures only; a caught exception increments neither counter. */
  predicate CountsAsError(o: Outcome)
  {
    o.ConvertFailed? || o.UploadFailed?
  }

  function Target(o: Outcome): Bucket
    requires !o.Interrupted?
  {
    match o
    case NonUsable => Failures
    case Uploaded => Exported
    case _ => Errored
  }

  /** The message an `errored` record carries for this outcome. */
  function Message(o: Outcome): string
  {
    match o
    case ConvertFailed(v) => ConvertMessage(v)
    case UploadFailed(v) => UploadMessage(v)
    case Failed(e) => ExceptionMessage(e)
    case _ => ""
  }

  function Pop(b: Buckets, name: Bucket, k: Key): Buckets
  {
    match name
    case New => b.(pending := b.pending - {k})
    case Exported => b.(exported := b.exported - {k})
    case Failures => b.(failures := b.failures - {k})
    case Errored => b.(errored := b.errored - {k})
  }

  /**
   * Record `k`'s outcome the way every branch of the scripts does: write the
   * target bucket (`cache[target][k] = ...`), then pop `k` from the bucket the
   * loop iterates unless that is the target. An interrupt records nothing.
   */
  function Settle(b: Buckets, source: Bucket, k: Key, o: Outcome, at: Stamp): Buckets
  {
    if o.Interrupted? then b
    else
      var written := match o
        case NonUsable => b.(failures := b.failures[k := at])
        case Uploaded => b.(exported := b.exported[k := at])
        case _ => b.(errored := b.errored[k := ErrorRecord(at, Message(o))]);
      if Target(o) == source then written else Pop(written, source, k)
  }

  /**
   * Whatever else holds `k`, settling it writes its target bucket and, when
   * that is another bucket, removes it from the bucket being iterated.
   */
  lemma SettleMoves(b: Buckets, source: Bucket, k: Key, o: Outcome, at: Stamp)
    requires !o.Interrupted?
    ensures var r := Settle(b, source, k, o, at);
      && Target(o) in Where(r, k)
      && (Target(o) != source ==> source !in Where(r, k))
  {
  }

  /**
   * A key that sat in `source` alone ends up in its target bucket alone,
   * with the outcome's timestamp (and message, for `errored`).
   */
  lemma SettlePlaces(b: Buckets, source: Bucket, k: Key, o: Outcome, at: Stamp)
    requires !o.Interrupted? && Where(b, k) == {source}
    ensures var r := Settle(b, source, k, o, at);
      && Where(r, k) == {Target(o)}
      && (Target(o) == Exported ==> r.exported[k] == at)
      && (Target(o) == Failures ==> r.failures[k] == at)
      && (Target(o) == Errored ==> r.errored[k] == ErrorRecord(at, Message(o)))
  {
    assert source in Where(b, k);
    var r := Settle(b, source, k, o, at);
    if source != New { assert New !in Where(b, k); }
    if source != Exported { assert Exported !in Where(b, k); }
    if source != Failures { assert Failures !in Where(b, k); }
    if source != Errored { assert Errored !in Where(b, k); }
  }

  /** Settling `k` leaves every other key alone. */
  lemma SettleLocal(b: Buckets, source: Bucket, k: Key, o: Outcome, at: Stamp, other: Key)
    requires other != k
    ensures SameAt(Settle(b, source, k, o, at), b, other)
  {
  }

  /** Settling `k` depends only on what the ledger holds at `k`. */
  lemma SettleCongruent(b: Buckets, c: Buckets, source: Bucket, k: Key, o: Outcome, at: Stamp)
    requires SameAt(b, c, k)
    ensures SameAt(Settle(b, source, k, o, at), Settle(c, source, k, o, at), k)
  {
  }

  /** Settling a key that sits in `source` alone keeps the partition. */
  lemma SettlePartitioned(b: Buckets, source: Bucket, k: Key, o: Outcome, at: Stamp)
    requires Partitioned(b) && Where(b, k) == {source}
    ensures Partitioned(Settle(b, source, k, o, at))
  {
    var r := Settle(b, source, k, o, at);
    forall x ensures Exclusive(r, x) {
      if x == k {
        if !o.Interrupted? {
          SettlePlaces(b, source, k, o, at);
          assert Target(o) in Where(r, k);
        } else {
          assert Exclusive(b, k);
        }
      } else {
        SettleLocal(b, source, k, o, at, x);
        assert Exclusive(b, x);
      }
    }
  }

  // ---------------------------------------------------------------- the loop

  /** What handling a key came to, and the clock reading when it was recorded. */
  datatype Verdict = Verdict(outcome: Outcome, at: Stamp)

  /**
   * The per-key loop over a snapshot of keys, from the bucket `source`: each
   * key is settled in turn; the first interrupt ends the loop.
   */
  function Sweep(b: Buckets, source: Bucket, keys: seq<Key>, verdict: Key -> Verdict): Buckets
    decreases |keys|
  {
    if keys == [] then b
    else
      var v := verdict(keys[0]);
      if v.outcome.Interrupted? then b
      else Sweep(Settle(b, source, keys[0], v.outcome, v.at), source, keys[1..], verdict)
  }

  /** The keys the loop gets through: those before the first interrupt. */
  function Handled(keys: seq<Key>, verdict: Key -> Verdict): (done: seq<Key>)
    ensures |done| <= |keys| && done == keys[..|done|]
    ensures |done| < |keys| ==> verdict(keys[|done|]).outcome.Interrupted?
    ensures forall k | k in done :: !verdict(k).outcome.Interrupted?
    decreases |keys|
  {
    if keys == [] || verdict(keys[0]).outcome.Interrupted? then []
    else [keys[0]] + Handled(keys[1..], verdict)
  }

  /**
   * The loop gets past position `i` exactly when no key up to `i` was
   * interrupted: a key that fails, is skipped or raises never ends it.
   */
  lemma HandledThrough(keys: seq<Key>, verdict: Key -> Verdict, i: nat)
    requires i < |keys|
    ensures i < |Handled(keys, verdict)| <==> forall j | 0 <= j <= i :: !verdict(keys[j]).outcome.Interrupted?
  {
    var done := Handled(keys, verdict);
    if i < |done| {
      forall j | 0 <= j <= i ensures !verdict(keys[j]).outcome.Interrupted? {
        assert keys[j] == done[j];
      }
    } else {
      assert verdict(keys[|done|]).outcome.Interrupted?;
    }
  }

  /** `n_success` after the loop. */
  function Successes(keys: seq<Key>, verdict: Key -> Verdict): nat
    decreases |keys|
  {
    if keys == [] || verdict(keys[0]).outcome.Interrupted? then 0
    else (if CountsAsSuccess(verdict(keys[0]).outcome) then 1 else 0) + Successes(keys[1..], verdict)
  }

  /** `n_errored` after the loop. */
  function Errors(keys: seq<Key>, verdict: Key -> Verdict): nat
    decreases |keys|
  {
    if keys == [] || verdict(keys[0]).outcome.Interrupted? then 0
    else (if CountsAsError(verdict(keys[0]).outcome) then 1 else 0) + Errors(keys[1..], verdict)
  }

  /** Keys whose handling raised a caught exception: recorded, but counted by neither counter. */
  function Exceptions(keys: seq<Key>, verdict: Key -> Verdict): nat
    decreases |keys|
  {
    if keys == [] || verdict(keys[0]).outcome.Interrupted? then 0
    else (if verdict(keys[0]).outcome.Failed? then 1 else 0) + Exceptions(keys[1..], verdict)
  }

  /**
   * One turn of the loop at position `i`: an interrupt stops it where it
   * is; otherwise the key is settled and the loop goes on with the next one.
   */
  lemma SweepStep(b: Buckets, source: Bucket, keys: seq<Key>, verdict: Key -> Verdict, i: nat)
    requires i < |keys|
    ensures var v := verdict(keys[i]);
      Sweep(b, source, keys[i..], verdict) ==
        if v.outcome.Interrupted? then b
        else Sweep(Settle(b, source, keys[i], v.outcome, v.at), source, keys[i + 1..], verdict)
  {
    assert keys[i..][0] == keys[i];
    assert keys[i..][1..] == keys[i + 1..];
  }

  /** The counters over one turn of the loop at position `i`. */
  lemma CountStep(keys: seq<Key>, verdict: Key -> Verdict, i: nat)
    requires i < |keys|
    ensures var o := verdict(keys[i]).outcome;
      && Successes(keys[i..], verdict) == (if o.Interrupted? then 0 else (if CountsAsSuccess(o) then 1 else 0) + Successes(keys[i + 1..], verdict))
      && Errors(keys[i..], verdict) == (if o.Interrupted? then 0 else (if CountsAsError(o) then 1 else 0) + Errors(keys[i + 1..], verdict))
  {
    assert keys[i..][0] == keys[i];
    assert keys[i..][1..] == keys[i + 1..];
  }

  /** The two counters and the uncounted exceptions add up to the number of keys handled. */
  lemma {:induction false} CountersCoverHandled(keys: seq<Key>, verdict: Key -> Verdict)
    ensures Successes(keys, verdict) + Errors(keys, verdict) + Exceptions(keys, verdict) == |Handled(keys, verdict)|
    decreases |keys|
  {
    if keys != [] && !verdict(keys[0]).outcome.Interrupted? {
      CountersCoverHandled(keys[1..], verdict);
    }
  }

  /**
   * The loop, seen from one key: a key the loop got through holds exactly
   * what settling it alone gives; every other key, inside the snapshot or
   * not, is left as it was.
   */
  lemma {:induction false} SweepAt(b: Buckets, source: Bucket, keys: seq<Key>, verdict: Key -> Verdict, k: Key)
    requires Distinct(keys)
    ensures SameAt(Sweep(b, source, keys, verdict),
                   if k in Handled(keys, verdict) then Settle(b, source, k, verdict(k).outcome, verdict(k).at) else b,
                   k)
    decreases |keys|
  {
    if keys != [] && !verdict(keys[0]).outcome.Interrupted? {
      var h := keys[0];
      var v := verdict(h);
      var b' := Settle(b, source, h, v.outcome, v.at);
      var r := Sweep(b', source, keys[1..], verdict);
      assert Distinct(keys[1..]);
      assert Sweep(b, source, keys, verdict) == r;
      assert Handled(keys, verdict) == [h] + Handled(keys[1..], verdict);
      SweepAt(b', source, keys[1..], verdict, k);
      if k == h {
        assert k !in keys[1..];
        assert k !in Handled(keys[1..], verdict);
      } else {
        assert k in Handled(keys, verdict) <==> k in Handled(keys[1..], verdict);
        SettleLocal(b, source, h, v.outcome, v.at, k);
        if k in Handled(keys[1..], verdict) {
          var o, at := verdict(k).outcome, verdict(k).at;
          SettleCongruent(b', b, source, k, o, at);
          SameAtTrans(r, Settle(b', source, k, o, at), Settle(b, source, k, o, at), k);
        } else {
          SameAtTrans(r, b', b, k);
        }
      }
    }
  }


  /** After the loop, a handled key sits in its outcome's bucket and, if that is another one, has left the iterated bucket. */
  lemma SweepMoves(b: Buckets, source: Bucket, keys: seq<Key>, verdict: Key -> Verdict, k: Key)
    requires Distinct(keys) && k in Handled(keys, verdict)
    ensures var r := Sweep(b, source, keys, verdict);
      && Target(verdict(k).outcome) in Where(r, k)
      && (Target(verdict(k).outcome) != source ==> source !in Where(r, k))
  {
    var v := verdict(k);
    SweepAt(b, source, keys, verdict, k);
    SettleMoves(b, source, k, v.outcome, v.at);
    SameAtWhere(Sweep(b, source, keys, verdict), Settle(b, source, k, v.outcome, v.at), k);
  }

  lemma SameAtWhere(b: Buckets, c: Buckets, k: Key)
    requires SameAt(b, c, k)
    ensures Where(b, k) == Where(c, k)
  {
  }

  /** Only keys of the snapshot are ever written. */
  lemma SweepOnlyTouchesSnapshot(b: Buckets, source: Bucket, keys: seq<Key>, verdict: Key -> Verdict)
    requires Distinct(keys)
    ensures forall k | k !in keys :: SameAt(Sweep(b, source, keys, verdict), b, k)
  {
    var done := Handled(keys, verdict);
    forall x | x in done ensures x in keys {
      var i :| 0 <= i < |done| && done[i] == x;
      assert keys[i] == x;
    }
    forall k | k !in keys ensures SameAt(Sweep(b, source, keys, verdict), b, k) {
      SweepAt(b, source, keys, verdict, k);
    }
  }

  /** A snapshot of keys that all sit in `source` alone. */
  ghost predicate SnapshotOf(b: Buckets, source: Bucket, keys: seq<Key>)
  {
    Distinct(keys) && forall k | k in keys :: Where(b, k) == {source}
  }

  /** In a partitioned ledger, distinct keys taken from one bucket form a snapshot of it. */
  lemma SnapshotOfBucket(b: Buckets, source: Bucket, keys: seq<Key>)
    requires Partitioned(b) && Distinct(keys)
    requires forall k | k in keys :: source in Where(b, k)
    ensures SnapshotOf(b, source, keys)
  {
    forall k | k in keys ensures Where(b, k) == {source} {
      assert Exclusive(b, k);
    }
  }

  /**
   * Over a snapshot of keys that sit in `source` alone: every key the loop
   * got through sits in exactly its outcome's target bucket, with that
   * outcome's record; the partition is kept.
   */
  lemma SweepPlaces(b: Buckets, source: Bucket, keys: seq<Key>, verdict: Key -> Verdict)
    requires SnapshotOf(b, source, keys)
    ensures var r := Sweep(b, source, keys, verdict);
      forall k | k in Handled(keys, verdict) ::
        && Where(r, k) == {Target(verdict(k).outcome)}
        && (Target(verdict(k).outcome) == Exported ==> r.exported[k] == verdict(k).at)
        && (Target(verdict(k).outcome) == Failures ==> r.failures[k] == verdict(k).at)
        && (Target(verdict(k).outcome) == Errored ==> r.errored[k] == ErrorRecord(verdict(k).at, Message(verdict(k).outcome)))
  {
    var r := Sweep(b, source, keys, verdict);
    forall k | k in Handled(keys, verdict)
      ensures && Where(r, k) == {Target(verdict(k).outcome)}
              && (Target(verdict(k).outcome) == Exported ==> r.exported[k] == verdict(k).at)
              && (Target(verdict(k).outcome) == Failures ==> r.failures[k] == verdict(k).at)
              && (Target(verdict(k).outcome) == Errored ==> r.errored[k] == ErrorRecord(verdict(k).at, Message(verdict(k).outcome)))
    {
      SweepAt(b, source, keys, verdict, k);
      assert k in keys;
      SettlePlaces(b, source, k, verdict(k).outcome, verdict(k).at);
    }
  }

  /** The loop keeps the partition. */
  lemma SweepPartitioned(b: Buckets, source: Bucket, keys: seq<Key>, verdict: Key -> Verdict)
    requires Partitioned(b) && SnapshotOf(b, source, keys)
    ensures Partitioned(Sweep(b, source, keys, verdict))
  {
    var r := Sweep(b, source, keys, verdict);
    forall k ensures Exclusive(r, k) {
      SweepAt(b, source, keys, verdict, k);
      if k in Handled(keys, verdict) {
        assert k in keys;
        SettlePartitioned(b, source, k, verdict(k).outcome, verdict(k).at);
        assert Exclusive(Settle(b, source, k, verdict(k).outcome, verdict(k).at), k);
      } else {
        assert Exclusive(b, k);
      }
    }
  }

  /** A loop over a snapshot of all of `new` that no interrupt cut short leaves `new` empty. */
  lemma SweepDrainsNew(b: Buckets, keys: seq<Key>, verdict: Key -> Verdict)
    requires Distinct(keys) && (forall k :: k in keys <==> k in b.pending)
    requires Handled(keys, verdict) == keys
    ensures Sweep(b, New, keys, verdict).pending == map[]
  {
    var r := Sweep(b, New, keys, verdict);
    forall k | k in r.pending ensures false {
      SweepAt(b, New, keys, verdict, k);
    }
  }

  /** A loop that does not iterate `new` leaves `new` exactly as it was. */
  lemma {:induction false} SweepKeepsNew(b: Buckets, source: Bucket, keys: seq<Key>, verdict: Key -> Verdict)
    requires source != New
    ensures Sweep(b, source, keys, verdict).pending == b.pending
    decreases |keys|
  {
    if keys != [] && !verdict(keys[0]).outcome.Interrupted? {
      var v := verdict(keys[0]);
      SweepKeepsNew(Settle(b, source, keys[0], v.outcome, v.at), source, keys[1..], verdict);
    }
  }

  /**
   * The retry loop over a snapshot of `errored`: `errored` only loses keys,
   * `exported` and `failure-trajectories` only gain keys, and entries outside
   * the snapshot keep their records.
   */
  lemma SweepErroredMonotone(b: Buckets, keys: seq<Key>, verdict: Key -> Verdict)
    requires Distinct(keys) && forall k | k in keys :: k in b.errored
    ensures var r := Sweep(b, Errored, keys, verdict);
      && r.errored.Keys <= b.errored.Keys
      && b.exported.Keys <= r.exported.Keys
      && b.failures.Keys <= r.failures.Keys
  {
    var r := Sweep(b, Errored, keys, verdict);
    forall k | k in r.errored ensures k in b.errored {
      SweepAt(b, Errored, keys, verdict, k);
    }
    forall k | k in b.exported ensures k in r.exported {
      SweepAt(b, Errored, keys, verdict, k);
    }
    forall k | k in b.failures ensures k in r.failures {
      SweepAt(b, Errored, keys, verdict, k);
    }
  }

  /**
   * On any ledger, a stereo run over keys of `new` only adds keys to
   * `exported`, `failure-trajectories` and `errored`: the loop never pops
   * those buckets.
   */
  lemma SweepNewMonotone(b: Buckets, keys: seq<Key>, verdict: Key -> Verdict)
    requires Distinct(keys) && forall k | k in keys :: k in b.pending
    ensures var r := Sweep(b, New, keys, verdict);
      && b.exported.Keys <= r.exported.Keys
      && b.failures.Keys <= r.failures.Keys
      && b.errored.Keys <= r.errored.Keys
  {
    var r := Sweep(b, New, keys, verdict);
    forall k | k in b.exported ensures k in r.exported {
      SweepNewKeeps(b, keys, verdict, k);
    }
    forall k | k in b.failures ensures k in r.failures {
      SweepNewKeeps(b, keys, verdict, k);
    }
    forall k | k in b.errored ensures k in r.errored {
      SweepNewKeeps(b, keys, verdict, k);
    }
  }

  lemma SweepNewKeeps(b: Buckets, keys: seq<Key>, verdict: Key -> Verdict, k: Key)
    requires Distinct(keys)
    ensures var r := Sweep(b, New, keys, verdict);
      && (k in b.exported ==> k in r.exported)
      && (k in b.failures ==> k in r.failures)
      && (k in b.errored ==> k in r.errored)
  {
    SweepAt(b, New, keys, verdict, k);
    if k in Handled(keys, verdict) {
      var o := verdict(k).outcome;
      if !o.Interrupted? {
        SettleMoves(b, New, k, o, verdict(k).at);
      }
    }
  }

  /** Sizes after settling one key that sat in `new` alone. */
  lemma SettleSizes(b: Buckets, k: Key, o: Outcome, at: Stamp)
    requires !o.Interrupted? && Where(b, k) == {New}
    ensures var r := Settle(b, New, k, o, at);
      && |r.exported| + |r.failures| == |b.exported| + |b.failures| + (if CountsAsSuccess(o) then 1 else 0)
      && |r.errored| == |b.errored| + (if CountsAsError(o) || o.Failed? then 1 else 0)
      && |r.pending| == |b.pending| - 1
  {
    OnlyInNew(b, k);
    var pending := b.pending - {k};
    RemoveSize(b.pending, k);
    if o.NonUsable? {
      assert Settle(b, New, k, o, at) == b.(failures := b.failures[k := at], pending := pending);
      AddSize(b.failures, k, at);
    } else if o.Uploaded? {
      assert Settle(b, New, k, o, at) == b.(exported := b.exported[k := at], pending := pending);
      AddSize(b.exported, k, at);
    } else {
      assert CountsAsError(o) || o.Failed?;
      var e := ErrorRecord(at, Message(o));
      assert Settle(b, New, k, o, at) == b.(errored := b.errored[k := e], pending := pending);
      AddSize(b.errored, k, e);
    }
  }

  lemma OnlyInNew(b: Buckets, k: Key)
    requires Where(b, k) == {New}
    ensures k in b.pending && k !in b.exported && k !in b.failures && k !in b.errored
  {
    assert New in Where(b, k);
    assert Exported !in Where(b, k) && Failures !in Where(b, k) && Errored !in Where(b, k);
  }

  lemma AddSize<V>(m: map<Key, V>, k: Key, v: V)
    requires k !in m
    ensures |m[k := v]| == |m| + 1
  {
    assert m[k := v].Keys == m.Keys + {k};
  }

  lemma RemoveSize<V>(m: map<Key, V>, k: Key)
    requires k in m
    ensures |m - {k}| == |m| - 1
  {
    assert (m - {k}).Keys == m.Keys - {k};
  }


  /**
   * The bucket sizes encode the counters: over a snapshot of `new` keys,
   * `exported` and `failure-trajectories` grow by `n_success`, `errored` by
   * `n_errored` plus the caught exceptions, and `new` shrinks by the number
   * of keys handled.
   */
  lemma {:induction false} SweepSizes(b: Buckets, keys: seq<Key>, verdict: Key -> Verdict)
    requires Partitioned(b) && SnapshotOf(b, New, keys)
    ensures var r := Sweep(b, New, keys, verdict);
      && |r.exported| + |r.failures| == |b.exported| + |b.failures| + Successes(keys, verdict)
      && |r.errored| == |b.errored| + Errors(keys, verdict) + Exceptions(keys, verdict)
      && |r.pending| == |b.pending| - |Handled(keys, verdict)|
    decreases |keys|
  {
    if keys != [] && !verdict(keys[0]).outcome.Interrupted? {
      var h := keys[0];
      var v := verdict(h);
      var b' := Settle(b, New, h, v.outcome, v.at);
      SnapshotTail(b, New, keys, v.outcome, v.at);
      SettleSizes(b, h, v.outcome, v.at);
      SweepSizes(b', keys[1..], verdict);
      assert Sweep(b, New, keys, verdict) == Sweep(b', New, keys[1..], verdict);
      assert Handled(keys, verdict) == [h] + Handled(keys[1..], verdict);
    }
  }

  /**
   * A loop over distinct keys taken from one bucket of a partitioned ledger
   * keeps the partition, and every key it got through sits in exactly its
   * outcome's bucket.
   */
  lemma SweepSnapshot(b: Buckets, source: Bucket, keys: seq<Key>, verdict: Key -> Verdict)
    requires Partitioned(b) && Distinct(keys) && forall k | k in keys :: source in Where(b, k)
    ensures SnapshotOf(b, source, keys)
    ensures var r := Sweep(b, source, keys, verdict);
      && Partitioned(r)
      && forall k | k in Handled(keys, verdict) :: Where(r, k) == {Target(verdict(k).outcome)}
  {
    SnapshotOfBucket(b, source, keys);
    SweepPartitioned(b, source, keys, verdict);
    SweepPlaces(b, source, keys, verdict);
  }

  /** Settling the first key of a snapshot leaves a snapshot of the rest, and keeps the partition. */
  lemma SnapshotTail(b: Buckets, source: Bucket, keys: seq<Key>, o: Outcome, at: Stamp)
    requires Partitioned(b) && SnapshotOf(b, source, keys) && keys != []
    ensures Where(b, keys[0]) == {source}
    ensures var b' := Settle(b, source, keys[0], o, at);
      Partitioned(b') && SnapshotOf(b', source, keys[1..])
  {
    var h := keys[0];
    assert h in keys;
    SettlePartitioned(b, source, h, o, at);
    var b' := Settle(b, source, h, o, at);
    forall k | k in keys[1..] ensures Where(b', k) == {source} {
      assert k in keys;
      assert k != h;
      SettleLocal(b, source, h, o, at, k);
    }
    assert Distinct(keys[1..]);
  }
}
