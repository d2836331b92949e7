/**
 * The in-memory cache the scripts mutate: a dictionary of four dictionaries,
 * updated in place by the rebuild and by the per-key loop. Each method is
 * proved against the value-level definitions of `Cache` (`Admit`, `Settle`,
 * `Sweep`) and the per-key decisions of `StereoConversion` and `FusedRetry`.
 */
module Ledger {
  import opened Remote
  import opened Text
  import opened ObjectKeys
  import opened Messages
  import opened Cache
  import opened StereoConversion
  import opened FusedRetry

  /** The keys of a paginated listing, page after page, in listing order. */
  function Listing(pages: seq<seq<Key>>): seq<Key>
    decreases |pages|
  {
    if pages == [] then []
    else Listing(pages[..|pages| - 1]) + pages[|pages| - 1]
  }

  /** A key is listed exactly when some page holds it. */
  lemma {:induction false} ListingMembers(pages: seq<seq<Key>>, k: Key)
    ensures k in Listing(pages) <==> exists p | 0 <= p < |pages| :: k in pages[p]
    decreases |pages|
  {
    if pages != [] {
      var n := |pages| - 1;
      var init := pages[..n];
      ListingMembers(init, k);
      assert Listing(pages) == Listing(init) + pages[n];
      if k in Listing(pages) {
        if k in Listing(init) {
          var p :| 0 <= p < |init| && k in init[p];
          assert k in pages[p];
        } else {
          assert k in pages[n];
        }
      }
      if exists p | 0 <= p < |pages| :: k in pages[p] {
        var p :| 0 <= p < |pages| && k in pages[p];
        if p < n {
          assert k in init[p];
        }
      }
    }
  }

  /** The listing of one more page appends that page's keys. */
  lemma ListingStep(pages: seq<seq<Key>>, p: nat)
    requires p < |pages|
    ensures Listing(pages[..p + 1]) == Listing(pages[..p]) + pages[p]
  {
    assert pages[..p + 1][..p] == pages[..p];
  }

  /**
   * `list(d.keys())`: a snapshot of a dictionary's keys, each once. Python
   * lists them in insertion order; the model promises only some order.
   */
  method KeysOf<V>(m: map<Key, V>) returns (keys: seq<Key>)
    ensures Distinct(keys) && |keys| == |m|
    ensures forall k :: k in keys <==> k in m
  {
    keys := [];
    var rest := m.Keys;
    while rest != {}
      invariant Distinct(keys)
      invariant forall k :: k in m <==> k in keys || k in rest
      invariant forall k | k in keys :: k !in rest
      invariant |keys| + |rest| == |m|
      decreases |rest|
    {
      var k :| k in rest;
      keys := keys + [k];
      rest := rest - {k};
    }
  }

  class LedgerState {
    var pending: map<Key, Stamp>        // `cache["new"]`
    var exported: map<Key, Stamp>       // `cache["exported"]`
    var failures: map<Key, Stamp>       // `cache["failure-trajectories"]`
    var errored: map<Key, ErrorRecord>  // `cache["errored"]`

    function State(): Buckets
      reads this
    {
      Buckets(pending, exported, failures, errored)
    }

    /** A ledger holding the buckets read from disk, or the empty one. */
    constructor (b: Buckets)
      ensures State() == b
    {
      pending, exported, failures, errored := b.pending, b.exported, b.failures, b.errored;
    }

    /**
     * Step 1: walk every page of the listing and set `new[k] = now` for each
     * metadata key that is neither exported nor errored. The in-loop
     * assertion that a kept key ends in `.json` always holds.
     */
    method Rebuild(pages: seq<seq<Key>>, now: Stamp)
      modifies this
      ensures State() == Admit(old(State()), Listing(pages), now)
      ensures exported == old(exported) && failures == old(failures) && errored == old(errored)
      ensures forall k :: k in pending <==> k in old(pending) || (k in Listing(pages) && Admissible(old(State()), k))
    {
      ghost var start := State();
      var p := 0;
      while p < |pages|
        invariant 0 <= p <= |pages|
        invariant State() == Admit(start, Listing(pages[..p]), now)
      {
        var page := pages[p];
        ghost var before := Listing(pages[..p]);
        var i := 0;
        assert before + page[..0] == before;
        while i < |page|
          invariant 0 <= i <= |page|
          invariant State() == Admit(start, before + page[..i], now)
        {
          var key := page[i];
          assert before + page[..i + 1] == (before + page[..i]) + [key];
          AdmitSnoc(start, before + page[..i], key, now);
          if !(EndsWith(key, "_timestamps.json") || !EndsWith(key, ".json")) {
            assert EndsWith(key, ".json");
            if !(key in exported || key in errored) {
              pending := pending[key := now];
            }
          }
          i := i + 1;
        }
        assert page[..|page|] == page;
        ListingStep(pages, p);
        p := p + 1;
      }
      assert pages[..|pages|] == pages;
      AdmitMembers(start, Listing(pages), now);
    }

    /** `cache[name].pop(k)` */
    method Remove(name: Bucket, k: Key)
      modifies this
      ensures State() == Pop(old(State()), name, k)
    {
      match name
      case New => pending := pending - {k};
      case Exported => exported := exported - {k};
      case Failures => failures := failures - {k};
      case Errored => errored := errored - {k};
    }

    /** Write the outcome's bucket for `k`, then pop `k` from the bucket being iterated unless that is the same one. */
    method Record(source: Bucket, k: Key, o: Outcome, at: Stamp)
      requires !o.Interrupted?
      modifies this
      ensures State() == Settle(old(State()), source, k, o, at)
    {
      if o.NonUsable? {
        failures := failures[k := at];
      } else if o.Uploaded? {
        exported := exported[k := at];
      } else {
        errored := errored[k := ErrorRecord(at, Message(o))];
      }
      if Target(o) != source {
        Remove(source, k);
      }
    }

    /**
     * The stereo loop body for one key of `new`: returns what handling came
     * to and the requests issued, and records the outcome.
     */
    method ProcessStereo(k: Key, a: StereoAnswers) returns (o: Outcome, calls: seq<Call>)
      requires k in pending
      modifies this
      ensures o == StereoOutcome(a) && calls == StereoTrace(k, a)
      ensures State() == Settle(old(State()), New, k, o, a.at)
    {
      calls := [GetMetadata(k)];
      if a.metadata.Interrupt? {
        return Interrupted, calls;
      } else if a.metadata.Raised? {
        o := Failed(a.metadata.error);
      } else if !a.metadata.value.success {
        o := NonUsable;
      } else {
        var m := a.metadata.value;
        calls := calls + SvoDownloads(m);
        if a.downloads.Interrupt? {
          return Interrupted, calls;
        } else if a.downloads.Raised? {
          o := Failed(a.downloads.error);
        } else {
          calls := calls + SvoExports();
          if a.exports.Interrupt? {
            return Interrupted, calls;
          } else if a.exports.Raised? {
            o := Failed(a.exports.error);
          } else if !a.exports.value.All() {
            o := ConvertFailed(a.exports.value);
          } else {
            calls := calls + StereoUploads(m);
            if a.uploads.Interrupt? {
              return Interrupted, calls;
            } else if a.uploads.Raised? {
              o := Failed(a.uploads.error);
            } else if a.uploads.value.All() {
              o := Uploaded;
            } else {
              o := UploadFailed(a.uploads.value);
            }
          }
        }
      }
      Record(New, k, o, a.at);
    }

    /**
     * One turn of the stereo loop: handle `order[i]` and count it toward
     * `n_success` or `n_errored`. Stated as what the turn leaves of the loop:
     * an interrupt stops it with nothing recorded; otherwise what remains is
     * the loop from `i + 1`.
     */
    method StereoTurn(order: seq<Key>, i: nat, world: Key -> StereoAnswers, nSuccess: nat, nErrored: nat)
      returns (stop: bool, nSuccess': nat, nErrored': nat)
      requires i < |order| && Distinct(order) && forall j | i <= j < |order| :: order[j] in pending
      modifies this
      ensures stop == StereoOutcome(world(order[i])).Interrupted?
      ensures var verdict := StereoVerdicts(world);
        && Sweep(old(State()), New, order[i..], verdict) == (if stop then State() else Sweep(State(), New, order[i + 1..], verdict))
        && nSuccess' + (if stop then 0 else Successes(order[i + 1..], verdict)) == nSuccess + Successes(order[i..], verdict)
        && nErrored' + (if stop then 0 else Errors(order[i + 1..], verdict)) == nErrored + Errors(order[i..], verdict)
      ensures forall j | i < j < |order| :: order[j] in pending
    {
      var verdict := StereoVerdicts(world);
      var k := order[i];
      ghost var before := State();
      SweepStep(before, New, order, verdict, i);
      CountStep(order, verdict, i);
      var o, _ := ProcessStereo(k, world(k));
      stop := o.Interrupted?;
      nSuccess' := nSuccess + if !stop && CountsAsSuccess(o) then 1 else 0;
      nErrored' := nErrored + if !stop && CountsAsError(o) then 1 else 0;
      forall j | i < j < |order| ensures order[j] in pending {
        SettleLocal(before, New, k, o, world(k).at, order[j]);
      }
    }

    /**
     * Stage 2 of the stereo scripts: iterate a snapshot of `new`, handle
     * each key, count `n_success` and `n_errored`; an interrupt ends the
     * loop with the in-flight key untouched. The new state is the `Sweep` of
     * the snapshot and the counters are its `Successes` and `Errors`; what
     * that does to each key, to the partition and to the bucket sizes is
     * proved about `Sweep` (`SweepPlaces`, `SweepSnapshot`, `SweepSizes`,
     * `SweepDrainsNew`, `SweepOnlyTouchesSnapshot`).
     */
    method RunStereo(world: Key -> StereoAnswers) returns (nSuccess: nat, nErrored: nat, order: seq<Key>)
      modifies this
      ensures Distinct(order) && forall k :: k in order <==> k in old(pending)
      ensures State() == Sweep(old(State()), New, order, StereoVerdicts(world))
      ensures nSuccess == Successes(order, StereoVerdicts(world)) && nErrored == Errors(order, StereoVerdicts(world))
    {
      ghost var verdict := StereoVerdicts(world);
      ghost var start := State();
      order := KeysOf(pending);
      nSuccess, nErrored := 0, 0;
      var i := 0;
      assert order[i..] == order;
      while i < |order|
        invariant 0 <= i <= |order|
        invariant Sweep(start, New, order, verdict) == Sweep(State(), New, order[i..], verdict)
        invariant nSuccess + Successes(order[i..], verdict) == Successes(order, verdict)
        invariant nErrored + Errors(order[i..], verdict) == Errors(order, verdict)
        invariant forall j | i <= j < |order| :: order[j] in pending
      {
        var stop;
        stop, nSuccess, nErrored := StereoTurn(order, i, world, nSuccess, nErrored);
        if stop {
          break;
        }
        i := i + 1;
      }
    }

    /**
     * The retry loop body for one key of `errored`: returns what handling
     * came to and the requests issued, and records the outcome.
     */
    method ProcessRetry(k: Key, a: FusedAnswers) returns (o: Outcome, calls: seq<Call>)
      requires k in errored
      modifies this
      ensures o == RetryOutcome(k, a) && calls == RetryTrace(k, a)
      ensures State() == Settle(old(State()), Errored, k, o, a.at)
    {
      calls := [GetMetadata(k)];
      if a.metadata.Interrupt? {
        return Interrupted, calls;
      } else if a.metadata.Raised? {
        o := Failed(a.metadata.error);
      } else if !a.metadata.value.success {
        o := NonUsable;
      } else {
        calls := calls + Mp4Downloads(a.metadata.value);
        if a.downloads.Interrupt? {
          return Interrupted, calls;
        } else if a.downloads.Raised? {
          o := Failed(a.downloads.error);
        } else {
          calls := calls + [Fuse];
          if a.ffmpeg.Interrupt? {
            return Interrupted, calls;
          } else if a.ffmpeg.Raised? {
            o := Failed(a.ffmpeg.error);
          } else {
            var name := FusedName(k);
            if name.None? {
              o := Failed(IndexErrorText);
            } else {
              calls := calls + [Upload(FusedRetry.Scratch + "/fused.mp4", name.value)];
              if a.upload.Interrupt? {
                return Interrupted, calls;
              } else if a.upload.Raised? {
                o := Failed(a.upload.error);
              } else if a.upload.value.Accepted? {
                o := Uploaded;
              } else {
                o := Failed(a.upload.value.error);
              }
            }
          }
        }
      }
      Record(Errored, k, o, a.at);
    }

    /**
     * One turn of the retry loop: handle `order[i]`. Stated as what the turn
     * leaves of the loop: an interrupt stops it with nothing recorded;
     * otherwise what remains is the loop from `i + 1`.
     */
    method RetryTurn(order: seq<Key>, i: nat, world: Key -> FusedAnswers) returns (stop: bool)
      requires i < |order| && Distinct(order) && forall j | i <= j < |order| :: order[j] in errored
      modifies this
      ensures stop == RetryOutcome(order[i], world(order[i])).Interrupted?
      ensures Sweep(old(State()), Errored, order[i..], RetryVerdicts(world)) ==
        if stop then State() else Sweep(State(), Errored, order[i + 1..], RetryVerdicts(world))
      ensures forall j | i < j < |order| :: order[j] in errored
    {
      var k := order[i];
      ghost var before := State();
      SweepStep(before, Errored, order, RetryVerdicts(world), i);
      var o, _ := ProcessRetry(k, world(k));
      stop := o.Interrupted?;
      forall j | i < j < |order| ensures order[j] in errored {
        SettleLocal(before, Errored, k, o, world(k).at, order[j]);
      }
    }

    /**
     * The retry loop: iterate a snapshot of `errored` and handle each key;
     * an interrupt ends the loop with the in-flight key untouched. The new
     * state is the `Sweep` of the snapshot; that it leaves `new` alone, only
     * shrinks `errored` and keeps the partition is proved about `Sweep`
     * (`SweepKeepsNew`, `SweepErroredMonotone`, `SweepSnapshot`).
     */
    method RunRetry(world: Key -> FusedAnswers) returns (order: seq<Key>)
      modifies this
      ensures Distinct(order) && forall k :: k in order <==> k in old(errored)
      ensures State() == Sweep(old(State()), Errored, order, RetryVerdicts(world))
    {
      ghost var verdict := RetryVerdicts(world);
      ghost var start := State();
      order := KeysOf(errored);
      var i := 0;
      assert order[i..] == order;
      while i < |order|
        invariant 0 <= i <= |order|
        invariant Sweep(start, Errored, order, verdict) == Sweep(State(), Errored, order[i..], verdict)
        invariant forall j | i <= j < |order| :: order[j] in errored
      {
        var stop := RetryTurn(order, i, world);
        if stop {
          break;
        }
        i := i + 1;
      }
    }
  }
}
