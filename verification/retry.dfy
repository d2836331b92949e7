/**
 * What handling one `errored` key comes to in the retry script that builds
 * fused two-view MP4s: fetch the metadata, skip a non-usable trajectory,
 * download the left and right MP4s, fuse them with ffmpeg (`check=True`: a
 * non-zero exit raises), derive the fused name, upload it.
 */
module FusedRetry {
  import opened Wrappers
  import opened Remote
  import opened ObjectKeys
  import opened Cache

  /** The scratch directory the retry script reuses for every key. */
  const Scratch: string := "/tmp/r2d2-conversion"

  /** Text of the `IndexError` raised by `stem.split('_')[1]` when the stem holds no '_'. */
  const IndexErrorText: string := "list index out of range"

  /** What the outside world answers while one key is handled. */
  datatype FusedAnswers = FusedAnswers(
    metadata: Stage<Metadata>,  // download and parse of the metadata JSON, including the field lookups
    downloads: Stage<()>,       // the left and right MP4 downloads
    ffmpeg: Stage<()>,          // the `hstack` run; a non-zero exit raises
    upload: Stage<UploadReply>, // `s3upload` of the fused MP4
    at: Stamp)                  // `utcnow()` when the key's record is written

  /** The outcome of one key, branch by branch as the loop body decides it. */
  function RetryOutcome(k: Key, a: FusedAnswers): Outcome
  {
    match a.metadata
    case Interrupt => Interrupted
    case Raised(e) => Failed(e)
    case Ok(m) =>
      if !m.success then NonUsable
      else match a.downloads
        case Interrupt => Interrupted
        case Raised(e) => Failed(e)
        case Ok(_) =>
          match a.ffmpeg
          case Interrupt => Interrupted
          case Raised(e) => Failed(e)
          case Ok(_) =>
            match FusedName(k)
            case None => Failed(IndexErrorText)
            case Some(_) =>
              match a.upload
              case Interrupt => Interrupted
              case Raised(e) => Failed(e)
              case Ok(Accepted) => Uploaded
              case Ok(Rejected(err)) => Failed(err)
  }

  /** The two MP4 downloads are attempted: the metadata was read and marks a usable trajectory. */
  predicate RetryReachesDownloads(a: FusedAnswers)
  {
    a.metadata.Ok? && a.metadata.value.success
  }

  /** ffmpeg is run: the downloads also went through. */
  predicate RetryReachesFfmpeg(a: FusedAnswers)
  {
    RetryReachesDownloads(a) && a.downloads.Ok?
  }

  /** The fused name is derived: ffmpeg also went through. */
  predicate RetryReachesName(a: FusedAnswers)
  {
    RetryReachesFfmpeg(a) && a.ffmpeg.Ok?
  }

  /** The upload is attempted: the stem also gave a fused name. */
  predicate RetryReachesUpload(k: Key, a: FusedAnswers)
  {
    RetryReachesName(a) && FusedName(k).Some?
  }

  function RetryVerdicts(world: Key -> FusedAnswers): Key -> Verdict
  {
    k => Verdict(RetryOutcome(k, world(k)), world(k).at)
  }

  function Mp4Downloads(m: Metadata): seq<Call>
  {
    [ Download(RawKey(m.lab, m.left), Scratch + "/left.mp4"),
      Download(RawKey(m.lab, m.right), Scratch + "/right.mp4") ]
  }

  const Fuse: Call := Ffmpeg(Scratch + "/left.mp4", Scratch + "/right.mp4", Scratch + "/fused.mp4")

  /** The requests one key's handling issues; a stage that raises or is interrupted counts as issued. */
  function RetryTrace(k: Key, a: FusedAnswers): seq<Call>
  {
    if !a.metadata.Ok? || !a.metadata.value.success then [GetMetadata(k)]
    else
      var fetched := [GetMetadata(k)] + Mp4Downloads(a.metadata.value);
      if !a.downloads.Ok? then fetched
      else if !a.ffmpeg.Ok? || FusedName(k).None? then fetched + [Fuse]
      else fetched + [Fuse, Upload(Scratch + "/fused.mp4", FusedName(k).value)]
  }

  /** `success: false` moves the key from `errored` to `failure-trajectories`, after the metadata fetch alone. */
  lemma RetryNonUsable(k: Key, a: FusedAnswers)
    requires a.metadata.Ok? && !a.metadata.value.success
    ensures RetryOutcome(k, a) == NonUsable && Target(RetryOutcome(k, a)) == Failures
    ensures RetryTrace(k, a) == [GetMetadata(k)]
  {
  }

  /**
   * A key moves to `exported` exactly when every stage went through, the
   * stem gave a fused name and the upload was accepted; the upload went to
   * that name.
   */
  lemma RetryExportedIffUploaded(k: Key, a: FusedAnswers)
    ensures RetryOutcome(k, a) == Uploaded <==>
      && a.metadata.Ok? && a.metadata.value.success
      && a.downloads.Ok? && a.ffmpeg.Ok?
      && FusedName(k).Some?
      && a.upload == Ok(Accepted)
    ensures RetryOutcome(k, a) == Uploaded ==>
      RetryTrace(k, a) == [GetMetadata(k)] + Mp4Downloads(a.metadata.value) + [Fuse, Upload(Scratch + "/fused.mp4", FusedName(k).value)]
  {
  }

  /**
   * Every outcome other than non-usable, exported or interrupted keeps the
   * key in `errored`, its record overwritten with `Error: ...`: a rejected
   * upload, any exception (a failed ffmpeg run included), and a stem
   * without '_', which can never get a fused name.
   */
  lemma RetryFailureStaysErrored(k: Key, a: FusedAnswers)
    ensures var o := RetryOutcome(k, a);
      !o.Interrupted? && !o.NonUsable? && !o.Uploaded? ==>
        o.Failed? && Target(o) == Errored && Message(o) == "Error: " + o.error
    ensures a.metadata.Ok? && a.metadata.value.success && a.downloads.Ok? && a.ffmpeg.Ok? && '_' !in Stem(k) ==>
      RetryOutcome(k, a) == Failed(IndexErrorText) && forall c | c in RetryTrace(k, a) :: !c.Upload?
    ensures a.metadata.Ok? && a.metadata.value.success && a.downloads.Ok? && a.ffmpeg.Ok? && FusedName(k).Some? ==>
      forall err :: a.upload == Ok(Rejected(err)) ==> RetryOutcome(k, a) == Failed(err)
  {
    FusedNameShape(k);
  }

  /**
   * From the answers to the outcome, stage by stage: the retry loop stops
   * only when a stage it reaches is interrupted.
   */
  lemma RetryInterruptedOfAnswers(k: Key, a: FusedAnswers)
    ensures RetryOutcome(k, a).Interrupted? <==>
      || a.metadata == Interrupt
      || (RetryReachesDownloads(a) && a.downloads == Interrupt)
      || (RetryReachesFfmpeg(a) && a.ffmpeg == Interrupt)
      || (RetryReachesUpload(k, a) && a.upload == Interrupt)
  {
  }

  /**
   * A stage that raises `e` (ffmpeg included), the missing '_' in the stem,
   * or an upload rejected with `e` are exactly the ways to record `Error: e`;
   * each leaves the loop going.
   */
  lemma RetryFailedOfAnswers(k: Key, a: FusedAnswers, e: string)
    ensures RetryOutcome(k, a) == Failed(e) <==>
      || a.metadata == Raised(e)
      || (RetryReachesDownloads(a) && a.downloads == Raised(e))
      || (RetryReachesFfmpeg(a) && a.ffmpeg == Raised(e))
      || (RetryReachesName(a) && FusedName(k).None? && e == IndexErrorText)
      || (RetryReachesUpload(k, a) && (a.upload == Raised(e) || a.upload == Ok(Rejected(e))))
  {
    if !RetryReachesFfmpeg(a) {
    } else if !a.ffmpeg.Ok? {
    } else if FusedName(k).None? {
      assert RetryOutcome(k, a) == Failed(IndexErrorText);
    } else {
      assert RetryReachesUpload(k, a);
    }
  }
}
