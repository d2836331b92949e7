/**
 * What handling one `new` key comes to in the two stereo scripts (the full
 * run and the shard run share this code): fetch the metadata, skip a
 * non-usable trajectory, download the three SVOs, export each to a
 * side-by-side MP4, upload the three MP4s.
 */
module StereoConversion {
  import opened Remote
  import opened ObjectKeys
  import opened Cache
  import opened Messages
  import opened Wrappers
  import Text

  /** The scratch directory the stereo scripts reuse for every key. */
  const Scratch: string := "/tmp/r2d2-stereo-conversion"

  /** What the outside world answers while one key is handled. */
  datatype StereoAnswers = StereoAnswers(
    metadata: Stage<Metadata>,  // download and parse of the metadata JSON, including the field lookups
    downloads: Stage<()>,       // the three SVO downloads
    exports: Stage<Views>,      // `export_mp4` for each view
    uploads: Stage<Views>,      // `s3upload` for each view (a `ClientError` reads as false)
    at: Stamp)                  // `utcnow()` when the key's record is written

  /** The outcome of one key, branch by branch as the loop body decides it. */
  function StereoOutcome(a: StereoAnswers): Outcome
  {
    match a.metadata
    case Interrupt => Interrupted
    case Raised(e) => Failed(e)
    case Ok(m) =>
      if !m.success then NonUsable
      else match a.downloads
        case Interrupt => Interrupted
        case Raised(e) => Failed(e)
        case Ok(_) =>
          match a.exports
          case Interrupt => Interrupted
          case Raised(e) => Failed(e)
          case Ok(converted) =>
            if !converted.All() then ConvertFailed(converted)
            else match a.uploads
              case Interrupt => Interrupted
              case Raised(e) => Failed(e)
              case Ok(uploaded) => if uploaded.All() then Uploaded else UploadFailed(uploaded)
  }

  /** The three SVO downloads are attempted: the metadata was read and marks a usable trajectory. */
  predicate ReachesDownloads(a: StereoAnswers)
  {
    a.metadata.Ok? && a.metadata.value.success
  }

  /** The three exports are attempted: the downloads also went through. */
  predicate ReachesExports(a: StereoAnswers)
  {
    ReachesDownloads(a) && a.downloads.Ok?
  }

  /** The three uploads are attempted: every view also exported. */
  predicate ReachesUploads(a: StereoAnswers)
  {
    ReachesExports(a) && a.exports.Ok? && a.exports.value.All()
  }

  /** The outcome of every key, with the time its record is written. */
  function StereoVerdicts(world: Key -> StereoAnswers): Key -> Verdict
  {
    k => Verdict(StereoOutcome(world(k)), world(k).at)
  }

  function SvoDownloads(m: Metadata): seq<Call>
  {
    [ Download(SvoKey(m.lab, m.left), Scratch + "/left.svo"),
      Download(SvoKey(m.lab, m.right), Scratch + "/right.svo"),
      Download(SvoKey(m.lab, m.wrist), Scratch + "/wrist.svo") ]
  }

  function SvoExports(): seq<Call>
  {
    [ ExportStereo(Scratch + "/left.svo"), ExportStereo(Scratch + "/right.svo"), ExportStereo(Scratch + "/wrist.svo") ]
  }

  function StereoUploads(m: Metadata): seq<Call>
  {
    [ Upload(Scratch + "/left-stereo.mp4", StereoKey(m.lab, m.left)),
      Upload(Scratch + "/right-stereo.mp4", StereoKey(m.lab, m.right)),
      Upload(Scratch + "/wrist-stereo.mp4", StereoKey(m.lab, m.wrist)) ]
  }

  /** The requests one key's handling issues; a stage that raises or is interrupted counts as issued. */
  function StereoTrace(k: Key, a: StereoAnswers): seq<Call>
  {
    if !a.metadata.Ok? || !a.metadata.value.success then [GetMetadata(k)]
    else
      var m := a.metadata.value;
      var fetched := [GetMetadata(k)] + SvoDownloads(m);
      if !a.downloads.Ok? then fetched
      else if !a.exports.Ok? || !a.exports.value.All() then fetched + SvoExports()
      else fetched + SvoExports() + StereoUploads(m)
  }

  /** The uploads one key's handling issues are among `StereoUploads`. */
  lemma UploadsOfTrace(k: Key, a: StereoAnswers, c: Call)
    requires a.metadata.Ok? && c in StereoTrace(k, a) && c.Upload?
    ensures c in StereoUploads(a.metadata.value)
  {
  }

  /**
   * Every upload one key's handling issues goes to the stereo key of one of
   * the three views, and for a view whose relpath ends in `.mp4` that key is
   * neither the view's MP4 key nor the SVO key its recording was read from.
   */
  lemma StereoUploadTargets(k: Key, a: StereoAnswers, c: Call)
    requires a.metadata.Ok? && c in StereoTrace(k, a) && c.Upload?
    ensures var m := a.metadata.value;
      || (c.local == Scratch + "/left-stereo.mp4" && c.remote == StereoKey(m.lab, m.left))
      || (c.local == Scratch + "/right-stereo.mp4" && c.remote == StereoKey(m.lab, m.right))
      || (c.local == Scratch + "/wrist-stereo.mp4" && c.remote == StereoKey(m.lab, m.wrist))
    ensures var m := a.metadata.value;
      && (c.remote == StereoKey(m.lab, m.left) && Text.EndsWith(m.left, ".mp4") ==>
            c.remote != RawKey(m.lab, m.left) && c.remote != SvoKey(m.lab, m.left))
      && (c.remote == StereoKey(m.lab, m.right) && Text.EndsWith(m.right, ".mp4") ==>
            c.remote != RawKey(m.lab, m.right) && c.remote != SvoKey(m.lab, m.right))
      && (c.remote == StereoKey(m.lab, m.wrist) && Text.EndsWith(m.wrist, ".mp4") ==>
            c.remote != RawKey(m.lab, m.wrist) && c.remote != SvoKey(m.lab, m.wrist))
  {
    var m := a.metadata.value;
    UploadsOfTrace(k, a, c);
    if Text.EndsWith(m.left, ".mp4") { DerivedKeysOfMp4(m.lab, m.left); }
    if Text.EndsWith(m.right, ".mp4") { DerivedKeysOfMp4(m.lab, m.right); }
    if Text.EndsWith(m.wrist, ".mp4") { DerivedKeysOfMp4(m.lab, m.wrist); }
  }

  predicate IsTransfer(c: Call)
  {
    c.Download? || c.ExportStereo? || c.Upload?
  }

  /**
   * A trajectory whose metadata says `success: false` goes to
   * `failure-trajectories` after the metadata fetch alone: no download,
   * export or upload is issued, and it counts toward `n_success`.
   */
  lemma NonUsableSkipsConversion(k: Key, a: StereoAnswers)
    requires a.metadata.Ok? && !a.metadata.value.success
    ensures StereoOutcome(a) == NonUsable && Target(StereoOutcome(a)) == Failures
    ensures CountsAsSuccess(StereoOutcome(a))
    ensures StereoTrace(k, a) == [GetMetadata(k)]
    ensures forall c | c in StereoTrace(k, a) :: !IsTransfer(c)
  {
  }

  /**
   * A key is exported exactly when its metadata is usable, every download
   * and export went through with all three export flags true, and all three
   * uploads succeeded; the uploads then went to the three stereo keys.
   */
  lemma ExportedIffAllSucceed(k: Key, a: StereoAnswers)
    ensures StereoOutcome(a) == Uploaded <==>
      && a.metadata.Ok? && a.metadata.value.success
      && a.downloads.Ok?
      && a.exports.Ok? && a.exports.value.All()
      && a.uploads.Ok? && a.uploads.value.All()
    ensures StereoOutcome(a) == Uploaded ==>
      var m := a.metadata.value;
      StereoTrace(k, a) == [GetMetadata(k)] + SvoDownloads(m) + SvoExports() + StereoUploads(m)
  {
  }

  /** A conversion failure issues no upload. */
  lemma ConvertFailedNoUpload(k: Key, a: StereoAnswers)
    requires StereoOutcome(a).ConvertFailed?
    ensures forall c | c in StereoTrace(k, a) :: !c.Upload?
  {
    var m := a.metadata.value;
    assert StereoTrace(k, a) == [GetMetadata(k)] + SvoDownloads(m) + SvoExports();
  }

  /** A conversion failure records the conversion message of the export flags, and the flags read back from it. */
  lemma ConvertFailedMessage(a: StereoAnswers)
    requires StereoOutcome(a).ConvertFailed?
    ensures a.exports.Ok? && Message(StereoOutcome(a)) == ConvertMessage(a.exports.value)
    ensures ParseFlags(Message(StereoOutcome(a))[|ConvertPrefix|..]) == Some(a.exports.value)
  {
    var o := StereoOutcome(a);
    assert o == ConvertFailed(a.exports.value);
    assert Message(o) == ConvertMessage(o.converted);
    MessageFlagsReadBack(o.converted);
  }

  /**
   * A conversion that fails for any view sends the key to `errored` with the
   * three export flags, counts toward `n_errored`, and issues no upload.
   */
  lemma ConvertFailureSkipsUpload(k: Key, a: StereoAnswers)
    requires StereoOutcome(a).ConvertFailed?
    ensures a.exports == Ok(StereoOutcome(a).converted) && !StereoOutcome(a).converted.All()
    ensures Target(StereoOutcome(a)) == Errored && CountsAsError(StereoOutcome(a))
    ensures forall c | c in StereoTrace(k, a) :: !c.Upload?
    ensures Message(StereoOutcome(a)) == ConvertMessage(a.exports.value)
    ensures ParseFlags(Message(StereoOutcome(a))[|ConvertPrefix|..]) == Some(a.exports.value)
  {
    var o := StereoOutcome(a);
    assert o == ConvertFailed(a.exports.value);
    assert Target(o) == Errored && CountsAsError(o);
    ConvertFailedNoUpload(k, a);
    ConvertFailedMessage(a);
  }

  /** An upload that fails for any view sends the key to `errored` with the three upload flags, after all three exports succeeded. */
  lemma UploadFailureIsErrored(a: StereoAnswers)
    requires StereoOutcome(a).UploadFailed?
    ensures a.exports.Ok? && a.exports.value.All()
    ensures a.uploads == Ok(StereoOutcome(a).uploaded) && !StereoOutcome(a).uploaded.All()
    ensures Target(StereoOutcome(a)) == Errored && CountsAsError(StereoOutcome(a))
    ensures Message(StereoOutcome(a)) == UploadMessage(a.uploads.value)
    ensures ParseFlags(Message(StereoOutcome(a))[|UploadPrefix|..]) == Some(a.uploads.value)
  {
    MessageFlagsReadBack(a.uploads.value);
  }

  /** A caught exception records `Error: <e>` and increments neither counter. */
  lemma ExceptionIsErrored(a: StereoAnswers)
    requires StereoOutcome(a).Failed?
    ensures Target(StereoOutcome(a)) == Errored
    ensures Message(StereoOutcome(a)) == "Error: " + StereoOutcome(a).error
    ensures !CountsAsSuccess(StereoOutcome(a)) && !CountsAsError(StereoOutcome(a))
    ensures var e := StereoOutcome(a).error;
      a.metadata == Raised(e) || a.downloads == Raised(e) || a.exports == Raised(e) || a.uploads == Raised(e)
  {
  }

  /**
   * From the answers to the outcome, stage by stage: the loop stops only
   * when a stage it reaches is interrupted; a stage it reaches that raises
   * records that exception; a failed export or upload records its flags
   * and counts toward `n_errored`. None of these stops the loop.
   */
  lemma StereoOutcomeOfAnswers(a: StereoAnswers)
    ensures StereoOutcome(a).Interrupted? <==>
      || a.metadata == Interrupt
      || (ReachesDownloads(a) && a.downloads == Interrupt)
      || (ReachesExports(a) && a.exports == Interrupt)
      || (ReachesUploads(a) && a.uploads == Interrupt)
    ensures forall e :: StereoOutcome(a) == Failed(e) <==>
      || a.metadata == Raised(e)
      || (ReachesDownloads(a) && a.downloads == Raised(e))
      || (ReachesExports(a) && a.exports == Raised(e))
      || (ReachesUploads(a) && a.uploads == Raised(e))
    ensures forall v :: StereoOutcome(a) == ConvertFailed(v) <==>
      ReachesExports(a) && a.exports == Ok(v) && !v.All()
    ensures forall u :: StereoOutcome(a) == UploadFailed(u) <==>
      ReachesUploads(a) && a.uploads == Ok(u) && !u.All()
    ensures StereoOutcome(a).ConvertFailed? || StereoOutcome(a).UploadFailed? ==>
      Target(StereoOutcome(a)) == Errored && CountsAsError(StereoOutcome(a))
  {
  }
}
