/**
 * What the scripts ask of the outside world and what it answers. The object
 * store, the ZED SDK export, ffmpeg and the wall clock are not modelled; each
 * per-key handling step is given the answers they produce, as an oracle.
 */
module Remote {

  /** Result of one stage of a key's handling: a value, an exception caught by `except Exception`, or an interrupt that escapes it. */
  datatype Stage<+T> = Ok(value: T) | Raised(error: string) | Interrupt

  /** The fields of a metadata JSON file the scripts read. */
  datatype Metadata = Metadata(success: bool, lab: string, left: string, right: string, wrist: string)

  /** One boolean per camera view: the left, right and wrist recordings. */
  datatype Views = Views(left: bool, right: bool, wrist: bool)
  {
    /** `left and right and wrist` */
    predicate All()
    {
      left && right && wrist
    }
  }

  /** What `s3upload` of the retry script reports: success, or the text of the `ClientError`. */
  datatype UploadReply = Accepted | Rejected(error: string)

  /** A request to the outside world, in the order a key's handling issues them. */
  datatype Call =
    | GetMetadata(key: string)
    | Download(remote: string, local: string)
    | ExportStereo(local: string)
    | Ffmpeg(left: string, right: string, fused: string)
    | Upload(local: string, remote: string)
}
