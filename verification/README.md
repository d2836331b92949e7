# R2D2 conversion ledger

This is a Dafny model of the bookkeeping core of three R2D2 batch scripts. Each script converts robot-demonstration recordings stored in an object store:

- `full_svo2stereo.py` exports side-by-side stereo MP4s from SVO recordings.
- `sharded_svo2stereo.py` does the same for one shard file.
- `json2stitched.py` fuses left/right MP4s with ffmpeg, retrying the keys that errored before.

All three keep a **ledger**, the pickled or JSON "cache". It has four buckets keyed by metadata-JSON key:

- `new`
- `exported`
- `failure-trajectories`
- `errored`, which holds a timestamp and an `Error: ...` message

A run goes through these steps:

1. It loads the ledger, or starts from an empty one.
2. It optionally rebuilds `new` from a paginated listing of the metadata prefix.
3. It walks a snapshot of one bucket, key by key. Each key is either moved to the bucket its outcome selects or left in place.
4. It writes the ledger back in a `finally` block, whether the loop finished or was interrupted.

The modules follow that structure:

| file | module | what it holds |
|---|---|---|
| `wrappers.dfy` | `Wrappers` | `Option` |
| `text.dfy` | `Text` | Python's `str.replace`, `str.split`, `str.join`, `startswith`/`endswith`, and their algebra |
| `object_keys.dfy` | `ObjectKeys` | the metadata-key filter and the key derivations: SVO relpath, `-stereo.mp4` key, `Path(...).stem`, fused name from `stem.split('_')[1]` |
| `messages.dfy` | `Messages` | the `errored` messages, and a parser that reads the three flags back out of them |
| `remote.dfy` | `Remote` | what the scripts ask of the outside world (`Call`) and what each stage answers (`Stage`: value, caught exception, or interrupt) |
| `cache.dfy` | `Cache` | the ledger as a value (`Buckets`) and three specification functions with their lemmas: the rebuild (`Admit`), settling one key (`Settle`), and the loop over a snapshot (`Sweep`) |
| `stereo.dfy` | `StereoConversion` | one key's handling in the stereo scripts: its outcome and the calls it issues |
| `retry.dfy` | `FusedRetry` | one key's handling in the fused-MP4 retry script |
| `ledger.dfy` | `Ledger` | the class `LedgerState`, whose four map fields the methods update in place: rebuild, pop, record, per-key processing, and the two loops with their counters |
| `scripts.dfy` | `Scripts` | the local files as a `Disk` class, the three entry points with their `finally` write, and the end-to-end lemmas |

## How the model works

Each loop method is proved against `Sweep`: its final ledger equals `Sweep(old ledger, bucket, snapshot, verdicts)`. The per-key verdict comes from the oracle answers, and the counters equal `Successes`/`Errors` over the snapshot. The lemmas in `Cache` and `Scripts` state what `Sweep` does to each key and to the bucket sizes.

An interrupt (`KeyboardInterrupt` is not caught by `except Exception`) ends the loop. The key it hit keeps its place, because the model lets an interrupt arrive only during one of a key's stages (see "## Left out"). The ledger reached so far is still written.

Three behaviours of the code worth knowing:

- **Re-admission of failure keys.** The rebuild re-admits a key that already sits in `failure-trajectories`. It checks only `exported` and `errored` (`full_svo2stereo.py:71`), so the ledger stops being a partition. `Cache.AdmitReadmitsFailure` shows this, and `Cache.ReadmittedFailureSettles` shows what a run then does to such a key. This is why the lemmas about exactly-one-bucket placement and bucket sizes assume a partitioned ledger, while the lemmas about which keys a run moves or leaves untouched hold for any ledger.
- **Relpaths without `.mp4`.** The stereo upload key is the relpath with `.mp4` replaced by `-stereo.mp4` (`full_svo2stereo.py:148-150`). A relpath in which `.mp4` does not occur is left unchanged, so the upload would go to the view's own MP4 key (`ObjectKeys.StereoKeyWithoutMp4`). When `MP4` does not occur either, the SVO key is unchanged too, and the upload would overwrite the very SVO the export read (`ObjectKeys.DerivedKeysWithoutMp4`). The lemmas that rule out overwriting assume an `.mp4` relpath.
- **Failed retries.** In the retry script a failed upload keeps the key in `errored` with the new message, and so does a caught exception. No key is ever popped from `new`, because those lines are commented out.

## Model

| member | source | states |
|---|---|---|
| Text.ReplaceIsSplitJoin | scripts/annotation/stereo-conversion/full_svo2stereo.py:113 | `s.replace(p, r)` (every leftmost non-overlapping occurrence) equals `r.join(s.split(p))` |
| Text.ReplaceAll | scripts/annotation/stereo-conversion/full_svo2stereo.py:113-115 | `str.replace`: scanning left to right, each occurrence of the pattern is replaced and scanning resumes after it; partner lemmas below |
| Text.Split | scripts/annotation/json2stitched.py:113 | `str.split(sep)` on a non-empty separator: the fields between leftmost non-overlapping occurrences; at least one field. The partner lemmas do not single out the leftmost occurrences for a separator with a border (`aa` in `aaa`); the scripts split only on `_`, and replace only `MP4` and `.mp4`, which have no border, so for them the fields are unique |
| Text.Join | scripts/annotation/json2stitched.py:113 | `sep.join(fields)` on at least one field |
| Text.EndsWith | scripts/annotation/stereo-conversion/full_svo2stereo.py:66 | `str.endswith` |
| Text.SplitJoin | scripts/annotation/json2stitched.py:113 | joining the fields of `s.split(p)` with `p` gives back `s` |
| Text.SplitFieldsFree | scripts/annotation/json2stitched.py:113 | no field produced by `split(p)` contains `p` |
| Text.FirstFieldIsPrefix | scripts/annotation/json2stitched.py:113 | the first field of a split is a prefix of the string |
| Text.ReplaceAllFree | scripts/annotation/stereo-conversion/full_svo2stereo.py:113 | `replace` leaves a string without the pattern unchanged |
| Text.ReplaceAllLength | scripts/annotation/stereo-conversion/full_svo2stereo.py:113 | replacing with a text at least as long never shortens the string; with an equally long text the length is kept |
| Text.ReplaceAllAppend | scripts/annotation/stereo-conversion/full_svo2stereo.py:148 | when no occurrence straddles the seam, `replace` on a concatenation is the concatenation of the replacements |
| Text.ReplaceAllSuffix | scripts/annotation/stereo-conversion/full_svo2stereo.py:148 | a border-free pattern at the end of the string is replaced there |
| ObjectKeys.LastIndexOf | scripts/annotation/json2stitched.py:113 | the index returned is the last occurrence of the character, or -1 when there is none |
| ObjectKeys.IsMetadataKey | scripts/annotation/stereo-conversion/full_svo2stereo.py:66-70 | the listing filter: a key ending in `.json` but not in `_timestamps.json` |
| ObjectKeys.RawKey | scripts/annotation/json2stitched.py:98-103 | `lab-uploads/<lab>/<relpath>`, the object key of a recording |
| ObjectKeys.SvoRelPath | scripts/annotation/stereo-conversion/full_svo2stereo.py:113-115 | `relpath.replace("MP4", "SVO").replace(".mp4", ".svo")` |
| ObjectKeys.StereoRelPath | scripts/annotation/stereo-conversion/full_svo2stereo.py:148-150 | `relpath.replace(".mp4", "-stereo.mp4")` |
| ObjectKeys.SvoKey | scripts/annotation/stereo-conversion/full_svo2stereo.py:109-120 | the object key an SVO is downloaded from |
| ObjectKeys.StereoKey | scripts/annotation/stereo-conversion/full_svo2stereo.py:148-154 | the object key a stereo MP4 is uploaded to |
| ObjectKeys.BaseName | scripts/annotation/json2stitched.py:113 | `Path(key).name` |
| ObjectKeys.StemOfName | scripts/annotation/json2stitched.py:113 | `.stem` of a file name: the name up to its last `.`, unless that dot is first or last |
| ObjectKeys.Stem | scripts/annotation/json2stitched.py:113 | `Path(key).stem` |
| ObjectKeys.FusedName | scripts/annotation/json2stitched.py:113 | `fused-annotation-mp4s/<stem.split('_')[1]>.mp4`, or none where the indexing raises `IndexError` |
| ObjectKeys.BaseNameShape | scripts/annotation/json2stitched.py:113 | `Path(k).name` has no `/`, is a suffix of `k`, and is preceded by a `/` when shorter than `k` |
| ObjectKeys.StemShape | scripts/annotation/json2stitched.py:113 | `.stem` is a prefix of the name; when it differs, it stops at the last `.`, which is neither first nor last |
| ObjectKeys.StemHasNoSlash | scripts/annotation/json2stitched.py:113 | a key's stem has no `/` |
| ObjectKeys.SvoRelPathLength | scripts/annotation/stereo-conversion/full_svo2stereo.py:113-115 | the `MP4`→`SVO`, `.mp4`→`.svo` rewrite keeps the path length |
| ObjectKeys.SvoRelPathSuffix | scripts/annotation/stereo-conversion/full_svo2stereo.py:113-115 | a path ending `.mp4` is rewritten to the rewritten stem plus `.svo` |
| ObjectKeys.StereoRelPathSuffix | scripts/annotation/stereo-conversion/full_svo2stereo.py:148-150 | a path ending `.mp4` is rewritten to the rewritten stem plus `-stereo.mp4` |
| ObjectKeys.DerivedKeysOfMp4 | scripts/annotation/stereo-conversion/full_svo2stereo.py:109-150 | for an `.mp4` relpath, the SVO key ends in `.svo` and the upload key in `-stereo.mp4`, and neither equals the raw MP4 key, nor each other; the relpath must end in `.mp4` (see the next two rows) |
| ObjectKeys.StereoKeyWithoutMp4 | scripts/annotation/stereo-conversion/full_svo2stereo.py:148-154 | a relpath in which `.mp4` does not occur is not rewritten, so its stereo key is its own MP4 key and the upload would overwrite that MP4 |
| ObjectKeys.DerivedKeysWithoutMp4 | scripts/annotation/stereo-conversion/full_svo2stereo.py:113-154 | a relpath in which neither `MP4` nor `.mp4` occurs gives equal SVO, MP4 and stereo keys, so the upload would overwrite the SVO it was converted from |
| ObjectKeys.StereoKeyOfClip | scripts/annotation/stereo-conversion/full_svo2stereo.py:148-154 | for example, the relpath `a/clip` has the same stereo key and raw key |
| ObjectKeys.SplitSingleField | scripts/annotation/json2stitched.py:113 | `split` yields exactly one field iff the separator does not occur, which is the case where `[1]` raises `IndexError` |
| ObjectKeys.FusedNameShape | scripts/annotation/json2stitched.py:113 | a fused name exists iff the stem contains `_`; it is `fused-annotation-mp4s/<second field>.mp4`, the field has no `_`, and the fields join back to the stem |
| Messages.FlagsRoundTrip | scripts/annotation/stereo-conversion/full_svo2stereo.py:134-135 | the three flags can be read back from the `(Left: …, Right: …, Wrist: …)!` text |
| Messages.Flag | scripts/annotation/stereo-conversion/full_svo2stereo.py:129 | Python's `str` of a bool, `True` or `False` |
| Messages.FlagsText | scripts/annotation/stereo-conversion/full_svo2stereo.py:135 | the `(Left: …, Right: …, Wrist: …)!` text |
| Messages.ConvertMessage | scripts/annotation/stereo-conversion/full_svo2stereo.py:131-137 | `Error: Failure to Convert SVO -- ` followed by the export flags |
| Messages.UploadMessage | scripts/annotation/stereo-conversion/full_svo2stereo.py:171-177 | `Error: Failure to Upload MP4 -- ` followed by the upload flags |
| Messages.ExceptionMessage | scripts/annotation/stereo-conversion/full_svo2stereo.py:189 | `Error: <exception text>` |
| Messages.MessageFlagsReadBack | scripts/annotation/stereo-conversion/full_svo2stereo.py:131-177 | the three flags are read back from the text after the conversion or upload prefix |
| Messages.MessagesDetermineFlags | scripts/annotation/stereo-conversion/full_svo2stereo.py:131-177 | a conversion or upload error message determines which views failed |
| Messages.ConvertAndUploadMessagesDiffer | scripts/annotation/stereo-conversion/full_svo2stereo.py:131-177 | a conversion failure and an upload failure never record the same message |
| Messages.MessagesStartWithError | scripts/annotation/stereo-conversion/full_svo2stereo.py:131-189 | every `errored` message starts with `Error: ` |
| Cache.AdmitAt | scripts/annotation/stereo-conversion/full_svo2stereo.py:59-72 | after the rebuild, a key is in `new` iff it was before or it is a listed metadata key in neither `exported` nor `errored`; admitted keys carry the rebuild's stamp; the other buckets are unchanged |
| Cache.Admissible | scripts/annotation/stereo-conversion/full_svo2stereo.py:66-71 | a listed key the rebuild puts into `new`: a metadata key in neither `exported` nor `errored` |
| Cache.Admit | scripts/annotation/stereo-conversion/full_svo2stereo.py:59-72 | the rebuild as a function of the listing: each admissible listed key set in `new` with the rebuild's stamp; its properties are the `Admit…` lemmas |
| Cache.AdmitMembers | scripts/annotation/stereo-conversion/full_svo2stereo.py:63-72 | the same membership statement for all keys at once |
| Cache.AdmitKeepsNewApart | scripts/annotation/stereo-conversion/full_svo2stereo.py:71-72 | the rebuild never puts into `new` a key that is in `exported` or `errored` |
| Cache.AdmitPartitioned | scripts/annotation/stereo-conversion/full_svo2stereo.py:71-72 | the rebuild keeps every key in at most one bucket when no admitted key is in `failure-trajectories` |
| Cache.AdmitReadmitsFailure | scripts/annotation/stereo-conversion/full_svo2stereo.py:71-72 | a listed key in `failure-trajectories` is put back into `new` as well, so the ledger is no longer a partition |
| Cache.ReadmittedFailureSettles | scripts/annotation/stereo-conversion/full_svo2stereo.py:71-162 | for a key in both `new` and `failure-trajectories`, an upload leaves it in `exported` and `failure-trajectories`, and a non-usable verdict counts as a success while neither bucket grows |
| Cache.SettlePlaces | scripts/annotation/stereo-conversion/full_svo2stereo.py:97-191 | a handled key ends up in its outcome's bucket alone, with the outcome's stamp and, in `errored`, its message |
| Cache.SettleMoves | scripts/annotation/stereo-conversion/full_svo2stereo.py:97-191 | on any ledger, a settled key is written to its target bucket and, when that differs, popped from the iterated bucket |
| Cache.CountsAsSuccess | scripts/annotation/stereo-conversion/full_svo2stereo.py:97-164 | the outcomes that increment `n_success`: non-usable and exported |
| Cache.CountsAsError | scripts/annotation/stereo-conversion/full_svo2stereo.py:126-183 | the outcomes that increment `n_errored`: conversion and upload failures |
| Cache.Target | scripts/annotation/stereo-conversion/full_svo2stereo.py:97-191 | the bucket an outcome writes: `failure-trajectories`, `exported`, or `errored` |
| Cache.Message | scripts/annotation/stereo-conversion/full_svo2stereo.py:131-189 | the message an outcome records in `errored` |
| Cache.Pop | scripts/annotation/stereo-conversion/full_svo2stereo.py:99 | `cache[bucket].pop(k)` |
| Cache.Settle | scripts/annotation/stereo-conversion/full_svo2stereo.py:97-191 | writing the outcome's bucket, then popping the iterated bucket unless it is the target; an interrupt records nothing; its properties are the `Settle…` lemmas |
| Cache.Sweep | scripts/annotation/stereo-conversion/full_svo2stereo.py:88-191 | the loop over a snapshot as a function: settle each key in turn, stop at the first interrupt; its properties are the `Sweep…` lemmas |
| Cache.Successes | scripts/annotation/stereo-conversion/full_svo2stereo.py:85-164 | `n_success` after the loop: handled keys counted as successes |
| Cache.Errors | scripts/annotation/stereo-conversion/full_svo2stereo.py:85-183 | `n_errored` after the loop: handled keys counted as errors |
| Cache.Exceptions | scripts/annotation/stereo-conversion/full_svo2stereo.py:185-191 | handled keys whose exception was caught, counted by neither counter |
| Cache.SettleLocal | scripts/annotation/stereo-conversion/full_svo2stereo.py:98-99 | recording and popping one key leaves every other key as it was |
| Cache.SettleCongruent | scripts/annotation/stereo-conversion/full_svo2stereo.py:98-99 | what recording does to a key depends only on that key's entries |
| Cache.SettlePartitioned | scripts/annotation/stereo-conversion/full_svo2stereo.py:97-191 | from a partitioned ledger, settling a key that sat in one bucket keeps the ledger a partition |
| Cache.Handled | scripts/annotation/stereo-conversion/full_svo2stereo.py:88-191 | the keys handled are the prefix of the snapshot before the first interrupt |
| Cache.HandledThrough | scripts/annotation/stereo-conversion/full_svo2stereo.py:88-191 | the loop gets past position `i` iff no key up to `i` was interrupted, so a failed, skipped or raising key never ends it |
| Cache.CountersCoverHandled | scripts/annotation/stereo-conversion/full_svo2stereo.py:85-191 | successes, counted errors and caught exceptions add up to the number of handled keys |
| Cache.SweepAt | scripts/annotation/stereo-conversion/full_svo2stereo.py:88-191 | after the loop, a snapshot key has been settled once if it was handled, and is untouched otherwise |
| Cache.SweepMoves | scripts/annotation/stereo-conversion/full_svo2stereo.py:88-191 | on any ledger, after the loop a handled key sits in its target bucket and, when that differs, has left the iterated bucket |
| Cache.SweepOnlyTouchesSnapshot | scripts/annotation/stereo-conversion/full_svo2stereo.py:88 | keys outside the snapshot are untouched by the loop |
| Cache.SnapshotOfBucket | scripts/annotation/stereo-conversion/full_svo2stereo.py:88 | in a partitioned ledger, the distinct keys of one bucket each sit in that bucket alone |
| Cache.SweepPlaces | scripts/annotation/stereo-conversion/full_svo2stereo.py:88-191 | when every snapshot key sits in the iterated bucket alone, every handled key ends in its outcome's bucket alone, with its stamp and message |
| Cache.SweepPartitioned | scripts/annotation/stereo-conversion/full_svo2stereo.py:88-191 | from a partitioned ledger, the loop keeps the ledger a partition |
| Cache.SweepSnapshot | scripts/annotation/stereo-conversion/full_svo2stereo.py:88-191 | from a partitioned ledger and a bucket's keys, the loop leaves a partition with each handled key in its target bucket |
| Cache.SweepDrainsNew | scripts/annotation/stereo-conversion/full_svo2stereo.py:88-191 | a loop over all of `new` that is never interrupted leaves `new` empty |
| Cache.SweepKeepsNew | scripts/annotation/json2stitched.py:82-132 | the retry loop never changes `new` |
| Cache.SweepNewMonotone | scripts/annotation/stereo-conversion/full_svo2stereo.py:88-191 | on any ledger, the stereo loop over `new` only adds keys to `exported`, `failure-trajectories` and `errored` |
| Cache.SweepErroredMonotone | scripts/annotation/json2stitched.py:82-132 | the retry loop only removes keys from `errored`, and only adds keys to `exported` and `failure-trajectories` |
| Cache.SettleSizes | scripts/annotation/stereo-conversion/full_svo2stereo.py:97-191 | settling one `new` key grows `exported` + `failure-trajectories` by one exactly on a success, grows `errored` by one on an error or exception, and shrinks `new` by one |
| Cache.SweepSizes | scripts/annotation/stereo-conversion/full_svo2stereo.py:85-191 | from a partitioned ledger and a snapshot of `new`, `exported` + `failure-trajectories` grow by `n_success`, `errored` by `n_errored` plus the exceptions, and `new` shrinks by the number of handled keys |
| StereoConversion.NonUsableSkipsConversion | scripts/annotation/stereo-conversion/full_svo2stereo.py:96-106 | metadata with `success` false sends the key to `failure-trajectories`, counts as a success, and issues no download or upload |
| StereoConversion.ExportedIffAllSucceed | scripts/annotation/stereo-conversion/full_svo2stereo.py:157-164 | a key is exported iff the metadata is usable, the downloads succeed, all three exports succeed and all three uploads succeed; it then issues exactly the metadata fetch, three downloads, three exports and three uploads |
| StereoConversion.ConvertFailureSkipsUpload | scripts/annotation/stereo-conversion/full_svo2stereo.py:122-145 | a failed export goes to `errored`, counts as an error and issues no upload; its message is `ConvertMessage` of the three export flags, and those flags read back from it |
| StereoConversion.ConvertFailedMessage | scripts/annotation/stereo-conversion/full_svo2stereo.py:131-137 | a conversion failure's message is `ConvertMessage` of the export flags, which read back from it |
| StereoConversion.UploadFailureIsErrored | scripts/annotation/stereo-conversion/full_svo2stereo.py:166-183 | an upload failure happens only after all three exports succeeded, goes to `errored` and counts as an error; its message is `UploadMessage` of the three upload flags, and those flags read back from it |
| StereoConversion.ExceptionIsErrored | scripts/annotation/stereo-conversion/full_svo2stereo.py:185-191 | a caught exception at any stage goes to `errored` with `Error: <exception>` and increments neither counter |
| StereoConversion.StereoOutcomeOfAnswers | scripts/annotation/stereo-conversion/full_svo2stereo.py:89-191 | from the answers: the key is interrupted iff a stage it reaches is interrupted; it fails with `e` iff a stage it reaches raises `e`; it records conversion (upload) flags iff the downloads went through (and all exports succeeded) and some export (upload) flag is false, and then it counts toward `n_errored` |
| StereoConversion.StereoOutcome | scripts/annotation/stereo-conversion/full_svo2stereo.py:89-191 | the loop body's decision for one key, branch by branch; characterized by the lemmas above |
| StereoConversion.SvoDownloads | scripts/annotation/stereo-conversion/full_svo2stereo.py:118-120 | the three SVO downloads into the scratch directory |
| StereoConversion.SvoExports | scripts/annotation/stereo-conversion/full_svo2stereo.py:123-125 | the three stereo exports |
| StereoConversion.StereoUploadTargets | scripts/annotation/stereo-conversion/full_svo2stereo.py:148-154 | every upload a key's handling issues sends one view's stereo MP4 to that view's stereo key, which for an `.mp4` relpath is neither the view's MP4 key nor the SVO key it was converted from, so the upload overwrites neither |
| StereoConversion.StereoUploads | scripts/annotation/stereo-conversion/full_svo2stereo.py:152-154 | the three uploads of the stereo MP4s to the stereo keys |
| StereoConversion.StereoTrace | scripts/annotation/stereo-conversion/full_svo2stereo.py:89-154 | the requests one key's handling issues, up to the stage where it stops |
| FusedRetry.RetryNonUsable | scripts/annotation/json2stitched.py:90-95 | metadata with `success` false moves the key from `errored` to `failure-trajectories` after only the metadata fetch |
| FusedRetry.RetryExportedIffUploaded | scripts/annotation/json2stitched.py:112-120 | a key is exported iff the metadata is usable, both downloads and ffmpeg succeed, the stem has a second `_` field, and the upload is accepted; it then issues exactly fetch, two downloads, ffmpeg and the upload to the fused name |
| FusedRetry.RetryFailureStaysErrored | scripts/annotation/json2stitched.py:113-132 | every other outcome is an exception that keeps the key in `errored` with `Error: <text>`; a stem without `_` fails with `list index out of range` before any upload; a rejected upload records its error text |
| FusedRetry.RetryInterruptedOfAnswers | scripts/annotation/json2stitched.py:82-132 | from the answers: the retry of a key is interrupted iff a stage it reaches is interrupted; a raised download, ffmpeg or upload never is |
| FusedRetry.RetryFailedOfAnswers | scripts/annotation/json2stitched.py:83-132 | from the answers: the key records `Error: e` iff a stage it reaches raises `e`, or the stem has no `_` and `e` is `list index out of range`, or the upload is rejected with `e` |
| FusedRetry.RetryOutcome | scripts/annotation/json2stitched.py:83-132 | the retry loop body's decision for one key, branch by branch; characterized by the lemmas above |
| FusedRetry.Mp4Downloads | scripts/annotation/json2stitched.py:102-103 | the left and right MP4 downloads into the scratch directory |
| FusedRetry.RetryTrace | scripts/annotation/json2stitched.py:83-114 | the requests one key's retry issues, up to the stage where it stops |
| Ledger.KeysOf | scripts/annotation/stereo-conversion/full_svo2stereo.py:88 | `list(d.keys())` lists every key of the dictionary exactly once |
| Ledger.Listing | scripts/annotation/stereo-conversion/full_svo2stereo.py:60-64 | the keys of every page of the listing, page after page, in order |
| Ledger.ListingMembers | scripts/annotation/stereo-conversion/full_svo2stereo.py:63-64 | a key is in the listing iff some page holds it |
| Ledger.LedgerState.constructor | scripts/annotation/stereo-conversion/full_svo2stereo.py:53-56 | the ledger holds the buckets it is given |
| Ledger.LedgerState.Rebuild | scripts/annotation/stereo-conversion/full_svo2stereo.py:59-75 | the pages are walked in order, skipping `_timestamps.json` and non-JSON keys; the result is `Admit` of the listing, the other buckets are unchanged, and a key is in `new` iff it was before or it is listed and admissible |
| Ledger.LedgerState.Remove | scripts/annotation/stereo-conversion/full_svo2stereo.py:99 | `cache[bucket].pop(k)` removes `k` from that bucket only |
| Ledger.LedgerState.Record | scripts/annotation/stereo-conversion/full_svo2stereo.py:97-191 | writing the outcome's bucket and then popping the loop's bucket (unless it is the target) gives `Settle` |
| Ledger.LedgerState.ProcessStereo | scripts/annotation/stereo-conversion/full_svo2stereo.py:89-191 | one key's handling returns `StereoOutcome`, issues `StereoTrace`, and leaves the ledger settled for that key |
| Ledger.LedgerState.StereoTurn | scripts/annotation/stereo-conversion/full_svo2stereo.py:88-191 | one loop turn stops exactly on an interrupt; otherwise the remaining work and the counters advance by one key |
| Ledger.LedgerState.RunStereo | scripts/annotation/stereo-conversion/full_svo2stereo.py:84-191 | the loop walks a snapshot of `new` with each key once, ends in `Sweep` of that snapshot, and returns `n_success` and `n_errored` as counted by `Successes` and `Errors` |
| Ledger.LedgerState.ProcessRetry | scripts/annotation/json2stitched.py:83-132 | one key's retry returns `RetryOutcome`, issues `RetryTrace`, and leaves the ledger settled from `errored` |
| Ledger.LedgerState.RetryTurn | scripts/annotation/json2stitched.py:82-132 | one retry turn stops exactly on an interrupt; otherwise the remaining work advances by one key |
| Ledger.LedgerState.RunRetry | scripts/annotation/json2stitched.py:80-132 | the retry loop walks a snapshot of `errored` with each key once and ends in `Sweep` of that snapshot |
| Scripts.FullSvoToStereo | scripts/annotation/stereo-conversion/full_svo2stereo.py:45-196 | the cache file (or the empty ledger), optionally rebuilt, is swept over `new`; the final ledger is written to the cache file in every case and no other ledger file changes |
| Scripts.ShardedSvoToStereo | scripts/annotation/stereo-conversion/sharded_svo2stereo.py:45-182 | a missing shard file stops the run before any work with the disk unchanged; otherwise the shard's ledger is swept over `new` and written back to the shard's path |
| Scripts.JsonToStitched | scripts/annotation/json2stitched.py:41-137 | the cache file (or the empty ledger), optionally rebuilt, is swept over `errored` and written back in every case |
| Scripts.Loaded | scripts/annotation/stereo-conversion/full_svo2stereo.py:53-56 | the ledger a run starts from: the cache file's contents, or the empty ledger when it does not exist |
| Scripts.Indexed | scripts/annotation/stereo-conversion/full_svo2stereo.py:58-80 | the ledger after the optional rebuild step |
| Scripts.StereoRunLeavesLedger | scripts/annotation/stereo-conversion/full_svo2stereo.py:84-196 | on any ledger, after a stereo run each handled key has left `new` and sits in its outcome's bucket; the interrupted key, the keys after it and the keys outside the snapshot are untouched; `new` is empty when nothing was interrupted; `exported`, `failure-trajectories` and `errored` only gain keys |
| Scripts.StereoRunKeepsPartition | scripts/annotation/stereo-conversion/full_svo2stereo.py:84-196 | from a partitioned ledger, a stereo run leaves a partition with each handled key in exactly one bucket (its outcome's), and bucket sizes grown by `n_success`, `n_errored` and the caught exceptions |
| Scripts.RetryRunLeavesLedger | scripts/annotation/json2stitched.py:80-137 | on any ledger, after a retry run each handled key sits in its outcome's bucket and has left `errored` unless it failed again; unhandled keys are untouched; `new` is unchanged; `errored` only shrinks; `exported` and `failure-trajectories` only grow |
| Scripts.RetryRunKeepsPartition | scripts/annotation/json2stitched.py:80-137 | from a partitioned ledger, a retry run leaves a partition with each handled key in exactly one bucket (its outcome's) |

## Left out

- The object store (boto3 sessions, paginator, `download_file(obj)`, `upload_file`) is left out. Each key's handling gets its answers from a per-key oracle (`StereoAnswers`, `FusedAnswers`), and the listing is a parameter (`pages`). A failure of the listing itself is not modelled.
- The ZED SDK `export_mp4` and the `ffmpeg` subprocess are reduced to the results they report: one flag per view, or success, a raised exception, or an interrupt.
- Interrupts are modelled only during a key's four stages (metadata fetch, downloads, exports/ffmpeg, uploads). A `KeyboardInterrupt` between writing the target bucket and popping `new` would leave the key in two buckets. One in `progress.update()` after the pop would leave the key settled although the model counts it as untouched. Neither is modelled.
- Exceptions are modelled per stage: metadata fetch, downloads, exports/ffmpeg, uploads. Which of the three downloads, exports or uploads raised is not distinguished: a raising stage is modelled as issuing all three of its calls, while the source stops at the call that raised. An exception raised after a key was already popped (for example by the progress bar), which would make the handler's own `pop` raise `KeyError`, is not modelled.
- Pickle and JSON serialization are left out. A file holds a `Buckets` value. A corrupt or wrongly shaped file is not modelled. A missing file yields the empty ledger, except for the shard file, whose absence stops the run.
- `utcnow()` is not a clock here. The rebuild stamps every admitted key with one `now`, and each key's handling carries its own stamp in its answers. The timestamp format is not modelled.
- The tqdm progress bars (including `set_description()` in place of `update()` on the upload-failure path), console output and `os.makedirs` are left out.
- Path joins with `pathlib` are modelled as joining with `/`. `Path.name` and `.stem` are modelled for keys without a trailing `/`.
- `REBUILD_CACHE` is the constant `False` in the scripts. It is a parameter (`rebuildCache`) here, so both paths are modelled.
- Dictionary iteration order is left out. `KeysOf` returns the keys each exactly once in an unspecified order, and every loop contract is stated for the order it returns.
- Python's `KeyError` from `pop` on an absent key is not modelled. Removing an absent key changes nothing here, and the per-key methods require the key to be in the bucket being iterated.
- How shard files are produced is not part of the scripts and is not modelled. `manifests.py`, `trajectory2json.py`, `copy_json.py` and `visualize_data.py` are not part of this model.
- The scratch directories (`/tmp/r2d2-stereo-conversion`, `/tmp/r2d2-conversion`) and the files the scripts download and export into them are not part of `Disk`. Only their paths appear, in the calls a key's handling issues; `Disk` holds the ledger files alone.
- The ZED export's output location and the contents of the uploaded videos are not modelled. Only the paths of the calls are.
