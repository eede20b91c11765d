# skopeo-image-share: a verified model

skopeo-image-share copies container images between two machines. Each side keeps a store: a pool of
blobs named by digest (`share/<algo>/<hex>`), and one dump directory per image
(`<host>/<repo>/_tags/<tag>` or `_digests/<hex>`) with two small files, `index.json` and `oci-layout`.
A push or pull takes, per image, the closure of digests its manifest names, ships what the other side
does not list, and tells the receiver to load the image. Transfers may be cut off anywhere and resumed.

This project models that program in Dafny and proves what it is for: a name in the pool always means
complete content; an image that is loaded has everything it needs; nothing is sent twice; what was
stored can be enumerated again; and the texts the program prints are read back as they were meant.

## How the model is laid out

| module | what it models |
|---|---|
| `Base`, `Text`, `SlashPath` | options and results; the string functions used; slash paths cleaned by a stack (`Clean`, `JoinPath`, `KeyOf`) |
| `ImageRefs` | `pkg/imageref`: `Parse` as a method, its specification `ParseSpec`, the printer `String` |
| `RefGrammar` | the reference syntax as a grammar, written without the parser: which texts are accepted, what they denote, and why the others are rejected |
| `Digests`, `Layout` (one file) | digests, pool paths, dump directories and their decoder |
| `ShellQuote` | `shellQuote` and a tokeniser after sections 2.2.1, 2.2.2 and 2.3 of the POSIX.1-2017 Shell Command Language |
| `SftpFs` | lexical path resolution and `RemoveAll` |
| `Transfer` | one blob's transfer as a small-step machine (`Next`, `Step`, `Run`): any operation may fail, and a failed one may have taken effect |
| `Workers` | `PutBlobs` as a machine (`Advance`, `Exec`): a dispatching loop, workers, the caller's cancellation, in any interleaving |
| `Overtaking` | when one upload of a job can be in place while an earlier, missing one is not |
| `Accounting` | the bytes a job appends against the bytes it counts as sent |
| `Vfs`, `OciDirs` | the mutable file system and the class `FsOciDirs` with `putOne`, `PutBlobs`, `PutTagFile` as imperative methods, proved to be runs of the two machines |
| `OciImage` | manifests, the closure, reading a dump |
| `Inventory`, `DumpWalk` | what a store lists: blobs, images, digests; the tree walk |
| `Plan`, `Ship`, `PushPull`, `Runs` | one image's plan, tag files, blobs and load; whole push and pull runs |
| `Guarantees` | what a finished run means for a reader of the store or of the reports |
| `Interrupted` | what an unfinished one means: which images survive it, and what the next one is misled to do |

How the two machines and the methods fit together: `Transfer.Step` is one file operation of `putOne`,
`OciDirs.FsOciDirs.PutOne` is `putOne` itself and its contract says that whatever it does to the file
system is a run of `Transfer`. `Workers.Advance` lets one worker do one such step (or the dispatcher one
of its own), so `Workers.Exec` over all `schedule`s is every interleaving; a schedule that ends early is
a crash. `OciDirs.FsOciDirs.PutBlobs` carries out one such schedule, picked at will, to its end.
`PushPull.Leaves` collects every state the transfer of one image can end in: none, one or both tag files
written, or both and the blobs as far as some schedule brought them. `Runs.PushOne` and `Runs.PullOne`
prove that they end in such a state, and `Interrupted` reasons about all of them.

## What is assumed

- `Truth` gives for each digest the content it names. `Honest` uploads announce that content's length
  and their reader serves only that content (pkg/skopeoimageshare/ocidirs.go:56-65). `SafeIffSizeHonest`
  shows the length condition is not only sufficient but necessary.
- Part files found at the start are prefixes of the content or too long (`GoodPart`), finals are correct
  (`SoundPool`). Writes go where they are told and rename is atomic. One invocation per base directory.
- JSON is a `Codec` of functions; where a pull encodes again what it decoded, `RoundTrips` asks that
  decoding inverts encoding. SHA-256 is the codec's `digestBytes`.
- The external programs are inputs: `Dump` (what `skopeo copy` leaves in the local layout, arbitrary when
  it fails), the raw manifest, and whether a load works. The live digests of another transport are an
  arbitrary set, or a listing that fails. The peer's store does not change during a pull.
- Cancellation can come at every poll and between any two moves of a transfer. What is said of pools,
  counts and totals holds for cancelled runs too; what is said of a load holds for every load that the
  caller had not cancelled before, and only the last load of a run can be one it had.
- A store remembers in the ghost field `faulty` whether one of its operations failed so far that had no reason
  to. What a method may do only for cause is stated with it: without a new failure and a cancellation it
  fails exactly if (or only if) the inputs leave it no other way.
- `PutBlobs` gives its counters as they are after the group was waited for (fsocidirs.go:114).
- A copy may go on after its group was cancelled, or stop: the library's cancellable reader is not part of
  this model. Where it makes a difference (`OvertakesIff`) both cases are stated.
- Opening and reading a tag file or a manifest may fail at any time, as may every other file operation.

## Where code and documentation differ, or the code surprises

The model follows the code.

- An iterator error does not cancel the group: it only ends the loop (fsocidirs.go:91-94 against 78-80).
  See `IteratorErrorCancelsNothing`.
- `Sent` counts a blob whose part file was complete and was only renamed, with its full size, though its
  source is never opened (fsocidirs.go:165-169 against ocidirs.go:74). `SentOpensSource` says when, and
  `SentIsAppendedAndResumed` what `BytesSent` then counts.
- A blob of size 0 is transferred only if an empty final or part file is already there, since otherwise a
  file that does not exist is renamed (fsocidirs.go:165-169). See `FaultlessOutcome`.
- A size that is unknown reads as 0 (push.go:347-355) and can install an empty file in place of the
  content. See `SafeIffSizeHonest`.
- Cancelled between uploads, `PutBlobs` returns no error although not every blob was accepted
  (fsocidirs.go:95-97). See `NilErrorIffAccepted` and `CancelledReportsNoError`.
- `enumerateOCI` claims the closure of every readable dump, present or not (enumerate.go:194-196), so a
  pull cut off between manifest and layers makes a later pull skip missing layers. Only an `oci` local
  store is enumerated this way, and its load step does nothing (local.go:171-174), so that pull reports
  success over an incomplete store. `CutClaimsIff` says exactly which missing blobs a cut can make the
  store claim, `CutMisleadsNext` what the next pull does, and `LayoutHasSoundIff` when such a have-set can
  be trusted. One slot is not enough to rule it out: the dispatcher tests for cancellation before it waits
  for the slot (fsocidirs.go:95-98), so the upload right after a broken one still gets its worker.
- The tag files of an image are replaced before its blobs arrive (push.go:218-225), so a later transfer to
  the same dump directory that stops in between breaks an image that was loadable. `SurvivesIff` says
  exactly when an image survives every point at which a transfer can stop.
- References may contain the segments "." and ".." (`DotsAccepted`); their dump directories do not decode
  to them or lie outside the base. See `DumpDirRoundTripIff`.
- The blob listing yields every file name of 64 characters, hexadecimal or not (remote.go:337-341).
  `AllListedValidIff` says when all it yields are digests.
- Opening `a` and resolving `b` there equals resolving `a + "/" + b` for all accepted names except the
  empty `a`, for which the joined text is absolute (sftpfs.go:217-223). See `OpenUnrootedComposes`.

## Model

| member | source | states |
|---|---|---|
| Transfer.CrashStatesExact | pkg/skopeoimageshare/fsocidirs.go:120-212 | the final/part pairs a `putOne` from a given pair can leave, over every run with any fault at any step, are exactly those `Between` describes; each is reached by some run and no other is |
| Transfer.RunKeepsAt | pkg/skopeoimageshare/fsocidirs.go:120-212 | at every point of every run the files, the start offset and both file positions are as the operation at hand implies |
| Transfer.SafeIffSizeHonest | pkg/skopeoimageshare/fsocidirs.go:145-205 | with a reader that serves the content, every run keeps the final file untouched or complete and the part file a prefix or oversize, if and only if the announced size is the content's length |
| Transfer.BetweenIsSafe | pkg/skopeoimageshare/fsocidirs.go:145-205 | for an honest upload each pair a transfer can leave is safe: the final file is as before or the content, the part file a prefix or oversize |
| Transfer.FaultlessOutcome | pkg/skopeoimageshare/fsocidirs.go:129-212 | a run without faults succeeds if and only if the final file or part file was complete or the source is readable from the part's end; then the final file is exactly part plus rest and the part file is gone; at size 0 exactly if an empty file was there |
| Transfer.EndsAs | pkg/skopeoimageshare/fsocidirs.go:129-212 | how every fault-free transfer ends and what it leaves, case by case: a final file of the right length is left alone; a part file of that length becomes the final file; a shorter one is completed with the rest of the source; one too long is removed first; otherwise it fails with at most that done |
| Transfer.PositiveCanFinish | pkg/skopeoimageshare/fsocidirs.go:165-212 | a blob of positive size whose source has that many bytes can be transferred from any pair of files |
| Transfer.StepRanks | pkg/skopeoimageshare/fsocidirs.go:120-212 | every step of a running transfer lowers a natural number, so every run stops |
| Transfer.StepAccounts | pkg/skopeoimageshare/fsocidirs.go:145-205 | what a step appends to the part file is what it brings the blob closer to complete |
| Transfer.ResumeAccounting | pkg/skopeoimageshare/fsocidirs.go:145-205 | over any sequence of interrupted attempts the bytes appended equal the progress made; progress is never lost, none is written twice |
| Transfer.FinishedAccounting | pkg/skopeoimageshare/fsocidirs.go:145-205 | once an attempt succeeds, all attempts together appended exactly size minus the usable initial part; the final file has that size and the part file is gone unless the blob was complete before |
| Transfer.SentOpensSource | pkg/skopeoimageshare/fsocidirs.go:129-180 | in every run that succeeds the source was opened at most once: never for a blob that was complete, and for one counted as sent never if and only if its part file was already as long as the blob |
| Workers.ExecKeepsInv | pkg/skopeoimageshare/fsocidirs.go:81-115 | after every schedule each upload's files are where its own worker's transfer puts them, no other file changed, and the counters are the sum over the workers that returned |
| Workers.CrashSafe | pkg/skopeoimageshare/fsocidirs.go:81-212 | over any number of invocations, each with any interleaving and cut off anywhere, every pool file is as before or complete and correct, every part file a prefix or oversize, and nothing outside the pool changes |
| Workers.ScheduleIndependence | pkg/skopeoimageshare/fsocidirs.go:86-114 | for distinct digests every interleaving that ends with no worker broken leaves the same file map and counters as a prefix of the uploads done one after the other, in iterator order; the prefix is the whole list if and only if the loop was not cut; sent plus reused is its length |
| Workers.SequentialSettles | pkg/skopeoimageshare/fsocidirs.go:120-212 | done one after the other, each upload's files end as they would alone, and all other files stay |
| Workers.NilErrorIffAccepted | pkg/skopeoimageshare/fsocidirs.go:90-114 | ending without error, a job accepted all uploads if and only if the cancellation check did not cut the loop; uncancelled it never does |
| Workers.CancelledReportsNoError | pkg/skopeoimageshare/fsocidirs.go:95-97 | cancelled before the first upload, a job with uploads does nothing and reports no error |
| Workers.EveryMoveProgresses | pkg/skopeoimageshare/fsocidirs.go:90-114 | each move changes nothing or lowers a natural number, so no schedule goes on for ever |
| Workers.NeverStuck | pkg/skopeoimageshare/fsocidirs.go:87-98 | until the job is over some fault-free move makes progress: the slot limit cannot deadlock |
| Workers.QuietOutcome | pkg/skopeoimageshare/fsocidirs.go:90-114 | a fault-free, uncancelled job ends with everything transferred if and only if each upload could be transferred on its own |
| Workers.LimitKept | pkg/skopeoimageshare/fsocidirs.go:87 | at no point of any schedule more workers are at work than the limit allows |
| Workers.AllReached | pkg/skopeoimageshare/fsocidirs.go:81-115 | where every upload can be transferred, some schedule ends without error with the files and counters of the sequential transfers |
| Workers.PrefixReached | pkg/skopeoimageshare/fsocidirs.go:81-115 | a job can be cut off just after any number of its uploads, in order, were transferred |
| Workers.AllButReached | pkg/skopeoimageshare/fsocidirs.go:81-115 | with two slots a job can be cut off just after its first uploads but one were transferred, whether or not that one could be |
| Workers.IteratorErrorCancelsNothing | pkg/skopeoimageshare/fsocidirs.go:90-114 | with an iterator that ends in an error some schedule transfers every upload it gave, and the job reports the error only then |
| Overtaking.OvertakesIff | pkg/skopeoimageshare/fsocidirs.go:86-113 | over every schedule of a job, upload m can be in place while l, missing at the start, is not, if and only if m was there before, or comes first, or there are two slots, or m comes right after l; if copies stop once the group is cancelled, in the last case if and only if m's part file is complete |
| Overtaking.OneSlotExec | pkg/skopeoimageshare/fsocidirs.go:87-98 | with one slot all workers but the last have returned, and all but the last two have counted |
| Accounting.JobAccounts | pkg/skopeoimageshare/fsocidirs.go:145-205 | at every point of every schedule, faults and cancellations included, the bytes appended are those by which the uploads together got closer to complete |
| Accounting.SentIsAppendedAndResumed | pkg/skopeoimageshare/fsocidirs.go:103-111 | when a job ends with no worker broken, its `BytesSent` is what it appended plus the part file bytes it resumed from |
| Accounting.SessionsAccount | pkg/skopeoimageshare/fsocidirs.go:145-205 | over any number of cut-off attempts at the same uploads nothing is appended twice |
| Accounting.SessionsFinish | pkg/skopeoimageshare/fsocidirs.go:145-205 | once an attempt accepts all of them, all attempts together appended exactly the bytes missing at the very start |
| OciDirs.FsOciDirs.PutOne | pkg/skopeoimageshare/fsocidirs.go:120-212 | the imperative transfer of one blob is a run of the machine from the files before to the files after, ends finished exactly when it returns no error, touches two files only and makes at most the pool directory of its blob; without a failing operation it returns an error exactly if the files and the source leave it no way to finish |
| OciDirs.FsOciDirs.FindStart | pkg/skopeoimageshare/fsocidirs.go:145-163 | the part file is inspected and an oversize one removed; the start offset is the machine's; it fails only if an operation did |
| OciDirs.FsOciDirs.CopyFrom | pkg/skopeoimageshare/fsocidirs.go:172-211 | opening, seeking, copying, closing and renaming are the machine's steps; without a failing operation its run is fault-free |
| OciDirs.FsOciDirs.CopyChunks | pkg/skopeoimageshare/fsocidirs.go:195-203 | the copy loop reads and writes chunk after chunk from the start offset on, as the machine does; a partial write is a failed step that landed; it fails only if an operation did |
| OciDirs.FsOciDirs.RenamePartFile | pkg/skopeoimageshare/fsocidirs.go:165-206 | the rename is the machine's last step and reports the blob as sent |
| OciDirs.FsOciDirs.PutBlobs | pkg/skopeoimageshare/fsocidirs.go:81-115 | a job of distinct digests runs to its end under some schedule; files, counters, error and cancellation are that schedule's, and only pool directories are made; without a failing operation and uncancelled it returns an error exactly if the iterator fails or some upload cannot be transferred |
| OciDirs.FsOciDirs.PutTagFile | pkg/skopeoimageshare/fsocidirs.go:216-233 | on success the named file of the reference's dump directory has the given bytes and the directory is made; a failure leaves everything or has written that file or made that directory; nothing else changes; it fails only if an operation did or the reference has no dump directory |
| OciDirs.FsOciDirs.constructor | pkg/skopeoimageshare/fsocidirs.go:44-49 | the worker limit is at least 1 |
| Digests.KeysNeverCollide | pkg/skopeoimageshare/fsocidirs.go:126-145 | no final file is any blob's part file, and distinct digests have distinct final and part files |
| Digests.BlobPathKey | pkg/skopeoimageshare/paths.go:115-123 | the joined and cleaned blob path leads to `share`, algorithm, hex |
| Digests.PartPathKey | pkg/skopeoimageshare/fsocidirs.go:145 | the part path is the blob path with `.part` on its last name |
| Digests.DigestSpelled | pkg/ocidir/manifest.go:85-94 | a text is a digest exactly if it is sha256, sha384 or sha512, a colon, and 64, 96 or 128 lower-case hex digits; splitting gives the two parts back |
| Digests.PoolPlaces | pkg/skopeoimageshare/paths.go:115-123 | the blob of such a digest lies at `share/<algo>/<hex>`, its unfinished part at the same place with `.part` added |
| Runs.Push | pkg/skopeoimageshare/push.go:79-124 | over a whole run, whatever fails and wherever the caller cancels: it is refused exactly for an empty list, a missing store, a read-only peer or a missing program; it ends for want of a have-set only if none was given and a store operation failed or the caller cancelled; the have-set used is the assumed set or list, or exactly the peer's blob inventory, which is proved sound; the peer's pool stays sound and keeps its blobs; outside it only tag files and dump directories of the images processed change; failures are counted and handled by the keep-going rule, and without a failing operation or a cancellation every image that its dump and the load step allow is pushed, so that if all are the run succeeds; a dry run changes nothing and reports the plan of each inspected image; and `LedgerInv`: every uncancelled load read its dump's manifest, found a complete image that stays loadable if the have-set was sound, and has a report that counts exactly what was missing, each digest was sent at most once, failed images count what they skipped and nothing sent, and totals match |
| Runs.Pull | pkg/skopeoimageshare/pull.go:60-104 | the same for a pull, each image mirroring the peer's: the have-set used is the assumed set or list, or what the store claims, and it is sound if and only if the dumps that were read are complete (`oci` store) or the blobs of the live images are all in the pool (other transports); it ends for want of one only if none was given and an operation failed, the live images cannot be listed, or the caller cancelled |
| Runs.PushAll | pkg/skopeoimageshare/push.go:98-123 | the loop over the images of a push, with what it keeps; cancelled before it begins it processes none |
| Runs.PullAll | pkg/skopeoimageshare/pull.go:79-103 | the loop over the images of a pull |
| Runs.PushOne | pkg/skopeoimageshare/push.go:166-239 | one image: whatever happens the peer ends in a state `Leaves` allows; when its load was called uncancelled, the peer reads the source's manifest, holds all that was not skipped, can load the image if and only if the skipped blobs were there before, and the report counts as sent exactly the planned blobs without a final file before; an error before the delivery leaves the peer untouched; without a failing operation or a cancellation an error has its reason in the dump, the plan or the load step |
| Runs.PullOne | pkg/skopeoimageshare/pull.go:134-207 | the same towards the local side; if the peer's image cannot be read the manifest error is reported, and whenever it is reported nothing changes; without a failing operation or a cancellation an error has its reason in the peer's image, the plan or the load step |
| Runs.PlanAndDeliver | pkg/skopeoimageshare/push.go:183-238 | plan, dry-run report or delivery: reused is the number of skipped digests, sent and bytes are those of the blobs sent, and these are exactly the planned ones without a final file before when the load is reached uncancelled; the load is called exactly when the error is none or the load's own; before the load nothing counts as sent; a failure has its reason (`DeliveryExcused`) unless an operation failed or the caller cancelled |
| Runs.DumpAndDeriveClosure | pkg/skopeoimageshare/push.go:245-292 | the manifest is the one the fresh dump holds, or on a dry run, with nothing written, the raw manifest under the hash and length of its bytes; it fails on a dry run exactly without raw bytes that parse, otherwise only if the dump failed or cannot be read or a store operation failed |
| Runs.ServedNoExcuse | pkg/skopeoimageshare/push.go:218-238 | a source with a readable image, both tag files and every blob of it, none empty, leaves a delivery no reason to fail but the load step |
| Runs.LedgerImage | pkg/skopeoimageshare/push.go:99-122 | processing one more image, successful or failing, keeps the whole record sound, though the have-set is never updated |
| Runs.LoadStaysOk | pkg/skopeoimageshare/push.go:98-123 | an image loaded earlier keeps its closure through a later image, and stays loadable unless that one is dumped at the same place |
| Runs.OtherDumpStays | pkg/skopeoimageshare/push.go:296-311 | processing an image leaves the tag files of every other dump directory as they were |
| Runs.NewLoadOk | pkg/skopeoimageshare/push.go:183-238 | with a have-set that was sound at the start of the run, a load finds a complete image however stale the set has become |
| Runs.SentTwiceNever | pkg/skopeoimageshare/push.go:89-122 | what one image sends is disjoint from what earlier images of the run sent |
| Runs.NewLoadCounts | pkg/skopeoimageshare/push.go:183-231 | the report of a load counts exactly what its image needed and the receiver lacked, as told from the manifest the receiver now reads |
| Runs.FrameGrows | pkg/skopeoimageshare/push.go:98-123 | over a run only the blob pool and the tag files and dump directories of its images change |
| Runs.AssumedHas | pkg/skopeoimageshare/push.go:146-155 | a have-set given by the caller is used as it is, the set before the list |
| Runs.ResolveRemoteHas | pkg/skopeoimageshare/push.go:145-164 | the have-set is the assumed set or list as it is, else exactly the peer's blob inventory, each of whose digests names a complete blob; it fails only without a given set, after a failing operation or a cancellation |
| Runs.ResolveLocalHas | pkg/skopeoimageshare/pull.go:120-132 | the have-set is the assumed set or list as it is, else exactly the pool together with the closures of the dumps that were read (`oci` store) or with the live images (other transports), and it is sound exactly if that claim is true; it fails only without a given set, after a failing operation, a cancellation or a failing listing of live images |
| Runs.LayoutHasSoundIff | pkg/skopeoimageshare/enumerate.go:165-203 | a have-set read from a layout store names only complete blobs if and only if every dump that was read has its whole closure in the pool |
| Runs.LiveHasSoundIff | pkg/skopeoimageshare/enumerate.go:146-157 | a have-set of live images and pool names only complete blobs if and only if the blobs of the live images are all in the pool |
| Runs.FewerDumps | pkg/skopeoimageshare/enumerate.go:182-193 | if all readable dumps are complete, such a have-set is sound whichever reads fail |
| Guarantees.MirrorMeansSource | pkg/skopeoimageshare/pull.go:186-207 | after an image was shipped and the skipped blobs were there, its manifest and closure read as at the source, and every closure blob reads alike from every offset, in range or not |
| Guarantees.RunMirrors | pkg/skopeoimageshare/pull.go:79-104 | at the end of a whole run every uncancelled load under a sound have-set read its source's manifest, and every blob of its closure reads at the receiver as at the source, from every offset |
| Guarantees.HeldReads | pkg/ocidir/dir.go:134-156 | a held blob reads as its content from any offset up to its length and as an error outside |
| Guarantees.RealWithinPlan | pkg/skopeoimageshare/push.go:190-231 | against the dry run of the same closure and have-set a real run skips as many, sends as many if and only if the receiver had no final file of any planned digest, and otherwise falls short in blobs and bytes by exactly those it had |
| Guarantees.PlanCounts | pkg/skopeoimageshare/push.go:190-205 | a dry run counts as sent exactly the manifest, the config and the layers not listed as had, each digest once, as bytes the sum of their announced sizes, as reused the other layers |
| Guarantees.DryRunCountsManifest | pkg/skopeoimageshare/push.go:273-291 | a dry run of a push counts the raw manifest under the hash of its bytes: it and the config are always among the blobs sent, and unless the config or a layer has its digest it counts with the length of the raw bytes |
| Guarantees.FailedAre | pkg/skopeoimageshare/push.go:102-122 | the failures counted are the reports with an error |
| Guarantees.PullWithinPlan | pkg/skopeoimageshare/pull.go:168-199 | for every uncancelled load of a whole pull, its report falls short of the dry run's by exactly the planned blobs the receiver had at that point |
| Guarantees.RunConservation | pkg/skopeoimageshare/push.go:190-231 | reused, sent, and the planned digests that already had a final file add up to the distinct digests of the closure |
| Guarantees.RunBounds | pkg/skopeoimageshare/push.go:89-122 | over a whole run with no cancelled load the blobs and bytes sent stay within the distinct digests of the loaded images and their sizes |
| Guarantees.PushedStore | pkg/skopeoimageshare/push.go:79-124 | a run into an empty store in which every image came to its load step makes exactly the dump directories of its images |
| Guarantees.PushedIsListed | pkg/skopeoimageshare/remote.go:350-374 | listing the images of that store yields exactly the references that were asked for, each once |
| Interrupted.SurvivesIff | pkg/skopeoimageshare/push.go:218-231 | a loadable image survives every state another transfer from an honest source can end in, if and only if that transfer is for another dump directory, or finds no tag files to write, or its whole closure was held before |
| Interrupted.CutAfterTags | pkg/skopeoimageshare/push.go:218-225 | cut off right after the tag files, a transfer leaves a loadable image only if the whole closure was held before |
| Interrupted.LeavesFrame | pkg/skopeoimageshare/push.go:218-231 | in whatever state a transfer ends, the pool is good, no blob is lost and no other dump directory changed |
| Interrupted.DeliveryExists | pkg/skopeoimageshare/push.go:218-231 | from a source that serves the closure, a transfer into any good store can end with the image shipped |
| Interrupted.PlanOvertakesIff | pkg/skopeoimageshare/push.go:222-231 | the same if-and-only-if as `OvertakesIff` for the sorted plan of an image, told by its digests: there before, sorts first, two slots, or sorts right after the lost blob (with a complete part file, if copies stop when cancelled) |
| Interrupted.CutClaimsIff | pkg/skopeoimageshare/enumerate.go:178-197 | from any good store that lacks a planned blob, a transfer can be cut off so that the image's dump claims the blob and the store lacks it, if and only if the manifest can overtake it (copies may go on after cancellation here) |
| Interrupted.CutClaimsLost | pkg/skopeoimageshare/enumerate.go:178-197 | in such a state the digest inventory of the store claims the blob |
| Interrupted.FalseClaimMisleads | pkg/skopeoimageshare/pull.go:145-207 | with a missing layer in its have-set a transfer can run to its end without fault and leave an image that cannot be loaded |
| Interrupted.CutMisleadsNext | pkg/skopeoimageshare/pull.go:145-207 | both together: after such a cut the next transfer, under every have-set that contains the claim, can end without error over an image that is not complete |
| PushPull.MakePlan | pkg/skopeoimageshare/push.go:183-198 | the plan lists, sorted and once each, the manifest, the config, and every layer the have-set does not list, and nothing else, whatever the have-set claims of manifest and config; with each digest goes the size announced last |
| PushPull.PlanExactly | pkg/skopeoimageshare/push.go:183-198 | every plan lists exactly these digests |
| PushPull.SkippedExactly | pkg/skopeoimageshare/share.go:49-64 | what a run skips are the layers listed as had that are neither its manifest nor its config |
| PushPull.SizeAnnounced | pkg/skopeoimageshare/push.go:347-355 | the size of a digest is that of the last layer that has it and a positive size, else the config's, else the manifest's, else 0 |
| PushPull.ShippedHolds | pkg/skopeoimageshare/push.go:183-238 | of a shipped image the receiver has manifest, config and every layer not listed as had, whatever the have-set claims; it can load the image if and only if the layers it skipped were in place before |
| PushPull.CountReused | pkg/skopeoimageshare/push.go:192-196 | reused is the number of closure digests not in the plan |
| PushPull.SumPlanned | pkg/skopeoimageshare/push.go:201-204 | a dry run's bytes are the sum of the planned sizes |
| PushPull.PlannedBytesHonest | pkg/skopeoimageshare/push.go:201-204 | over an honest closure those bytes are the lengths of the planned contents |
| PushPull.Conservation | pkg/skopeoimageshare/push.go:190-198 | planned plus skipped is the number of distinct closure digests |
| PushPull.DeliverImage | pkg/skopeoimageshare/push.go:218-238 | tag files, then blobs, then load: a tag failure leaves the pool alone, a blob failure leaves the tag files in place and calls no load; the load is called exactly when the error is none or its own; the end state is one `Leaves` allows; sent are digests without a final file before, and when the load is reached uncancelled exactly all planned ones of these, with sent plus reused the length of the plan |
| PushPull.FirstDelivered | pkg/skopeoimageshare/push.go:224-231 | what a transfer without error counted as sent was missing before, tag files notwithstanding, and is held now |
| PushPull.MirrorTags | pkg/skopeoimageshare/push.go:296-311 | in either direction the receiver's index reads as the source's, and only this image's tag files change |
| PushPull.ShippedFromFacts | pkg/skopeoimageshare/push.go:190-238 | from what a finished transfer leaves it follows that the receiver can load the image if and only if every skipped blob was there before |
| PushPull.Endpoint.LoadImage | pkg/skopeoimageshare/local.go:171-191 | records the image, the files the load step finds, and whether the caller had cancelled; an `oci` store always reports success, another as its external copy works |
| Ship.MirrorTagFiles | pkg/skopeoimageshare/push.go:296-311 | on success the receiver's two tag files equal the source's byte for byte; else none, one or both writes took effect, in order; the pool and all other files are as before |
| Ship.MirrorTagFilesFromPeer | pkg/skopeoimageshare/pull.go:214-239 | on success index and layout decode at the receiver as at the source, though encoded again |
| Ship.PutTagFiles | pkg/skopeoimageshare/pull.go:232-237 | layout file first, then index: the files are those after none, one or both writes, both on success, and only the dump directory is made |
| Ship.ShipBlobs | pkg/skopeoimageshare/push.go:224-231 | shipping a plan keeps the pool safe whatever happens; without error the first part of the list is held, all of it if uncancelled, the sent ones are exactly those of it absent before, and bytes are their lengths |
| Ship.FirstShipped | pkg/skopeoimageshare/push.go:224-231 | the same of every schedule that ends with no worker broken |
| Ship.LoadablePersists | pkg/skopeoimageshare/push.go:98-123 | an image that can be loaded stays so while its tag files stay and no blob is lost |
| Ship.LoadableIff | pkg/ocidir/dir.go:167-206 | an image can be loaded if and only if its layout file is there, its manifest can be read, and manifest, config and each layer are in place |
| Ship.LayoutComesFirst | pkg/skopeoimageshare/push.go:301-309 | between the two tag file writes only the layout file is new; after both, both are |
| Ship.TagWriteFrame | pkg/skopeoimageshare/fsocidirs.go:216-233 | a tag file write changes no pool file and no other dump directory |
| Ship.ShipKeepsTagFiles | pkg/skopeoimageshare/fsocidirs.go:81-115 | shipping blobs changes no tag file of any image |
| Ship.JobHolds | pkg/skopeoimageshare/fsocidirs.go:129-212 | over a good pool a finished honest job holds every listed blob, and a blob was complete before exactly if it had a final file |
| Plan.DescriptorDigestSet | pkg/skopeoimageshare/push.go:336-342 | the loop collects exactly the digests of the descriptors |
| Plan.DescriptorSizes | pkg/skopeoimageshare/push.go:347-355 | each digest maps to the last positive size announced for it, and to nothing if there is none |
| Plan.SizeOfLast | pkg/skopeoimageshare/push.go:347-355 | the last descriptor of a digest with a positive size settles its size |
| Plan.SizeOfNone | pkg/skopeoimageshare/push.go:347-355 | without such a descriptor the size is 0 |
| Plan.HonestSize | pkg/skopeoimageshare/push.go:347-355 | over honest descriptors that size is the content's length, and 0 for foreign digests |
| Plan.MapKeyDiff | pkg/skopeoimageshare/share.go:49-64 | the result is pinned together with need minus have |
| Plan.SortedDigests | pkg/skopeoimageshare/push.go:359-366 | the members of the set, each once, in lexical order |
| Plan.SortedUnique | pkg/skopeoimageshare/push.go:357-366 | there is only one such list, so transfers of a plan are listed alike every time |
| Plan.LexIs | pkg/skopeoimageshare/push.go:359-366 | the order of a plan compares texts character by character, a prefix before what it begins |
| Plan.BlobIterHonest | pkg/skopeoimageshare/push.go:315-333 | the uploads of a plan over an honest closure and a sound source are distinct, well-formed and honest |
| Plan.SequentialCounts | pkg/skopeoimageshare/fsocidirs.go:103-111 | a job counts as sent the distinct uploads not complete before, as bytes their lengths, as reused the rest |
| Plan.PlanBoundsRun | pkg/skopeoimageshare/push.go:200-231 | a job sends at most the listed blobs and bytes, and all of them exactly if none was complete |
| OciImage.ReadManifestDependsOn | pkg/ocidir/dir.go:167-195 | reading a manifest looks at the index file and one blob only |
| OciImage.ClosureMembers | pkg/ocidir/dir.go:197-206 | the closure of an image consists of the digests of its manifest, its config and each of its layers, and no others |
| OciImage.ManifestIff | pkg/ocidir/manifest.go:34-60 | bytes are a manifest exactly if they are not empty, decode, name neither of the two index media types, hold no entries without a media type, and have a config digest |
| OciImage.ReadIff | pkg/ocidir/dir.go:167-195 | reading a dump gives a descriptor and a manifest exactly if the first entry of the index file is that descriptor, a well-formed digest whose pool file is that manifest |
| OciImage.LayoutIff | pkg/skopeoimageshare/enumerate.go:231-244 | the layout document of a dump is its layout file, decoded, if it has a version |
| OciImage.BlobReadIff | pkg/ocidir/dir.go:134-156 | reading a blob gives the rest of its pool file from the offset on and the whole size, exactly if the digest is well-formed, the file is there and the offset within it |
| OciImage.TagFileNotInPool | pkg/skopeoimageshare/fsocidirs.go:216-233 | no tag file of any dump directory is a pool file |
| OciImage.TagFilesDiffer | pkg/skopeoimageshare/fsocidirs.go:216-233 | tag files of different dump directories are different files |
| Inventory.ListBlobs | pkg/skopeoimageshare/remote.go:318-346 | yields each digest of the pool's listing exactly once; a missing pool is empty; it fails only after a failing operation or a cancellation |
| Inventory.InventorySpelled | pkg/skopeoimageshare/remote.go:318-346 | what is listed is "sha256:" before each name of 64 characters of a file, not a directory, in `share/sha256` |
| Inventory.InventoryIsPool | pkg/skopeoimageshare/remote.go:329-344 | a well-formed digest is listed if and only if it is a sha256 digest with a final file that is not a directory |
| Inventory.InventoryNeverLies | pkg/skopeoimageshare/remote.go:318-346 | after any number of invocations cut off anywhere, each listed digest is well-formed with a complete correct blob, or names a file that was there unchanged from the start; all are well-formed if and only if there was no such stray file; every sha256 blob is listed, and no part file |
| Inventory.AllListedValidIff | pkg/skopeoimageshare/remote.go:329-344 | every listed name is a digest if and only if no file of the pool has 64 characters that are not one |
| Inventory.ListedIsKnown | pkg/skopeoimageshare/remote.go:329-344 | whatever is listed after a safe change is a well-formed digest or was a file before |
| DumpWalk.WalkDumpDirs | pkg/skopeoimageshare/enumerate.go:281-309 | on every tree the walk ends and returns, each once, exactly the directories host/names/marker/leaf with host not `share` and no earlier marker; it fails only if a listing did |
| DumpWalk.DumpSpelled | pkg/skopeoimageshare/enumerate.go:281-343 | a dump directory is a host other than `share`, names that are no markers, one marker, and a last name |
| DumpWalk.WalkRepoTree | pkg/skopeoimageshare/enumerate.go:314-343 | the same below one directory; it fails only if a listing did |
| DumpWalk.WalkMarker | pkg/skopeoimageshare/enumerate.go:325-335 | exactly the directories directly in a marker directory; it fails only if the listing did |
| DumpWalk.ListImages | pkg/skopeoimageshare/remote.go:350-374 | one result per dump directory: its reference, or an error for a path that does not decode; it fails only after a failing listing or a cancellation |
| DumpWalk.EnumerationRecovers | pkg/skopeoimageshare/remote.go:350-399 | if the dump directories are those of a set of dot-free parsed references, exactly these references come back, each once, with no error |
| DumpWalk.CreatedDumps | pkg/skopeoimageshare/paths.go:104-113 | creating the dump directories of such references, with files directly in them and anything in the pool, makes no other dump directory |
| DumpWalk.EnumerateOci | pkg/skopeoimageshare/enumerate.go:165-203 | exactly the closures of the dumps that were read together with the pool inventory; a dump that cannot be read, or whose reading fails, is skipped; it fails only after a failing operation or a cancellation |
| DumpWalk.UnionShareInventory | pkg/skopeoimageshare/enumerate.go:347-367 | adds exactly the pool inventory |
| DumpWalk.InventoriesAgreeIff | pkg/skopeoimageshare/enumerate.go:165-203 | the digest inventory equals the pool listing if and only if every dump that was read has its closure in it |
| DumpWalk.ChildPath | pkg/skopeoimageshare/enumerate.go:326-337 | joining path texts while walking is extending the sequence of names |
| ImageRefs.Parse | pkg/imageref/imageref.go:67-155 | the imperative parser computes `ParseSpec`, of which `AcceptsIff` and `RejectsIff` say what it is |
| ImageRefs.ParseRepository | pkg/imageref/imageref.go:105-154 | the imperative second half computes `ParseName`: host, path, segment checks and the default tag |
| RefGrammar.AcceptsIff | pkg/imageref/imageref.go:67-155 | a text parses to a reference if and only if it is a name followed by "@sha256:" and 64 hex digits, by ":" and a tag, or by nothing with the tag "latest", and the name is a host with a path, or a path for "docker.io", "library/" put before a single segment there, all segments nonempty and unreserved; host, path, tag and digest are those parts |
| RefGrammar.RejectsIff | pkg/imageref/imageref.go:67-155 | a text is rejected with a complaint if and only if it is empty, what follows its last "@" has no "sha256:" or no 64 hex digits after it, its tag is empty, it names no path, or the first bad segment of its path is empty or reserved |
| RefGrammar.DefaultTagIsLatest | pkg/imageref/imageref.go:144-146 | an accepted text without digest and tag has the tag "latest" |
| ImageRefs.CheckSegments | pkg/imageref/imageref.go:132-142 | the first empty or reserved segment decides |
| ImageRefs.SegmentError | pkg/imageref/imageref.go:132-142 | no error if and only if every segment is nonempty and not reserved |
| ImageRefs.ValidateHex | pkg/imageref/imageref.go:165-179 | accepts exactly the texts of 64 lower-case hex digits |
| ImageRefs.ParseIsCanonical | pkg/imageref/imageref.go:67-155 | every parsed reference is canonical and keeps its text |
| ImageRefs.ParseOfString | pkg/imageref/imageref.go:57-155 | every canonical reference's text parses to it |
| ImageRefs.ParsePrintRoundTrip | pkg/imageref/imageref.go:57-155 | for every accepted text, printing the result and parsing again gives the result, except for the kept text |
| ImageRefs.CanonicalIffParsed | pkg/imageref/imageref.go:67-155 | a reference is canonical if and only if some text parses to it |
| ImageRefs.StringInjective | pkg/imageref/imageref.go:57-62 | different parsed references print differently |
| Layout.DumpDirRoundTrip | pkg/skopeoimageshare/remote.go:379-399 | the dump directory of a dot-free parsed reference decodes to it |
| Layout.DumpDirRoundTripIff | pkg/skopeoimageshare/remote.go:379-399 | among parsed references, it lies inside the base and decodes to its reference if and only if no segment is "." or ".." |
| Layout.DumpDirSpelled | pkg/skopeoimageshare/paths.go:104-113 | the dump directory of a dot-free parsed reference is host, "/", path, and "/_tags/" with the tag or "/_digests/" with the hex |
| Layout.NoDumpDir | pkg/skopeoimageshare/paths.go:104-113 | a reference has no dump directory exactly if it has neither tag nor digest |
| Layout.DecodesIff | pkg/skopeoimageshare/remote.go:379-399 | any path decodes to a reference if and only if host, path and leaf are its pieces around the first "/_tags/", or, if there is none, around the first "/_digests/", host and path not empty |
| Layout.DotsAccepted | pkg/imageref/imageref.go:132-142 | some text with a segment ".." is accepted |
| Layout.RelDumpDirIsNames | pkg/skopeoimageshare/paths.go:88-113 | joining and cleaning changes nothing: the path is host, segments, marker and leaf |
| Layout.DumpDirsDisjoint | pkg/skopeoimageshare/paths.go:102-113 | dump directories of distinct references are never equal or nested, and none lies in the pool |
| Layout.DumpNamesPrefixFree | pkg/skopeoimageshare/paths.go:102-113 | one reference's names begin another's only if they are the same reference |
| Layout.SplitOnMarker | pkg/skopeoimageshare/remote.go:403-409 | cutting a joined path at a marker text cuts it at the first interior element equal to the marker |
| Layout.IndexOfMarker | pkg/skopeoimageshare/remote.go:403-409 | the first occurrence of the marker text is at that element |
| ShellQuote.QuoteArgv | pkg/cli/sshrunner.go:85-96 | the loop builds the specified command line |
| ShellQuote.QuoteRoundTrip | pkg/cli/sshrunner.go:81-96 | for every argv, a shell tokenises the quoted line to exactly argv |
| ShellQuote.LexQuoted | pkg/cli/sshrunner.go:91-93 | a quoted token adds its own characters to the current word, in any context |
| ShellQuote.QuoteInjective | pkg/cli/sshrunner.go:81-96 | different argvs have different command lines |
| SftpFs.AcceptsIffInside | pkg/sftpfs/sftpfs.go:49-78 | a name is accepted if and only if it is relative and no prefix of it has more ".." than ordinary components |
| SftpFs.ResolveExtendsBase | pkg/sftpfs/sftpfs.go:49-62 | the result is clean and its components extend the base's |
| SftpFs.ResolvedElements | pkg/sftpfs/sftpfs.go:49-62 | the components added are those of the cleaned name |
| SftpFs.OpenUnrootedComposes | pkg/sftpfs/sftpfs.go:217-223 | for accepted a and b, resolving b inside the opened a equals resolving a/b if and only if a is not empty |
| SftpFs.InsideConcat | pkg/sftpfs/sftpfs.go:49-78 | the concatenation of two inside names is inside and its components are concatenated |
| SftpFs.SftpServer.RemoveAll | pkg/sftpfs/sftpfs.go:251-291 | deleted at once if the server allows it; else what remains is everything outside the subtree and, inside, the nodes refused, not looked at or not walked to, and what holds them; the errors are exactly the escaping name, the base itself, a failing look at the root, and a refused file |
| SftpFs.SftpServer.RemoveWalked | pkg/sftpfs/sftpfs.go:274-290 | the reverse loop removes every walked node that holds nothing kept, skipping nodes it fails to look at |
| SftpFs.ReverseStep | pkg/sftpfs/sftpfs.go:279-289 | at its turn a node is empty and not kept if and only if nothing at or below it is kept |
| SftpFs.RemovesAllIffNothingKept | pkg/sftpfs/sftpfs.go:251-291 | the subtree goes entirely if and only if no node in it is kept; nothing outside changes |
| SlashPath.CleanIdempotent | pkg/sftpfs/sftpfs.go:54 | cleaning twice is cleaning once |
| SlashPath.CleanPlain | pkg/skopeoimageshare/paths.go:90-97 | joined plain names are already clean and lead where the names say |
| SlashPath.ElementsOfMore | pkg/sftpfs/sftpfs.go:54 | cleaning element by element: "" and "." change nothing, ".." takes back what can be taken back, any other element is added |
| SlashPath.CleanIs | pkg/sftpfs/sftpfs.go:54 | the cleaned path is these elements joined, after a slash if there was one, "." if there are none |
| SlashPath.KeyOfJoin | pkg/skopeoimageshare/fsocidirs.go:227 | joining one more plain name extends the place by it |

## Left out

- OciDirs.FsOciDirs.PutBlobs: its goroutines appear as moves of a machine, not as calls of `PutOne`; an iterator that yields a digest twice is not modelled (two workers would share open files), and every caller lists a set. `PutOne` and the job meet in the steps of `Transfer` they share.
- Transfer.StepRanks: a chunk is at least one byte; readers that return nothing without an error for ever are not modelled.
- Runs.Push: of a load the caller cancelled before it began only the counts are stated, and of an error only its kind.
- Runs.Pull: as for a push; and the peer's files do not change meanwhile.
- PushPull.Endpoint.LoadImage: whether the external copy works is an input.
- SftpFs.SftpServer.RemoveAll: the walk and the sets of nodes refused or not looked at are given, and do not change while it runs.
- SftpFs.SftpServer.RemoveWalked: as for `RemoveAll`.
- ShellQuote.QuoteRoundTrip: the tokeniser treats double quotes and every other unquoted special character as outside plain word splitting; the quoted line never contains one.
- Plan.SortedDigests: the library sort is a selection of least elements; only its result matters.
- Inventory.ListBlobs: the order of a directory listing is left open.
- Counters are unbounded integers; overflow of 64-bit sizes is not modelled. Negative announced sizes read as 0, as the size map drops them.
- SSH and SFTP connections, process spawning, `Probe`, `NewRemote`, `Close`: foreign calls and timing.
- The skopeo, podman and docker wrappers and their listings, `enumerateViaSkopeoInspect`: inputs of a run.
- JSON text and SHA-256: functions with the laws named above.
- The inside of an atomic tag file write and its temporary directory: one write that happens or not.
- `path.Clean` as a loop over bytes: modelled by what it is documented to do, element by element.
- An error of the group cancels its context at once; the delay until other workers notice is covered by schedules in which they run on.
- Command line, logging, summary lines, redaction, base directory lookup, permissions: plumbing.
- Symbolic links, other writers in the same store, eviction of blobs with wrong content: outside the program's own promises.
