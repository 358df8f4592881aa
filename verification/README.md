# ZeroFS CSI driver: verified model

A Dafny model of the parts of the ZeroFS CSI driver whose correctness depends on the order of
fallible steps. Verify it with `dafny verify dfyconfig.toml`.

**NBD devices.** `NodePublishVolume` and `NodeUnpublishVolume` keep two file-backed indexes, volume to
device (`/run/zerofs-csi/<volume>`, a *record*) and device to volume (`/run/zerofs-csi/by-device/nbdN`,
a *reservation*), beside the kernel's NBD connections, the target mounts and the disk files.

- `NodeHost` is this state; `NbdProtocol` is the small-step system: one program counter per volume, at
  most one change to a file, mount, disk or connection per step, the mutex `nbdMu` explicit, and steps for
  crashes, spontaneous disconnects and the startup reconciler, which looks and detaches without the lock.
  The deferred cleanup of a failed publish clears without the lock, in two removals as in the code, or in
  one step, in the middle of other volumes' locked regions too.
- `NbdInvariant` is the inductive invariant, and the exact condition under which a clear without the lock
  keeps it: a run is *careful* if each of its lock-free removals meets that condition, and the invariant
  holds throughout if and only if the run is careful. `NbdTheorems` draws the consequences for all runs;
  `NbdNecessity` shows, assumption by assumption, a run from a fresh node that goes wrong without it
  (`NbdHistory` and `NbdScripts` put such runs together), and the exact condition under which the
  operation at fault is safe.
- `NbdDevices` and `NodeService` are the imperative code (a class whose methods update its fields).
  Every operation appends the protocol step it has taken to a ghost run, so the theorems about runs hold
  of the code as it is called for one volume at a time; `NodeRegression` applies them, and proves the claim
  of `hack/nbd_regression.sh` for any number of iterations.

**Pods and secrets.** `PodProtocol` is `CreatePod`/`RemovePod` as interleaved steps over the cluster's
objects; `ZerofsMounter` is the imperative code, connected to it in the same way (`PodHistories`);
`PodNecessity` shows from an empty cluster what goes wrong without the two assumptions.

**Object store.** `GoStrings` and `S3Location` compute where a volume's pod writes and where deletion
looks; `S3Cleanup` is the paginated deletion; `VolumeDelete` decides whether to delete, and what.

## Assumptions

Calls: one call is in flight per volume, as the "Concurrency" section of the CSI specification v1.12.0
has it; calls of different volumes interleave freely. Each volume has one target path and shares it with
no other; `findmnt` answers for that exact target, and mounts are one level deep. A volume ID is one path
segment. Index files can be read, their removal succeeds, and `/run/zerofs-csi` survives a driver crash (no
host path is mounted there in `deploy/zerofs.yaml:200-206`). A failed connect leaves the device unconnected,
and a device does not reconnect by itself. mkfs and mount fail on a disconnected device.

The following are fields of `NbdProtocol.Env`, so each theorem says which it uses. The theorems about
runs use `agedSafe`, `umountEnds` and `writesLand` (`Orderly`) and carefulness (`GoodRun`); that a run is
careful is proved where the deferred clear waits for `nbdMu`, whatever detaches fail, where it is one step
at any time and the deferred cleanup's own detaches succeed, whatever others fail (`TameRunsAreCareful`),
and for one volume's calls by themselves (`SoloRunsAreCareful`).

| field | assumption | without it | exactly when it is safe |
|---|---|---|---|
| `deferred` | the two removals of the deferred clear (`pkg/csi/node.go:169-172`), which takes no lock, are one step for everybody else (`OneStep`) or wait for the lock (`UnderLock`); `TwoSteps` is the code as it stands | `UnlockedClearStealsReservation`, `UnlockedClearUndercutsReservation` | `DropStepIsSafeIff`, `ReleaseStepIsSafeIff` |
| `agedSafe` | the two-hour rule (`pkg/csi/nbd.go:208-211`) spares a reservation whose volume records the device | `AgedCollectionStealsReservation` | `CollectionIsSafe` |
| `umountEnds` | `umount` leaves the target unmounted | `UmountFailureLosesBacking` | `DropIsSafeIffUnmounted` |
| `writesLand` | an index-file write lands or leaves nothing behind; the result of writing the reservation is ignored (`pkg/csi/nbd.go:219`) | `LostWriteLeavesEmptyReservation` | `RecordIsSafeIffReserved` |
| `detachFails` | the volumes whose device a stale cleanup or an unpublish may fail to detach | `UnpublishDetachFailureLosesRecord` | `DropIsSafeIffDisconnected` |
| `cleanupFails` | the volumes whose device the deferred cleanup may fail to detach | `DetachFailureLosesRecord`, `OneStepClearMisleadsScan` | `DropIsSafeIffDisconnected`, `DropStepIsSafeIff` |
| `sysfsFails` | the volumes the connection state of whose device may be unreadable; `pkg/csi/node.go:150-154` then forgets the device without detaching it | `UnreadableStateLosesRecord` | `DropIsSafeIffDisconnected` |
| `blkidTruthful` | `blkid` prints nothing only where there is no filesystem; its exit status is ignored (`pkg/csi/node.go:328`) | `BlkidErrorReformats` | `FormatIsSafeIffBlank` |

Pods: reads are linearizable; `PodEnv.getTruthful` (Get fails only for a missing object) and
`PodEnv.waitsEnd` (the wait after a force delete ends with the pod gone) are flags as well.

Object store: nobody writes to the bucket during deletion. A key whose deletion is refused inside a
call that reports no error (`pkg/csi/s3_cleanup.go:129-131` looks at the call's error only) is `locked`.

Where the documentation and the code part: `docs/configuration.md:49` gives the deleted prefix as the
storage URL and the volume ID, "same layout" as the pod's; the code does this for clean URLs only
(`UrlIsSafeIffPlain`), never for an unset URL (`UnsetUrlNeverDeletes`), and lists by bare prefix, which
reaches into volumes whose ID the deleted ID begins (`SiblingIsReachedIffIdIsPrefix`).

## Model

| member | source | states |
|---|---|---|
| `NbdInvariant.RunKeepsInv` | pkg/csi/node.go:105-492 | Every state of every careful interleaved run, with crashes, disconnects, reconciler detaches, failing detaches and lock-free clears inside other calls' locked regions, satisfies the invariant: records exclusive and owned, mounts backed, the lock held by exactly the call inside a locked region, and what each call knows at each of its steps |
| `NbdInvariant.InvariantRunsAreCareful` | pkg/csi/node.go:160-177 | A run keeps the invariant in all its states if and only if every lock-free removal in it is safe when it happens; this covers the code without any assumption about the deferred clear |
| `NbdInvariant.NextKeepsInvIff` | pkg/csi/node.go:148-177 | A step of a call or of the surroundings keeps the invariant if and only if it is no unsafe lock-free removal; nothing else can break it |
| `NbdInvariant.DropStepIsSafeIff` | pkg/csi/node.go:169-172 | The lock-free removal of a record, alone or in one step with the reservation, keeps the invariant if and only if the device is disconnected or no other call is between seeing it unconnected and reserving it |
| `NbdInvariant.ReleaseStepIsSafeIff` | pkg/csi/node.go:169-172 | The lock-free removal of a reservation after its record keeps the invariant if and only if nobody records the device and no other call has made a reservation of it that it has not yet recorded |
| `NbdInvariant.DropSparesCallIff` | pkg/csi/nbd.go:147-152 | What the first does to each single other call, at whatever step of its scan |
| `NbdInvariant.ReleaseSparesCallIff` | pkg/csi/nbd.go:147-152 | What the second does to each single other call |
| `NbdInvariant.CrashKeepsInv` | pkg/csi/node.go:29-70 | A crash and restart between any two steps keeps it |
| `NbdInvariant.FreshNodeHasInv` | pkg/csi/nbd.go:23-31 | A node without volumes and calls satisfies it, whatever reservations are left over |
| `NbdInvariant.LegalKeepsHost` | pkg/csi/nbd.go:140-152 | Each of the fourteen changes a call may make to the host keeps its part of the invariant |
| `NbdInvariant.ActIsLegal` | pkg/csi/nbd.go:147-232 | A step taken in an invariant state is one of those changes, made when it is allowed: connections, formats and mounts on the recorded device only, reservations touched only where nobody records the device |
| `NbdTheorems.TameRunsAreCareful` | pkg/csi/node.go:169-172 | Every run is careful where the deferred clear waits for nbdMu, and where it is one step at any time and the detach before it succeeds; unpublishes' and stale detaches may fail in both |
| `NbdTheorems.SoloRunsAreCareful` | pkg/csi/node.go:160-177 | Every run of one volume's calls is careful, however the deferred clear goes |
| `NbdTheorems.ExclusiveAllocation` | pkg/csi/nbd.go:156-232 | In every state of every careful run no two volumes record one device, and a recorded device is reserved for its volume |
| `NbdTheorems.StepsStayIsolated` | pkg/csi/node.go:299-389 | A step of v's call changes no other volume's record, mount or disk |
| `NbdTheorems.PublishUsesOwnDisk` | pkg/csi/node.go:325-389 | A publish about to format or mount a device finds it serving v's disk or nothing |
| `NbdTheorems.MountedTargetIsBacked` | pkg/csi/node.go:299-396 | An NBD mount on v's target is from the device v records and has reserved, which serves v's formatted disk if it is connected |
| `NbdTheorems.DetachSafety` | pkg/csi/node.go:148-156 | A connection that v's call makes or breaks is on a device v records, that nobody else records and that serves nobody else |
| `NbdTheorems.DetachTargetsAreOwn` | pkg/csi/node.go:453-487 | The same for every device a call is about to detach, successful or not: stale cleanup, abort, deferred cleanup, unpublish |
| `NbdTheorems.FreshDevicePerPublish` | pkg/csi/nbd.go:161-176 | reserveNBDDevice is entered without a record, neither of its branches for an existing record is ever taken, and the device handed to the connect is unconnected |
| `NbdTheorems.RecordsAreWrittenAhead` | pkg/csi/nbd.go:222-226 | For a volume whose own detaches succeed and whose device can be read, whatever becomes of others: in every state, between any two steps and after crashes, a device connected to its disk is recorded by it, and it never has two |
| `NbdTheorems.UnpublishRecovers` | pkg/csi/node.go:419-487 | After any history, crashes included, a finished unpublish of v leaves no record and mount of v, every reservation naming v is one the next scan collects, and nothing is connected to v if v's own detaches succeed |
| `NbdTheorems.DataIsNeverReformatted` | pkg/csi/node.go:257-356 | Over every run each disk is formatted at most once and sized exactly once |
| `NbdTheorems.TidyStaysTidy` | pkg/csi/nbd.go:147-152 | Without crashes a reservation naming v is always the one v records or is just making or freeing |
| `NbdTheorems.NoLeak` | pkg/csi/node.go:160-177 | Whatever other volumes do meanwhile, a volume that starts blank has no record, mount or reservation after every unpublish and every failed publish, at whatever stage it stopped, and no connection if its own detaches succeed |
| `NbdTheorems.NothingLeaksAtRest` | hack/nbd_regression.sh:161-167 | When nothing is published and no call is in flight, nothing is recorded or mounted, no reservation names a volume, and only devices of volumes whose own detaches or sysfs reads may fail are connected |
| `NbdTheorems.SoloRunDeparts` | pkg/csi/node.go:160-177 | During any number of calls of one volume the node differs from the start only by that volume's own doings and by stale reservations collected |
| `NbdTheorems.CycleRestoresNode` | pkg/csi/node.go:400-492 | Any number of publish and unpublish calls restores connections, mounts, records, other disks and all reservations but stale ones |
| `NbdTheorems.PublishTwiceIsPublishOnce` | pkg/csi/node.go:135-145 | In every interleaved run, until an unpublish begins, repeated publishes of a published volume succeed and change nothing at all, nobody else changes its record, mount or disk, and its own recorded device is what is mounted |
| `NbdTheorems.UnpublishTwiceIsUnpublishOnce` | pkg/csi/node.go:415-487 | No step of a repeated unpublish changes a device, mount or index |
| `NbdTheorems.RepeatedUnpublishChangesNothing` | pkg/csi/node.go:400-492 | In every interleaved run, until a publish begins, whole repeated unpublishes change nothing at all, and nobody else changes v's record, mount or disk |
| `NbdNecessity.RemovalIsSafeIffUnclaimed` | pkg/csi/nbd.go:147-152 | At the moment it happens, removing a reservation keeps allocation exclusive if and only if nobody records the device (what it does to a call about to record it is `ReleaseStepIsSafeIff`) |
| `NbdNecessity.CollectionIsSafe` | pkg/csi/nbd.go:198-212 | The empty-file and missing-record grounds of garbage collection are always safe; the two-hour ground is safe if and only if the named volume does not record the device |
| `NbdNecessity.RecordIsSafeIffReserved` | pkg/csi/nbd.go:215-226 | Writing a record keeps allocation exclusive if and only if the reservation names the volume |
| `NbdNecessity.DropIsSafeIffDisconnected` | pkg/csi/node.go:148-155 | Dropping a record keeps records written ahead if and only if the device is disconnected |
| `NbdNecessity.DropIsSafeIffUnmounted` | pkg/csi/node.go:427-487 | Dropping a record keeps mounts backed if and only if the target is unmounted |
| `NbdNecessity.FormatIsSafeIffBlank` | pkg/csi/node.go:327-343 | A format keeps every disk formatted at most once if and only if the disk behind the device has no filesystem |
| `NbdNecessity.OneStepClearMisleadsScan` | pkg/csi/node.go:169-172 | A run from a fresh node in which a failed detach and the lock-free clear let another volume record a device that serves the first, and set out to detach it |
| `NbdNecessity.UnpublishDetachFailureLosesRecord` | pkg/csi/node.go:453-487 | A run from a fresh node in which an unpublish fails to detach and leaves a connected device unrecorded |
| `NbdNecessity.DetachFailureLosesRecord` | pkg/csi/node.go:169-172 | The same for the deferred cleanup of a failed publish |
| `NbdNecessity.UnreadableStateLosesRecord` | pkg/csi/node.go:150-154 | The same for a crash, a retry and a connection state that cannot be read |
| `NbdNecessity.UmountFailureLosesBacking` | pkg/csi/node.go:427-438 | A run from a fresh node in which a failed umount leaves a mount without a record |
| `NbdNecessity.LostWriteLeavesEmptyReservation` | pkg/csi/nbd.go:215-226 | A run from a fresh node in which a lost write leaves a recorded device with an empty reservation |
| `NbdNecessity.BlkidErrorReformats` | pkg/csi/node.go:327-343 | A run from a fresh node in which an erring blkid has a formatted disk formatted again |
| `NbdNecessity.AgedCollectionStealsReservation` | pkg/csi/nbd.go:208-211 | A run from a fresh node in which a published volume's connection drops and the two-hour rule gives another volume the device that the first records and is mounted from |
| `NbdNecessity.UnlockedClearStealsReservation` | pkg/csi/node.go:169-172 | A run from a fresh node in which the second removal of the deferred clear takes away another volume's fresh reservation |
| `NbdNecessity.UnlockedClearUndercutsReservation` | pkg/csi/node.go:169-172 | A run from a fresh node in which allocation is exclusive and nobody records the device at the second removal, and another volume then records it without a reservation |
| `NbdDevices.ListNBDDevices` | pkg/csi/nbd.go:42-64 | The whole devices among the matches, with multiplicity and no others, lowest number first |
| `NbdDevices.ScanIsFirstFit` | pkg/csi/nbd.go:178-231 | A device returned is listed, readable, unconnected, and unreserved or reserved by an empty, orphaned or aged file; every lower listed device, or every one if none is returned, fails one of these or cannot be created; only the returned device's entries change when file operations work |
| `NbdDevices.FirstFitExists` | pkg/csi/nbd.go:186-231 | Where some device fits there is a lowest one |
| `NodeService.Node.DetachNBDDeviceBestEffort` | pkg/csi/nbd.go:108-126 | The device ends disconnected if and only if fewer than five attempts fail first; no other connection changes |
| `NodeService.Node.ClearVolumeNBDState` | pkg/csi/nbd.go:147-152 | v's record and the given device's reservation are gone and nothing else; the steps continue a run |
| `NodeService.Node.CollectReservation` | pkg/csi/nbd.go:198-212 | The reservation is removed exactly on the three grounds |
| `NodeService.Node.CreateReservation` | pkg/csi/nbd.go:214-220 | The exclusive create succeeds only on an unreserved device, which then names v, or is empty where the ignored write is lost |
| `NodeService.Node.WriteVolumeNBDState` | pkg/csi/nbd.go:222-226 | The record is written, or on failure the reservation is taken back, with an empty state file left behind or none |
| `NodeService.Node.ScanDevices` | pkg/csi/nbd.go:178-231 | The scanning loop answers the first listed device that is readable, unconnected and unreserved or stale-reserved, skipping every other for one of these reasons, with exactly the index changes that `Scanned` describes |
| `NodeService.Node.ReserveNBDDevice` | pkg/csi/nbd.go:156-232 | Reuse of an existing record, replacement of a record whose device is missing, and otherwise the scan |
| `NodeService.Node.CheckTarget` | pkg/csi/node.go:135-145 | An NBD-mounted target ends the publish with success and no change; for any other mount umount is tried |
| `NodeService.Node.MountExport` | pkg/csi/node.go:179-251 | The publish goes on if and only if everything before is prepared and the 9p export gets mounted or the target is mounted already |
| `NodeService.Node.CleanStaleState` | pkg/csi/node.go:147-156 | The device that the state file names, if any, is detached if its connection state can be read, and forgotten in both indexes; without one nothing changes |
| `NodeService.Node.ConnectDevice` | pkg/csi/node.go:310-323 | A connect attaches v's disk to the device, or both index entries are cleared |
| `NodeService.Node.FormatIfBlank` | pkg/csi/node.go:325-356 | A disk in which blkid sees a filesystem is left alone; otherwise mkfs decides |
| `NodeService.Node.CleanUpPublish` | pkg/csi/node.go:160-177 | The deferred cleanup tries to unmount and to detach the recorded device, and forgets it in both indexes whatever came of that |
| `NodeService.Node.NodePublishVolume` | pkg/csi/node.go:105-397 | Refuses invalid requests untouched, is idempotent on a published target, otherwise succeeds if and only if every stage works and a device fits, with the exact resulting host; a failure leaves v without a device, other volumes as they were, no new reservation, and every connection as before if the abort's or the cleanup's detach works; always a run of the protocol |
| `NodeService.PublishableIff` | pkg/csi/node.go:179-389 | When a publish succeeds, outcome by outcome and device by device |
| `NodeService.PublishedIs` | pkg/csi/node.go:299-396 | What it leaves: the lowest free device recorded, reserved, connected and mounted for v, and nothing else changed |
| `NodeService.PublishedDiskIs` | pkg/csi/node.go:256-356 | v's disk is sized once if it was absent and formatted once if blkid saw no filesystem; no other disk changes |
| `NodeService.RetriedIs` | pkg/csi/node.go:135-156 | What the cleanup of an earlier attempt leaves, file by file |
| `NodeService.UnfinishedIsCleanedUp` | pkg/csi/node.go:160-177 | What the deferred cleanup makes of a publish that stopped at any stage |
| `NodeService.Node.NodeUnpublishVolume` | pkg/csi/node.go:400-492 | Tries to unmount and to detach the device found on the target or else recorded, clears record and reservation whatever came of that, touches nothing else, and is a run of the protocol |
| `NodeService.UnpublishedIs` | pkg/csi/node.go:415-487 | The device on the target, or else the recorded one, is detached and loses its reservation; without either no connection or reservation changes |
| `NodeService.UnpublishedTargetIs` | pkg/csi/node.go:425-487 | The record goes whatever device there was, the mount if umount works |
| `NodeService.Node.ReconcileOrphanedNBDDevices` | pkg/csi/node.go:32-70 | The loop detaches exactly the visited devices that are connected, readable, mounted nowhere and not stuck; both indexes are untouched |
| `NodeService.ReconcilerLeavesUsedDevices` | pkg/csi/node.go:44-67 | With working detaches the listed devices left connected are exactly those that were, and are mounted or unreadable |
| `NodeService.ReconciledIs` | pkg/csi/node.go:44-67 | Which devices stay connected when the context ends early and some detaches fail |
| `NodeRegression.SuccessfulPublishIsBacked` | pkg/csi/node.go:358-396 | After the code reports success the target is mounted from the device recorded and reserved for v, serving v's formatted disk only |
| `NodeRegression.FailedPublishIsBare` | pkg/csi/node.go:160-177 | After the code reports failure nothing is mounted on the target and no device is recorded |
| `NodeRegression.SessionRestores` | pkg/csi/node.go:400-492 | Calls of the code on a blank volume that end unpublished or failed restore the node |
| `NodeRegression.RunRegression` | hack/nbd_regression.sh:126-170 | For any number of iterations and any outcome of every operation, publish and unpublish return the node to its baseline |
| `PodProtocol.PodsAlwaysHaveSecrets` | pkg/csi/zerofs.go:159-187 | In every state of every run with crashes and outside deletions, a volume's pod has its config secret, and a finished RemovePod leaves no pod |
| `PodProtocol.CreatedPodRunsOnNode` | pkg/csi/zerofs.go:337-386 | The moment CreatePod succeeds, the pod exists on the requested node, ready, with its secret |
| `PodNecessity.SecretDropIsSafeIffPodGone` | pkg/csi/zerofs.go:501-514 | Deleting the secret is safe if and only if the pod is gone |
| `PodNecessity.LingeringPodLosesSecret` | pkg/csi/zerofs.go:483-514 | A run from an empty cluster in which the ignored second wait lets the secret of a live pod be deleted |
| `PodNecessity.FailedGetLosesSecret` | pkg/csi/zerofs.go:467-474 | The same for a Get that fails for another reason than absence |
| `ZerofsMounter.Mounter.CreatePod` | pkg/csi/zerofs.go:56-387 | Succeeds exactly when configuration and secret are there, and the pod stands on the node or can be created there, none being in the way or the one on another node being deleted and gone, and it turns ready; a pod on another node does not outlive a working delete and wait; nothing of other volumes changes; a run of the protocol |
| `ZerofsMounter.Mounter.RemovePod` | pkg/csi/zerofs.go:461-518 | Fails exactly when an existing pod cannot be deleted, then unchanged; otherwise says when the pod is gone and removes the secret |
| `ZerofsMounter.Mounter.EvictPod` | pkg/csi/zerofs.go:356-369 | The pod on the wrong node is deleted; the call goes on even if it lingers |
| `ZerofsMounter.Mounter.ForceDelete` | pkg/csi/zerofs.go:483-497 | Escalation to force delete, and whether the pod is gone after it |
| `ZerofsMounter.MounterKeepsSecrets` | pkg/csi/zerofs.go:461-518 | Wherever the code's calls have led, every pod has its secret |
| `GoStrings.TrimOf` | pkg/csi/s3_cleanup.go:48-49 | Between cut characters, trimming leaves exactly what neither begins nor ends with one |
| `GoStrings.TrimParts` | pkg/csi/s3_cleanup.go:48-49 | Every string is cut characters, what trimming leaves, and cut characters |
| `GoStrings.CleanFixpoint` | pkg/csi/s3_cleanup.go:53-53 | path.Clean leaves a path of several segments alone if and only if its segments are normal, and never lengthens it |
| `GoStrings.CleanDropsDots` | pkg/csi/s3_cleanup.go:53-53 | path.Clean drops an empty or "." segment wherever it stands |
| `GoStrings.CleanResolvesParents` | pkg/csi/s3_cleanup.go:53-53 | path.Clean drops ".." with the name before it |
| `GoStrings.CleanKeepsNormal` | pkg/csi/s3_cleanup.go:53-53 | path.Clean keeps a path with nothing to drop, leading ".." included |
| `S3Location.PlainUrlParses` | pkg/csi/s3_cleanup.go:31-45 | s3://bucket/path in the documented form parses to that bucket and path |
| `S3Location.OnlyS3IsLocated` | pkg/csi/s3_cleanup.go:36-42 | s3 in either case and a bucket give a location; any other scheme, or no bucket, is refused |
| `S3Location.HostIsJudged` | pkg/csi/s3_cleanup.go:32-45 | A host is taken whole if its characters and its port are allowed, and refused otherwise |
| `S3Location.PortIsJudged` | pkg/csi/s3_cleanup.go:32-35 | A port is allowed if and only if it is digits |
| `S3Location.ControlIsRefused` | pkg/csi/s3_cleanup.go:32-35 | A control character before the fragment is refused |
| `S3Location.RenderedUrlParses` | pkg/csi/zerofs.go:138-138 | Parsing the rendered URL keeps the host and appends the ID to the path, up to a query or fragment character; exact for all URLs with a host |
| `S3Location.JoinedPrefixShape` | pkg/csi/s3_cleanup.go:47-54 | The joined prefix is a part independent of the ID, followed by the whole ID |
| `S3Location.JoinIsConcatenation` | pkg/csi/s3_cleanup.go:47-54 | Joining is base, slash, ID if and only if the base needs neither trimming nor cleaning |
| `S3Location.JoinTrims` | pkg/csi/s3_cleanup.go:47-54 | Whatever spaces and slashes surround a base in normal form, the prefix is base, slash, ID, and the bare ID without a base |
| `S3Location.TrailingSlashIsTrimmed` | pkg/csi/s3_cleanup.go:48-53 | A slash behind the base changes nothing unless the base ends in a space |
| `S3Location.SlashKeepsSpace` | pkg/csi/s3_cleanup.go:48-53 | Behind a space it keeps the space from being trimmed |
| `S3Location.LocationsAgreeIffClean` | pkg/csi/controller_delete.go:56-60 | For every URL without query and fragment that deletion accepts, pod and deletion agree on bucket and prefix if and only if the path is clean and the ID is safe in a URL |
| `S3Location.DocumentedUrlAgreesIffClean` | docs/configuration.md:49-49 | The same for the documented form of the URL |
| `S3Location.UrlIsSafeIffPlain` | pkg/csi/s3_cleanup.go:31-54 | A URL agrees for all volumes if and only if it has no query or fragment and its path is clean |
| `S3Location.QuerySwallowsVolume` | pkg/csi/zerofs.go:138-138 | With a query or fragment in the URL all volumes write to one place |
| `S3Location.DeleteTargetsDiffer` | pkg/csi/s3_cleanup.go:47-54 | Different volumes have different deletion targets |
| `S3Location.TrailingSlashDisagrees` | pkg/csi/s3_cleanup.go:43-54 | A trailing slash makes the two disagree for every bucket and ID |
| `S3Location.UnsetUrlNeverDeletes` | pkg/csi/controller_delete.go:56-59 | An unset URL is refused by deletion while the pod writes to the default bucket |
| `S3Location.SiblingIsReachedIffIdIsPrefix` | pkg/csi/s3_cleanup.go:98-101 | Deletion reaches another volume's key if and only if its ID begins the other's |
| `S3Location.SiblingCanBeReached` | pkg/csi/s3_cleanup.go:98-101 | pvc-1 reaches a key of pvc-10 |
| `S3Cleanup.ListingResumes` | pkg/csi/s3_cleanup.go:98-107 | Deleting keys of the page just listed leaves the rest of the listing exactly as it was |
| `S3Cleanup.SweepStep` | pkg/csi/s3_cleanup.go:103-132 | One page, listed and deleted, keeps every key under the prefix gone, locked or still to come |
| `S3Cleanup.CollectKeys` | pkg/csi/s3_cleanup.go:112-119 | The request holds the page's non-empty keys in order |
| `S3Cleanup.DeletePages` | pkg/csi/s3_cleanup.go:103-134 | The page loop ends, for any page split: on success exactly the survivors remain, on failure only keys under the prefix are gone |
| `S3Cleanup.DeleteS3Prefix` | pkg/csi/s3_cleanup.go:56-135 | No endpoint, an http endpoint that is not allowed, no bucket or a blank prefix fails and touches nothing; otherwise it succeeds if no call fails, and then a key is left if and only if it was there and is outside the trimmed prefix or locked |
| `S3Cleanup.OnlyUnderSpares` | pkg/csi/s3_cleanup.go:103-132 | Whatever the outcome, no key outside the prefix or in another bucket is lost and none appears |
| `VolumeDelete.FindPersistentVolume` | pkg/csi/controller_delete.go:100-119 | By name if that read succeeds, else the first in the list with the handle, else none |
| `VolumeDelete.FastLookupIsSearchIffNamedCarries` | pkg/csi/controller_delete.go:100-119 | With unique handles the lookup equals the search of the list, whether or not the read by name succeeds, if and only if the volume named like the ID carries it as handle |
| `VolumeDelete.IsTrueIff` | pkg/csi/controller_delete.go:42-44 | A text counts as true if and only if it spells "true", in whatever case, between spaces |
| `VolumeDelete.ClassIsOwnOrClaimed` | pkg/csi/controller_delete.go:24-35 | The volume's own class comes first, then its claim's if that can be read, else none |
| `VolumeDelete.ConsentIff` | pkg/csi/controller_delete.go:18-44 | Consent is a volume, a class that can be read, and the class's own field counting as true |
| `VolumeDelete.ReadyIff` | pkg/csi/controller_delete.go:46-60 | What deletion needs beyond consent: config map, storage URL, credentials |
| `VolumeDelete.CredentialsIff` | pkg/csi/controller_delete.go:62-82 | A readable secret with both keys under either of their names |
| `VolumeDelete.ReadCredentials` | pkg/csi/controller_delete.go:62-82 | The access key and the secret key, each from its first field that is not blank |
| `VolumeDelete.Decide` | pkg/csi/controller_delete.go:13-94 | Skips if and only if the resolved class does not consent, and always if no class says so; deletes if and only if everything needed is there, and then with exactly the configured location, endpoint, region, HTTP permission and keys |
| `VolumeDelete.DeleteVolumeDataIfEnabled` | pkg/csi/controller_delete.go:13-98 | No consent, no change and no error; incomplete configuration, an error and no change; otherwise only keys under the volume's prefix can go, success leaves exactly the survivors, and with an allowed endpoint, the bucket there and no call failing it does succeed |
| `VolumeDelete.CleanedIff` | pkg/csi/controller_delete.go:96-97 | What success leaves, bucket by bucket and key by key |
| `VolumeDelete.UnsetUrlIsNeverReady` | pkg/csi/controller_delete.go:56-59 | Consent with an unset URL never deletes |
| `VolumeDelete.DeletionIsExact` | pkg/csi/controller_delete.go:56-97 | Under a plain, clean URL deletion empties exactly where the pod writes, locked keys apart, and another volume's key survives if and only if the deleted ID does not begin its ID |

## Left out

- gRPC, the identity service, logging, metrics, statistics, staging, capabilities, snapshots and `CreateVolume`: plumbing, stubs or thin parsing.
- Output of `mount`, `umount`, `findmnt`, `nbd-client`, `blkid`, `mkfs` and sysfs: each command is a step with its possible outcomes, not parsed text.
- Request validation is one flag, `valid`, without the texts and codes of the errors.
- Volume IDs and device paths in index files are values, not trimmed text; device numbers that overflow an int and leading zeros in device names are not modelled.
- Clocks, tickers and timeouts: each wait, and the socket wait, ends in "seen" or "gave up"; the age of a reservation is a set of aged devices.
- Informer-cache staleness, attachment to several nodes, and loss of `/run/zerofs-csi` with the driver's container.
- The AWS client, its endpoint resolver and region default, and the bodies of Kubernetes objects beyond the storage URL.
- The mounter without a Kubernetes client, for which deletion is skipped.
- URLs with percent escapes, user information or bracketed hosts: `ParseUrl` answers `NotModelled`; strings are Unicode text, so invalid UTF-8 is not covered.
- The counters that the reconciler only logs.
- Steps between a read and the change it leads to where only the reader's own files are read, and between creating a reservation again and writing it in the reuse branch of `reserveNBDDevice`, which no run takes.
- NodeService.Node.NodePublishVolume: pod creation, the socket wait and RemovePod in the cleanup are outcomes here; they change nothing on the host, and the pods are modelled in `ZerofsMounter`; no other volume's steps fall inside a call of the class.
- NodeService.Node.NodeUnpublishVolume: as in NodePublishVolume, no other volume's steps fall inside a call of the class; the interleaving of calls is proved on the protocol.
- NodeService.Node.ReconcileOrphanedNBDDevices: the class runs it without concurrent publishes; the interleaved reconciler is a step of the protocol.
- ZerofsMounter.Mounter.CreatePod: the polling loops of the two waits are their outcomes, and other volumes' calls in between are steps of the protocol only.
- VolumeDelete.FindPersistentVolume: the error of a failed listing is dropped, as its only caller drops it.
