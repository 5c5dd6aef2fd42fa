# Verification of the Volcengine CSI driver

A Dafny model of the parts of the driver where something can go wrong between
two steps: the EBS controller as a concurrent protocol, the EBS node service
over the kernel mount table, the NAS driver's paths, mounts and directories,
the TOS publish with its deferred cleanup, and the credential refresh loop.
`dafny verify dfyconfig.toml` checks all of it.

## How it is organised

**EBS controller.** `EbsProtocol` is a state machine: a cloud (volumes and
snapshots), the shared in-flight key set, and any number of request handlers
with program counters. Its `Step` is total, so every sequence of events is a
run; describe calls may fail, a changing call may fail, or take effect and lose
its reply. `EbsController` holds the handlers and polling loops as imperative
code. Between any two of their steps `Interfere` lets every other handler and
the cloud do whatever the protocol allows. Each method is proved to follow the
protocol step by step, so what is proved of runs holds of it. When no call fails
(`faultless`) every step that it takes is one that the cloud answered, until a wait
has polled as long as its context allows (`patience`):

- `EbsNames`: the in-flight set is exactly the held keys, and names stay unique.
- `EbsOutcomes`: an OK reply was true of some state while the request ran.
- `EbsAttach`: who can detach a volume, and how many a node can end up with.
- `EbsRepeat`: a repeated create, and when an expand calls the cloud.
- `EbsReplies`: what each handler answers and has done when nothing else happens, for
  every state it can meet, and how it waits and fails.
- `EbsTypes`: the GiB rounding on int64 and the status conversions.

The cloud is assumed to keep these rules, which are the transitions of
`EbsProtocol`: a created object gets an id that was not used before; a created volume
may stay unlisted for a while; attach is
accepted only on an available volume, and then runs to attached before anything
else happens to it; a volume that is being attached counts among the node's
volumes from the accepted call on; detach is accepted only for the node that
holds the volume; delete is accepted only on an available volume; extend is
accepted only on an available or attached one, and never shrinks.

**EBS node.** `EbsNode` is the node service over a mount table of stacks. Every
system call may fail, and between a handler's steps the handlers of other
volumes run. The rely and guarantee are the in-flight keys: a mount path belongs
to one volume, as its staging path or as a target, and the system calls that write
a path require the key of that volume. A volume may be detached and come back under
another device name, but not while one of its paths carries a mount or a handler
for it runs. What a handler does to its own path and which code it returns is
promised in every state; that a path shows the right device once, only in states
that this rule leads to. A bind mount is two steps, the bind and the remount that
makes it read-only, as in k8s.io/mount-utils.

**NAS.** `Strings` and `Paths` define Go's `strings.Split`, `strings.Join`,
`filepath.Clean`, `filepath.Join` and `filepath.Base` on rooted paths and prove
the round trips between them. `NasPaths` compares how create, publish and delete
name a server directory. `MountOptions` is the option parser. `NasExport` is the
exported tree, with the effect of mkdir, remove and rename. `NasDriver` has mount
point names, storage class parameters and the outcome of a delete. `NasServers` is
the imperative code over a mount table and an export, every system call of which
may fail.

**TOS.** `TosOptions` is the attribute parser, for every order in which Go may
iterate the map. `TosNode` is the publish with its deferred cleanup and the
polling for a mount that the launcher makes asynchronously.

**STS.** `Sts` is the refresh loop and its timing bound.

## What the code does not do

Some properties one would expect are false. Each item names the lemmas or contracts
that give the failing input and say exactly when the property holds.

- Leaving while a created volume or snapshot is not listed yet lets a retry create a
  second one (`GivingUpEarlyDuplicates`, `UnlistedSnapshotDuplicates`); that is the
  only way to two of one name (`NamesStayUnique`, `CarefulIsExact`).
- A create that finds a volume of its name does not look at what that was made from: a
  request for another snapshot is answered OK with it (`OtherSource`). The volume is of the
  snapshot asked for if and only if this call creates it (`CreateCreates`) or the one found
  was made from it; the rest of what is checked is in `CreateFinds`.
- Rounding up wraps for requests above 2^63 - 2^30 (`RoundUpCovers`).
- With k publishes at once a node can exceed its maximum by k - 1 (`NodeLimitTight`).
- A device that is renamed while its volume is staged is mounted on top of the old
  mount, and by nothing else (`StagedUnderNewName`, `RenamedWhileStaged`).
- A read-only publish whose second mount step fails is answered OK when repeated,
  and stays writable (`ReadonlyKept`, `ReadonlyLost`).
- `createNasSubDir` drops the error of its mount-point check (pkg/nas/utils.go:104).
  The temporary path keeps to one layer in every state, under any mount, mkdir and
  unmount failures, if and only if no call's check fails while a mount is left over
  and its own mount succeeds (`TempOneLayerIff`); two failed creates get there
  (`TwoLayersByCreates`).
- An OK create unmounts its mount point, but it can leave a temporary mount of an earlier
  attempt behind (`OkLeavesMountBehind`): its temporary path is free afterwards if and only
  if it was before, or the fallback ran, its check worked and one mount was there
  (`OkUnmounts`).
- A NAS mount point that carries a mount of another path is mounted on top of, unless
  the line of that mount contains the path asked for (`OneLayerIff`). In that case an OK
  create has its directory at the path it records if and only if the mount point shows its
  own parent's directory (`RecordedWhereMade`); with `/a/b` left over, one for `/a` is made
  in `/a/b` (`MadeElsewhere`).
- The NAS fallback makes the directory that is then mounted if and only if the sub path
  never climbs, or climbs one level and comes back through a file system named like the
  volume (`FallbackWorksIff`).
- For an unrooted volume path naming the file system changes what a publish mounts,
  unless the first component names nothing or the rest climbs over it
  (`UnrootedPathMisread`).
- An unparsed option list gives a delete one version option if and only if it names none
  (`DeleteVersions`).
- The result of parsing TOS attributes depends on the map order when two keys that differ
  only in case disagree (`OrderIrrelevant`), and two pods share a temporary path when one id
  is another one, an underscore and more (`TempPathsApart`).
- A failed TOS publish unmounts a target that an earlier publish had mounted, as when the
  launcher refuses the temporary mount (`RefusedRepublish`). The target keeps its mount if
  and only if no step up to its own mount check fails, or the unmount of the cleanup does
  (`TargetKeptIff`).
- A TOS publish makes the sub path itself in the bucket if and only if the path never climbs
  (`SubPathMadeIff`), and in the bucket of the mount that it finds on its temporary path, if
  there is one (`TosNode.TosHost.MakeSubPath`).

## Model

| member | source | states |
|---|---|---|
| EbsNames.InFlightExact | pkg/util/inflight/inflight.go:54-75 | In every reachable state of every interleaving the in-flight set is, one to one, the keys of the handlers between a successful Insert and their deferred Delete, with volume names, volume ids, snapshot names and snapshot ids sharing the set |
| EbsNames.NothingLeftInFlight | pkg/ebs/controllersvc.go:65-69 | When all handlers have returned the set is empty |
| EbsNames.OnlyHolderReleases | pkg/ebs/controllersvc.go:175-179 | Only the deferred Delete of the handler that inserted a key ever removes it; a rejected handler removes nobody's |
| EbsNames.NamesStayUnique | pkg/ebs/controllersvc.go:65-148 | As long as no handler leaves while an object it created is unlisted, no interleaving with retries and lost replies yields two live volumes, or two live snapshots, of one name; every unlisted volume has a live handler that holds its name |
| EbsNames.GivingUpEarlyDuplicates | pkg/ebs/cloud.go:466-480 | The proviso is exact: whenever a create handler leaves while its volume is unlisted, a plain retry of the request makes a second live volume of the name |
| EbsNames.UnlistedSnapshotDuplicates | pkg/ebs/controllersvc.go:350-383 | The same for snapshots: whenever CreateSnapshot leaves, with OK or with its reply lost, while its snapshot is unlisted, a plain retry makes a second live snapshot of the name |
| EbsNames.CarefulIsExact | pkg/ebs/controllersvc.go:65-148 | The proviso of NamesStayUnique is exact: the first step that leaves an unlisted object behind has a continuation with two live volumes or two live snapshots of one name |
| EbsOutcomes.OkWasTrue | pkg/ebs/controllersvc.go:56-478 | Every OK reply, under any interference, is true of some state between the request's arrival and its return: created with the requested name, type, zone and size, attached to the requested node, detached, gone, or large enough |
| EbsOutcomes.Tracked | pkg/ebs/controllersvc.go:214-257 | What each handler may rely on at each control point; a waiting publish has either its own attach under way or has been attached to its node |
| EbsOutcomes.VolumesOnlyGrow | pkg/ebs/cloud.go:97-127 | No run ever shrinks a volume or changes its name, zone, type or source snapshot |
| EbsOutcomes.RunSound | pkg/ebs/controllersvc.go:56-478 | In every run volumes have a node exactly while attached or changing attachment, sane sizes, and only validated requests get past their checks |
| EbsAttach.OnlyItsUnpublishDetaches | pkg/ebs/controllersvc.go:268-290 | In any run an attachment ends in exactly a step that makes the detach call of an unpublish naming that volume and that node, whatever other unpublishes are interleaved |
| EbsAttach.NodeLimit | pkg/ebs/controllersvc.go:239-252 | With at most k publishes for a node at once its volumes plus the admitted publishes never exceed maxVolumesPerNode - 1 + k |
| EbsAttach.NodeLimitTight | pkg/ebs/controllersvc.go:239-252 | For every maximum, node and k a run with at most k publishes at once reaches the bound |
| EbsRepeat.CreatedStillFits | pkg/ebs/controllersvc.go:71-140 | Whatever happens after an OK create, its volume keeps the requested name, type and zone and a size that covers the request |
| EbsRepeat.RepeatedCreate | pkg/ebs/controllersvc.go:71-140 | Repeating a create after OK, with the volume listed and available, returns the same id and changes neither the cloud nor the keys |
| EbsRepeat.ExpandCallsIffBigger | pkg/ebs/controllersvc.go:448-477 | On a settled volume an expand goes on to the cloud if and only if the request exceeds the current size; otherwise it answers with that size |
| EbsRepeat.RepeatedExpand | pkg/ebs/controllersvc.go:448-477 | After any run in which an expand returned OK, with the volume listed and neither extending nor failed, a whole repeat returns OK with a size that covers the request and changes neither the cloud nor the keys |
| EbsRepeat.ExpandCall | pkg/ebs/cloud.go:97-127 | The call asks for at least the request and less than one GiB more if and only if the request is at most 2^63 - 2^30; a larger one is refused and changes nothing |
| EbsRepeat.ExpandOkSize | pkg/ebs/cloud.go:482-496 | In any run, when an extension is answered OK the volume is at least as large as the request and less than one GiB larger, and the reply is the request |
| EbsReplies.Enters | pkg/ebs/controllersvc.go:56-70 | Which requests are malformed, which are turned away because their key is held, and which key the others hold from then on |
| EbsReplies.CreateAnswers | pkg/ebs/controllersvc.go:71-140 | What a create with a free name answers in every state, and the volume it asks for: without a zone Internal, with an unsupported source InvalidArgument, with a size that cannot be rounded Unknown |
| EbsReplies.CreateCreates | pkg/ebs/controllersvc.go:122-140 | Undisturbed it answers OK with the new id and leaves exactly the volume asked for, available, with the name, type, zone, source snapshot and rounded size of the request |
| EbsReplies.CreateFinds | pkg/ebs/controllersvc.go:102-121 | What it answers when a volume of the name exists: OK only if that is available, of the type, in the zone and large enough |
| EbsReplies.OtherSource | pkg/ebs/controllersvc.go:87-121 | A create from another snapshot under the name of an existing volume is answered OK with that volume |
| EbsReplies.DeleteAnswers | pkg/ebs/controllersvc.go:180-196 | What a delete answers in every state of its volume |
| EbsReplies.DeleteDeletes | pkg/ebs/controllersvc.go:180-196 | Undisturbed it deletes an available volume and answers OK |
| EbsReplies.PublishAnswers | pkg/ebs/controllersvc.go:214-257 | What a publish answers in every state of its volume and its node |
| EbsReplies.PublishAttaches | pkg/ebs/controllersvc.go:214-257 | Undisturbed it attaches an available volume to a node with room and answers OK |
| EbsReplies.UnpublishAnswers | pkg/ebs/controllersvc.go:268-290 | What an unpublish answers in every state of its volume: missing, failed, available, deleted, on another node, attached, changing |
| EbsReplies.UnpublishDetaches | pkg/ebs/controllersvc.go:279-290 | Undisturbed it detaches a volume attached to its node and answers OK, with the volume available and on no node |
| EbsReplies.SnapshotAnswers | pkg/ebs/controllersvc.go:350-383 | Undisturbed a snapshot with a free name is taken from the source and reported with the source's size in bytes; what is answered without a source |
| EbsReplies.SnapshotFound | pkg/ebs/controllersvc.go:350-367 | A taken name is answered with the snapshot that has it and its size, if that is of the same source |
| EbsReplies.SnapshotDeletes | pkg/ebs/controllersvc.go:397-414 | Undisturbed a snapshot is deleted; one that is gone is no error |
| EbsReplies.ExpandAnswers | pkg/ebs/controllersvc.go:448-477 | What an expand answers in every state of its volume and for every int64 request |
| EbsReplies.ExpandExtends | pkg/ebs/controllersvc.go:448-477 | Undisturbed a larger request extends the volume to the request rounded up to GiB and answers OK with the request |
| EbsReplies.PollAnswers | pkg/ebs/cloud.go:442-464 | A wait for a status goes on while the cloud is at work, and ends on the status, on a failed creation and on a missing volume |
| EbsReplies.OtherPolls | pkg/ebs/cloud.go:466-496 | The same for the waits for a created and for an extended volume, which a failed lookup does not end |
| EbsReplies.FailedCall | pkg/ebs/controllersvc.go:56-478 | The code that each handler answers a failed call with, at every point, whether or not the call took effect |
| EbsTypes.RoundUpCovers | pkg/ebs/cloud.go:61-71 | Rounding up to GiB on wrapping int64 covers a non-negative request, by less than one GiB, if and only if it is at most 2^63 - 2^30 |
| EbsTypes.RoundedFits | pkg/ebs/controllersvc.go:460-461 | The rounded size in bytes is an int64 for every request, wrapped or not |
| EbsTypes.StatusComparison | pkg/ebs/types/volume.go:71-97 | Comparing through StatusFromString and StatusToString agrees with comparing the cloud's string for available, attached and deleted, and never matches detaching or extending |
| InFlightKeys.InFlight.constructor | pkg/util/inflight/inflight.go:45-50 | Starts with no key |
| InFlightKeys.InFlight.Insert | pkg/util/inflight/inflight.go:54-65 | Answers true exactly when the key was absent, and the key is present afterwards either way |
| InFlightKeys.InFlight.Delete | pkg/util/inflight/inflight.go:69-75 | Removes exactly this key |
| EbsController.PickZone | pkg/ebs/controllersvc.go:509-526 | The zone of the first topology that names one, preferred before requisite, else none |
| EbsController.PickedZoneUnique | pkg/ebs/controllersvc.go:509-526 | At most one zone meets that description, so a repeat picks the same |
| EbsController.GetZoneId | pkg/ebs/controllersvc.go:496-505 | A non-empty zone parameter wins over the topologies |
| EbsController.IsValidVolumeCapabilities | pkg/ebs/controllersvc.go:541-559 | True exactly when every requested access mode is supported |
| EbsController.ControllerSvc.Resolve | pkg/ebs/controllersvc.go:71-100 | The protocol request that a raw create request stands for: the type asked for or ESSD_PL0, the capacity asked for or 20 GiB, the zone asked for, else picked from the topologies, else the controller's, and whether the source is supported |
| EbsController.ControllerSvc.CreateVolume | pkg/ebs/controllersvc.go:56-166 | Follows the protocol from arrival to return under interference; on OK the cloud listed, while the call ran, an available volume with the name, zone, type and size that the raw request asks for |
| EbsController.ControllerSvc.DeleteVolume | pkg/ebs/controllersvc.go:168-197 | The same for delete: on OK the volume was gone or deleted |
| EbsController.ControllerSvc.ControllerPublishVolume | pkg/ebs/controllersvc.go:199-258 | The same for publish: on OK the volume was attached to the requested node, though the final wait reads only the status |
| EbsController.ControllerSvc.ControllerUnpublishVolume | pkg/ebs/controllersvc.go:260-291 | The same for unpublish: on OK the volume was not on the requested node; with EbsReplies.UnpublishDetaches, an attached one is detached when no call fails |
| EbsController.ControllerSvc.CreateSnapshot | pkg/ebs/controllersvc.go:340-384 | The same for snapshots: on OK a live snapshot of the name and source existed |
| EbsController.ControllerSvc.DeleteSnapshot | pkg/ebs/controllersvc.go:397-414 | The same for snapshot deletion |
| EbsController.ControllerSvc.ControllerExpandVolume | pkg/ebs/controllersvc.go:441-478 | The same for expand: on OK the volume covered the reported size and that the request |
| EbsController.ControllerSvc.WaitVolumeBeStatus | pkg/ebs/cloud.go:442-464 | For every trace of observations, returns according to the first decisive one: an error, a missing volume, or the wanted status; an error otherwise only after polling as long as the context allows |
| EbsController.ControllerSvc.WaitVolumeBeCreated | pkg/ebs/cloud.go:466-480 | For every trace of observations, returns nil on the first that finds the volume, ignoring failed polls, and an error only when none does; which is reported only after polling as long as the context allows |
| EbsController.ControllerSvc.WaitVolumeBeExtended | pkg/ebs/cloud.go:482-496 | For every trace, the first observation with the exact awaited size and no extension under way ends it well, the first missing volume is a nil dereference; an error otherwise only after polling as long as the context allows |
| EbsController.ControllerSvc.CloudCreateVolume | pkg/ebs/cloud.go:54-95 | Create, wait until listed, wait until available |
| EbsController.ControllerSvc.ExtendVolume | pkg/ebs/cloud.go:97-127 | Extend and wait for the rounded size |
| EbsController.ControllerSvc.CallAndWait | pkg/ebs/cloud.go:129-199 | Delete, attach and detach: call and wait for the status |
| EbsController.ControllerSvc.Remote | pkg/ebs/cloud.go:54-95 | A changing call fails, is refused, has no object to act on, takes effect, or takes effect and loses its reply; when no call fails only the cloud's own answers are left |
| EbsController.ControllerSvc.VolumeById | pkg/ebs/cloud.go:201-248 | A describe call fails or sees the cloud as it is |
| EbsController.ControllerSvc.VolumeByName | pkg/ebs/cloud.go:250-303 | Reports some listed volume of the name, or none exactly when none is listed |
| EbsController.ControllerSvc.GetSnapshotByName | pkg/ebs/cloud.go:357-389 | Reports the listed snapshots of the name |
| EbsController.ControllerSvc.NodeById | pkg/ebs/cloud.go:498-520 | Counts the volumes on the node |
| EbsNode.NodeSvc.NodeStageVolume | pkg/ebs/nodesvc.go:61-159 | In every state: refused exactly when another holds the key; OK leaves the device's file system on a free path, read-only exactly when the mount flags say so, leaves a path that shows the device alone and mounts over another device; when no system call fails, OK exactly for a supported capability and, with mount access, a path and a device that is no system disk |
| EbsNode.NodeSvc.NodeUnstageVolume | pkg/ebs/nodesvc.go:161-200 | On OK nothing is mounted on the path and it is gone; on failure it is as before or has lost its last mount; when nothing fails, OK exactly when at most one mount was there |
| EbsNode.NodeSvc.NodePublishVolume | pkg/ebs/nodesvc.go:202-281 | A mounted target is left alone; on OK a free one gets exactly one layer, what the staging path shows or the device file, read-only exactly when the request or its mount flags ask for it; when nothing fails, OK exactly when there is a device or a staged mount to bind |
| EbsNode.NodeSvc.NodeUnpublishVolume | pkg/ebs/nodesvc.go:283-307 | On OK nothing is mounted on the target and it is gone; on failure it is as before or has lost its last mount; when nothing fails, OK exactly when at most one mount was there |
| EbsNode.NeverTwoLayers | pkg/ebs/nodesvc.go:106-137 | In every state of every sequence of stage, publish, unpublish and unstage calls, with repeats, failures and re-attachments under other device names between them, no path carries two layers and each shows the volume it is used for |
| EbsNode.Reattached | pkg/ebs/nodesvc.go:94-137 | Stage, unstage, re-attach under another name and stage again is such a sequence |
| EbsNode.ReleasedIsUnmounted | pkg/ebs/nodesvc.go:178-199 | OK from unpublish on every target and from unstage returns the mount table to its initial value |
| EbsNode.StagedUnderNewName | pkg/ebs/nodesvc.go:110-122 | Whatever the device is called now, an OK stage keeps one layer if and only if nothing is mounted there or that is the name it was staged under; its effect is the one NodeStageVolume promises in every state |
| EbsNode.RenamedWhileStaged | pkg/ebs/nodesvc.go:110-122 | A rename between two OK stages leaves two layers |
| EbsNode.ReadonlyKept | pkg/ebs/nodesvc.go:236-250 | An OK read-only publish leaves a read-only mount if and only if the target was free or read-only before |
| EbsNode.ReadonlyLost | pkg/ebs/nodesvc.go:236-278 | A failed read-only publish repeated with OK can leave the volume writable |
| Strings.SplitJoin | pkg/nas/utils.go:33-39 | strings.Split undoes strings.Join of separator-free parts |
| Strings.JoinSplit | pkg/nas/utils.go:33-39 | strings.Join undoes strings.Split, for every string |
| Paths.CleanDenotes | pkg/nas/utils.go:67 | filepath.Clean keeps the directory a path denotes and is idempotent |
| Paths.JoinDenotes | pkg/nas/utils.go:67 | filepath.Join denotes what its second element leads to from its first, for every pair |
| Paths.JoinSteps | pkg/nas/utils.go:67 | Joining a name goes down, joining ".." goes up and stays at the root, joining "." or nothing stays |
| Paths.BaseIgnoresSlashes | pkg/nas/controllerserver.go:188 | Base ignores slashes at the end and is "/" or "." when nothing is left |
| Paths.LastComponent | pkg/nas/controllerserver.go:187-193 | Base and the cut at the last slash take a clean path apart into its parent and last component |
| NasPaths.DetailJoins | pkg/nas/utils.go:32-42 | For every rooted path, joining the parts that getNfsPathDetail takes it apart into gives its clean form |
| NasPaths.DetailParts | pkg/nas/utils.go:32-42 | A path is taken apart behind its first component: that is the file system id, the rest the sub path |
| NasPaths.DeleteTargetCases | pkg/nas/controllerserver.go:183-190 | Exactly the empty path and "/" are refused, and exactly the paths without a slash before their last character lead to the slice with a negative bound |
| NasPaths.PublishMountsVolumePath | pkg/nas/nodeserver.go:103-112 | A publish mounts the clean form of the volume path, with or without a file system id |
| NasPaths.CreatePublishDeleteAgree | pkg/nas/controllerserver.go:187-204 | Create, publish and delete address the same server directory, and delete recovers exactly the parent and name that create used if and only if the name is a single path component, for every slash-free file system id and every sub path |
| NasPaths.UnrootedPathMisread | pkg/nas/nodeserver.go:103-112 | For every volume path, publish mounts the same with and without the file system named if and only if the first component is no entry name or the rest climbs over it |
| NasPaths.PublishedComponents | pkg/nas/nodeserver.go:103-112 | What either form mounts, for every volume path: all of its components, or all but the first |
| NasDriver.GetNasVolumeArgs | pkg/nas/utils.go:168-203 | Accepts exactly parameters with volumeAs subpath or absent, a server and a slash-free file system id, and normalizes the sub path |
| NasDriver.NormalSubPathDenotes | pkg/nas/utils.go:189-196 | Normalizing a sub path never changes the directory that is mounted |
| NasDriver.FallbackWorksIff | pkg/nas/utils.go:126-127 | For every sub path, the directory made under the temporary mount is the one the second mount asks for if and only if the sub path never climbs, or climbs one level and re-enters a file system that has the volume's name |
| NasDriver.FallbackMakesMountedDirectory | pkg/nas/utils.go:126-127 | The half for sub paths that never climb, for every volume id |
| NasDriver.MountPointsApart | pkg/nas/controllerserver.go:97 | For names that never climb, no mount point of a create is a temporary mount point of the fallback |
| NasDriver.MountPointNames | pkg/nas/nas.go:36-43 | The mount points of a create, a delete and the fallback, by name |
| NasDriver.RecordedPathStays | pkg/nas/controllerserver.go:187-194 | A clean volume path gives a delete a parent path that never climbs |
| NasDriver.DeleteConserves | pkg/nas/controllerserver.go:204-232 | With the archived name free an OK delete changes the volume only: its tree is lost exactly when archiveOnDelete is one of the six false spellings and otherwise reappears under the archived name; deleting again changes nothing |
| NasDriver.DeletesAsAsked | pkg/nas/controllerserver.go:211-231 | Entry by entry: without archiveOnDelete or with a true spelling everything is at "archived-", the name and the time, with a false spelling it is gone, with anything else the delete fails and nothing changes |
| NasExport.ArchiveConserves | pkg/nas/controllerserver.go:227-231 | Renaming moves the whole subtree, frees the old name, keeps the number of entries and every other entry |
| NasExport.RemoveTakesOnlyVolume | pkg/nas/controllerserver.go:219-221 | Removing takes the volume's subtree; every sibling keeps its own |
| NasExport.MkdirAllShape | pkg/nas/controllerserver.go:106 | Making a directory adds only directories on the way to it |
| NasServers.Host.DoNfsMount | pkg/nas/utils.go:60-95 | For every mount table: what the mount point and the temporary path carry afterwards, layer by layer, as the failing steps of the fallback determine; a fallback that fails, its unmount included, is an error; every other mount point unchanged and nothing on the export lost; on success the directory is there; a sub path that exists or that the fallback can make is mounted when no call fails |
| NasServers.Host.CreateNasSubDir | pkg/nas/utils.go:97-140 | An error exactly when one of its steps fails; adds only directories on the way to the sub path, which is there on success; changes only the temporary path, to the stack that the failing steps determine; at most one layer there when the check works and at most one was there |
| NasServers.TempOneLayerIff | pkg/nas/utils.go:104-136 | Through every sequence of fallbacks with any failures the temporary path carries at most one layer in every state if and only if no call's check fails while a mount is left over and its own mount succeeds |
| NasServers.TwoLayersByCreates | pkg/nas/utils.go:104-136 | Two failed creates of one volume put two layers there, by the effect that CreateVolume promises |
| NasServers.OneLayerIff | pkg/nas/utils.go:69-86 | A mount point keeps one layer if and only if nothing was mounted or the path occurs in the text "server:source mountpoint nfs" of what was |
| NasServers.RecordedWhereMade | pkg/nas/controllerserver.go:97-122 | A create's directory is at the path it records if and only if its mount point shows the parent's directory, for every left-over mount |
| NasServers.MadeElsewhere | pkg/nas/utils.go:45-58 | With a mount of a subdirectory left over, the search takes the mount point for mounted and the directory is made in the subdirectory |
| NasServers.FreshMount | pkg/nas/utils.go:69-86 | A mount point used for one path always has one layer after a mount and shows that path |
| NasServers.Host.CreateVolume | pkg/nas/controllerserver.go:66-140 | For every name, parameters, capabilities and mount table: the reply to malformed requests, the stacks it leaves, a failed fallback being an error; on OK the volume's directory under what the mount point shows, one layer less than was mounted there, and the volume context with every entry; no layer more than before where unmounting works; nothing on the export is ever lost; when nothing fails only malformed requests are refused |
| NasServers.CreatedServes | pkg/nas/controllerserver.go:120-124 | With the volume context that create records a publish mounts the volume's directory, and a delete takes exactly its parent and name and the archiveOnDelete asked for, or true |
| NasServers.MountFlags | pkg/nas/controllerserver.go:68-72 | Collects the flags of all capabilities in order and panics exactly on block access |
| NasServers.FlagsInOrder | pkg/nas/controllerserver.go:68-72 | The flags of two lists of capabilities are those of the first, then those of the second, none dropped |
| NasServers.Host.ServeCreates | pkg/nas/controllerserver.go:97-117 | Through any sequence of creates with arbitrary mount, mkdir and unmount failures every create answered OK has unmounted its mount point and still has its directory, every mount point of a create carries at most the one mount of its parent, and with working checks no mount point ever carries two layers, during the calls either |
| NasServers.Host.ServeCreate | pkg/nas/controllerserver.go:66-140 | The same for one create, with the reply tied to what failed |
| NasServers.OkUnmounts | pkg/nas/controllerserver.go:97-117 | After OK the mount point is free; the temporary path is free if and only if it was before, or the fallback ran, its check worked and there was one mount to clear |
| NasServers.OkLeavesMountBehind | pkg/nas/utils.go:60-140 | An OK create after a fallback that could not unmount leaves that mount behind |
| NasServers.Host.DeleteVolume | pkg/nas/controllerserver.go:142-241 | For every volume record: the reply to each malformed one, and for the rest the stacks and the effect on the export whatever fails; by the literal value of archiveOnDelete, OK leaves the tree under the archived name or removes it, and an unreadable value of an existing volume ends in Internal with nothing changed; no mount is left where unmounting works |
| NasServers.Host.DeleteSubPath | pkg/nas/controllerserver.go:181-233 | Nothing outside the volume and its archived name is lost or changed; on OK the volume is gone and, with the parent there and the archived name free, the export is changed exactly as the value of archiveOnDelete asks; a last component that is no entry name always ends in an error, and without a discard loses nothing; the reply when nothing fails |
| NasServers.Host.DeleteEntry | pkg/nas/controllerserver.go:204-232 | The same for one entry of the mounted directory, for every value of archiveOnDelete |
| NasServers.DeletedVolumeConserved | pkg/nas/controllerserver.go:181-233 | Deleting what CreateVolume recorded conserves the export's data, by the same paths |
| NasServers.Host.NodePublishVolume | pkg/nas/nodeserver.go:56-119 | A mounted target is left alone; an OK publish that mounts leaves exactly one layer, the directory its volume path names with exactly the options asked for, one version among them, and read-only when asked; the reply to missing arguments |
| NasServers.Host.NodeUnpublishVolume | pkg/nas/nodeserver.go:122-141 | OK takes one layer off the target, or finds none; a failure changes nothing |
| MountOptions.ParseMountOptions | pkg/nas/utils.go:143-165 | Flattens every entry's comma split, drops every version in order, and takes the last version if supported, else 3 |
| MountOptions.JoinThenSplit | pkg/nas/utils.go:145-147 | Joining the entries and splitting again is flattening |
| MountOptions.ReparseStable | pkg/nas/utils.go:143-165 | Parsing the option string again leaves it unchanged |
| MountOptions.RequestedByIndex | pkg/nas/utils.go:143-165 | By index: in front the last option that starts with "vers=" if it is one of the five supported ones, else vers=3, and behind it every option that does not start so, in order |
| MountOptions.MountedAsRequested | pkg/nas/utils.go:74-78 | The list that create and publish mount with is one supported version in front and every other option in order |
| MountOptions.OneValidVersion | pkg/nas/utils.go:74-78 | That list has exactly one version, a supported one |
| MountOptions.DeleteVersions | pkg/nas/controllerserver.go:154-182 | A delete passes unparsed options: one version exactly when they name none |
| MountOptions.ReadonlyKept | pkg/nas/nodeserver.go:86-91 | A read-only request is mounted with ro, whatever its other flags |
| TosOptions.ParseTosfsOptions | pkg/tos/util.go:64-91 | For some iteration order the options are those of visiting the keys in it; each option has the value of an attribute of its name in some mixture of cases, the URL after rewriting, the level "err" when none or an empty one is named; panics exactly on a URL of fewer than two characters; invalid only without a URL, a bucket or with an empty bucket |
| TosOptions.OptionsByName | pkg/tos/util.go:66-89 | What each attribute name sets, for every order |
| TosOptions.OrderIrrelevant | pkg/tos/util.go:64-91 | Every iteration order gives the same options if and only if no two keys that fold together set different values |
| TosOptions.UrlRewritten | pkg/tos/util.go:69-74 | The rewritten URL names an s3 endpoint, rewriting again changes nothing, and taking the insertion out gives back the original, cut behind its first "tos", or behind its second character when it has none |
| TosNode.TempPathsApart | pkg/tos/nodeserver.go:80 | For any set of pod ids, distinct pairs of pod and volume have distinct temporary paths if and only if no id in it is another one, an underscore and more |
| TosNode.TempPathName | pkg/tos/nodeserver.go:80 | The temporary path is /tmp/tos_mnt/, the pod id, an underscore and the volume id |
| TosNode.UnderscoreFreeApart | pkg/tos/nodeserver.go:80 | In particular for underscore-free pod ids |
| TosNode.TosHost.NodePublishVolume | pkg/tos/nodeserver.go:55-151 | Touches only its temporary path and its target; before the cleanup is set nothing is mounted, unmounted or made, and the codes are exact; after it every exit is as PublishGuarded says; OK on a free target mounts the path of the bucket that the attributes of these names say; OK when nothing fails |
| TosNode.TosHost.PublishGuarded | pkg/tos/nodeserver.go:85-151 | OK exactly when no step fails; what both paths carry afterwards as a function of what they carried and of the failing steps; OK leaves the target mounted, the temporary path unmounted and removed and the sub path in the bucket of a left-over mount or else its own; an error leaves both unmounted unless an unmount of the cleanup failed; no path gains a second layer |
| TosNode.TargetKeptIff | pkg/tos/nodeserver.go:85-151 | A target mounted before keeps its mount if and only if no step up to its mount check fails or the cleanup's unmount fails |
| TosNode.RefusedRepublish | pkg/tos/nodeserver.go:85-110 | A repeated publish that the launcher refuses leaves a mounted target unmounted |
| TosNode.SubPathMadeIff | pkg/tos/nodeserver.go:112-121 | The sub path itself is made in the bucket if and only if it never climbs |
| TosNode.TosHost.MakeSubPath | pkg/tos/nodeserver.go:96-121 | The temporary half of a publish, with the bucket that the sub path is made in |
| TosNode.TosHost.MountTarget | pkg/tos/nodeserver.go:123-150 | The target half: a mounted target is left alone, a free one gets the bucket's sub path |
| TosNode.TosHost.CheckTosMounted | pkg/tos/util.go:194-216 | Within twenty looks: no error only if something is mounted; a mount that arrives within the poll is found |
| TosNode.TosHost.NodeUnpublishVolume | pkg/tos/nodeserver.go:154-174 | On OK nothing is mounted on the target |
| Sts.RefreshInTime | pkg/sts/sts.go:160-214 | The clock never passes the expiry of the credential held, in any run with at most f failed fetches in a row, if and only if (f + 1) periods fit in the window |
| Sts.FiveFailures | pkg/sts/sts.go:46-52 | With 5 and 30 minutes that is f at most 5 |
| Sts.Remaining | pkg/sts/sts.go:168-181 | After n failures in a row at least the window less n periods remains |
| Sts.Token.RefreshToken | pkg/sts/sts.go:164-214 | Asks the credential server once if and only if the credential is within the window of its expiry, keeps the old credential on failure, and the clients always use the credential held |
| Sts.Token.Run | pkg/sts/sts.go:148-153 | The first look is at the start and each next one the refresh period and at most the latency later; the loop holds what the run holds and asks at exactly the looks within the window; as long as the server gives credentials good for the window and at most f fetches in a row fail, every moment finds a valid credential |

## Left out

- Mutual exclusion of create and delete of one volume: they hold different keys, so it does not exist.
- Termination of the polling loops: they end by observation or by the context, so the results about them are partial.
- The context and topology that an EBS create returns besides id and capacity.
- Listing, validation of capabilities as a separate call, capability lists and identity services.
- `NodeExpandVolume` and resizing: the stage call's resize after a snapshot may fail, which is modelled, but that a retry then skips it means no claim is made that resizing happens.
- Device discovery under /sys: a volume keeps its device name on a node while one of its paths is mounted or a handler for it runs; `StagedUnderNewName` says what a stage does otherwise.
- EbsNode.Capability.AsksReadonly: a mount flag asks for read-only when it is `ro` itself; several options in one flag, or `rw` after `ro`, are not taken apart.
- Concurrency of the NAS and TOS services: their calls are sequential; they take no lock.
- Process restarts, which lose the in-flight set, and races on the client pointers in pkg/sts/sts.go.
- More than one NFS server: an export is one server's, and no two servers are mounted on one point.
- `isNfsPathMounted` as a search of all of /proc/mounts: the model searches the lines of the mount point's own mounts, by substring as the source does, and assumes that the search runs and that no other mount line contains the mount point's text.
- NasServers.Host.DeleteOutside: how much a delete removes before it fails, when the last component of the volume path is "." or "..", is left open.
- Two spellings of one mount point: a path is known by its text, as the driver's own joined paths are.
- NasServers.Host.Rename: an existing empty directory of the archived name is replaced, and nothing is claimed about what it held.
- File modes, ownership, links and special files in the exported tree.
- TosNode.TosHost.CheckTosMounted: a mount that the launcher makes after the last look is not modelled; a reply mounts within the poll or never.
- The TOS credential file: whether the secrets hold a credential is a parameter, writing the file may fail.
- Unicode case folding beyond what can produce a parameter name.
- Sts.Token.Run: the time that one look takes is bounded by a parameter, its latency; a request that hangs longer is not covered.
- Two attributes of one TOS option that differ only in case: which of them is used depends on the map order, and an empty one can win over another.
- SDK, HTTP, gRPC, Kubernetes client, metrics and logging.
