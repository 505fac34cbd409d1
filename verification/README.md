# rlvm: a verified model of its provisioning and mount protocols

rlvm is a Container Storage Interface (v1.7.0) driver split over four processes. This project models
the two request protocols underneath its gRPC wrapping and proves what they keep:

- **Provisioning** (controller over volumed). `CreateVolume` and `DeleteVolume` are chains of remote calls
  with no lock. The step machine in `Provisioning.dfy` interleaves any number of them step by step; each
  remote call may be answered, refused, carried out with its answer lost, or never carried out because the
  request was dropped. A run is any sequence of events, so retries and crashes are just more events.
- **Mounting** (node service over mountd). `mount` and `unmount` snapshot the mount table, validate, act and
  (for mount) change the owner. `Mountd.dfy` has the steps, the handlers and their serial form;
  `MountInterleaving.dfy` interleaves any number of requests while other processes change files;
  `Node.dfy` and `Lifecycle.dfy` have what each stage / publish / unpublish / unstage does; and
  `NodeInterleaving.dfy` interleaves the node handlers themselves, await by await, over the interleaved daemon, with
  any failures, lost answers, dropped handlers and retries of a well-behaved caller.

The handlers that work by changing things in order are classes with methods (`Controller.Volumed`,
`Controller.RLVMController`, `Mountd.MountdServer`, `Node.RLVMNode`). Each method is proved to have exactly
the effect and reply of a specification function (`Serve`, `ServeDelete`, `MountAlone`, `UnmountAlone`,
`Stage`, `Publish`, ...), and those functions are proved to be runs of the machines. What the methods of
`Controller.Volumed` do to the store is stated by the `*LvEffect` lemmas of `VolumeStore`.

| file | content |
|---|---|
| `Status`, `MachineInts`, `Numerals` | status codes, 64-bit casts, hex names and decimal tokens |
| `VolumeStore` | what each LVM command does to the volume group |
| `Provisioning`, `ProvisioningInvariant`, `ProvisioningSafety` | the step machine, its invariant, safety over all runs |
| `Reservation`, `ReserveLimits`, `ExtentReserve` | the reserve: what is kept, and when exactly it can be used up |
| `Convergence`, `RequestFaults`, `Capacity` | fault-free retries; one request under any faults; GetCapacity |
| `Paging` | ListVolumes as written and as the standard means it |
| `Controller` | volumed's and the controller's handlers |
| `MountTable`, `Mountd`, `MountRefinement`, `MountInterleaving` | mount table, daemon, serial refinement, interleaving |
| `Node`, `Lifecycle` | node handlers, and what each call does exactly |
| `LifecycleInterleaving`, `NodeInterleaving`, `NodeSerial` | lifecycle safety and teardown over interleaved requests and handlers |
| `ProvisioningWitnesses`, `MountWitnesses` | runs showing what fails without the hypotheses |

## Environment contracts

The libraries the services call are not part of this model; these assumptions stand in for them.

- A logical volume's name is unique among the live volumes of the group and its UUID is fresh and never
  reused: a UUID is the volume's position in the history of all volumes, and a removed volume stays in the
  history with `live` false.
- `add_lv` fails on a name in use, an illegal capacity, or lack of room; the size may be rounded up by an
  arbitrary function with `round(c) >= c`. `Env.accepts` says which capacities are legal.
- Any remote call may fail with any status. When a delete's lookup is *answered*, NotFound is truthful.
- The name hash is an arbitrary function to 64-bit digests; the whitelist is an arbitrary predicate on paths.
- The host is 64-bit, and the group's size fits a `usize`.
- OS mount pushes an entry, OS unmount takes the newest entry at the path or fails when there is none; each
  system call may fail at any time, the owner change also after the mount has happened.

## Where the code and its documentation or intent differ

The code is modelled; the theorems carry the missing hypothesis.

- Paging never skips to the start position and decides the next token against the page
  (`crates/csi/src/controller.rs:145-170`): one page, or the same page forever.
- `get_capacity` shorts out for this host's own topology; the comment says the opposite (`controller.rs:202-205`).
- Creating again reformats the volume (`controller.rs:344-347`), and the range check before the lookup makes
  a retry depend on the room left (`controller.rs:292-311`): with the figure read as remaining room, a create
  of more than half the usable size cannot be repeated.
- Every lookup error on delete reads as absence (`controller.rs:368-386`); the lookup by UUID covers every
  group of the host, the removal by name only the managed one (`crates/volumed/src/server.rs:176-181`).
- "Free" bytes come from the group's `capacity_bytes` (`server.rs:61-65`), which startup treats as its total
  (`crates/volumed/src/main.rs:66-75`); `VolumeStore.Figure` keeps both readings apart.
- The range check compares the size asked for with the free bytes, while LVM allocates it rounded up
  (`crates/csi/src/controller.rs:292-303`, `crates/volumed/src/server.rs:83-92`): a single create that rounds beyond
  the usable bytes is answered OK and uses up the reserve, under either figure. On whole extents this happens to
  serial creates exactly when the usable bytes are not whole extents.
- A failed owner change leaves the mount in place, and possibly a path that can be neither unmounted nor mounted
  again (`crates/mountd/src/server.rs:150-161`).
- Mount shorts out on the destination without comparing the source (`crates/mountd/src/server.rs:111-118`).
- Publish checks that the staging path exists, not that it is staged (`crates/csi/src/node.rs:225-231`), and
  does not check for an empty target path before creating it.
- The read-only test of `ensure_interactable` refuses a path that *is* read-only, while its message says the
  path is not (`crates/mountd/src/lib.rs:49-56`).

The hypotheses of lifecycle safety are shown to be needed by the runs of `MountWitnesses`: one volume per staging
path and per target, staging paths and targets that do not nest, paths that start out unmounted, publishing only
what is staged, one request for a path at a time (`OverlappingMountsStack`), and no unstaging under a publish
(`SourceMustStayMounted`).

Some hypotheses one might expect are not needed: agreement on the capacity replied does not depend on exact
sizes (all replies report the stored size), the reservation bound on requested bytes holds whatever LVM rounds, and
lifecycle safety and teardown do not depend on unpublishing before unstaging, nor on calls of one volume not
overlapping.

## Model

| member | source | states |
|---|---|---|
| Numerals.HexNameCodec | crates/csi/src/controller.rs:508-516 | every 64-bit digest is rendered as 1 to 16 of the characters 0-9 and A-F, with a leading zero only for zero, and the text reads back as the digest |
| Numerals.HexNameInjective | crates/csi/src/controller.rs:306-310 | two requests address the same stored name iff their digests are equal |
| Numerals.TokenRoundTrip | crates/csi/src/controller.rs:121-130 | every token the server can print is parsed back as the same usize |
| Numerals.ParseUsizeExactly | crates/csi/src/controller.rs:121-127 | a text is read as a usize iff, after an optional plus sign, it is one or more decimal digits of positional value below 2^64, and then as that value |
| VolumeStore.AddLvEffect | crates/volumed/src/server.rs:76-105 | creating succeeds iff the capacity is legal, no live volume has the name and the rounded size fits; then exactly one fresh volume of that name and size is added and all others are untouched |
| VolumeStore.RemoveLvEffect | crates/volumed/src/server.rs:107-122 | removing by name succeeds iff a live volume has it, takes exactly that one, and lowers the allocation by exactly its size |
| VolumeStore.FormatLvEffect | crates/volumed/src/server.rs:124-162 | formatting by name succeeds iff a live volume has it, blanks exactly that one and raises its generation by one |
| VolumeStore.FindNameExact | crates/volumed/src/server.rs:183-189 | a lookup by name finds a volume iff it is the live one of that name |
| VolumeStore.ListSound | crates/volumed/src/server.rs:38-52 | every listed volume is a live one, reported as it stands |
| VolumeStore.ListComplete | crates/volumed/src/server.rs:38-52 | every live volume is listed |
| VolumeStore.ListOrdered | crates/volumed/src/server.rs:38-52 | the list is in creation order, so no volume appears twice |
| ProvisioningInvariant.RunKeepsInv | crates/csi/src/controller.rs:244-389 | in every interleaving the store stays well formed, every request's captured locals stay truthful, volumes keep name, size and origin, and replies are never rewritten |
| ProvisioningSafety.CreateAgreement | crates/csi/src/controller.rs:305-351 | in any run, deletes included, two OK creates whose volumes still exist reply the same volume iff their names have equal digests |
| ProvisioningSafety.CreateAgreementNoDeletes | crates/csi/src/controller.rs:305-351 | without deletes all OK replies for a digest are one reply, and each request so answered whose own size LVM does not round asked for exactly the capacity replied |
| ProvisioningSafety.OneVolumePerName | crates/csi/src/controller.rs:313-340 | without deletes at most one volume ever exists per stored name, also in runs where every create crashed or was refused |
| ProvisioningSafety.DeleteIsFinal | crates/csi/src/controller.rs:368-388 | after an OK delete of a managed UUID whose lookup found it, or answered NotFound for a UUID already issued, no later state of any run has the volume |
| ProvisioningSafety.RemovalTakesRequestedOrStale | crates/csi/src/controller.rs:376-380 | the removal by name takes at most one volume, and one other than the requested only if the requested is already gone |
| ProvisioningSafety.RemovalTakesOtherExactly | crates/csi/src/controller.rs:376-388 | the removal step takes another volume iff it is carried out (answered or its answer lost) while the requested one is gone and a live volume bears its name |
| ProvisioningSafety.FormatMatching | crates/csi/src/controller.rs:344-351 | every OK create reply has its own format of the replied volume, no format serves twice, so the generation is at least the number of OK replies |
| ProvisioningSafety.CreateWipes | crates/csi/src/controller.rs:344-347 | between any state without the reply and the OK reply there is a state in which this request left the volume blank: a retry resets contents |
| ProvisioningSafety.ListedAsRequested | crates/csi/src/controller.rs:63-75 | every volume made and still existing is listed under a name that reads back as the digest of the name its maker asked for, with exactly the non-negative requested size iff LVM did not round it |
| Reservation.ReservationBound | crates/csi/src/controller.rs:278-303 | on every host, with remaining room as the figure and at most n creates in flight, the bytes live volumes were asked for with plus the bytes admitted but not created stay within n times (size - spare); where LVM rounded no live volume, so do the bytes allocated |
| Reservation.SerialRunsKeepReserve | crates/volumed/src/server.rs:54-74 | on every host, with remaining room as the figure and one create in flight at a time, `spare_bytes` stay free of requested bytes, and free altogether where LVM rounded no live volume |
| Reservation.EachVolumeInRange | crates/csi/src/controller.rs:291-303 | whatever the figure means, every volume made was asked for within [MIN, size - spare] and has the size LVM rounds that to, so it is itself in that range if that size was not rounded |
| ReserveLimits.ReserveOverrunExactly | crates/csi/src/controller.rs:278-338 | on every host, whatever the figure: some run from an empty group leaves less than the reserve iff there are requests, each in range, of a legal size and of its own digest, whose rounded sizes together exceed size - spare and fit in the group |
| ReserveLimits.SerialOverrunExactly | crates/csi/src/controller.rs:291-303 | the same for runs with one create in flight at a time, where with remaining room as the figure the requests must also fit in turn, each as asked beside the earlier ones as rounded |
| ReserveLimits.OverlappingCreatesEatReserve | crates/csi/src/controller.rs:278-338 | any such requests overrun when each passes the range check before the first adds its volume, also with remaining room as the figure |
| ReserveLimits.TotalFigureEatsReserve | crates/volumed/src/server.rs:54-74 | with the total size as the figure they are all answered OK one after another and overrun |
| ReserveLimits.RoundingEatsReserve | crates/volumed/src/server.rs:76-105 | whatever the figure, one undisturbed create of an admissible, legal size that LVM rounds beyond the usable bytes is answered OK and overruns |
| ReserveLimits.SerialCreates | crates/csi/src/controller.rs:244-352 | requests served one after another are all answered OK and each add their volume, if they fit in the group and, with remaining room as the figure, in turn |
| ReserveLimits.SafeReserveKept | crates/csi/src/controller.rs:291-303 | from an empty group, unless spare > 0, MIN <= size - spare and 2 MIN <= size, no state whose live volumes are unrounded has overrun, whatever the figure and the interleaving |
| ExtentReserve.ExtentOverrunExactly | crates/volumed/src/server.rs:76-105 | on a group of extents of which MIN is a whole number, all sizes legal: some run from empty overruns iff whole extents can exceed the usable bytes, MIN <= usable, and the usable bytes are not whole extents or 2 MIN fit |
| ExtentReserve.SerialExtentOverrunExactly | crates/volumed/src/server.rs:76-105 | with one create in flight at a time and remaining room as the figure, iff besides the usable bytes are not whole extents |
| Convergence.UndisturbedCreate | crates/csi/src/controller.rs:244-352 | a fault-free create served alone succeeds iff it is valid, in range, and matches the existing volume or can be added; it then leaves its volume live, of the right name and size and freshly formatted, and otherwise changes nothing and is refused with the status due |
| Convergence.CrashConvergence | crates/csi/src/controller.rs:278-347 | from every reachable state a fault-free retry succeeds iff it is well formed, MIN <= capacity <= bytes free now, any volume of the name has exactly that capacity and, if there is none, the capacity is accepted and its rounded size fits (implied for an accepted, unrounded size when the figure is the remaining room); the volume is then of the size due and freshly formatted |
| Convergence.RetryOfMaker | crates/csi/src/controller.rs:313-327 | the request that made a volume can be retried with success iff its size was not rounded and is still within the bytes free |
| Convergence.RepeatSucceeds | crates/csi/src/controller.rs:292-303 | a create can be repeated right away iff its size was not rounded and, under the remaining-room figure, twice the size fits |
| Convergence.DeleteAlone | crates/csi/src/controller.rs:354-389 | a fault-free delete of a managed UUID is answered OK, present or not, and leaves exactly the other volumes |
| Convergence.ServeIsRun | crates/csi/src/controller.rs:278-351 | a create served alone, whatever becomes of its calls, is a run of the interleaving machine |
| RequestFaults.ValidateExactly | crates/csi/src/controller.rs:253-276 | a create passes validation iff it has a name, a capability and no negative size or limit, with the size given or 536870912 bytes; else InvalidArgument |
| RequestFaults.FreeBytesExactly | crates/volumed/src/server.rs:54-74 | the free bytes are the figure less the reserve, and never negative |
| RequestFaults.CreateOkExactly | crates/csi/src/controller.rs:244-352 | for all outcomes of the four remote calls of a create served alone: it is answered OK iff it passed the range check and the lookup gave a volume of its size and the format was answered, or the lookup gave none (or was refused with NotFound), one could be added, and addition and format were answered; the reply is that volume |
| RequestFaults.CreateMakesExactly | crates/csi/src/controller.rs:328-341 | a volume is added iff, besides, only the lookup answered with none or refused with NotFound led there, it could be added, and the call was carried out; it is the volume asked for |
| RequestFaults.CreateWipesExactly | crates/csi/src/controller.rs:344-347 | of the volumes there, exactly the one the lookup gave with the right size is wiped, iff the format was carried out, and no other changes |
| RequestFaults.CreateRefusals | crates/csi/src/controller.rs:253-347 | the status of every create not answered OK, by the first thing that went wrong: any other refusal or a lost lookup is passed on and makes nothing |
| RequestFaults.FormatStepExactly | crates/volumed/src/server.rs:124-162 | the format step in any interleaving wipes exactly the live volume of the name, and is answered NotFound when none is left |
| RequestFaults.DeleteWithoutRemoval | crates/csi/src/controller.rs:361-386 | a delete with an empty id is an InvalidArgument; one with a malformed id, or whose lookup is refused, lost, or finds nothing, is answered OK; none of them changes anything |
| RequestFaults.DeleteWithRemoval | crates/csi/src/controller.rs:376-388 | one that goes on removes exactly the live volume of the name, if the call is carried out, and is answered what that call comes to |
| Capacity.ShortsOutExactly | crates/csi/src/controller.rs:184-205 | GetCapacity shorts out iff some capability is multi-node or the topology asked about is this host's own |
| Capacity.GetCapacityExactly | crates/csi/src/controller.rs:184-226 | the reply is (0, none) iff some capability has mode 3, 4 or 5 or the topology is this host's, and otherwise the free bytes as an i64 and 536870912 |
| Capacity.AnswerCapacity | crates/csi/src/controller.rs:207-217 | a request that shorts out makes no remote call; for any other a failed call is answered Internal |
| Capacity.AdvertisedIsAdmissionBound | crates/csi/src/controller.rs:207-226 | every well-formed create served undisturbed from the same store avoids the reply OutOfRange exactly when its size is between the advertised minimum and available capacity, iff the free bytes fit an i64 |
| Paging.AsWrittenStopsAfterPrefix | crates/csi/src/controller.rs:145-170 | with a limit n the code as written gives the first n volumes for every accepted token, so the whole list is seen iff it fits one page; a next token comes iff start + n wraps around to a position within the list |
| Paging.AsWrittenLoopsForever | crates/csi/src/controller.rs:151-170 | with no limit the code as written gives the whole list and, on a list longer than the start, a token whose reply is the same reply again |
| Paging.UnlimitedListingNeverEnds | crates/csi/src/controller.rs:151-170 | on every non-empty list the empty token starts that loop |
| Paging.IntendedVisitsAll | protos/csi.proto:851-866 | with skip and the full length compared, following tokens visits every volume once in list order in full pages and stops |
| Paging.FollowedPagesUnique | protos/csi.proto:902-907 | the pages seen by following tokens are determined by the starting token |
| Paging.PrintedTokensNeverOverflow | crates/csi/src/controller.rs:158-169 | start plus limit cannot overflow for any token the server printed |
| Paging.AcceptedTokenOverflows | crates/csi/src/controller.rs:121-130 | for every limit and non-empty list some accepted token makes start plus limit overflow, and its reply, the first page again, carries a token back to the beginning |
| Paging.ListRefusals | crates/csi/src/controller.rs:113-130 | a negative limit is an InvalidArgument, and otherwise a token that is neither empty nor a decimal below 2^64 is answered Aborted; everything else is accepted |
| Paging.AnswerList | crates/csi/src/controller.rs:132-143 | a failed remote call is answered Internal, but only for an accepted request |
| Controller.Volumed.GetByName | crates/volumed/src/server.rs:183-192 | an answered lookup gives a live volume of that name, as it stands, or NotFound when no live volume has the name |
| Controller.RLVMController.CreateVolume | crates/csi/src/controller.rs:244-352 | the handler's remote calls in order leave the store and reply of the machine's create served alone, for all outcomes |
| Controller.RLVMController.DeleteVolume | crates/csi/src/controller.rs:354-389 | the same for delete |
| Mountd.CollectFlagsExact | crates/mountd/src/server.rs:120-137 | the flags decode iff each is a known one, and then, with the two added, BIND and RDONLY are set iff requested, whatever order or repetition |
| Mountd.MountdServer.Mount | crates/mountd/src/server.rs:55-162 | the handler has the effect and reply of the mount steps taken alone, for all failures |
| Mountd.MountdServer.Unmount | crates/mountd/src/server.rs:164-213 | the same for unmount |
| MountRefinement.MountAloneEffect | crates/mountd/src/server.rs:139-159 | a mount adds one entry, rooted and flagged as requested, exactly when it newly mounts or only its chown fails, hands the root to the configured pair unless that failed, and changes nothing otherwise |
| MountRefinement.MountOkExactly | crates/mountd/src/server.rs:82-161 | when exactly a mount is answered OK, down to the owners and permissions of both ends |
| MountRefinement.MountAnswers | crates/mountd/src/server.rs:86-161 | the exact condition of every answer to a mount with both ends, over the files' owners, permissions and kinds: PermissionDenied, FailedPrecondition, InvalidArgument, Internal and OK, and of a failed owner change |
| MountRefinement.EndsMissing | crates/mountd/src/server.rs:60-81 | a mount without source or destination is an InvalidArgument once the table has been read |
| MountRefinement.CheckExactly | crates/mountd/src/server.rs:86-129 | against any snapshot, whatever is mounted by then: a permitted directory shorts out iff the snapshot has it |
| MountRefinement.CheckUnmountExactly | crates/mountd/src/server.rs:184-203 | the same for an unmount |
| MountRefinement.UnmountOkExactly | crates/mountd/src/server.rs:164-213 | the exact condition of every answer to an unmount: OK, PermissionDenied, InvalidArgument and Internal |
| MountRefinement.OpRefinesSet | crates/mountd/src/server.rs:55-213 | from an unstacked table OK mount inserts, OK unmount removes, both are idempotent, other paths keep their entries, and an error changes nothing but a chown failure, which adds exactly dst |
| MountRefinement.RunRefinesSet | crates/mountd/src/server.rs:55-213 | over every serial run the table stays unstacked and shows exactly the set tracked from the endings |
| MountRefinement.MountCanBeUndone | crates/mountd/src/lib.rs:35-98 | after an OK mount and any operations elsewhere than at or above it, the path is mounted and whitelisted or owned by the configured pair, so its unmount is never answered PermissionDenied |
| MountRefinement.FailedChownSticks | crates/mountd/src/server.rs:150-161 | after a failed chown the path is mounted, and its unmount is answered PermissionDenied iff the path is neither whitelisted nor owned by the configured pair, in which case a retried mount is refused too |
| MountRefinement.UndecodableFlagMountsNothing | crates/mountd/src/server.rs:120-129 | one undecodable flag on an unmounted path mounts nothing |
| MountInterleaving.FlagsOverRuns | crates/mountd/src/server.rs:120-146 | in every interleaved run every added entry was asked for by a request for its path and carries NODEV and NOSUID, BIND iff bind and RDONLY iff read-only was asked for |
| MountInterleaving.StackingBound | crates/mountd/src/server.rs:60-146 | path by path: with at most n mounts there at first and at most n mount requests for the path in flight, its mounts plus the requests about to mount there unknowingly never exceed n |
| MountInterleaving.SerialMountsNeverStack | crates/mountd/src/server.rs:111-118 | one mount request for a path at a time, with anything at other paths, any unmounts and file changes between its steps, never stacks the path |
| MountInterleaving.MountAloneIsRun | crates/mountd/src/server.rs:55-162 | from every state of the interleaving machine, a mount served alone is a run of it |
| MountInterleaving.UnmountAloneIsRun | crates/mountd/src/server.rs:164-213 | the same for an unmount |
| MountInterleaving.DroppedDoesNothing | crates/mountd/src/server.rs:55-213 | a request dropped at any point changes nothing more and is never answered |
| Node.RLVMNode.NodeStageVolume | crates/csi/src/node.rs:67-138 | the handler's effect and reply, for all failures |
| Node.RLVMNode.NodeUnstageVolume | crates/csi/src/node.rs:140-183 | the handler's effect and reply, for all failures |
| Node.RLVMNode.NodePublishVolume | crates/csi/src/node.rs:185-261 | the handler's effect and reply, for all failures |
| Node.RLVMNode.NodeUnpublishVolume | crates/csi/src/node.rs:263-301 | the handler's effect and reply, for all failures |
| Lifecycle.StageEffect | crates/csi/src/node.rs:116-137 | staging adds at most one entry: the volume's own device at the staging path, no bind, read-only iff the mode is SINGLE_NODE_READER_ONLY; an OK reply means mounted |
| Lifecycle.StageOkExactly | crates/csi/src/node.rs:76-137 | when exactly staging is answered OK, down to the guard, the table and the device |
| Lifecycle.StageAnswers | crates/csi/src/node.rs:76-137 | what staging comes to otherwise, and that it is else one mount request to the daemon |
| Lifecycle.StageOkNames | crates/csi/src/node.rs:91-137 | after an OK stage the path names the volume's own device iff it was not mounted before or named that device already |
| Lifecycle.StageKeepsExactly | crates/csi/src/node.rs:91-137 | an OK stage leaves what another path names iff its path was mounted, is not at or above that path, or shows the same there |
| Lifecycle.PublishOkExactly | crates/csi/src/node.rs:194-260 | when exactly publishing is answered OK, on the host with the missing directories down to the target made; nothing asks whether the staging path is mounted |
| Lifecycle.PublishAnswers | crates/csi/src/node.rs:194-260 | what publishing comes to otherwise, and that it is else one bind request to the daemon on that host |
| Lifecycle.MakeDirsExactly | crates/csi/src/node.rs:219-222 | creating the target works iff nothing on the way down is a file; exactly the missing directories are added and no file changes |
| Lifecycle.PublishEffect | crates/csi/src/node.rs:233-260 | publishing adds at most one entry: a bind of what the staging path names, read-only iff the mode is SINGLE_NODE_READER_ONLY; an OK reply means mounted |
| Lifecycle.PublishOkNames | crates/csi/src/node.rs:209-260 | after an OK publish the target names a file iff the target, if it was mounted before, or else the staging path named it |
| Lifecycle.PublishKeepsExactly | crates/csi/src/node.rs:209-260 | the same for an OK publish: when exactly nesting changes another target |
| Lifecycle.UnstageEffect | crates/csi/src/node.rs:140-183 | unstaging pops the staging path iff the volume is known, its device exists, and the path is mounted, permitted and the system calls go through; else the table stays |
| Lifecycle.UnstageOkExactly | crates/csi/src/node.rs:140-183 | when exactly unstaging is answered OK; then the stack at the path is one lower or was empty, and every other path has its mounts |
| Lifecycle.UnstageAnswers | crates/csi/src/node.rs:149-183 | the status of every other unstage |
| Lifecycle.UnpublishEffect | crates/csi/src/node.rs:263-301 | unpublishing pops the target under the same condition but for the device |
| Lifecycle.UnpublishOkExactly | crates/csi/src/node.rs:263-301 | when exactly unpublishing is answered OK; then the stack at the target is one lower or was empty |
| Lifecycle.UnpublishAnswers | crates/csi/src/node.rs:272-296 | the status of every other unpublish |
| Lifecycle.UnpublishRemoves | crates/csi/src/node.rs:297-298 | after an OK unpublish the file the target names goes iff it is an empty directory that is no mount point and the removal works; every other file stays |
| LifecycleInterleaving.RunKeepsInv | crates/mountd/src/server.rs:55-213 | with the daemon's requests interleaved step by step, every running request's snapshot stays right about its own path, and a staging path being bound stays mounted |
| LifecycleInterleaving.InterleavedSafety | crates/mountd/src/server.rs:55-213 | in every state of every run in which the caller keeps roles, binds only from paths it holds, has one request per path running and unmounts no path being bound, the table is the initial one plus managed paths mounted from their own devices, each at most once; a managed path names its own volume's filesystem while mounted, and is mounted while held |
| LifecycleInterleaving.InterleavedTeardown | crates/mountd/src/server.rs:164-213 | in every such run, once each managed path asked to be mounted has had an OK unmount since, the mount table is the initial one, entry for entry, whatever else is in flight |
| LifecycleInterleaving.NodeRequestsInRole | crates/csi/src/node.rs:116-137 | the mount requests of stage and publish are the device mounts and binds those runs are about |
| NodeInterleaving.RunKeepsInv | crates/csi/src/node.rs:67-301 | with the node handlers interleaved await by await over the interleaved daemon, every request they send is one the daemon's caller may make, and what the caller knows from replies is true of the daemon |
| NodeInterleaving.LifecycleSafety | crates/csi/src/node.rs:67-301 | in every state of every such run, failures, lost answers, dropped handlers and retries included, with one call per path at work and publishes only from staged paths, a managed path is unmounted or names its own volume's filesystem, at most once, the rest of the table is as it was, and paths staged or published OK and not torn down since are mounted |
| NodeInterleaving.TeardownConserves | crates/csi/src/node.rs:140-301 | in those runs, once every path staged or published has had an OK teardown since, the mount table is the initial one, entry for entry |
| NodeInterleaving.GivenUp | crates/csi/src/node.rs:67-301 | a dropped node call asks nothing more of the daemon, while a request it sent runs on; a lost answer is an error |
| NodeInterleaving.WaitsForDaemon | crates/csi/src/node.rs:137-138 | a call waiting for the daemon passes on how its request ended |
| NodeSerial.NodeCallIsRun | crates/csi/src/node.rs:67-301 | each of the four node calls served alone, from any state and with any faults, is a run of that machine with the host and reply of the serial call |
| ProvisioningWitnesses.LookupErrorReadsAsAbsence | crates/csi/src/controller.rs:368-386 | a delete of a managed UUID whose lookup is answered, refused or lost is answered OK, and the volume is then gone iff the lookup was answered or there was none |
| ProvisioningWitnesses.DeleteOkExactly | crates/csi/src/controller.rs:368-388 | when exactly a delete served alone is answered OK, and when exactly the volume is gone, for all outcomes of its two calls |
| ProvisioningWitnesses.ForeignDeleteTakesNamesake | crates/volumed/src/server.rs:176-181 | deleting another group's volume removes the managed volume of the same name and is answered OK |
| ProvisioningWitnesses.StaleDeleteTakesSuccessor | crates/csi/src/controller.rs:376-380 | from every state with a live volume, a delete looked up before another delete and a re-create of the name removes the successor and is answered OK |
| MountWitnesses.PublishNeedsStage | crates/csi/src/node.rs:225-231 | publishing from a directory on which nothing is staged is answered OK and binds the host's own directory |
| MountWitnesses.StagingPathsNeedOneVolume | crates/mountd/src/server.rs:111-118 | two volumes staged on one path are both answered OK and the path stays on the first's device |
| MountWitnesses.TargetsNeedOneVolume | crates/mountd/src/server.rs:111-118 | two volumes published at one target are both answered OK and the target stays on the first |
| MountWitnesses.TargetsMustNotNest | crates/csi/src/node.rs:209-260 | publishing above another target is answered OK and changes what that target names |
| MountWitnesses.StagingPathsMustNotNest | crates/csi/src/node.rs:91-137 | staging above another staging path is answered OK and moves that path onto the other device |
| MountWitnesses.PathsMustStartUnmounted | crates/mountd/src/server.rs:111-118 | staging on a path where something is mounted already is answered OK and changes nothing |
| MountWitnesses.OverlappingMountsStack | crates/mountd/src/server.rs:60-146 | wherever one mount would succeed, device or bind, two overlapping ones leave two entries and a path that outlives an unmount iff the second still finds a directory to mount; it does, and adds the same entry, unless it binds from at or below the path |
| MountWitnesses.SourceMustStayMounted | crates/mountd/src/server.rs:60-146 | wherever a bind and an unmount of its source would both go through, the source can go between check and bind, and the target then shows what lies beneath |
| MountWitnesses.ConcreteHost | crates/mountd/src/server.rs:60-146 | a host on which the unstaged publish and the stacking pair of mounts both occur |

## Left out

- gRPC and tonic wiring, sockets, CLI and YAML parsing, signals, logging: no state of interest.
- crates/csi/src/identity.rs, capability lists, `node_get_info`, `validate_volume_capabilities`, unimplemented handlers: constants or absent behaviour. The accessible topology and context maps of a reply are left out with them.
- The bodies of lvm2_cmd, sys_mount, mountpoints, wax, nix and the default hasher, which are not part of this model: contracts above.
- A `mkfs` that stops half-way: a format either runs or leaves the contents as they were.
- The status a failed `add_lv` or `remove_lv` maps to is taken as InvalidArgument, which is what a failing LVM command maps to, and that of a missing volume as NotFound.
- Error texts, and metadata calls that fail although the path exists.
- Symbolic links, `..`, relative paths and recursive bind propagation: a path is a normalised component sequence. Kernel flags are recorded as requested; whether the kernel honours read-only on a bind is outside.
- The kernel's refusal to unmount a busy path is one of the failures any system call may have.
- NodeInterleaving.Apply: creating the target's directories is one step, and so are the existence checks with the sending of the request.
- volumed's startup check that the reserve is smaller than the group: no theorem needs it.
- Paging.ListVolumes: addition of start and limit wraps around as in a release build; a debug build would panic instead.
