# DRM modesetting core: a verified model

The modesetting core of the Linux DRM subsystem keeps several redundant views of a display device in step: state objects
that are duplicated, changed and swapped in; masks that cache who points at whom; commits that run concurrently and
synchronise through completions; lists that are walked while their entries die. This project models that code in Dafny
and proves what its comments and documentation promise.

Each part of the model takes the form of the code it stands for. Objects that methods update are classes, loops are
loops, recursive searches are recursive, and what a method does is stated by its contract. The nonblocking commit
protocol, in which submitters and workers interleave, is a transition system: a world is the shared memory together with
the program counters, a step is anything that can happen next, and the theorems hold for every run.

| file | code | subject |
|---|---|---|
| `CommitProtocol.dfy` | `drm/drm_atomic_helper.c` | the steps of setup, swap, commit tail and cleanup |
| `CommitInvariant.dfy`, `CommitSwap.dfy` | | the invariant, and that every step and every run keeps it |
| `CommitTheorems.dfy` | | exclusion, order and pipeline depth |
| `CommitProgress.dfy` | | waits, absence of deadlock and livelock, ownership of state objects |
| `CommitLifetime.dfy` | | reference counts of CRTC commits |
| `CommitLateRead.dfy` | | new states after hw_done |
| `CommitGuards.dfy` | | when commits are refused, and that nobody waits for more than needed |
| `AtomicState.dfy` | `drm/drm_atomic.c`, `drm/drm_atomic_uapi.c` | assembling a commit, plane and connector masks |
| `EncoderRouting.dfy`, `ConflictingEncoders.dfy`, `ModesetCheck.dfy` | `drm/drm_atomic_helper.c` | encoder routing and the modeset check |
| `ModesetHooks.dfy` | `drm/drm_atomic_helper.c` | the disable and enable loops |
| `AtomicIoctl.dfy` | `drm/drm_atomic_uapi.c` | the atomic ioctl, from properties to hooks |
| `AtomicRequests.dfy` | | which calls ask for a modeset, page flips |
| `BridgeChain.dfy`, `BusFormats.dfy` | `drm/drm_bridge.c` | order of bridge calls, bus format negotiation |
| `PickCrtcs.dfy`, `TilePasses.dfy` | `drm/drm_client_modeset.c` | assignment of CRTCs to connectors, order of tiles |
| `Zpos.dfy`, `Rotation.dfy` | `drm/drm_blend.c` | normalized z-positions, simplified rotations |
| `ConnectorList.dfy` | `drm/drm_connector.c` | the connector list and its iterators |
| `MasterOwnership.dfy` | `drm/drm_auth.c` | device masters |
| `DisplayId.dfy` | `drm/drm_displayid.c` | the DisplayID block iterator |

`dafny verify dfyconfig.toml` checks everything.

## Conventions

- Objects are named by their indices, a NULL pointer is `None`, and 32-bit masks are sets of indices.
- Driver callbacks, the outcome of taking a w/w lock and the outcome of an allocation are parameters, as pure functions
  where the code asks more than once. A lock is exclusive from the moment a state is duplicated until locks are dropped.
- `drm_atomic_crtc_needs_modeset` means that mode, active or connectors changed; `for_each_..._in_state` goes by index;
  `sort()`, krefs and list heads have their usual meaning. The headers that define them are not part of this model.
- Constants from headers outside the repository (the rotation bits, the tag 70h of DisplayID extension blocks, the fixed
  bus format, the limit of eight connectors per modeset) have their published values.

## Where the code is not as smooth as its documentation

- `drm_atomic_set_crtc_for_plane` leaves the plane pointing at a CRTC outside the commit when that CRTC cannot be
  locked or duplicated, while `drm_atomic_set_crtc_for_connector` leaves a consistent commit. `SetCrtcForPlane` states
  that the commit is consistent if and only if the call returned 0, `FailedMoveStrandsPlane` gives an input.
- `drm_atomic_helper_commit_hw_done` hands the new CRTC states over to the next commit, but the default commit tails call
  `drm_atomic_helper_wait_for_vblanks` after it, which looks at them again. `NewStateIsGoneIff` says exactly when such a
  state is destroyed by then, `NewStateMayBeGone` gives a run.
- `drm_atomic_commit_zpos_cmp` subtracts unsigned numbers and returns an int. `ComparatorIsRightIffClose` gives the exact
  condition under which it orders planes as documented, `ComparatorWraps` an input for which it does not.
- The first pass of `drm_client_target_preferred` is meant for connectors without tiles but picks no mode at all, and
  the offsets of a tile may be computed before the tile on its left has a mode. `NeighboursComeFirstIff` says exactly
  when, `LeftNeighbourComesLater` and `LeftNeighbourHasHigherIndex` give layouts. Since the offsets add up tiles of all
  rows and columns, they are complete for single rows and columns only (`OffsetsCompleteIff`).
- In `drm_atomic_helper_commit_modeset_enables` bridges are pre-enabled after their CRTC is enabled, and in
  `disable_outputs` post-disabled before it is disabled; the model follows the code and proves that all bridge hooks run
  while the CRTC is on.
- A DisplayID section that fails validation ends the walk, even if later extension blocks hold valid sections.
  `FindsAllIff` gives the exact condition under which that loses a block, `BrokenHidesValid` an input.

## Model

| member | source | states |
|---|---|---|
| `CommitInvariant.BeginKeeps` | drm/drm_atomic.c:170-189 | allocating a commit keeps the protocol invariant: locks, order of swaps, commit pointers, completions, lists, depth and ownership |
| `CommitInvariant.GetStateKeeps` | drm/drm_atomic.c:365-396 | taking the lock and duplicating the current state keeps the invariant, in particular that a staged commit remembers the current state |
| `CommitInvariant.AbortKeeps` | drm/drm_atomic.c:200-289 | clearing a commit that was not swapped in destroys its duplicates and nothing else |
| `CommitInvariant.StartSetupKeeps` | drm/drm_atomic_helper.c:2511-2530 | the beginning of setup keeps the invariant |
| `CommitInvariant.StallCheckKeeps` | drm/drm_atomic_helper.c:2375-2410 | the stall check of a CRTC, up to its wait, keeps the invariant; the list may have grown beyond the commit waited for only by cleaned-up entries |
| `CommitInvariant.StallDoneKeeps` | drm/drm_atomic_helper.c:2534-2571 | the end of the wait leaves at most one uncleaned commit on the list of the CRTC |
| `CommitInvariant.TrackKeeps` | drm/drm_atomic_helper.c:2573-2615 | tracking a plane or connector keeps the invariant |
| `CommitSwap.SwapKeeps` | drm/drm_atomic_helper.c:3252-3375 | the swap keeps the invariant: the old state of each object is the one made by the last swapped commit, lists stay sorted, at most two entries are uncleaned |
| `CommitInvariant.WaitDepKeeps` | drm/drm_atomic_helper.c:2636-2670 | a dependency that was waited for has hw_done and flip_done completed from then on |
| `CommitInvariant.SignalHwKeeps` | drm/drm_atomic_helper.c:2735-2754 | hw_done of a CRTC moves the commit from the new to the old state; the new state still points at the commit of its own update, even if a later commit was swapped in |
| `CommitInvariant.SignalRestKeeps` | drm/drm_atomic_helper.c:2756-2759 | hw_done of the fake commit keeps the invariant |
| `CommitInvariant.CleanupCrtcKeeps` | drm/drm_atomic_helper.c:2781-2787 | cleanup_done completes the commit of this very update |
| `CommitInvariant.UnlinkKeeps` | drm/drm_atomic_helper.c:2789-2791 | taking an entry off the list keeps the list sorted and complete |
| `CommitInvariant.FinishKeeps` | drm/drm_atomic_helper.c:2794-2797 | cleanup_done of the fake commit keeps the invariant |
| `CommitInvariant.FreeKeeps` | drm/drm_atomic.c:200-289 | freeing a swapped commit destroys exactly the old states it replaced |
| `CommitInvariant.UnlockKeeps` | drm/drm_atomic_helper.c:2245-2319 | the submitter may drop its locks at any time after the swap |
| `CommitSwap.StepKeepsInv` | drm/drm_atomic_helper.c:2034-2085 | every step of every submitter and worker keeps the invariant |
| `CommitSwap.RunKeepsInv` | drm/drm_atomic_helper.c:2034-2085 | so does every interleaving of any number of commits |
| `CommitTheorems.SwapExclusion` | drm/drm_atomic_helper.c:3269-3311 | with stall set, from the swap until hw_done of the tracking commit the object's state pointer is the new state of that commit, and every other swapped commit on the object is past hw_done |
| `CommitTheorems.ProgramInSwapOrder` | drm/drm_atomic_helper.c:2636-2670 | when a commit begins to program the hardware, every earlier commit on a common object is past programming, with hw_done and flip_done completed |
| `CommitTheorems.NeverProgramTogether` | drm/drm_atomic_helper.c:2625-2634 | two commits that share a CRTC, plane or connector never program the hardware at the same time |
| `CommitTheorems.AtMostTwoUncleaned` | drm/drm_atomic_helper.c:2411-2415 | of any three commits swapped in on a CRTC one has cleanup_done completed, however cleanups overtake each other |
| `CommitTheorems.OnlyTheNewestTwoAreUncleaned` | drm/drm_atomic_helper.c:2375-2423 | a commit_list runs from newest to oldest and all entries beyond the newest two are cleaned up |
| `CommitTheorems.WarningsNeverFire` | drm/drm_atomic_helper.c:2781-2787 | swap_state finds every object in the state it duplicated, cleanup_done finds its own commit in the old state with hw_done completed |
| `CommitTheorems.TrackedByItsCrtc` | drm/drm_atomic_helper.c:2444-2464 | setup has every plane and connector tracked by the commit of its new CRTC, else of its old one, else by the fake commit |
| `CommitProgress.WaitsGoBackwards` | drm/drm_atomic_helper.c:2375-2423 | every wait (stall, swap, dependency) is for a commit that is swapped in, and for a strictly earlier one if the waiter is swapped in too |
| `CommitProgress.NoDeadlock` | drm/drm_atomic_helper.c:2034-2085 | once pending flips are delivered, while a submitted commit is unfinished some commit can take a step |
| `CommitProgress.RunsEnd` | drm/drm_atomic_helper.c:2034-2085 | without new commits a run has at most as many advancing steps as there was work at its start |
| `CommitProgress.NoUseAfterDestroy` | drm/drm_atomic_helper.c:2739-2749 | from assembly to hw_done no step reads or writes a destroyed state object, neither programming, which reads the old and new states of all objects in the commit after the locks are gone, nor hw_done; after hw_done no step reads or writes an old state that is destroyed |
| `CommitProgress.DestroyedAtMostOnce` | drm/drm_atomic.c:200-289 | no state object is destroyed twice, and the current state of an object is never destroyed |
| `CommitProgress.NothingLeaks` | drm/drm_atomic.c:325-343 | when all commits are freed or aborted, every duplicate is destroyed exactly once unless it is current |
| `CommitGuards.NonblockWaitsForCrtc` | drm/drm_atomic_helper.c:2382-2397 | a nonblocking commit past, or inside, the stall check of a CRTC, and for good, never has an outstanding flip before it on that CRTC, as long as the commit of that flip is on the list |
| `CommitGuards.NonblockWaitsForObject` | drm/drm_atomic_helper.c:2573-2605 | nor one before a plane or connector that it tracks |
| `CommitGuards.RefusedIffBusy` | drm/drm_atomic_helper.c:2382-2397 | -EBUSY for a CRTC exactly for nonblocking commits while the flip of the commit that made its current state is outstanding and that commit is on the list |
| `CommitGuards.TrackRefusedIff` | drm/drm_atomic_helper.c:2573-2605 | -EBUSY for a plane or connector exactly for nonblocking commits before the flip of the commit that made its old state |
| `CommitGuards.StallWaitsExactly` | drm/drm_atomic_helper.c:2398-2421 | the stall waits for one commit to clean up and for nothing else, and never for the one right before |
| `CommitGuards.SwapWaitsExactly` | drm/drm_atomic_helper.c:3269-3311 | once all is tracked the swap waits for nothing but, with stall set, the hardware of the commits before |
| `CommitGuards.WorkerWaitsExactly` | drm/drm_atomic_helper.c:2636-2670 | a worker waits for hardware and flip of the commit before it on each object, and for nothing else |
| `CommitGuards.FinishesAlone` | drm/drm_atomic_helper.c:2034-2085 | a worker whose dependencies are done can always take a step of its own until the commit is freed |
| `CommitGuards.FlipsComeFromTheHardware` | drm/drm_atomic_helper.c:2534-2571 | the flip of a CRTC that is or becomes active is complete only after programming has begun, that of one that stays off from setup on |
| `CommitGuards.LockedWhileStaged` | drm/drm_atomic.c:365-396 | objects of commits that are assembled or set up are locked; a lock belongs to such a commit or to one that is swapped in, never to an aborted one |
| `CommitLateRead.NewStateIsGoneIff` | drm/drm_atomic_helper.c:1895-1901 | in the cleanup phase, where the commit tail still looks at new CRTC states, the new state of an object is destroyed if and only if a later commit that replaced it is freed |
| `CommitLateRead.NewStateMayBeGone` | drm/drm_atomic_helper.c:1995-1997 | a run with two commits on one CRTC in which that has happened |
| `CommitLifetime.StepMovesHolders` | drm/drm_atomic_helper.c:2425-2464 | every step changes the reference count of each CRTC commit by exactly the change in the number of its holders: CRTC, plane and connector states, event, slot in the atomic commit, stall check |
| `CommitLifetime.KrefEqualsHolders` | drm/drm_atomic_state_helper.c:195-214 | after every run the reference count equals the number of holders |
| `CommitLifetime.ListedIsHeld` | drm/drm_atomic_helper.c:2396-2402 | a commit on a commit_list is held by somebody, although the list takes no reference and the next hw_done overwrites the new state |
| `CommitLifetime.NoUseAfterFree` | drm/drm_atomic_helper.c:2736-2792 | every commit that a step reaches through a state object, a list, a stall, an event or the fake_commit slot is held |
| `CommitLifetime.CountFallsToZero` | drm/drm_atomic_helper.c:2425-2432 | when a commit is freed, its flip sent, and no living state and no stall points at it, its reference count is zero |
| `CommitLifetime.FreedStaysFreed` | drm/drm_atomic_helper.c:2425-2432 | a reference count that has fallen to zero never rises again, however the run goes on |
| `AtomicState.AtomicCommit.constructor` | drm/drm_atomic.c:170-189 | an empty commit is consistent |
| `AtomicState.AtomicCommit.GetCrtcState` | drm/drm_atomic.c:365-396 | the state is there already, or a duplicate with cleared flags is added, or the error of the lock or the allocation is returned and nothing changes |
| `AtomicState.AtomicCommit.GetPlaneState` | drm/drm_atomic.c:547-592 | returns the first error of lock, allocation and CRTC, or adds the plane and its current CRTC; masks and closure hold after success |
| `AtomicState.AtomicCommit.GetConnectorState` | drm/drm_atomic.c:1280-1341 | the same for a connector, whose lock is taken first in any case |
| `AtomicState.AtomicCommit.SetCrtcForPlane` | drm/drm_atomic_uapi.c:190-228 | moves the plane and both CRTCs' masks; the commit is consistent if and only if the call succeeds |
| `AtomicState.AtomicCommit.SetCrtcForConnector` | drm/drm_atomic_uapi.c:304-347 | moves the connector and both CRTCs' masks; after a failure the connector is on no CRTC and the masks still fit |
| `AtomicState.AtomicCommit.AddAffectedConnectors` | drm/drm_atomic.c:1509-1549 | afterwards every connector effectively on the CRTC is in the commit; only connectors on it were added, as plain duplicates |
| `AtomicState.AtomicCommit.AddAffectedPlanes` | drm/drm_atomic.c:1573-1601 | afterwards every plane that is or will be on the CRTC is in the commit; only planes on it were added, and no CRTC |
| `AtomicState.AtomicCommit.SetModeProp` | drm/drm_atomic_uapi.c:123-172 | mode and enable change together, and an invalid blob leaves no mode behind |
| `AtomicState.AtomicCommit.Clear` | drm/drm_atomic.c:200-289 | after -EDEADLK the commit starts again from nothing |
| `AtomicState.FailedMoveStrandsPlane` | drm/drm_atomic_uapi.c:190-228 | with the lock of the new CRTC taken, a plane that was off ends up pointing at a CRTC outside the commit |
| `AtomicState.AddedCrtcIsExact` | drm/drm_atomic.c:365-396 | a CRTC that joins a commit brings masks that are exact for the planes and connectors as the commit leaves them |
| `AtomicState.MovedPlaneIsExact` | drm/drm_atomic_uapi.c:190-228 | moving a plane keeps the masks of all CRTCs in the commit exact and the commit closed |
| `AtomicState.MovedConnIsExact` | drm/drm_atomic_uapi.c:304-347 | the same for a connector |
| `AtomicState.SwapKeepsDevice` | drm/drm_atomic_helper.c:3313-3372 | swapping in a consistent commit keeps the masks of the whole device exact |
| `EncoderRouting.SetBestEncoder` | drm/drm_atomic_helper.c:221-259 | the encoder leaves the mask of the connector's current CRTC and joins that of its new CRTC |
| `EncoderRouting.StealEncoder` | drm/drm_atomic_helper.c:262-290 | takes the encoder from the one connector that still has it, marks that connector's CRTC, and keeps the routing invariant in mid-loop |
| `EncoderRouting.UpdateConnectorRouting` | drm/drm_atomic_helper.c:293-416 | succeeds exactly for routable connectors, and advances the routing invariant by one connector whatever moves, swaps and steals came before |
| `EncoderRouting.VictimReroutes` | drm/drm_atomic_helper.c:262-290 | a connector of the commit that loses its encoder to another one does not get it back, so that its CRTC is rightly marked |
| `EncoderRouting.ReseatKeepsMask` | drm/drm_atomic_helper.c:221-259 | the incremental update of an encoder mask equals the mask recomputed from scratch |
| `EncoderRouting.DeviceRoutedMeans` | drm/drm_atomic_helper.c:710-752 | the routing invariant of a device in plain terms: encoders are not shared, connectors have one if and only if they have a CRTC, masks hold exactly the encoders of the connectors on the CRTC |
| `EncoderRouting.LoopStarts` | drm/drm_atomic_helper.c:710-714 | duplicated states satisfy the invariant of the routing loop |
| `EncoderRouting.LoopEnds` | drm/drm_atomic_helper.c:710-752 | after the loop no encoder drives two connectors, connectors have an encoder if and only if they have a CRTC, and the encoder masks are exact, for all connectors inside and outside the commit |
| `ConflictingEncoders.CollectEncoders` | drm/drm_atomic_helper.c:117-150 | fails exactly if an encoder is wanted twice, else returns the wanted encoders |
| `ConflictingEncoders.ReleaseConnector` | drm/drm_atomic_helper.c:187-212 | one conflicting connector joins the commit without a CRTC, and its CRTC is switched off if it was the last |
| `ConflictingEncoders.HandleConflictingEncoders` | drm/drm_atomic_helper.c:107-218 | without the flag: zero if and only if there is no conflict, and nothing changes; with it: exactly conflicting connectors are disabled, CRTCs without connectors lose their mode, and no conflict is left |
| `ModesetCheck.CheckCrtcs` | drm/drm_atomic_helper.c:662-708 | succeeds exactly if every CRTC is enabled if and only if it has connectors; mode, active and connector flags are then those set before and those for a different mode, enable or active, no more and no less |
| `ModesetCheck.RouteConnectors` | drm/drm_atomic_helper.c:714-752 | succeeds exactly if every connector of the commit can be routed and its driver agrees; then the routing is re-established and a CRTC is marked if and only if it was marked before or a connector of the commit, new or old on it, moves, changes its encoder or has a changed link |
| `ModesetCheck.AddAffected` | drm/drm_atomic_helper.c:760-781 | a CRTC that needs a modeset has all its planes and connectors in the commit, nothing else joined, and the driver has accepted the clones of each |
| `ModesetCheck.CheckModeset` | drm/drm_atomic_helper.c:649-828 | a commit that passes was acceptable, and is consistent, routed, with flags that are exactly those the assembled commit asks for, with the encoders the drivers chose, with all objects of CRTCs with a modeset and no others added, unchanged in what it asks for, and agreed to by every callback; an acceptable one passes unless the driver, a lock or an allocation objects |
| `ModesetCheck.CheckOnly` | drm/drm_atomic.c:1661-1757 | a commit that passes has passed the core checks, is acceptable, complete and unchanged in what it asks for, and without allow_modeset did not ask for a modeset when it was assembled; one to which nobody objects passes, without allow_modeset if it asks for none |
| `ModesetCheck.NoModesetAskedIff` | drm/drm_atomic_helper.c:662-752 | an assembled commit asks for no modeset if and only if no flag is set, modes, enable and active are as they are, and no connector moves, gets another encoder or has a changed link |
| `ModesetCheck.ExactFlagsTell` | drm/drm_atomic_helper.c:665-700 | a checked CRTC needs a modeset if and only if the assembled commit asks for one: a flag was set, mode, enable or active differ, or a connector of the commit marks it |
| `ModesetCheck.FlagsAreExact` | drm/drm_atomic_helper.c:649-781 | the flags stay exact through all loops of the check, and CRTCs that join late have none |
| `ModesetCheck.CheckedSwapKeepsDevice` | drm/drm_atomic_helper.c:107-416 | the swap of a checked commit keeps the routing invariant of the device, so it holds after any number of commits |
| `ModesetCheck.NoModesetNoRerouting` | drm/drm_atomic_helper.c:304-317 | a commit without modesets leaves every connector on its CRTC and encoder |
| `ModesetHooks.Hardware.Call` | drm/drm_crtc_helper.c:224-229 | a hook may only be called in the opposite state; the log records it |
| `ModesetHooks.HooksNest` | drm/drm_crtc_helper.c:224-229 | in a legal log encoders are switched while their bridges are prepared, bridges while their encoder is off, and both while the CRTC is on |
| `ModesetHooks.HooksAlternate` | drm/drm_crtc_helper.c:224-229 | in a legal log the hooks of every CRTC, bridge chain and encoder strictly alternate, beginning with an enabling one |
| `ModesetHooks.DisableEncoders` | drm/drm_atomic_helper.c:1176-1242 | calls the disable hooks of exactly the encoders lit on CRTCs with a modeset, once each in connector order, while encoder and CRTC are on |
| `ModesetHooks.PostDisableBridges` | drm/drm_atomic_helper.c:1316-1366 | the same for post_disable, after the encoder is off |
| `ModesetHooks.DisableCrtcs` | drm/drm_atomic_helper.c:1254-1304 | disables exactly the active CRTCs with a modeset, once each in index order |
| `ModesetHooks.EnableCrtcs` | drm/drm_atomic_helper.c:1660-1688 | enables exactly the CRTCs with a modeset that are to be active, once each |
| `ModesetHooks.PreEnableBridges` | drm/drm_atomic_helper.c:1618-1648 | prepares exactly the bridge chains of connectors on such CRTCs, once each, none of which is prepared already |
| `ModesetHooks.EnableEncoders` | drm/drm_atomic_helper.c:1700-1742 | enables exactly those encoders, once each, none of which is on already |
| `ModesetHooks.CalledOnceIffDue` | drm/drm_atomic_helper.c:1223-1226 | in the whole of a commit a hook is called if and only if it is due, and never twice |
| `ModesetHooks.NoModesetNoHook` | drm/drm_atomic_helper.c:1204-1206 | a CRTC without a modeset gets no hook, nor do the encoders and bridges lit on it |
| `ModesetHooks.CommitModesets` | drm/drm_atomic_helper.c:1370-1377 | from hardware that does what the old states say to hardware that does what the new states say, by exactly the calls that are due, all legal; a CRTC that stays active with another mode is stopped and started with all it drives |
| `ModesetHooks.CallsFit` | drm/drm_atomic_helper.c:1196-1304 | a hook is called, once, if and only if its CRTC was asked a modeset by the assembled commit (a flag, another mode, enable or active, a marking connector), it was active (disabling hooks) or is to be (enabling ones), and the encoder drives a connector on it then |
| `ModesetHooks.NoModesetSamePicture` | drm/drm_atomic.c:1721-1729 | without a modeset modes, activity, enable and all CRTCs and encoders of connectors stay |
| `ModesetHooks.Update` | drm/drm_atomic_helper.c:649-828 | assembled commit, check, hooks: the device invariant and the agreement of hardware and states hold again, the hooks are those the assembled commit calls for, without allow_modeset nothing but planes has changed, after a failure nothing has happened, and what nobody objects to succeeds |
| `AtomicIoctl.SetProperty` | drm/drm_atomic_uapi.c:1174-1272 | with locks and memory granted, the request is carried out if and only if its objects exist and its mode blob converts or is the current one; else an error is returned |
| `AtomicIoctl.RequestsDoAsAsked` | drm/drm_atomic_uapi.c:1174-1272 | each request changes the configuration that the commit stands for at its place and nowhere else, so a list of them changes it exactly as asked |
| `AtomicIoctl.Assemble` | drm/drm_atomic_uapi.c:1635-1710 | all properties are set in order if and only if each of them can be, granted locks and memory |
| `AtomicIoctl.Ioctl` | drm/drm_atomic_uapi.c:1621-1741 | a successful call changes the configuration of the device, as its last attempt finds it, exactly as asked, one that fails or only tests changes nothing, and a result of 0, also of a test, means that the requests are valid, the assembled commit passes the core checks and can be routed, and a modeset is allowed or not asked for; with willing drivers and granted locks it succeeds if and only if that is so; retries after -EDEADLK start from nothing, on a device that others may have changed |
| `AtomicIoctl.Ioctls` | drm/drm_crtc_helper.c:224-229 | over any sequence of calls, also of calls between the attempts of others, the hooks of every CRTC, bridge chain and encoder alternate, and what is on is what the current states call for |
| `AtomicRequests.AssembledIsPlain` | drm/drm_atomic.c:365-396 | what requests assemble is consistent, has no flag set, is enabled where it has a mode, and only moves connectors |
| `AtomicRequests.NoModesetIff` | drm/drm_atomic.c:1721-1729 | requests ask for a modeset unless modes, activity and places of connectors stay and no driver wants another encoder for a connector they mention |
| `AtomicRequests.FlipsDeserve` | drm/drm_atomic_uapi.c:1712-1723 | a call that only moves planes passes without ALLOW_MODESET, if core and driver accept the planes and events are asked of active CRTCs only |
| `BridgeChain.FirstOfRun` | drm/drm_bridge.c:968-985 | finds the beginning of a run of bridges to be enabled front to back |
| `BridgeChain.LastOfRun` | drm/drm_bridge.c:868-895 | finds the end of such a run |
| `BridgeChain.PreEnable` | drm/drm_bridge.c:955-1010 | terminates, visits every bridge from the given one to the end once, in the documented order |
| `BridgeChain.PostDisable` | drm/drm_bridge.c:859-920 | terminates, visits every bridge once, in the opposite order |
| `BridgeChain.PostDisableUndoesPreEnable` | drm/drm_bridge.c:859-920 | for every chain and every setting of pre_enable_prev_first the two sequences are reverses of each other |
| `BridgeChain.NeighboursFollowTheFlag` | drm/drm_bridge.c:932-1010 | of two neighbours the earlier one goes first if and only if the later one sets pre_enable_prev_first |
| `BridgeChain.OrderFollowsTheFlags` | drm/drm_bridge.c:932-1010 | of any two bridges the one nearer the encoder goes first if and only if all bridges behind it up to the other one set the flag |
| `BridgeChain.DocumentedExample` | drm/drm_bridge.c:836-857 | the example in the documentation |
| `BusFormats.SelectBusFmtRecursive` | drm/drm_bridge.c:1066-1150 | returns what the first leaf of the search tree returns, stores its formats on success, and writes nothing otherwise |
| `BusFormats.TryInputs` | drm/drm_bridge.c:1128-1150 | the loop over the input formats of a bridge does the same for its part of the tree |
| `BusFormats.TryCandidates` | drm/drm_bridge.c:1236-1246 | the loop over the candidate output formats does the same for the whole tree |
| `BusFormats.SelectBusFmts` | drm/drm_bridge.c:1187-1246 | the whole negotiation with its error cases; a failed attempt writes no bridge state |
| `BusFormats.SuccessIsSoundAndPreferred` | drm/drm_bridge.c:1066-1150 | success yields formats that every bridge can transcode, and every other solution and every error comes later in the order of preference |
| `BusFormats.FailureIsComplete` | drm/drm_bridge.c:1066-1150 | -ENOTSUPP is returned if and only if no chain of formats fits and no bridge that is reached fails |
| `BusFormats.FirstErrorWins` | drm/drm_bridge.c:1128-1150 | any other error is that of a bridge the search reaches before every solution and every other error |
| `BusFormats.LeavesAreFits` | drm/drm_bridge.c:1066-1150 | the solved leaves of the search are exactly the fitting chains of formats |
| `BusFormats.LeavesAreFailures` | drm/drm_bridge.c:1066-1150 | the failed leaves are exactly the error answers that can be reached |
| `PickCrtcs.MayUse` | drm/drm_client_modeset.c:588-600 | the check for a CRTC that is taken already |
| `PickCrtcs.PickCrtcs` | drm/drm_client_modeset.c:544-616 | leaves the prefix unchanged, fills the rest with a feasible assignment and returns what it is worth; if its allocations succeed it is the one to keep among all feasible extensions of the prefix |
| `PickCrtcs.KeptIsBest` | drm/drm_client_modeset.c:572-610 | that one is worth at least as much as any other, and among equals makes the earliest choices, off before the modesets in order |
| `PickCrtcs.ScoreIsMerit` | drm/drm_client_modeset.c:572-578 | the worth is the number of connectors with a CRTC, plus those of them that are connected, plus those with a mode from the command line, plus those with a preferred mode |
| `PickCrtcs.TryModeset` | drm/drm_client_modeset.c:583-614 | one round of the loop keeps the assignment that is ahead of all others with the modesets tried so far |
| `PickCrtcs.NoSharing` | drm/drm_client_modeset.c:590-600 | with more than one CRTC no two connectors share one |
| `PickCrtcs.FirstUserSuffices` | drm/drm_client_modeset.c:590-600 | if mode equality is an equivalence, comparing with the first user of a CRTC is as good as comparing with all |
| `PickCrtcs.FillModesets` | drm/drm_client_modeset.c:889-925 | every modeset gets the connectors of its CRTC in order, unless some connector finds no room or no memory; the first such connector decides the error |
| `TilePasses.TargetPreferred` | drm/drm_client_modeset.c:416-529 | the retry loop terminates, and every enabled connector gets a mode exactly once, ordered by the pass of its tile and by index |
| `TilePasses.Pass` | drm/drm_client_modeset.c:436-523 | one pass deals with exactly the connectors whose pass it is |
| `TilePasses.FirstPassPicksNothing` | drm/drm_client_modeset.c:449-451 | contrary to its comment the first pass picks no mode, not even for connectors without tiles |
| `TilePasses.NeighboursComeFirstIff` | drm/drm_client_modeset.c:458-470 | the exact condition, on locations and indices, under which a tile left of or above another one has its mode when the offsets of the other are computed |
| `TilePasses.LeftNeighbourComesLater` | drm/drm_client_modeset.c:458-470 | with two columns and three rows the condition fails |
| `TilePasses.LeftNeighbourHasHigherIndex` | drm/drm_client_modeset.c:436-470 | with two columns and two rows it fails for a tile whose left neighbour has the higher index |
| `TilePasses.OffsetsCompleteIff` | drm/drm_client_modeset.c:392-412 | on a complete screen of tiles all modes that are added up for offsets are there in time if and only if there is a single row or a single column |
| `Zpos.ComparatorIsRightIffClose` | drm/drm_blend.c:452-461 | the comparator orders two planes by zpos and id, asked either way, if and only if the numbers it subtracts are less than 2^31 apart |
| `Zpos.ComparatorWraps` | drm/drm_blend.c:452-461 | zpos 0 against zpos 2^31 + 1 comes out the wrong way |
| `Zpos.PositionIsRank` | drm/drm_blend.c:496-503 | the position of a plane in the sorted array is the number of planes below it |
| `Zpos.NormalizeCrtc` | drm/drm_blend.c:463-511 | pulls in all planes of the CRTC and numbers them by rank, if the comparator does not wrap for two of them |
| `Zpos.NormalizeZpos` | drm/drm_blend.c:531-560 | exactly the CRTCs whose planes came, went or changed zpos are flagged and have their planes pulled in; afterwards the planes of every CRTC carry their ranks |
| `Zpos.SwapKeepsRanks` | drm/drm_blend.c:517-530 | so the invariant holds again after the swap |
| `Zpos.RanksAreDistinct` | drm/drm_blend.c:517-530 | the numbers are distinct, below the number of planes, and ordered like zpos and id |
| `Rotation.Simplify` | drm/drm_blend.c:346-357 | simplifying a rotation never changes the transformation of the image, nor a rotation that is supported |
| `Rotation.SimplifyFindsSupported` | drm/drm_blend.c:329-345 | the result is supported if and only if the transformation has a supported encoding |
| `ConnectorList.Connectors.InitOnly` | drm/drm_connector.c:223-331 | a new connector has one reference and is not listed |
| `ConnectorList.Connectors.AddToList` | drm/drm_connector.c:333-345 | the connector goes to the end of the list |
| `ConnectorList.Connectors.PutConnector` | drm/drm_connector.c:194-202 | the last put begins the destruction while the connector stays listed |
| `ConnectorList.Connectors.PutSafe` | drm/drm_connector.c:1064-1075 | the last put from a walk leaves the destruction to the worker |
| `ConnectorList.Connectors.TakeFree` | drm/drm_connector.c:204-221 | the worker takes over the whole free list |
| `ConnectorList.Connectors.DestroyConnector` | drm/drm_connector.c:347-362 | a connector is unlinked and freed only without references, and no walk is at it |
| `ConnectorList.Connectors.IterBegin` | drm/drm_connector.c:1049-1055 | a walk begins without a reference |
| `ConnectorList.Connectors.FindNext` | drm/drm_connector.c:1094-1105 | finds the first connector with references behind the current one |
| `ConnectorList.Connectors.IterNext` | drm/drm_connector.c:1085-1112 | moves the walk to that connector, takes a reference on it and drops the one on the last, and changes nothing else |
| `ConnectorList.Connectors.IterEnd` | drm/drm_connector.c:1124-1136 | the reference of the walk is dropped, also in the middle |
| `ConnectorList.StepKeepsSound` | drm/drm_connector.c:1064-1136 | every operation keeps the list in order, every count equal to the references held, and every connector without references in exactly one place |
| `ConnectorList.ReturnedIsHeld` | drm/drm_connector.c:1097-1105 | what a walk returns is listed and referenced, and the walk adds exactly one reference |
| `ConnectorList.NextMissesNone` | drm/drm_connector.c:1097-1105 | skipping connectors without references misses none that has to be returned |
| `ConnectorList.WalkReturnsAll` | drm/drm_connector.c:1085-1112 | in any interleaving of walks, adds, puts and deferred frees the world stays sound, and a walk from beginning to end returns no connector twice, in list order, and every connector that was listed and referenced throughout |
| `MasterOwnership.OneCurrentMaster` | drm/drm_auth.c:64-70 | at most one open file is the current master |
| `MasterOwnership.Device.NewSetMaster` | drm/drm_auth.c:162-187 | the file gets a master of its own, which becomes current; the old one loses a reference |
| `MasterOwnership.Device.Open` | drm/drm_auth.c:317-335 | the first file becomes master, later ones join the current master |
| `MasterOwnership.Device.SetMaster` | drm/drm_auth.c:245-278 | each result code under exactly its condition; the master is only set when there was none |
| `MasterOwnership.Device.DropMaster` | drm/drm_auth.c:288-315 | succeeds exactly for the permitted current master, after which there is none |
| `MasterOwnership.Device.Release` | drm/drm_auth.c:337-363 | closing the current master's file leaves no current master, closing another changes nothing |
| `MasterOwnership.CloseIsSound` | drm/drm_auth.c:337-363 | a closed file drops exactly its reference, and masters others point at survive |
| `DisplayId.ValidateDisplayId` | drm/drm_displayid.c:54-80 | accepts a section exactly if it fits and its bytes add up to 0 modulo 256, or checksums are ignored |
| `DisplayId.Iter.FindExtension` | drm/drm_edid.c:4202-4225 | finds the next extension block with the tag |
| `DisplayId.Iter.FindNextDisplayIdExtension` | drm/drm_displayid.c:82-103 | enters the next section exactly if it is valid |
| `DisplayId.Iter.IterBlock` | drm/drm_displayid.c:115-129 | returns the block at the index exactly if all of it lies below the length |
| `DisplayId.Iter.Next` | drm/drm_displayid.c:132-184 | returns the next block of the recursive parse; the current block is always valid, and version and primary use are those of the first section |
| `DisplayId.OneWrongByte` | drm/drm_displayid.c:54-80 | a single wrong byte between the tag and the end of a valid section, other than its length, is always detected; bytes outside do not matter |
| `DisplayId.AllBlocks` | drm/drm_displayid_internal.h:178-179 | a complete walk returns exactly the recursive parse of all sections |
| `DisplayId.ParsedBlocks` | drm/drm_displayid_internal.h:93-104 | the blocks of a section are adjacent, inside the payload, as long as they say, and the rest is too short |
| `DisplayId.FindsAllIff` | drm/drm_displayid.c:82-103 | the walk returns the blocks of all valid sections if and only if no broken section comes before a valid one with a block |
| `DisplayId.BrokenHidesValid` | drm/drm_displayid.c:160-166 | two extension blocks, a broken one and a valid one with a block, of which it returns nothing |
| `DisplayId.BlocksAreInside` | drm/drm_displayid.c:115-129 | all blocks returned lie inside the payload of valid sections, in order and without overlap |

## Left out

- Timeouts: the 10-second waits that log and continue; with them neither order nor depth is promised.
- Signals: an interrupted wait in setup or swap is an abort of the commit.
- Commits that are aborted after setup has begun are left out of `CommitLifetime` alone, because the event's reference is then dropped by code outside the repository; every other theorem about runs covers them.
- The swap of all objects of one commit is one step, and so is each round of the loops in the commit tail; the waits of swap_state come before it in one step because a completion once done stays done.
- Legacy cursor updates, asynchronous updates and self-refresh: they relax order and alternation on purpose.
- Private objects and colour operations: no CRTC commit tracks them.
- Fences, vblank timing, plane updates, writeback jobs, begin_fb_access and end_fb_access: calls into the driver.
- CommitProgress.NoUseAfterDestroy: leaves out the reads of new CRTC states after hw_done by drm_atomic_helper_wait_for_vblanks, for which it is false; CommitLateRead has the exact condition.
- Which variant of a hook is called (atomic or legacy), and mode_set hooks: the model has one disable and one enable hook per CRTC, bridge chain and encoder.
- Calling the modeset check a second time for the same update, which drivers do after changing mode_changed themselves.
- Which mode drm_client_target_preferred picks, the offsets it computes, and drm_client_firmware_config: the modes are an input of PickCrtcs, and TilePasses has only their order. More than 63 connectors overflow the bit mask of the original and are not modelled.
- The property switchboards of drm/drm_atomic_uapi.c but for the mode and active properties of CRTCs and the CRTCs of planes and connectors, blob reference counts, and fence file descriptors; in the commit protocol the retry after -EDEADLK is an abort followed by a new commit.
- Leases, magic numbers and authentication in drm/drm_auth.c: drm_lease.c is not part of this model.
- The identity of a connector is not used again after it is destroyed, while memory is.
- Plane clipping and scaling, gamma tables, damage merging, property creation: single formulas or loops.
- Zpos.Sort: an insertion sort stands for the library's sort(), whose algorithm is outside the repository; only its order matters.
- ModesetCheck.CheckOnly: the driver's atomic_check is the modeset check followed by one that only accepts or rejects; the normalization of zpos in between is in Zpos alone.
- AtomicState.AtomicCommit.GetCrtcState: does not state consistency of the commit by itself, because get_plane_state and get_connector_state call it in between; AtomicState.AddedCrtcIsExact does.
