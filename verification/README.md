# Display composer: verified models

The hardware composer service sits between a window system and a display driver. This project models the
parts of it that keep shared or long-lived state, and proves what they guarantee and where they fall short:

| part | files | source |
|---|---|---|
| concurrent writeback, the per-display queue | `CwbProtocol`, `CwbInvariant`, `CwbTheorems`, `CwbLimits`, `CwbOutcomes`, `CwbSession` | `composer/hwc_session_services.cpp`, `composer/hwc_session.h` |
| concurrent writeback, the maps of a display | `CwbCapture`, `CwbPolls`, `CwbMaps` | `composer/hwc_display.cpp`, `composer/hwc_display_builtin.cpp` |
| refresh-rate change and its timeline | `VsyncTimeline`, `RefreshRateChange` | `composer/hwc_display.cpp` |
| GPU tone-map sessions | `ToneMapPool`, `ToneMapReuse`, `ToneMapSafety`, `ToneMapBlits`, `ToneMapFrame`, `ToneMapClash`, `ToneMapper` | `composer/hwc_tonemapper.cpp` |
| the client's buffer cache | `BufferCache`, `BufferSlots`, `ComposerClient` | `composer/AidlComposerClient.cpp` |
| layers by z, validate and accept | `LayerStack`, `LayerOrder`, `LayerNegotiation`, `LayerDisplay` | `composer/hwc_display.cpp`, `composer/hwc_layers.cpp` |
| configurations and groups | `DisplayConfigs` | `composer/hwc_display.cpp` |
| trusted-UI transitions | `SecureEvents` | `composer/hwc_display.cpp` |
| callback queue and thread | `CallbackQueue` | `composer/hwc_callbacks.h`, `composer/hwc_callbacks.cpp` |

`KeyOrder` (keys of an ordered map, smallest first) and `Counting` are shared helpers.

Each part has the same shape. The behaviour is a state and a step function on values; the theorems are about
every run of those steps. Where the source updates objects in place there is a class with the same fields, and
each of its methods is proved to take the object from `View()` to exactly what the step function says. Threads
are modelled as steps: one atomic step per section that runs under a lock, and per section outside any lock.
The driver, the allocator, gralloc, GL, the clock and the client are parameters: what they answer may be
anything.

`dafny verify dfyconfig.toml` checks the whole project.

## Where the code does not do what one would expect

Each of these is a theorem below, with the exact condition where there is one.

- A writeback post refused by the driver takes its node out again exactly when that node is the last of the queue
  at that moment. Otherwise it stays queued in every run, and no node pushed behind it, earlier or later, ever
  reaches a client (`CwbLimits.RollbackRemovesExactlyBack`, `CwbLimits.OrphanStays`,
  `CwbLimits.BehindOrphanNeverDelivered`).
- The rollback of a post refused as a duplicate calls `back()` on an empty deque exactly when the queue has
  been drained since (`CwbLimits.EmptyDequeExactly`).
- A refresh-rate change submitted at the very nanosecond of its planned refresh is planned one period earlier
  than promised, so the client is told of a change (`VsyncTimeline.PunctualSubmitMovesBack`).
- A writeback buffer used by two clients at once belongs to the first as long as it is outstanding; the second is
  accepted and never answered (`CwbCapture.AcceptAnsweredIff`, `CwbCapture.SecondClientNeverAnswered`).
- A poll hands out a fence of another buffer than the one it accounts for exactly when the client's completion is
  not known and either the buffer it waits for is no longer the frame's output, or it waits for none and the
  output is not its own (`CwbPolls.PolledFence`). In the first case, for which one client with two buffers is
  enough, the client's own readback is closed and its completion lost (`CwbPolls.MisledLosesCompletion`,
  `CwbPolls.PollTakesForeignFence`, `CwbPolls.PollTakesNewerFence`). In the second nothing is lost and the status
  is "not available", but `GetReadbackBufferFence` looks at the fence only and reports success
  (`CwbPolls.MisledIdle`, `CwbPolls.PollHandsOutForeignFence`).
- The handlers of the frame dump and of the colour capture wait on one condition variable and do not look again
  why they woke. A notification brings the one that waits a verdict exactly when it is for its own client's
  buffer; otherwise it reports a failure (`CwbPolls.WokenWithVerdictIff`, `CwbPolls.DumpDoneFailsCapture`). The
  reference they keep into the map while they wait stays good exactly as long as nobody sets that buffer again for
  the client, gets a fence for it or takes the dump (`CwbPolls.ReferenceGoodIff`, `CwbPolls.DumpSetWhileWaiting`).
- The cached-framebuffer shortcut of the tone mapper may hand out a session another layer of the same frame
  already has: with an index that names a session, exactly when the layers before the framebuffer, none of them
  on the GPU and all of them served, want more sessions of its configuration than are free ahead of it
  (`ToneMapClash.LayersGetDifferentSessions`, which also covers an index of -1 and a stale one).
- A frame on an empty pool leaves index 0 behind, naming no session, exactly when its first tone-mapped layer is a
  framebuffer for which no session can be made (`ToneMapFrame.FbIndexNamesSession`).
- An imported buffer leaks exactly when the slot it was sent for does not exist when the cache is updated
  (`BufferSlots.LeakedIffMissed`, `BufferSlots.UpdateAfterRemovalLeaks`).
- Accepting the changes of a validation brings back a null entry for every changed layer destroyed since;
  destroying or moving that id again compares the null pointer if any layer is on the display. Only a validation
  that runs to its end makes a new list of changes: one of an empty or a paused display, or without resources,
  reports success and keeps the old list, and so does one the driver refuses. So a layer destroyed with its change
  outstanding is brought back exactly when an acceptance takes effect before a validation runs to its end
  (`LayerOrder.DestroyedTwiceFaultsIff`), also for a client that has validated in between
  (`LayerOrder.EmptyValidationIsNotEnough`, `LayerOrder.BypassedValidationIsNotEnough`). A client never gets there
  if it accepts only after such a validation (`LayerOrder.DisciplinedNeverFaults`), or, exactly, if it accepts only
  while every layer in the list of changes, which it can ask for, is still there (`LayerOrder.NullFreeIff`).
- The CONFIG_GROUP attribute is looked up with the window margins taken off. With margins it never agrees with the
  group in the configuration list; with a margin as large as the panel there is no attribute at all
  (`DisplayConfigs.AttributeGroupIff`, `DisplayConfigs.MarginHidesGroup`).
- `CallbackQueue::notify` does not take the queue's lock. If a de-registration notifies between the consumer's
  look at its condition and its falling asleep, and no earlier pusher has yet to call `notify_one`, then `join`
  waits for ever unless something is pushed or the consumer wakes spuriously; in every other case it can return
  without (`CallbackQueue.StopReturnsIff`).

## Model

| member | source | states |
|---|---|---|
| CwbProtocol.FindPending | composer/hwc_session_services.cpp:664-680 | OnCWBDone stops at the first un-notified node of the handle and at no earlier one |
| CwbInvariant.StepKeeps | composer/hwc_session_services.cpp:561-733 | every locked or unlocked section of posters, completions and worker, in any interleaving, keeps the invariant: buffers accounted for, one worker, conserved order, callbacks equal to what is owed |
| CwbInvariant.RunKeeps | composer/hwc_session_services.cpp:561-733 | the same over whole runs |
| CwbTheorems.PopsExaminedNode | composer/hwc_session_services.cpp:702-717 | after cv.wait gave up the lock, the node popped is the node examined before, the deque is not empty, and an un-notified node is not popped |
| CwbTheorems.FrontStaysWhileAsleep | composer/hwc_session_services.cpp:702-717 | whatever the other threads do while the worker sleeps, its node stays at the front |
| CwbTheorems.ClosedAtMostOnce | composer/hwc_session_services.cpp:622-733 | no buffer is closed twice; a failed post's buffer is closed by its poster and never delivered, a delivered one by the worker |
| CwbTheorems.DeliveryFollowsPushOrder | composer/hwc_session_services.cpp:582-733 | delivered nodes, the one in the worker's hand and the queue are the pushes in push order without the rolled-back ones, across worker restarts |
| CwbTheorems.CallbacksAreVerdicts | composer/hwc_session_services.cpp:721-733 | a callback is only for a completed, notified, successful post that left a callback, with that node's verdict |
| CwbTheorems.OneWorkerNoLostWakeup | composer/hwc_session_services.cpp:635-719 | at most one live worker; the flag is set exactly while one lives; a completed queued node has one; an unsignalled sleeper's front node is un-notified |
| CwbTheorems.WorkerDrains | composer/hwc_session_services.cpp:689-719 | with all nodes completed and notified the live worker, wherever it is in its loop, empties the queue in as many turns as it has nodes, in order, then ends |
| CwbLimits.RollbackRemovesExactlyBack | composer/hwc_session_services.cpp:622-634 | a refused post's node is removed if and only if it is at the back of the queue then |
| CwbLimits.OrphanStays | composer/hwc_session_services.cpp:622-634 | a left-behind node, wherever it is in the queue, stays queued in every run |
| CwbLimits.BehindOrphanNeverDelivered | composer/hwc_session_services.cpp:702-733 | in every run, no node pushed behind a left-behind one is delivered or even taken up by the worker |
| CwbLimits.OrphanBlocksForever | composer/hwc_session_services.cpp:702-717 | a left-behind node at the front stays there in every run, and nothing more is delivered |
| CwbLimits.OverlapLeavesOrphan | composer/hwc_session_services.cpp:576-634 | two overlapping posts reach such a state |
| CwbLimits.EmptyDequeExactly | composer/hwc_session_services.cpp:622-634 | a reachable step meets an empty deque if and only if it is the rollback of a duplicate after the queue drained |
| CwbLimits.DrainedDuplicateFaults | composer/hwc_session_services.cpp:582-634 | a run that reaches it |
| CwbLimits.DoneMarksTheOneNode | composer/hwc_session_services.cpp:654-683 | a completion succeeds if and only if an un-notified node of that handle is queued, and gives that node alone the verdict |
| CwbLimits.VerdictIsFinal | composer/hwc_session_services.cpp:635-683 | no later step takes a verdict or a completion back |
| CwbOutcomes.PushExactly | composer/hwc_session_services.cpp:582-601 | in every reachable state: a post is a duplicate if and only if a queued node has its very handle; otherwise the queue gains its node and nothing else |
| CwbOutcomes.DriverDecides | composer/hwc_session_services.cpp:608-652 | in every run: a post succeeds if and only if the driver took its buffer, and fails on the driver's account if and only if the driver refused |
| CwbOutcomes.EveryClientTold | composer/hwc_session_services.cpp:721-733 | every delivered node whose post left a callback has been reported, with its verdict |
| CwbSession.DisplayCwbSession.NewNode | composer/hwc_session_services.cpp:571-580 | a post's node starts un-notified and not completed and is the next one in the history; without a handle id there is no node and the post is refused |
| CwbSession.DisplayCwbSession.TryPush | composer/hwc_session_services.cpp:582-601 | a duplicate if and only if a queued node has that very handle; otherwise the queue gains the node and nothing else |
| CwbSession.DisplayCwbSession.Rollback | composer/hwc_session_services.cpp:627-632 | removes the back node if and only if it is this post's; nothing for a post without a node; a fault on an empty deque |
| CwbSession.DisplayCwbSession.Finish | composer/hwc_session_services.cpp:635-649 | completes the node; starts a worker if and only if none runs and the queue is not empty |
| CwbSession.DisplayCwbSession.OnCwbDone | composer/hwc_session_services.cpp:654-683 | marks the first un-notified node of the handle and returns 0, or changes nothing and returns -1 |
| CwbSession.DisplayCwbSession.Look | composer/hwc_session_services.cpp:693-718 | the worker's locked section up to its wait: exit on an empty queue, recheck, sleep or pop |
| CwbSession.DisplayCwbSession.WakeAfterWait | composer/hwc_session_services.cpp:708-717 | pops the front after the wait if and only if the examined node has a verdict |
| CwbSession.DisplayCwbSession.NotifyCwbStatus | composer/hwc_session_services.cpp:726-735 | tells the client if there is a callback, then closes the buffer |
| CwbCapture.FindEntry | composer/hwc_display.cpp:3610-3624 | the first answer in client order that HandleFrameOutput is looking for |
| CwbCapture.FirstBuffer | composer/hwc_display.cpp:3524-3529 | the first buffer of the client in handle order, 0 if there is none |
| CwbCapture.RequestOutcome | composer/hwc_display.cpp:3355-3467 | from the request alone: accepted or which error; a refused request changes nothing, an accepted one makes its buffer and no other outstanding |
| CwbCapture.StepKeeps | composer/hwc_display.cpp:3461-3775 | for non-zero unshared handles, an answer with a buffer stays under its own client and is "not checked" exactly while its buffer is outstanding |
| CwbCapture.RunKeeps | composer/hwc_display.cpp:3461-3775 | the same over whole runs |
| CwbCapture.ReachableAgrees | composer/hwc_display.cpp:3461-3775 | every reachable state of the two maps agrees so |
| CwbCapture.FrameClientIsOwner | composer/hwc_display.cpp:3598-3634 | the frame handler that runs is the one of the output buffer's owner |
| CwbCapture.FrameClientFirst | composer/hwc_display.cpp:3609-3624 | without an owner, the handler that runs is that of the first client in order with an answer about the output buffer or, with none, with any buffer |
| CwbCapture.ReadbacksConserved | composer/hwc_display.cpp:3461-3765 | for every run and handle, shared or not: readbacks opened are completed once, collected early once, or outstanding |
| CwbCapture.RepeatedNotifyIsNoop | composer/hwc_display.cpp:3743-3750 | a repeated NotifyCwbDone changes nothing until the buffer is set again |
| CwbCapture.AnswerKept | composer/hwc_display.cpp:3461-3775 | a client's answer stays until the client itself sets that buffer again, has a frame or a completion of its own, or takes it |
| CwbCapture.CompletionReachesPoll | composer/hwc_display.cpp:3480-3572 | a notified client that polls later gets that completion's fence and verdict, once; a completion the external client's handler took is not kept |
| CwbCapture.AcceptAnsweredIff | composer/hwc_display.cpp:3461-3467 | whatever happens in between, the completion of an accepted readback is recorded for its client if and only if nobody else had the buffer outstanding and the external handler did not take it |
| CwbCapture.OwnerStays | composer/hwc_display.cpp:3461-3467 | an outstanding buffer belongs to the client that opened it, whoever sets it again |
| CwbCapture.SecondClientNeverAnswered | composer/hwc_display.cpp:3461-3467 | the second client of a shared buffer gets no answer about it in any run until it sets the buffer again |
| CwbCapture.SharedBufferLosesCompletion | composer/hwc_display.cpp:3461-3467 | a run in which the second client of a buffer is accepted and the completion goes to the first |
| CwbPolls.AnswersStayTrue | composer/hwc_display.cpp:3461-3775 | in every run a known completion has a fence of its own buffer |
| CwbPolls.PolledFence | composer/hwc_display.cpp:3480-3547 | for every run: the fence a poll hands out is that of the buffer it accounts for, unless and only unless no completion is known and the client waits for a buffer that is not the output, or waits for none and does not own the output; "not available" with a fence means the latter, a known completion comes with its own verdict, anything else as "not checked"; readback and answer are gone after it |
| CwbPolls.PendingIff | composer/hwc_display.cpp:3511-3560 | a poll without a fence says "pending" if and only if the client has an answer with a buffer or owns the output or, with no output, has a buffer outstanding, else "not available"; no readback changes |
| CwbPolls.MisledLosesCompletion | composer/hwc_display.cpp:3499-3547 | a waiting client given another buffer's fence: its buffer is closed and, until it is set again, its completion recorded for nobody; the other buffer stays with its owner |
| CwbPolls.MisledIdle | composer/hwc_display.cpp:3511-3590 | a client that waits for nothing given another's fence: "not available", no readback touched |
| CwbPolls.PollHandsOutForeignFence | composer/hwc_display.cpp:3480-3590 | a poll that is handed the fence of another client's output buffer |
| CwbPolls.PollTakesForeignFence | composer/hwc_display.cpp:3499-3547 | a waiting client that is given an external client's fence and loses its completion |
| CwbPolls.PollTakesNewerFence | composer/hwc_display.cpp:3499-3547 | one client with two buffers, the fence of the second handed out for the first |
| CwbPolls.ReferenceGoodIff | composer/hwc_display.cpp:3642-3658 | the reference a handler keeps while it waits stays good in a run if and only if no event sets that buffer again for the client, gets a fence for it or takes the dump |
| CwbPolls.DumpSetWhileWaiting | composer/hwc_display.cpp:3461-3467 | a state in which a frame dump waits and setting its buffer again takes the answer from under it |
| CwbPolls.WokenWithVerdictIff | composer/hwc_display.cpp:3766-3767 | the notification that ends a handler's wait brings a verdict if and only if it is for a buffer of that client |
| CwbPolls.DumpDoneFailsCapture | composer/hwc_display_builtin.cpp:757-771 | a colour capture woken, with nothing known, by the completion of an earlier frame dump |
| CwbMaps.HWCDisplay.SetReadbackBuffer | composer/hwc_display.cpp:3355-3478 | accepted if and only if the display is on, no trusted-UI transition is under way, buffer, descriptor and format are good and the driver took it; which error otherwise, with both maps untouched; emplace without overwriting, then drop the old answer for the same buffer |
| CwbMaps.HWCDisplay.GetReadbackBufferFenceForClient | composer/hwc_display.cpp:3480-3572 | new maps, fence and status in every case |
| CwbMaps.HWCDisplay.FindBuffer | composer/hwc_display.cpp:3524-3529 | the scan of the buffer map in handle order |
| CwbMaps.HWCDisplay.HandleFrameOutput | composer/hwc_display.cpp:3592-3626 | the answer marked "not checked", and which client's handler runs |
| CwbMaps.HWCDisplay.NotifyCwbDone | composer/hwc_display.cpp:3739-3775 | the whole new maps, or no change for an unknown buffer |
| CwbMaps.HWCDisplay.BeginFrameCapture | composer/hwc_display_builtin.cpp:757-766 | waits if and only if the colour client's completion is not known; from here on a reference to its answer is kept |
| CwbMaps.HWCDisplay.EndFrameCapture | composer/hwc_display_builtin.cpp:766-770 | the result of the capture for every status, through a reference that is good if and only if the answer has been in the map all along |
| CwbMaps.HWCDisplay.BeginFrameDump | composer/hwc_display.cpp:3642-3649 | waits if and only if the frame dump's completion is not known; from here on a reference to its answer is kept |
| CwbMaps.HWCDisplay.EndFrameDump | composer/hwc_display.cpp:3656-3658 | takes the answer out of the map; its status is read through a reference that is good if and only if the answer has been there all along |
| VsyncTimeline.TruncRem | composer/hwc_display.cpp:3006-3011 | C++ remainder: sign of the dividend, magnitude below the divisor, congruent |
| VsyncTimeline.TakesKPeriodsIffFits | composer/hwc_display.cpp:3001-3018 | the change takes k whole periods if and only if k periods fit in 32 bits |
| VsyncTimeline.EstimatePlacement | composer/hwc_display.cpp:3001-3018 | for all times: applied minus refresh is k periods, applied is on the desired grid, not before the desired time nor the earliest possible one; exactly the desired time when that is far enough, ready at once otherwise |
| VsyncTimeline.EstimateIsFirstEdge | composer/hwc_display.cpp:3001-3018 | among all edges that satisfy those bounds the estimate is the first |
| VsyncTimeline.EstimateStaysInInt64 | composer/hwc_display.cpp:3001-3018 | no 64-bit overflow for times in the inner half of the range |
| VsyncTimeline.LateSubmitMoves | composer/hwc_display.cpp:3020-3040 | submitted late, the applied time moves by exactly the whole periods missed, plus the change of period |
| VsyncTimeline.PunctualSubmitMovesBack | composer/hwc_display.cpp:3020-3040 | submitted at its very refresh time it moves one period back |
| VsyncTimeline.PromiseKeptIff | composer/hwc_display.cpp:3020-3045 | the promised time is kept if and only if the submission is late by less than a period and not punctual |
| RefreshRateChange.FirstLive | composer/hwc_display.cpp:2971-2985 | the first change ever submitted that applies later than now, or at no known time |
| RefreshRateChange.FirstLiveSkips | composer/hwc_display.cpp:2971-2985 | leaving out what had applied at an earlier query changes no later answer |
| RefreshRateChange.RefreshRate.EstimateTimeline | composer/hwc_display.cpp:3001-3018 | computes the estimate |
| RefreshRateChange.RefreshRate.RequestActiveConfigChange | composer/hwc_display.cpp:2987-2999 | remembers the configuration with the estimate it promises |
| RefreshRateChange.RefreshRate.SubmitActiveConfigChange | composer/hwc_display.cpp:3020-3040 | accepted: re-estimated, pushed, announced if and only if it moved, nothing pending; refused: no change |
| RefreshRateChange.RefreshRate.ProcessActiveConfigChange | composer/hwc_display.cpp:2939-2949 | submits if and only if a change is pending, its refresh time is known and not after the first reading of the clock, the active period is known and the driver accepts; the timeline is from the second reading |
| RefreshRateChange.RefreshRate.GetTransientVsyncPeriod | composer/hwc_display.cpp:2971-2985 | under a clock that never runs back: true if and only if some change ever submitted applies later than now, or never, and then the period of the first such change, however much of the deque earlier queries have dropped |
| RefreshRateChange.RequestThenProcess | composer/hwc_display.cpp:2939-3040 | a requested change is submitted once due and not before; the client is told of a new time if and only if the second reading of the clock is punctual or at least a period late |
| ToneMapPool.FirstFree | composer/hwc_tonemapper.cpp:340-349 | first fit: a free session of that configuration, none earlier |
| ToneMapPool.KeptExactly | composer/hwc_tonemapper.cpp:243-268 | PostCommit keeps exactly the acquired sessions, in order, released with their layer's fence |
| ToneMapPool.FbFollowsSession | composer/hwc_tonemapper.cpp:255-266 | the framebuffer index names the same session as before, or is -1 if that was deleted |
| ToneMapPool.PassIsPostCommit | composer/hwc_tonemapper.cpp:243-268 | deleting while iterating, one session at a time, comes to keeping the acquired ones at once |
| ToneMapReuse.AcquireCounts | composer/hwc_tonemapper.cpp:328-379 | a granted request takes one free session of its configuration if there is one, else adds one |
| ToneMapReuse.FrameReuse | composer/hwc_tonemapper.cpp:172-268 | per configuration, a frame leaves the larger of what the pool had and the frame wanted; PostCommit leaves exactly what it wanted, all free |
| ToneMapReuse.ExactPoolIsKept | composer/hwc_tonemapper.cpp:172-268 | a frame that wants exactly what the pool has creates and deletes nothing |
| ToneMapReuse.SteadyState | composer/hwc_tonemapper.cpp:172-379 | the second of two complete frames with the same multiset of configurations creates and deletes no session |
| ToneMapSafety.RunKeeps | composer/hwc_tonemapper.cpp:172-278 | every run of frames, commits and terminations keeps the bookkeeping of buffers and fences |
| ToneMapSafety.DoubleBufferSafety | composer/hwc_tonemapper.cpp:224-254 | every blit waits for the release fence of that buffer's last commit and never goes to the buffer committed last |
| ToneMapBlits.EachLayerBlitted | composer/hwc_tonemapper.cpp:201-241 | after any run, for complete and failing frames: every layer served has, in order, its blit into the session and buffer it shows, and that waits for the fence last recorded for the buffer and the layer's acquire fence, and nothing else |
| ToneMapBlits.EachLayerCommitted | composer/hwc_tonemapper.cpp:218-254 | PostCommit after a complete frame records for each layer's buffer the release fence of that very layer |
| ToneMapClash.LayersGetDifferentSessions | composer/hwc_tonemapper.cpp:172-222 | for every pool and frame, failing ones included: the layers display different sessions if and only if no framebuffer comes without GPU layer or refusal before it to a session the frame has taken, told from the free sessions ahead of the index and what the earlier layers want |
| ToneMapFrame.VideoTakesFramebufferSession | composer/hwc_tonemapper.cpp:187-199 | a run in which it did |
| ToneMapFrame.FbIndexNamesSession | composer/hwc_tonemapper.cpp:201-212 | after a frame the index is -1 or names a session, unless the pool was empty and the frame's first tone-mapped layer can get no session and is a framebuffer, or the index was left at 0 before and no session is made |
| ToneMapFrame.StaleIndexShowsOtherLayer | composer/hwc_tonemapper.cpp:192-212 | the index left behind then makes another layer's session pass for the framebuffer's |
| ToneMapper.HWCToneMapper.Terminate | composer/hwc_tonemapper.cpp:270-278 | empties a non-empty pool and resets the index |
| ToneMapper.HWCToneMapper.FindFree | composer/hwc_tonemapper.cpp:340-349 | the search loop finds the first fit |
| ToneMapper.HWCToneMapper.AcquireToneMapSession | composer/hwc_tonemapper.cpp:328-379 | granted if and only if the LUT is valid and a free session fits or one can be made; whole new pool and index, or no change at all when refused |
| ToneMapper.HWCToneMapper.ToneMap | composer/hwc_tonemapper.cpp:224-241 | one blit into the current buffer, waiting for exactly its release fence and the layer's acquire fence; the session remembers the layer |
| ToneMapper.HWCToneMapper.HandleToneMap | composer/hwc_tonemapper.cpp:172-222 | whole new pool, result and what each layer shows |
| ToneMapper.HWCToneMapper.PostCommit | composer/hwc_tonemapper.cpp:243-268 | the iterating deletion reaches the pool stated by PostCommit |
| BufferCache.StepSeen | composer/AidlComposerClient.cpp:34-55 | only storing puts a handle in the cache, and only clearing takes it out |
| BufferCache.HandlesConserved | composer/AidlComposerClient.cpp:1540-1591 | in every run each imported handle is under way, in one slot once, leaked, or freed once |
| BufferSlots.SlotsIndependent | composer/AidlComposerClient.cpp:142-207 | every slot evolves on its own: its next content depends on its last content and the call only |
| BufferSlots.RunSlots | composer/AidlComposerClient.cpp:1489-1591 | the same over whole runs |
| BufferSlots.LookupIsLastUpdate | composer/AidlComposerClient.cpp:1540-1591 | a cached lookup returns the handle of the last successful update of that slot, which has existed ever since |
| BufferSlots.CachedHandlesOwned | composer/AidlComposerClient.cpp:34-55 | cached handles are pairwise distinct, imported, not freed, not leaked; nothing is freed twice |
| BufferSlots.FreedExactlyWhenLost | composer/AidlComposerClient.cpp:142-207 | any call frees a handle if and only if a slot stops holding it: growth frees nothing, shrinking exactly the slots cut off |
| BufferSlots.LeakedIffMissed | composer/AidlComposerClient.cpp:1573-1591 | a handle leaks if and only if an update of it names a slot that does not exist then |
| BufferSlots.UpdateAfterRemovalLeaks | composer/AidlComposerClient.cpp:1573-1591 | a run whose update comes after its display is gone leaks the handle |
| BufferSlots.FreedAfterTeardownIff | composer/AidlComposerClient.cpp:73-110 | after teardown every handle has been freed exactly once if and only if no update of it missed its slot |
| ComposerClient.AidlComposerClient.ClearLayers | composer/AidlComposerClient.cpp:44-55 | destroying a layer map clears every entry of it once |
| ComposerClient.AidlComposerClient.ResizeEntries | composer/AidlComposerClient.cpp:613-623 | resize keeps the front, adds nulls, clears exactly the cut entries |
| ComposerClient.AidlComposerClient.LookupEntryLocked | composer/AidlComposerClient.cpp:1489-1538 | the entry, or which part of the address does not exist |
| ComposerClient.AidlComposerClient.LookupBuffer | composer/AidlComposerClient.cpp:1540-1571 | from the cache, or a fresh import, or no resources |
| ComposerClient.AidlComposerClient.UpdateBuffer | composer/AidlComposerClient.cpp:1573-1591 | clears the old handle and stores the new one, or leaks it |
| ComposerClient.AidlComposerClient.ExecuteSetBuffer | composer/AidlComposerClient.cpp:1091-1124 | what is shown, stored and reported for a new and for a cached buffer, whatever the session says |
| ComposerClient.AidlComposerClient.SetClientTargetSlotCount | composer/AidlComposerClient.cpp:613-623 | resizes the display's client targets, or reports the display missing |
| ComposerClient.AidlComposerClient.CreateLayer | composer/AidlComposerClient.cpp:142-162 | an existing layer is resized, a new one starts with null slots |
| ComposerClient.AidlComposerClient.DestroyLayer | composer/AidlComposerClient.cpp:184-196 | clears all of the layer and nothing else |
| ComposerClient.AidlComposerClient.CreateVirtualDisplay | composer/AidlComposerClient.cpp:164-182 | adds the display or resizes its output buffers |
| ComposerClient.AidlComposerClient.OnHotplug | composer/AidlComposerClient.cpp:697-723 | connects without overwriting; disconnecting clears all of the display |
| ComposerClient.AidlComposerClient.ClearDisplays | composer/AidlComposerClient.cpp:101 | clears every entry of every display |
| LayerStack.UpperBound | composer/hwc_layers.h:170-174 | multiset insertion goes behind every layer of that z or less |
| LayerStack.StepKeeps | composer/hwc_display.cpp:620-667 | the set stays sorted by z, equals in order of arrival, ids distinct, and holds exactly the layers the map points to |
| LayerStack.RunKeeps | composer/hwc_display.cpp:620-933 | the same over whole runs |
| LayerStack.ReachableSorted | composer/hwc_display.cpp:620-933 | every reachable stack is so |
| LayerOrder.PositionIsOrder | composer/hwc_layers.h:170-174 | stack position is z, then arrival, and nothing else |
| LayerOrder.RelativeOrderKept | composer/hwc_display.cpp:620-933 | whatever is done to other layers, two layers left alone keep their order |
| LayerOrder.MovedLastAmongEquals | composer/hwc_display.cpp:903-933 | a moved layer lands above exactly the layers of its new z or less |
| LayerOrder.NullFreeIff | composer/hwc_display.cpp:1658-1666 | a run never has a null entry if and only if changes are accepted only while every layer in the list of changes is still there |
| LayerOrder.DisciplinedNeverFaults | composer/hwc_display.cpp:643-667 | a client that has a validation run to its end between destroying and accepting never has a null pointer compared |
| LayerOrder.OutstandingDecided | composer/hwc_display.cpp:1605-1673 | for a layer gone with its change outstanding, in any run that leaves its id alone: its entry comes back, as a null one, if and only if an acceptance takes effect before a validation runs to its end |
| LayerOrder.DestroyedTwiceFaultsIff | composer/hwc_display.cpp:643-667 | destroyed again after such a run, a null pointer is compared if and only if that acceptance came first and a layer is on the display |
| LayerOrder.OutstandingChangeReachable | composer/hwc_display.cpp:1605-1647 | one layer and one validation reach a state with a change outstanding |
| LayerOrder.EmptyValidationIsNotEnough | composer/hwc_display_builtin.cpp:268-273 | five events from there that compare a null pointer though the client has validated the empty display in between |
| LayerOrder.BypassedValidationIsNotEnough | composer/hwc_display_builtin.cpp:234-238 | the same with a display that is paused or without resources while it is validated |
| LayerNegotiation.PrepareReports | composer/hwc_display.cpp:1605-1647 | the change list is exactly the layers whose requested and selected types differ, with the selected type, and as many |
| LayerNegotiation.SelectedMeans | composer/hwc_layers.cpp:1304-1331 | the selected type from the layer's own fields, each type if and only if |
| LayerNegotiation.ReportedIff | composer/hwc_display.cpp:1605-1647 | a validation that runs to its end reports a change for a layer if and only if the driver does not give it what was asked for: solid colour a filled pipe, decoration a masked pipe, and so on |
| LayerNegotiation.EditReaches | composer/hwc_display.cpp:1621-1627 | a request, flags or the driver's choice for a layer change that layer in that field only |
| LayerNegotiation.AcceptAgrees | composer/hwc_display.cpp:1649-1673 | after validate, any edits but new requests, any further validations but a refused last one, and accept, every live layer's requested type is its selected type |
| LayerNegotiation.SelectStable | composer/hwc_layers.cpp:1304-1331 | a layer that accepted its type is given the same again, solid colour and decoration included |
| LayerNegotiation.RevalidateReportsNothing | composer/hwc_display.cpp:1605-1673 | validate, accept, validate with unchanged choices and flags reports no change; on an empty display the list of changes stays as it was |
| LayerDisplay.HWCLayer.SetComposition | composer/hwc_layers.cpp:1304-1331 | the selected type for every composition, fill, mask and request, each type if and only if |
| LayerDisplay.HWCDisplay.FindInRange | composer/hwc_display.cpp:910-926 | in a sorted set the equal range contains the layer itself |
| LayerDisplay.HWCDisplay.CreateLayer | composer/hwc_display.cpp:620-631 | whole new state, the layer last among those at z 0 |
| LayerDisplay.HWCDisplay.DestroyLayer | composer/hwc_display.cpp:643-667 | whole new state, every other layer in place; a fault when a null pointer is compared |
| LayerDisplay.HWCDisplay.SetLayerZOrder | composer/hwc_display.cpp:903-933 | whole new state, no change when the z is the same; a fault when a null pointer is compared |
| LayerDisplay.HWCDisplay.PostPrepareLayerStack | composer/hwc_display.cpp:1605-1647 | selected types, change list and counts; it reports changes if and only if the list is not empty, or some layer goes to the client while another is on a pipe |
| LayerDisplay.HWCDisplay.CommitOrPrepare | composer/hwc_display.cpp:1814-1851 | whole new state, error and counts of a validation that runs to its end, ends early or is refused |
| LayerDisplay.HWCDisplay.AcceptDisplayChanges | composer/hwc_display.cpp:1649-1673 | requested types taken over, null entries left for layers that are gone |
| DisplayConfigs.Rep | composer/hwc_display.cpp:565-581 | the least index with an equal configuration |
| DisplayConfigs.RepCanonical | composer/hwc_display.cpp:565-581 | two configurations share a representative if and only if they are equal; the map is idempotent |
| DisplayConfigs.PublishedDistinct | composer/hwc_display.cpp:565-581 | published configurations are pairwise different and every panel configuration is published under its representative |
| DisplayConfigs.PublishedCount | composer/hwc_display.cpp:589-591 | the reported number of configurations is the number of different ones |
| DisplayConfigs.GroupIdIff | composer/hwc_display.cpp:3051-3065 | equal group ids if and only if IsSameGroup, that is equal sizes, densities and kinds of panel |
| DisplayConfigs.AttributeGroupIff | composer/hwc_display.cpp:1112-1147 | the group attribute agrees with the configuration list if and only if there are no window margins and the panel has pixels; it is missing if and only if a margin is as large as the panel |
| DisplayConfigs.MarginHidesGroup | composer/hwc_display.cpp:1112-1147 | one configuration and a margin: listed in its own group, reported in none |
| DisplayConfigs.HWCDisplay.FindConfig | composer/hwc_display.cpp:569-575 | finds an equal published configuration if there is one |
| DisplayConfigs.HWCDisplay.UpdateConfigs | composer/hwc_display.cpp:558-592 | the loops compute representatives and published configurations; the active index is canonical |
| DisplayConfigs.HWCDisplay.GetActiveConfig | composer/hwc_display.cpp:1262-1277 | the pending or the driver's configuration, made canonical |
| DisplayConfigs.HWCDisplay.ActiveIsPublished | composer/hwc_display.cpp:1262-1277 | what is reported active is published, with the very same info |
| DisplayConfigs.HWCDisplay.GetDisplayConfigGroup | composer/hwc_display.cpp:2842-2851 | the least published configuration of the group, or -1 |
| DisplayConfigs.HWCDisplay.GetConfigGroupAttribute | composer/hwc_display.cpp:1112-1147 | the attribute, or which of the two errors |
| DisplayConfigs.HWCDisplay.AllowSeamless | composer/hwc_display.cpp:3067-3076 | allowed if and only if both are published and report the same group id |
| SecureEvents.RoundsExtend | composer/hwc_display.cpp:3136-3167 | an event that may follow where the trace stops continues the rounds of Prepare UnPrepare and Prepare Start End |
| SecureEvents.AdmittedContinues | composer/hwc_display.cpp:3136-3167 | what validation admits may follow where the display is in its round |
| SecureEvents.AdmittedExtends | composer/hwc_display.cpp:3136-3167 | an event that validation admits continues the rounds |
| SecureEvents.FullRunKeeps | composer/hwc_display.cpp:3169-3236 | fully handled events that take effect come in such rounds; while prepared or started the display is paused or about to be |
| SecureEvents.ReachableInRounds | composer/hwc_display.cpp:3169-3236 | so does every run from the start |
| SecureEvents.PausedAfterCommit | composer/hwc_display.cpp:1949-1956 | after Prepare or Start the next commit pauses the display, and no commit, toggle or status call resumes it |
| SecureEvents.ReleasedIff | composer/hwc_display.cpp:3203-3211 | the display is let go if and only if End or UnPrepare is handled with success |
| SecureEvents.MixedRunKeeps | composer/hwc_display.cpp:3176-3183 | also with events that are only noted, a started display is paused or about to be |
| SecureEvents.ReachableHeld | composer/hwc_display.cpp:3169-3236 | every reachable started display is paused or about to be |
| SecureEvents.NotedPrepareSkipsRound | composer/hwc_display.cpp:3176-3183 | after a noted Prepare the handled events no longer come in rounds |
| SecureEvents.HWCDisplay.ValidateTUITransition | composer/hwc_display.cpp:3136-3167 | which event is admitted in which state |
| SecureEvents.HWCDisplay.HandleSecureEvent | composer/hwc_display.cpp:3169-3223 | whole new state and error for every event, driver answer and mode |
| SecureEvents.HWCDisplay.PostHandleSecureEvent | composer/hwc_display.cpp:3225-3236 | End and UnPrepare end the transition, anything else is recorded |
| SecureEvents.HWCDisplay.PostCommitLayerStack | composer/hwc_display.cpp:1949-1956 | a pending pause takes effect, a finished UnPrepare is forgotten |
| SecureEvents.HWCDisplay.ToggleScreenUpdates | composer/hwc_display.cpp:2431-2439 | refused during a transition, else enabling resumes and disabling pauses |
| SecureEvents.HWCDisplay.SetDisplayStatus | composer/hwc_display.cpp:2322-2350 | refused during a transition, else resume and pause do so and the rest changes nothing |
| CallbackQueue.StepKeeps | composer/hwc_callbacks.h:48-85 | every interleaving of pushers, consumer and registrar keeps conservation, the flag, the meaning of wait and no lost push |
| CallbackQueue.RunKeeps | composer/hwc_callbacks.cpp:141-218 | the same over whole runs |
| CallbackQueue.DeliveredInOrder | composer/hwc_callbacks.cpp:190-218 | consumed then queued is what was pushed; clients are told in that order |
| CallbackQueue.EachKindItsOwn | composer/hwc_callbacks.cpp:79-92 | only a refresh without a registered client is not queued; the callback of the event's own kind decides whether the client hears of it |
| CallbackQueue.PopNeverBlocks | composer/hwc_callbacks.h:59-67 | with one consumer, pop after wait finds an event |
| CallbackQueue.PushWakes | composer/hwc_callbacks.h:51-57 | a consumer asleep with events queued has a notification under way |
| CallbackQueue.DeregistrationDrains | composer/hwc_callbacks.cpp:180-187 | when join returns, everything pushed before the flag was cleared has been consumed and dealt with |
| CallbackQueue.StopSticksIff | composer/hwc_callbacks.cpp:180-187 | a de-registration gets stuck if and only if it notifies in that gap and no earlier pusher has yet to notify |
| CallbackQueue.StopReturnsIff | composer/hwc_callbacks.cpp:180-187 | for every reachable state about to notify: some run without push or spurious wake-up lets join return if and only if it is not that case |
| CallbackQueue.StopHeardFinishes | composer/hwc_callbacks.cpp:190-218 | if it was not, the consumer's own steps empty the queue and end the thread |
| CallbackQueue.LateNotifyFinishes | composer/hwc_callbacks.h:51-57 | if it was, a pusher that has yet to notify wakes the consumer after all |
| CallbackQueue.StopMissedBlocksForever | composer/hwc_callbacks.cpp:180-187 | a stop notification that finds the consumer falling asleep and no pusher that has yet to notify: in no run without a push or a spurious wake-up does join return |
| CallbackQueue.StuckReachable | composer/hwc_callbacks.h:74-79 | such a state is reached by one registration and one de-registration |
| CallbackQueue.HWCCallbacks.RefreshDisplay | composer/hwc_callbacks.cpp:79-92 | pushes if and only if a client has registered |
| CallbackQueue.HWCCallbacks.EvaluateCondition | composer/hwc_callbacks.h:74-77 | wait's condition, and where the consumer goes |
| CallbackQueue.HWCCallbacks.ReadFlag | composer/hwc_callbacks.cpp:194 | between wait and pop: asks whether the queue is empty if and only if the thread is to stop |
| CallbackQueue.HWCCallbacks.AskIfEmpty | composer/hwc_callbacks.cpp:194-196 | leaves the loop if and only if the queue is empty |
| CallbackQueue.HWCCallbacks.PopFront | composer/hwc_callbacks.h:59-67 | takes the oldest event |
| CallbackQueue.HWCCallbacks.DispatchParam | composer/hwc_callbacks.cpp:199-214 | calls the client if and only if its callback is still set |
| CallbackQueue.HWCCallbacks.StartOrStop | composer/hwc_callbacks.cpp:173-183 | starts a thread when there is none, then begins to stop it for a null pointer |
| CallbackQueue.HWCCallbacks.JoinThread | composer/hwc_callbacks.cpp:185 | once the thread has ended, a new one can be started |

## Left out

- Binder and AIDL plumbing, start-up, properties, sockets, file dumps: input and output.
- GL, EGL, gralloc metadata, allocation and import themselves: their answers are parameters.
- Pixel formats, dataspaces, brightness, plane alpha and frame-rate rounding: finite tables or floating point.
- Two calls that run at once: they interleave at their lock-held sections. `CallbackQueue` and `CwbSession` have one method per section, not one per call, because the loops around them do not end.
- VsyncTimeline.EstimateStaysInInt64: outside the inner half of the 64-bit range the estimate is over unbounded integers.
- CwbMaps.HWCDisplay.EndFrameDump: the dumped frame and the next SetReadbackBuffer of a running dump are separate steps; through a reference that is no longer good any status may be read.
- The session's display lock, which keeps some of the calls of one display apart: the maps are studied under their own lock only.
- ToneMapper.HWCToneMapper.PostCommit: asks that the layer of every acquired session is in the stack; the source throws otherwise.
- Fences are the set of driver fences they wait for; merging is union. Whether and when a fence signals is not modelled.
- GPU blits: a blit is an event in the history; its pixels are not modelled.
- The client's destructor: its last validation, acceptance and presentation are not modelled, nor is the iterator it uses while a virtual display is erased.
- What the program does after it has called `back()` on an empty deque or compared a null pointer: a run ends there.
- DisplayConfigs.AttributeGroupIff: the margins are whole pixels; the source adds them up as floating-point numbers first.
- Negative slot counts, which the source passes to `resize` as very large ones.
- ComposerClient.AidlComposerClient.ExecuteSetBuffer: stands for the three commands that set a buffer; sideband streams are not supported by the source and the slot kind is kept only in the cache.
- LayerStack.StepKeeps: a validation that a pending power mode or a shutdown turns away before it begins is no step; the validation of displays composed by the GPU only, geometry flags, and handing the layers of one display to another are not modelled.
- DisplayConfigs.HWCDisplay.UpdateConfigs: only for a display that knows no configuration yet, which is how the source calls it; dots per inch are reals.
- SecureEvents.FullRunKeeps: covers one display; the session's loop over displays and the power mode set by SetDisplayStatus are not modelled.
- CallbackQueue.HWCCallbacks.StartOrStop: two calls of Register at the same time are not modelled; the source does not guard the thread against them.
- HWCCallbacks::Hotplug for built-in displays, which calls the client directly, and its wait for a client.
- Spurious wake-ups happen whenever they like; how long anything takes is not modelled, and no claim is made that a thread gets to run.
