# Verified model of the xf86-video-amdgpu driver's event, flip and timing logic

This project models, in Dafny 4.11, the parts of the amdgpu X driver whose correctness
depends on what happens across many calls, and proves properties of every run of them:

- **The DRM event queue** (`QueueModel`, `QueueSafety`, `QueueDriver`). `QueueModel` is a step
  system over the four lists; `QueueSafety` proves what holds over every run of its steps.
  `QueueDriver` is the queue as an object with the driver's own loops, in which callbacks
  re-enter any queue operation; every method is proved to take only steps of the system.
- **Page flips, TearFree flips, modes and FB references** (`FbRefs`, `FlipModel`, `FlipSafety`,
  `FlipRuns`, `FlipSubmit`, `FlipEnv`, `FlipModeset`, `FlipDrain`, `FlipPaths`, `FlipDriver`). The state joins the
  queue of the first part with flip requests, FB slots and counts; a queue step runs the callback
  it logs. `FlipDriver` holds the driver paths with their waits, in which handlers make further
  driver calls, page flips and mode sets among them.
- **TearFree double buffering** (`TearFree`): incremental copies against copying the whole screen.
- **Frame counts** (`Msc`): power changes, extrapolated events, divisor/remainder targets of
  `glXWaitForMscOML` and `glXSwapBuffersMscOML` (GLX_OML_sync_control), drawables that move.
- **Gamma tables** (`Lut`): interpolation and composition in wrapping 32-bit arithmetic.
- **GPU/CPU counters** (`GpuSync`): access stamps and flush marks compared modulo the word size.

`dafny verify dfyconfig.toml` checks everything.

## Conventions

- Kernel and server calls are parameters: whether an ioctl or an allocation succeeds, which
  events a read delivers, what a clock returns.
- What callbacks do is a parameter too: the k-th callback that makes driver calls makes those of
  the k-th script, so each finite execution is one choice of scripts and kernel replies.
  In `FlipDriver` only handlers have scripts; the abort procedures only release what they hold
  (`src/amdgpu_dri2.c:487-493`, `src/amdgpu_dri2.c:719-728`, `src/amdgpu_present.c:129-135`), and
  the TearFree procedures (`src/amdgpu_kms.c:554-579`) only change the driver's own state.
- A run of `FlipDriver` ends when the server goes down. `FlipPaths.Falls` lists the two ways in
  which it does, with the state it happened from; both are characterised below.
- CRTCs, clients, pixmaps, FBs and flip requests are natural numbers; an FB or a request number
  is not used again after it is freed. `seq` of the queue does not wrap.
- Histories (`log`, `issued`, `refs`, `outcomes`, `frames`) record what happened; the driver has
  no counterpart of them.

## Where the code does less than one would expect

- Setting a mode with an ad-hoc FB takes the CRTC's only reference to it and then waits for a
  pending flip. A flip that completes in that wait, or a handler that submits a flip or sets a mode
  on the CRTC, replaces the reference, and the mode set then refers to a removed FB.
  `FlipModeset.AdhocModeIff` gives the exact condition, `FlipModeset.AdhocModeFails` a run.
- A page flip that waited for TearFree handles the deferred events before it reads its flipdata
  again. A handler run then can end the request, for instance by reading its event, and flipdata is
  freed by that time. `FlipDrain.FreedFlipIff` gives the exact condition,
  `FlipDrain.FreedFlipHappens` a run from the initial state.
- A page flip that no CRTC takes leaves its count at -1 and calls neither procedure:
  `FlipDriver.Driver.DoPageFlip` states that this happens exactly when the filter passes no CRTC.
- With an MSC offset, the swap path compares a kernel frame with a drawable frame and can ask for
  a later frame than the least one: `Msc.SwapCanSkip`, `Msc.SwapLeastIff`.
- The emulated vblank timer casts its delay to 32 bits: `Msc.TimerNeverEarlyIff`, `Msc.TimerCanBeEarly`.
- The count of missed vblanks has 32 bits: `Msc.MscNeverBack`, `Msc.WrapGoesBack`.
- A TearFree flip whose FB lookup or queue entry fails has already emptied the damage:
  `TearFree.ForgettingIff`, `TearFree.EarlyReturnShowsStale`.
- A mode that the kernel refuses has already been copied for: `TearFree.RefusedModeIff`,
  `TearFree.RefusedMoveShowsStale`.

## Model

| member | source | states |
|---|---|---|
| `QueueSafety.InvKept` | src/amdgpu_drm_queue.c:64-267 | every queue operation keeps the census of entries, their identity, the kind of each list and deferral safety |
| `QueueSafety.ExactlyOnce` | src/amdgpu_drm_queue.c:64-111 | in every reachable state each issued number is in exactly one list and never called back, or in none and called back exactly once |
| `QueueSafety.LateEventIgnored` | src/amdgpu_drm_queue.c:88-111 | after its callback, no event, abort or further run reaches an entry again |
| `QueueSafety.DeferralSafety` | src/amdgpu_drm_queue.c:117-136 | deferred entries belong to a CRTC with an open wait, vblank handlers run only at level zero, signalled entries have their handler |
| `QueueSafety.CloseWaitRestores` | src/amdgpu_drm_queue.c:144-166 | closing the last level moves back all and only that CRTC's entries, after those already signalled, and loses none |
| `QueueSafety.CloseWaitOrder` | src/amdgpu_drm_queue.c:154-163 | the entries moved back keep their order |
| `QueueSafety.ClientAbortFinal` | src/amdgpu_drm_queue.c:209-218 | in every continuation a pending entry of an aborted client is aborted or still pending, never handled; other entries are untouched |
| `QueueSafety.HandlersGetEvents` | src/amdgpu_drm_queue.c:64-111 | over every run, a handler is given the frame and time of an event that came for its entry |
| `QueueSafety.AbortIdFirst` | src/amdgpu_drm_queue.c:256-267 | exactly the first pending entry with the id is unlinked and aborted, and nothing changes if there is none |
| `QueueSafety.AbortEntryExactly` | src/amdgpu_drm_queue.c:223-251 | an entry that is signalled as a vblank, deferred or pending is aborted and in no list afterwards; all other entries stay where they are |
| `QueueSafety.FlipsInOrder` | src/amdgpu_drm_queue.c:293-297 | signalled flips are handled in the order in which they were signalled |
| `QueueSafety.VblanksInOrder` | src/amdgpu_drm_queue.c:117-136 | signalled vblanks are called back in that order at level zero, and deferred in that order otherwise |
| `QueueDriver.NothingStranded` | src/amdgpu_drm_queue.c:272-325 | a call that takes queue steps and closes its waits, made while none is active, ends with nothing signalled or deferred; `FlipDriver.Driver.Run` proves of the driver paths that they are such calls |
| `QueueDriver.BracketKept` | src/amdgpu_drm_queue.c:144-166 | opening a wait, complete calls in between, and closing it restore every level and leave nothing signalled |
| `QueueDriver.DrmQueue.CallOut` | src/amdgpu_drm_queue.c:64-86 | the unlinked entry's callback runs, makes the calls of the next script one after the other, and continues from the state after that one step |
| `QueueDriver.DrmQueue.QueueHandler` | src/amdgpu_drm_queue.c:88-111 | an event does the signal step, then only what callbacks add; levels are unchanged |
| `QueueDriver.DrmQueue.HandleVblankSignalled` | src/amdgpu_drm_queue.c:117-136 | handles or defers the first signalled vblank again and again until none is left, whatever callbacks do |
| `QueueDriver.DrmQueue.HandleDeferred` | src/amdgpu_drm_queue.c:144-166 | closes one level of the CRTC; if it was the last, the vblanks are handled until none is signalled, otherwise nothing runs |
| `QueueDriver.DrmQueue.RestoreDeferred` | src/amdgpu_drm_queue.c:154-163 | the in-place loop computes the two filtered lists |
| `QueueDriver.DrmQueue.QueueAlloc` | src/amdgpu_drm_queue.c:172-200 | appends one entry under the next non-zero number, or returns 0 and changes nothing |
| `QueueDriver.DrmQueue.DrmAbortClient` | src/amdgpu_drm_queue.c:209-218 | clears the handlers of that client's pending entries only |
| `QueueDriver.DrmQueue.DrmAbortEntry` | src/amdgpu_drm_queue.c:223-251 | aborts the entry found in signalled vblanks, deferred or pending, in this order |
| `QueueDriver.DrmQueue.DrmAbortId` | src/amdgpu_drm_queue.c:256-267 | aborts the first pending entry with the id |
| `QueueDriver.DrmQueue.HandleEvent` | src/amdgpu_drm_queue.c:272-302 | delivers all events in order, then handles the flips until none is signalled, then the vblanks; levels unchanged |
| `QueueDriver.DrmQueue.WaitPendingFlip` | src/amdgpu_drm_queue.c:307-325 | opens one level, handles the signalled flips, then reads batches in order: at the end no flip is pending on the CRTC, or the last of the batches read, all handled, is the first that failed; without a pending flip nothing runs |
| `QueueDriver.DrmQueue.EmulateEvent` | src/amdgpu_kms.c:1103-1107 | the event is signalled, then a level is opened and closed; levels are unchanged, and at level zero the entry has been called back exactly once when the call returns |
| `QueueDriver.DrmQueue.RunCall` | src/amdgpu_drm_queue.c:64-325 | what each use of the queue does, with re-entrant callbacks; it takes only queue steps and keeps levels and drained lists |
| `QueueDriver.DrmQueue.QueueClose` | src/amdgpu_drm_queue.c:352-363 | aborts exactly the pending entries of the screen's CRTCs, each with its abort procedure |
| `QueueDriver.Session` | src/amdgpu_drm_queue.c:272-325 | any session does its calls one after the other and ends with zero levels, nothing signalled or deferred, each entry pending or called back once |
| `FbRefs.ReferenceConserves` | src/drmmode_display.h:207-233 | counts stay equal to holders, only the slot changes, an FB goes exactly when its last slot lets go |
| `FbRefs.ReferenceFatalIff` | src/drmmode_display.h:211-224 | FatalError exactly when the new FB is held by no slot |
| `FbRefs.CreateConserves` | src/amdgpu_pixmap.h:107-123 | a created FB is owned by the slot it is put in |
| `FbRefs.FbTable.SetSlot` | src/drmmode_display.h:207-233 | the in-place reference change, with removal from the kernel |
| `FbRefs.FbTable.PointAt` | src/drmmode_display.h:207-233 | with a live FB nothing is fatal and exactly the FBs nobody holds are removed |
| `FlipSafety.FlipAbortFbsSlots` | src/drmmode_display.c:3010-3014 | slots after a flip abort: flip_pending is let go exactly if it holds the request's FB; counts conserved |
| `FlipSafety.FlipHandlerFbsSlots` | src/drmmode_display.c:3040-3047 | after completion the CRTC holds the request's FB, flip_pending only if it was another flip's |
| `FlipSafety.ScanoutFbsSlots` | src/amdgpu_kms.c:554-579 | slots after a TearFree completion or abort, whether or not flip_pending still holds its FB; counts conserved |
| `FlipSafety.TickedCounts` | src/drmmode_display.c:3016-3060 | flip_count stays the number of live entries, and a request at zero has none |
| `FlipSafety.TimesFlip` | src/drmmode_display.c:3033-3057 | the reference CRTC's frame and time are cached and delivered |
| `FlipRuns.QueueStepKeeps` | src/drmmode_display.c:3001-3061 | any queue operation with the FB and request part of its callback keeps all flip, request and FB invariants; driver calls of a handler follow as further steps |
| `FlipEnv.StepLater` | src/drmmode_display.c:3016-3060 | a callback ends no request but its own, loses no outcome and gives no older request an entry |
| `FlipEnv.RunWaitKeeps` | src/amdgpu_drm_queue.c:307-325 | every run of a wait, with any driver calls of the handlers it runs, keeps all flip invariants |
| `FlipSubmit.OneCompletion` | src/drmmode_display.c:3001-3061 | a finished request has exactly one outcome, at its last callback and of its kind; with all completed, the reference CRTC's frame and time in any order |
| `FlipSubmit.RejectKeeps` | src/drmmode_display.c:3839-3851 | a request that fails before the loop gets its abort at once |
| `FlipSubmit.AcceptKeeps` | src/drmmode_display.c:3877-3888 | counting a CRTC and allocating its entry keep count and live entries equal |
| `FlipSubmit.AcceptFailsKeeps` | src/drmmode_display.c:3884-3969 | without an entry the CRTC is taken back; the request ends only if it had no other |
| `FlipSubmit.SentKeeps` | src/drmmode_display.c:3927-3950 | after the ioctl flip_pending refers to the FB flipped to |
| `FlipSubmit.OrphanKeeps` | src/drmmode_display.c:3958-3973 | with no CRTC the count becomes -1, no FB changes and nothing is called |
| `FlipSubmit.SendScanoutFlipKeeps` | src/amdgpu_kms.c:1157-1195 | a TearFree flip the kernel took keeps all invariants, so its uncounted FB stays alive |
| `FlipSubmit.RefuseScanoutFlipKeeps` | src/amdgpu_kms.c:1168-1178 | a refused TearFree flip leaves FBs, requests and live entries as they were |
| `FlipSubmit.SendScanoutUpdateKeeps` | src/amdgpu_kms.c:1078-1092 | a scheduled scanout update keeps all invariants |
| `FlipSubmit.AbortScanoutKeeps` | src/drmmode_display.c:460-465 | after the wait, the abort reaches the scanout entry although signalled flips are not searched |
| `FlipModeset.AdhocModeIff` | src/drmmode_display.c:1322-1345 | an ad-hoc mode set is safe for every run of the wait, with any driver calls of handlers, if and only if no flip is pending or no queued entry can complete a TearFree flip there or run a handler that makes driver calls |
| `FlipModeset.AdhocModeFails` | src/drmmode_display.c:1322-1345 | after one page flip from the initial state, a run of the wait ends in the FatalError |
| `FlipModeset.PageFlippedIdle` | src/drmmode_display.c:3839-3954 | a page flip to a new FB on one CRTC keeps all invariants and leaves its flip pending |
| `FlipDrain.FreedFlipIff` | src/drmmode_display.c:3955-3973 | after submission, handling the deferred events can end the request, so that flipdata is read after it was freed, if and only if closing the wait runs a vblank handler that makes driver calls |
| `FlipDrain.FreedFlipHappens` | src/drmmode_display.c:3955-3973 | from the initial state, a page flip that waits for a TearFree flip while a vblank wait of a client is deferred can end so |
| `FlipDrain.RequestEnds` | src/drmmode_display.c:3001-3061 | reading its events ends any submitted request, whatever completes or aborts and in any state |
| `FlipDrain.CalmClose` | src/amdgpu_drm_queue.c:144-166 | without such a handler, handling the deferred events changes no request |
| `FlipDriver.Driver.Step` | src/amdgpu_drm_queue.c:64-86 | a queue operation, its callback and the driver calls of its handler, which are those of the script, keep all invariants and close their waits, or bring the server down in one of two ways |
| `FlipDriver.Driver.HandleEvent` | src/amdgpu_drm_queue.c:272-302 | the events are delivered in order, then flips and vblanks are handled until nothing is signalled; levels unchanged whatever driver calls handlers make |
| `FlipDriver.Driver.WaitPendingFlip` | src/amdgpu_drm_queue.c:307-325 | opens one level, handles signalled flips and then reads batches in order, both only while a flip is pending on the CRTC: at the end none is, or the last read has failed |
| `FlipDriver.Driver.ReadPending` | src/amdgpu_drm_queue.c:322-324 | events are read as long as a flip is pending on the CRTC, up to the first read that fails |
| `FlipDriver.Driver.HandleDeferred` | src/amdgpu_drm_queue.c:144-166 | closes one level and runs nothing unless it was the last; FBs and requests change only by driver calls of handlers |
| `FlipDriver.Driver.EmulateEvent` | src/amdgpu_dri2.c:956-965 | the event is signalled and a level opened and closed; levels unchanged, and at level zero the entry has been called back once |
| `FlipDriver.Driver.PixmapGetFb` | src/amdgpu_pixmap.h:143-166 | returns the pixmap's live FB, creating it if needed, and changes no other slot |
| `FlipDriver.Driver.AbortScanout` | src/drmmode_display.c:3917-3922 | waits exactly if an update is under way; afterwards the CRTC has no scanout entry, and one level is open if it waited |
| `FlipDriver.Driver.FlipError` | src/drmmode_display.c:3961-3979 | the failing CRTC's entry is aborted through the queue and not live any more, the request is not lost |
| `FlipDriver.Driver.TakeFb` | src/drmmode_display.c:3890-3925 | the request holds the FB to flip to, and no TearFree update is left on the CRTC |
| `FlipDriver.Driver.SubmitOn` | src/drmmode_display.c:3890-3953 | succeeds if and only if FB and ioctl do, judged before the call; then flip_pending has the right FB and the entry the client's name |
| `FlipDriver.Driver.FlipOnCrtc` | src/drmmode_display.c:3868-3954 | one round of the loop: skipped, queued or failed exactly when the filter, memory, FB and ioctl say so; only the reference CRTC is waited for |
| `FlipDriver.Driver.FlipCrtcs` | src/drmmode_display.c:3868-3954 | a CRTC takes part if and only if one passes the filter, and none fails if and only if each that passes has memory, is sent and gets its FB, judged before the loop; then each of them has an entry of the request; at most one wait is open afterwards, on the reference CRTC |
| `FlipDriver.Driver.Setup` | src/drmmode_display.c:3839-3866 | a fresh request with count zero, or one abort outcome |
| `FlipDriver.Driver.DoPageFlip` | src/drmmode_display.c:3810-3980 | succeeds if and only if there is memory, the front FB can be had, some CRTC passes the filter and all that do can be submitted; outcome of every submission, including early failure and the request no CRTC takes; on success the request is still unfinished when the call returns; flipdata is read after the drain and brings the server down exactly if the request is over; the wait opened on a CRTC is closed on the reference CRTC on every exit |
| `FlipDriver.Driver.ScanoutFlip` | src/amdgpu_kms.c:1124-1196 | the flip is under way with its FB held, or the spare pixmap is dropped and an update is scheduled or done; levels return |
| `FlipDriver.Driver.ScanoutUpdate` | src/amdgpu_kms.c:1047-1122 | schedules an update exactly if one is due and none and no flip is under way; without a vblank the event is emulated, and the mode is set anew when vblanks work again; levels return |
| `FlipDriver.Driver.DropPixmap` | src/amdgpu_pixmap.h:59-98 | the pixmap lets go of its FB and nothing else changes |
| `FlipDriver.Driver.ScanoutFree` | src/drmmode_display.c:455-472 | the update is waited for, aborted and the wait closed, then both pixmap FBs are dropped; all levels return; no scanout entry is left unless a handler made driver calls |
| `FlipDriver.Driver.DpmsOff` | src/drmmode_display.c:297-365 | a CRTC that was on is waited for and its deferred events are handled, then the CRTC holds no FB; all levels return |
| `FlipDriver.Driver.SetMode` | src/drmmode_display.c:1249-1396 | the wait, the kernel call, which points the CRTC at the FB of the pixmap if it took the mode and changes no slot if it refused, the freeing and the closing, in this order; all levels return on both exits |
| `FlipDriver.Driver.SetModeAdhoc` | src/drmmode_display.c:1322-1396 | for every state: FatalError only under the condition of `AdhocModeIff`, otherwise the CRTC gets the ad-hoc FB exactly if the kernel took the mode; scanout pixmaps not shown any more are freed and all levels return |
| `FlipDriver.Driver.Run` | src/drmmode_display.c:1341-1396 | what every driver call results in, with the driver calls of handlers at any depth; it keeps the flip invariants, restores every wait level and strands nothing, unless the server goes down in one of two ways |
| `FlipDriver.Driver.Drive` | src/drmmode_display.h:207-233 | over any run, the calls have had their results one after the other and the server goes down only by a lost ad-hoc FB or by freed flipdata; otherwise counts equal holders, nothing is fatal, TearFree FBs are alive, requests count their entries, levels are as before, nothing is signalled or deferred at rest |
| `TearFree.Clip` | src/amdgpu_kms.c:441-463 | the clipped box holds exactly the CRTC's points of the box |
| `TearFree.ForgettingIff` | src/amdgpu_kms.c:1147-1166 | forgetting damage is right for all contents if and only if none of it lies on the CRTC |
| `TearFree.RefusedModeIff` | src/drmmode_display.c:1344-1384 | a buffer filled for a refused mode of any size is right for all contents if and only if the mode had the old position and covered the old one |
| `TearFree.Scanout.SyncScanoutPixmaps` | src/amdgpu_kms.c:503-552 | copies exactly the last region minus the new one, so the early exits lose nothing |
| `TearFree.Scanout.ScanoutDoUpdate` | src/amdgpu_kms.c:934-1015 | when it updates, and each pixel of the result |
| `TearFree.Scanout.ScanoutUpdateHandler` | src/amdgpu_kms.c:1025-1045 | the displayed buffer becomes the whole screen, or nothing changes |
| `TearFree.Scanout.ScanoutUpdate` | src/amdgpu_kms.c:1047-1122 | each of its outcomes; damage outside the CRTC may be dropped |
| `TearFree.Scanout.GiveUpTearFree` | src/amdgpu_kms.c:1168-1186 | the restored damage covers every stale pixel of the displayed buffer and is updated; the spare pixmap is gone |
| `TearFree.Scanout.ScanoutFlip` | src/amdgpu_kms.c:1124-1196 | the buffer handed to the flip equals the whole screen on the CRTC |
| `TearFree.Scanout.FlipWithoutEntry` | src/amdgpu_kms.c:1142-1166 | the early returns leave the displayed buffer as it was and forget its damage exactly when there was some on the CRTC |
| `TearFree.EarlyReturnShowsStale` | src/amdgpu_kms.c:1142-1166 | a run with an early return whose next flipped frame is not the whole screen |
| `TearFree.Scanout.CreateBuffers` | src/drmmode_display.c:474-504 | the buffers of the mode exist with its size; one that had the size keeps its content |
| `TearFree.Scanout.ScanoutModeset` | src/drmmode_display.c:648-696 | the buffer is the whole screen for the mode asked for; what is displayed after a refusal; the invariant is kept if the mode was taken or covers the old one |
| `TearFree.RefusedMoveShowsStale` | src/drmmode_display.c:1344-1384 | a run with a refused move whose next flipped frame is not the whole screen |
| `TearFree.Scanout.ScreenDraw` | src/drmmode_display.c:506-520 | damage extents are the least box around the old damage and what was drawn |
| `TearFree.Scanout.HandleBlock` | src/amdgpu_kms.c:1198-1227 | on each block the TearFree CRTC flips its damage and another one updates it |
| `TearFree.Scanout.Run` | src/amdgpu_kms.c:1124-1196 | what each event does to buffers, damage and frames, and the invariant it keeps |
| `TearFree.Scanout.Drive` | src/amdgpu_kms.c:1124-1196 | over any run the events have had their effect one after the other; if its refused modes cover the current one, every frame handed to a flip equals a full copy of the screen |
| `Msc.CrtcClock.SwitchOff` | src/drmmode_display.c:297-327 | what is recorded; the frame rate is the pixel clock over the pixels of a frame, rounded down, or 60 without one |
| `Msc.CrtcClock.SwitchOn` | src/drmmode_display.c:328-347 | the vblanks missed are added modulo 2^32 |
| `Msc.CrtcClock.GetCrtcMsc` | src/amdgpu_dri2.c:382-416 | live or extrapolated count; the extrapolated stamp is the time of the last frame, rounded down, between the last vblank and now |
| `Msc.CrtcClock.Drive` | src/amdgpu_dri2.c:382-416 | the reports of a run are those of the specification `Reports` |
| `Msc.MscNeverBack` | src/drmmode_display.c:288-348 | over any run of power changes and queries whose missed vblanks fit 32 bits, the reports are nondecreasing |
| `Msc.WrapGoesBack` | src/drmmode_display.c:341-343 | when the missed vblanks do not fit, the count goes back across the switch |
| `Msc.ExtrapolateMscDelay` | src/amdgpu_dri2.c:806-872 | target and delay as the divisor rule and the margins give them, with the fallback |
| `Msc.ExtrapolateNonNegative` | src/amdgpu_dri2.c:837-860 | the delay recomputed after a miss is never negative |
| `Msc.ExtrapolateTarget` | src/amdgpu_dri2.c:832-858 | the frame waited for is the target if it is still to come, otherwise the current one or the least later one with the remainder |
| `Msc.TimerNeverEarlyIff` | src/amdgpu_dri2.c:861-872 | the timer never fires before the target is reached if and only if the delay fits 32 bits |
| `Msc.TimerCanBeEarly` | src/amdgpu_dri2.c:861-872 | an input whose delay exceeds 2^32 microseconds and whose timer fires before the target |
| `Msc.LeastMatching` | src/amdgpu_dri2.c:1082-1095 | the frame is the least later one with the remainder; with remainder >= divisor there is none |
| `Msc.WaitRequest` | src/amdgpu_dri2.c:1042-1102 | the kernel frame asked for is the wanted drawable frame modulo 2^32 |
| `Msc.SwapRequest` | src/amdgpu_dri2.c:1222-1306 | the same for the swap path, one frame earlier for a flip |
| `Msc.SwapAim` | src/amdgpu_dri2.c:450-471 | an adjusted flip is aimed at the target if that is one of the next three frames and at the next one otherwise |
| `Msc.SwapLeastIff` | src/amdgpu_dri2.c:1287-1301 | when the swap path picks the least matching frame |
| `Msc.SwapAgreesWithWait` | src/amdgpu_dri2.c:1287-1304 | without an offset both paths pick the same frame |
| `Msc.SwapCanSkip` | src/amdgpu_dri2.c:1287-1301 | an input with an offset for which the swap path skips the least frame |
| `Msc.Window.DrawableCrtc` | src/amdgpu_dri2.c:418-443 | a move leaves the drawable's count unchanged at that moment |
| `Msc.DrawableCounts` | src/amdgpu_dri2.c:878-896 | a drawable that never moved sees the CRTC's count, and one that stays sees each of its frames, modulo 2^32 |
| `Msc.DrawableMscContinuous` | src/amdgpu_dri2.c:878-896 | over any moves the count advances by exactly the frames shown, modulo 2^32 |
| `Lut.Indices` | src/drmmode_display.c:847-851 | both 32-bit indices and the coefficient are the true ones and in range |
| `Lut.WrappedExact` | src/drmmode_display.c:851-853 | the wrapping sum is the weighted sum |
| `Lut.ExactIff` | src/drmmode_display.c:851-853 | exact for every table if and only if there are at most 65538 outputs |
| `Lut.SampleBetween` | src/drmmode_display.c:848-856 | each output lies between its neighbours |
| `Lut.SampleMono` | src/drmmode_display.c:847-857 | resizing keeps nondecreasing tables nondecreasing |
| `Lut.SampleEnds` | src/drmmode_display.c:829-858 | end points are kept; equal sizes give the same table |
| `Lut.SampleOnLine` | src/drmmode_display.c:847-857 | each output is the value on the straight line between its neighbours, rounded down |
| `Lut.InterpolateChannel` | src/drmmode_display.c:847-857 | the loop writes every sample of one colour, on the line between its neighbours, and nothing else |
| `Lut.LutInterpolate` | src/drmmode_display.c:816-862 | all three channels are resized, each value on its line, and `reserved` is zero |
| `Lut.ComposeInRange` | src/drmmode_display.c:789-798 | the index into the second table is in range for any first table |
| `Lut.ComposeMono` | src/drmmode_display.c:777-801 | two nondecreasing tables compose to a nondecreasing one |
| `Lut.ComposeEnds` | src/drmmode_display.c:793-798 | full-scale first tables reach both ends of the second |
| `Lut.ComposeOnLine` | src/drmmode_display.c:789-798 | the index is the full-scale position of the value on the line of the first table, rounded down |
| `Lut.ComposeChannel` | src/drmmode_display.c:777-801 | each output is the entry of the second table that the value on the line of the first points to |
| `Lut.LutCompose` | src/drmmode_display.c:731-806 | all three channels are so composed and `reserved` is zero |
| `GpuSync.AheadIsTrue` | src/amdgpu_glamor_wrappers.c:39-44 | the modular comparison is the true order while the spread is below half the range |
| `GpuSync.GrantedIsSynced` | src/amdgpu_glamor_wrappers.c:84-117 | an access granted while the flush counter is less than half its range ahead finds the recorded GPU accesses (or writes) done |
| `GpuSync.GrantsAreSynced` | src/amdgpu_glamor_wrappers.c:39-155 | the same for every access of any interleaving on any pixmaps |
| `GpuSync.SyncedByWaiting` | src/amdgpu_glamor_wrappers.c:50-82 | only an access that waits for the GPU counts as a synchronisation, with all that was flushed, and only a late one flushes |
| `GpuSync.AccessedAfterDone` | src/amdgpu_glamor_wrappers.c:39-155 | over any run, told by its accesses alone: a CPU access granted after a GPU write to the pixmap (or a read, for a CPU write) comes after a synchronisation with a later flush |
| `GpuSync.Screen.GlamorFlush` | src/amdgpu_glamor.c:450-459 | the flush counter advances by one |
| `GpuSync.Screen.GlamorFinish` | src/amdgpu_glamor.c:461-469 | it advances only with glamor |
| `GpuSync.Screen.FinishAccessGpu` | src/amdgpu_glamor_wrappers.c:143-155 | the pixmap's stamps name the next flush, and no other stamp changes |
| `GpuSync.Screen.PrepareAccessCpu` | src/amdgpu_glamor_wrappers.c:50-82 | when it succeeds, what it flushes, maps and synchronises |
| `GpuSync.Screen.PrepareAccess` | src/amdgpu_glamor_wrappers.c:84-117 | does with words what counters that do not wrap would do; on success all recorded accesses (or writes) are at most `gpu_synced` |
| `GpuSync.Screen.Drive` | src/amdgpu_glamor_wrappers.c:39-155 | over any interleaving the words grant exactly the accesses of the unbounded specification and reach its state |
| `GpuSync.MarkedIff` | src/amdgpu_kms.c:305-309 | a client is marked exactly if its mark is ahead, unless it lags 2^31 flushes |
| `GpuSync.ServerMarked` | src/amdgpu_kms.c:311-344 | a marked client implies that the server client is marked |
| `GpuSync.DamageIsFlushed` | src/amdgpu_kms.c:305-360 | in any run without such lag, damage sent to any client is flushed by the next server-wide request with the VT held, or before |
| `GpuSync.FlushHasCause` | src/amdgpu_kms.c:305-360 | a request flushes only with the VT held and after damage that no flush followed |
| `GpuSync.FlushMarks.EventCallback` | src/amdgpu_kms.c:311-344 | the marks after the events, for every state |
| `GpuSync.FlushMarks.FlushCallback` | src/amdgpu_kms.c:346-360 | whether it flushes, and the counter afterwards, for every state |
| `GpuSync.FlushMarks.Drive` | src/amdgpu_kms.c:305-360 | which callbacks of a run flush, as the specification says |

## Left out

- Probe, PreInit, ScreenInit, options, VT switches, udev, hotplug, leases: setup and I/O.
- DRI3, syncobj and fence wrappers, GC and Picture wrappers: they pass their arguments on and keep no state of their own.
- PRIME scanout, transformed scanout and Present flips through TearFree (`ignore_damage`): they depend on damage and pixmap semantics of the server.
- DRI2 buffer creation and exchange; CRTC coverage choice; cursor and output handling.
- QueueDriver.DrmQueue.QueueClose: abort procedures are taken not to re-enter the queue, as its list walk requires and as those of the driver do.
- FlipDriver.Driver.TakeFb: while a page flip that is being submitted waits for TearFree, handlers use the queue and read events, but submit no flip and set no mode; and nobody aborts the entry under submission.
- FlipDriver.Driver.DropPixmap: no handler destroys the pixmap whose FB a mode set that waits is about to use; the driver relies on it.
- FlipDriver.Driver.DoPageFlip: takes it that a CRTC with a scanout update under way has a scanout pixmap, so a failed re-creation of that pixmap is not modelled.
- FlipDriver.Driver.ScanoutFlip: assumes that the kernel takes at most one page flip per CRTC at a time.
- FlipModeset.AdhocModeIff: a run of the wait may hand on events before flips signalled earlier are handled. The driver handles those first, so a signalled flip counts as a threat even if every other CRTC of its request is pending without a handler, where the driver's order makes it harmless.
- QueueDriver.DrmQueue.HandleEvent: the retry of an interrupted read is folded into the batch that is finally read.
- QueueDriver.DrmQueue.EmulateEvent: the driver emulates only entries allocated as vblank waits; for a flip entry the model does nothing.
- TearFree.Scanout.CreateBuffers: a failed pixmap creation, after which the CRTC shows the screen pixmap itself, is not modelled.
- TearFree.Scanout.ScanoutModeset: a refused mode that ends TearFree while the second buffer is displayed makes the driver update the first one; the invariant speaks of the buffer the driver updates, and `shown` says what the kernel displays.
- Msc.MscNeverBack: assumes successful clock and vblank queries and a positive recorded rate.
- Msc.TimerNeverEarlyIff: 64-bit overflow and wrap-around of the 32-bit frame numbers are excluded.
- GpuSync.DamageIsFlushed: per-client flush guarantees are not stated, as the event callback returns early when the server is marked.
- FlipDriver and TearFree model the FB side and the pixel side of the same functions separately.
