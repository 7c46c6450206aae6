/**
 The driver paths that submit flips, wait for them and change modes, as methods on the
 driver's state. Each keeps the flip invariants and closes the waits it opens, whatever events
 come meanwhile and whatever driver calls their handlers make. A run ends when the server goes
 down, which it does in two ways only (see Falls).

 `scripts` holds, for each handler run in turn, the driver calls it makes; a handler beyond the
 last script makes none. Every finite execution is one choice of scripts and kernel replies.
 */
module FlipDriver {
  import opened QueueModel
  import opened QueueSafety
  import opened QueueDriver
  import opened Common
  import opened FbRefs
  import opened FlipModel
  import opened FlipSafety
  import opened FlipRuns
  import opened FlipSubmit
  import opened FlipEnv
  import opened FlipModeset
  import opened FlipDrain
  import opened FlipPaths

  class Driver {
    var w: World
    var scripts: seq<seq<Command>>
    var pins: set<nat>

    constructor (scripts: seq<seq<Command>>)
      ensures Idle(w) && w == EMPTY_WORLD && this.scripts == scripts && pins == {}
    {
      w, this.scripts, pins := EMPTY_WORLD, scripts, {};
      EmptyIdle();
    }

    // ----- Events -----

    /** A queue operation, the callback it runs, and the driver calls that one makes. */
    method Step(op: Op)
      requires Ready(w) && EnvOp(w, op)
      modifies this
      ensures Went(old(w), w, pins) && pins == old(pins) && |scripts| <= |old(scripts)|
      ensures !Down(w) ==> Kept(Apply(old(w).q, op), w.q)
      ensures |scripts| == |old(scripts)| ==> w == QueueStep(old(w), op)
      ensures !Down(w) && WaitOp(op) ==> Polled(old(w), w, pins)
      ensures !Down(w) && op == HandleVblank && old(w).building.None? ==> Drains(old(w), w)
      ensures !op.HandleFlip? && !op.HandleVblank? ==> w == QueueStep(old(w), op)
      ensures old(w).building.None? && old(scripts) != [] && Roused(old(w), QueueStep(old(w), op)) && !Down(w) ==>
                DidAll(QueueStep(old(w), op), old(scripts)[0], pins, w)
      ensures |scripts| == |old(scripts)| ==> !Down(w)
      decreases |scripts|, 1
    {
      hide WInv, QueueStep, Kept, Roused, Later, Submitting, Falls, DidAll;
      var before := w;
      OnwardStep(w, op, pins);
      w := QueueStep(w, op);
      KeptSelf(w.q);
      OnwardWent(before, w, pins);
      WaitsMove(before, Move(op, None));
      DrainsMove(before, None);
      if !op.HandleFlip? && !op.HandleVblank? {
        NotRoused(before, w, op);
      }
      if Roused(before, w) && scripts != [] {
        var script := scripts[0];
        scripts := scripts[1..];
        ghost var mid := w;
        RunCommands(script);
        WentTrans(before, mid, w, pins);
        if before.building.None? && !Down(w) {
          assert Legal(mid, w);
          WaitsMove(before, Move(op, Some(w)));
          DrainsMove(before, Some(w));
        }
      }
    }

    /** drmHandleEvent: hand each event to the queue. There is none for a flip not yet sent. */
    method ReadAll(events: seq<Event>)
      requires Ready(w)
      modifies this
      ensures Went(old(w), w, pins) && pins == old(pins) && |scripts| <= |old(scripts)|
      ensures !Down(w) ==> Polled(old(w), w, pins) && Reaches(old(w).q, w.q) && SameLevels(old(w).q, w.q)
      ensures !Down(w) && old(w).building.None? ==> Delivered(old(w).q, events, w.q)
      ensures |scripts| == |old(scripts)| ==> !Down(w)
      decreases |scripts|, 2
    {
      hide WInv, QueueStep, Kept, Reaches, SameLevels, Onward, Submitting, Apply, Falls, Delivered, After;
      PolledSelf(w, pins);
      OnwardWent(w, w, pins);
      LevelsSelf(w.q);
      DeliveredNone(w.q);
      for i := 0 to |events|
        invariant Ready(w) && Polled(old(w), w, pins) && pins == old(pins) && |scripts| <= |old(scripts)|
        invariant Reaches(old(w).q, w.q) && SameLevels(old(w).q, w.q)
        invariant w.building == old(w).building && (w.building.None? ==> Delivered(old(w).q, events[..i], w.q))
      {
        var op := ToOp(events[i]);
        ghost var here := w;
        assert events[..i + 1] == events[..i] + [events[i]];
        EnvSignal(w, events[i]);
        if EnvOp(w, op) {
          Step(op);
          WentTrans(old(w), here, w, pins);
          if Down(w) {
            return;
          }
          PolledTrans(old(w), here, w, pins);
          WaitOpKeepsLevels(old(w).q, here.q, op, w.q);
          if w.building.None? {
            KeptAfter(here.q, events[i], w.q);
            DeliveredOneMore(old(w).q, events[..i], here.q, events[i], w.q);
          }
        }
      }
      OnwardWent(old(w), w, pins);
      assert events[..|events|] == events;
    }

    /** amdgpu_drm_handle_vblank_signalled. */
    method HandleVblankSignalled()
      requires Ready(w)
      modifies this
      ensures Went(old(w), w, pins) && pins == old(pins) && |scripts| <= |old(scripts)|
      ensures !Down(w) ==> Polled(old(w), w, pins) && Kept(old(w).q, w.q) && w.q.vblanks == []
      ensures !Down(w) && old(w).building.None? ==> Drains(old(w), w)
      ensures !Down(w) ==> Repeats(HandleVblank, old(w).q, w.q)
      ensures |scripts| == |old(scripts)| ==> Env(old(w), w) && w.fbs == old(w).fbs && w.reqs == old(w).reqs
      ensures |scripts| == |old(scripts)| ==> !Down(w)
      decreases |scripts|, 2
    {
      hide WInv, QueueStep, Kept, Onward, Submitting, Apply, Falls, Drains, Repeats, DidAll;
      PolledSelf(w, pins);
      KeptSelf(w.q);
      EnvSelf(w);
      DrainsSelf(w);
      RepeatsSelf(HandleVblank, w.q);
      while w.q.vblanks != []
        invariant Ready(w) && Polled(old(w), w, pins) && pins == old(pins) && |scripts| <= |old(scripts)|
        invariant Kept(old(w).q, w.q) && w.building == old(w).building && (w.building.None? ==> Drains(old(w), w))
        invariant Repeats(HandleVblank, old(w).q, w.q)
        invariant |scripts| == |old(scripts)| ==> Env(old(w), w) && w.fbs == old(w).fbs && w.reqs == old(w).reqs
        decreases |scripts|, |w.q.vblanks|
      {
        ghost var here := w;
        VblankStep(w);
        EnvStep(w, HandleVblank);
        Step(HandleVblank);
        WentTrans(old(w), here, w, pins);
        if Down(w) {
          return;
        }
        PolledTrans(old(w), here, w, pins);
        RepeatsMore(HandleVblank, old(w).q, here.q, w.q);
        VblankKept(here.q);
        KeptTrans(here.q, Apply(here.q, HandleVblank), w.q);
        KeptTrans(old(w).q, here.q, w.q);
        if w.building.None? {
          DrainsTrans(old(w), here, w);
        }
        if |scripts| == |old(scripts)| {
          EnvTrans(old(w), here, w);
        }
      }
      OnwardWent(old(w), w, pins);
    }

    /** Handle the first signalled flip. */
    method HandleFirstFlip()
      requires Ready(w) && w.q.flips != []
      modifies this
      ensures Went(old(w), w, pins) && pins == old(pins) && |scripts| <= |old(scripts)|
      ensures !Down(w) ==> Polled(old(w), w, pins) && Kept(old(w).q, w.q) && Kept(Apply(old(w).q, HandleFlip), w.q)
      ensures |scripts| == |old(scripts)| ==> |w.q.flips| < |old(w).q.flips|
      ensures |scripts| == |old(scripts)| ==> !Down(w)
      decreases |scripts|, 2
    {
      ghost var here := w;
      StepFrame(w, HandleFlip);
      hide WInv, QueueStep, Kept, Onward, Submitting, Falls, DidAll;
      Step(HandleFlip);
      if !Down(w) {
        FlipKept(here.q);
        KeptTrans(here.q, Apply(here.q, HandleFlip), w.q);
      }
    }

    /** amdgpu_drm_handle_event: hand on the events in order, then run all signalled flips and
        vblanks. */
    method HandleEvent(batch: Batch) returns (ok: bool)
      requires Ready(w)
      modifies this
      ensures Went(old(w), w, pins) && pins == old(pins) && |scripts| <= |old(scripts)|
      ensures !Down(w) ==>
                Polled(old(w), w, pins) && Kept(old(w).q, w.q) && w.q.flips == [] && w.q.vblanks == [] && ok == batch.ok
      ensures !Down(w) && old(w).building.None? ==> HandlesBatch(old(w).q, batch.events, w.q)
      ensures |scripts| == |old(scripts)| ==> !Down(w)
      decreases |scripts|, 3
    {
      hide WInv, QueueStep, Reaches, SameLevels, Onward, Submitting, Apply, Kept, Falls, Delivered, Repeats;
      ReadAll(batch.events);
      ok := batch.ok;
      if Down(w) {
        return;
      }
      OnwardWent(old(w), w, pins);
      ghost var read := w.q;
      RepeatsSelf(HandleFlip, read);
      while w.q.flips != []
        invariant Ready(w) && Polled(old(w), w, pins) && pins == old(pins) && |scripts| <= |old(scripts)|
        invariant Reaches(old(w).q, w.q) && SameLevels(old(w).q, w.q)
        invariant Repeats(HandleFlip, read, w.q)
        decreases |scripts|, |w.q.flips|
      {
        ghost var here := w;
        HandleFirstFlip();
        WentTrans(old(w), here, w, pins);
        if Down(w) {
          return;
        }
        PolledTrans(old(w), here, w, pins);
        LevelsThen(old(w).q, here.q, w.q);
        RepeatsMore(HandleFlip, read, here.q, w.q);
      }
      ghost var here := w;
      HandleVblankSignalled();
      WentTrans(old(w), here, w, pins);
      if Down(w) {
        return;
      }
      PolledTrans(old(w), here, w, pins);
      LevelsThen(old(w).q, here.q, w.q);
      EmptyKept(old(w).q, here.q, w.q);
    }

    /** amdgpu_drm_wait_pending_flip: open a wait level, then handle flips and read events until
        no flip is pending for the CRTC or reading fails. */
    method WaitPendingFlip(crtc: nat, batches: seq<Batch>)
      requires Ready(w)
      modifies this
      ensures Went(old(w), w, pins) && pins == old(pins) && |scripts| <= |old(scripts)|
      ensures !Down(w) ==> Opened(old(w).q, w.q, crtc) && Waited(w, crtc)
      ensures !Down(w) && old(w).building.None? ==> WaitedOn(old(w), crtc, batches, w)
      ensures FlipPending(crtc) !in old(w).fbs.slots ==> w == QueueStep(old(w), OpenWait(crtc)) && w.fbs == old(w).fbs
      ensures |scripts| == |old(scripts)| ==> !Down(w)
      decreases |scripts|, 4, 1
    {
      hide WInv, Kept, Opened, Onward, Submitting, Apply, Falls, FlipsHandled, ReadUntil, Waits;
      OnwardStep(w, OpenWait(crtc), pins);
      OnwardReady(w, QueueStep(w, OpenWait(crtc)), pins);
      OpenOpened(w.q, crtc);
      OpenFbs(w, crtc);
      hide QueueStep;
      w := QueueStep(w, OpenWait(crtc));
      ghost var start := w;
      OnwardWent(old(w), w, pins);
      PolledSelf(w, pins);
      KeptSelf(w.q);
      NoneHandled(w, crtc);
      ghost var n: nat := 0;
      while FlipPending(crtc) in w.fbs.slots && w.q.flips != []
        invariant Ready(w) && Polled(start, w, pins) && pins == old(pins) && |scripts| <= |old(scripts)|
        invariant Kept(start.q, w.q) && (FlipPending(crtc) !in old(w).fbs.slots ==> w == start)
        invariant (w.building.None? ==> FlipsHandled(start, crtc, n, w)) && w.building == old(w).building
        decreases |scripts|, |w.q.flips|
      {
        ghost var here := w;
        HandleFirstFlip();
        WentTrans(start, here, w, pins);
        WentTrans(old(w), start, w, pins);
        if Down(w) {
          return;
        }
        PolledTrans(start, here, w, pins);
        KeptTrans(start.q, here.q, w.q);
        if w.building.None? {
          OneMoreHandled(start, crtc, n, here, w);
        }
        n := n + 1;
      }
      ghost var drained := w;
      ReadPending(crtc, batches);
      WentTrans(start, drained, w, pins);
      WentTrans(old(w), start, w, pins);
      if Down(w) {
        return;
      }
      PolledTrans(start, drained, w, pins);
      KeptTrans(start.q, drained.q, w.q);
      OpenedKept(old(w).q, start.q, w.q, crtc);
    }

    /** The second loop of amdgpu_drm_wait_pending_flip: read events until no flip is pending for the
        CRTC or reading fails. */
    method ReadPending(crtc: nat, batches: seq<Batch>)
      requires Ready(w) && Waited(w, crtc)
      modifies this
      ensures Went(old(w), w, pins) && pins == old(pins) && |scripts| <= |old(scripts)|
      ensures !Down(w) ==> Polled(old(w), w, pins) && Kept(old(w).q, w.q) && Waited(w, crtc)
      ensures !Down(w) && old(w).building.None? ==> ReadUntil(old(w), crtc, batches, w)
      ensures FlipPending(crtc) !in old(w).fbs.slots ==> w == old(w)
      ensures |scripts| == |old(scripts)| ==> !Down(w)
      decreases |scripts|, 4, 0
    {
      hide WInv, Kept, Onward, Submitting, Falls, HandlesBatch, EventsRead, Waits;
      ghost var seen: seq<Batch> := [];
      NoneHandled(w, crtc);
      PolledSelf(w, pins);
      KeptSelf(w.q);
      var i, more := 0, true;
      while FlipPending(crtc) in w.fbs.slots && more
        invariant Ready(w) && Polled(old(w), w, pins) && pins == old(pins) && |scripts| <= |old(scripts)|
        invariant Kept(old(w).q, w.q) && i <= |batches| && Waited(w, crtc) && w.building == old(w).building
        invariant FlipPending(crtc) !in old(w).fbs.slots ==> w == old(w) && seen == []
        invariant ReadOf(batches, seen) && (w.building.None? ==> EventsRead(old(w), crtc, seen, w))
        invariant if seen == [] then more && w == old(w) else old(w).q.flips == [] && more == seen[|seen| - 1].ok
        invariant more ==> seen == batches[..i]
        decreases if more then 1 else 0, |batches| - i
      {
        ghost var here := w;
        var batch := if i < |batches| then batches[i] else Batch([], false);
        more := HandleEvent(batch);
        WentTrans(old(w), here, w, pins);
        if Down(w) {
          return;
        }
        ReadMore(batches, i, batch);
        if w.building.None? {
          OneMoreRead(old(w), crtc, seen, here, batch, w);
        }
        seen := seen + [batch];
        i := if i < |batches| then i + 1 else i;
        PolledTrans(old(w), here, w, pins);
        KeptTrans(old(w).q, here.q, w.q);
      }
      OnwardWent(old(w), w, pins);
    }

    /** amdgpu_drm_queue_handle_deferred: close a wait level; nothing runs unless it was the
        last one. FBs and requests change only by driver calls that handlers make. */
    method HandleDeferred(crtc: nat)
      requires Ready(w)
      modifies this
      ensures Went(old(w), w, pins) && pins == old(pins) && |scripts| <= |old(scripts)|
      ensures !Down(w) ==> Closed(old(w).q, w.q, crtc)
      ensures !Down(w) && old(w).building.None? ==> HandlesDeferred(old(w), crtc, w)
      ensures Level(old(w).q, crtc) != 1 ==> w == QueueStep(old(w), CloseWait(crtc)) && scripts == old(scripts)
      ensures |scripts| == |old(scripts)| ==> Env(old(w), w) && w.fbs == old(w).fbs && w.reqs == old(w).reqs
      ensures |scripts| == |old(scripts)| ==> !Down(w)
      decreases |scripts|, 3
    {
      hide WInv, Kept, Closed, Onward, Submitting, Falls, Drains;
      OnwardStep(w, CloseWait(crtc), pins);
      OnwardWent(w, QueueStep(w, CloseWait(crtc)), pins);
      EnvStep(w, CloseWait(crtc));
      CloseFbs(w, crtc);
      var last := Level(w.q, crtc) == 1;
      if !last {
        ClosedPart(w.q, crtc);
      }
      hide QueueStep, Apply;
      w := QueueStep(w, CloseWait(crtc));
      if last {
        ghost var mid := w;
        HandleVblankSignalled();
        WentTrans(old(w), mid, w, pins);
        if Down(w) {
          return;
        }
        ClosedWhole(old(w).q, w.q, crtc);
        if |scripts| == |old(scripts)| {
          EnvTrans(old(w), mid, w);
        }
      }
    }

    /** The vblank of an entry the kernel will not signal: signal it, then open and close a wait
        level. At level zero its callback has then been run. */
    method EmulateEvent(crtc: nat, event: Event)
      requires Ready(w)
      modifies this
      ensures Went(old(w), w, pins) && pins == old(pins) && |scripts| <= |old(scripts)|
      ensures !Down(w) ==> Kept(old(w).q, w.q)
      ensures !Down(w) && old(w).building.None? ==> Emulated(old(w), crtc, event, w)
      ensures !Down(w) && old(w).building.None? && Level(old(w).q, crtc) == 0
              && (exists e :: e in old(w).q.pending && e.seqNo == event.seqNo && e.crtc == crtc && !e.isFlip)
              ==> Calls(w.q, event.seqNo) == 1
      ensures |scripts| == |old(scripts)| ==> !Down(w)
      decreases |scripts|, 4
    {
      hide WInv, Kept, Opened, Closed, Onward, Submitting, Apply, QueueStep, Falls, HandlesDeferred, Reaches;
      PolledSelf(w, pins);
      OnwardWent(w, w, pins);
      KeptSelf(w.q);
      EnvSignal(w, event);
      if FlipNumbered(w.q.pending, event.seqNo) || !EnvOp(w, ToOp(event)) {
        NotVblank(w, event.seqNo);
        return;
      }
      Step(ToOp(event));
      if Down(w) {
        return;
      }
      OnwardWent(old(w), w, pins);
      ghost var signalled := w;
      OnwardStep(w, OpenWait(crtc), pins);
      w := QueueStep(w, OpenWait(crtc));
      OnwardWent(signalled, w, pins);
      OnwardTrans(old(w), signalled, w, pins);
      EmulateOpened(old(w).q, event, signalled.q, crtc);
      ghost var raised := w;
      HandleDeferred(crtc);
      WentTrans(old(w), raised, w, pins);
      if Down(w) {
        return;
      }
      BracketKept(old(w).q, raised.q, w.q, crtc);
      EmulateReaches(old(w).q, event, signalled.q, w.q, crtc);
      if old(w).building.None? && Level(old(w).q, crtc) == 0 {
        EmulateCalls(old(w), event, w.q, crtc);
      }
    }

    // ----- FBs -----

    /** amdgpu_pixmap_get_fb: the pixmap's FB, created if it has none yet. */
    method PixmapGetFb(pixmap: nat, created: bool) returns (fb: Option<nat>)
      requires WInv(w)
      modifies this`w
      ensures WInv(w) && w == old(w).(fbs := w.fbs)
      ensures w == WithFb(old(w), pixmap, created)
      ensures fb.Some? <==> created || PixmapFb(pixmap) in old(w).fbs.slots
      ensures fb.Some? ==>
                PixmapFb(pixmap) in w.fbs.slots && w.fbs.slots[PixmapFb(pixmap)] == fb.value && fb.value in w.fbs.refcnt
      ensures forall s :: s in old(w).fbs.slots ==> s in w.fbs.slots && w.fbs.slots[s] == old(w).fbs.slots[s]
      ensures forall s :: s in w.fbs.slots && s != PixmapFb(pixmap) ==> s in old(w).fbs.slots
    {
      var slot := PixmapFb(pixmap);
      if slot in w.fbs.slots {
        return Some(w.fbs.slots[slot]);
      }
      if !created {
        return None;
      }
      PlainCreate(w, slot);
      w := w.(fbs := Create(w.fbs, slot));
      return Some(w.fbs.slots[slot]);
    }

    /** The FB part of destroying a pixmap (or of giving it another buffer). A pixmap that a
        driver path under way works on is not destroyed. */
    method DropPixmap(pixmap: nat)
      requires Idle(w) && pixmap !in pins
      modifies this`w
      ensures Onward(old(w), w, pins) && w == old(w).(fbs := w.fbs) &&
              w.fbs.slots == old(w).fbs.slots - {PixmapFb(pixmap)}
      ensures w == Dropped(old(w), pixmap)
    {
      hide WInv, Reference;
      Conserves(w);
      PlainReference(w, PixmapFb(pixmap), None);
      ReferenceConserves(w.fbs, PixmapFb(pixmap), None);
      w := w.(fbs := Reference(w.fbs, PixmapFb(pixmap), None));
      FbsOnward(old(w), w, pins);
    }

    /** Wait for the CRTC's flip, then abort its scanout update if one is still pending. */
    method AbortScanout(crtc: nat, batches: seq<Batch>) returns (waited: bool)
      requires Ready(w)
      modifies this
      ensures Went(old(w), w, pins) && pins == old(pins) && |scripts| <= |old(scripts)|
      ensures waited <==> crtc in old(w).scanout
      ensures !Down(w) ==> crtc !in w.scanout && Waiting(old(w).q, w.q, if waited then Some(crtc) else None)
      ensures !waited ==> w == old(w)
      ensures waited && !Down(w) && old(w).building.None? ==>
                exists u :: WaitedOn(old(w), crtc, batches, u) && w == UpdateAborted(u, crtc)
      ensures |scripts| == |old(scripts)| ==> !Down(w)
      decreases |scripts|, 5
    {
      hide WInv, Kept, Opened, Onward, Submitting, Apply, QueueStep, Falls, WaitedOn;
      PolledSelf(w, pins);
      OnwardWent(w, w, pins);
      KeptSelf(w.q);
      if crtc !in w.scanout {
        return false;
      }
      WaitPendingFlip(crtc, batches);
      waited := true;
      if Down(w) {
        return;
      }
      OnwardWent(old(w), w, pins);
      ghost var here := w;
      if crtc in w.scanout {
        ScanoutAborted(w, crtc);
        AbortKept(w.q, w.scanout[crtc]);
        w := QueueStep(w, AbortEntry(w.scanout[crtc]));
        w := w.(scanout := w.scanout - {crtc});
        EnvOnward(here, w, pins);
        OnwardTrans(old(w), here, w, pins);
        OnwardWent(old(w), w, pins);
        OpenedKept(old(w).q, here.q, w.q, crtc);
      }
      assert w == UpdateAborted(here, crtc);
    }

    // ----- Page flips -----

    /** The error path after an entry was allocated: abort it through the queue. */
    method FlipError(r: nat, crtc: nat)
      requires Accepted(w, r, crtc)
      requires FlipDataFb(r, crtc) !in w.fbs.slots || crtc !in w.scanout
      modifies this`w
      ensures Idle(w) && Grown(r, old(w), w) && Kept(old(w).q, w.q) && old(w).unsent.value !in w.live
      ensures NoNewPixmap(old(w), w, None)
      ensures r in w.reqs.active ==> w.reqs.active[r].count >= 0
    {
      var n := w.unsent.value;
      UnsentCounted(w, r);
      UnsentDone(w, r, crtc);
      BuiltKeeps(w.(unsent := None), r);
      w := w.(unsent := None, building := None);
      FbsGrown(r, old(w), w);
      ghost var here := w;
      EnvStep(w, AbortEntry(n));
      StepFrame(w, AbortEntry(n));
      AbortKept(w.q, n);
      AbortedDies(w, n);
      w := QueueStep(w, AbortEntry(n));
      EnvGrown(r, here, w);
      GrownTrans(r, old(w), here, w);
    }

    /** Look up the FB of a pixmap and give it to the request for one CRTC. */
    method GiveFb(crtc: nat, pixmap: nat, created: bool, r: nat) returns (ok: bool)
      requires Accepted(w, r, crtc) && FlipDataFb(r, crtc) !in w.fbs.slots
      modifies this`w
      ensures Accepted(w, r, crtc) && w == old(w).(fbs := w.fbs) && Grown(r, old(w), w)
      ensures ok <==> created || PixmapFb(pixmap) in old(w).fbs.slots
      ensures if ok then SamePixmap(w, pixmap, FlipDataFb(r, crtc)) else FlipDataFb(r, crtc) !in w.fbs.slots
      ensures NoNewPixmap(old(w), w, Some(pixmap))
    {
      hide WInv, Reference, Later;
      UnsentCounted(w, r);
      var fb := PixmapGetFb(pixmap, created);
      FbsGrown(r, old(w), w);
      if fb.None? {
        return false;
      }
      ghost var got := w;
      Conserves(w);
      SetFlipFbKeeps(w, r, crtc, fb.value);
      SlotPixmaps(w, FlipDataFb(r, crtc), fb);
      SlotNoPixmap(w, FlipDataFb(r, crtc), fb);
      SlotSet(w.fbs, FlipDataFb(r, crtc), fb.value);
      w := SetFlipFb(w, r, crtc, fb.value);
      FbsGrown(r, got, w);
      GrownTrans(r, old(w), got, w);
      assert SameAt(got, w, PixmapFb(pixmap));
      return true;
    }

    /** Give the request its FB for a CRTC; on a TearFree CRTC this is the spare scanout
        buffer's, and an update of the scanout still under way is waited for and aborted. */
    method TakeFb(a: Attempt, r: nat, front: nat) returns (ok: bool, waited: bool)
      requires Accepted(w, r, a.crtc) && PixmapFb(front) in w.fbs.slots && FlipDataFb(r, a.crtc) !in w.fbs.slots
      requires !a.tearFree ==> a.crtc !in w.scanout
      modifies this
      ensures Accepted(w, r, a.crtc) && w.unsent == old(w).unsent && pins == old(pins) && |scripts| <= |old(scripts)|
      ensures if ok then FlipDataFb(r, a.crtc) in w.fbs.slots && a.crtc !in w.scanout
              else FlipDataFb(r, a.crtc) !in w.fbs.slots
      ensures ok ==> SamePixmap(w, if a.tearFree then a.pixmap else front, FlipDataFb(r, a.crtc))
      ensures ok <==> a.pixmapFb || PixmapFb(if a.tearFree then a.pixmap else front) in old(w).fbs.slots
      ensures Grown(r, old(w), w) && NoNewPixmap(old(w), w, if a.tearFree then Some(a.pixmap) else None)
      ensures waited <==> ok && a.tearFree && a.crtc in old(w).scanout
      ensures Waiting(old(w).q, w.q, if waited then Some(a.crtc) else None)
      ensures forall s: nat :: IsFlip(w.q.issued, s, r) ==> IsFlip(old(w).q.issued, s, r)
      decreases |scripts|, 6
    {
      hide WInv, Kept, Opened, Onward, Apply, QueueStep, Reference, Later, WaitedOn;
      UnsentCounted(w, r);
      KeptSelf(w.q);
      waited := false;
      ok := GiveFb(a.crtc, if a.tearFree then a.pixmap else front, a.pixmapFb, r);
      if ok && a.tearFree {
        ghost var before := w;
        waited := AbortScanout(a.crtc, a.batches);
        WentBuilding(before, w, pins);
        OnwardEnv(before, w, pins);
        EnvGrown(r, before, w);
        IssuedGrows(before, w, r);
        GrownTrans(r, old(w), before, w);
        assert Untouched(before, FlipDataFb(r, a.crtc)) && Untouched(before, PixmapFb(a.pixmap));
      }
    }

    /** Submit the flip of one CRTC whose entry is allocated. */
    method SubmitOn(a: Attempt, r: nat, flip: Flip) returns (ok: bool, waited: bool)
      requires Accepted(w, r, a.crtc) && PixmapFb(flip.front) in w.fbs.slots && FlipDataFb(r, a.crtc) !in w.fbs.slots
      requires a.memory && (!a.tearFree ==> a.crtc !in w.scanout) && Named(w.q.issued, w.unsent.value, flip)
      modifies this
      ensures pins == old(pins) && |scripts| <= |old(scripts)|
      ensures ok ==> Building(w, r) && w.reqs.active[r].count > 0 && UnderWay(w, a, r, flip)
      ensures ok ==> forall s: nat :: IsFlip(w.q.issued, s, r) ==> IsFlip(old(w).q.issued, s, r)
      ensures ok <==> CanSubmit(a, flip, old(w).fbs.slots)
      ensures !ok ==> Idle(w) && (r in w.reqs.active ==> w.reqs.active[r].count >= 0) && old(w).unsent.value !in w.live
      ensures Grown(r, old(w), w) && NoNewPixmap(old(w), w, if a.tearFree then Some(a.pixmap) else None)
      ensures waited ==> a.tearFree
      ensures Waiting(old(w).q, w.q, if waited then Some(a.crtc) else None)
      decreases |scripts|, 7
    {
      hide WInv, Kept, Opened, Apply, QueueStep, Reference, Later;
      UnsentCounted(w, r);
      KeptSelf(w.q);
      if a.tearFree && flip.async {
        if !a.sent {
          FlipError(r, a.crtc);
          return false, false;
        }
        UnsentDone(w, r, a.crtc);
        w := w.(unsent := None);
        FbsGrown(r, old(w), w);
        return true, false;
      }
      ok, waited := TakeFb(a, r, flip.front);
      ghost var taken := w;
      IssuedGrows(old(w), w, r);
      UnsentCounted(w, r);
      if !ok || !a.sent {
        FlipError(r, a.crtc);
        GrownTrans(r, old(w), taken, w);
        WaitingKept(old(w).q, taken.q, w.q, if waited then Some(a.crtc) else None);
        return false, waited;
      }
      SentKeeps(w, r, a.crtc);
      ghost var fb := w.fbs.slots[FlipDataFb(r, a.crtc)];
      HeldAlive(w, FlipDataFb(r, a.crtc));
      Conserves(w);
      SlotPixmaps(w, FlipPending(a.crtc), Some(fb));
      SlotNoPixmap(w, FlipPending(a.crtc), Some(fb));
      SlotSet(w.fbs, FlipPending(a.crtc), fb);
      w := Sent(w, r, a.crtc);
      FbsGrown(r, taken, w);
      GrownTrans(r, old(w), taken, w);
      assert SameAt(taken, w, PixmapFb(if a.tearFree then a.pixmap else flip.front));
      assert IsFlipOn(w.q.issued, old(w).unsent.value, r, a.crtc) && Named(w.q.issued, old(w).unsent.value, flip);
    }

    /** Count a CRTC and allocate its queue entry. */
    method AcceptOn(crtc: nat, r: nat, flip: Flip)
      requires Building(w, r) && forall s: nat :: !IsFlipOn(w.q.issued, s, r, crtc)
      modifies this`w
      ensures Accepted(w, r, crtc) && FlipDataFb(r, crtc) !in w.fbs.slots && Named(w.q.issued, w.unsent.value, flip)
      ensures w.fbs == old(w).fbs && w.scanout == old(w).scanout && Grown(r, old(w), w) && Kept(old(w).q, w.q)
      ensures forall s: nat :: IsFlip(w.q.issued, s, r) ==>
              IsFlip(old(w).q.issued, s, r) || w.q.issued[s - 1].crtc == crtc
    {
      hide WInv, QueueStep, Accept, Apply, FbInv, Inv, QueueInv, Kept, ReqCounts, ReqOutcomes, ReqTimes, ReqLast;
      hide OnePerCrtc, ScanoutInv;
      AcceptKeeps(w, r, crtc, flip.client, flip.id);
      Parts(w);
      AcceptShape(w, r, crtc, flip.client, flip.id);
      NoFlipFb(w.fbs, w.q.issued, w.live, w.unsent, r, crtc);
      UserOpKept(w.q, FlipAlloc(r, crtc, flip.client, flip.id));
      RequestKnown(w, r);
      w := Accept(w, r, crtc, flip.client, flip.id);
    }

    /** No queue entry could be allocated for a CRTC that was counted. */
    method NoEntry(crtc: nat, r: nat)
      requires Building(w, r) && forall s: nat :: !IsFlipOn(w.q.issued, s, r, crtc)
      requires w.reqs.active[r].count == 0 ==> forall s: nat :: !IsFlip(w.q.issued, s, r)
      modifies this`w
      ensures Idle(w) && w.q == old(w).q && w.fbs == old(w).fbs && Grown(r, old(w), w)
      ensures r in w.reqs.active ==> w.reqs.active[r].count >= 0
      ensures r in w.reqs.active <==> old(w).reqs.active[r].count > 0
    {
      AcceptFailsKeeps(w, r, crtc);
      AcceptFailsGrown(w, r, crtc);
      assert Counted(w.reqs.active[r], Entries(w.q.issued, w.live, r), true);
      hide WInv, Later, AcceptFails;
      w := AcceptFails(w, r, crtc);
    }

    /** One round of the CRTC loop of amdgpu_do_pageflip. Only the reference CRTC is waited for. */
    method FlipOnCrtc(a: Attempt, r: nat, flip: Flip, busy: set<nat>) returns (p: Progress, waited: bool)
      requires Building(w, r) && PixmapFb(flip.front) in w.fbs.slots && w.scanout.Keys <= busy
      requires forall s: nat :: !IsFlipOn(w.q.issued, s, r, a.crtc)
      requires w.reqs.active[r].count == 0 ==> forall s: nat :: !IsFlip(w.q.issued, s, r)
      modifies this
      ensures pins == old(pins) && |scripts| <= |old(scripts)|
      ensures p == if !Passes(a, flip.ref, busy) then Skipped
                   else if CanSubmit(a, flip, old(w).fbs.slots) then Queued else Failed
      ensures p.Skipped? ==> w == old(w) && !waited
      ensures p.Queued? ==> Building(w, r) && w.reqs.active[r].count > 0 && UnderWay(w, a, r, flip)
      ensures p.Queued? ==> forall s: nat :: IsFlip(w.q.issued, s, r) ==>
              IsFlip(old(w).q.issued, s, r) || w.q.issued[s - 1].crtc == a.crtc
      ensures p.Failed? ==> Idle(w) && (r in w.reqs.active ==> w.reqs.active[r].count >= 0)
      ensures Grown(r, old(w), w) && NoNewPixmap(old(w), w, if a.tearFree then Some(a.pixmap) else None)
      ensures waited ==> flip.ref == Some(a.crtc)
      ensures Waiting(old(w).q, w.q, if waited then Some(a.crtc) else None)
      decreases |scripts|, 8, 0
    {
      hide WInv, Kept, Opened, Apply, QueueStep, Reference, Later;
      RequestKnown(w, r);
      GrownSelf(r, w);
      KeptSelf(w.q);
      if !a.canFlip || (!a.tearFree && a.crtc in busy) || (a.tearFree && flip.ref != Some(a.crtc)) {
        return Skipped, false;
      }
      if !a.memory {
        NoEntry(a.crtc, r);
        return Failed, false;
      }
      AcceptOn(a.crtc, r, flip);
      ghost var here := w;
      var ok;
      ok, waited := SubmitOn(a, r, flip);
      GrownTrans(r, old(w), here, w);
      KeptWaiting(old(w).q, here.q, w.q, if waited then Some(a.crtc) else None);
      if ok {
        IssuedGrows(here, w, r);
      }
      p := if ok then Queued else Failed;
    }

    /** The CRTC loop of amdgpu_do_pageflip: whether some CRTC took part, whether none that did
        failed, and whether a wait was opened. There is at most one, on the reference CRTC. */
    method FlipCrtcs(r: nat, flip: Flip) returns (taken: bool, ok: bool, deferred: bool)
      requires Begun(w, r, flip.front) && Distinct(flip.attempts)
      modifies this
      ensures pins == old(pins) && |scripts| <= |old(scripts)|
      ensures taken <==> SomePass(flip, old(w).scanout.Keys)
      ensures ok <==> AllSubmit(flip, old(w).scanout.Keys, old(w).fbs.slots)
      ensures LoopOver(old(w), w, r, flip, taken, ok, deferred)
      decreases |scripts|, 9
    {
      hide *;
      LoopStarts(w, r, flip);
      var busy := w.scanout.Keys;
      taken, ok, deferred := false, true, false;
      for i := 0 to |flip.attempts|
        invariant ok && pins == old(pins) && |scripts| <= |old(scripts)|
        invariant Looped(old(w), w, r, flip, i, taken, deferred)
      {
        taken, ok, deferred := Round(old(w), r, flip, busy, i, taken, deferred);
        if !ok {
          return;
        }
      }
      LoopEnds(old(w), w, r, flip, taken, deferred);
    }

    /** One round of that loop. */
    method Round(ghost start: World, r: nat, flip: Flip, busy: set<nat>, i: nat, taken: bool, deferred: bool)
      returns (taken': bool, ok: bool, deferred': bool)
      requires i < |flip.attempts| && Distinct(flip.attempts) && Begun(start, r, flip.front)
      requires Looped(start, w, r, flip, i, taken, deferred) && busy == start.scanout.Keys
      modifies this
      ensures pins == old(pins) && |scripts| <= |old(scripts)|
      ensures ok ==> Looped(start, w, r, flip, i + 1, taken', deferred')
      ensures !ok ==> taken' && LoopOver(start, w, r, flip, taken', ok, deferred')
      ensures !ok ==> SomePass(flip, busy) && !AllSubmit(flip, busy, start.fbs.slots)
      decreases |scripts|, 8, 1
    {
      hide WInv, HasEntry, Entered, FromFirst, Among, Waiting, Grown, NoNewPixmap, CanSubmit;
      ghost var before := w;
      var a := flip.attempts[i];
      PixmapStays(r, start, w, flip.front);
      NotYet(w.q.issued, r, flip.attempts, i, if deferred then flip.ref else None);
      if Passes(a, flip.ref, busy) {
        SameChance(r, start, w, flip, i);
      }
      var p, waited := FlipOnCrtc(a, r, flip, busy);
      GrownTrans(r, start, before, w);
      LoopWait(start.q, before.q, w.q, flip.ref, a.crtc, deferred, waited);
      taken', ok, deferred' := taken || !p.Skipped?, !p.Failed?, deferred || waited;
      AmongNext(flip.attempts, i, if deferred' then flip.ref else None);
      IssuedGrows(before, w, r);
      if ok {
        RoundDone(before, w, r, flip, i, start);
        PixmapsNext(start, before, w, flip, i);
      }
    }

    /** amdgpu_do_pageflip over the CRTCs of the screen. Memory or the front FB may be missing,
        and each CRTC may fail at any point. After the last CRTC the deferred events are handled,
        and only then flipdata is read: if the request is over by now, that is an access to freed
        memory. */
    method DoPageFlip(flip: Flip, memory: bool, frontFb: bool) returns (ok: bool, r: nat)
      requires Idle(w) && |flip.attempts| > 0 && Distinct(flip.attempts)
      modifies this
      ensures Went(old(w), w, pins) && pins == old(pins) && |scripts| <= |old(scripts)| && r == |old(w).reqs.refs|
      ensures |scripts| == |old(scripts)| ==> !Down(w)
      ensures !Down(w) ==> Kept(old(w).q, w.q) && PageFlipDone(old(w), flip, memory, frontFb, ok, w)
      decreases |scripts|, 10
    {
      hide WInv, Kept, Opened, Closed, Falls, HandlesDeferred, Rousable, Passes, CanSubmit, HasEntry;
      r := |w.reqs.refs|;
      var ready := Setup(flip.ref, flip.front, memory, frontFb);
      ghost var begun := w;
      if !ready {
        GrownOnwardFrom(r, old(w), begun, w, pins);
        OnwardWent(old(w), w, pins);
        return false, r;
      }
      SetupChance(old(w), begun, flip);
      var taken, fine, deferred := FlipCrtcs(r, flip);
      KeptWaiting(old(w).q, begun.q, w.q, if deferred then flip.ref else None);
      ghost var looped := w;
      if !taken {
        Orphan(r, flip.attempts[|flip.attempts| - 1].crtc);
        GrownOnwardFrom(r, old(w), begun, w, pins);
        OnwardWent(old(w), w, pins);
        return false, r;
      }
      if fine {
        Built(r);
        GrownTrans(r, begun, looped, w);
        EachEntryStays(looped, w, r, flip, old(w).scanout.Keys);
      }
      GrownOnwardFrom(r, old(w), begun, w, pins);
      OnwardWent(old(w), w, pins);
      ghost var built := w;
      ok := fine;
      if !deferred {
        return;
      }
      HandleDeferred(flip.ref.value);
      WentTrans(old(w), built, w, pins);
      if Down(w) {
        return;
      }
      BracketKept(old(w).q, built.q, w.q, flip.ref.value);
      if fine {
        if r !in w.reqs.active {
          CalmEnds(built, flip.ref.value, r, w);
          FreedFalls(old(w), built, flip.ref.value, r, w, pins);
          w := w.(reqs := w.reqs.(fault := true));
          return;
        }
        Unfinished(w, r);
        EachEntryStays(built, w, r, flip, old(w).scanout.Keys);
      }
    }

    /** Allocate flipdata and look up the front FB; abort at once if one is missing. */
    method Setup(ref: Option<nat>, front: nat, memory: bool, frontFb: bool) returns (ready: bool)
      requires Idle(w)
      modifies this`w
      ensures ready <==> memory && (frontFb || PixmapFb(front) in old(w).fbs.slots)
      ensures Later(|old(w).reqs.refs|, old(w), w) && PixmapsKept(old(w), w) && Kept(old(w).q, w.q)
      ensures w.reqs.refs == old(w).reqs.refs + [ref] && w.scanout == old(w).scanout
      ensures NoNewPixmap(old(w), w, Some(front))
      ensures !ready ==> Idle(w) && |old(w).reqs.refs| !in w.reqs.active
      ensures !ready ==>
                w.reqs.outcomes == old(w).reqs.outcomes + [Outcome(|old(w).reqs.refs|, false, None, 0, 0, None)]
      ensures ready ==> Begun(w, |old(w).reqs.refs|, front)
    {
      hide WInv, Kept, ReqCounts, ReqOutcomes, QueueInv, Inv, FbInv, ReqTimes, ReqLast, OnePerCrtc, ScanoutInv, Create;
      hide Later;
      KeptSelf(w.q);
      Parts(w);
      NewRequest(w, |w.reqs.refs|);
      RejectKeeps(w, ref);
      if !memory {
        w := Reject(w, ref);
        LaterRequest(old(w), w, |old(w).reqs.refs|);
        return false;
      }
      var fb := PixmapGetFb(front, frontFb);
      if fb.None? {
        RejectKeeps(w, ref);
        w := Reject(w, ref);
        LaterRequest(old(w), w, |old(w).reqs.refs|);
        return false;
      }
      BeginKeeps(w, ref);
      w := Begin(w, ref);
      LaterRequest(old(w), w, |old(w).reqs.refs|);
      return true;
    }

    /** The error path when no CRTC took part. */
    method Orphan(r: nat, crtc: nat)
      requires Building(w, r) && w.reqs.active[r].count == 0 && forall s: nat :: !IsFlip(w.q.issued, s, r)
      modifies this`w
      ensures Idle(w) && r in w.reqs.active && w.reqs.active[r].count == -1
      ensures Grown(r, old(w), w) && w.q == old(w).q
    {
      OrphanKeeps(w, r, crtc);
      RequestKnown(w, r);
      w := w.(fbs := FlipAbortFbs(w.fbs, r, crtc), reqs := FlipAbortReq(w.reqs, r, crtc, None), building := None);
      LaterRequest(old(w), w, r);
    }

    /** All CRTCs of the request are submitted. */
    method Built(r: nat)
      requires Building(w, r) && w.reqs.active[r].count > 0
      modifies this`w
      ensures Idle(w) && w == old(w).(building := None) && Grown(r, old(w), w)
    {
      BuiltKeeps(w, r);
      RequestKnown(w, r);
      w := w.(building := None);
      FbsGrown(r, old(w), w);
    }

    // ----- TearFree -----

    /** amdgpu_scanout_flip on a TearFree CRTC: flip to the FB of the spare scanout pixmap. The
        kernel takes the flip only if it has no other flip for the CRTC. If it does, the CRTC
        has a TearFree flip under way whose FB flip_pending holds; if it does not, the damage is
        copied at the next vblank, or now if there is none, and the spare pixmap is destroyed. */
    method ScanoutFlip(crtc: nat, pixmap: nat, created: bool, memory: bool, sent: bool, vblank: bool,
                       again: Option<Mode>)
      requires Idle(w) && pixmap !in pins
      modifies this
      ensures Went(old(w), w, pins) && pins == old(pins) && |scripts| <= |old(scripts)|
      ensures !Down(w) ==> Kept(old(w).q, w.q)
      ensures !Down(w) ==> ScanoutFlipped(old(w), crtc, pixmap, created, memory, sent, vblank, Allowed(again, pins), w)
      ensures crtc in old(w).scanout || FlipPending(crtc) in old(w).fbs.slots ==> w == old(w)
      ensures var takes := crtc !in old(w).scanout && FlipPending(crtc) !in old(w).fbs.slots && memory
                           && (created || PixmapFb(pixmap) in old(w).fbs.slots);
              var n := NextSeqNo(old(w).q);
              if takes && sent && !KernelBusy(old(w), crtc) then
                && crtc in w.scanout && w.scanout[crtc] == n && n in w.live && SamePixmap(w, pixmap, FlipPending(crtc))
                && IsScanoutFlip(w.q.issued, n, crtc, w.fbs.slots[FlipPending(crtc)])
              else takes && !Down(w) ==>
                && PixmapFb(pixmap) !in w.fbs.slots
                && (vblank && again.None? ==>
                      && FlipPending(crtc) !in w.fbs.slots && crtc in w.scanout && w.scanout[crtc] in w.live
                      && IsScanout(w.q.issued, w.scanout[crtc], crtc))
      decreases |scripts|, 12
    {
      hide WInv, Kept, Falls, UpdateDone, SendScanoutFlip, RefuseScanoutFlip, Reference;
      PolledSelf(w, pins);
      OnwardWent(w, w, pins);
      KeptSelf(w.q);
      if crtc in w.scanout || FlipPending(crtc) in w.fbs.slots {
        return;
      }
      var fb := PixmapGetFb(pixmap, created);
      ghost var got := w;
      FbsOnward(old(w), w, pins);
      OnwardWent(old(w), w, pins);
      if fb.None? || !memory {
        return;
      }
      if sent && !KernelBusy(w, crtc) {
        SendFlip(crtc, pixmap);
        OnwardTrans(old(w), got, w, pins);
        OnwardWent(old(w), w, pins);
      } else {
        RefuseFlip(crtc, fb.value);
        OnwardTrans(old(w), got, w, pins);
        ghost var refused := w;
        ScanoutUpdate(crtc, true, memory, vblank, again);
        WentTrans(old(w), refused, w, pins);
        if Down(w) {
          return;
        }
        KeptTrans(old(w).q, refused.q, w.q);
        ghost var updated := w;
        DropPixmap(pixmap);
        OnwardTrans(old(w), updated, w, pins);
        OnwardWent(old(w), w, pins);
      }
    }

    /** The kernel takes the TearFree flip. */
    method SendFlip(crtc: nat, pixmap: nat)
      requires Idle(w) && crtc !in w.scanout && PixmapFb(pixmap) in w.fbs.slots && !KernelBusy(w, crtc)
      modifies this`w
      ensures Onward(old(w), w, pins) && Kept(old(w).q, w.q)
      ensures w.scanout == old(w).scanout[crtc := NextSeqNo(old(w).q)] && NextSeqNo(old(w).q) in w.live
      ensures SamePixmap(w, pixmap, FlipPending(crtc)) &&
              w.fbs.slots[PixmapFb(pixmap)] == old(w).fbs.slots[PixmapFb(pixmap)]
      ensures IsScanoutFlip(w.q.issued, NextSeqNo(old(w).q), crtc, w.fbs.slots[FlipPending(crtc)])
      ensures w == SendScanoutFlip(old(w), crtc, old(w).fbs.slots[PixmapFb(pixmap)])
    {
      var fb := w.fbs.slots[PixmapFb(pixmap)];
      hide WInv, KernelBusy, KernelIdle, SendScanoutFlip, Onward, Kept;
      BusyNot(w, crtc);
      HeldAlive(w, PixmapFb(pixmap));
      FlipSent(w, crtc, fb, pins);
      w := SendScanoutFlip(w, crtc, fb);
      assert SameAt(old(w), w, PixmapFb(pixmap));
    }

    /** The kernel refuses the TearFree flip. */
    method RefuseFlip(crtc: nat, fb: nat)
      requires Idle(w) && crtc !in w.scanout && FlipPending(crtc) !in w.fbs.slots
      modifies this`w
      ensures Onward(old(w), w, pins) && Kept(old(w).q, w.q) && w == old(w).(q := w.q)
      ensures w == RefuseScanoutFlip(old(w), crtc, fb)
      ensures |w.q.log| == |old(w).q.log| + 1 && w.q.log[|old(w).q.log|].aborted
      ensures var e := w.q.log[|old(w).q.log|].entry; e.procs.ScanoutFlip? && e.crtc == crtc && e.data == fb
    {
      hide WInv, QueueStep, Kept, Apply, Inv, QueueInv, FbInv, RefuseScanoutFlip, IndexOf;
      hide ReqCounts, ReqOutcomes, OnePerCrtc, ReqTimes, ReqLast, ScanoutInv;
      Parts(w);
      RefuseScanoutFlipKeeps(w, crtc, fb);
      RefuseShape(w, crtc, fb);
      IssueShape(w, ScanoutAlloc(crtc, fb));
      IssueAbort(w.q, ScanoutAlloc(crtc, fb));
      ghost var q1 := Apply(w.q, ScanoutAlloc(crtc, fb));
      UserOpKept(w.q, ScanoutAlloc(crtc, fb));
      UserOpKept(q1, AbortEntry(|w.q.issued| + 1));
      KeptTrans(w.q, q1, Apply(q1, AbortEntry(|w.q.issued| + 1)));
      w := RefuseScanoutFlip(w, crtc, fb);
      assert forall s: nat, r: nat :: IsFlip(w.q.issued, s, r) ==> IsFlip(old(w).q.issued, s, r);
    }

    /** amdgpu_scanout_update, up to the copy: `due` says that the CRTC shows some of the damage.
        Without a queue entry the copy is done at once, without a vblank its event is emulated.
        If a vblank can be had again after both kinds of requests failed, the mode is set anew. */
    method ScanoutUpdate(crtc: nat, due: bool, memory: bool, vblank: bool, again: Option<Mode>)
      requires Idle(w)
      modifies this
      ensures Went(old(w), w, pins) && pins == old(pins) && |scripts| <= |old(scripts)|
      ensures !Down(w) ==> Kept(old(w).q, w.q)
      ensures !Down(w) ==> UpdateDone(old(w), crtc, due, memory, vblank, Allowed(again, pins), w)
      ensures !due || crtc in old(w).scanout || FlipPending(crtc) in old(w).fbs.slots || !memory ==> w == old(w)
      ensures due && crtc !in old(w).scanout && FlipPending(crtc) !in old(w).fbs.slots && memory && vblank
              && again.None? ==>
                && w.fbs == old(w).fbs && w.reqs == old(w).reqs
                && crtc in w.scanout && w.scanout[crtc] in w.live && IsScanout(w.q.issued, w.scanout[crtc], crtc)
      decreases |scripts|, 11
    {
      hide WInv, QueueStep, Kept, Apply, Inv, QueueInv, FbInv, Later, Falls, Emulated, ModeChanged, SendScanoutUpdate;
      hide ReqCounts, ReqOutcomes, OnePerCrtc, ReqTimes, ReqLast, ScanoutInv;
      PolledSelf(w, pins);
      OnwardWent(w, w, pins);
      KeptSelf(w.q);
      if !due || crtc in w.scanout || FlipPending(crtc) in w.fbs.slots || !memory {
        return;
      }
      var n := NextSeqNo(w.q);
      RequestUpdate(crtc);
      ghost var here := w;
      OnwardWent(old(w), w, pins);
      if !vblank {
        EmulateEvent(crtc, Event(n, 0, 0, 0));
      } else if again.Some? {
        ChangeMode(crtc, again.value);
      } else {
        return;
      }
      WentTrans(old(w), here, w, pins);
      if !Down(w) {
        KeptTrans(old(w).q, here.q, w.q);
      }
    }

    /** Allocate the entry of a scanout update. */
    method RequestUpdate(crtc: nat)
      requires Idle(w) && crtc !in w.scanout
      modifies this`w
      ensures Onward(old(w), w, pins) && Kept(old(w).q, w.q) && w.fbs == old(w).fbs && w.reqs == old(w).reqs
      ensures crtc in w.scanout && w.scanout[crtc] in w.live && IsScanout(w.q.issued, w.scanout[crtc], crtc)
      ensures w == SendScanoutUpdate(old(w), crtc)
    {
      hide WInv, QueueStep, Kept, Apply, Inv, QueueInv, FbInv, Later;
      hide ReqCounts, ReqOutcomes, OnePerCrtc, ReqTimes, ReqLast, ScanoutInv;
      Parts(w);
      SendScanoutUpdateKeeps(w, crtc);
      IssueShape(w, UpdateAlloc(crtc));
      IssueLater(w, UpdateAlloc(crtc));
      UserOpKept(w.q, UpdateAlloc(crtc));
      w := SendScanoutUpdate(w, crtc);
      SameRequests(old(w), QueueStep(old(w), UpdateAlloc(crtc)), w);
    }

    /** drmmode_crtc_scanout_free: end the scanout update, then destroy both pixmaps. */
    method ScanoutFree(crtc: nat, pixmaps: Scanouts)
      requires Idle(w) && Free(Some(pixmaps), pins)
      modifies this
      ensures Went(old(w), w, pins) && pins == old(pins) && |scripts| <= |old(scripts)|
      ensures !Down(w) ==> Kept(old(w).q, w.q)
      ensures !Down(w) ==> Freed(old(w), crtc, pixmaps, w)
      ensures !Down(w) ==> PixmapFb(pixmaps.first) !in w.fbs.slots && PixmapFb(pixmaps.second) !in w.fbs.slots
      ensures |scripts| == |old(scripts)| ==> crtc !in w.scanout
      ensures |scripts| == |old(scripts)| ==> !Down(w)
      decreases |scripts|, 6
    {
      hide WInv, Kept, Opened, Closed, Later, Falls, HandlesDeferred, WaitedOn, Reference, UpdateAborted;
      var waited := AbortScanout(crtc, pixmaps.batches);
      if Down(w) {
        return;
      }
      if waited {
        ghost var here := w;
        HandleDeferred(crtc);
        WentTrans(old(w), here, w, pins);
        if Down(w) {
          return;
        }
        BracketKept(old(w).q, here.q, w.q, crtc);
        assert UpdateEnded(old(w), crtc, pixmaps.batches, w);
      }
      ghost var first := w;
      DropPixmap(pixmaps.first);
      ghost var second := w;
      DropPixmap(pixmaps.second);
      OnwardTrans(first, second, w, pins);
      OnwardTrans(old(w), first, w, pins);
      OnwardWent(old(w), w, pins);
    }

    // ----- Power and modes -----

    /** drmmode_crtc_dpms to off: wait for the flip of a CRTC that was on, then stop scanning out. */
    method DpmsOff(crtc: nat, wasOn: bool, batches: seq<Batch>)
      requires Idle(w)
      modifies this
      ensures Went(old(w), w, pins) && pins == old(pins) && |scripts| <= |old(scripts)|
      ensures !Down(w) ==> Kept(old(w).q, w.q) && CrtcFb(crtc) !in w.fbs.slots
      ensures !Down(w) ==> SwitchedOff(old(w), crtc, wasOn, batches, w)
      ensures |scripts| == |old(scripts)| ==> !Down(w)
      decreases |scripts|, 6
    {
      hide WInv, Kept, Opened, Closed, Later, Reference, Falls, HandlesDeferred, WaitedOn, LosesFb;
      PolledSelf(w, pins);
      KeptSelf(w.q);
      if wasOn {
        WaitPendingFlip(crtc, batches);
        if Down(w) {
          return;
        }
        ghost var here := w;
        HandleDeferred(crtc);
        WentTrans(old(w), here, w, pins);
        if Down(w) {
          return;
        }
        BracketKept(old(w).q, here.q, w.q, crtc);
        assert FlipAwaited(old(w), crtc, batches, w);
      }
      ghost var off := w;
      StopScanout(crtc);
      OnwardTrans(old(w), off, w, pins);
      OnwardWent(old(w), w, pins);
    }

    method StopScanout(crtc: nat)
      requires Idle(w)
      modifies this`w
      ensures Onward(old(w), w, pins) && w == LosesFb(old(w), crtc) && w.q == old(w).q && CrtcFb(crtc) !in w.fbs.slots
    {
      hide WInv, Reference;
      Conserves(w);
      PlainReference(w, CrtcFb(crtc), None);
      ReferenceConserves(w.fbs, CrtcFb(crtc), None);
      w := LosesFb(w, crtc);
      FbsOnward(old(w), w, pins);
    }

    /** The end of drmmode_set_mode: the CRTC refers to the FB of the mode. */
    method PointCrtc(crtc: nat, fb: nat)
      requires Idle(w) && fb in w.fbs.refcnt
      modifies this`w
      ensures Onward(old(w), w, pins) && w == old(w).(fbs := w.fbs) &&
              w.fbs.slots == old(w).fbs.slots[CrtcFb(crtc) := fb]
      ensures w == ModeTaken(old(w), crtc, fb, true)
    {
      hide WInv, Reference;
      Conserves(w);
      PlainReference(w, CrtcFb(crtc), Some(fb));
      ReferenceConserves(w.fbs, CrtcFb(crtc), Some(fb));
      w := w.(fbs := Reference(w.fbs, CrtcFb(crtc), Some(fb)));
      FbsOnward(old(w), w, pins);
    }

    /** drmmode_set_mode_major with the FB of a pixmap. `waited` is the state after the wait and
        `after` the one after the kernel call: the CRTC then refers to the pixmap's FB if the mode
        was taken, and nothing changed if it was refused. */
    method SetMode(crtc: nat, mode: Mode) returns (done: bool, ghost waited: World, ghost after: World)
      requires Idle(w) && (mode.created || PixmapFb(mode.pixmap) in w.fbs.slots) && Free(mode.freed, pins)
      modifies this
      ensures Went(old(w), w, pins) && pins == old(pins) && |scripts| <= |old(scripts)|
      ensures !Down(w) ==> Kept(old(w).q, w.q) && done == mode.ok
      ensures !Down(w) ==>
                && Onward(old(w), waited, pins) && Onward(after, w, pins) && PixmapFb(mode.pixmap) in waited.fbs.slots
                && after.fbs.slots ==
                   if mode.ok then waited.fbs.slots[CrtcFb(crtc) := waited.fbs.slots[PixmapFb(mode.pixmap)]]
                   else waited.fbs.slots
      ensures !Down(w) ==> ModeChanged(old(w), crtc, mode, w)
      ensures |scripts| == |old(scripts)| && mode.freed.None? ==> w.fbs == after.fbs
      ensures |scripts| == |old(scripts)| ==> !Down(w)
      decreases |scripts|, 8
    {
      hide WInv, Kept, Opened, Closed, Later, Reference, QueueStep, Falls, HandlesDeferred, WaitedOn, ModeClosed;
      hide ModeTaken;
      var fb := PixmapGetFb(mode.pixmap, mode.created);
      ghost var got := w;
      FbsOnward(old(w), w, pins);
      var was := pins;
      pins := pins + {mode.pixmap};
      WaitPendingFlip(crtc, mode.batches);
      pins := was;
      PinsFewer(got, w, pins, pins + {mode.pixmap});
      WentTrans(old(w), got, w, pins);
      done, waited, after := mode.ok, w, w;
      if Down(w) {
        return;
      }
      assert SameAt(got, w, PixmapFb(mode.pixmap));
      PolledSelf(w, pins);
      if mode.ok {
        HeldAlive(w, PixmapFb(mode.pixmap));
        PointCrtc(crtc, fb.value);
      }
      after := w;
      ModeRefused(waited, crtc, fb.value);
      assert after == ModeTaken(waited, crtc, waited.fbs.slots[PixmapFb(mode.pixmap)], mode.ok);
      OnwardTrans(old(w), waited, after, pins);
      CloseMode(old(w), crtc, if mode.ok then mode.freed else None);
    }

    /** drmmode_set_mode_major with an ad-hoc FB. It ends in the FatalError if the FB was lost in
        the wait; AdhocModeIff says when that can be. */
    method SetModeAdhoc(crtc: nat, mode: Mode) returns (done: bool, ghost after: World)
      requires Idle(w) && Free(mode.freed, pins) && !mode.created && PixmapFb(mode.pixmap) !in w.fbs.slots
      modifies this
      ensures Went(old(w), w, pins) && pins == old(pins) && |scripts| <= |old(scripts)|
      ensures !Down(w) ==> Kept(old(w).q, w.q) && done == (mode.made && mode.ok)
      ensures !Down(w) ==> ModeChanged(old(w), crtc, mode, w)
      ensures w.fbs.fatal && |scripts| == |old(scripts)| ==> AtRisk(old(w), crtc)
      ensures !mode.made ==> w == LosesFb(old(w), crtc)
      ensures !Down(w) && done ==>
                && Onward(after, w, pins) && CrtcFb(crtc) in after.fbs.slots
                && after.fbs.slots[CrtcFb(crtc)] == old(w).fbs.created
      decreases |scripts|, 8
    {
      hide WInv, Kept, Opened, Closed, Later, Reference, QueueStep, Threatened, Falls, HandlesDeferred;
      hide WaitedOn, ModeClosed, ModeTaken, LosesFb, Waits;
      done, after := mode.made && mode.ok, w;
      KeptSelf(w.q);
      if !mode.made {
        StopScanout(crtc);
        OnwardWent(old(w), w, pins);
        return;
      }
      var fb := w.fbs.created;
      AdhocFbKeeps(w, crtc);
      w := AdhocFb(w, crtc);
      FbsOnward(old(w), w, pins);
      hide AdhocFb;
      ghost var before := w;
      WaitPendingFlip(crtc, mode.batches);
      WentTrans(old(w), before, w, pins);
      if Down(w) {
        return;
      }
      ghost var waited := w;
      AdhocWait(old(w), crtc, mode.batches, w);
      PolledSelf(w, pins);
      if mode.ok {
        if fb !in w.fbs.refcnt {
          Conserves(w);
          AdhocFatal(old(w), w, crtc);
          w := w.(fbs := Reference(w.fbs, CrtcFb(crtc), Some(fb)));
          FatalFalls(old(w), crtc, w, pins);
          return;
        }
        PointCrtc(crtc, fb);
      }
      after := w;
      ModeRefused(waited, crtc, fb);
      OnwardTrans(old(w), waited, w, pins);
      CloseMode(old(w), crtc, if mode.ok then mode.freed else None);
    }

    /** The end of drmmode_set_mode_major: scanout pixmaps that are not shown any more are freed,
        and the wait is closed. */
    method CloseMode(ghost start: World, crtc: nat, freed: Option<Scanouts>)
      requires Idle(start) && Idle(w) && Onward(start, w, pins) && Opened(start.q, w.q, crtc) && Free(freed, pins)
      modifies this
      ensures Went(start, w, pins) && Went(old(w), w, pins) && pins == old(pins) && |scripts| <= |old(scripts)|
      ensures !Down(w) ==> Kept(start.q, w.q) && ModeClosed(old(w), crtc, freed, w)
      ensures |scripts| == |old(scripts)| && freed.None? ==> w.fbs == old(w).fbs
      ensures |scripts| == |old(scripts)| ==> !Down(w)
      decreases |scripts|, 7
    {
      hide WInv, Kept, Opened, Closed, Later, QueueStep, Falls, HandlesDeferred, Freed;
      PolledSelf(w, pins);
      if freed.Some? {
        ScanoutFree(crtc, freed.value);
        WentTrans(start, old(w), w, pins);
        if Down(w) {
          return;
        }
        OpenedKept(start.q, old(w).q, w.q, crtc);
      }
      ghost var worked := w;
      HandleDeferred(crtc);
      WentTrans(old(w), worked, w, pins);
      WentTrans(start, worked, w, pins);
      if !Down(w) {
        BracketKept(start.q, worked.q, w.q, crtc);
      }
    }

    /** drmmode_set_mode_major: an ad-hoc FB is used when the pixmap has none. */
    method ChangeMode(crtc: nat, mode: Mode)
      requires Idle(w)
      modifies this
      ensures Went(old(w), w, pins) && pins == old(pins) && |scripts| <= |old(scripts)|
      ensures !Down(w) ==> Kept(old(w).q, w.q) && ModeChanged(old(w), crtc, AllowedMode(mode, pins), w)
      decreases |scripts|, 9
    {
      hide WInv, Kept, Later, Falls, ModeChanged;
      var allowed := AllowedMode(mode, pins);
      ghost var waited, after;
      var done;
      if mode.created || PixmapFb(mode.pixmap) in w.fbs.slots {
        done, waited, after := SetMode(crtc, allowed);
      } else {
        done, after := SetModeAdhoc(crtc, allowed);
      }
    }

    // ----- Any run -----

    /** One driver call. While a page flip is being submitted only queue operations are made. */
    method Run(cmd: Command)
      requires Ready(w)
      modifies this
      ensures Went(old(w), w, pins) && pins == old(pins) && |scripts| <= |old(scripts)|
      ensures !Down(w) ==> Kept(old(w).q, w.q) && (old(w).building.None? ==> Did(old(w), cmd, pins, w))
      decreases |scripts|, 19
    {
      hide WInv, Kept, Onward, Submitting, Falls, Apply, HandlesBatch, Emulated, QueueStep;
      PolledSelf(w, pins);
      OnwardWent(w, w, pins);
      KeptSelf(w.q);
      if cmd.UseQueue? {
        if UserOp(cmd.op) && EnvOp(w, cmd.op) {
          Step(cmd.op);
          if !Down(w) {
            UserOpKept(old(w).q, cmd.op);
            KeptTrans(old(w).q, Apply(old(w).q, cmd.op), w.q);
          }
        }
      } else if cmd.ReadEvents? {
        var ok := HandleEvent(cmd.batch);
      } else if cmd.EmulateVblank? {
        EmulateEvent(cmd.crtc, cmd.event);
      } else if w.building.None? {
        IdleReady(w);
        RunIdle(cmd);
      }
    }

    /** A driver call made while no page flip is being submitted. */
    method RunIdle(cmd: Command)
      requires Idle(w)
      modifies this
      ensures Went(old(w), w, pins) && pins == old(pins) && |scripts| <= |old(scripts)|
      ensures !Down(w) ==> Kept(old(w).q, w.q)
      ensures !Down(w) && !cmd.UseQueue? && !cmd.ReadEvents? && !cmd.EmulateVblank? ==> Did(old(w), cmd, pins, w)
      decreases |scripts|, 18
    {
      hide WInv, Kept, Later, Onward, Falls, PageFlipDone, ScanoutFlipped, UpdateDone, Freed, SwitchedOff, ModeChanged;
      PolledSelf(w, pins);
      OnwardWent(w, w, pins);
      KeptSelf(w.q);
      match cmd
      case PageFlip(flip, memory, frontFb) =>
        if |flip.attempts| > 0 && Distinct(flip.attempts) {
          var ok, r := DoPageFlip(flip, memory, frontFb);
        }
      case TearFreeFlip(crtc, pixmap, created, memory, sent, vblank, again) =>
        if pixmap !in pins {
          ScanoutFlip(crtc, pixmap, created, memory, sent, vblank, again);
        }
      case UpdateScanout(crtc, due, memory, vblank, again) => ScanoutUpdate(crtc, due, memory, vblank, again);
      case DestroyPixmap(pixmap) =>
        if pixmap !in pins {
          DropPixmap(pixmap);
          OnwardWent(old(w), w, pins);
        }
      case FreeScanout(crtc, pixmaps) =>
        if Free(Some(pixmaps), pins) {
          ScanoutFree(crtc, pixmaps);
        }
      case PowerOff(crtc, wasOn, batches) => DpmsOff(crtc, wasOn, batches);
      case ModeSet(crtc, mode) => ChangeMode(crtc, mode);
      case _ =>
    }

    /** Any sequence of driver calls, up to the one that brings the server down. */
    method RunCommands(cmds: seq<Command>)
      requires Ready(w)
      modifies this
      ensures Went(old(w), w, pins) && pins == old(pins) && |scripts| <= |old(scripts)|
      ensures !Down(w) ==> Kept(old(w).q, w.q) && (old(w).building.None? ==> DidAll(old(w), cmds, pins, w))
      decreases |scripts|, 20
    {
      hide WInv, Kept, Onward, Submitting, Falls, Did;
      PolledSelf(w, pins);
      OnwardWent(w, w, pins);
      KeptSelf(w.q);
      for i := 0 to |cmds|
        invariant Ready(w) && Onward(old(w), w, pins) && pins == old(pins) && |scripts| <= |old(scripts)|
        invariant Kept(old(w).q, w.q) && w.building == old(w).building
        invariant w.building.None? ==> DidAll(old(w), cmds[..i], pins, w)
      {
        ghost var here := w;
        Run(cmds[i]);
        WentTrans(old(w), here, w, pins);
        if Down(w) {
          return;
        }
        KeptTrans(old(w).q, here.q, w.q);
        assert cmds[..i + 1] == cmds[..i] + [cmds[i]];
        if w.building.None? {
          DidMore(old(w), cmds[..i], here, cmds[i], pins, w);
        }
      }
      OnwardWent(old(w), w, pins);
      assert cmds[..|cmds|] == cmds;
    }

    /** Any run of the driver. The server goes down only by a mode set with an ad-hoc FB that was
        lost in its wait, or by a page flip that reads its flipdata after a handler ended the
        request. Otherwise every FB's count is the number of slots that hold it, no FatalError and
        no callback on freed flipdata happened, the FB each live TearFree flip points to exists,
        and every unfinished request counts its live entries. All wait levels are as before; if no
        wait was open and nothing signalled, that is so again, and nothing is deferred. */
    method Drive(cmds: seq<Command>)
      requires Idle(w)
      modifies this
      ensures Down(w) ==> Falls(old(w), w)
      ensures !Down(w) ==> DidAll(old(w), cmds, pins, w)
      ensures !Down(w) ==> Idle(w) && !w.fbs.fatal && !w.reqs.fault
      ensures !Down(w) ==> forall fb :: fb in w.fbs.refcnt ==> w.fbs.refcnt[fb] == |Holders(w.fbs.slots, fb)| > 0
      ensures !Down(w) ==>
                forall s, crtc, fb :: s in w.live && IsScanoutFlip(w.q.issued, s, crtc, fb) ==> fb in w.fbs.refcnt
      ensures !Down(w) ==> forall r :: r in w.reqs.active && w.reqs.active[r].count >= 0 ==>
                w.reqs.active[r].count == |Entries(w.q.issued, w.live, r)| > 0
      ensures !Down(w) ==> forall c :: Level(w.q, c) == Level(old(w).q, c)
      ensures !Down(w) && Quiet(old(w).q) && old(w).q.flips == [] && old(w).q.vblanks == [] ==>
                w.q.flips == [] && w.q.vblanks == [] && w.q.deferred == []
    {
      RunCommands(cmds);
      if Down(w) {
        return;
      }
      forall r | r in w.reqs.active && w.reqs.active[r].count >= 0
        ensures w.reqs.active[r].count == |Entries(w.q.issued, w.live, r)| > 0
      {
        assert Counted(w.reqs.active[r], Entries(w.q.issued, w.live, r), false);
      }
      if Quiet(old(w).q) && old(w).q.flips == [] && old(w).q.vblanks == [] {
        NothingStranded(old(w).q, w.q);
      }
    }
  }
}
