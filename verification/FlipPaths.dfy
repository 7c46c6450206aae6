/**
 What the driver paths on flips are made of: their parameters, how far one of them may change
 the state, and the lemmas that compose their steps.
 */
module FlipPaths {
  import opened QueueModel
  import opened QueueSafety
  import opened QueueDriver
  import opened Common
  import opened FbRefs
  import opened FlipModel
  import opened FlipSafety
  import opened FlipRuns
  import opened FlipSubmit
  import opened FlipEnv
  import opened FlipModeset
  import opened FlipDrain

  /** What happens at one CRTC of a page flip: whether it can flip and is TearFree, its spare
      scanout pixmap, the events read while waiting for it, and which of the allocations and
      ioctls succeed. */
  datatype Attempt = Attempt(
    crtc: nat, canFlip: bool, tearFree: bool, pixmap: nat, pixmapFb: bool,
    memory: bool, batches: seq<Batch>, sent: bool)

  /** A page flip: the reference CRTC, the client and its event id, the pixmap to show, whether it is
      an asynchronous one, and what happens at each CRTC of the screen. */
  datatype Flip = Flip(ref: Option<nat>, client: nat, id: nat, front: nat, async: bool, attempts: seq<Attempt>)

  /** A CRTC's two scanout pixmaps, and the events read while they are freed. */
  datatype Scanouts = Scanouts(first: nat, second: nat, batches: seq<Batch>)

  /** What happens when a mode is set: the pixmap shown and whether it gets an FB, whether an
      ad-hoc FB can be made otherwise, the events read in the wait, whether the kernel takes the
      mode, and the scanout pixmaps freed then. */
  datatype Mode = Mode(
    pixmap: nat, created: bool, made: bool, batches: seq<Batch>, ok: bool, freed: Option<Scanouts>)

  /** A call into the driver. */
  datatype Command =
    | UseQueue(op: Op)
    | ReadEvents(batch: Batch)
    | EmulateVblank(crtc: nat, event: Event)
    | PageFlip(flip: Flip, memory: bool, frontFb: bool)
    | TearFreeFlip(crtc: nat, pixmap: nat, created: bool, memory: bool, sent: bool, vblank: bool, again: Option<Mode>)
    | UpdateScanout(crtc: nat, due: bool, memory: bool, vblank: bool, again: Option<Mode>)
    | DestroyPixmap(pixmap: nat)
    | FreeScanout(crtc: nat, pixmaps: Scanouts)
    | PowerOff(crtc: nat, wasOn: bool, batches: seq<Batch>)
    | ModeSet(crtc: nat, mode: Mode)

  datatype Progress = Skipped | Queued | Failed

  /** The filter of the CRTC loop. A CRTC without TearFree can flip only if it has no scanout
      pixmap; `busy` are those that had a scanout update under way, hence such a pixmap. */
  predicate Passes(a: Attempt, ref: Option<nat>, busy: set<nat>) {
    a.canFlip && (if a.tearFree then ref == Some(a.crtc) else a.crtc !in busy)
  }

  /** The flip of a CRTC that passes the filter can be submitted: there is memory for its entry, the
      kernel takes it, and on a TearFree CRTC the spare pixmap has or gets an FB, unless a vblank
      stands in for the flip. */
  predicate CanSubmit(a: Attempt, flip: Flip, slots: map<Slot, nat>) {
    && a.memory && a.sent
    && (!a.tearFree || flip.async || a.pixmapFb || a.pixmap == flip.front || PixmapFb(a.pixmap) in slots)
  }

  /** All CRTCs that pass the filter can be submitted. */
  predicate AllSubmit(flip: Flip, busy: set<nat>, slots: map<Slot, nat>) {
    forall j :: 0 <= j < |flip.attempts| && Passes(flip.attempts[j], flip.ref, busy) ==>
      CanSubmit(flip.attempts[j], flip, slots)
  }

  /** Some CRTC passes the filter. */
  predicate SomePass(flip: Flip, busy: set<nat>) {
    exists j :: 0 <= j < |flip.attempts| && Passes(flip.attempts[j], flip.ref, busy)
  }

  /** What the users of the queue ask of it. */
  predicate UserOp(op: Op) {
    op.Alloc? || op.AbortClient? || op.AbortEntry? || op.AbortId?
  }

  /** The CRTC loop looks at each CRTC once. */
  predicate Distinct(attempts: seq<Attempt>) {
    forall i, j :: 0 <= i < j < |attempts| ==> attempts[i].crtc != attempts[j].crtc
  }

  /** Both pixmaps may be destroyed. */
  predicate Free(pixmaps: Option<Scanouts>, pins: set<nat>) {
    pixmaps.Some? ==> pixmaps.value.first !in pins && pixmaps.value.second !in pins
  }

  // ----- What holds on the way -----

  /** Request r is under construction, between two CRTCs. */
  ghost predicate Building(w: World, r: nat) {
    WInv(w) && w.building == Some(r) && w.unsent.None? && r in w.reqs.active
  }

  /** The request has no CRTC yet, and the pixmap to show has an FB. */
  ghost predicate Begun(w: World, r: nat, front: nat) {
    && Building(w, r) && w.reqs.active[r].count == 0 && PixmapFb(front) in w.fbs.slots
    && forall s: nat :: !IsFlip(w.q.issued, s, r)
  }

  /** The CRTC's entry is allocated and its flip not yet sent. */
  ghost predicate Accepted(w: World, r: nat, crtc: nat) {
    WInv(w) && Submitting(w) && w.building == Some(r) && IsFlipOn(w.q.issued, w.unsent.value, r, crtc)
  }

  /** From a to b at most one wait is open, on the given CRTC. */
  ghost predicate Waiting(a: Queue, b: Queue, on: Option<nat>) {
    match on
    case None => Kept(a, b)
    case Some(crtc) => Opened(a, b, crtc)
  }

  lemma WaitingSelf(q: Queue)
    ensures Waiting(q, q, None)
  {
    KeptSelf(q);
  }

  lemma WaitingKept(a: Queue, b: Queue, c: Queue, on: Option<nat>)
    requires Waiting(a, b, on) && Kept(b, c)
    ensures Waiting(a, c, on)
  {
    hide Kept, Opened;
    if on.Some? {
      OpenedKept(a, b, c, on.value);
    } else {
      KeptTrans(a, b, c);
    }
  }

  lemma KeptWaiting(a: Queue, b: Queue, c: Queue, on: Option<nat>)
    requires Kept(a, b) && Waiting(b, c, on)
    ensures Waiting(a, c, on)
  {
    hide Kept, Opened;
    if on.Some? {
      KeptOpened(a, b, c, on.value);
    } else {
      KeptTrans(a, b, c);
    }
  }

  ghost predicate PixmapsKept(a: World, b: World) {
    forall p :: PixmapFb(p) in a.fbs.slots ==> SameAt(a, b, PixmapFb(p))
  }

  /** No pixmap but the given one got an FB. */
  ghost predicate NoNewPixmap(a: World, b: World, given: Option<nat>) {
    forall p: nat :: PixmapFb(p) in b.fbs.slots ==> PixmapFb(p) in a.fbs.slots || given == Some(p)
  }

  /** Only request r, the newest one, was worked on. */
  ghost predicate Grown(r: nat, a: World, b: World) {
    && Later(r, a, b) && b.reqs.refs == a.reqs.refs && b.scanout.Keys <= a.scanout.Keys
    && PixmapsKept(a, b)
  }

  lemma GrownSelf(r: nat, w: World)
    requires r <= |w.reqs.refs|
    ensures Grown(r, w, w)
  {
  }

  lemma GrownTrans(r: nat, a: World, b: World, c: World)
    requires Grown(r, a, b) && Grown(r, b, c)
    ensures Grown(r, a, c)
  {
    LaterTrans(r, a, b, c);
    hide Later;
    forall p | PixmapFb(p) in a.fbs.slots ensures SameAt(a, c, PixmapFb(p)) {
      assert SameAt(a, b, PixmapFb(p));
    }
  }

  lemma EnvGrown(r: nat, a: World, b: World)
    requires Env(a, b) && r <= |a.reqs.refs|
    ensures Grown(r, a, b) && NoNewPixmap(a, b, None)
    ensures r < |a.reqs.refs| ==> forall s: nat :: IsFlip(b.q.issued, s, r) ==> IsFlip(a.q.issued, s, r)
  {
    hide WInv;
    LaterBelow(r, |a.reqs.refs|, a, b);
    forall p | PixmapFb(p) in a.fbs.slots ensures SameAt(a, b, PixmapFb(p)) {
      assert Untouched(a, PixmapFb(p));
    }
  }

  /** Changes of FBs and of the submission state alone. */
  lemma FbsGrown(r: nat, w: World, w': World)
    requires r <= |w.reqs.refs| && w' == w.(fbs := w'.fbs, unsent := w'.unsent, building := w'.building)
    requires PixmapsKept(w, w')
    ensures Grown(r, w, w')
  {
    LaterRequest(w, w', r);
  }

  /** Changing an FB slot that belongs to no pixmap. */
  lemma SlotPixmaps(w: World, x: Slot, next: Option<nat>)
    requires !x.PixmapFb?
    ensures PixmapsKept(w, w.(fbs := Reference(w.fbs, x, next)))
  {
    forall p | PixmapFb(p) in w.fbs.slots ensures SameAt(w, w.(fbs := Reference(w.fbs, x, next)), PixmapFb(p)) {
      ReferenceOther(w.fbs, x, next, PixmapFb(p));
    }
  }

  lemma FbsOnward(w: World, w': World, pins: set<nat>)
    requires Idle(w) && Idle(w') && w' == w.(fbs := w'.fbs) && Pinned(w, w', pins)
    ensures Onward(w, w', pins)
  {
    hide WInv;
    LaterRequest(w, w', |w.reqs.refs|);
  }

  // ----- How the server can go down -----

  /** FatalError was reached, or flipdata was used after it was freed. */
  predicate Down(w: World) {
    w.fbs.fatal || w.reqs.fault
  }

  /** From m, setting a mode with an ad-hoc FB on the CRTC ended in b by FatalError. */
  ghost predicate FatalFrom(m: World, crtc: nat, b: World) {
    Idle(m) && AtRisk(m, crtc) && exists moves :: b == AdhocMode(m, crtc, moves)
  }

  /** From m, in which request r is submitted, handling the deferred events led to w, where its
      flipdata is freed. */
  ghost predicate FreedFrom(m: World, crtc: nat, r: nat, w: World) {
    && Idle(m) && r in m.reqs.active && m.reqs.active[r].count > 0 && Rousable(m.q, crtc)
    && HandlesDeferred(m, crtc, w) && r !in w.reqs.active
  }

  /** The run from a went down in b, in one of these two ways. */
  ghost predicate Falls(a: World, b: World) {
    && a.building.None?
    && (|| (exists m, crtc :: FatalFrom(m, crtc, b) && Later(|a.reqs.refs|, a, m))
        || (exists m, crtc, r, w ::
              FreedFrom(m, crtc, r, w) && b == w.(reqs := w.reqs.(fault := true)) && Later(|a.reqs.refs|, a, m)))
  }

  /** The result of driver calls, which may have brought the server down. */
  ghost predicate Went(a: World, b: World, pins: set<nat>) {
    if Down(b) then Falls(a, b) else Onward(a, b, pins)
  }

  lemma OnwardWent(a: World, b: World, pins: set<nat>)
    requires Ready(a) && Onward(a, b, pins)
    ensures Went(a, b, pins) && !Down(b) && Ready(b) && b.building == a.building
  {
    OnwardReady(a, b, pins);
    UpReady(b);
    hide WInv, Later;
  }

  lemma UpReady(w: World)
    requires Ready(w)
    ensures !Down(w)
  {
  }

  lemma WentTrans(a: World, b: World, c: World, pins: set<nat>)
    requires Ready(a) && Onward(a, b, pins) && Went(b, c, pins)
    ensures Went(a, c, pins) && (!Down(c) ==> Onward(a, c, pins) && Ready(c) && c.building == a.building)
  {
    hide WInv, Later, FatalFrom, FreedFrom;
    OnwardReady(a, b, pins);
    if Down(c) {
      forall m | Later(|b.reqs.refs|, b, m) ensures Later(|a.reqs.refs|, a, m) {
        LaterUse(|a.reqs.refs|, a, b);
        LaterBelow(|a.reqs.refs|, |b.reqs.refs|, b, m);
        LaterTrans(|a.reqs.refs|, a, b, m);
      }
    } else {
      OnwardTrans(a, b, c, pins);
      OnwardReady(a, c, pins);
    }
  }

  /** No driver call made while a page flip is being submitted brings the server down. */
  lemma WentBuilding(a: World, b: World, pins: set<nat>)
    requires Went(a, b, pins) && a.building.Some?
    ensures !Down(b)
  {
  }

  lemma FreedFalls(a: World, m: World, crtc: nat, r: nat, w: World, pins: set<nat>)
    requires Idle(a) && Onward(a, m, pins) && FreedFrom(m, crtc, r, w)
    ensures Went(a, w.(reqs := w.reqs.(fault := true)), pins)
  {
    hide WInv, FreedFrom, FatalFrom;
  }

  lemma FatalFalls(m: World, crtc: nat, b: World, pins: set<nat>)
    requires FatalFrom(m, crtc, b) && b.fbs.fatal
    ensures Went(m, b, pins)
  {
    LaterRequest(m, m, |m.reqs.refs|);
    assert Later(|m.reqs.refs|, m, m);
    hide WInv;
  }

  lemma PinsFewer(a: World, b: World, pins: set<nat>, more: set<nat>)
    requires Went(a, b, more) && pins <= more
    ensures Went(a, b, pins)
  {
    hide WInv, Later, Env;
  }

  // ----- Queue lemmas -----

  lemma WaitOpKeepsLevels(a: Queue, b: Queue, op: Op, c: Queue)
    requires Reaches(a, b) && SameLevels(a, b) && WaitOp(op) && Kept(Apply(b, op), c)
    ensures Reaches(a, c) && SameLevels(a, c)
  {
    ReachesStep(a, b, op);
    ReachesTrans(a, Apply(b, op), c);
    forall d ensures Level(a, d) == Level(c, d) {
      WaitOpLevels(b, op, d);
      assert Level(Apply(b, op), d) == Level(c, d);
    }
  }

  lemma VblankKept(q: Queue)
    ensures Kept(q, Apply(q, HandleVblank))
  {
    ReachesOne(q, HandleVblank);
  }

  lemma FlipKept(q: Queue)
    ensures Kept(q, Apply(q, HandleFlip))
  {
    ReachesOne(q, HandleFlip);
  }

  lemma UserOpKept(q: Queue, op: Op)
    requires UserOp(op)
    ensures Kept(q, Apply(q, op))
  {
    ReachesOne(q, op);
  }

  lemma OpenOpened(q: Queue, crtc: nat)
    ensures Opened(q, Apply(q, OpenWait(crtc)), crtc)
  {
    ReachesOne(q, OpenWait(crtc));
  }

  /** Signalling a vblank and opening a level, as an emulated event does. */
  lemma EmulateOpened(a: Queue, event: Event, b: Queue, crtc: nat)
    requires !FlipNumbered(a.pending, event.seqNo) && Kept(Apply(a, ToOp(event)), b)
    ensures Opened(a, Apply(b, OpenWait(crtc)), crtc)
  {
    var op := ToOp(event);
    ReachesSelf(a);
    WaitOpKeepsLevels(a, a, op, b);
    ReachesStep(a, b, OpenWait(crtc));
    assert Apply(a, op).flips == a.flips by {
      var i := IndexOf(a.pending, op.seqNo);
      if i < |a.pending| { assert a.pending[i] in a.pending; }
    }
  }

  lemma EmulateReaches(a: Queue, event: Event, b: Queue, c: Queue, crtc: nat)
    requires Kept(Apply(a, ToOp(event)), b) && Closed(Apply(b, OpenWait(crtc)), c, crtc)
    ensures Reaches(Apply(a, ToOp(event)), c)
    ensures Level(a, crtc) == 0 ==> c.vblanks == [] && Level(c, crtc) == 0
  {
    WaitOpLevels(a, ToOp(event), crtc);
    assert Level(Apply(a, ToOp(event)), crtc) == Level(b, crtc);
    ReachesStep(Apply(a, ToOp(event)), b, OpenWait(crtc));
    ReachesTrans(Apply(a, ToOp(event)), Apply(b, OpenWait(crtc)), c);
  }

  /** Nothing but a flip under submission keeps an event away. */
  lemma EnvSignal(w: World, event: Event)
    requires Submitting(w)
    ensures w.building.None? ==> EnvOp(w, ToOp(event))
  {
  }

  lemma DeliveredNone(q: Queue)
    ensures Delivered(q, [], q)
  {
    ReachesSelf(q);
  }

  lemma KeptAfter(a: Queue, event: Event, b: Queue)
    requires Kept(Apply(a, ToOp(event)), b)
    ensures After(a, event, b)
  {
  }

  lemma NotVblank(w: World, n: nat)
    requires WInv(w)
    ensures FlipNumbered(w.q.pending, n) ==> forall e :: e in w.q.pending && e.seqNo == n ==> e.isFlip
  {
    if FlipNumbered(w.q.pending, n) {
      FlipNumberedOnly(w.q, n);
    }
  }

  lemma EmulateCalls(w: World, event: Event, b: Queue, crtc: nat)
    requires WInv(w) && Reaches(Apply(w.q, ToOp(event)), b) && b.vblanks == [] && Level(b, crtc) == 0
    ensures (exists e :: e in w.q.pending && e.seqNo == event.seqNo && e.crtc == crtc && !e.isFlip) ==>
              Calls(b, event.seqNo) == 1
  {
    if e :| e in w.q.pending && e.seqNo == event.seqNo && e.crtc == crtc && !e.isFlip {
      DeliveredNow(w.q, b, event, e);
    }
  }

  lemma ClosedWhole(a: Queue, b: Queue, crtc: nat)
    requires Level(a, crtc) == 1 && Kept(Apply(a, CloseWait(crtc)), b) && b.vblanks == []
    ensures Closed(a, b, crtc)
  {
    ReachesOne(a, CloseWait(crtc));
    ReachesTrans(a, Apply(a, CloseWait(crtc)), b);
    assert forall c :: Level(b, c) == Level(Apply(a, CloseWait(crtc)), c);
  }

  lemma ClosedPart(a: Queue, crtc: nat)
    requires Level(a, crtc) != 1
    ensures Closed(a, Apply(a, CloseWait(crtc)), crtc)
  {
    ReachesOne(a, CloseWait(crtc));
  }

  /** An entry that is no page flip is issued. */
  lemma IssueLater(w: World, op: Op)
    requires Inv(w.q) && op.Alloc? && !op.procs.DrmmodeFlip?
    ensures Later(|w.reqs.refs|, w, QueueStep(w, op))
  {
    IssueShape(w, op);
    hide QueueStep, Apply;
    var issued' := QueueStep(w, op).q.issued;
    assert forall s: nat, r: nat :: IsFlip(issued', s, r) ==> IsFlip(w.q.issued, s, r);
  }

  // ----- Submission -----

  /** A slot holds the FB of a pixmap. */
  ghost predicate SamePixmap(w: World, pixmap: nat, x: Slot) {
    x in w.fbs.slots && PixmapFb(pixmap) in w.fbs.slots && w.fbs.slots[x] == w.fbs.slots[PixmapFb(pixmap)]
  }

  lemma SlotSet(t: Fbs, x: Slot, fb: nat)
    requires Conserved(t) && fb in t.refcnt
    ensures x in Reference(t, x, Some(fb)).slots && Reference(t, x, Some(fb)).slots[x] == fb
  {
    ReferenceConserves(t, x, Some(fb));
  }

  /** The request has an entry for this CRTC, for the client and its event id. */
  ghost predicate HasEntry(w: World, r: nat, crtc: nat, flip: Flip) {
    exists s: nat :: IsFlipOn(w.q.issued, s, r, crtc) && Named(w.q.issued, s, flip)
  }

  predicate Named(issued: seq<Entry>, s: nat, flip: Flip) {
    1 <= s <= |issued| && issued[s - 1].client == flip.client && issued[s - 1].id == flip.id
  }

  lemma EntryStays(a: World, b: World, r: nat, crtc: nat, flip: Flip)
    requires a.q.issued <= b.q.issued && HasEntry(a, r, crtc, flip)
    ensures HasEntry(b, r, crtc, flip)
  {
    var s: nat :| IsFlipOn(a.q.issued, s, r, crtc) && Named(a.q.issued, s, flip);
    assert IsFlipOn(b.q.issued, s, r, crtc) && Named(b.q.issued, s, flip);
  }

  /** The flip of a CRTC is under way: it has an entry, and unless a vblank stands in for the
      flip, flip_pending holds the FB flipped to. */
  ghost predicate UnderWay(w: World, a: Attempt, r: nat, flip: Flip) {
    && HasEntry(w, r, a.crtc, flip)
    && (!(a.tearFree && flip.async) ==> SamePixmap(w, if a.tearFree then a.pixmap else flip.front, FlipPending(a.crtc)))
  }

  /** The kernel has a page flip with an FB for this CRTC. */
  predicate KernelBusy(w: World, crtc: nat) {
    exists s :: s in w.live && 1 <= s <= |w.q.issued| && w.q.issued[s - 1].procs.DrmmodeFlip?
      && w.q.issued[s - 1].crtc == crtc && FlipDataFb(w.q.issued[s - 1].data, crtc) in w.fbs.slots
  }

  lemma BusyNot(w: World, crtc: nat)
    requires !KernelBusy(w, crtc)
    ensures KernelIdle(w, crtc)
  {
  }

  lemma AcceptFailsGrown(w: World, r: nat, crtc: nat)
    requires r in w.reqs.active && r < |w.reqs.refs|
    ensures var w' := AcceptFails(w, r, crtc);
            && w'.reqs.refs == w.reqs.refs && w'.building.None? && w'.unsent == w.unsent
            && (r in w'.reqs.active ==> w'.reqs.active[r].count == w.reqs.active[r].count)
            && Later(r, w, w')
  {
    hide FlipAbortFbs;
    LaterRequest(w, AcceptFails(w, r, crtc), r);
  }

  /** The entry under submission is live and counted. */
  lemma UnsentCounted(w: World, r: nat)
    requires WInv(w) && w.building == Some(r) && w.unsent.Some? && IsFlip(w.q.issued, w.unsent.value, r)
    ensures w.unsent.value in w.live && r in w.reqs.active && w.reqs.active[r].count > 0 && r < |w.reqs.refs|
  {
    var u := w.unsent.value;
    PendingNotElsewhere(w.q, u);
    assert CensusAt(w.q, u);
    assert u in Entries(w.q.issued, w.live, r);
    assert Counted(w.reqs.active[r], Entries(w.q.issued, w.live, r), true);
  }

  lemma ScanoutOpAllowed(w: World, crtc: nat)
    requires Submitting(w) && ScanoutInv(w.scanout, w.q.issued, w.live) && crtc in w.scanout
    ensures EnvOp(w, AbortEntry(w.scanout[crtc]))
  {
    assert IsScanout(w.q.issued, w.scanout[crtc], crtc);
  }

  /** Aborting the scanout entry and forgetting it. */
  lemma ScanoutAborted(w: World, crtc: nat)
    requires Ready(w) && Waited(w, crtc) && crtc in w.scanout
    ensures var v := QueueStep(w, AbortEntry(w.scanout[crtc]));
            Env(w, v.(scanout := v.scanout - {crtc})) && v.q == Apply(w.q, AbortEntry(w.scanout[crtc]))
  {
    AbortScanoutKeeps(w, crtc);
    ScanoutOpAllowed(w, crtc);
    EnvStep(w, AbortEntry(w.scanout[crtc]));
    StepFrame(w, AbortEntry(w.scanout[crtc]));
    var v := QueueStep(w, AbortEntry(w.scanout[crtc]));
    ForgetScanout(w, v, crtc);
  }

  lemma ForgetScanout(a: World, b: World, crtc: nat)
    requires Env(a, b) && WInv(b.(scanout := b.scanout - {crtc}))
    ensures Env(a, b.(scanout := b.scanout - {crtc}))
  {
  }

  // ----- Helpers of the methods -----

  lemma LevelsSelf(q: Queue)
    ensures Reaches(q, q) && SameLevels(q, q)
  {
    ReachesSelf(q);
  }

  lemma LevelsThen(a: Queue, b: Queue, c: Queue)
    requires Reaches(a, b) && SameLevels(a, b) && Kept(b, c)
    ensures Reaches(a, c) && SameLevels(a, c)
  {
    ReachesTrans(a, b, c);
    forall d ensures Level(a, d) == Level(c, d) {
      assert Level(b, d) == Level(c, d);
    }
  }

  lemma EmptyKept(a: Queue, b: Queue, c: Queue)
    requires Reaches(a, c) && SameLevels(a, c) && b.flips == [] && Kept(b, c) && c.vblanks == []
    ensures Kept(a, c) && c.flips == []
  {
  }

  lemma OpenFbs(w: World, crtc: nat)
    ensures QueueStep(w, OpenWait(crtc)).fbs == w.fbs
  {
  }

  lemma CloseFbs(w: World, crtc: nat)
    ensures QueueStep(w, CloseWait(crtc)).fbs == w.fbs && QueueStep(w, CloseWait(crtc)).reqs == w.reqs
  {
  }

  /** A TearFree flip that the kernel takes. */
  lemma FlipSent(w: World, crtc: nat, fb: nat, pins: set<nat>)
    requires Idle(w) && crtc !in w.scanout && fb in w.fbs.refcnt && KernelIdle(w, crtc)
    ensures var w', n := SendScanoutFlip(w, crtc, fb), NextSeqNo(w.q);
            && Onward(w, w', pins) && Kept(w.q, w'.q) && PixmapsKept(w, w')
            && w'.scanout == w.scanout[crtc := n] && n in w'.live
            && FlipPending(crtc) in w'.fbs.slots && w'.fbs.slots[FlipPending(crtc)] == fb
            && IsScanoutFlip(w'.q.issued, n, crtc, fb)
  {
    hide WInv, QueueStep, Kept, Reference, Apply, Inv, QueueInv, FbInv, KernelIdle, Later;
    hide ReqCounts, ReqOutcomes, OnePerCrtc, ReqTimes, ReqLast, ScanoutInv;
    var op := ScanoutAlloc(crtc, fb);
    Parts(w);
    Conserves(w);
    SendScanoutFlipKeeps(w, crtc, fb);
    IssueShape(w, op);
    IssueLater(w, op);
    UserOpKept(w.q, op);
    SlotPixmaps(w, FlipPending(crtc), Some(fb));
    SlotSet(w.fbs, FlipPending(crtc), fb);
    SameRequests(w, QueueStep(w, op), SendScanoutFlip(w, crtc, fb));
  }

  /** What Later says depends on the issued entries and the requests alone. */
  lemma SameRequests(a: World, b: World, c: World)
    requires Later(|a.reqs.refs|, a, b) && c.q == b.q && c.reqs == b.reqs
    ensures Later(|a.reqs.refs|, a, c)
  {
  }

  lemma OnwardEnv(a: World, b: World, pins: set<nat>)
    requires Onward(a, b, pins) && a.building.Some?
    ensures Env(a, b)
  {
  }

  lemma RequestKnown(w: World, r: nat)
    requires WInv(w) && r in w.reqs.active
    ensures r < |w.reqs.refs|
  {
  }

  lemma IssuedGrows(a: World, b: World, r: nat)
    requires Grown(r, a, b)
    ensures a.q.issued <= b.q.issued
  {
  }

  // ----- The CRTC loop -----

  /** One of the first n CRTCs. */
  ghost predicate Among(attempts: seq<Attempt>, n: nat, crtc: nat) {
    exists j :: 0 <= j < n <= |attempts| && attempts[j].crtc == crtc
  }

  /** The request has entries for the first n CRTCs only. */
  ghost predicate FromFirst(issued: seq<Entry>, r: nat, attempts: seq<Attempt>, n: nat) {
    forall s: nat :: IsFlip(issued, s, r) ==> Among(attempts, n, issued[s - 1].crtc)
  }

  /** Those of the first n CRTCs that pass the filter have an entry, and could be submitted. */
  ghost predicate Entered(w: World, r: nat, flip: Flip, n: nat, start: World) {
    forall j :: 0 <= j < n <= |flip.attempts| && Passes(flip.attempts[j], flip.ref, start.scanout.Keys) ==>
      HasEntry(w, r, flip.attempts[j].crtc, flip) && CanSubmit(flip.attempts[j], flip, start.fbs.slots)
  }

  /** After n rounds of the loop without a failure: whether a CRTC took part, and whether a wait
      is open, which then is one on the reference CRTC. Until that CRTC no pixmap gets an FB. */
  ghost predicate Looped(start: World, w: World, r: nat, flip: Flip, n: nat, taken: bool, deferred: bool) {
    var attempts, ref, busy := flip.attempts, flip.ref, start.scanout.Keys;
    && n <= |attempts| && Building(w, r) && Grown(r, start, w)
    && FromFirst(w.q.issued, r, attempts, n) && Entered(w, r, flip, n, start)
    && (deferred ==> ref.Some? && Among(attempts, n, ref.value))
    && ((ref.Some? && Among(attempts, n, ref.value)) || NoNewPixmap(start, w, None))
    && Waiting(start.q, w.q, if deferred then ref else None)
    && (taken ==> w.reqs.active[r].count > 0 && exists j :: 0 <= j < n && Passes(attempts[j], ref, busy))
    && (!taken ==> !deferred && w == start && forall j :: 0 <= j < n ==> !Passes(attempts[j], ref, busy))
  }

  /** The loop is over: its request counts the CRTCs that took part, and each of them has an entry, or
      one of them failed, or there was none. */
  ghost predicate LoopOver(start: World, w: World, r: nat, flip: Flip, taken: bool, ok: bool, deferred: bool) {
    && Grown(r, start, w) && (deferred ==> flip.ref.Some?)
    && Waiting(start.q, w.q, if deferred then flip.ref else None)
    && (!taken ==> ok && !deferred && w == start)
    && (taken && ok ==> Building(w, r) && w.reqs.active[r].count > 0)
    && (ok ==> EachHasEntry(w, r, flip, start.scanout.Keys))
    && (!ok ==> Idle(w) && (r in w.reqs.active ==> w.reqs.active[r].count >= 0))
  }

  lemma LoopStarts(w: World, r: nat, flip: Flip)
    requires Begun(w, r, flip.front)
    ensures Looped(w, w, r, flip, 0, false, false)
  {
    RequestKnown(w, r);
    GrownSelf(r, w);
    WaitingSelf(w.q);
  }

  lemma LoopEnds(start: World, w: World, r: nat, flip: Flip, taken: bool, deferred: bool)
    requires Looped(start, w, r, flip, |flip.attempts|, taken, deferred)
    ensures taken <==> SomePass(flip, start.scanout.Keys)
    ensures AllSubmit(flip, start.scanout.Keys, start.fbs.slots) && LoopOver(start, w, r, flip, taken, true, deferred)
  {
    hide WInv, HasEntry, Waiting, Grown, CanSubmit;
  }

  /** Each CRTC that passes the filter has an entry of the request. */
  ghost predicate EachHasEntry(w: World, r: nat, flip: Flip, busy: set<nat>) {
    forall j :: 0 <= j < |flip.attempts| && Passes(flip.attempts[j], flip.ref, busy) ==>
      HasEntry(w, r, flip.attempts[j].crtc, flip)
  }

  lemma EachEntryStays(a: World, b: World, r: nat, flip: Flip, busy: set<nat>)
    requires a.q.issued <= b.q.issued && EachHasEntry(a, r, flip, busy)
    ensures EachHasEntry(b, r, flip, busy)
  {
    forall j | 0 <= j < |flip.attempts| && Passes(flip.attempts[j], flip.ref, busy)
      ensures HasEntry(b, r, flip.attempts[j].crtc, flip)
    {
      EntryStays(a, b, r, flip.attempts[j].crtc, flip);
    }
  }

  /** Whether a CRTC can be submitted does not depend on the CRTCs before it. */
  lemma SameChance(r: nat, start: World, w: World, flip: Flip, i: nat)
    requires i < |flip.attempts| && Distinct(flip.attempts) && Grown(r, start, w)
    requires (flip.ref.Some? && Among(flip.attempts, i, flip.ref.value)) || NoNewPixmap(start, w, None)
    requires Passes(flip.attempts[i], flip.ref, start.scanout.Keys)
    ensures CanSubmit(flip.attempts[i], flip, w.fbs.slots) <==> CanSubmit(flip.attempts[i], flip, start.fbs.slots)
  {
    var a := flip.attempts[i];
    if a.tearFree {
      assert !Among(flip.attempts, i, a.crtc);
      assert PixmapFb(a.pixmap) in start.fbs.slots ==> SameAt(start, w, PixmapFb(a.pixmap));
    }
  }

  lemma PixmapsNext(start: World, a: World, b: World, flip: Flip, i: nat)
    requires i < |flip.attempts|
    requires (flip.ref.Some? && Among(flip.attempts, i, flip.ref.value)) || NoNewPixmap(start, a, None)
    requires a == b || NoNewPixmap(a, b, None) || flip.ref == Some(flip.attempts[i].crtc)
    ensures (flip.ref.Some? && Among(flip.attempts, i + 1, flip.ref.value)) || NoNewPixmap(start, b, None)
  {
    if flip.ref == Some(flip.attempts[i].crtc) {
      assert flip.attempts[i].crtc == flip.ref.value;
    } else if flip.ref.Some? && Among(flip.attempts, i, flip.ref.value) {
      var j :| 0 <= j < i && flip.attempts[j].crtc == flip.ref.value;
    }
  }

  lemma PixmapStays(r: nat, a: World, b: World, p: nat)
    requires Grown(r, a, b) && PixmapFb(p) in a.fbs.slots
    ensures PixmapFb(p) in b.fbs.slots && b.scanout.Keys <= a.scanout.Keys
  {
    assert SameAt(a, b, PixmapFb(p));
  }

  lemma NotYet(issued: seq<Entry>, r: nat, attempts: seq<Attempt>, i: nat, on: Option<nat>)
    requires i < |attempts| && Distinct(attempts) && FromFirst(issued, r, attempts, i)
    requires on.Some? ==> Among(attempts, i, on.value)
    ensures forall s: nat :: !IsFlipOn(issued, s, r, attempts[i].crtc)
    ensures on.Some? ==> on.value != attempts[i].crtc
  {
    forall s: nat | IsFlip(issued, s, r) ensures issued[s - 1].crtc != attempts[i].crtc {
      assert Among(attempts, i, issued[s - 1].crtc);
    }
  }

  lemma LoopWait(a: Queue, b: Queue, c: Queue, ref: Option<nat>, crtc: nat, deferred: bool, waited: bool)
    requires Waiting(a, b, if deferred then ref else None)
    requires Waiting(b, c, if waited then Some(crtc) else None) && (waited ==> ref == Some(crtc))
    requires deferred ==> ref.Some? && ref.value != crtc
    ensures Waiting(a, c, if deferred || waited then ref else None)
  {
    hide Kept, Opened;
    if waited {
      KeptWaiting(a, b, c, ref);
    } else {
      WaitingKept(a, b, c, if deferred then ref else None);
    }
  }

  lemma AmongNext(attempts: seq<Attempt>, i: nat, on: Option<nat>)
    requires i < |attempts|
    requires on.Some? ==> on.value == attempts[i].crtc || Among(attempts, i, on.value)
    ensures on.Some? ==> Among(attempts, i + 1, on.value)
  {
  }

  lemma RoundDone(a: World, b: World, r: nat, flip: Flip, i: nat, start: World)
    requires i < |flip.attempts| && a.q.issued <= b.q.issued
    requires FromFirst(a.q.issued, r, flip.attempts, i) && Entered(a, r, flip, i, start)
    requires Passes(flip.attempts[i], flip.ref, start.scanout.Keys) ==>
               HasEntry(b, r, flip.attempts[i].crtc, flip) && CanSubmit(flip.attempts[i], flip, start.fbs.slots)
    requires forall s: nat :: IsFlip(b.q.issued, s, r) ==>
             IsFlip(a.q.issued, s, r) || b.q.issued[s - 1].crtc == flip.attempts[i].crtc
    ensures FromFirst(b.q.issued, r, flip.attempts, i + 1) && Entered(b, r, flip, i + 1, start)
  {
    var attempts := flip.attempts;
    forall s: nat | IsFlip(b.q.issued, s, r) ensures Among(attempts, i + 1, b.q.issued[s - 1].crtc) {
      if IsFlip(a.q.issued, s, r) {
        assert Among(attempts, i, a.q.issued[s - 1].crtc);
      } else {
        assert attempts[i].crtc == b.q.issued[s - 1].crtc;
      }
    }
    forall j | 0 <= j < i + 1 && Passes(attempts[j], flip.ref, start.scanout.Keys)
      ensures HasEntry(b, r, attempts[j].crtc, flip) && CanSubmit(attempts[j], flip, start.fbs.slots)
    {
      if j < i {
        EntryStays(a, b, r, attempts[j].crtc, flip);
      }
    }
  }

  /** A page flip from its start to the end of its submission. */
  lemma GrownOnwardFrom(r: nat, a: World, b: World, c: World, pins: set<nat>)
    requires Idle(a) && r == |a.reqs.refs| && Later(r, a, b) && PixmapsKept(a, b) && Idle(c)
    requires b == c || Grown(r, b, c)
    ensures Onward(a, c, pins) && a.reqs.refs <= c.reqs.refs
  {
    hide WInv;
    if b != c {
      LaterTrans(r, a, b, c);
    }
    forall p | p in pins && PixmapFb(p) in a.fbs.slots ensures SameAt(a, c, PixmapFb(p)) {
      assert SameAt(a, b, PixmapFb(p));
    }
  }

  lemma NoHolder(t: Fbs, x: Slot, fb: nat)
    requires Conserved(t) && fb !in t.refcnt
    ensures Reference(t, x, Some(fb)).fatal
  {
  }

  /** The request ended in the drain, so a handler that makes driver calls ran. */
  lemma CalmEnds(m: World, crtc: nat, r: nat, w: World)
    requires Idle(m) && r in m.reqs.active && m.reqs.active[r].count > 0 && HandlesDeferred(m, crtc, w)
    requires r !in w.reqs.active
    ensures FreedFrom(m, crtc, r, w)
  {
    hide WInv, HandlesDeferred;
    if !Rousable(m.q, crtc) {
      CalmClose(m, crtc, w);
    }
  }

  /** A request with entries that is not over still counts some. */
  lemma Unfinished(w: World, r: nat)
    requires Idle(w) && r in w.reqs.active && w.reqs.active[r].count >= 0
    ensures w.reqs.active[r].count > 0
  {
    assert Counted(w.reqs.active[r], Entries(w.q.issued, w.live, r), false);
  }

  /** v is the state after the wait of a mode set with an ad-hoc FB. */
  ghost predicate AdhocWaited(w: World, v: World, crtc: nat) {
    var s := QueueStep(AdhocFb(w, crtc), OpenWait(crtc));
    Waits(s, v) && (FlipPending(crtc) !in AdhocFb(w, crtc).fbs.slots ==> v == s)
  }

  /** Without a threat, the ad-hoc FB is still there after the wait. */
  lemma AdhocKeptInWait(w: World, v: World, crtc: nat)
    requires Idle(w) && !AtRisk(w, crtc) && AdhocWaited(w, v, crtc)
    ensures w.fbs.created in v.fbs.refcnt
  {
    hide WInv, QueueStep, AdhocFb, Threatened, Reference, RunWait;
    AdhocStart(w, crtc);
    AdhocFbKeeps(w, crtc);
    var s := QueueStep(AdhocFb(w, crtc), OpenWait(crtc));
    if FlipPending(crtc) in s.fbs.slots {
      var moves :| v == RunWait(s, moves);
      QuietRun(s, moves, crtc);
    }
    HeldAlive(v, CrtcFb(crtc));
  }

  /** With the FB gone, the mode set ends in the FatalError. */
  lemma AdhocFatal(w: World, v: World, crtc: nat)
    requires Idle(w) && Conserved(v.fbs) && AdhocWaited(w, v, crtc) && w.fbs.created !in v.fbs.refcnt
    ensures var b := v.(fbs := Reference(v.fbs, CrtcFb(crtc), Some(w.fbs.created)));
            FatalFrom(w, crtc, b) && b.fbs.fatal
  {
    hide WInv, QueueStep, Threatened, RunWait;
    if !AtRisk(w, crtc) {
      AdhocKeptInWait(w, v, crtc);
    }
    NoHolder(v.fbs, CrtcFb(crtc), w.fbs.created);
    AdhocStart(w, crtc);
    AdhocFbKeeps(w, crtc);
    var s := QueueStep(AdhocFb(w, crtc), OpenWait(crtc));
    OpenShape(AdhocFb(w, crtc), crtc);
    var moves :| v == RunWait(s, moves);
    assert AdhocMode(w, crtc, moves) == v.(fbs := Reference(v.fbs, CrtcFb(crtc), Some(w.fbs.created)));
  }

  // ----- What each driver call results in -----

  /** n times a signalled flip is handled, as long as one is pending for the CRTC. */
  ghost predicate FlipsHandled(a: World, crtc: nat, n: nat, b: World)
    decreases n
  {
    if n == 0 then a == b
    else
      exists m ::
        && FlipsHandled(a, crtc, n - 1, m) && FlipPending(crtc) in m.fbs.slots && m.q.flips != []
        && Kept(Apply(m.q, HandleFlip), b.q) && Waits(m, b)
  }

  /** Events are read, as long as a flip is pending for the CRTC. */
  ghost predicate EventsRead(a: World, crtc: nat, seen: seq<Batch>, b: World)
    decreases |seen|
  {
    if seen == [] then a == b
    else
      var front, last := seen[..|seen| - 1], seen[|seen| - 1];
      exists m ::
        && EventsRead(a, crtc, front, m) && FlipPending(crtc) in m.fbs.slots
        && HandlesBatch(m.q, last.events, b.q) && Waits(m, b)
  }

  /** The second loop of the wait, entered without a signalled flip or not at all. If a flip is
      pending at the end, the last read has failed. */
  ghost predicate ReadUntil(a: World, crtc: nat, batches: seq<Batch>, b: World) {
    exists seen: seq<Batch> ::
      && EventsRead(a, crtc, seen, b) && ReadOf(batches, seen) && (seen != [] ==> a.q.flips == [])
      && (FlipPending(crtc) in b.fbs.slots ==> seen != [] && !seen[|seen| - 1].ok)
  }

  /** amdgpu_drm_wait_pending_flip on the CRTC. */
  ghost predicate WaitedOn(a: World, crtc: nat, batches: seq<Batch>, b: World) {
    var start := QueueStep(a, OpenWait(crtc));
    && Waits(start, b) && (FlipPending(crtc) !in a.fbs.slots ==> b == start)
    && exists n: nat, drained :: FlipsHandled(start, crtc, n, drained) && ReadUntil(drained, crtc, batches, b)
  }

  lemma NoneHandled(w: World, crtc: nat)
    ensures FlipsHandled(w, crtc, 0, w) && EventsRead(w, crtc, [], w)
  {
  }

  lemma OneMoreHandled(a: World, crtc: nat, n: nat, m: World, b: World)
    requires FlipsHandled(a, crtc, n, m) && FlipPending(crtc) in m.fbs.slots && m.q.flips != []
    requires Kept(Apply(m.q, HandleFlip), b.q) && Waits(m, b)
    ensures FlipsHandled(a, crtc, n + 1, b)
  {
    hide Kept, Apply, Waits;
  }

  lemma OneMoreRead(a: World, crtc: nat, seen: seq<Batch>, m: World, batch: Batch, b: World)
    requires EventsRead(a, crtc, seen, m) && FlipPending(crtc) in m.fbs.slots
    requires HandlesBatch(m.q, batch.events, b.q) && Waits(m, b)
    ensures EventsRead(a, crtc, seen + [batch], b)
  {
    hide HandlesBatch, Waits;
    var all := seen + [batch];
    assert all[..|all| - 1] == seen && all[|all| - 1] == batch;
  }

  /** The pixmap's FB, if it has or gets one. */
  function WithFb(w: World, pixmap: nat, created: bool): World {
    if PixmapFb(pixmap) in w.fbs.slots || !created then w else w.(fbs := Create(w.fbs, PixmapFb(pixmap)))
  }

  function Dropped(w: World, pixmap: nat): World {
    w.(fbs := Reference(w.fbs, PixmapFb(pixmap), None))
  }

  /** amdgpu_drm_abort_entry of a scanout update that is still pending, which is then forgotten. */
  function UpdateAborted(w: World, crtc: nat): World {
    if crtc !in w.scanout then w
    else
      var v := QueueStep(w, AbortEntry(w.scanout[crtc]));
      v.(scanout := v.scanout - {crtc})
  }

  /** drmmode_crtc_scanout_free. */
  ghost predicate Freed(a: World, crtc: nat, pixmaps: Scanouts, b: World) {
    exists v ::
      && (if crtc in a.scanout then UpdateEnded(a, crtc, pixmaps.batches, v) else v == a)
      && b == Dropped(Dropped(v, pixmaps.first), pixmaps.second)
  }

  ghost predicate UpdateEnded(a: World, crtc: nat, batches: seq<Batch>, b: World) {
    exists u :: WaitedOn(a, crtc, batches, u) && HandlesDeferred(UpdateAborted(u, crtc), crtc, b)
  }

  /** drmmode_crtc_dpms to off. */
  ghost predicate SwitchedOff(a: World, crtc: nat, wasOn: bool, batches: seq<Batch>, b: World) {
    exists u :: (if wasOn then FlipAwaited(a, crtc, batches, u) else u == a) && b == LosesFb(u, crtc)
  }

  ghost predicate FlipAwaited(a: World, crtc: nat, batches: seq<Batch>, b: World) {
    exists v :: WaitedOn(a, crtc, batches, v) && HandlesDeferred(v, crtc, b)
  }

  /** The end of drmmode_set_mode_major. */
  ghost predicate ModeClosed(a: World, crtc: nat, freed: Option<Scanouts>, b: World) {
    exists u :: (if freed.Some? then Freed(a, crtc, freed.value, u) else u == a) && HandlesDeferred(u, crtc, b)
  }

  /** The kernel call of a mode set. */
  function ModeTaken(w: World, crtc: nat, fb: nat, ok: bool): World {
    if ok then w.(fbs := Reference(w.fbs, CrtcFb(crtc), Some(fb))) else w
  }

  /** drmmode_set_mode_major with the FB of the pixmap, or else with an ad-hoc FB. */
  ghost predicate ModeChanged(a: World, crtc: nat, mode: Mode, b: World) {
    var freed := if mode.ok then mode.freed else None;
    var g := WithFb(a, mode.pixmap, mode.created);
    if PixmapFb(mode.pixmap) in g.fbs.slots then
      exists v ::
        WaitedOn(g, crtc, mode.batches, v) && PixmapFb(mode.pixmap) in v.fbs.slots
        && ModeClosed(ModeTaken(v, crtc, v.fbs.slots[PixmapFb(mode.pixmap)], mode.ok), crtc, freed, b)
    else if !mode.made then b == LosesFb(a, crtc)
    else
      exists v ::
        WaitedOn(AdhocFb(a, crtc), crtc, mode.batches, v)
        && ModeClosed(ModeTaken(v, crtc, a.fbs.created, mode.ok), crtc, freed, b)
  }

  /** The vblank of an entry that the kernel will not signal. */
  ghost predicate Emulated(a: World, crtc: nat, event: Event, b: World) {
    if FlipNumbered(a.q.pending, event.seqNo) then b == a
    else HandlesDeferred(QueueStep(QueueStep(a, ToOp(event)), OpenWait(crtc)), crtc, b)
  }

  /** amdgpu_scanout_update. */
  ghost predicate UpdateDone(a: World, crtc: nat, due: bool, memory: bool, vblank: bool, again: Option<Mode>,
                             b: World)
  {
    if !due || crtc in a.scanout || FlipPending(crtc) in a.fbs.slots || !memory then b == a
    else if !vblank then Emulated(SendScanoutUpdate(a, crtc), crtc, Event(NextSeqNo(a.q), 0, 0, 0), b)
    else if again.Some? then ModeChanged(SendScanoutUpdate(a, crtc), crtc, again.value, b)
    else b == SendScanoutUpdate(a, crtc)
  }

  /** amdgpu_scanout_flip. */
  ghost predicate ScanoutFlipped(a: World, crtc: nat, pixmap: nat, created: bool, memory: bool, sent: bool,
                                 vblank: bool, again: Option<Mode>, b: World)
  {
    var g := WithFb(a, pixmap, created);
    if crtc in a.scanout || FlipPending(crtc) in a.fbs.slots then b == a
    else if PixmapFb(pixmap) !in g.fbs.slots || !memory then b == g
    else
      var fb := g.fbs.slots[PixmapFb(pixmap)];
      if sent && !KernelBusy(g, crtc) then b == SendScanoutFlip(g, crtc, fb)
      else exists u ::
             UpdateDone(RefuseScanoutFlip(g, crtc, fb), crtc, true, memory, vblank, again, u) && b == Dropped(u, pixmap)
  }

  /** amdgpu_do_pageflip: it succeeds exactly if there is memory for flipdata, the front pixmap has or
      gets an FB, some CRTC passes the filter and all that do can be submitted. */
  ghost predicate PageFlipDone(a: World, flip: Flip, memory: bool, frontFb: bool, ok: bool, b: World) {
    var r, busy := |a.reqs.refs|, a.scanout.Keys;
    var ready := memory && (frontFb || PixmapFb(flip.front) in a.fbs.slots);
    && (ok <==> ready && SomePass(flip, busy) && AllSubmit(flip, busy, a.fbs.slots))
    && r < |b.reqs.refs| && b.reqs.refs[r] == flip.ref
    && (!ready ==> r !in b.reqs.active
                   && b.reqs.outcomes == a.reqs.outcomes + [Outcome(r, false, None, 0, 0, None)])
    && (r in b.reqs.active && b.reqs.active[r].count < 0 <==> ready && !SomePass(flip, busy))
    && (ok ==> r in b.reqs.active && b.reqs.active[r].count > 0 && EachHasEntry(b, r, flip, busy))
  }

  /** What a driver call made while no page flip is being submitted results in. */
  ghost predicate Did(a: World, cmd: Command, pins: set<nat>, b: World) {
    match cmd
    case UseQueue(op) => b == if UserOp(op) && EnvOp(a, op) then QueueStep(a, op) else a
    case ReadEvents(batch) => HandlesBatch(a.q, batch.events, b.q)
    case EmulateVblank(crtc, event) => Emulated(a, crtc, event, b)
    case PageFlip(flip, memory, frontFb) =>
      if |flip.attempts| > 0 && Distinct(flip.attempts) then exists ok :: PageFlipDone(a, flip, memory, frontFb, ok, b)
      else b == a
    case TearFreeFlip(crtc, pixmap, created, memory, sent, vblank, again) =>
      if pixmap in pins then b == a
      else ScanoutFlipped(a, crtc, pixmap, created, memory, sent, vblank, Allowed(again, pins), b)
    case UpdateScanout(crtc, due, memory, vblank, again) =>
      UpdateDone(a, crtc, due, memory, vblank, Allowed(again, pins), b)
    case DestroyPixmap(pixmap) => b == if pixmap in pins then a else Dropped(a, pixmap)
    case FreeScanout(crtc, pixmaps) => if Free(Some(pixmaps), pins) then Freed(a, crtc, pixmaps, b) else b == a
    case PowerOff(crtc, wasOn, batches) => SwitchedOff(a, crtc, wasOn, batches, b)
    case ModeSet(crtc, mode) => ModeChanged(a, crtc, AllowedMode(mode, pins), b)
  }

  /** No pixmap that a driver path under way works on is freed. */
  function AllowedMode(mode: Mode, pins: set<nat>): Mode {
    if Free(mode.freed, pins) then mode else mode.(freed := None)
  }

  function Allowed(again: Option<Mode>, pins: set<nat>): Option<Mode> {
    if again.Some? then Some(AllowedMode(again.value, pins)) else None
  }

  /** What driver calls made one after the other result in. */
  ghost predicate DidAll(a: World, cmds: seq<Command>, pins: set<nat>, b: World)
    decreases |cmds|
  {
    if cmds == [] then a == b
    else
      var front, last := cmds[..|cmds| - 1], cmds[|cmds| - 1];
      exists m :: DidAll(a, front, pins, m) && Did(m, last, pins, b)
  }

  lemma DidMore(a: World, cmds: seq<Command>, m: World, cmd: Command, pins: set<nat>, b: World)
    requires DidAll(a, cmds, pins, m) && Did(m, cmd, pins, b)
    ensures DidAll(a, cmds + [cmd], pins, b)
  {
    var all := cmds + [cmd];
    assert all[..|all| - 1] == cmds && all[|all| - 1] == cmd;
  }

  lemma NotRoused(a: World, b: World, op: Op)
    requires !op.HandleFlip? && !op.HandleVblank? && b == QueueStep(a, op) && b.q == Apply(a.q, op)
    ensures !Roused(a, b)
  {
    hide QueueStep;
    OnlyAborts(a.q, op);
  }

  lemma OnlyAborts(q: Queue, op: Op)
    requires !op.HandleFlip? && !op.HandleVblank?
    ensures var q' := Apply(q, op); |q'.log| > |q.log| ==> q'.log[|q'.log| - 1].aborted
  {
  }

  lemma AbortedDies(w: World, n: nat)
    requires WInv(w) && Submitting(w) && EnvOp(w, AbortEntry(n)) && Count(w.q.pending, n) == 1
    ensures n !in QueueStep(w, AbortEntry(n)).live
  {
    PendingNotElsewhere(w.q, n);
    assert CensusAt(w.q, n);
    CountMember(w.q.flips, n);
    AbortedCalled(w.q, n);
    QueueStepKeeps(w, AbortEntry(n));
    StepFrame(w, AbortEntry(n));
  }

  lemma SlotNoPixmap(w: World, x: Slot, next: Option<nat>)
    requires !x.PixmapFb?
    ensures NoNewPixmap(w, w.(fbs := Reference(w.fbs, x, next)), None)
  {
  }

  /** The front pixmap has its FB by the time the CRTCs are looked at. */
  lemma SetupChance(a: World, b: World, flip: Flip)
    requires PixmapsKept(a, b) && NoNewPixmap(a, b, Some(flip.front)) && PixmapFb(flip.front) in b.fbs.slots
    ensures forall x :: CanSubmit(x, flip, b.fbs.slots) <==> CanSubmit(x, flip, a.fbs.slots)
    ensures forall busy :: AllSubmit(flip, busy, b.fbs.slots) <==> AllSubmit(flip, busy, a.fbs.slots)
  {
    forall x ensures CanSubmit(x, flip, b.fbs.slots) <==> CanSubmit(x, flip, a.fbs.slots) {
      assert PixmapFb(x.pixmap) in a.fbs.slots ==> SameAt(a, b, PixmapFb(x.pixmap));
    }
  }

  lemma ModeRefused(w: World, crtc: nat, fb: nat)
    ensures ModeTaken(w, crtc, fb, false) == w
  {
  }

  lemma AdhocWait(w: World, crtc: nat, batches: seq<Batch>, v: World)
    requires WaitedOn(AdhocFb(w, crtc), crtc, batches, v)
    ensures AdhocWaited(w, v, crtc)
  {
  }
}
