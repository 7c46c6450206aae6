/**
 Setting a mode with an ad-hoc FB. Such an FB is held by the CRTC's own slot only while the
 driver waits for a pending flip, and a flip that completes meanwhile, or a driver call that a
 handler makes meanwhile, can replace it. This module proves exactly when the mode set is safe.
 */
module FlipModeset {
  import opened QueueModel
  import opened QueueSafety
  import opened QueueDriver
  import opened Common
  import opened FbRefs
  import opened FlipModel
  import opened FlipSafety
  import opened FlipRuns
  import opened FlipSubmit
  import opened FlipEnv

  /** The entry completes by handing an FB to the CRTC. */
  predicate Carries(t: Fbs, e: Entry, crtc: nat) {
    e.crtc == crtc && (e.procs.ScanoutFlip? || (e.procs.DrmmodeFlip? && FlipDataFb(e.data, crtc) in t.slots))
  }

  /** An event for the entry, while the driver waits for a flip of the CRTC, can lead to another
      FB for it: the entry completes a TearFree flip there, or its handler makes driver calls, a
      page flip's with the last of its CRTCs.
      A vblank handler of this CRTC, or of one with an open wait, runs only after the wait. */
  predicate Threatens(q: Queue, e: Entry, crtc: nat) {
    && e.handler
    && match e.procs
       case ScanoutUpdate => false
       case ScanoutFlip => e.crtc == crtc && e in q.pending + q.flips
       case DrmmodeFlip => e in q.pending + q.flips
       case _ => e.crtc != crtc && Level(q, e.crtc) == 0 && e in q.pending + q.vblanks
  }

  predicate Threatened(q: Queue, crtc: nat) {
    exists e :: e in q.pending + q.flips + q.vblanks && Threatens(q, e, crtc)
  }

  /** A mode set with an ad-hoc FB would wait, and an entry could take the FB away meanwhile. */
  predicate AtRisk(w: World, crtc: nat) {
    FlipPending(crtc) in w.fbs.slots && Threatened(w.q, crtc)
  }

  /** The ad-hoc FB in the CRTC's slot. */
  function AdhocFb(w: World, crtc: nat): World {
    w.(fbs := Create(Reference(w.fbs, CrtcFb(crtc), None), CrtcFb(crtc)))
  }

  /** drmmode_set_mode_major when there is no FB for the mode at all. */
  function LosesFb(w: World, crtc: nat): World {
    w.(fbs := Reference(w.fbs, CrtcFb(crtc), None))
  }

  /** drmmode_set_mode_major with an ad-hoc FB and a mode the kernel takes: create the FB, wait
      for a pending flip while events and the driver calls of their handlers are served, then
      reference the FB again. */
  ghost function AdhocMode(w: World, crtc: nat, moves: seq<Move>): World {
    var w1 := AdhocFb(w, crtc);
    var w2 := QueueStep(w1, OpenWait(crtc));
    var w3 := if FlipPending(crtc) in w2.fbs.slots then RunWait(w2, moves) else w2;
    w3.(fbs := Reference(w3.fbs, CrtcFb(crtc), Some(w.fbs.created)))
  }

  lemma AdhocFbKeeps(w: World, crtc: nat)
    requires WInv(w)
    ensures var v := AdhocFb(w, crtc); WInv(v) && v.fbs.slots == w.fbs.slots[CrtcFb(crtc) := w.fbs.created]
  {
    hide WInv, Reference;
    var slot := CrtcFb(crtc);
    Conserves(w);
    PlainReference(w, slot, None);
    ReferenceConserves(w.fbs, slot, None);
    var v := w.(fbs := Reference(w.fbs, slot, None));
    PlainCreate(v, slot);
    assert v.fbs.slots[slot := w.fbs.created] == w.fbs.slots[slot := w.fbs.created];
  }

  // ----- What callbacks do to the CRTC's FB -----

  /** The scanned-out FB of a CRTC stays unless a flip carrying an FB completes there. */
  lemma CrtcFbKept(w: World, crtc: nat)
    requires w.q.log != [] && CrtcFb(crtc) in w.fbs.slots
    requires var c := w.q.log[|w.q.log| - 1]; c.aborted || !Carries(w.fbs, c.entry, crtc)
    ensures CrtcFb(crtc) in Callback(w).fbs.slots && Callback(w).fbs.slots[CrtcFb(crtc)] == w.fbs.slots[CrtcFb(crtc)]
  {
    var c, x, t := w.q.log[|w.q.log| - 1], CrtcFb(crtc), w.fbs;
    var e := c.entry;
    var fp, fd := FlipPending(e.crtc), FlipDataFb(e.data, e.crtc);
    ReferenceOther(t, fp, None, x);
    if e.procs.DrmmodeFlip? {
      var t1 := if SameFb(t, fp, fd) then Reference(t, fp, None) else t;
      ReferenceOther(t1, fd, None, x);
      if !c.aborted && e.crtc != crtc {
        FlipFbsOther(t, e.data, e.crtc, x);
      }
    } else if e.procs.ScanoutFlip? && e.crtc != crtc {
      ScanoutFbsOther(t, e.crtc, e.data, x);
    }
  }

  // ----- No threat: safe -----

  /** Where the entries of the lists come from in a step of the wait. */
  lemma EntriesFrom(q: Queue, op: Op, e: Entry) returns (e': Entry)
    requires WaitOp(op)
    ensures var q' := Apply(q, op);
            && q'.level == q.level && e'.crtc == e.crtc && e'.procs == e.procs && e'.handler == e.handler
            && (e in q'.pending ==> e' in q.pending)
            && (e in q'.flips ==> e' in q.pending || e' in q.flips)
            && (e in q'.vblanks ==> e' in q.pending || e' in q.vblanks)
  {
    e' := e;
    if op.Signal? {
      var i := IndexOf(q.pending, op.seqNo);
      if i < |q.pending| && e == q.pending[i].(usec := op.sec * 1000000 + op.usec, frame := op.frame) {
        e' := if e in q.pending then e else q.pending[i];
      }
    }
  }

  /** A threat after a step of the wait was one before. */
  lemma ThreatFrom(q: Queue, op: Op, crtc: nat)
    requires WaitOp(op) && Threatened(Apply(q, op), crtc)
    ensures Threatened(q, crtc)
  {
    var q' := Apply(q, op);
    var e :| e in q'.pending + q'.flips + q'.vblanks && Threatens(q', e, crtc);
    var e' := EntriesFrom(q, op, e);
    hide Apply;
    assert Threatens(q, e', crtc);
  }

  /** A handler runs only for the first signalled flip or vblank. */
  lemma HandledFrom(q: Queue, op: Op)
    requires WaitOp(op) && Apply(q, op).log != q.log && !Apply(q, op).log[|q.log|].aborted
    ensures var e := Apply(q, op).log[|q.log|].entry;
            e.handler && (e in q.flips || (e in q.vblanks && Level(q, e.crtc) == 0))
  {
  }

  /** Signalled flips are flips, signalled vblanks are not. */
  lemma KindOf(w: World, e: Entry)
    requires WInv(w)
    ensures e in w.q.flips ==> e.procs.DrmmodeFlip? || e.procs.ScanoutFlip?
    ensures e in w.q.vblanks ==> !e.procs.DrmmodeFlip? && !e.procs.ScanoutFlip?
  {
    if e in w.q.flips || e in w.q.vblanks {
      assert Known(w.q.issued, e);
      assert w.q.issued[e.seqNo - 1] in w.q.issued;
    }
  }

  /** Without a threat, no callback of the wait makes driver calls or brings the CRTC an FB. */
  lemma CalledHarmless(w: World, op: Op, crtc: nat)
    requires WInv(w) && WaitOp(op) && !Threatened(w.q, crtc) && Level(w.q, crtc) > 0 && Apply(w.q, op).log != w.q.log
    ensures var c := Apply(w.q, op).log[|w.q.log|];
            && (c.aborted || !Carries(w.fbs, c.entry, crtc))
            && (c.aborted || c.entry.procs.ScanoutFlip? || c.entry.procs.ScanoutUpdate?)
  {
    var c := Apply(w.q, op).log[|w.q.log|];
    if !c.aborted {
      HandledFrom(w.q, op);
      KindOf(w, c.entry);
      assert !Threatens(w.q, c.entry, crtc);
    }
  }

  lemma WaitOpLevels(q: Queue, op: Op, crtc: nat)
    requires WaitOp(op)
    ensures Level(Apply(q, op), crtc) == Level(q, crtc)
  {
  }

  lemma QuietMove(w: World, m: Move, crtc: nat)
    requires Idle(w) && !Threatened(w.q, crtc) && Level(w.q, crtc) > 0 && CrtcFb(crtc) in w.fbs.slots
    ensures var w' := WaitMove(w, m);
            && Idle(w') && !Threatened(w'.q, crtc) && Level(w'.q, crtc) > 0
            && SameAt(w, w', CrtcFb(crtc))
  {
    hide WInv, QueueInv, Inv, Apply, Callback, Threatened, Carries;
    if WaitOp(m.op) {
      Parts(w);
      WaitMoveKeeps(w, m);
      QueueEffect(w.q, m.op);
      StepFrame(w, m.op);
      var q' := Apply(w.q, m.op);
      WaitOpLevels(w.q, m.op, crtc);
      if Threatened(q', crtc) {
        ThreatFrom(w.q, m.op, crtc);
      }
      if q'.log != w.q.log {
        CalledHarmless(w, m.op, crtc);
        CrtcFbKept(w.(q := q', live := w.live - {q'.log[|w.q.log|].entry.seqNo}), crtc);
      }
    }
  }

  lemma {:induction false} QuietRun(w: World, moves: seq<Move>, crtc: nat)
    requires Idle(w) && !Threatened(w.q, crtc) && Level(w.q, crtc) > 0 && CrtcFb(crtc) in w.fbs.slots
    ensures var w' := RunWait(w, moves);
            && Idle(w') && !Threatened(w'.q, crtc) && Level(w'.q, crtc) > 0
            && SameAt(w, w', CrtcFb(crtc))
  {
    if moves != [] {
      QuietRun(w, moves[..|moves| - 1], crtc);
      QuietMove(RunWait(w, moves[..|moves| - 1]), moves[|moves| - 1], crtc);
    }
  }

  /** The state in which the wait starts. */
  lemma AdhocStart(w: World, crtc: nat)
    requires Idle(w)
    ensures var v := QueueStep(AdhocFb(w, crtc), OpenWait(crtc));
            && Idle(v) && v.fbs.slots == w.fbs.slots[CrtcFb(crtc) := w.fbs.created]
            && Level(v.q, crtc) > 0 && (Threatened(v.q, crtc) <==> Threatened(w.q, crtc))
            && (FlipPending(crtc) in v.fbs.slots <==> FlipPending(crtc) in w.fbs.slots)
  {
    hide WInv, Reference, Create, Threatened, Later, Env;
    var u := AdhocFb(w, crtc);
    AdhocFbKeeps(w, crtc);
    OpenedIdle(u, crtc);
    OpenThreats(w.q, crtc);
  }

  lemma OpenedIdle(w: World, crtc: nat)
    requires Idle(w)
    ensures var v := QueueStep(w, OpenWait(crtc));
            Idle(v) && v.fbs == w.fbs && v.q == Apply(w.q, OpenWait(crtc)) && Level(v.q, crtc) > 0
  {
    hide WInv, Submitting, Later, QueueStep, Apply;
    IdleReady(w);
    EnvStep(w, OpenWait(crtc));
    OpenShape(w, crtc);
    IdleReady(QueueStep(w, OpenWait(crtc)));
  }

  lemma OpenShape(w: World, crtc: nat)
    ensures var v := QueueStep(w, OpenWait(crtc));
            v.fbs == w.fbs && v.q == Apply(w.q, OpenWait(crtc)) && Level(v.q, crtc) > 0
  {
  }

  lemma OpenThreats(q: Queue, crtc: nat)
    ensures Threatened(Apply(q, OpenWait(crtc)), crtc) <==> Threatened(q, crtc)
  {
    var q' := Apply(q, OpenWait(crtc));
    assert forall e :: Threatens(q', e, crtc) <==> Threatens(q, e, crtc);
  }

  lemma AdhocSafe(w: World, crtc: nat, moves: seq<Move>)
    requires Idle(w) && !AtRisk(w, crtc)
    ensures Idle(AdhocMode(w, crtc, moves))
  {
    hide WInv, QueueStep, AdhocFb, Threatened, Reference, RunWait;
    AdhocStart(w, crtc);
    var v := QueueStep(AdhocFb(w, crtc), OpenWait(crtc));
    if FlipPending(crtc) in v.fbs.slots {
      QuietRun(v, moves, crtc);
      v := RunWait(v, moves);
    }
    HeldAlive(v, CrtcFb(crtc));
    PlainReference(v, CrtcFb(crtc), Some(w.fbs.created));
  }

  lemma HeldAlive(w: World, x: Slot)
    requires WInv(w) && x in w.fbs.slots
    ensures w.fbs.slots[x] in w.fbs.refcnt
  {
  }

  // ----- A threat: some run frees the FB -----

  ghost predicate OnlyCrtc(t: Fbs, crtc: nat, a: nat) {
    forall x :: x in t.slots && t.slots[x] == a ==> x == CrtcFb(crtc)
  }

  ghost predicate Held(t: Fbs, crtc: nat, a: nat) {
    CrtcFb(crtc) in t.slots && t.slots[CrtcFb(crtc)] == a
  }

  /** FB slots after the completion of entry e. */
  lemma CompletionSlots(w: World, v: World, e: Entry, x: Slot)
    requires WInv(w) && v.fbs == w.fbs && v.q.log != [] && v.q.log[|v.q.log| - 1].entry == e &&
             !v.q.log[|v.q.log| - 1].aborted
    requires e.seqNo in w.live && Known(w.q.issued, e)
    requires e.procs.DrmmodeFlip? || e.procs.ScanoutFlip?
    ensures x == CrtcFb(e.crtc) && Carries(w.fbs, e, e.crtc) ==>
              x in Callback(v).fbs.slots &&
              exists y :: y in w.fbs.slots && !y.CrtcFb? && Callback(v).fbs.slots[x] == w.fbs.slots[y]
    ensures !Carries(w.fbs, e, e.crtc) ==> Callback(v).fbs == w.fbs
    ensures x.FlipDataFb? && x in w.fbs.slots && x != FlipDataFb(e.data, e.crtc) ==> x in Callback(v).fbs.slots
  {
    hide FlipHandlerFbs, ScanoutHandlerFbs, FlipAbortFbs, ScanoutAbortFbs, FlipHandlerReq, FlipAbortReq, QueueInv,
        ReqCounts, ReqTimes, ReqLast;
    if e.procs.DrmmodeFlip? {
      if FlipDataFb(e.data, e.crtc) in w.fbs.slots {
        FlipHandlerFbsSlots(w.fbs, e.data, e.crtc);
        assert FlipDataFb(e.data, e.crtc) in w.fbs.slots;
      } else {
        NothingHandedOver(w.fbs, e.data, e.crtc);
      }
    } else {
      assert IsScanoutFlip(w.q.issued, e.seqNo, e.crtc, e.data);
      ScanoutFbsSlots(w.fbs, e.crtc, e.data, false);
      assert FlipPending(e.crtc) in w.fbs.slots;
    }
  }

  /** The first signalled flip is live, of a flip kind, and its handler runs next. */
  lemma HeadFlip(w: World)
    requires WInv(w) && w.q.flips != []
    ensures var e := w.q.flips[0];
            && e.seqNo in w.live && Known(w.q.issued, e) && (e.procs.DrmmodeFlip? || e.procs.ScanoutFlip?) && e.handler
            && Apply(w.q, HandleFlip).log == w.q.log + [Call(e, false, Level(w.q, e.crtc))]
            && QueueStep(w, HandleFlip) == Callback(w.(q := Apply(w.q, HandleFlip), live := w.live - {e.seqNo}))
  {
    var e := w.q.flips[0];
    assert e in w.q.flips && Known(w.q.issued, e);
    assert w.q.issued[e.seqNo - 1] in w.q.issued;
    CountMember(w.q.flips, e.seqNo);
    ListedNotCalled(w.q, e.seqNo);
  }

  /** Nobody holds the ad-hoc FB any more. */
  ghost predicate Lost(w: World, crtc: nat, a: nat) {
    Idle(w) && OnlyCrtc(w.fbs, crtc, a) && !Held(w.fbs, crtc, a)
  }

  /** Some run of the wait takes the FB away. */
  ghost predicate CanLose(w: World, crtc: nat, a: nat) {
    exists u :: Waits(w, u) && Lost(u, crtc, a)
  }

  lemma CanLoseAfter(w: World, w': World, crtc: nat, a: nat)
    requires Waits(w, w') && CanLose(w', crtc, a)
    ensures CanLose(w, crtc, a)
  {
    hide Waits, Lost;
    var u :| Waits(w', u) && Lost(u, crtc, a);
    WaitsTrans(w, w', u);
  }

  /** Handling the first flip gives the ad-hoc FB to no other slot, and takes it from the CRTC
      if the flip carries another. */
  lemma FlipStep(w: World, crtc: nat, a: nat)
    requires Idle(w) && w.q.flips != [] && OnlyCrtc(w.fbs, crtc, a)
    ensures var w' := QueueStep(w, HandleFlip);
            && Idle(w') && OnlyCrtc(w'.fbs, crtc, a) && w'.q.flips == w.q.flips[1..]
            && (Held(w'.fbs, crtc, a) ==> !Carries(w.fbs, w.q.flips[0], crtc))
            && w'.q.pending == w.q.pending && w'.q.issued == w.q.issued
            && (w.q.flips[0].procs.DrmmodeFlip? && w.q.flips[0].data !in w'.reqs.active ==> Roused(w, w'))
  {
    HeadFlip(w);
    StepFrame(w, HandleFlip);
    EnvStep(w, HandleFlip);
    var e := w.q.flips[0];
    var v := w.(q := Apply(w.q, HandleFlip), live := w.live - {e.seqNo});
    var u := Callback(v).fbs;
    forall x | x in u.slots && u.slots[x] == a ensures x == CrtcFb(crtc) && !Carries(w.fbs, e, crtc) {
      CompletionSlots(w, v, e, x);
      if x != CrtcFb(e.crtc) {
        CallbackShrinks(v, x);
      }
    }
  }

  /** A handler that sets a mode without an FB on the CRTC takes the ad-hoc FB away. */
  lemma HandlerLoses(w: World, op: Op, crtc: nat, a: nat)
    requires WaitOp(op) && var w1 := QueueStep(w, op); Idle(w1) && Roused(w, w1) && OnlyCrtc(w1.fbs, crtc, a)
    ensures CanLose(w, crtc, a)
  {
    var w1 := QueueStep(w, op);
    var u := LosesFb(w1, crtc);
    hide QueueStep, Waits, WInv, Reference, Roused;
    PlainReference(w1, CrtcFb(crtc), None);
    Conserves(w1);
    ReferenceConserves(w1.fbs, CrtcFb(crtc), None);
    KeptSelf(w1.q);
    LaterRequest(w1, u, |w1.reqs.refs|);
    assert Legal(w1, u);
    WaitsMove(w, Move(op, Some(u)));
    assert Lost(u, crtc, a);
  }

  /** A signalled TearFree flip of the CRTC is handled when its turn comes. */
  lemma {:induction false} FlipLoses(w: World, crtc: nat, a: nat, e: Entry)
    requires Idle(w) && OnlyCrtc(w.fbs, crtc, a) && e in w.q.flips
    requires e.procs.ScanoutFlip? && e.crtc == crtc
    ensures CanLose(w, crtc, a)
    decreases |w.q.flips|
  {
    hide WInv, QueueStep, Waits, Roused;
    var w1 := QueueStep(w, HandleFlip);
    FlipStep(w, crtc, a);
    WaitsMove(w, Move(HandleFlip, None));
    if w.q.flips[0] != e {
      FlipLoses(w1, crtc, a, e);
      CanLoseAfter(w, w1, crtc, a);
    } else {
      assert Lost(w1, crtc, a);
    }
  }

  /** An entry of page flip r. */
  predicate IsOf(e: Entry, r: nat) {
    e.procs.DrmmodeFlip? && e.data == r
  }

  /** An unfinished request with entries has one that is pending or signalled. */
  lemma RequestListed(w: World, s: nat, r: nat) returns (e: Entry)
    requires Idle(w) && r in w.reqs.active && IsFlip(w.q.issued, s, r)
    ensures (e in w.q.pending || e in w.q.flips) && IsOf(e, r)
  {
    var es := Entries(w.q.issued, w.live, r);
    assert Counted(w.reqs.active[r], es, false);
    assert |es| > 0;
    var n :| n in es;
    e := LiveListed(w, n);
  }

  lemma LiveListed(w: World, n: nat) returns (e: Entry)
    requires WInv(w) && n in w.live && 1 <= n <= |w.q.issued| && w.q.issued[n - 1].procs.DrmmodeFlip?
    ensures (e in w.q.pending || e in w.q.flips) && IsOf(e, w.q.issued[n - 1].data)
  {
    assert CensusAt(w.q, n);
    assert w.q.issued[n - 1] in w.q.issued;
    CountMember(w.q.pending, n);
    CountMember(w.q.flips, n);
    CountMember(w.q.vblanks, n);
    CountMember(w.q.deferred, n);
    e :| (e in w.q.pending || e in w.q.flips) && e.seqNo == n;
    assert Known(w.q.issued, e);
  }

  /** The event of an entry without its handler aborts it. */
  lemma AbortStep(w: World, e: Entry, crtc: nat, a: nat)
    requires Idle(w) && OnlyCrtc(w.fbs, crtc, a) && e in w.q.pending && !e.handler
    ensures var w' := QueueStep(w, Signal(e.seqNo, 0, 0, 0));
            && Idle(w') && OnlyCrtc(w'.fbs, crtc, a) && w'.q.flips == w.q.flips && |w'.q.pending| < |w.q.pending|
            && (forall x :: x in w.q.pending && x != e ==> x in w'.q.pending) && !Roused(w, w')
  {
    var op := Signal(e.seqNo, 0, 0, 0);
    EnvStep(w, op);
    StepFrame(w, op);
    PendingUnique(w.q, e);
    KeepsOthers(w.q.pending, IndexOf(w.q.pending, e.seqNo));
    var q' := Apply(w.q, op);
    assert q'.log == w.q.log + [Call(e, true, Level(w.q, e.crtc))] && q'.issued == w.q.issued;
    AbortedOnly(w, w.(q := q', live := w.live - {e.seqNo}), crtc, a);
  }

  lemma AbortedOnly(w: World, v: World, crtc: nat, a: nat)
    requires OnlyCrtc(w.fbs, crtc, a) && v.fbs == w.fbs && v.q.log != [] && v.q.log[|v.q.log| - 1].aborted
    ensures OnlyCrtc(Callback(v).fbs, crtc, a)
  {
    var u := Callback(v).fbs;
    forall x | x in u.slots && u.slots[x] == a ensures x == CrtcFb(crtc) {
      CallbackShrinks(v, x);
    }
  }

  /** Once all events of a page flip that has a handler left are in, its last callback is a
      completion: first those without a handler are aborted, then the others are signalled and
      handled in turn. */
  lemma {:induction false} RequestLoses(w: World, crtc: nat, a: nat, e: Entry)
    requires Idle(w) && OnlyCrtc(w.fbs, crtc, a) && (e in w.q.pending || e in w.q.flips)
    requires e.handler && e.procs.DrmmodeFlip?
    ensures CanLose(w, crtc, a)
    decreases |w.q.pending|, |w.q.flips|
  {
    hide WInv, QueueStep, Waits, Roused, CanLose, OnlyCrtc;
    var r := e.data;
    if p :| p in w.q.pending && IsOf(p, r) && !p.handler {
      var op := Signal(p.seqNo, 0, 0, 0);
      AbortStep(w, p, crtc, a);
      WaitsMove(w, Move(op, None));
      RequestLoses(QueueStep(w, op), crtc, a, e);
      CanLoseAfter(w, QueueStep(w, op), crtc, a);
    } else if p :| p in w.q.pending && IsOf(p, r) {
      var op := Signal(p.seqNo, 0, 0, 0);
      SignalStep(w, p);
      SignalQuiet(w, p);
      WaitsMove(w, Move(op, None));
      RequestLoses(QueueStep(w, op), crtc, a, if p == e then e.(usec := 0, frame := 0) else e);
      CanLoseAfter(w, QueueStep(w, op), crtc, a);
    } else {
      SignalledLoses(w, crtc, a, e);
    }
  }

  lemma FlipIssued(w: World, e: Entry)
    requires WInv(w) && e in w.q.flips && e.procs.DrmmodeFlip?
    ensures IsFlip(w.q.issued, e.seqNo, e.data)
  {
    assert Known(w.q.issued, e);
  }

  /** The same when all its entries are signalled. */
  lemma {:induction false} SignalledLoses(w: World, crtc: nat, a: nat, e: Entry)
    requires Idle(w) && OnlyCrtc(w.fbs, crtc, a) && e in w.q.flips && e.procs.DrmmodeFlip?
    requires forall p :: p in w.q.pending ==> !IsOf(p, e.data)
    ensures CanLose(w, crtc, a)
    decreases |w.q.flips|
  {
    hide WInv, QueueStep, Waits, Roused, CanLose, OnlyCrtc, IsFlip;
    FlipStep(w, crtc, a);
    FlipIssued(w, e);
    var w1, h := QueueStep(w, HandleFlip), w.q.flips[0];
    WaitsMove(w, Move(HandleFlip, None));
    if IsOf(h, e.data) && e.data !in w1.reqs.active {
      HandlerLoses(w, HandleFlip, crtc, a);
    } else {
      var next := e;
      if IsOf(h, e.data) {
        next := RequestListed(w1, e.seqNo, e.data);
      }
      SignalledLoses(w1, crtc, a, next);
      CanLoseAfter(w, w1, crtc, a);
    }
  }

  /** Handling the first vblank touches neither FBs nor requests. */
  lemma VblankStep(w: World)
    requires WInv(w) && w.q.vblanks != []
    ensures var w', e := QueueStep(w, HandleVblank), w.q.vblanks[0];
            && w'.fbs == w.fbs && w'.reqs == w.reqs && w'.q.vblanks == w.q.vblanks[1..]
            && (forall c :: Level(w'.q, c) == Level(w.q, c))
            && (Level(w.q, e.crtc) == 0 && !e.procs.ScanoutUpdate? ==> Roused(w, w'))
  {
    StepFrame(w, HandleVblank);
    var e := w.q.vblanks[0];
    assert e in w.q.vblanks && Known(w.q.issued, e);
    KindOf(w, e);
  }

  /** A signalled vblank that threatens the CRTC is handled when its turn comes. */
  lemma {:induction false} VblankLoses(w: World, crtc: nat, a: nat, e: Entry)
    requires Idle(w) && OnlyCrtc(w.fbs, crtc, a) && e in w.q.vblanks && Level(w.q, e.crtc) == 0
    requires !e.procs.ScanoutUpdate?
    ensures CanLose(w, crtc, a)
    decreases |w.q.vblanks|
  {
    hide QueueStep, Waits, Roused;
    var w1 := QueueStep(w, HandleVblank);
    VblankStep(w);
    EnvStep(w, HandleVblank);
    hide WInv;
    if w.q.vblanks[0] != e {
      WaitsMove(w, Move(HandleVblank, None));
      VblankLoses(w1, crtc, a, e);
      CanLoseAfter(w, w1, crtc, a);
    } else {
      HandlerLoses(w, HandleVblank, crtc, a);
    }
  }

  /** The event of a pending entry moves it to the list of its kind. */
  lemma SignalStep(w: World, e: Entry)
    requires Idle(w) && e in w.q.pending && e.handler
    ensures var w' := QueueStep(w, Signal(e.seqNo, 0, 0, 0));
            var e' := e.(usec := 0, frame := 0);
            && Idle(w') && w'.fbs == w.fbs && (forall c :: Level(w'.q, c) == Level(w.q, c))
            && |w'.q.pending| < |w.q.pending| && (forall x :: x in w.q.pending && x != e ==> x in w'.q.pending)
            && (forall x :: x in w.q.flips ==> x in w'.q.flips)
            && (if e.procs.DrmmodeFlip? || e.procs.ScanoutFlip? then e' in w'.q.flips else e' in w'.q.vblanks)
  {
    var op := Signal(e.seqNo, 0, 0, 0);
    EnvStep(w, op);
    StepFrame(w, op);
    PendingUnique(w.q, e);
    KeepsOthers(w.q.pending, IndexOf(w.q.pending, e.seqNo));
    assert Known(w.q.issued, e) && w.q.issued[e.seqNo - 1] in w.q.issued;
    var e' := e.(usec := 0, frame := 0);
    var q' := Apply(w.q, op);
    if e.isFlip {
      assert q'.flips[|w.q.flips|] == e';
    } else {
      assert q'.vblanks[|w.q.vblanks|] == e';
    }
    assert q'.log == w.q.log && q'.issued == w.q.issued;
  }

  lemma PendingUnique(q: Queue, e: Entry)
    requires Inv(q) && e in q.pending
    ensures IndexOf(q.pending, e.seqNo) < |q.pending| && q.pending[IndexOf(q.pending, e.seqNo)] == e
  {
    var i := IndexOf(q.pending, e.seqNo);
    var k :| 0 <= k < |q.pending| && q.pending[k] == e;
    assert CensusAt(q, e.seqNo);
    if i != k {
      CountWithout(q.pending, i, e.seqNo);
      assert Without(q.pending, i)[k - 1] == e;
      CountMember(Without(q.pending, i), e.seqNo);
    }
  }

  lemma ThreatLoses(w: World, crtc: nat, a: nat)
    requires Idle(w) && OnlyCrtc(w.fbs, crtc, a) && Threatened(w.q, crtc)
    ensures CanLose(w, crtc, a)
  {
    hide WInv, QueueStep, Waits, Roused, CanLose;
    var e :| e in w.q.pending + w.q.flips + w.q.vblanks && Threatens(w.q, e, crtc);
    if e.procs.DrmmodeFlip? {
      RequestLoses(w, crtc, a, e);
    } else if e in w.q.pending {
      var op := Signal(e.seqNo, 0, 0, 0);
      var w1, e' := QueueStep(w, op), e.(usec := 0, frame := 0);
      SignalStep(w, e);
      WaitsMove(w, Move(op, None));
      SignalQuiet(w, e);
      if e.procs.ScanoutFlip? {
        FlipLoses(w1, crtc, a, e');
      } else {
        VblankLoses(w1, crtc, a, e');
      }
      CanLoseAfter(w, w1, crtc, a);
    } else if e.procs.ScanoutFlip? {
      FlipLoses(w, crtc, a, e);
    } else {
      VblankLoses(w, crtc, a, e);
    }
  }

  /** Signalling an entry that has its handler runs nothing. */
  lemma SignalQuiet(w: World, e: Entry)
    requires Idle(w) && e in w.q.pending && e.handler
    ensures !Roused(w, QueueStep(w, Signal(e.seqNo, 0, 0, 0)))
  {
    var op := Signal(e.seqNo, 0, 0, 0);
    PendingUnique(w.q, e);
    StepFrame(w, op);
  }

  lemma NotHeldDead(t: Fbs, crtc: nat, a: nat)
    requires Conserved(t) && OnlyCrtc(t, crtc, a) && !Held(t, crtc, a)
    ensures Reference(t, CrtcFb(crtc), Some(a)).fatal
  {
    assert Holders(t.slots, a) == {};
    ReferenceFatalIff(t, CrtcFb(crtc), Some(a));
  }

  lemma Conserves(w: World)
    requires WInv(w)
    ensures Conserved(w.fbs)
  {
  }

  lemma FreshFb(w: World, crtc: nat)
    requires Idle(w)
    ensures OnlyCrtc(QueueStep(AdhocFb(w, crtc), OpenWait(crtc)).fbs, crtc, w.fbs.created)
  {
    AdhocStart(w, crtc);
    assert forall x :: x in w.fbs.slots ==> w.fbs.slots[x] in w.fbs.refcnt;
  }

  lemma AdhocUnsafe(w: World, crtc: nat) returns (moves: seq<Move>)
    requires Idle(w) && AtRisk(w, crtc)
    ensures AdhocMode(w, crtc, moves).fbs.fatal
  {
    AdhocStart(w, crtc);
    FreshFb(w, crtc);
    var v, a := QueueStep(AdhocFb(w, crtc), OpenWait(crtc)), w.fbs.created;
    hide WInv, QueueStep, AdhocFb, Threatened, Reference, RunWait;
    ThreatLoses(v, crtc, a);
    var u :| Waits(v, u) && Lost(u, crtc, a);
    moves :| u == RunWait(v, moves);
    Conserves(u);
    NotHeldDead(u.fbs, crtc, a);
  }

  /** Setting a mode with an ad-hoc FB never reaches the FatalError, whatever events come while
      it waits and whatever driver calls their handlers make, if and only if no flip is pending
      for the CRTC or no entry in the queue threatens it. */
  lemma AdhocModeIff(w: World, crtc: nat)
    requires Idle(w)
    ensures (forall moves :: !AdhocMode(w, crtc, moves).fbs.fatal) <==> !AtRisk(w, crtc)
  {
    if AtRisk(w, crtc) {
      var moves := AdhocUnsafe(w, crtc);
    } else {
      forall moves ensures !AdhocMode(w, crtc, moves).fbs.fatal {
        AdhocSafe(w, crtc, moves);
      }
    }
  }

  // ----- A driver that can get there -----

  /** A page flip to a new FB, taken by one CRTC. */
  function PageFlipped(w: World, crtc: nat, front: nat, client: nat): World {
    var w1 := Begin(w.(fbs := Create(w.fbs, PixmapFb(front))), Some(crtc));
    var r := |w.reqs.refs|;
    var w2 := SetFlipFb(Accept(w1, r, crtc, client, 0), r, crtc, w.fbs.created);
    if FlipDataFb(r, crtc) in w2.fbs.slots then Sent(w2, r, crtc).(building := None) else w2
  }

  lemma PageFlippedIdle(w: World, crtc: nat, front: nat, client: nat)
    requires Idle(w) && PixmapFb(front) !in w.fbs.slots && crtc !in w.scanout
    ensures var w' := PageFlipped(w, crtc, front, client);
            && Idle(w') && FlipPending(crtc) in w'.fbs.slots && Threatened(w'.q, crtc)
  {
    hide WInv, Reference, Inv, QueueInv, FbInv;
    var w0 := w.(fbs := Create(w.fbs, PixmapFb(front)));
    PlainCreate(w, PixmapFb(front));
    var w1, r := Begin(w0, Some(crtc)), |w.reqs.refs|;
    BeginKeeps(w0, Some(crtc));
    Parts(w);
    Parts(w1);
    NewRequest(w, r);
    var w2 := Accept(w1, r, crtc, client, 0);
    AcceptKeeps(w1, r, crtc, client, 0);
    AcceptShape(w1, r, crtc, client, 0);
    Unsent(w2, r);
    var w3 := SetFlipFb(w2, r, crtc, w.fbs.created);
    SetFlipFbKeeps(w2, r, crtc, w.fbs.created);
    Conserves(w3);
    HeldAlive(w3, FlipDataFb(r, crtc));
    SentKeeps(w3, r, crtc);
    var w4 := Sent(w3, r, crtc);
    ReferenceConserves(w3.fbs, FlipPending(crtc), Some(w3.fbs.slots[FlipDataFb(r, crtc)]));
    BuiltKeeps(w4, r);
    var e := w4.q.pending[|w.q.pending|];
    assert Threatens(w4.q, e, crtc);
  }

  lemma NewRequest(w: World, r: nat)
    requires ReqCounts(w.reqs, w.q.issued, w.live, w.building) && r == |w.reqs.refs|
    ensures forall s: nat :: !IsFlip(w.q.issued, s, r)
  {
  }

  lemma Unsent(w: World, r: nat)
    requires WInv(w) && Submitting(w) && w.building == Some(r)
    ensures w.unsent.value in w.live
  {
    PendingNotElsewhere(w.q, w.unsent.value);
    assert CensusAt(w.q, w.unsent.value);
  }

  /** A driver that made one page flip and then sets a mode with an ad-hoc FB reaches the
      FatalError if the flip completes in the wait. */
  lemma AdhocModeFails() returns (moves: seq<Move>)
    ensures AdhocMode(PageFlipped(EMPTY_WORLD, 0, 0, 0), 0, moves).fbs.fatal
  {
    EmptyIdle();
    PageFlippedIdle(EMPTY_WORLD, 0, 0, 0);
    moves := AdhocUnsafe(PageFlipped(EMPTY_WORLD, 0, 0, 0), 0);
  }
}
