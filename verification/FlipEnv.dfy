/**
 What the rest of the driver may do to the flip state while one driver path waits for a flip
 or drains signalled events: queue operations, and the driver calls that callbacks make.
 */
module FlipEnv {
  import opened QueueModel
  import opened QueueSafety
  import opened QueueDriver
  import opened Common
  import opened FbRefs
  import opened FlipModel
  import opened FlipSafety
  import opened FlipRuns

  /** Nothing is being submitted. */
  ghost predicate Idle(w: World) {
    WInv(w) && w.building.None? && w.unsent.None?
  }

  /** Between two steps of any driver path. */
  ghost predicate Ready(w: World) {
    WInv(w) && Submitting(w)
  }

  lemma IdleReady(w: World)
    ensures Idle(w) <==> Ready(w) && w.building.None?
  {
  }

  lemma EmptyIdle()
    ensures Idle(EMPTY_WORLD)
  {
    var w := EMPTY_WORLD;
    assert forall s :: CensusAt(w.q, s);
    assert QueueInv(w);
    assert FbInv(w.fbs, w.q.issued, w.live, w.unsent);
    assert ReqCounts(w.reqs, w.q.issued, w.live, w.building);
    assert ReqOutcomes(w.reqs);
    assert OnePerCrtc(w.q.issued);
    assert ReqTimes(w.reqs, w.q.log);
    assert ReqLast(w.reqs, w.q.log);
    assert ScanoutInv(w.scanout, w.q.issued, w.live);
  }

  // ----- Requests made before -----

  /** The requests numbered below n get no further entry, and end or stay; a request no CRTC
      took stays for ever. */
  ghost predicate Later(n: nat, a: World, b: World) {
    && n <= |a.reqs.refs| && a.reqs.refs <= b.reqs.refs && a.reqs.outcomes <= b.reqs.outcomes
    && a.q.issued <= b.q.issued
    && (forall s: nat, r: nat :: r < n && IsFlip(b.q.issued, s, r) ==> IsFlip(a.q.issued, s, r))
    && (forall r: nat :: r < n && r in b.reqs.active ==>
          r in a.reqs.active && (a.reqs.active[r].count < 0 <==> b.reqs.active[r].count < 0))
    && (forall r: nat :: r < n && r in a.reqs.active && a.reqs.active[r].count < 0 ==> r in b.reqs.active)
  }

  lemma LaterTrans(n: nat, a: World, b: World, c: World)
    requires Later(n, a, b) && Later(n, b, c)
    ensures Later(n, a, c)
  {
  }

  lemma LaterBelow(m: nat, n: nat, a: World, b: World)
    requires Later(n, a, b) && m <= n
    ensures Later(m, a, b)
  {
  }

  /** Only request r and what does not concern requests changed. */
  lemma LaterRequest(w: World, w': World, r: nat)
    requires r <= |w.reqs.refs| && w'.q == w.q && w.reqs.refs <= w'.reqs.refs && w.reqs.outcomes <= w'.reqs.outcomes
    requires forall x: nat :: x < r ==> (x in w'.reqs.active <==> x in w.reqs.active)
    requires forall x: nat :: x < r && x in w.reqs.active ==> w'.reqs.active[x] == w.reqs.active[x]
    ensures Later(r, w, w')
  {
  }

  // ----- What callbacks do to slots -----

  lemma FlipAbortShrinks(t: Fbs, r: nat, crtc: nat, x: Slot)
    requires x in FlipAbortFbs(t, r, crtc).slots
    ensures x in t.slots && FlipAbortFbs(t, r, crtc).slots[x] == t.slots[x]
  {
  }

  lemma FlipHandlerShrinks(t: Fbs, r: nat, crtc: nat, x: Slot)
    requires x in FlipHandlerFbs(t, r, crtc).slots && x != CrtcFb(crtc)
    ensures x in t.slots && FlipHandlerFbs(t, r, crtc).slots[x] == t.slots[x]
  {
    var slot := FlipDataFb(r, crtc);
    if slot in t.slots {
      var t1 := if SameFb(t, FlipPending(crtc), slot) then Reference(t, FlipPending(crtc), None) else t;
      var t2 := Reference(t1, CrtcFb(crtc), Some(t.slots[slot]));
      assert x in t2.slots && x in t1.slots;
    }
  }

  lemma ReferenceShrinks(t: Fbs, slot: Slot, x: Slot)
    requires x in Reference(t, slot, None).slots
    ensures x in t.slots && Reference(t, slot, None).slots[x] == t.slots[x]
  {
  }

  lemma ReferencePlaces(t: Fbs, slot: Slot, fb: nat, x: Slot)
    requires x in Reference(t, slot, Some(fb)).slots && x != slot
    ensures x in t.slots && Reference(t, slot, Some(fb)).slots[x] == t.slots[x]
  {
  }

  lemma ScanoutShrinks(t: Fbs, crtc: nat, fb: nat, x: Slot)
    ensures x in ScanoutAbortFbs(t, crtc, fb).slots ==>
              x in t.slots && ScanoutAbortFbs(t, crtc, fb).slots[x] == t.slots[x]
    ensures x in ScanoutHandlerFbs(t, crtc, fb).slots && x != CrtcFb(crtc) ==>
            x in t.slots && ScanoutHandlerFbs(t, crtc, fb).slots[x] == t.slots[x]
  {
    hide Reference;
    if x in ScanoutAbortFbs(t, crtc, fb).slots && ScanoutAbortFbs(t, crtc, fb) != t {
      ReferenceShrinks(t, FlipPending(crtc), x);
    }
    if x in ScanoutHandlerFbs(t, crtc, fb).slots && x != CrtcFb(crtc) {
      var u := Reference(t, CrtcFb(crtc), Some(fb));
      if ScanoutAbortFbs(u, crtc, fb) != u {
        ReferenceShrinks(u, FlipPending(crtc), x);
      }
      ReferencePlaces(t, CrtcFb(crtc), fb, x);
    }
  }

  /** Callbacks fill no slot but the scanned-out FB of their CRTC, and that only on completion. */
  lemma CallbackShrinks(w: World, x: Slot)
    requires w.q.log != [] && x in Callback(w).fbs.slots
    requires var c := w.q.log[|w.q.log| - 1]; c.aborted || x != CrtcFb(c.entry.crtc)
    ensures x in w.fbs.slots && Callback(w).fbs.slots[x] == w.fbs.slots[x]
  {
    var e := w.q.log[|w.q.log| - 1].entry;
    if e.procs.DrmmodeFlip? {
      if w.q.log[|w.q.log| - 1].aborted {
        FlipAbortShrinks(w.fbs, e.data, e.crtc, x);
      } else {
        FlipHandlerShrinks(w.fbs, e.data, e.crtc, x);
      }
    } else {
      ScanoutShrinks(w.fbs, e.crtc, e.data, x);
    }
  }

  // ----- Queue operations -----

  ghost predicate SameAt(a: World, b: World, x: Slot) {
    x in a.fbs.slots && x in b.fbs.slots && b.fbs.slots[x] == a.fbs.slots[x]
  }

  /** Slots no callback changes: pixmaps, and the FB of the entry under submission. */
  ghost predicate Untouched(w: World, x: Slot) {
    match x
    case PixmapFb(_) => true
    case FlipDataFb(r, crtc) => w.unsent.Some? && IsFlipOn(w.q.issued, w.unsent.value, r, crtc)
    case _ => false
  }

  /** What queue operations and their callbacks alone can do. */
  ghost predicate Env(a: World, b: World) {
    && Ready(b) && b.unsent == a.unsent && b.building == a.building && b.reqs.refs == a.reqs.refs
    && Later(|a.reqs.refs|, a, b) && b.scanout.Keys <= a.scanout.Keys
    && (forall x :: x in a.fbs.slots && Untouched(a, x) ==> SameAt(a, b, x))
    && (forall p :: PixmapFb(p) in b.fbs.slots ==> PixmapFb(p) in a.fbs.slots)
  }

  lemma CallbackOther(w: World, x: Slot)
    requires w.q.log != [] && x in w.fbs.slots && (x.PixmapFb? || x.FlipDataFb?)
    requires var e := w.q.log[|w.q.log| - 1].entry; !(e.procs.DrmmodeFlip? && x == FlipDataFb(e.data, e.crtc))
    ensures x in Callback(w).fbs.slots && Callback(w).fbs.slots[x] == w.fbs.slots[x]
  {
    var e := w.q.log[|w.q.log| - 1].entry;
    if e.procs.DrmmodeFlip? {
      FlipFbsOther(w.fbs, e.data, e.crtc, x);
    } else {
      ScanoutFbsOther(w.fbs, e.crtc, e.data, x);
    }
  }

  lemma StepKeepsSlot(w: World, op: Op, x: Slot)
    requires Ready(w) && EnvOp(w, op) && x in w.fbs.slots && Untouched(w, x)
    ensures SameAt(w, QueueStep(w, op), x)
  {
    hide WInv, QueueInv, Inv, FbInv, ReqCounts, ReqOutcomes, ReqTimes, ReqLast, ScanoutInv, Apply, Callback, EnvOp;
    Parts(w);
    QueueEffect(w.q, op);
    var q' := Apply(w.q, op);
    if !op.Alloc? && q'.log != w.q.log {
      CalledEntry(w, op);
      var c := q'.log[|w.q.log|];
      var e := c.entry;
      if e.procs.DrmmodeFlip? {
        assert IsFlipOn(w.q.issued, e.seqNo, e.data, e.crtc);
      }
      CallbackOther(w.(q := q', live := w.live - {e.seqNo}), x);
    }
  }

  lemma StepAddsNoPixmap(w: World, op: Op, p: nat)
    requires Ready(w) && EnvOp(w, op) && PixmapFb(p) in QueueStep(w, op).fbs.slots
    ensures PixmapFb(p) in w.fbs.slots
  {
    hide WInv, QueueInv, Inv, FbInv, ReqCounts, ReqOutcomes, ReqTimes, ReqLast, ScanoutInv, Apply, Callback, EnvOp;
    Parts(w);
    QueueEffect(w.q, op);
    var q' := Apply(w.q, op);
    if !op.Alloc? && q'.log != w.q.log {
      CallbackShrinks(w.(q := q', live := w.live - {q'.log[|w.q.log|].entry.seqNo}), PixmapFb(p));
    }
  }

  lemma LiveCounted(rs: Requests, issued: seq<Entry>, live: set<nat>, building: Option<nat>, s: nat, r: nat)
    requires ReqCounts(rs, issued, live, building) && s in live && IsFlip(issued, s, r)
    ensures r in rs.active && rs.active[r].count >= 1
  {
    var es := Entries(issued, live, r);
    assert s in es;
    assert Counted(rs.active[r], es, building == Some(r));
  }

  /** A callback ends no request but its own, and turns none into one without entries. */
  lemma CallbackRequests(v: World)
    requires v.q.log != []
    requires var e := v.q.log[|v.q.log| - 1].entry;
             e.procs.DrmmodeFlip? ==> e.data in v.reqs.active && v.reqs.active[e.data].count >= 1
    ensures var u := Callback(v);
            && u.reqs.refs == v.reqs.refs && v.reqs.outcomes <= u.reqs.outcomes && u.scanout.Keys <= v.scanout.Keys
            && (forall r :: r in u.reqs.active ==>
                  r in v.reqs.active && (v.reqs.active[r].count < 0 <==> u.reqs.active[r].count < 0))
            && (forall r :: r in v.reqs.active && v.reqs.active[r].count < 0 ==> r in u.reqs.active)
  {
    hide FlipAbortFbs, FlipHandlerFbs, ScanoutAbortFbs, ScanoutHandlerFbs;
  }

  lemma IssuedFlips(w: World, op: Op)
    requires Inv(w.q) && EnvOp(w, op)
    ensures forall s: nat, r: nat :: IsFlip(Apply(w.q, op).issued, s, r) ==> IsFlip(w.q.issued, s, r)
    ensures w.q.issued <= Apply(w.q, op).issued
  {
    QueueEffect(w.q, op);
  }

  lemma StepLater(w: World, op: Op)
    requires Ready(w) && EnvOp(w, op)
    ensures var w' := QueueStep(w, op);
            && Later(|w.reqs.refs|, w, w') && w'.reqs.refs == w.reqs.refs && w'.scanout.Keys <= w.scanout.Keys
  {
    hide WInv, QueueInv, Inv, FbInv, ReqOutcomes, OnePerCrtc, ReqTimes, ReqLast, ScanoutInv, Apply, ReqCounts, EnvOp;
    hide Callback, Submitting;
    Parts(w);
    IssuedFlips(w, op);
    StepFrame(w, op);
    QueueEffect(w.q, op);
    var q' := Apply(w.q, op);
    if !op.Alloc? && q'.log != w.q.log {
      CalledEntry(w, op);
      var e := q'.log[|w.q.log|].entry;
      if e.procs.DrmmodeFlip? {
        LiveCounted(w.reqs, w.q.issued, w.live, w.building, e.seqNo, e.data);
      }
      CallbackRequests(w.(q := q', live := w.live - {e.seqNo}));
    }
  }

  lemma EnvSelf(w: World)
    requires Ready(w)
    ensures Env(w, w)
  {
  }

  lemma EnvTrans(a: World, b: World, c: World)
    requires Env(a, b) && Env(b, c)
    ensures Env(a, c)
  {
    hide WInv;
    LaterTrans(|a.reqs.refs|, a, b, c);
    forall x | x in a.fbs.slots && Untouched(a, x) ensures SameAt(a, c, x) {
      assert SameAt(a, b, x) && Untouched(b, x);
    }
  }

  lemma EnvStep(w: World, op: Op)
    requires Ready(w) && EnvOp(w, op)
    ensures Env(w, QueueStep(w, op))
  {
    QueueStepKeeps(w, op);
    SubmittingKept(w, op);
    StepFrame(w, op);
    StepLater(w, op);
    hide WInv, QueueStep, Later;
    forall x | x in w.fbs.slots && Untouched(w, x) ensures SameAt(w, QueueStep(w, op), x) {
      StepKeepsSlot(w, op, x);
    }
    forall p | PixmapFb(p) in QueueStep(w, op).fbs.slots ensures PixmapFb(p) in w.fbs.slots {
      StepAddsNoPixmap(w, op, p);
    }
  }

  // ----- Complete driver calls -----

  /** The pixmaps a driver path under way works on keep their FB. */
  ghost predicate Pinned(a: World, b: World, pins: set<nat>) {
    forall p :: p in pins && PixmapFb(p) in a.fbs.slots ==> SameAt(a, b, PixmapFb(p))
  }

  /** What any sequence of driver calls can do. While a page flip is being submitted only
      queue operations run; otherwise any driver call may. */
  ghost predicate Onward(a: World, b: World, pins: set<nat>) {
    if a.building.Some? then Env(a, b) else Idle(b) && Later(|a.reqs.refs|, a, b) && Pinned(a, b, pins)
  }

  lemma EnvOnward(a: World, b: World, pins: set<nat>)
    requires Ready(a) && Env(a, b)
    ensures Onward(a, b, pins)
  {
    hide WInv, Later;
    forall p | p in pins && PixmapFb(p) in a.fbs.slots ensures SameAt(a, b, PixmapFb(p)) {
      assert Untouched(a, PixmapFb(p));
    }
  }

  lemma OnwardReady(a: World, b: World, pins: set<nat>)
    requires Ready(a) && Onward(a, b, pins)
    ensures Ready(b) && b.building == a.building
  {
    hide WInv, Later;
  }

  lemma OnwardTrans(a: World, b: World, c: World, pins: set<nat>)
    requires Ready(a) && Onward(a, b, pins) && Onward(b, c, pins)
    ensures Onward(a, c, pins)
  {
    hide WInv, Later;
    if a.building.Some? {
      EnvTrans(a, b, c);
    } else {
      assert Later(|a.reqs.refs|, b, c)
             by { LaterUse(|a.reqs.refs|, a, b); LaterBelow(|a.reqs.refs|, |b.reqs.refs|, b, c); }
      LaterTrans(|a.reqs.refs|, a, b, c);
      forall p | p in pins && PixmapFb(p) in a.fbs.slots ensures SameAt(a, c, PixmapFb(p)) {
        assert SameAt(a, b, PixmapFb(p));
      }
    }
  }

  lemma LaterUse(n: nat, a: World, b: World)
    requires Later(n, a, b)
    ensures n <= |a.reqs.refs| <= |b.reqs.refs|
  {
  }

  /** A queue step with the callback it runs. */
  lemma OnwardStep(w: World, op: Op, pins: set<nat>)
    requires Ready(w) && EnvOp(w, op)
    ensures Onward(w, QueueStep(w, op), pins) && QueueStep(w, op).q == Apply(w.q, op)
  {
    EnvStep(w, op);
    EnvOnward(w, QueueStep(w, op), pins);
    StepFrame(w, op);
  }

  // ----- Runs of a wait -----

  /** The step from a to b ran a procedure that makes driver calls. Only handlers do, not abort
      procedures; those of TearFree make none, and a page flip's handler calls out only when
      its request is over. */
  predicate Roused(a: World, b: World) {
    && |b.q.log| > |a.q.log|
    && var c := b.q.log[|b.q.log| - 1];
       && !c.aborted
       && match c.entry.procs
          case DrmmodeFlip => c.entry.data !in b.reqs.active
          case ScanoutFlip => false
          case ScanoutUpdate => false
          case _ => true
  }

  /** The result of complete driver calls. */
  ghost predicate Legal(a: World, b: World) {
    Idle(b) && Later(|a.reqs.refs|, a, b) && Kept(a.q, b.q)
  }

  /** What a wait itself does: hand on events, handle flips and vblanks. */
  predicate WaitOp(op: Op) {
    op.Signal? || op.HandleFlip? || op.HandleVblank?
  }

  /** One step of a wait, and the state its handler's driver calls lead to, if it makes any. */
  datatype Move = Move(op: Op, reply: Option<World>)

  ghost function WaitMove(w: World, m: Move): World {
    if !WaitOp(m.op) then w
    else
      var w1 := QueueStep(w, m.op);
      if Roused(w, w1) && m.reply.Some? && Legal(w1, m.reply.value) then m.reply.value else w1
  }

  ghost function RunWait(w: World, moves: seq<Move>): World {
    if moves == [] then w
    else WaitMove(RunWait(w, moves[..|moves| - 1]), moves[|moves| - 1])
  }

  /** b is a after some of the events that a wait may see. */
  ghost predicate Waits(a: World, b: World) {
    exists moves :: b == RunWait(a, moves)
  }

  lemma {:induction false} RunWaitAppend(w: World, x: seq<Move>, y: seq<Move>)
    ensures RunWait(w, x + y) == RunWait(RunWait(w, x), y)
  {
    if y == [] {
      assert x + y == x;
    } else {
      var n := |x + y| - 1;
      assert (x + y)[..n] == x + y[..|y| - 1] && (x + y)[n] == y[|y| - 1];
      RunWaitAppend(w, x, y[..|y| - 1]);
    }
  }

  lemma WaitsSelf(w: World)
    ensures Waits(w, w)
  {
    assert w == RunWait(w, []);
  }

  lemma WaitsMove(w: World, m: Move)
    ensures Waits(w, WaitMove(w, m))
  {
    assert [m][..0] == [] && RunWait(w, []) == w;
    assert WaitMove(w, m) == RunWait(w, [m]);
  }

  lemma WaitsTrans(a: World, b: World, c: World)
    requires Waits(a, b) && Waits(b, c)
    ensures Waits(a, c)
  {
    var x :| b == RunWait(a, x);
    var y :| c == RunWait(b, y);
    RunWaitAppend(a, x, y);
  }

  lemma WaitMoveKeeps(w: World, m: Move)
    requires Idle(w)
    ensures Idle(WaitMove(w, m))
  {
    if WaitOp(m.op) {
      EnvStep(w, m.op);
    }
  }

  lemma {:induction false} RunWaitKeeps(w: World, moves: seq<Move>)
    requires Idle(w)
    ensures Idle(RunWait(w, moves))
  {
    if moves != [] {
      RunWaitKeeps(w, moves[..|moves| - 1]);
      WaitMoveKeeps(RunWait(w, moves[..|moves| - 1]), moves[|moves| - 1]);
    }
  }

  /** A driver path that handles events has come from a to b. */
  ghost predicate Polled(a: World, b: World, pins: set<nat>) {
    Onward(a, b, pins) && (a.building.None? ==> Waits(a, b))
  }

  lemma PolledSelf(w: World, pins: set<nat>)
    requires Ready(w)
    ensures Polled(w, w, pins) && Onward(w, w, pins)
  {
    hide WInv;
    EnvSelf(w);
    EnvOnward(w, w, pins);
    WaitsSelf(w);
  }

  lemma PolledTrans(a: World, b: World, c: World, pins: set<nat>)
    requires Ready(a) && Polled(a, b, pins) && Polled(b, c, pins)
    ensures Polled(a, c, pins) && Ready(b) && Ready(c)
  {
    hide WInv, Later, Waits;
    OnwardReady(a, b, pins);
    OnwardReady(b, c, pins);
    OnwardTrans(a, b, c, pins);
    if a.building.None? {
      WaitsTrans(a, b, c);
    }
  }
}
