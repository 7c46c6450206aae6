/**
 The end of a page flip's submission: the deferred events are handled first, and only then is
 flipdata read. Handlers run meanwhile can end the request that was just submitted. This module
 proves exactly when that is possible.
 */
module FlipDrain {
  import opened QueueModel
  import opened QueueSafety
  import opened QueueDriver
  import opened Common
  import opened FbRefs
  import opened FlipModel
  import opened FlipSafety
  import opened FlipRuns
  import opened FlipSubmit
  import opened FlipEnv
  import opened FlipModeset

  /** A vblank entry whose handler makes driver calls. */
  predicate CallsDriver(e: Entry) {
    e.handler && (e.procs.FrameEvent? || e.procs.PresentVblank?)
  }

  /** Closing the CRTC's last wait level runs the handler of this entry. */
  predicate RunsAtClose(q: Queue, e: Entry, crtc: nat) {
    && CallsDriver(e)
    && ((e in q.vblanks && (e.crtc == crtc || Level(q, e.crtc) == 0)) || (e in q.deferred && e.crtc == crtc))
  }

  /** Closing a wait level of the CRTC runs a handler that makes driver calls. */
  predicate Rousable(q: Queue, crtc: nat) {
    Level(q, crtc) == 1 && exists e :: e in q.vblanks + q.deferred && RunsAtClose(q, e, crtc)
  }

  /** A signalled vblank whose handler runs in the next drain and makes driver calls. */
  predicate Stirs(q: Queue) {
    exists e :: e in q.vblanks && CallsDriver(e) && Level(q, e.crtc) == 0
  }

  // ----- Runs of a drain -----

  ghost predicate VblankMoves(moves: seq<Move>) {
    forall i :: 0 <= i < |moves| ==> moves[i].op == HandleVblank
  }

  /** b is a after some signalled vblanks were handled, with the driver calls of their handlers. */
  ghost predicate Drains(a: World, b: World) {
    exists moves :: VblankMoves(moves) && b == RunWait(a, moves)
  }

  /** amdgpu_drm_queue_handle_deferred as a whole: a level is closed, and if it was the last one
      the signalled vblanks are handled until none is left. */
  ghost predicate HandlesDeferred(a: World, crtc: nat, b: World) {
    var a1 := QueueStep(a, CloseWait(crtc));
    if Level(a.q, crtc) == 1 then Drains(a1, b) && b.q.vblanks == [] else b == a1
  }

  lemma DrainsSelf(w: World)
    ensures Drains(w, w)
  {
    assert VblankMoves([]) && w == RunWait(w, []);
  }

  lemma DrainsMove(w: World, reply: Option<World>)
    ensures Drains(w, WaitMove(w, Move(HandleVblank, reply)))
  {
    var m := Move(HandleVblank, reply);
    assert [m][..0] == [] && RunWait(w, []) == w;
    assert VblankMoves([m]) && WaitMove(w, m) == RunWait(w, [m]);
  }

  lemma DrainsTrans(a: World, b: World, c: World)
    requires Drains(a, b) && Drains(b, c)
    ensures Drains(a, c)
  {
    var x :| VblankMoves(x) && b == RunWait(a, x);
    var y :| VblankMoves(y) && c == RunWait(b, y);
    RunWaitAppend(a, x, y);
    assert VblankMoves(x + y);
  }

  // ----- No handler makes driver calls: the request stays -----

  lemma CloseStirs(q: Queue, crtc: nat)
    requires Level(q, crtc) == 1
    ensures Stirs(Apply(q, CloseWait(crtc))) <==> Rousable(q, crtc)
  {
    var q' := Apply(q, CloseWait(crtc));
    assert forall c :: Level(q', c) == if c == crtc then 0 else Level(q, c);
    if Stirs(q') {
      var e :| e in q'.vblanks && CallsDriver(e) && Level(q', e.crtc) == 0;
      CloseWaitMembers(q, crtc, e);
      assert e in q.vblanks + q.deferred && RunsAtClose(q, e, crtc);
    }
    if Rousable(q, crtc) {
      var e :| e in q.vblanks + q.deferred && RunsAtClose(q, e, crtc);
      CloseWaitMembers(q, crtc, e);
      assert e in q'.vblanks;
    }
  }

  lemma CalmMove(w: World, m: Move)
    requires Idle(w) && m.op == HandleVblank && !Stirs(w.q)
    ensures var w' := WaitMove(w, m); Idle(w') && w'.reqs == w.reqs && !Stirs(w'.q)
  {
    WaitMoveKeeps(w, m);
    if w.q.vblanks != [] {
      var e := w.q.vblanks[0];
      assert e in w.q.vblanks;
      VblankStep(w);
      StepFrame(w, HandleVblank);
      KindOf(w, e);
      HeadCalm(w, e);
    } else {
      assert Apply(w.q, HandleVblank) == w.q;
    }
  }

  lemma HeadCalm(w: World, e: Entry)
    requires WInv(w) && w.q.vblanks != [] && e == w.q.vblanks[0] && !Stirs(w.q)
    ensures !Roused(w, QueueStep(w, HandleVblank))
  {
    StepFrame(w, HandleVblank);
    assert e in w.q.vblanks;
    KindOf(w, e);
  }

  lemma {:induction false} CalmRun(w: World, moves: seq<Move>)
    requires Idle(w) && VblankMoves(moves) && !Stirs(w.q)
    ensures var w' := RunWait(w, moves); Idle(w') && w'.reqs == w.reqs && !Stirs(w'.q)
  {
    if moves != [] {
      var front := moves[..|moves| - 1];
      CalmRun(w, front);
      CalmMove(RunWait(w, front), moves[|moves| - 1]);
    }
  }

  lemma ClosedIdle(w: World, crtc: nat)
    requires Idle(w)
    ensures var v := QueueStep(w, CloseWait(crtc));
            Idle(v) && v.reqs == w.reqs && v.q == Apply(w.q, CloseWait(crtc)) && v.q.issued == w.q.issued
  {
    EnvStep(w, CloseWait(crtc));
    StepFrame(w, CloseWait(crtc));
    CloseShape(w, crtc);
    hide WInv;
  }

  lemma CloseShape(w: World, crtc: nat)
    ensures var v := QueueStep(w, CloseWait(crtc)); v.reqs == w.reqs && v.q.issued == w.q.issued
  {
  }

  /** Without such a handler, handling the deferred events changes no request. */
  lemma CalmClose(w: World, crtc: nat, w': World)
    requires Idle(w) && !Rousable(w.q, crtc) && HandlesDeferred(w, crtc, w')
    ensures w'.reqs == w.reqs
  {
    ClosedIdle(w, crtc);
    if Level(w.q, crtc) == 1 {
      var v := QueueStep(w, CloseWait(crtc));
      CloseStirs(w.q, crtc);
      var moves :| VblankMoves(moves) && w' == RunWait(v, moves);
      CalmRun(v, moves);
    }
  }

  // ----- A handler makes driver calls: it can end the request -----

  /** What reading the events of page flips does: older requests and the vblanks stay. */
  ghost predicate Served(a: World, b: World) {
    && Idle(b) && Later(|a.reqs.refs|, a, b) && Reaches(a.q, b.q) && SameLevels(a.q, b.q)
    && b.q.vblanks == a.q.vblanks
  }

  lemma ServedSelf(w: World)
    requires Idle(w)
    ensures Served(w, w)
  {
    ReachesSelf(w.q);
  }

  lemma ServedTrans(a: World, b: World, c: World)
    requires Served(a, b) && Served(b, c)
    ensures Served(a, c)
  {
    hide WInv, Reaches, Later;
    ReachesTrans(a.q, b.q, c.q);
    LaterUse(|a.reqs.refs|, a, b);
    LaterBelow(|a.reqs.refs|, |b.reqs.refs|, b, c);
    LaterTrans(|a.reqs.refs|, a, b, c);
    forall d ensures Level(a.q, d) == Level(c.q, d) {
      assert Level(a.q, d) == Level(b.q, d);
    }
  }

  /** The event of a pending page flip. */
  lemma ServeEvent(w: World, e: Entry)
    requires Idle(w) && e in w.q.pending && e.procs.DrmmodeFlip?
    ensures var w' := QueueStep(w, Signal(e.seqNo, 0, 0, 0));
            && Served(w, w') && |w'.q.pending| < |w.q.pending| && w'.q.issued == w.q.issued
            && (forall x :: x in w'.q.pending ==> x in w.q.pending)
  {
    var op := Signal(e.seqNo, 0, 0, 0);
    EnvStep(w, op);
    StepFrame(w, op);
    PendingUnique(w.q, e);
    assert Known(w.q.issued, e) && w.q.issued[e.seqNo - 1] in w.q.issued;
    ReachesOne(w.q, op);
    IssuedKept(w.q, op);
    hide WInv, Env, QueueStep, Later;
    EnvLater(w, QueueStep(w, op));
  }

  lemma EnvLater(a: World, b: World)
    requires Env(a, b) && a.building.None?
    ensures Idle(b) && Later(|a.reqs.refs|, a, b)
  {
  }

  /** Handling a signalled flip. */
  lemma ServeFlip(w: World)
    requires Idle(w) && w.q.flips != []
    ensures var w' := QueueStep(w, HandleFlip);
            && Served(w, w') && w'.q.flips == w.q.flips[1..] && w'.q.pending == w.q.pending
            && w'.q.issued == w.q.issued
  {
    EnvStep(w, HandleFlip);
    StepFrame(w, HandleFlip);
    ReachesOne(w.q, HandleFlip);
    hide WInv, Env, QueueStep, Later;
    EnvLater(w, QueueStep(w, HandleFlip));
  }

  lemma {:induction false} ServeEvents(w: World, r: nat) returns (w': World)
    requires Idle(w)
    ensures Served(w, w') && w'.q.issued == w.q.issued && forall e :: e in w'.q.pending ==> !IsOf(e, r)
    decreases |w.q.pending|
  {
    hide WInv, QueueStep, Served;
    if e :| e in w.q.pending && IsOf(e, r) {
      var w1 := QueueStep(w, Signal(e.seqNo, 0, 0, 0));
      ServeEvent(w, e);
      ServedIdle(w, w1);
      w' := ServeEvents(w1, r);
      ServedTrans(w, w1, w');
    } else {
      ServedSelf(w);
      w' := w;
    }
  }

  lemma ServedIdle(a: World, b: World)
    requires Served(a, b)
    ensures Idle(b) && Later(|a.reqs.refs|, a, b)
  {
  }

  lemma {:induction false} ServeFlips(w: World) returns (w': World)
    requires Idle(w)
    ensures Served(w, w') && w'.q.issued == w.q.issued && w'.q.flips == [] && w'.q.pending == w.q.pending
    decreases |w.q.flips|
  {
    hide WInv, QueueStep, Served;
    if w.q.flips != [] {
      var w1 := QueueStep(w, HandleFlip);
      ServeFlip(w);
      ServedIdle(w, w1);
      w' := ServeFlips(w1);
      ServedTrans(w, w1, w');
    } else {
      ServedSelf(w);
      w' := w;
    }
  }

  /** Reading the events of a request ends it, whatever they are. */
  lemma RequestEnds(w: World, s: nat, r: nat) returns (w': World)
    requires Idle(w) && IsFlip(w.q.issued, s, r)
    ensures Legal(w, w') && r !in w'.reqs.active
  {
    hide WInv, Served;
    var w1 := ServeEvents(w, r);
    ServedIdle(w, w1);
    w' := ServeFlips(w1);
    ServedIdle(w1, w');
    ServedTrans(w, w1, w');
    if r in w'.reqs.active {
      var e := RequestListed(w', s, r);
    }
    ServedLegal(w, w');
  }

  lemma ServedLegal(a: World, b: World)
    requires Served(a, b) && b.q.flips == []
    ensures Legal(a, b)
  {
  }

  /** Draining the rest without any driver calls. */
  lemma {:induction false} DrainRest(w: World) returns (w': World)
    requires Idle(w)
    ensures Drains(w, w') && w'.q.vblanks == [] && w'.reqs == w.reqs
    decreases |w.q.vblanks|
  {
    hide Drains, QueueStep;
    DrainsSelf(w);
    w' := w;
    if w.q.vblanks != [] {
      var w1 := QueueStep(w, HandleVblank);
      VblankStep(w);
      DrainsMove(w, None);
      WaitMoveKeeps(w, Move(HandleVblank, None));
      w' := DrainRest(w1);
      DrainsTrans(w, w1, w');
    }
  }

  /** The handler that makes driver calls comes up, and ends the request. */
  lemma {:induction false} StirredEnds(w: World, s: nat, r: nat) returns (w': World)
    requires Idle(w) && Stirs(w.q) && IsFlip(w.q.issued, s, r)
    ensures Drains(w, w') && w'.q.vblanks == [] && r !in w'.reqs.active
    decreases |w.q.vblanks|
  {
    hide Drains, QueueStep, Roused, IsFlip;
    var w1, e := QueueStep(w, HandleVblank), w.q.vblanks[0];
    VblankStep(w);
    VblankIssued(w, s, r);
    WaitMoveKeeps(w, Move(HandleVblank, None));
    hide WInv;
    if CallsDriver(e) && Level(w.q, e.crtc) == 0 {
      var b := RequestEnds(w1, s, r);
      DrainsMove(w, Some(b));
      w' := DrainRest(b);
      DrainsTrans(w, b, w');
    } else {
      var x :| x in w.q.vblanks && CallsDriver(x) && Level(w.q, x.crtc) == 0;
      assert x in w1.q.vblanks;
      DrainsMove(w, None);
      w' := StirredEnds(w1, s, r);
      DrainsTrans(w, w1, w');
    }
  }

  lemma VblankIssued(w: World, s: nat, r: nat)
    requires WInv(w) && IsFlip(w.q.issued, s, r)
    ensures IsFlip(QueueStep(w, HandleVblank).q.issued, s, r)
  {
    StepFrame(w, HandleVblank);
  }

  lemma HasFlip(w: World, r: nat) returns (s: nat)
    requires Idle(w) && r in w.reqs.active && w.reqs.active[r].count > 0
    ensures IsFlip(w.q.issued, s, r)
  {
    var es := Entries(w.q.issued, w.live, r);
    assert Counted(w.reqs.active[r], es, false);
    assert |es| > 0;
    s :| s in es;
  }

  lemma RousedEnds(w: World, crtc: nat, r: nat) returns (w': World)
    requires Idle(w) && r in w.reqs.active && w.reqs.active[r].count > 0 && Rousable(w.q, crtc)
    ensures HandlesDeferred(w, crtc, w') && r !in w'.reqs.active
  {
    ClosedIdle(w, crtc);
    CloseStirs(w.q, crtc);
    var s := HasFlip(w, r);
    hide WInv, QueueStep, Drains, Stirs, Rousable;
    w' := StirredEnds(QueueStep(w, CloseWait(crtc)), s, r);
  }

  /** After all CRTCs of a page flip are submitted, handling the deferred events can end the
      request, so that reading its flipdata afterwards is an access to freed memory, if and only
      if closing the wait runs a handler that makes driver calls. */
  lemma FreedFlipIff(w: World, crtc: nat, r: nat)
    requires Idle(w) && r in w.reqs.active && w.reqs.active[r].count > 0
    ensures (exists w' :: HandlesDeferred(w, crtc, w') && r !in w'.reqs.active) <==> Rousable(w.q, crtc)
  {
    if Rousable(w.q, crtc) {
      var w' := RousedEnds(w, crtc, r);
    } else {
      forall w' | HandlesDeferred(w, crtc, w') ensures r in w'.reqs.active {
        CalmClose(w, crtc, w');
      }
    }
  }

  // ----- A driver that can get there -----

  /** A client waits for a vblank of CRTC 0, and a pixmap has an FB. */
  function Requested(): World {
    var w := QueueStep(EMPTY_WORLD, Alloc(0, 0, 0, 0, FrameEvent, true, false));
    w.(fbs := Create(w.fbs, PixmapFb(0)))
  }

  /** In addition the CRTC has a TearFree flip under way. */
  function Prepared(): World {
    SendScanoutFlip(Requested(), 0, 0)
  }

  /** A page flip on it has its queue entry and its FB. */
  function Accepting(): World {
    var w := Prepared();
    var w1 := Begin(w.(fbs := Create(w.fbs, PixmapFb(1))), Some(0));
    SetFlipFb(Accept(w1, 0, 0, 0, 0), 0, 0, 1)
  }

  /** It waits for the TearFree flip. The client's event comes first and is deferred, then the
      TearFree flip completes. */
  function WaitedFor(w: World): World {
    var w1 := QueueStep(QueueStep(w, OpenWait(0)), Signal(1, 0, 0, 0));
    var w2 := QueueStep(w1, Signal(2, 0, 0, 0));
    QueueStep(QueueStep(w2, HandleFlip), HandleVblank)
  }

  /** The kernel takes the page flip. */
  function Submitted(w: World): World {
    if FlipDataFb(0, 0) in w.fbs.slots then Sent(w, 0, 0).(building := None) else w
  }

  lemma PreparedIdle()
    ensures Idle(Prepared())
  {
    RequestedShape();
    var w, op := Requested(), ScanoutAlloc(0, 0);
    hide Requested, WInv, Inv, QueueStep, Apply, Reference, KernelIdle;
    Parts(w);
    SendScanoutFlipKeeps(w, 0, 0);
    IssueShape(w, op);
  }

  lemma PreparedShape()
    ensures var w := Prepared();
            && w.fbs.created == 1 && w.fbs.slots == map[PixmapFb(0) := 0, FlipPending(0) := 0]
            && w.reqs == Requests(map[], [], [], false) && w.scanout == map[0 := 2]
            && w.q == Apply(Requested().q, ScanoutAlloc(0, 0))
  {
    RequestedShape();
    var w, op := Requested(), ScanoutAlloc(0, 0);
    hide Requested, WInv, Inv, QueueStep, Apply, Reference, KernelIdle, Conserved;
    Parts(w);
    Conserves(w);
    IssueShape(w, op);
    ReferenceConserves(w.fbs, FlipPending(0), Some(0));
  }

  lemma PreparedQueue()
    ensures var q := Prepared().q;
            && q.flips == [] && q.vblanks == [] && q.deferred == [] && q.level == map[] && |q.issued| == 2
            && q.pending == [Entry(1, 0, 0, 0, 0, FrameEvent, true, false, 0, 0),
                             Entry(2, 0, 0, 0, 0, ScanoutFlip, true, true, 0, 0)]
            && forall s: nat, r: nat :: !IsFlip(q.issued, s, r)
  {
    RequestedShape();
    PreparedShape();
    hide Requested, Prepared, WInv;
  }

  lemma RequestedShape()
    ensures var w := Requested();
            && Idle(w) && w.fbs.created == 1 && w.fbs.slots == map[PixmapFb(0) := 0] && 0 in w.fbs.refcnt
            && w.reqs == Requests(map[], [], [], false) && w.scanout == map[] && KernelIdle(w, 0)
            && w.q.flips == [] && w.q.vblanks == [] && w.q.deferred == [] && w.q.level == map[]
            && w.q.pending == [Entry(1, 0, 0, 0, 0, FrameEvent, true, false, 0, 0)] && w.q.counter == 2
            && w.q.issued == [Entry(1, 0, 0, 0, 0, FrameEvent, true, false, 0, 0)]
  {
    var op := Alloc(0, 0, 0, 0, FrameEvent, true, false);
    EmptyIdle();
    EnvStep(EMPTY_WORLD, op);
    hide WInv;
    var w := QueueStep(EMPTY_WORLD, op);
    assert w.q == Apply(EMPTY_QUEUE, op) && w.fbs == EMPTY_WORLD.fbs && w.reqs == EMPTY_WORLD.reqs;
    PlainCreate(w, PixmapFb(0));
  }

  lemma AcceptingShape()
    ensures var w := Accepting();
            && WInv(w) && Submitting(w) && w.building == Some(0) && w.unsent == Some(3)
            && IsFlipOn(w.q.issued, 3, 0, 0) && FlipDataFb(0, 0) in w.fbs.slots && w.scanout == map[0 := 2]
            && w.q.flips == [] && w.q.vblanks == [] && w.q.deferred == [] && w.q.level == map[]
            && w.q.pending == [Entry(1, 0, 0, 0, 0, FrameEvent, true, false, 0, 0),
                               Entry(2, 0, 0, 0, 0, ScanoutFlip, true, true, 0, 0),
                               Entry(3, 0, 0, 0, 0, DrmmodeFlip, true, true, 0, 0)]
  {
    PreparedIdle();
    PreparedShape();
    PreparedQueue();
    hide Prepared, Requested, WInv, Reference, Inv, QueueInv, FbInv;
    var w := Prepared();
    PlainCreate(w, PixmapFb(1));
    var w0 := w.(fbs := Create(w.fbs, PixmapFb(1)));
    BeginKeeps(w0, Some(0));
    var w1 := Begin(w0, Some(0));
    Parts(w1);
    AcceptKeeps(w1, 0, 0, 0, 0);
    AcceptShape(w1, 0, 0, 0, 0);
    var w2 := Accept(w1, 0, 0, 0, 0);
    Unsent(w2, 0);
    SetFlipFbKeeps(w2, 0, 0, 1);
  }

  lemma WaitedQueue(q: Queue)
    requires q.flips == [] && q.vblanks == [] && q.deferred == [] && q.level == map[]
    requires q.pending == [Entry(1, 0, 0, 0, 0, FrameEvent, true, false, 0, 0),
                           Entry(2, 0, 0, 0, 0, ScanoutFlip, true, true, 0, 0),
                           Entry(3, 0, 0, 0, 0, DrmmodeFlip, true, true, 0, 0)]
    ensures var q2 := Apply(Apply(Apply(q, OpenWait(0)), Signal(1, 0, 0, 0)), Signal(2, 0, 0, 0));
            && q2.flips == [Entry(2, 0, 0, 0, 0, ScanoutFlip, true, true, 0, 0)]
            && Rousable(Apply(Apply(q2, HandleFlip), HandleVblank), 0)
  {
    var e1, e2 := q.pending[0], q.pending[1];
    var q1 := Apply(Apply(q, OpenWait(0)), Signal(1, 0, 0, 0));
    assert IndexOf(q.pending, 1) == 0 && Without(q.pending, 0) == q.pending[1..];
    assert q1.pending == q.pending[1..] && q1.vblanks == [e1];
    assert IndexOf(q1.pending, 2) == 0;
    var q2 := Apply(q1, Signal(2, 0, 0, 0));
    assert q2.flips == [e2] && q2.vblanks == [e1];
    var q4 := Apply(Apply(q2, HandleFlip), HandleVblank);
    assert q4.deferred == [e1] && RunsAtClose(q4, e1, 0);
  }

  lemma WaitedShape(w: World)
    requires w == Accepting()
    ensures var v := WaitedFor(w); Env(w, v) && Rousable(v.q, 0) && 0 !in v.scanout
  {
    AcceptingShape();
    hide Accepting, WInv, QueueStep, Apply, Env, Submitting, Rousable;
    WaitedQueue(w.q);
    var w0 := QueueStep(w, OpenWait(0));
    EnvNext(w, OpenWait(0));
    var w1 := QueueStep(w0, Signal(1, 0, 0, 0));
    EnvNext(w0, Signal(1, 0, 0, 0));
    var w2 := QueueStep(w1, Signal(2, 0, 0, 0));
    EnvNext(w1, Signal(2, 0, 0, 0));
    var w3 := QueueStep(w2, HandleFlip);
    EnvNext(w2, HandleFlip);
    FlipFreesScanout(w2);
    EnvNext(w3, HandleVblank);
    EnvTrans(w, w0, w1);
    EnvTrans(w, w1, w2);
    EnvTrans(w, w2, w3);
    EnvTrans(w, w3, WaitedFor(w));
    ScanoutGrowsNot(w3, WaitedFor(w));
  }

  lemma EnvNext(w: World, op: Op)
    requires Ready(w) && EnvOp(w, op)
    ensures var v := QueueStep(w, op); Env(w, v) && Ready(v) && v.q == Apply(w.q, op) && v.unsent == w.unsent
  {
    EnvStep(w, op);
    StepFrame(w, op);
  }

  lemma ScanoutGrowsNot(a: World, b: World)
    requires Env(a, b)
    ensures b.scanout.Keys <= a.scanout.Keys
  {
  }

  lemma FlipFreesScanout(w: World)
    requires WInv(w) && w.q.flips != [] && w.q.flips[0].procs.ScanoutFlip?
    ensures w.q.flips[0].crtc !in QueueStep(w, HandleFlip).scanout
  {
    HeadFlip(w);
  }

  /** From the initial state, one page flip that waits for a TearFree flip can end in reading
      freed flipdata. */
  lemma FreedFlipHappens() returns (w': World)
    ensures var w := Submitted(WaitedFor(Accepting()));
            && Idle(w) && 0 in w.reqs.active && w.reqs.active[0].count > 0
            && HandlesDeferred(w, 0, w') && 0 !in w'.reqs.active
  {
    var w0 := Accepting();
    AcceptingShape();
    WaitedShape(w0);
    var v := WaitedFor(w0);
    hide Accepting, WaitedFor, WInv, Reference, Rousable, HandlesDeferred, Env, Submitting;
    hide Submitted, IsFlip, IsFlipOn;
    StillAccepted(w0, v);
    SubmittedIdle(v);
    w' := RousedEnds(Submitted(v), 0, 0);
  }

  lemma StillAccepted(a: World, b: World)
    requires Ready(a) && Env(a, b) && a.building == Some(0) && a.unsent == Some(3)
    requires IsFlipOn(a.q.issued, 3, 0, 0) && FlipDataFb(0, 0) in a.fbs.slots
    ensures WInv(b) && b.building == Some(0) && b.unsent == Some(3) && 3 in b.live
    ensures IsFlipOn(b.q.issued, 3, 0, 0) && FlipDataFb(0, 0) in b.fbs.slots
  {
    hide WInv;
    assert Untouched(a, FlipDataFb(0, 0)) && SameAt(a, b, FlipDataFb(0, 0));
    assert IsFlipOn(b.q.issued, 3, 0, 0);
    Unsent(b, 0);
  }

  lemma SubmittedIdle(v: World)
    requires WInv(v) && v.building == Some(0) && v.unsent == Some(3) && 3 in v.live && 0 !in v.scanout
    requires IsFlipOn(v.q.issued, 3, 0, 0) && FlipDataFb(0, 0) in v.fbs.slots
    ensures var w := Submitted(v); Idle(w) && w.q == v.q && 0 in w.reqs.active && w.reqs.active[0].count > 0
  {
    hide WInv, Reference;
    assert IsFlip(v.q.issued, 3, 0);
    BuiltCount(v);
    SentKeeps(v, 0, 0);
    BuiltKeeps(Sent(v, 0, 0), 0);
  }

  lemma BuiltCount(w: World)
    requires WInv(w) && w.building == Some(0) && w.unsent == Some(3) && 3 in w.live && IsFlip(w.q.issued, 3, 0)
    ensures 0 in w.reqs.active && w.reqs.active[0].count > 0
  {
    var es := Entries(w.q.issued, w.live, 0);
    assert 3 in es;
    assert Counted(w.reqs.active[0], es, true);
  }
}
