/**
 The flip invariants over every step: queue operations with their callbacks, and the
 submission of page flips, TearFree flips, scanout updates and mode changes.
 */
module FlipRuns {
  import opened QueueModel
  import opened QueueSafety
  import opened Common
  import opened FbRefs
  import opened FlipModel
  import opened FlipSafety

  /** A request under construction has the entry under submission among its live ones. */
  ghost predicate Submitting(w: World) {
    && (w.building.Some? <==> w.unsent.Some?)
    && (w.building.Some? ==> IsFlip(w.q.issued, w.unsent.value, w.building.value))
  }

  /** The parts of the invariant, for proofs that keep them folded. */
  lemma Parts(w: World)
    requires WInv(w)
    ensures QueueInv(w) && Inv(w.q) && FbInv(w.fbs, w.q.issued, w.live, w.unsent)
    ensures ReqCounts(w.reqs, w.q.issued, w.live, w.building) && ReqOutcomes(w.reqs) && OnePerCrtc(w.q.issued)
    ensures ReqTimes(w.reqs, w.q.log) && ReqLast(w.reqs, w.q.log) && ScanoutInv(w.scanout, w.q.issued, w.live)
    ensures forall s :: s in w.live ==> 1 <= s <= |w.q.issued|
  {
  }

  lemma Assemble(w: World)
    requires QueueInv(w) && FbInv(w.fbs, w.q.issued, w.live, w.unsent)
    requires ReqCounts(w.reqs, w.q.issued, w.live, w.building) && ReqOutcomes(w.reqs) && OnePerCrtc(w.q.issued)
    requires ReqTimes(w.reqs, w.q.log) && ReqLast(w.reqs, w.q.log) && ScanoutInv(w.scanout, w.q.issued, w.live)
    ensures WInv(w)
  {
  }

  // ----- Queue operations -----

  lemma LiveAfterCall(w: World, q': Queue, c: Call)
    requires QueueInv(w) && Inv(q') && q'.issued == w.q.issued && q'.log == w.q.log + [c] && c.entry.seqNo in w.live
    ensures forall s :: s in w.live - {c.entry.seqNo} <==> 1 <= s <= |q'.issued| && Calls(q', s) == 0
  {
    assert q'.log[..|w.q.log|] == w.q.log;
  }

  /** The facts every callback proof starts from. */
  lemma CalledEntry(w: World, op: Op)
    requires QueueInv(w) && EnvOp(w, op) && !op.Alloc? && Apply(w.q, op).log != w.q.log
    ensures var q' := Apply(w.q, op);
            var c := q'.log[|w.q.log|];
            && Inv(q') && q'.issued == w.q.issued && q'.log == w.q.log + [c]
            && c.entry.seqNo in w.live && Ident(c.entry) == q'.issued[c.entry.seqNo - 1]
            && w.unsent != Some(c.entry.seqNo)
            && QueueInv(w.(q := q', live := w.live - {c.entry.seqNo}))
  {
    var q' := Apply(w.q, op);
    InvKept(w.q, op);
    QueueEffect(w.q, op);
    var c := q'.log[|w.q.log|];
    LiveAfterCall(w, q', c);
    if w.unsent.Some? {
      UnsentKept(w, op);
    }
  }

  lemma FlipCallKeeps(w: World, q': Queue, c: Call)
    requires WInv(w) && Submitting(w)
    requires q'.issued == w.q.issued && q'.log == w.q.log + [c] && c.entry.procs.DrmmodeFlip?
    requires c.entry.seqNo in w.live && Ident(c.entry) == q'.issued[c.entry.seqNo - 1] &&
             w.unsent != Some(c.entry.seqNo)
    requires QueueInv(w.(q := q', live := w.live - {c.entry.seqNo}))
    ensures WInv(Callback(w.(q := q', live := w.live - {c.entry.seqNo})))
  {
    hide WInv, QueueInv, Inv, FbInv, ReqCounts, ReqOutcomes, OnePerCrtc, ReqTimes, ReqLast, ScanoutInv;
    hide FlipAbortFbs, FlipHandlerFbs, FlipAbortReq, FlipHandlerReq;
    Parts(w);
    var e := c.entry;
    var s, r, crtc, k := e.seqNo, e.data, e.crtc, |w.q.log|;
    assert IsFlipOn(w.q.issued, s, r, crtc);
    assert IsFlip(w.q.issued, s, r);
    assert FlipCall(c, r);
    FlipFacts(w, s, r);
    FbInvFlip(w.fbs, w.q.issued, w.live, w.unsent, s, r, crtc);
    BuildingBusy(w, s, r);
    FlipTicks(w.reqs, r, crtc, e.frame, e.usec, k);
    var rs' := if c.aborted then FlipAbortReq(w.reqs, r, crtc, Some(k))
        else FlipHandlerReq(w.reqs, r, crtc, e.frame, e.usec, k);
    TickedCounts(w.reqs, rs', w.q.issued, w.live, w.building, s, r);
    TickedOutcomes(w.reqs, rs', r);
    TimesFlip(w.reqs, w.q, c, r);
    LastFlip(w.reqs, w.q.log, c, r);
    ScanoutFewer(w.scanout, w.q.issued, w.live, s);
    var w' := Callback(w.(q := q', live := w.live - {s}));
    QueueOnly(w.(q := q', live := w.live - {s}), w');
    Assemble(w');
  }

  /** What is known of the request of a live entry. */
  lemma FlipFacts(w: World, s: nat, r: nat)
    requires WInv(w) && s in w.live && IsFlip(w.q.issued, s, r)
    ensures Calls(w.q, s) == 0 && r in w.reqs.active && r < |w.reqs.refs| && w.reqs.active[r].ref == w.reqs.refs[r]
  {
  }

  lemma ScanoutFewer(scanout: map<nat, nat>, issued: seq<Entry>, live: set<nat>, s: nat)
    requires ScanoutInv(scanout, issued, live)
    ensures ScanoutInv(scanout, issued, live - {s})
  {
  }

  /** The queue part of the invariant does not look at FBs, requests or scanouts. */
  lemma QueueOnly(a: World, b: World)
    requires QueueInv(a) && b.q == a.q && b.live == a.live && b.unsent == a.unsent
    ensures QueueInv(b)
  {
  }

  /** A request under construction cannot lose its last entry. */
  lemma BuildingBusy(w: World, s: nat, r: nat)
    requires WInv(w) && Submitting(w) && s in w.live && IsFlip(w.q.issued, s, r) && w.unsent != Some(s)
    ensures r in w.reqs.active && (w.building == Some(r) ==> w.reqs.active[r].count != 1)
  {
    if w.building == Some(r) {
      var u := w.unsent.value;
      PendingNotElsewhere(w.q, u);
      assert CensusAt(w.q, u);
      var es := Entries(w.q.issued, w.live, r);
      assert {s, u} <= es;
      assert |es - {s, u}| == |es| - 2;
      assert Counted(w.reqs.active[r], es, true);
    }
  }

  lemma OtherCallKeeps(w: World, q': Queue, c: Call)
    requires WInv(w)
    requires q'.issued == w.q.issued && q'.log == w.q.log + [c] && !c.entry.procs.DrmmodeFlip?
    requires c.entry.seqNo in w.live && Ident(c.entry) == q'.issued[c.entry.seqNo - 1] &&
             w.unsent != Some(c.entry.seqNo)
    requires QueueInv(w.(q := q', live := w.live - {c.entry.seqNo}))
    ensures WInv(Callback(w.(q := q', live := w.live - {c.entry.seqNo})))
  {
    var e := c.entry;
    var s := e.seqNo;
    OtherCounts(w.reqs, w.q.issued, w.live, w.building, s);
    OtherCallTimes(w.reqs, w.q.log, c);
    FbInvOther(w.fbs, w.q.issued, w.live, w.unsent, s);
    if e.procs.ScanoutFlip? {
      assert IsScanoutFlip(w.q.issued, s, e.crtc, e.data);
      FbInvScanout(w.fbs, w.q.issued, w.live, w.unsent, w.scanout, s, e.crtc, e.data, c.aborted);
    }
    if e.procs.ScanoutFlip? || e.procs.ScanoutUpdate? {
      ScanoutGone(w.scanout, w.q.issued, w.live, s, e.crtc);
    }
  }

  lemma ScanoutGone(scanout: map<nat, nat>, issued: seq<Entry>, live: set<nat>, s: nat, crtc: nat)
    requires ScanoutInv(scanout, issued, live) && s in live && IsScanout(issued, s, crtc)
    ensures ScanoutInv(scanout - {crtc}, issued, live - {s})
  {
    var scanout' := scanout - {crtc};
    assert forall c :: c in scanout' ==> c in scanout && scanout'[c] == scanout[c];
  }

  // ----- Issuing an entry -----

  /** The invariants that do not depend on what the new entry is. */
  lemma IssueQueue(w: World, op: Op)
    requires QueueInv(w) && op.Alloc?
    ensures QueueInv(w.(q := Apply(w.q, op), live := w.live + {|w.q.issued| + 1}))
  {
    var q' := Apply(w.q, op);
    InvKept(w.q, op);
    QueueEffect(w.q, op);
    assert CensusAt(w.q, |w.q.issued| + 1);
    if w.unsent.Some? {
      UnsentAlloc(w.q, w.unsent.value, op);
    }
  }

  lemma IssueFbs(t: Fbs, issued: seq<Entry>, live: set<nat>, unsent: Option<nat>, e: Entry)
    requires FbInv(t, issued, live, unsent) && (forall s :: s in live ==> 1 <= s <= |issued|)
    requires !e.procs.ScanoutFlip?
    requires e.procs.DrmmodeFlip? ==> FlipDataFb(e.data, e.crtc) !in t.slots
    ensures FbInv(t, issued + [e], live + {|issued| + 1}, unsent)
  {
    var issued', live' := issued + [e], live + {|issued| + 1};
    forall r, crtc | FlipDataFb(r, crtc) in t.slots ensures exists s :: s in live' && IsFlipOn(issued', s, r, crtc) {
      var s :| s in live && IsFlipOn(issued, s, r, crtc);
      assert IsFlipOn(issued', s, r, crtc);
    }
    forall s, crtc, fb | s in live' && IsScanoutFlip(issued', s, crtc, fb)
      ensures FlipPending(crtc) in t.slots && t.slots[FlipPending(crtc)] == fb &&
              IsScanoutFlip(issued, s, crtc, fb) && s in live
    {
      assert IsScanoutFlip(issued, s, crtc, fb);
    }
    forall s, s', crtc, fb, r | s in live' && s' in live' && IsScanoutFlip(issued', s, crtc, fb)
        && IsFlipOn(issued', s', r, crtc) && FlipDataFb(r, crtc) in t.slots
      ensures unsent == Some(s')
    {
      assert IsFlipOn(issued, s', r, crtc);
    }
  }

  lemma IssueOtherCounts(rs: Requests, issued: seq<Entry>, live: set<nat>, building: Option<nat>, e: Entry)
    requires ReqCounts(rs, issued, live, building) && !e.procs.DrmmodeFlip?
    requires forall s :: s in live ==> 1 <= s <= |issued|
    ensures ReqCounts(rs, issued + [e], live + {|issued| + 1}, building)
  {
    var issued', live' := issued + [e], live + {|issued| + 1};
    assert forall s: nat, r: nat :: IsFlip(issued', s, r) ==> IsFlip(issued, s, r);
    forall r | r in rs.active ensures Counted(rs.active[r], Entries(issued', live', r), building == Some(r)) {
      assert Entries(issued', live', r) == Entries(issued, live, r);
    }
  }

  lemma IssueOnePerCrtc(issued: seq<Entry>, e: Entry)
    requires OnePerCrtc(issued)
    requires e.procs.DrmmodeFlip? ==> forall s: nat :: !IsFlipOn(issued, s, e.data, e.crtc)
    ensures OnePerCrtc(issued + [e])
  {
    var issued' := issued + [e];
    forall s: nat, s': nat, r: nat, crtc: nat | IsFlipOn(issued', s, r, crtc) && IsFlipOn(issued', s', r, crtc)
      ensures s == s'
    {
      assert s <= |issued| ==> IsFlipOn(issued, s, r, crtc);
      assert s' <= |issued| ==> IsFlipOn(issued, s', r, crtc);
    }
  }

  lemma IssueScanout(scanout: map<nat, nat>, issued: seq<Entry>, live: set<nat>, e: Entry)
    requires ScanoutInv(scanout, issued, live) && (forall s :: s in live ==> 1 <= s <= |issued|)
    requires !e.procs.ScanoutFlip? && !e.procs.ScanoutUpdate? && (e.isFlip <==> e.procs.DrmmodeFlip?)
    ensures ScanoutInv(scanout, issued + [e], live + {|issued| + 1})
  {
    var issued' := issued + [e];
    forall s, crtc | s in live + {|issued| + 1} && IsScanout(issued', s, crtc)
      ensures crtc in scanout && scanout[crtc] == s
    {
      assert IsScanout(issued, s, crtc);
    }
    forall crtc | crtc in scanout ensures IsScanout(issued', scanout[crtc], crtc) {
      assert IsScanout(issued, scanout[crtc], crtc);
    }
  }

  lemma IssueOther(w: World, op: Op)
    requires WInv(w) && op.Alloc? && (op.procs.FrameEvent? || op.procs.PresentVblank?) && !op.isFlip
    ensures WInv(QueueStep(w, op))
  {
    hide WInv, QueueInv, Inv, FbInv, ReqCounts, ReqOutcomes, OnePerCrtc, ReqTimes, ReqLast, ScanoutInv, Apply;
    Parts(w);
    var q' := Apply(w.q, op);
    QueueEffect(w.q, op);
    var e := q'.issued[|w.q.issued|];
    IssueQueue(w, op);
    IssueFbs(w.fbs, w.q.issued, w.live, w.unsent, e);
    IssueOtherCounts(w.reqs, w.q.issued, w.live, w.building, e);
    IssueOnePerCrtc(w.q.issued, e);
    IssueScanout(w.scanout, w.q.issued, w.live, e);
    Assemble(QueueStep(w, op));
  }

  lemma SilentKeeps(w: World, op: Op)
    requires WInv(w) && EnvOp(w, op) && !op.Alloc? && Apply(w.q, op).log == w.q.log
    ensures WInv(w.(q := Apply(w.q, op)))
  {
    InvKept(w.q, op);
    QueueEffect(w.q, op);
    if w.unsent.Some? {
      UnsentKept(w, op);
    }
  }

  lemma CalledKeeps(w: World, op: Op)
    requires WInv(w) && Submitting(w) && EnvOp(w, op) && !op.Alloc? && Apply(w.q, op).log != w.q.log
    ensures WInv(Callback(w.(q := Apply(w.q, op),
            live := w.live - {Apply(w.q, op).log[|Apply(w.q, op).log| - 1].entry.seqNo})))
  {
    var q' := Apply(w.q, op);
    CalledEntry(w, op);
    var c := q'.log[|w.q.log|];
    if c.entry.procs.DrmmodeFlip? {
      FlipCallKeeps(w, q', c);
    } else {
      OtherCallKeeps(w, q', c);
    }
  }

  lemma CallbackFrame(w: World)
    requires w.q.log != []
    ensures var w' := Callback(w);
            w'.q == w.q && w'.live == w.live && w'.unsent == w.unsent && w'.building == w.building
  {
  }

  /** What a step leaves alone. */
  lemma StepFrame(w: World, op: Op)
    requires Inv(w.q)
    ensures var w' := QueueStep(w, op);
            && w'.q == Apply(w.q, op) && w'.unsent == w.unsent && w'.building == w.building
            && w.q.issued <= w'.q.issued
  {
    QueueEffect(w.q, op);
    var q' := Apply(w.q, op);
    if |q'.issued| == |w.q.issued| && |q'.log| > |w.q.log| {
      CallbackFrame(w.(q := q', live := w.live - {q'.log[|q'.log| - 1].entry.seqNo}));
    }
  }

  /** Any queue operation, with the callback it runs, keeps all flip invariants. */
  lemma QueueStepKeeps(w: World, op: Op)
    requires WInv(w) && Submitting(w) && EnvOp(w, op)
    ensures WInv(QueueStep(w, op))
  {
    QueueEffect(w.q, op);
    if op.Alloc? {
      IssueOther(w, op);
    } else if Apply(w.q, op).log == w.q.log {
      SilentKeeps(w, op);
    } else {
      CalledKeeps(w, op);
    }
  }

  lemma SubmittingKept(w: World, op: Op)
    requires WInv(w) && Submitting(w)
    ensures Submitting(QueueStep(w, op))
  {
    StepFrame(w, op);
  }
}
