/**
 Every queue operation, with the callback it runs, keeps the flip invariants.
 */
module FlipSafety {
  import opened QueueModel
  import opened QueueSafety
  import opened Common
  import opened FbRefs
  import opened FlipModel

  // ----- What one queue operation does to the issued and called-back entries -----

  /** Numbers found in a list were not called back. */
  lemma ListedNotCalled(q: Queue, s: nat)
    requires Inv(q) && Places(q, s) > 0
    ensures Calls(q, s) == 0 && 1 <= s <= |q.issued|
  {
    assert CensusAt(q, s);
  }

  lemma LoggedOnce(q: Queue, q': Queue, c: Call)
    requires Inv(q') && q'.log == q.log + [c]
    ensures Known(q'.issued, c.entry) && Calls(q, c.entry.seqNo) == 0
  {
    assert c in q'.log;
    assert q'.log[..|q.log|] == q.log;
    assert CensusAt(q', c.entry.seqNo);
  }

  lemma IssuedKept(q: Queue, op: Op)
    requires !op.Alloc?
    ensures Apply(q, op).issued == q.issued
    ensures Apply(q, op).log == q.log || Apply(q, op).log == q.log + [Apply(q, op).log[|q.log|]]
  {
  }

  /** An operation issues one entry, or calls back at most one that was not called before. */
  lemma QueueEffect(q: Queue, op: Op)
    requires Inv(q)
    ensures var q' := Apply(q, op);
            if op.Alloc? then
              && q'.log == q.log
              && q'.issued == q.issued + [Entry(|q.issued| + 1, op.client, op.crtc, op.id, op.data, op.procs, true,
                  op.isFlip, 0, 0)]
            else
              && q'.issued == q.issued
              && (q'.log == q.log || (q'.log == q.log + [q'.log[|q.log|]]
                                      && Known(q.issued, q'.log[|q.log|].entry)
                                      && Calls(q, q'.log[|q.log|].entry.seqNo) == 0))
  {
    if !op.Alloc? {
      var q' := Apply(q, op);
      InvKept(q, op);
      IssuedKept(q, op);
      if q'.log != q.log {
        LoggedOnce(q, q', q'.log[|q.log|]);
      }
    }
  }

  lemma PendingNotElsewhere(q: Queue, u: nat)
    requires Inv(q) && Count(q.pending, u) == 1
    ensures forall e :: e in q.flips || e in q.vblanks || e in q.deferred ==> e.seqNo != u
    ensures 1 <= u <= |q.issued|
  {
    assert CensusAt(q, u);
    CountMember(q.flips, u);
    CountMember(q.vblanks, u);
    CountMember(q.deferred, u);
  }

  /** u is still pending and was not the entry called back. */
  ghost predicate StillPending(q: Queue, q': Queue, u: nat) {
    Count(q'.pending, u) == 1 && (|q'.log| > |q.log| ==> q'.log[|q.log|].entry.seqNo != u)
  }

  lemma UnsentSignal(q: Queue, u: nat, n: nat, frame: nat, sec: nat, usec: nat)
    requires Count(q.pending, u) == 1 && n != u
    ensures StillPending(q, DoSignal(q, n, frame, sec, usec), u)
  {
    var i := IndexOf(q.pending, n);
    if i < |q.pending| { CountWithout(q.pending, i, u); }
  }

  lemma UnsentAbort(q: Queue, u: nat, n: nat)
    requires Count(q.pending, u) == 1
    ensures n != u ==> StillPending(q, DoAbortEntry(q, n), u)
    ensures (IndexOfId(q.pending, n) < |q.pending| ==> q.pending[IndexOfId(q.pending, n)].seqNo != u) ==>
              StillPending(q, DoAbortId(q, n), u)
  {
    var i, k := IndexOf(q.pending, n), IndexOfId(q.pending, n);
    if i < |q.pending| { CountWithout(q.pending, i, u); }
    if k < |q.pending| { CountWithout(q.pending, k, u); }
  }

  lemma UnsentAlloc(q: Queue, u: nat, op: Op)
    requires Inv(q) && Count(q.pending, u) == 1 && op.Alloc?
    ensures StillPending(q, DoAlloc(q, op), u)
  {
    PendingNotElsewhere(q, u);
    CountSnoc(q.pending, DoAlloc(q, op).pending[|q.pending|], u);
  }

  /** The entry under submission stays in the pending list and is not called back. */
  lemma UnsentKept(w: World, op: Op)
    requires Inv(w.q) && w.unsent.Some? && Count(w.q.pending, w.unsent.value) == 1 && EnvOp(w, op)
    ensures StillPending(w.q, Apply(w.q, op), w.unsent.value)
  {
    var q, u := w.q, w.unsent.value;
    PendingNotElsewhere(q, u);
    match op
    case Alloc(_, _, _, _, _, _, _) => UnsentAlloc(q, u, op);
    case Signal(n, frame, sec, usec) => UnsentSignal(q, u, n, frame, sec, usec);
    case AbortEntry(n) => UnsentAbort(q, u, n);
    case AbortId(id) => UnsentAbort(q, u, id);
    case AbortClient(client) => CountClear(q.pending, client, u);
    case _ =>
  }

  // ----- FB references in the callbacks -----

  lemma ReferenceOther(t: Fbs, slot: Slot, next: Option<nat>, x: Slot)
    requires x != slot && x in t.slots
    ensures var u := Reference(t, slot, next); x in u.slots && u.slots[x] == t.slots[x]
  {
  }

  lemma FlipFbsOther(t: Fbs, r: nat, crtc: nat, x: Slot)
    requires x in t.slots && x != FlipPending(crtc) && x != FlipDataFb(r, crtc) && x != CrtcFb(crtc)
    ensures var u := FlipAbortFbs(t, r, crtc); x in u.slots && u.slots[x] == t.slots[x]
    ensures var u := FlipHandlerFbs(t, r, crtc); x in u.slots && u.slots[x] == t.slots[x]
  {
    var fp, fd := FlipPending(crtc), FlipDataFb(r, crtc);
    ReferenceOther(t, fp, None, x);
    var t1 := if SameFb(t, fp, fd) then Reference(t, fp, None) else t;
    ReferenceOther(t1, fd, None, x);
    if fd in t.slots {
      ReferenceOther(t1, CrtcFb(crtc), Some(t.slots[fd]), x);
      ReferenceOther(Reference(t1, CrtcFb(crtc), Some(t.slots[fd])), fd, None, x);
    }
  }

  lemma ScanoutFbsOther(t: Fbs, crtc: nat, fb: nat, x: Slot)
    requires x in t.slots && x != FlipPending(crtc) && x != CrtcFb(crtc)
    ensures var u := ScanoutAbortFbs(t, crtc, fb); x in u.slots && u.slots[x] == t.slots[x]
    ensures var u := ScanoutHandlerFbs(t, crtc, fb); x in u.slots && u.slots[x] == t.slots[x]
  {
    ReferenceOther(t, FlipPending(crtc), None, x);
    ReferenceOther(t, CrtcFb(crtc), Some(fb), x);
    ReferenceOther(Reference(t, CrtcFb(crtc), Some(fb)), FlipPending(crtc), None, x);
  }

  /** flip_pending holds the FB that the request flips the CRTC to. */
  predicate PendingHolds(t: Fbs, r: nat, crtc: nat) {
    var fp, fd := FlipPending(crtc), FlipDataFb(r, crtc);
    fp in t.slots && fd in t.slots && t.slots[fp] == t.slots[fd]
  }

  /** Slots after drmmode_flip_abort. */
  lemma FlipAbortFbsSlots(t: Fbs, r: nat, crtc: nat)
    requires Conserved(t)
    ensures var u := FlipAbortFbs(t, r, crtc);
            && Conserved(u)
            && u.slots == t.slots - {FlipDataFb(r, crtc)}
                 - (if SameFb(t, FlipPending(crtc), FlipDataFb(r, crtc)) then {FlipPending(crtc)} else {})
            && (FlipPending(crtc) in u.slots <==> FlipPending(crtc) in t.slots && !PendingHolds(t, r, crtc))
  {
    hide Reference, Conserved;
    var same := SameFb(t, FlipPending(crtc), FlipDataFb(r, crtc));
    if same { ReferenceConserves(t, FlipPending(crtc), None); }
    var t1 := if same then Reference(t, FlipPending(crtc), None) else t;
    ReferenceConserves(t1, FlipDataFb(r, crtc), None);
  }

  /** Handing the FB of one slot to another. */
  lemma HandOver(t: Fbs, from: Slot, to: Slot)
    requires Conserved(t) && from in t.slots && from != to
    ensures var u := Reference(Reference(t, to, Some(t.slots[from])), from, None);
            Conserved(u) && u.slots == t.slots[to := t.slots[from]] - {from}
  {
    ReferenceConserves(t, to, Some(t.slots[from]));
    ReferenceConserves(Reference(t, to, Some(t.slots[from])), from, None);
  }

  /** Slots after drmmode_flip_handler: the CRTC now scans out the request's FB. */
  lemma FlipHandlerFbsSlots(t: Fbs, r: nat, crtc: nat)
    requires Conserved(t) && FlipDataFb(r, crtc) in t.slots
    ensures var u := FlipHandlerFbs(t, r, crtc);
            && Conserved(u)
            && u.slots ==
                 (t.slots - (if SameFb(t, FlipPending(crtc), FlipDataFb(r, crtc)) then {FlipPending(crtc)} else {}))
                 [CrtcFb(crtc) := t.slots[FlipDataFb(r, crtc)]] - {FlipDataFb(r, crtc)}
            && (FlipPending(crtc) in u.slots <==> FlipPending(crtc) in t.slots && !PendingHolds(t, r, crtc))
  {
    var slot := FlipDataFb(r, crtc);
    if SameFb(t, FlipPending(crtc), slot) {
      ReferenceConserves(t, FlipPending(crtc), None);
      HandOver(Reference(t, FlipPending(crtc), None), slot, CrtcFb(crtc));
    } else {
      HandOver(t, slot, CrtcFb(crtc));
      assert t.slots - {} == t.slots;
    }
  }

  /** Slots after the TearFree callbacks: a completed flip's FB is scanned out, and flip_pending
      lets go if it still held that FB. */
  lemma ScanoutFbsSlots(t: Fbs, crtc: nat, fb: nat, aborted: bool)
    requires Conserved(t) && (!aborted ==> fb in t.refcnt)
    ensures var u := if aborted then ScanoutAbortFbs(t, crtc, fb) else ScanoutHandlerFbs(t, crtc, fb);
            var fp := FlipPending(crtc);
            && Conserved(u)
            && u.slots == (if aborted then t.slots else t.slots[CrtcFb(crtc) := fb])
                 - (if fp in t.slots && t.slots[fp] == fb then {fp} else {})
  {
    hide Reference, Conserved;
    if aborted {
      ScanoutAbortSlots(t, crtc, fb);
    } else {
      ReferenceConserves(t, CrtcFb(crtc), Some(fb));
      ScanoutAbortSlots(Reference(t, CrtcFb(crtc), Some(fb)), crtc, fb);
    }
  }

  lemma ScanoutAbortSlots(t: Fbs, crtc: nat, fb: nat)
    requires Conserved(t)
    ensures var u, fp := ScanoutAbortFbs(t, crtc, fb), FlipPending(crtc);
            Conserved(u) && u.slots == t.slots - (if fp in t.slots && t.slots[fp] == fb then {fp} else {})
  {
    hide Reference, Conserved;
    ReferenceConserves(t, FlipPending(crtc), None);
    assert t.slots - {} == t.slots;
  }

  /** Losing the live flip entry s and the FB its request held keeps the FB invariant. */
  lemma FbInvFlipGone(t: Fbs, u: Fbs, issued: seq<Entry>, live: set<nat>, unsent: Option<nat>, s: nat, r: nat,
                      crtc: nat)
    requires FbInv(t, issued, live, unsent) && s in live && IsFlipOn(issued, s, r, crtc) && unsent != Some(s)
    requires Conserved(u) && FlipDataFb(r, crtc) !in u.slots
    requires forall r', c' :: FlipDataFb(r', c') in u.slots ==> FlipDataFb(r', c') in t.slots
    requires forall c' :: FlipPending(c') in t.slots
                          && !(c' == crtc && SameFb(t, FlipPending(crtc), FlipDataFb(r, crtc))) ==>
               FlipPending(c') in u.slots && u.slots[FlipPending(c')] == t.slots[FlipPending(c')]
    ensures FbInv(u, issued, live - {s}, unsent)
  {
    forall r', c' | FlipDataFb(r', c') in u.slots
      ensures exists s' :: s' in live - {s} && IsFlipOn(issued, s', r', c')
    {
      var s' :| s' in live && IsFlipOn(issued, s', r', c');
      assert s' in live - {s};
    }
  }

  lemma NothingHandedOver(t: Fbs, r: nat, crtc: nat)
    requires FlipDataFb(r, crtc) !in t.slots
    ensures FlipHandlerFbs(t, r, crtc) == t
  {
  }

  lemma FbInvFlip(t: Fbs, issued: seq<Entry>, live: set<nat>, unsent: Option<nat>, s: nat, r: nat, crtc: nat)
    requires FbInv(t, issued, live, unsent) && s in live && IsFlipOn(issued, s, r, crtc) && unsent != Some(s)
    ensures FbInv(FlipAbortFbs(t, r, crtc), issued, live - {s}, unsent)
    ensures FbInv(FlipHandlerFbs(t, r, crtc), issued, live - {s}, unsent)
  {
    hide FlipAbortFbs, FlipHandlerFbs;
    FlipAbortFbsSlots(t, r, crtc);
    FbInvFlipGone(t, FlipAbortFbs(t, r, crtc), issued, live, unsent, s, r, crtc);
    if FlipDataFb(r, crtc) in t.slots {
      FlipHandlerFbsSlots(t, r, crtc);
    } else {
      NothingHandedOver(t, r, crtc);
    }
    FbInvFlipGone(t, FlipHandlerFbs(t, r, crtc), issued, live, unsent, s, r, crtc);
  }

  /** Losing the only live TearFree flip of a CRTC and the FB flip_pending held for it. */
  lemma FbInvScanoutGone(t: Fbs, u: Fbs, issued: seq<Entry>, live: set<nat>, unsent: Option<nat>, s: nat, crtc: nat,
                         fb: nat)
    requires FbInv(t, issued, live, unsent) && s in live && IsScanoutFlip(issued, s, crtc, fb)
    requires forall s', fb' :: s' in live && IsScanoutFlip(issued, s', crtc, fb') ==> s' == s
    requires Conserved(u)
    requires forall r', c' :: FlipDataFb(r', c') in u.slots <==> FlipDataFb(r', c') in t.slots
    requires forall c' :: FlipPending(c') in t.slots && c' != crtc ==>
               FlipPending(c') in u.slots && u.slots[FlipPending(c')] == t.slots[FlipPending(c')]
    ensures FbInv(u, issued, live - {s}, unsent)
  {
    forall r', c' | FlipDataFb(r', c') in u.slots
      ensures exists s' :: s' in live - {s} && IsFlipOn(issued, s', r', c')
    {
      var s' :| s' in live && IsFlipOn(issued, s', r', c');
      assert s' in live - {s};
    }
  }

  lemma FbInvScanout(t: Fbs, issued: seq<Entry>, live: set<nat>, unsent: Option<nat>, scanout: map<nat, nat>,
                     s: nat, crtc: nat, fb: nat, aborted: bool)
    requires FbInv(t, issued, live, unsent) && ScanoutInv(scanout, issued, live)
    requires s in live && IsScanoutFlip(issued, s, crtc, fb)
    ensures FbInv(if aborted then ScanoutAbortFbs(t, crtc, fb) else ScanoutHandlerFbs(t, crtc, fb),
                  issued, live - {s}, unsent)
  {
    ScanoutFbsSlots(t, crtc, fb, aborted);
    var u := if aborted then ScanoutAbortFbs(t, crtc, fb) else ScanoutHandlerFbs(t, crtc, fb);
    assert IsScanout(issued, s, crtc);
    forall s', fb' | s' in live && IsScanoutFlip(issued, s', crtc, fb') ensures s' == s {
      assert IsScanout(issued, s', crtc);
    }
    FbInvScanoutGone(t, u, issued, live, unsent, s, crtc, fb);
  }

  /** Losing any other live entry. */
  lemma FbInvOther(t: Fbs, issued: seq<Entry>, live: set<nat>, unsent: Option<nat>, s: nat)
    requires FbInv(t, issued, live, unsent) && 1 <= s <= |issued| && !issued[s - 1].procs.DrmmodeFlip?
    ensures FbInv(t, issued, live - {s}, unsent)
  {
    forall r', c' | FlipDataFb(r', c') in t.slots
      ensures exists s' :: s' in live - {s} && IsFlipOn(issued, s', r', c')
    {
      var s' :| s' in live && IsFlipOn(issued, s', r', c');
      assert s' in live - {s};
    }
  }

  // ----- Requests in the callbacks -----

  lemma EntriesMinus(issued: seq<Entry>, live: set<nat>, s: nat, r: nat)
    requires s in live
    ensures Entries(issued, live - {s}, r) == Entries(issued, live, r) - {s}
    ensures |Entries(issued, live - {s}, r)| == |Entries(issued, live, r)| - (if IsFlip(issued, s, r) then 1 else 0)
  {
    assert Entries(issued, live - {s}, r) == Entries(issued, live, r) - {s};
  }

  /** rs' is rs after one of the callbacks of request r. */
  ghost predicate Ticked(rs: Requests, rs': Requests, r: nat) {
    && r in rs.active && rs'.refs == rs.refs && rs'.fault == rs.fault
    && (forall x :: x != r ==> (x in rs'.active <==> x in rs.active))
    && (forall x :: x != r && x in rs'.active ==> rs'.active[x] == rs.active[x])
    && (r in rs'.active <==> rs.active[r].count != 1)
    && (if r in rs'.active then
          && rs'.active[r].count == rs.active[r].count - 1 && rs'.active[r].ref == rs.active[r].ref
          && rs'.outcomes == rs.outcomes
        else
          && |rs'.outcomes| == |rs.outcomes| + 1 && rs'.outcomes == rs.outcomes + [rs'.outcomes[|rs.outcomes|]]
          && rs'.outcomes[|rs.outcomes|].request == r)
  }

  lemma FlipTicks(rs: Requests, r: nat, crtc: nat, frame: nat, usec: nat, k: nat)
    requires r in rs.active
    ensures Ticked(rs, FlipAbortReq(rs, r, crtc, Some(k)), r)
    ensures Ticked(rs, FlipAbortReq(rs, r, crtc, None), r)
    ensures Ticked(rs, FlipHandlerReq(rs, r, crtc, frame, usec, k), r)
  {
  }

  lemma TickedCounts(rs: Requests, rs': Requests, issued: seq<Entry>, live: set<nat>, building: Option<nat>, s: nat,
                     r: nat)
    requires ReqCounts(rs, issued, live, building) && Ticked(rs, rs', r)
    requires s in live && IsFlip(issued, s, r)
    requires building == Some(r) ==> rs.active[r].count != 1
    ensures ReqCounts(rs', issued, live - {s}, building)
  {
    assert s in Entries(issued, live, r);
    forall x | x in rs'.active
      ensures Counted(rs'.active[x], Entries(issued, live - {s}, x), building == Some(x))
    {
      EntriesMinus(issued, live, s, x);
      assert Counted(rs.active[x], Entries(issued, live, x), building == Some(x));
      if x != r {
        assert !IsFlip(issued, s, x);
        assert Entries(issued, live - {s}, x) == Entries(issued, live, x);
      }
    }
    assert Counted(rs.active[r], Entries(issued, live, r), building == Some(r));
    if r !in rs'.active {
      EntriesMinus(issued, live, s, r);
      assert Entries(issued, live - {s}, r) == {};
      assert forall s' :: s' in live - {s} && IsFlip(issued, s', r) ==> s' in Entries(issued, live - {s}, r);
    }
  }

  lemma TickedOutcomes(rs: Requests, rs': Requests, r: nat)
    requires ReqOutcomes(rs) && Ticked(rs, rs', r) && r < |rs.refs|
    ensures ReqOutcomes(rs')
  {
    var n := |rs.outcomes|;
    forall x: nat | x < |rs'.refs| && x !in rs'.active
      ensures exists i :: 0 <= i < |rs'.outcomes| && rs'.outcomes[i].request == x
    {
      if x == r {
        assert rs'.outcomes[n].request == x;
      } else {
        var i :| 0 <= i < n && rs.outcomes[i].request == x;
        assert rs'.outcomes[i] == rs.outcomes[i];
      }
    }
  }

  /** Losing an entry that is no page flip. */
  lemma OtherCounts(rs: Requests, issued: seq<Entry>, live: set<nat>, building: Option<nat>, s: nat)
    requires ReqCounts(rs, issued, live, building) && s in live
    requires 1 <= s <= |issued| && !issued[s - 1].procs.DrmmodeFlip?
    ensures ReqCounts(rs, issued, live - {s}, building)
  {
    forall x | x in rs.active ensures Counted(rs.active[x], Entries(issued, live - {s}, x), building == Some(x)) {
      EntriesMinus(issued, live, s, x);
      assert Entries(issued, live - {s}, x) == Entries(issued, live, x);
    }
  }

  /** The facts about the log that the cached times rest on: no callback was run for entry s,
      so none for its request and CRTC. */
  lemma NoEarlierCall(q: Queue, s: nat, r: nat, crtc: nat, c: Call)
    requires Inv(q) && OnePerCrtc(q.issued) && IsFlipOn(q.issued, s, r, crtc) && Calls(q, s) == 0
    requires c in q.log && FlipCall(c, r)
    ensures c.entry.crtc != crtc
  {
    assert Known(q.issued, c.entry);
    CallsMember(q.log, s);
    if c.entry.crtc == crtc {
      assert IsFlipOn(q.issued, c.entry.seqNo, r, crtc);
    }
  }

  lemma TimesAbort(rs: Requests, log: seq<Call>, c: Call, r: nat)
    requires ReqTimes(rs, log) && FlipCall(c, r) && c.aborted && r in rs.active
    ensures ReqTimes(FlipAbortReq(rs, r, c.entry.crtc, Some(|log|)), log + [c])
  {
    assert forall x :: x in log + [c] <==> x in log || x == c;
  }

  lemma TimesHandler(rs: Requests, log: seq<Call>, c: Call, r: nat)
    requires ReqTimes(rs, log) && FlipCall(c, r) && !c.aborted && r in rs.active
    requires r < |rs.refs| && rs.active[r].ref == rs.refs[r]
    requires forall o :: o in rs.outcomes ==> o.request != r
    requires forall x :: x in log && FlipCall(x, r) ==> x.entry.crtc != c.entry.crtc
    ensures ReqTimes(FlipHandlerReq(rs, r, c.entry.crtc, c.entry.frame, c.entry.usec, |log|), log + [c])
  {
    var e := c.entry;
    var rs' := FlipHandlerReq(rs, r, e.crtc, e.frame, e.usec, |log|);
    assert forall x :: x in log + [c] <==> x in log || x == c;
    forall x, y | x in log + [c] && FlipCall(x, y) && !x.aborted && y in rs'.active &&
        rs'.active[y].ref == Some(x.entry.crtc)
      ensures rs'.active[y].frame == x.entry.frame && rs'.active[y].usec == x.entry.usec
    {
      assert y in rs.active && rs.active[y].ref == rs'.active[y].ref;
    }
    forall x, o | x in log + [c] && o in rs'.outcomes && FlipCall(x, o.request) && !x.aborted && o.handled
                  && o.request < |rs'.refs| && rs'.refs[o.request] == Some(x.entry.crtc)
      ensures o.crtc == Some(x.entry.crtc) && o.frame == x.entry.frame && o.usec == x.entry.usec
    {
      if o.request != r {
        assert o in rs.outcomes && x in log;
      }
    }
  }

  lemma TimesFlip(rs: Requests, q: Queue, c: Call, r: nat)
    requires Inv(q) && OnePerCrtc(q.issued) && ReqTimes(rs, q.log) && ReqOutcomes(rs)
    requires FlipCall(c, r) && IsFlipOn(q.issued, c.entry.seqNo, r, c.entry.crtc) && Calls(q, c.entry.seqNo) == 0
    requires r in rs.active && r < |rs.refs| && rs.active[r].ref == rs.refs[r]
    ensures var e := c.entry;
            ReqTimes(if c.aborted then FlipAbortReq(rs, r, e.crtc, Some(|q.log|))
                     else FlipHandlerReq(rs, r, e.crtc, e.frame, e.usec, |q.log|), q.log + [c])
  {
    if c.aborted {
      TimesAbort(rs, q.log, c, r);
    } else {
      forall x | x in q.log && FlipCall(x, r) ensures x.entry.crtc != c.entry.crtc {
        NoEarlierCall(q, c.entry.seqNo, r, c.entry.crtc, x);
      }
      TimesHandler(rs, q.log, c, r);
    }
  }

  lemma LastFlip(rs: Requests, log: seq<Call>, c: Call, r: nat)
    requires ReqLast(rs, log) && ReqOutcomes(rs) && FlipCall(c, r) && r in rs.active
    requires r < |rs.refs| && rs.active[r].ref == rs.refs[r]
    ensures var e := c.entry;
            ReqLast(if c.aborted then FlipAbortReq(rs, r, e.crtc, Some(|log|))
                    else FlipHandlerReq(rs, r, e.crtc, e.frame, e.usec, |log|), log + [c])
  {
    assert forall o :: o in rs.outcomes ==> o.request != r;
    hide ReqOutcomes;
    if c.aborted {
      hide FlipHandlerReq;
    } else {
      hide FlipAbortReq;
    }
  }

  lemma OtherCallTimes(rs: Requests, log: seq<Call>, c: Call)
    requires ReqTimes(rs, log) && ReqLast(rs, log) && !c.entry.procs.DrmmodeFlip?
    ensures ReqTimes(rs, log + [c]) && ReqLast(rs, log + [c])
  {
    assert forall x :: x in log + [c] <==> x in log || x == c;
  }
}
