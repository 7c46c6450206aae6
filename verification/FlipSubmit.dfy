/**
 The steps by which page flips, TearFree flips, scanout updates and mode changes are
 submitted, and the proof that each keeps the flip invariants.
 */
module FlipSubmit {
  import opened QueueModel
  import opened QueueSafety
  import opened Common
  import opened FbRefs
  import opened FlipModel
  import opened FlipSafety
  import opened FlipRuns

  // ----- Building a page flip request -----

  /** Flipdata for a new request, with no CRTC yet. */
  function Begin(w: World, ref: Option<nat>): World {
    var r := |w.reqs.refs|;
    w.(reqs := w.reqs.(active := w.reqs.active[r := Request(0, 0, 0, ref)], refs := w.reqs.refs + [ref]),
       building := Some(r))
  }

  /** The request fails before any CRTC was looked at: the caller's abort runs at once. */
  function Reject(w: World, ref: Option<nat>): World {
    var r := |w.reqs.refs|;
    w.(reqs := w.reqs.(refs := w.reqs.refs + [ref],
                       outcomes := w.reqs.outcomes + [Outcome(r, false, None, 0, 0, None)]))
  }

  function FlipAlloc(r: nat, crtc: nat, client: nat, id: nat): Op {
    Alloc(crtc, client, id, r, DrmmodeFlip, true, true)
  }

  function Recount(rs: Requests, r: nat, change: int): Requests
    requires r in rs.active
  {
    rs.(active := rs.active[r := rs.active[r].(count := rs.active[r].count + change)])
  }

  /** One more CRTC takes part: count it and allocate its queue entry. */
  function Accept(w: World, r: nat, crtc: nat, client: nat, id: nat): World
    requires r in w.reqs.active
  {
    QueueStep(w.(reqs := Recount(w.reqs, r, 1)), FlipAlloc(r, crtc, client, id)).(unsent := Some(NextSeqNo(w.q)))
  }

  /** The CRTC was counted but no entry could be allocated: abort it directly. */
  function AcceptFails(w: World, r: nat, crtc: nat): World
    requires r in w.reqs.active
  {
    w.(fbs := FlipAbortFbs(w.fbs, r, crtc),
       reqs := FlipAbortReq(Recount(w.reqs, r, 1), r, crtc, None), building := None)
  }

  function SetFlipFb(w: World, r: nat, crtc: nat, fb: nat): World {
    w.(fbs := Reference(w.fbs, FlipDataFb(r, crtc), Some(fb)))
  }

  /** The kernel took the flip: flip_pending refers to the request's FB. */
  function Sent(w: World, r: nat, crtc: nat): World
    requires FlipDataFb(r, crtc) in w.fbs.slots
  {
    w.(fbs := Reference(w.fbs, FlipPending(crtc), Some(w.fbs.slots[FlipDataFb(r, crtc)])), unsent := None)
  }

  lemma BeginKeeps(w: World, ref: Option<nat>)
    requires WInv(w) && w.building.None? && w.unsent.None?
    ensures WInv(Begin(w, ref))
  {
    var r, rs' := |w.reqs.refs|, Begin(w, ref).reqs;
    assert forall s: nat :: !IsFlip(w.q.issued, s, r);
    BeginCounts(w.reqs, rs', w.q.issued, w.live, r);
    BeginOutcomes(w.reqs, rs', r);
    NoCalls(w, r);
    BeginTimes(w.reqs, rs', w.q.log, r);
  }

  lemma BeginCounts(rs: Requests, rs': Requests, issued: seq<Entry>, live: set<nat>, r: nat)
    requires ReqCounts(rs, issued, live, None) && r == |rs.refs| && rs.refs <= rs'.refs && |rs'.refs| == r + 1 &&
             !rs'.fault
    requires rs'.active == rs.active[r := Request(0, 0, 0, rs'.refs[r])]
    ensures ReqCounts(rs', issued, live, Some(r))
  {
    assert forall s: nat :: !IsFlip(issued, s, r);
    assert Entries(issued, live, r) == {};
    forall x | x in rs'.active ensures Counted(rs'.active[x], Entries(issued, live, x), x == r) {
      assert x in rs.active ==> Counted(rs.active[x], Entries(issued, live, x), false);
    }
  }

  lemma BeginTimes(rs: Requests, rs': Requests, log: seq<Call>, r: nat)
    requires ReqTimes(rs, log) && ReqLast(rs, log) && (forall k :: 0 <= k < |log| ==> !FlipCall(log[k], r))
    requires ReqOutcomes(rs) && rs.refs <= rs'.refs && rs'.outcomes == rs.outcomes
    requires forall x :: x in rs'.active && x != r ==> x in rs.active && rs'.active[x] == rs.active[x]
    ensures ReqTimes(rs', log) && ReqLast(rs', log)
  {
    assert forall c :: c in log ==> !FlipCall(c, r);
    assert forall o :: o in rs.outcomes ==> o.request < |rs.refs|;
  }

  lemma BeginOutcomes(rs: Requests, rs': Requests, r: nat)
    requires ReqOutcomes(rs) && r == |rs.refs| && |rs'.refs| == r + 1 && rs'.outcomes == rs.outcomes
    requires rs'.active.Keys == rs.active.Keys + {r}
    ensures ReqOutcomes(rs')
  {
    forall x: nat | x < |rs'.refs| && x !in rs'.active
      ensures exists i :: 0 <= i < |rs'.outcomes| && rs'.outcomes[i].request == x
    {
      assert x !in rs.active;
    }
  }

  /** A request without entries was never called back. */
  lemma NoCalls(w: World, r: nat)
    requires Faithful(w.q) && forall s: nat :: !IsFlip(w.q.issued, s, r)
    ensures forall k :: 0 <= k < |w.q.log| ==> !FlipCall(w.q.log[k], r)
  {
    forall k | 0 <= k < |w.q.log| ensures !FlipCall(w.q.log[k], r) {
      assert w.q.log[k] in w.q.log;
      assert !IsFlip(w.q.issued, w.q.log[k].entry.seqNo, r);
    }
  }

  lemma RejectOutcomes(rs: Requests, rs': Requests, o: Outcome)
    requires ReqOutcomes(rs) && o.request == |rs.refs| && o.request !in rs.active
    requires |rs'.refs| == |rs.refs| + 1 && rs'.active == rs.active && rs'.outcomes == rs.outcomes + [o]
    ensures ReqOutcomes(rs')
  {
    forall x: nat | x < |rs'.refs| && x !in rs'.active
      ensures exists i :: 0 <= i < |rs'.outcomes| && rs'.outcomes[i].request == x
    {
      if x == o.request {
        assert rs'.outcomes[|rs.outcomes|].request == x;
      } else {
        var i :| 0 <= i < |rs.outcomes| && rs.outcomes[i].request == x;
        assert rs'.outcomes[i] == rs.outcomes[i];
      }
    }
  }

  lemma RejectTimes(rs: Requests, rs': Requests, o: Outcome, log: seq<Call>)
    requires ReqTimes(rs, log) && ReqLast(rs, log) && !o.handled && o.call.None?
    requires forall k :: 0 <= k < |log| ==> !FlipCall(log[k], o.request)
    requires forall x :: x in rs.outcomes ==> x.request < |rs.refs|
    requires rs.refs <= rs'.refs && rs'.active == rs.active && rs'.outcomes == rs.outcomes + [o]
    ensures ReqTimes(rs', log) && ReqLast(rs', log)
  {
    assert forall x :: x in rs'.outcomes <==> x in rs.outcomes || x == o;
  }

  lemma RejectKeeps(w: World, ref: Option<nat>)
    requires WInv(w) && w.building.None? && w.unsent.None?
    ensures WInv(Reject(w, ref))
  {
    var rs' := Reject(w, ref).reqs;
    var o := rs'.outcomes[|w.reqs.outcomes|];
    RejectOutcomes(w.reqs, rs', o);
    NoCalls(w, o.request);
    RejectTimes(w.reqs, rs', o, w.q.log);
    assert ReqCounts(rs', w.q.issued, w.live, w.building);
  }

  lemma AcceptCounts(rs: Requests, issued: seq<Entry>, live: set<nat>, r: nat, e: Entry)
    requires ReqCounts(rs, issued, live, Some(r)) && rs.active[r].count >= 0
    requires e.procs.DrmmodeFlip? && e.data == r
    requires forall s :: s in live ==> 1 <= s <= |issued|
    ensures ReqCounts(Recount(rs, r, 1), issued + [e], live + {|issued| + 1}, Some(r))
  {
    hide Counted, Entries;
    var n := |issued| + 1;
    var issued', live' := issued + [e], live + {n};
    assert forall s: nat, x: nat :: IsFlip(issued', s, x) ==> (s == n && x == r) || IsFlip(issued, s, x);
    forall x | x in rs.active ensures Counted(Recount(rs, r, 1).active[x], Entries(issued', live', x), x == r) {
      AcceptCounted(rs, issued, live, r, e, x);
    }
  }

  lemma AcceptCounted(rs: Requests, issued: seq<Entry>, live: set<nat>, r: nat, e: Entry, x: nat)
    requires r in rs.active && x in rs.active && rs.active[r].count >= 0
    requires Counted(rs.active[x], Entries(issued, live, x), x == r)
    requires e.procs.DrmmodeFlip? && e.data == r && forall s :: s in live ==> 1 <= s <= |issued|
    ensures Counted(Recount(rs, r, 1).active[x], Entries(issued + [e], live + {|issued| + 1}, x), x == r)
  {
    AcceptEntries(issued, live, r, e, x);
  }

  lemma AcceptEntries(issued: seq<Entry>, live: set<nat>, r: nat, e: Entry, x: nat)
    requires e.procs.DrmmodeFlip? && e.data == r && forall s :: s in live ==> 1 <= s <= |issued|
    ensures var n := |issued| + 1;
            var es, es' := Entries(issued, live, x), Entries(issued + [e], live + {n}, x);
            n !in es && es' == if x == r then es + {n} else es
  {
  }

  lemma RecountOutcomes(rs: Requests, r: nat, change: int, log: seq<Call>)
    requires ReqOutcomes(rs) && r in rs.active && ReqTimes(rs, log) && ReqLast(rs, log)
    ensures var rs' := Recount(rs, r, change); ReqOutcomes(rs') && ReqTimes(rs', log) && ReqLast(rs', log)
  {
    var rs' := Recount(rs, r, change);
    forall x: nat | x < |rs'.refs| && x !in rs'.active
      ensures exists i :: 0 <= i < |rs'.outcomes| && rs'.outcomes[i].request == x
    {
      assert x !in rs.active;
    }
  }

  /** A request holds no FB for a CRTC it has no entry for. */
  lemma NoFlipFb(t: Fbs, issued: seq<Entry>, live: set<nat>, unsent: Option<nat>, r: nat, crtc: nat)
    requires FbInv(t, issued, live, unsent) && forall s: nat :: s in live ==> !IsFlipOn(issued, s, r, crtc)
    ensures FlipDataFb(r, crtc) !in t.slots
  {
  }

  lemma AcceptShape(w: World, r: nat, crtc: nat, client: nat, id: nat)
    requires Inv(w.q) && r in w.reqs.active
    ensures var e := Entry(|w.q.issued| + 1, client, crtc, id, r, DrmmodeFlip, true, true, 0, 0);
            var q' := Apply(w.q, FlipAlloc(r, crtc, client, id));
            && q'.issued == w.q.issued + [e] && q'.log == w.q.log
            && Accept(w, r, crtc, client, id) ==
                 w.(q := q', live := w.live + {|w.q.issued| + 1}, reqs := Recount(w.reqs, r, 1),
                     unsent := Some(|w.q.issued| + 1))
  {
    QueueEffect(w.q, FlipAlloc(r, crtc, client, id));
  }

  lemma AcceptReqs(w: World, r: nat, e: Entry)
    requires WInv(w) && w.building == Some(r) && w.unsent.None? && e.procs.DrmmodeFlip? && e.data == r
    ensures ReqCounts(Recount(w.reqs, r, 1), w.q.issued + [e], w.live + {|w.q.issued| + 1}, Some(r))
    ensures ReqOutcomes(Recount(w.reqs, r, 1)) && ReqTimes(Recount(w.reqs, r, 1), w.q.log) &&
            ReqLast(Recount(w.reqs, r, 1), w.q.log)
  {
    assert Counted(w.reqs.active[r], Entries(w.q.issued, w.live, r), true);
    AcceptCounts(w.reqs, w.q.issued, w.live, r, e);
    RecountOutcomes(w.reqs, r, 1, w.q.log);
  }

  lemma AcceptRest(w: World, r: nat, crtc: nat, e: Entry)
    requires WInv(w) && w.unsent.None? && forall s: nat :: !IsFlipOn(w.q.issued, s, r, crtc)
    requires e.procs.DrmmodeFlip? && e.isFlip && e.data == r && e.crtc == crtc
    ensures FbInv(w.fbs, w.q.issued + [e], w.live + {|w.q.issued| + 1}, Some(|w.q.issued| + 1))
    ensures OnePerCrtc(w.q.issued + [e]) && ScanoutInv(w.scanout, w.q.issued + [e], w.live + {|w.q.issued| + 1})
  {
    NoFlipFb(w.fbs, w.q.issued, w.live, w.unsent, r, crtc);
    IssueFbs(w.fbs, w.q.issued, w.live, w.unsent, e);
    FbInvUnsent(w.fbs, w.q.issued + [e], w.live + {|w.q.issued| + 1}, Some(|w.q.issued| + 1));
    IssueOnePerCrtc(w.q.issued, e);
    IssueScanout(w.scanout, w.q.issued, w.live, e);
  }

  lemma AcceptKeeps(w: World, r: nat, crtc: nat, client: nat, id: nat)
    requires WInv(w) && w.building == Some(r) && w.unsent.None?
    requires forall s: nat :: !IsFlipOn(w.q.issued, s, r, crtc)
    ensures WInv(Accept(w, r, crtc, client, id)) && Submitting(Accept(w, r, crtc, client, id))
  {
    var op, n := FlipAlloc(r, crtc, client, id), |w.q.issued| + 1;
    AcceptShape(w, r, crtc, client, id);
    var q' := Apply(w.q, op);
    var e := q'.issued[|w.q.issued|];
    IssueQueue(w, op);
    AcceptPending(w.q, op);
    AcceptReqs(w, r, e);
    AcceptRest(w, r, crtc, e);
    AcceptAssemble(w, Accept(w, r, crtc, client, id), r);
  }

  /** The parts make the whole. */
  lemma AcceptAssemble(w: World, w': World, r: nat)
    requires w.building == Some(r) && w'.building == w.building && w'.unsent.Some?
    requires QueueInv(w') && FbInv(w'.fbs, w'.q.issued, w'.live, w'.unsent)
    requires ReqCounts(w'.reqs, w'.q.issued, w'.live, w'.building) && ReqOutcomes(w'.reqs)
    requires OnePerCrtc(w'.q.issued) && ReqTimes(w'.reqs, w'.q.log) && ReqLast(w'.reqs, w'.q.log)
    requires ScanoutInv(w'.scanout, w'.q.issued, w'.live) && IsFlip(w'.q.issued, w'.unsent.value, r)
    ensures WInv(w') && Submitting(w')
  {
  }

  /** Naming an entry under submission weakens what is known of it. */
  lemma FbInvUnsent(t: Fbs, issued: seq<Entry>, live: set<nat>, unsent: Option<nat>)
    requires FbInv(t, issued, live, None)
    ensures FbInv(t, issued, live, unsent)
  {
  }

  lemma AcceptPending(q: Queue, op: Op)
    requires Inv(q) && op.Alloc?
    ensures Count(Apply(q, op).pending, |q.issued| + 1) == 1
  {
    var n := |q.issued| + 1;
    assert CensusAt(q, n);
    CountSnoc(q.pending, Apply(q, op).pending[|q.pending|], n);
  }

  /** drmmode_flip_abort for a CRTC that holds no FB of the request leaves the FBs alone. */
  lemma AbortWithoutFb(t: Fbs, r: nat, crtc: nat)
    requires Conserved(t) && FlipDataFb(r, crtc) !in t.slots
    ensures FlipAbortFbs(t, r, crtc) == t
  {
    assert t.slots - {FlipDataFb(r, crtc)} == t.slots;
    if SameFb(t, FlipPending(crtc), FlipDataFb(r, crtc)) {
      assert t.slots - {FlipPending(crtc)} == t.slots;
    }
  }

  lemma AcceptFailsKeeps(w: World, r: nat, crtc: nat)
    requires WInv(w) && w.building == Some(r) && w.unsent.None?
    requires forall s: nat :: !IsFlipOn(w.q.issued, s, r, crtc)
    requires w.reqs.active[r].count == 0 ==> forall s: nat :: !IsFlip(w.q.issued, s, r)
    ensures var w' := AcceptFails(w, r, crtc);
            && WInv(w')
            && (r in w'.reqs.active <==> w.reqs.active[r].count > 0)
            && w'.q == w.q && w'.fbs == w.fbs && w'.scanout == w.scanout
  {
    NoFlipFb(w.fbs, w.q.issued, w.live, w.unsent, r, crtc);
    AbortWithoutFb(w.fbs, r, crtc);
    var rs := Recount(w.reqs, r, 1);
    var rs' := FlipAbortReq(rs, r, crtc, None);
    RecountOutcomes(w.reqs, r, 1, w.q.log);
    FlipTicks(rs, r, crtc, 0, 0, 0);
    TickedOutcomes(rs, rs', r);
    FailedCounts(w.reqs, rs', w.q.issued, w.live, r);
    if w.reqs.active[r].count == 0 {
      NoCalls(w, r);
    }
    FailedTimes(rs, r, crtc, w.q.log);
  }

  lemma FailedTimes(rs: Requests, r: nat, crtc: nat, log: seq<Call>)
    requires ReqTimes(rs, log) && ReqLast(rs, log) && r in rs.active
    requires rs.active[r].count == 1 ==> forall k :: 0 <= k < |log| ==> !FlipCall(log[k], r)
    ensures ReqTimes(FlipAbortReq(rs, r, crtc, None), log) && ReqLast(FlipAbortReq(rs, r, crtc, None), log)
  {
  }

  lemma FailedCounts(rs: Requests, rs': Requests, issued: seq<Entry>, live: set<nat>, r: nat)
    requires ReqCounts(rs, issued, live, Some(r)) && rs.active[r].count >= 0 && Ticked(Recount(rs, r, 1), rs', r)
    ensures ReqCounts(rs', issued, live, None)
  {
    assert Counted(rs.active[r], Entries(issued, live, r), true);
    forall x | x in rs'.active ensures Counted(rs'.active[x], Entries(issued, live, x), false) {
      assert Counted(rs.active[x], Entries(issued, live, x), x == r);
    }
    if r !in rs'.active {
      assert Entries(issued, live, r) == {};
      assert forall s :: s in live && IsFlip(issued, s, r) ==> s in Entries(issued, live, r);
    }
  }

  lemma SetFlipFbKeeps(w: World, r: nat, crtc: nat, fb: nat)
    requires WInv(w) && w.unsent.Some? && w.unsent.value in w.live && IsFlipOn(w.q.issued, w.unsent.value, r, crtc)
    requires fb in w.fbs.refcnt
    ensures WInv(SetFlipFb(w, r, crtc, fb)) && FlipDataFb(r, crtc) in SetFlipFb(w, r, crtc, fb).fbs.slots
  {
    ReferenceConserves(w.fbs, FlipDataFb(r, crtc), Some(fb));
    SetFlipFbInv(w.fbs, Reference(w.fbs, FlipDataFb(r, crtc), Some(fb)), w.q.issued, w.live, w.unsent, r, crtc, fb);
  }

  lemma SetFlipFbInv(t: Fbs, u: Fbs, issued: seq<Entry>, live: set<nat>, unsent: Option<nat>, r: nat, crtc: nat,
                     fb: nat)
    requires FbInv(t, issued, live, unsent) && OnePerCrtc(issued)
    requires unsent.Some? && unsent.value in live && IsFlipOn(issued, unsent.value, r, crtc)
    requires Conserved(u) && u.slots == t.slots[FlipDataFb(r, crtc) := fb]
    ensures FbInv(u, issued, live, unsent)
  {
    forall r', c' | FlipDataFb(r', c') in u.slots ensures exists s' :: s' in live && IsFlipOn(issued, s', r', c') {
      if r' != r || c' != crtc {
        assert FlipDataFb(r', c') in t.slots;
      }
    }
  }

  lemma SentKeeps(w: World, r: nat, crtc: nat)
    requires WInv(w) && FlipDataFb(r, crtc) in w.fbs.slots && crtc !in w.scanout
    requires w.unsent.Some? && IsFlipOn(w.q.issued, w.unsent.value, r, crtc)
    ensures WInv(Sent(w, r, crtc))
  {
    hide WInv, QueueInv, Inv, FbInv, ReqCounts, ReqOutcomes, OnePerCrtc, ReqTimes, ReqLast, ScanoutInv, Reference;
    Parts(w);
    var fb := w.fbs.slots[FlipDataFb(r, crtc)];
    SentAlive(w.fbs, w.q.issued, w.live, w.unsent, FlipDataFb(r, crtc));
    ReferenceConserves(w.fbs, FlipPending(crtc), Some(fb));
    NoScanoutFlip(w.scanout, w.q.issued, w.live, crtc);
    SentInv(w.fbs, Reference(w.fbs, FlipPending(crtc), Some(fb)), w.q.issued, w.live, w.unsent, crtc, fb);
    SentQueue(w, Sent(w, r, crtc));
    Assemble(Sent(w, r, crtc));
  }

  lemma SentAlive(t: Fbs, issued: seq<Entry>, live: set<nat>, unsent: Option<nat>, x: Slot)
    requires FbInv(t, issued, live, unsent) && x in t.slots
    ensures Conserved(t) && t.slots[x] in t.refcnt
  {
  }

  lemma SentQueue(a: World, b: World)
    requires QueueInv(a) && b.q == a.q && b.live == a.live && b.unsent.None?
    ensures QueueInv(b)
  {
  }

  lemma SentInv(t: Fbs, u: Fbs, issued: seq<Entry>, live: set<nat>, unsent: Option<nat>, crtc: nat, fb: nat)
    requires FbInv(t, issued, live, unsent)
    requires unsent.Some? && 1 <= unsent.value <= |issued| && issued[unsent.value - 1].crtc == crtc
    requires forall s, fb' :: s in live ==> !IsScanoutFlip(issued, s, crtc, fb')
    requires Conserved(u) && u.slots == t.slots[FlipPending(crtc) := fb]
    ensures FbInv(u, issued, live, None)
  {
    forall r', c' | FlipDataFb(r', c') in u.slots ensures exists s' :: s' in live && IsFlipOn(issued, s', r', c') {
      assert FlipDataFb(r', c') in t.slots;
    }
  }

  /** Submission of this CRTC is over and it holds no FB (a vblank event stands in for the
      flip, or the FB could not be had), or its TearFree flips are gone. */
  lemma UnsentDone(w: World, r: nat, crtc: nat)
    requires WInv(w) && w.unsent.Some? && IsFlipOn(w.q.issued, w.unsent.value, r, crtc)
    requires FlipDataFb(r, crtc) !in w.fbs.slots || crtc !in w.scanout
    ensures WInv(w.(unsent := None))
  {
    hide WInv, QueueInv, Inv, FbInv, ReqCounts, ReqOutcomes, OnePerCrtc, ReqTimes, ReqLast, ScanoutInv;
    Parts(w);
    if crtc !in w.scanout {
      NoScanoutFlip(w.scanout, w.q.issued, w.live, crtc);
    }
    UnsentDropped(w.fbs, w.q.issued, w.live, w.unsent, r, crtc);
    SentQueue(w, w.(unsent := None));
    Assemble(w.(unsent := None));
  }

  lemma UnsentDropped(t: Fbs, issued: seq<Entry>, live: set<nat>, unsent: Option<nat>, r: nat, crtc: nat)
    requires FbInv(t, issued, live, unsent) && unsent.Some? && IsFlipOn(issued, unsent.value, r, crtc)
    requires FlipDataFb(r, crtc) !in t.slots || forall s, fb :: s in live ==> !IsScanoutFlip(issued, s, crtc, fb)
    ensures FbInv(t, issued, live, None)
  {
  }

  /** The request is complete. */
  lemma BuiltKeeps(w: World, r: nat)
    requires WInv(w) && w.building == Some(r) && w.reqs.active[r].count > 0
    ensures WInv(w.(building := None))
  {
    forall x | x in w.reqs.active ensures Counted(w.reqs.active[x], Entries(w.q.issued, w.live, x), false) {
      assert Counted(w.reqs.active[x], Entries(w.q.issued, w.live, x), x == r);
    }
  }

  /** No CRTC took part: the error path aborts a CRTC that was never counted, so the count
      becomes -1 and the request stays without an outcome. */
  lemma OrphanKeeps(w: World, r: nat, crtc: nat)
    requires WInv(w) && w.building == Some(r) && w.unsent.None? && w.reqs.active[r].count == 0
    requires forall s: nat :: !IsFlip(w.q.issued, s, r)
    ensures var w' := w.(fbs := FlipAbortFbs(w.fbs, r, crtc), reqs := FlipAbortReq(w.reqs, r, crtc, None),
            building := None);
            WInv(w') && w'.fbs == w.fbs && r in w'.reqs.active && w'.reqs.active[r].count == -1
  {
    hide WInv, QueueInv, Inv, FbInv, ReqCounts, ReqOutcomes, OnePerCrtc, ReqTimes, ReqLast, ScanoutInv, FlipAbortFbs;
    Parts(w);
    FbsConserved(w.fbs, w.q.issued, w.live, w.unsent);
    ActiveBuilding(w.reqs, w.q.issued, w.live, r);
    NoFlipFb(w.fbs, w.q.issued, w.live, w.unsent, r, crtc);
    AbortWithoutFb(w.fbs, r, crtc);
    OrphanCounts(w.reqs, w.q.issued, w.live, r);
    RecountOutcomes(w.reqs, r, -1, w.q.log);
    assert FlipAbortReq(w.reqs, r, crtc, None) == Recount(w.reqs, r, -1);
    var w' := w.(fbs := FlipAbortFbs(w.fbs, r, crtc), reqs := FlipAbortReq(w.reqs, r, crtc, None), building := None);
    QueueOnly(w, w');
    Assemble(w');
  }

  lemma FbsConserved(t: Fbs, issued: seq<Entry>, live: set<nat>, unsent: Option<nat>)
    requires FbInv(t, issued, live, unsent)
    ensures Conserved(t)
  {
  }

  lemma ActiveBuilding(rs: Requests, issued: seq<Entry>, live: set<nat>, r: nat)
    requires ReqCounts(rs, issued, live, Some(r))
    ensures r in rs.active
  {
  }

  lemma OrphanCounts(rs: Requests, issued: seq<Entry>, live: set<nat>, r: nat)
    requires ReqCounts(rs, issued, live, Some(r)) && rs.active[r].count == 0 && forall s: nat :: !IsFlip(issued, s, r)
    ensures r in rs.active && ReqCounts(Recount(rs, r, -1), issued, live, None)
  {
    var rs' := Recount(rs, r, -1);
    assert Counted(rs.active[r], Entries(issued, live, r), true);
    forall x | x in rs'.active ensures Counted(rs'.active[x], Entries(issued, live, x), false) {
      assert Counted(rs.active[x], Entries(issued, live, x), x == r);
    }
  }

  // ----- FBs outside the flip slots -----

  /** Changing pixmap and CRTC slots only does not touch what flips rely on. */
  lemma FbInvSameFlips(t: Fbs, u: Fbs, issued: seq<Entry>, live: set<nat>, unsent: Option<nat>)
    requires FbInv(t, issued, live, unsent) && Conserved(u)
    requires forall s: Slot :: s.FlipPending? || s.FlipDataFb? ==> (s in u.slots <==> s in t.slots)
    requires forall s :: s in t.slots && s.FlipPending? ==> s in u.slots && u.slots[s] == t.slots[s]
    ensures FbInv(u, issued, live, unsent)
  {
  }

  lemma PlainReference(w: World, slot: Slot, next: Option<nat>)
    requires WInv(w) && (slot.PixmapFb? || slot.CrtcFb?) && (next.Some? ==> next.value in w.fbs.refcnt)
    ensures WInv(w.(fbs := Reference(w.fbs, slot, next)))
  {
    ReferenceConserves(w.fbs, slot, next);
    FbInvSameFlips(w.fbs, Reference(w.fbs, slot, next), w.q.issued, w.live, w.unsent);
  }

  lemma PlainCreate(w: World, slot: Slot)
    requires WInv(w) && (slot.PixmapFb? || slot.CrtcFb?) && slot !in w.fbs.slots
    ensures WInv(w.(fbs := Create(w.fbs, slot)))
  {
    CreateConserves(w.fbs, slot);
    FbInvSameFlips(w.fbs, Create(w.fbs, slot), w.q.issued, w.live, w.unsent);
  }

  // ----- TearFree flips and scanout updates -----

  function ScanoutAlloc(crtc: nat, fb: nat): Op {
    Alloc(crtc, 0, 0, fb, ScanoutFlip, true, true)
  }

  function UpdateAlloc(crtc: nat): Op {
    Alloc(crtc, 0, 0, 0, ScanoutUpdate, true, false)
  }

  /** amdgpu_scanout_flip after the kernel took the flip. */
  function SendScanoutFlip(w: World, crtc: nat, fb: nat): World {
    var w1 := QueueStep(w, ScanoutAlloc(crtc, fb));
    w1.(scanout := w1.scanout[crtc := NextSeqNo(w.q)], fbs := Reference(w1.fbs, FlipPending(crtc), Some(fb)))
  }

  /** amdgpu_scanout_flip when the flip ioctl failed: the entry is aborted at once. */
  function RefuseScanoutFlip(w: World, crtc: nat, fb: nat): World {
    QueueStep(QueueStep(w, ScanoutAlloc(crtc, fb)), AbortEntry(NextSeqNo(w.q)))
  }

  /** amdgpu_scanout_update: wait for a vblank before copying to the scanout buffer. */
  function SendScanoutUpdate(w: World, crtc: nat): World {
    var w1 := QueueStep(w, UpdateAlloc(crtc));
    w1.(scanout := w1.scanout[crtc := NextSeqNo(w.q)])
  }

  /** No page flip with an FB is with the kernel for this CRTC; the kernel takes only one
      flip per CRTC at a time. */
  ghost predicate KernelIdle(w: World, crtc: nat) {
    forall s, r :: s in w.live && IsFlipOn(w.q.issued, s, r, crtc) && FlipDataFb(r, crtc) in w.fbs.slots ==>
        w.unsent == Some(s)
  }

  lemma IssueScanoutFb(t: Fbs, u: Fbs, issued: seq<Entry>, live: set<nat>, unsent: Option<nat>, e: Entry)
    requires FbInv(t, issued, live, unsent) && (forall s :: s in live ==> 1 <= s <= |issued|)
    requires e.procs.ScanoutFlip?
    requires Conserved(u) && u.slots == t.slots[FlipPending(e.crtc) := e.data]
    requires forall s, fb :: s in live ==> !IsScanoutFlip(issued, s, e.crtc, fb)
    requires forall s, r :: s in live && IsFlipOn(issued, s, r, e.crtc) && FlipDataFb(r, e.crtc) in t.slots ==>
             unsent == Some(s)
    ensures FbInv(u, issued + [e], live + {|issued| + 1}, unsent)
  {
    var issued', live' := issued + [e], live + {|issued| + 1};
    forall r, crtc | FlipDataFb(r, crtc) in u.slots ensures exists s :: s in live' && IsFlipOn(issued', s, r, crtc) {
      assert FlipDataFb(r, crtc) in t.slots;
      var s :| s in live && IsFlipOn(issued, s, r, crtc);
      assert IsFlipOn(issued', s, r, crtc);
    }
    assert forall s: nat, crtc: nat, fb: nat :: s in live && IsScanoutFlip(issued', s, crtc, fb) ==>
           IsScanoutFlip(issued, s, crtc, fb);
    assert forall s: nat, r: nat, crtc: nat :: s in live' && IsFlipOn(issued', s, r, crtc) ==>
           s in live && IsFlipOn(issued, s, r, crtc);
  }

  lemma IssueScanoutEntry(scanout: map<nat, nat>, issued: seq<Entry>, live: set<nat>, e: Entry)
    requires ScanoutInv(scanout, issued, live) && (forall s :: s in live ==> 1 <= s <= |issued|)
    requires (e.procs.ScanoutFlip? && e.isFlip) || (e.procs.ScanoutUpdate? && !e.isFlip)
    requires e.crtc !in scanout
    ensures ScanoutInv(scanout[e.crtc := |issued| + 1], issued + [e], live + {|issued| + 1})
  {
    var issued', scanout' := issued + [e], scanout[e.crtc := |issued| + 1];
    forall s, crtc | s in live + {|issued| + 1} && IsScanout(issued', s, crtc)
      ensures crtc in scanout' && scanout'[crtc] == s
    {
      assert s in live ==> IsScanout(issued, s, crtc);
    }
    forall crtc | crtc in scanout' ensures IsScanout(issued', scanout'[crtc], crtc) {
      assert crtc in scanout ==> IsScanout(issued, scanout[crtc], crtc);
    }
  }

  lemma IssueShape(w: World, op: Op)
    requires Inv(w.q) && op.Alloc?
    ensures var e := Entry(|w.q.issued| + 1, op.client, op.crtc, op.id, op.data, op.procs, true, op.isFlip, 0, 0);
            var q' := Apply(w.q, op);
            && q'.issued == w.q.issued + [e] && q'.log == w.q.log && NextSeqNo(w.q) == |w.q.issued| + 1
            && QueueStep(w, op) == w.(q := q', live := w.live + {|w.q.issued| + 1})
  {
    QueueEffect(w.q, op);
  }

  lemma SendScanoutFb(t: Fbs, issued: seq<Entry>, live: set<nat>, unsent: Option<nat>, e: Entry)
    requires FbInv(t, issued, live, unsent) && (forall s :: s in live ==> 1 <= s <= |issued|)
    requires e.procs.ScanoutFlip? && e.data in t.refcnt
    requires forall s, fb :: s in live ==> !IsScanoutFlip(issued, s, e.crtc, fb)
    requires forall s, r :: s in live && IsFlipOn(issued, s, r, e.crtc) && FlipDataFb(r, e.crtc) in t.slots ==>
             unsent == Some(s)
    ensures FbInv(Reference(t, FlipPending(e.crtc), Some(e.data)), issued + [e], live + {|issued| + 1}, unsent)
  {
    ReferenceConserves(t, FlipPending(e.crtc), Some(e.data));
    var u := Reference(t, FlipPending(e.crtc), Some(e.data));
    IssueScanoutFb(t, u, issued, live, unsent, e);
  }

  /** A TearFree flip the kernel took. */
  lemma SendScanoutFlipKeeps(w: World, crtc: nat, fb: nat)
    requires WInv(w) && crtc !in w.scanout && fb in w.fbs.refcnt && KernelIdle(w, crtc)
    ensures WInv(SendScanoutFlip(w, crtc, fb))
  {
    hide WInv, QueueInv, Inv, FbInv, ReqCounts, ReqOutcomes, OnePerCrtc, ReqTimes, ReqLast, ScanoutInv, Apply,
        QueueStep, Reference;
    var op := ScanoutAlloc(crtc, fb);
    Parts(w);
    IssueShape(w, op);
    IssueQueue(w, op);
    var e := Apply(w.q, op).issued[|w.q.issued|];
    NoScanoutFlip(w.scanout, w.q.issued, w.live, crtc);
    SendScanoutFb(w.fbs, w.q.issued, w.live, w.unsent, e);
    IssueOtherCounts(w.reqs, w.q.issued, w.live, w.building, e);
    IssueOnePerCrtc(w.q.issued, e);
    IssueScanoutEntry(w.scanout, w.q.issued, w.live, e);
    QueueOnly(w.(q := Apply(w.q, op), live := w.live + {|w.q.issued| + 1}), SendScanoutFlip(w, crtc, fb));
    Assemble(SendScanoutFlip(w, crtc, fb));
  }

  lemma NoScanoutFlip(scanout: map<nat, nat>, issued: seq<Entry>, live: set<nat>, crtc: nat)
    requires ScanoutInv(scanout, issued, live) && crtc !in scanout
    ensures forall s, fb :: s in live ==> !IsScanoutFlip(issued, s, crtc, fb)
  {
    forall s, fb | s in live && IsScanoutFlip(issued, s, crtc, fb) ensures IsScanout(issued, s, crtc) {
    }
  }

  lemma SendScanoutUpdateKeeps(w: World, crtc: nat)
    requires WInv(w) && crtc !in w.scanout
    ensures WInv(SendScanoutUpdate(w, crtc))
  {
    hide WInv, QueueInv, Inv, FbInv, ReqCounts, ReqOutcomes, OnePerCrtc, ReqTimes, ReqLast, ScanoutInv, Apply,
        QueueStep;
    var op := UpdateAlloc(crtc);
    Parts(w);
    IssueShape(w, op);
    IssueQueue(w, op);
    var e := Apply(w.q, op).issued[|w.q.issued|];
    IssueFbs(w.fbs, w.q.issued, w.live, w.unsent, e);
    IssueOtherCounts(w.reqs, w.q.issued, w.live, w.building, e);
    IssueOnePerCrtc(w.q.issued, e);
    IssueScanoutEntry(w.scanout, w.q.issued, w.live, e);
    QueueOnly(w.(q := Apply(w.q, op), live := w.live + {|w.q.issued| + 1}), SendScanoutUpdate(w, crtc));
    Assemble(SendScanoutUpdate(w, crtc));
  }

  lemma IssuedLast(q: Queue, op: Op)
    requires Inv(q) && op.Alloc?
    ensures var n, q1 := |q.issued| + 1, Apply(q, op);
            && IndexOf(q1.pending, n) == |q.pending| < |q1.pending| && Without(q1.pending, |q.pending|) == q.pending
            && IndexOf(q1.vblanks, n) == |q1.vblanks| && IndexOf(q1.deferred, n) == |q1.deferred|
  {
    var n, q1 := |q.issued| + 1, Apply(q, op);
    assert forall e :: e in q.pending || e in q.vblanks || e in q.deferred ==> e.seqNo != n;
    assert q1.pending[|q.pending|].seqNo == n;
    assert forall k :: 0 <= k < |q.pending| ==> q1.pending[k] == q.pending[k] && q.pending[k] in q.pending;
    assert Without(q1.pending, |q.pending|) == q.pending;
  }

  /** An entry issued and aborted at once. */
  lemma IssueAbort(q: Queue, op: Op)
    requires Inv(q) && op.Alloc?
    ensures var q1 := Apply(q, op);
            var q2 := Apply(q1, AbortEntry(|q.issued| + 1));
            && |q1.pending| == |q.pending| + 1 && Inv(q2)
            && (var e := q1.pending[|q.pending|]; e.procs == op.procs && e.crtc == op.crtc && e.data == op.data)
            && q2 == q1.(pending := q.pending, log := q.log + [Call(q1.pending[|q.pending|], true, Level(q, op.crtc))])
  {
    IssuedLast(q, op);
    InvKept(q, op);
    InvKept(Apply(q, op), AbortEntry(|q.issued| + 1));
  }

  /** A refused TearFree flip leaves FBs, requests and pending scanouts as they were. */
  lemma RefuseScanoutFlipKeeps(w: World, crtc: nat, fb: nat)
    requires WInv(w) && crtc !in w.scanout && FlipPending(crtc) !in w.fbs.slots
    ensures var w' := RefuseScanoutFlip(w, crtc, fb);
            WInv(w') && w'.fbs == w.fbs && w'.reqs == w.reqs && w'.scanout == w.scanout && w'.live == w.live
            && w'.unsent == w.unsent && w'.building == w.building
  {
    var op, n := ScanoutAlloc(crtc, fb), |w.q.issued| + 1;
    RefuseShape(w, crtc, fb);
    hide WInv, QueueInv, Inv, FbInv, ReqCounts, ReqOutcomes, OnePerCrtc, ReqTimes, ReqLast, ScanoutInv, Apply,
        QueueStep, RefuseScanoutFlip;
    Parts(w);
    IssueShape(w, op);
    IssueAbort(w.q, op);
    var q2 := Apply(Apply(w.q, op), AbortEntry(n));
    DeadQueue(w, q2, q2.log[|w.q.log|]);
    DeadIssue(w, q2, q2.issued[|w.q.issued|]);
    OtherCallTimes(w.reqs, w.q.log, q2.log[|w.q.log|]);
    Assemble(w.(q := q2));
  }

  lemma RefuseShape(w: World, crtc: nat, fb: nat)
    requires WInv(w) && crtc !in w.scanout && FlipPending(crtc) !in w.fbs.slots
    ensures RefuseScanoutFlip(w, crtc, fb) ==
            w.(q := Apply(Apply(w.q, ScanoutAlloc(crtc, fb)), AbortEntry(|w.q.issued| + 1)))
  {
    var op, n := ScanoutAlloc(crtc, fb), |w.q.issued| + 1;
    Parts(w);
    hide WInv, QueueInv, Inv, FbInv, ReqCounts, ReqOutcomes, OnePerCrtc, ReqTimes, ReqLast, ScanoutInv, Apply,
        QueueStep;
    IssueShape(w, op);
    IssueAbort(w.q, op);
    var q1 := Apply(w.q, op);
    var q2 := Apply(q1, AbortEntry(n));
    RefuseStep(w.(q := q1, live := w.live + {n}), n, q2.log[|w.q.log|]);
    LiveBack(w.live, n, |w.q.issued|);
  }

  lemma LiveBack(live: set<nat>, n: nat, m: nat)
    requires n == m + 1 && forall s :: s in live ==> 1 <= s <= m
    ensures live + {n} - {n} == live
  {
  }

  lemma RefuseStep(w: World, n: nat, c: Call)
    requires Apply(w.q, AbortEntry(n)).issued == w.q.issued && Apply(w.q, AbortEntry(n)).log == w.q.log + [c]
    requires c.aborted && c.entry.procs.ScanoutFlip? && c.entry.seqNo == n
    requires c.entry.crtc !in w.scanout && FlipPending(c.entry.crtc) !in w.fbs.slots
    ensures QueueStep(w, AbortEntry(n)) == w.(q := Apply(w.q, AbortEntry(n)), live := w.live - {n})
  {
    hide Apply, FlipHandlerFbs, FlipAbortFbs, FlipHandlerReq, FlipAbortReq, ScanoutHandlerFbs, Reference;
    assert w.scanout - {c.entry.crtc} == w.scanout;
  }

  lemma DeadQueue(w: World, q2: Queue, c: Call)
    requires QueueInv(w) && Inv(q2) && q2.pending == w.q.pending && |q2.issued| == |w.q.issued| + 1
    requires q2.log == w.q.log + [c] && c.entry.seqNo == |q2.issued|
    ensures QueueInv(w.(q := q2))
  {
    assert q2.log[..|w.q.log|] == w.q.log;
    assert CensusAt(w.q, |q2.issued|);
  }

  /** Extending the issued entries by one that is not live. */
  lemma DeadIssue(w: World, q2: Queue, e: Entry)
    requires WInv(w) && q2.issued == w.q.issued + [e] && e.procs.ScanoutFlip? && e.isFlip
    ensures FbInv(w.fbs, q2.issued, w.live, w.unsent)
    ensures ReqCounts(w.reqs, q2.issued, w.live, w.building)
    ensures OnePerCrtc(q2.issued) && ScanoutInv(w.scanout, q2.issued, w.live)
  {
    var issued, issued' := w.q.issued, q2.issued;
    IssueOnePerCrtc(issued, e);
    assert forall s: nat, r: nat, crtc: nat :: IsFlipOn(issued', s, r, crtc) <==> IsFlipOn(issued, s, r, crtc);
    assert forall s: nat, crtc: nat, fb: nat :: s in w.live && IsScanoutFlip(issued', s, crtc, fb) ==>
           IsScanoutFlip(issued, s, crtc, fb);
    assert forall s: nat, r: nat :: IsFlip(issued', s, r) <==> IsFlip(issued, s, r);
    forall r | r in w.reqs.active ensures Entries(issued', w.live, r) == Entries(issued, w.live, r) {
    }
    assert forall s: nat, crtc: nat :: s in w.live && IsScanout(issued', s, crtc) ==> IsScanout(issued, s, crtc);
    forall crtc | crtc in w.scanout ensures IsScanout(issued', w.scanout[crtc], crtc) {
      assert IsScanout(issued, w.scanout[crtc], crtc);
    }
  }

  // ----- Waiting, then aborting a CRTC's scanout entry -----

  /** Once the wait ended, either no flip is pending or no flip is signalled. */
  ghost predicate Waited(w: World, crtc: nat) {
    FlipPending(crtc) !in w.fbs.slots || w.q.flips == []
  }

  lemma ScanoutNotSignalled(w: World, crtc: nat, s: nat)
    requires WInv(w) && Waited(w, crtc) && s in w.live && IsScanout(w.q.issued, s, crtc)
    ensures Count(w.q.flips, s) == 0
  {
    CountMember(w.q.flips, s);
    if exists e :: e in w.q.flips && e.seqNo == s {
      var e :| e in w.q.flips && e.seqNo == s;
      assert Known(w.q.issued, e) && e.isFlip;
      var i := w.q.issued[s - 1];
      assert i in w.q.issued;
      if i.procs.ScanoutFlip? {
        assert IsScanoutFlip(w.q.issued, s, crtc, i.data);
      }
    }
  }

  /** amdgpu_drm_abort_entry finds every live entry that is not a signalled flip. */
  lemma AbortFinds(q: Queue, s: nat)
    requires Inv(q) && 1 <= s <= |q.issued| && Calls(q, s) == 0 && Count(q.flips, s) == 0
    ensures Apply(q, AbortEntry(s)).log != q.log && Apply(q, AbortEntry(s)).log[|q.log|].entry.seqNo == s
  {
    assert CensusAt(q, s);
    CountMember(q.vblanks, s);
    CountMember(q.deferred, s);
    CountMember(q.pending, s);
    IndexFound(q.vblanks, s);
    IndexFound(q.deferred, s);
    IndexFound(q.pending, s);
  }

  lemma IndexFound(l: seq<Entry>, s: nat)
    ensures IndexOf(l, s) < |l| <==> exists e :: e in l && e.seqNo == s
  {
  }

  /** The queue part: the number is called back, and nothing becomes live again. */
  lemma AbortedCalled(q: Queue, s: nat)
    requires Inv(q) && 1 <= s <= |q.issued| && (Calls(q, s) == 0 ==> Count(q.flips, s) == 0)
    ensures var q' := Apply(q, AbortEntry(s));
            q'.issued == q.issued && Calls(q', s) > 0 && forall x :: Calls(q', x) >= Calls(q, x)
  {
    var op := AbortEntry(s);
    IssuedKept(q, op);
    forall x ensures Calls(Apply(q, op), x) >= Calls(q, x) {
      LogGrows(q, op, x);
    }
    if Calls(q, s) == 0 {
      AbortFinds(q, s);
      CallsMember(Apply(q, op).log, s);
      assert Apply(q, op).log[|q.log|] in Apply(q, op).log;
    }
  }

  lemma LiveShrinks(w: World, w1: World, n: nat)
    requires QueueInv(w) && QueueInv(w1) && w1.q.issued == w.q.issued
    requires Calls(w1.q, n) > 0 && forall x :: Calls(w1.q, x) >= Calls(w.q, x)
    ensures n !in w1.live && w1.live <= w.live
  {
  }

  /** After the wait, aborting scanout_update_pending leaves no live scanout entry for the
      CRTC, although signalled flips are not searched. */
  lemma AbortScanoutKeeps(w: World, crtc: nat)
    requires WInv(w) && Submitting(w) && Waited(w, crtc) && crtc in w.scanout
    ensures var w1 := QueueStep(w, AbortEntry(w.scanout[crtc]));
            WInv(w1.(scanout := w1.scanout - {crtc})) && Submitting(w1)
  {
    var n := w.scanout[crtc];
    var op := AbortEntry(n);
    assert IsScanout(w.q.issued, n, crtc);
    assert w.unsent != Some(n);
    if n in w.live {
      ScanoutNotSignalled(w, crtc, n);
    }
    AbortedCalled(w.q, n);
    QueueStepKeeps(w, op);
    SubmittingKept(w, op);
    StepFrame(w, op);
    AbortScanoutRest(w, QueueStep(w, op), crtc);
  }

  lemma AbortScanoutRest(w: World, w1: World, crtc: nat)
    requires WInv(w) && WInv(w1) && crtc in w.scanout && w1.q.issued == w.q.issued
    requires Calls(w1.q, w.scanout[crtc]) > 0 && forall x :: Calls(w1.q, x) >= Calls(w.q, x)
    ensures WInv(w1.(scanout := w1.scanout - {crtc}))
  {
    LiveShrinks(w, w1, w.scanout[crtc]);
    ScanoutCleared(w1.scanout, w1.q.issued, w1.live, crtc);
  }

  lemma ScanoutCleared(scanout: map<nat, nat>, issued: seq<Entry>, live: set<nat>, crtc: nat)
    requires ScanoutInv(scanout, issued, live) && forall s :: s in live ==> !IsScanout(issued, s, crtc)
    ensures ScanoutInv(scanout - {crtc}, issued, live)
  {
    var scanout' := scanout - {crtc};
    assert forall c :: c in scanout' ==> c in scanout && scanout'[c] == scanout[c];
  }

  // ----- What a finished request got -----

  /** One completion per flip request: a request that is over has no live entry and exactly
      one outcome; the outcome came with its last callback and is of that callback's kind; and
      if every callback was a completion and the reference CRTC had one, the handler got that
      CRTC with its frame and time, whatever the order of completions. */
  lemma OneCompletion(w: World, r: nat) returns (i: nat)
    requires WInv(w) && r < |w.reqs.refs| && r !in w.reqs.active
    ensures i < |w.reqs.outcomes| && w.reqs.outcomes[i].request == r
    ensures forall j :: 0 <= j < |w.reqs.outcomes| && w.reqs.outcomes[j].request == r ==> j == i
    ensures forall s :: s in w.live ==> !IsFlip(w.q.issued, s, r)
    ensures w.reqs.outcomes[i].call.None? ==>
              !w.reqs.outcomes[i].handled && forall k :: 0 <= k < |w.q.log| ==> !FlipCall(w.q.log[k], r)
    ensures w.reqs.outcomes[i].call.Some? ==>
              var m := w.reqs.outcomes[i].call.value;
              && m < |w.q.log| && FlipCall(w.q.log[m], r) && w.reqs.outcomes[i].handled == !w.q.log[m].aborted
              && OutcomeOf(w.reqs.outcomes[i], w.reqs.refs[r], w.q.log[m].entry)
              && forall k :: m < k < |w.q.log| ==> !FlipCall(w.q.log[k], r)
    ensures forall c :: c in w.q.log && FlipCall(c, r) && w.reqs.refs[r] == Some(c.entry.crtc)
              && (forall x :: x in w.q.log && FlipCall(x, r) ==> !x.aborted)
              ==> var o := w.reqs.outcomes[i];
                  o.handled && o.crtc == Some(c.entry.crtc) && o.frame == c.entry.frame && o.usec == c.entry.usec
  {
    i :| 0 <= i < |w.reqs.outcomes| && w.reqs.outcomes[i].request == r;
    var o := w.reqs.outcomes[i];
    assert o in w.reqs.outcomes;
    if o.call.Some? {
      assert w.q.log[o.call.value] in w.q.log;
    }
    forall c | c in w.q.log && FlipCall(c, r) ensures o.call.Some? {
      var k :| 0 <= k < |w.q.log| && w.q.log[k] == c;
    }
  }
}
