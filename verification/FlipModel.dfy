/**
 Page flips over several CRTCs and TearFree flips, on top of the event queue: what their
 completion and abort procedures do to flip requests and to FB references, and what holds
 between the two and the queue.
 */
module FlipModel {
  import opened QueueModel
  import opened Common
  import opened FbRefs

  /** A flip request (flipdata): callbacks still to come, the reference CRTC and the frame
      and time cached for it. */
  datatype Request = Request(count: int, frame: nat, usec: nat, ref: Option<nat>)

  /** One run of the caller's handler or abort procedure. `call` is the queue callback that
      caused it, if any. */
  datatype Outcome = Outcome(
    request: nat, handled: bool, crtc: Option<nat>, frame: nat, usec: nat, call: Option<nat>)

  /** Requests are numbered as they are made; `refs` keeps the reference CRTC each was made
      with. `fault` records a callback for flipdata that was already freed. */
  datatype Requests = Requests(
    active: map<nat, Request>, refs: seq<Option<nat>>, outcomes: seq<Outcome>, fault: bool)

  /** `live` are the issued entries not yet called back; `scanout` is each CRTC's
      scanout_update_pending; `unsent` is an entry allocated for a flip that is still being
      submitted, `building` the request it belongs to. */
  datatype World = World(
    q: Queue, live: set<nat>, fbs: Fbs, reqs: Requests, scanout: map<nat, nat>,
    unsent: Option<nat>, building: Option<nat>)

  const EMPTY_WORLD := World(EMPTY_QUEUE, {}, Fbs(map[], map[], 0, false), Requests(map[], [], [], false), map[],
      None, None)

  // ----- The callbacks -----

  function SameFb(t: Fbs, a: Slot, b: Slot): bool {
    if a in t.slots then b in t.slots && t.slots[a] == t.slots[b] else b !in t.slots
  }

  /** FB part of drmmode_flip_abort. */
  function FlipAbortFbs(t: Fbs, r: nat, crtc: nat): Fbs {
    var t1 := if SameFb(t, FlipPending(crtc), FlipDataFb(r, crtc)) then Reference(t, FlipPending(crtc), None) else t;
    Reference(t1, FlipDataFb(r, crtc), None)
  }

  /** FB part of drmmode_flip_handler. */
  function FlipHandlerFbs(t: Fbs, r: nat, crtc: nat): Fbs {
    var slot := FlipDataFb(r, crtc);
    if slot !in t.slots then t
    else
      var fb := t.slots[slot];
      var t1 := if SameFb(t, FlipPending(crtc), slot) then Reference(t, FlipPending(crtc), None) else t;
      var t2 := Reference(t1, CrtcFb(crtc), Some(fb));
      Reference(t2, slot, None)
  }

  /** Request part of drmmode_flip_abort. */
  function FlipAbortReq(rs: Requests, r: nat, crtc: nat, call: Option<nat>): Requests {
    if r !in rs.active then rs.(fault := true)
    else
      var d := rs.active[r];
      if d.count != 1 then rs.(active := rs.active[r := d.(count := d.count - 1)])
      else
        var fe := if d.ref.Some? then d.ref else Some(crtc);
        rs.(active := rs.active - {r}, outcomes := rs.outcomes + [Outcome(r, false, fe, 0, 0, call)])
  }

  /** Request part of drmmode_flip_handler. */
  function FlipHandlerReq(rs: Requests, r: nat, crtc: nat, frame: nat, usec: nat, call: nat): Requests {
    if r !in rs.active then rs.(fault := true)
    else
      var d := if rs.active[r].ref == Some(crtc) then rs.active[r].(frame := frame, usec := usec) else rs.active[r];
      if d.count != 1 then rs.(active := rs.active[r := d.(count := d.count - 1)])
      else
        var o := if d.ref.Some? then Outcome(r, true, d.ref, d.frame, d.usec, Some(call))
                 else Outcome(r, true, Some(crtc), frame, usec, Some(call));
        rs.(active := rs.active - {r}, outcomes := rs.outcomes + [o])
  }

  /** FB part of amdgpu_scanout_flip_abort. */
  function ScanoutAbortFbs(t: Fbs, crtc: nat, fb: nat): Fbs {
    if FlipPending(crtc) in t.slots && t.slots[FlipPending(crtc)] == fb
    then Reference(t, FlipPending(crtc), None) else t
  }

  /** FB part of amdgpu_scanout_flip_handler. */
  function ScanoutHandlerFbs(t: Fbs, crtc: nat, fb: nat): Fbs {
    ScanoutAbortFbs(Reference(t, CrtcFb(crtc), Some(fb)), crtc, fb)
  }

  /** Effect of the callback logged last. */
  function Callback(w: World): World
    requires w.q.log != []
  {
    var k := |w.q.log| - 1;
    var c := w.q.log[k];
    var e := c.entry;
    match e.procs
    case DrmmodeFlip =>
      if c.aborted then
        w.(fbs := FlipAbortFbs(w.fbs, e.data, e.crtc), reqs := FlipAbortReq(w.reqs, e.data, e.crtc, Some(k)))
      else
        w.(fbs := FlipHandlerFbs(w.fbs, e.data, e.crtc),
           reqs := FlipHandlerReq(w.reqs, e.data, e.crtc, e.frame, e.usec, k))
    case ScanoutFlip =>
      w.(fbs := if c.aborted then ScanoutAbortFbs(w.fbs, e.crtc, e.data) else ScanoutHandlerFbs(w.fbs, e.crtc, e.data),
         scanout := w.scanout - {e.crtc})
    case ScanoutUpdate => w.(scanout := w.scanout - {e.crtc})
    case FrameEvent => w
    case PresentVblank => w
  }

  /** A queue operation together with the callback it runs, if any. */
  function QueueStep(w: World, op: Op): World {
    var q' := Apply(w.q, op);
    if |q'.issued| > |w.q.issued| then w.(q := q', live := w.live + {|q'.issued|})
    else if |q'.log| > |w.q.log| then
      Callback(w.(q := q', live := w.live - {q'.log[|q'.log| - 1].entry.seqNo}))
    else w.(q := q')
  }

  // ----- What holds in every state -----

  ghost predicate IsFlip(issued: seq<Entry>, s: nat, r: nat) {
    1 <= s <= |issued| && issued[s - 1].procs.DrmmodeFlip? && issued[s - 1].data == r
  }

  ghost predicate IsFlipOn(issued: seq<Entry>, s: nat, r: nat, crtc: nat) {
    IsFlip(issued, s, r) && issued[s - 1].crtc == crtc
  }

  /** A TearFree flip to `fb`. */
  ghost predicate IsScanoutFlip(issued: seq<Entry>, s: nat, crtc: nat, fb: nat) {
    1 <= s <= |issued| && issued[s - 1].procs.ScanoutFlip? && issued[s - 1].crtc == crtc && issued[s - 1].data == fb
  }

  ghost predicate IsScanout(issued: seq<Entry>, s: nat, crtc: nat) {
    && 1 <= s <= |issued| && issued[s - 1].crtc == crtc
    && (issued[s - 1].procs.ScanoutFlip? || issued[s - 1].procs.ScanoutUpdate?)
  }

  /** The live entries of a request. */
  ghost function Entries(issued: seq<Entry>, live: set<nat>, r: nat): set<nat> {
    set s | s in live && IsFlip(issued, s, r)
  }

  /** A request counts its live entries. It is never idle, except while it is being built;
      -1 marks a request no CRTC took. */
  ghost predicate Counted(d: Request, entries: set<nat>, building: bool) {
    if d.count < 0 then d.count == -1 && entries == {} && !building
    else d.count == |entries| && (d.count > 0 || building)
  }

  ghost predicate ReqCounts(rs: Requests, issued: seq<Entry>, live: set<nat>, building: Option<nat>) {
    && !rs.fault
    && (forall s: nat, r: nat :: IsFlip(issued, s, r) ==> r < |rs.refs|)
    && (forall s, r :: s in live && IsFlip(issued, s, r) ==> r in rs.active)
    && (forall r :: r in rs.active ==> r < |rs.refs| && rs.active[r].ref == rs.refs[r])
    && (forall r :: r in rs.active ==> Counted(rs.active[r], Entries(issued, live, r), building == Some(r)))
    && (forall s: nat, r: nat :: IsFlip(issued, s, r) && r in rs.active ==> rs.active[r].count >= 0)
    && (building.Some? ==> building.value in rs.active)
  }

  /** Each request that is over had exactly one outcome, each other one none. */
  ghost predicate ReqOutcomes(rs: Requests) {
    && (forall i :: 0 <= i < |rs.outcomes| ==>
              rs.outcomes[i].request < |rs.refs| && rs.outcomes[i].request !in rs.active)
    && (forall r: nat :: r < |rs.refs| && r !in rs.active ==>
        exists i :: 0 <= i < |rs.outcomes| && rs.outcomes[i].request == r)
    && (forall i, j :: 0 <= i < j < |rs.outcomes| ==> rs.outcomes[i].request != rs.outcomes[j].request)
  }

  /** One entry per request and CRTC. */
  ghost predicate OnePerCrtc(issued: seq<Entry>) {
    forall s, s', r, crtc :: IsFlipOn(issued, s, r, crtc) && IsFlipOn(issued, s', r, crtc) ==> s == s'
  }

  ghost predicate FlipCall(c: Call, r: nat) {
    c.entry.procs.DrmmodeFlip? && c.entry.data == r
  }

  /** Frame and time of the reference CRTC's completion are cached, and are what a finished
      request's handler was given. */
  ghost predicate ReqTimes(rs: Requests, log: seq<Call>) {
    && (forall c, r :: c in log && FlipCall(c, r) && !c.aborted && r in rs.active
          && rs.active[r].ref == Some(c.entry.crtc)
          ==> rs.active[r].frame == c.entry.frame && rs.active[r].usec == c.entry.usec)
    && (forall c, o :: c in log && o in rs.outcomes && FlipCall(c, o.request) && !c.aborted && o.handled
          && o.request < |rs.refs| && rs.refs[o.request] == Some(c.entry.crtc)
          ==> o.crtc == Some(c.entry.crtc) && o.frame == c.entry.frame && o.usec == c.entry.usec)
  }

  /** The caller is told of the reference CRTC, or without one of the CRTC whose callback was the
      last, and then also gets that callback's frame and time. */
  predicate OutcomeOf(o: Outcome, ref: Option<nat>, e: Entry) {
    && o.crtc == (if ref.Some? then ref else Some(e.crtc))
    && (ref.None? && o.handled ==> o.frame == e.frame && o.usec == e.usec)
  }

  /** The outcome came with the last callback of the request, and is of its kind; a request
      that failed before it had an entry never gets a callback. */
  ghost predicate ReqLast(rs: Requests, log: seq<Call>) {
    forall o :: o in rs.outcomes ==>
      match o.call
      case None => !o.handled && forall k :: 0 <= k < |log| ==> !FlipCall(log[k], o.request)
      case Some(m) =>
        && m < |log| && FlipCall(log[m], o.request) && o.handled == !log[m].aborted
        && (o.request < |rs.refs| ==> OutcomeOf(o, rs.refs[o.request], log[m].entry))
        && forall k :: m < k < |log| ==> !FlipCall(log[k], o.request)
  }

  /** Counts agree with holders; a request holds an FB only for a live entry; the FB of a
      TearFree flip is held by flip_pending; and a CRTC with a live TearFree flip has no
      other submitted flip. */
  ghost predicate FbInv(t: Fbs, issued: seq<Entry>, live: set<nat>, unsent: Option<nat>) {
    && Conserved(t)
    && (forall r, crtc :: FlipDataFb(r, crtc) in t.slots ==> exists s :: s in live && IsFlipOn(issued, s, r, crtc))
    && (forall s, crtc, fb :: s in live && IsScanoutFlip(issued, s, crtc, fb) ==>
          FlipPending(crtc) in t.slots && t.slots[FlipPending(crtc)] == fb)
    && (forall s, s', crtc, fb, r ::
          s in live && s' in live && IsScanoutFlip(issued, s, crtc, fb) && IsFlipOn(issued, s', r, crtc)
          && FlipDataFb(r, crtc) in t.slots
          ==> unsent == Some(s'))
  }

  ghost predicate ScanoutInv(scanout: map<nat, nat>, issued: seq<Entry>, live: set<nat>) {
    && (forall s, crtc :: s in live && IsScanout(issued, s, crtc) ==> crtc in scanout && scanout[crtc] == s)
    && (forall crtc :: crtc in scanout ==> IsScanout(issued, scanout[crtc], crtc))
    && (forall e :: e in issued ==> (e.isFlip <==> e.procs.DrmmodeFlip? || e.procs.ScanoutFlip?))
  }

  ghost predicate QueueInv(w: World) {
    && Inv(w.q)
    && (forall s :: s in w.live <==> 1 <= s <= |w.q.issued| && Calls(w.q, s) == 0)
    && (w.unsent.Some? ==> Count(w.q.pending, w.unsent.value) == 1)
  }

  ghost predicate WInv(w: World) {
    && QueueInv(w)
    && FbInv(w.fbs, w.q.issued, w.live, w.unsent)
    && ReqCounts(w.reqs, w.q.issued, w.live, w.building)
    && ReqOutcomes(w.reqs)
    && OnePerCrtc(w.q.issued)
    && ReqTimes(w.reqs, w.q.log)
    && ReqLast(w.reqs, w.q.log)
    && ScanoutInv(w.scanout, w.q.issued, w.live)
  }

  /** What may happen while a flip is being submitted and between driver calls: any queue
      operation that does not take away the entry under submission, and allocations by the
      other users of the queue. */
  predicate EnvOp(w: World, op: Op) {
    match op
    case Alloc(_, _, _, _, procs, _, isFlip) => (procs.FrameEvent? || procs.PresentVblank?) && !isFlip
    case Signal(s, _, _, _) => w.unsent != Some(s)
    case AbortEntry(s) => w.unsent != Some(s)
    case AbortId(id) =>
      var i := IndexOfId(w.q.pending, id);
      i < |w.q.pending| ==> w.unsent != Some(w.q.pending[i].seqNo)
    case _ => true
  }
}
