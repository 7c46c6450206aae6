/**
 The DRM event queue as a step system: four lists of entries, a wait-nesting level per
 CRTC, the sequence counter, and two history variables (the entries issued so far and the
 callbacks run so far).

 Every drain loop of the driver unlinks an entry before it calls out, so a run with
 re-entrant callbacks is a sequence of the atomic operations below.
 */
module QueueModel {

  /** The handler/abort pair registered with an entry. */
  datatype Callbacks = DrmmodeFlip | ScanoutFlip | ScanoutUpdate | FrameEvent | PresentVblank

  /** A queue entry. `handler` is false once the handler pointer has been cleared. */
  datatype Entry = Entry(
    seqNo: nat, client: nat, crtc: nat, id: nat, data: nat, procs: Callbacks,
    handler: bool, isFlip: bool, frame: nat, usec: nat)

  /** One callback that was run: the entry as it was, which of its two procedures ran, and
      the nesting level of its CRTC at that moment. */
  datatype Call = Call(entry: Entry, aborted: bool, level: nat)

  datatype Queue = Queue(
    pending: seq<Entry>, flips: seq<Entry>, vblanks: seq<Entry>, deferred: seq<Entry>,
    level: map<nat, nat>, counter: nat, issued: seq<Entry>, log: seq<Call>)

  const EMPTY_QUEUE := Queue([], [], [], [], map[], 0, [], [])

  function Level(q: Queue, crtc: nat): nat {
    if crtc in q.level then q.level[crtc] else 0
  }

  /** The part of an entry that never changes after allocation. */
  function Ident(e: Entry): Entry {
    e.(handler := true, frame := 0, usec := 0)
  }

  // ----- List helpers -----

  /** Index of the first entry with the given sequence number, or |l|. */
  function IndexOf(l: seq<Entry>, seqNo: nat): (r: nat)
    ensures r <= |l|
    ensures r < |l| ==> l[r].seqNo == seqNo
    ensures forall k :: 0 <= k < r ==> l[k].seqNo != seqNo
  {
    if l == [] then 0
    else if l[0].seqNo == seqNo then 0
    else
      var r' := IndexOf(l[1..], seqNo);
      assert forall k :: 1 <= k < 1 + r' ==> l[k] == l[1..][k - 1];
      1 + r'
  }

  /** Index of the first entry with the given client event id, or |l|. */
  function IndexOfId(l: seq<Entry>, id: nat): (r: nat)
    ensures r <= |l|
    ensures r < |l| ==> l[r].id == id
    ensures forall k :: 0 <= k < r ==> l[k].id != id
  {
    if l == [] then 0
    else if l[0].id == id then 0
    else
      var r' := IndexOfId(l[1..], id);
      assert forall k :: 1 <= k < 1 + r' ==> l[k] == l[1..][k - 1];
      1 + r'
  }

  function Without(l: seq<Entry>, i: nat): (r: seq<Entry>)
    requires i < |l|
    ensures forall e :: e in r ==> e in l
  {
    l[..i] + l[i + 1..]
  }

  /** The entries of one CRTC, in list order. */
  function OfCrtc(l: seq<Entry>, crtc: nat): seq<Entry> {
    if l == [] then []
    else
      var last := l[|l| - 1];
      OfCrtc(l[..|l| - 1], crtc) + (if last.crtc == crtc then [last] else [])
  }

  /** The entries of all other CRTCs, in list order. */
  function NotOfCrtc(l: seq<Entry>, crtc: nat): seq<Entry> {
    if l == [] then []
    else
      var last := l[|l| - 1];
      NotOfCrtc(l[..|l| - 1], crtc) + (if last.crtc == crtc then [] else [last])
  }

  function ClearHandlers(l: seq<Entry>, client: nat): seq<Entry> {
    seq(|l|, i requires 0 <= i < |l| => if l[i].client == client then l[i].(handler := false) else l[i])
  }

  // ----- The operations -----

  datatype Op =
    | Alloc(crtc: nat, client: nat, id: nat, data: nat, procs: Callbacks, handler: bool, isFlip: bool)
    | Signal(seqNo: nat, frame: nat, sec: nat, usec: nat)
    | HandleFlip
    | HandleVblank
    | OpenWait(crtc: nat)
    | CloseWait(crtc: nat)
    | AbortClient(client: nat)
    | AbortEntry(seqNo: nat)
    | AbortId(id: nat)

  /** Sequence number the next allocation gets: 0 is the error value and is skipped. */
  function NextSeqNo(q: Queue): nat {
    if q.counter == 0 then 1 else q.counter
  }

  function Ran(q: Queue, e: Entry, aborted: bool): seq<Call> {
    q.log + [Call(e, aborted, Level(q, e.crtc))]
  }

  function DoAlloc(q: Queue, op: Op): Queue
    requires op.Alloc?
  {
    var n := NextSeqNo(q);
    var e := Entry(n, op.client, op.crtc, op.id, op.data, op.procs, op.handler, op.isFlip, 0, 0);
    q.(pending := q.pending + [e], counter := n + 1, issued := q.issued + [Ident(e)])
  }

  /** A kernel event (or an emulated one) for a sequence number. */
  function DoSignal(q: Queue, seqNo: nat, frame: nat, sec: nat, usec: nat): Queue {
    var i := IndexOf(q.pending, seqNo);
    if i == |q.pending| then q
    else
      var e := q.pending[i];
      var rest := Without(q.pending, i);
      if !e.handler then q.(pending := rest, log := Ran(q, e, true))
      else
        var e' := e.(usec := sec * 1000000 + usec, frame := frame);
        if e.isFlip then q.(pending := rest, flips := q.flips + [e'])
        else q.(pending := rest, vblanks := q.vblanks + [e'])
  }

  /** Handle the first signalled flip. */
  function DoHandleFlip(q: Queue): Queue {
    if q.flips == [] then q
    else q.(flips := q.flips[1..], log := Ran(q, q.flips[0], !q.flips[0].handler))
  }

  /** Handle or defer the first signalled vblank. */
  function DoHandleVblank(q: Queue): Queue {
    if q.vblanks == [] then q
    else
      var e := q.vblanks[0];
      if Level(q, e.crtc) == 0 then q.(vblanks := q.vblanks[1..], log := Ran(q, e, !e.handler))
      else q.(vblanks := q.vblanks[1..], deferred := q.deferred + [e])
  }

  function DoOpenWait(q: Queue, crtc: nat): Queue {
    q.(level := q.level[crtc := Level(q, crtc) + 1])
  }

  function DoCloseWait(q: Queue, crtc: nat): Queue {
    if Level(q, crtc) == 0 then q
    else
      var q' := q.(level := q.level[crtc := Level(q, crtc) - 1]);
      if Level(q, crtc) > 1 then q'
      else q'.(vblanks := q.vblanks + OfCrtc(q.deferred, crtc), deferred := NotOfCrtc(q.deferred, crtc))
  }

  /** Abort one entry by sequence number. The signalled flips are not searched. */
  function DoAbortEntry(q: Queue, seqNo: nat): Queue {
    if seqNo == 0 then q
    else
      var v := IndexOf(q.vblanks, seqNo);
      if v < |q.vblanks| then q.(vblanks := Without(q.vblanks, v), log := Ran(q, q.vblanks[v], true))
      else
        var d := IndexOf(q.deferred, seqNo);
        if d < |q.deferred| then q.(deferred := Without(q.deferred, d), log := Ran(q, q.deferred[d], true))
        else
          var p := IndexOf(q.pending, seqNo);
          if p < |q.pending| then q.(pending := Without(q.pending, p), log := Ran(q, q.pending[p], true))
          else q
  }

  function DoAbortId(q: Queue, id: nat): Queue {
    var p := IndexOfId(q.pending, id);
    if p < |q.pending| then q.(pending := Without(q.pending, p), log := Ran(q, q.pending[p], true))
    else q
  }

  function Apply(q: Queue, op: Op): Queue {
    match op
    case Alloc(_, _, _, _, _, _, _) => DoAlloc(q, op)
    case Signal(n, frame, sec, usec) => DoSignal(q, n, frame, sec, usec)
    case HandleFlip => DoHandleFlip(q)
    case HandleVblank => DoHandleVblank(q)
    case OpenWait(crtc) => DoOpenWait(q, crtc)
    case CloseWait(crtc) => DoCloseWait(q, crtc)
    case AbortClient(client) => q.(pending := ClearHandlers(q.pending, client))
    case AbortEntry(n) => DoAbortEntry(q, n)
    case AbortId(id) => DoAbortId(q, id)
  }

  /** The state after a sequence of operations. */
  function Run(q: Queue, ops: seq<Op>): Queue
    decreases |ops|
  {
    if ops == [] then q else Run(Apply(q, ops[0]), ops[1..])
  }

  // ----- What every state keeps -----

  /** How often a sequence number occurs in a list. */
  function Count(l: seq<Entry>, s: nat): nat {
    if l == [] then 0
    else Count(l[..|l| - 1], s) + (if l[|l| - 1].seqNo == s then 1 else 0)
  }

  /** How often a sequence number occurs in the four lists. */
  function Places(q: Queue, s: nat): nat {
    Count(q.pending, s) + Count(q.flips, s) + Count(q.vblanks, s) + Count(q.deferred, s)
  }

  /** How many callbacks a log holds for a sequence number. */
  function CountCalls(log: seq<Call>, s: nat): nat {
    if log == [] then 0
    else CountCalls(log[..|log| - 1], s) + (if log[|log| - 1].entry.seqNo == s then 1 else 0)
  }

  function Calls(q: Queue, s: nat): nat {
    CountCalls(q.log, s)
  }

  /** Conservation: listed plus called back is exactly what was issued. */
  ghost predicate CensusAt(q: Queue, s: nat) {
    Places(q, s) + Calls(q, s) == if 1 <= s <= |q.issued| then 1 else 0
  }

  ghost predicate Census(q: Queue) {
    forall s :: CensusAt(q, s)
  }

  ghost predicate Known(issued: seq<Entry>, e: Entry) {
    1 <= e.seqNo <= |issued| && Ident(e) == issued[e.seqNo - 1]
  }

  /** Entries keep the identity they were issued with. */
  ghost predicate Faithful(q: Queue) {
    && NextSeqNo(q) == |q.issued| + 1
    && (forall e :: e in q.pending ==> Known(q.issued, e))
    && (forall e :: e in q.flips ==> Known(q.issued, e))
    && (forall e :: e in q.vblanks ==> Known(q.issued, e))
    && (forall e :: e in q.deferred ==> Known(q.issued, e))
    && (forall c :: c in q.log ==> Known(q.issued, c.entry))
  }

  /** Signalled entries still have their handler and sit in the list of their kind. */
  ghost predicate Kinds(q: Queue) {
    && (forall e :: e in q.flips ==> e.isFlip && e.handler)
    && (forall e :: e in q.vblanks ==> !e.isFlip && e.handler)
    && (forall e :: e in q.deferred ==> !e.isFlip && e.handler)
  }

  /** A deferred entry's CRTC has an open wait; a vblank handler ran only outside one. */
  ghost predicate Deferral(q: Queue) {
    && (forall e :: e in q.deferred ==> Level(q, e.crtc) > 0)
    && (forall c :: c in q.log && !c.aborted && !c.entry.isFlip ==> c.level == 0)
  }

  ghost predicate Inv(q: Queue) {
    Census(q) && Faithful(q) && Kinds(q) && Deferral(q)
  }
}
