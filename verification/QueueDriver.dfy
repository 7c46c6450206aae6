/**
 The event queue as the driver runs it: one object whose lists are changed in place, drain
 loops that call out, and callbacks that re-enter any queue operation.

 What a callback does is not fixed: `scripts` holds, for each callback run in turn, the
 driver calls it makes. A callback beyond the last script makes none. Every finite
 execution is one choice of `scripts` and of the kernel's replies.
 */
module QueueDriver {
  import opened QueueModel
  import opened QueueSafety

  /** An event read from the DRM file descriptor. */
  datatype Event = Event(seqNo: nat, frame: nat, sec: nat, usec: nat)

  /** One drmHandleEvent call: the events it delivers and whether it succeeds. */
  datatype Batch = Batch(events: seq<Event>, ok: bool)

  /** A call some other part of the driver makes into the queue. `Bracket` is any driver path
      that waits for a flip, does further work and then handles deferred events. */
  datatype DriverCall =
    | RequestEvent(op: Op)
    | SetFlipPending(crtc: nat, on: bool)
    | AbandonClient(client: nat)
    | AbandonEntry(seqNo: nat)
    | AbandonId(id: nat)
    | ReadEvents(batch: Batch)
    | EmulateVblank(crtc: nat, event: Event)
    | Bracket(crtc: nat, batches: seq<Batch>, body: seq<DriverCall>)

  // ----- How states relate across a call -----

  ghost predicate Reaches(a: Queue, b: Queue) {
    exists ops :: b == Run(a, ops)
  }

  ghost predicate SameLevels(a: Queue, b: Queue) {
    forall c :: Level(a, c) == Level(b, c)
  }

  ghost predicate Quiet(q: Queue) {
    forall c :: Level(q, c) == 0
  }

  /** What every complete driver call keeps: it takes only queue operations, closes the waits
      it opens, leaves no signalled flip behind that was not there before, and outside any
      wait leaves no signalled vblank behind either. */
  ghost predicate Kept(a: Queue, b: Queue) {
    && Reaches(a, b)
    && SameLevels(a, b)
    && (a.flips == [] ==> b.flips == [])
    && (Quiet(a) && a.vblanks == [] ==> b.vblanks == [])
  }

  /** b is a after one wait level of the CRTC was opened and other complete calls were made. */
  ghost predicate Opened(a: Queue, b: Queue, crtc: nat) {
    && Reaches(a, b)
    && (forall c :: Level(b, c) == Level(a, c) + if c == crtc then 1 else 0)
    && (a.flips == [] ==> b.flips == [])
  }

  /** b is a after one wait level of the CRTC was closed; closing the last one leaves no
      signalled vblank behind. */
  ghost predicate Closed(a: Queue, b: Queue, crtc: nat) {
    && Reaches(a, b)
    && (forall c :: Level(b, c) == if c == crtc && Level(a, c) > 0 then Level(a, c) - 1 else Level(a, c))
    && (a.flips == [] ==> b.flips == [])
    && (Level(a, crtc) == 1 ==> b.vblanks == [])
  }

  /** The events were delivered in order, each followed by whatever its callbacks did. */
  ghost predicate Delivered(a: Queue, events: seq<Event>, b: Queue)
    decreases |events|
  {
    if events == [] then Reaches(a, b)
    else
      var front, last := events[..|events| - 1], events[|events| - 1];
      exists m :: After(m, last, b) && Delivered(a, front, m)
  }

  ghost predicate After(a: Queue, event: Event, b: Queue) {
    Reaches(Apply(a, ToOp(event)), b)
  }

  function ToOp(event: Event): Op {
    Signal(event.seqNo, event.frame, event.sec, event.usec)
  }

  // ----- What the loops and the calls do -----

  /** b is a after n times the operation, each followed by whatever callbacks did. */
  ghost predicate Times(n: nat, op: Op, a: Queue, b: Queue)
    decreases n
  {
    if n == 0 then a == b else exists m :: Times(n - 1, op, a, m) && Kept(Apply(m, op), b)
  }

  ghost predicate Repeats(op: Op, a: Queue, b: Queue) {
    exists n: nat :: Times(n, op, a, b)
  }

  lemma RepeatsSelf(op: Op, a: Queue)
    ensures Repeats(op, a, a)
  {
    assert Times(0, op, a, a);
  }

  lemma RepeatsMore(op: Op, a: Queue, m: Queue, b: Queue)
    requires Repeats(op, a, m) && Kept(Apply(m, op), b)
    ensures Repeats(op, a, b)
  {
    var n: nat :| Times(n, op, a, m);
    assert Times(n + 1, op, a, b);
  }

  /** amdgpu_drm_handle_event: the events are handed on in order, then the flips are handled
      until none is signalled, then the vblanks. */
  ghost predicate HandlesBatch(a: Queue, events: seq<Event>, b: Queue) {
    exists r, f ::
      && Delivered(a, events, r)
      && Repeats(HandleFlip, r, f) && f.flips == []
      && Repeats(HandleVblank, f, b)
  }

  ghost predicate HandlesBatches(a: Queue, batches: seq<Batch>, b: Queue)
    decreases |batches|
  {
    if batches == [] then a == b
    else
      var front, last := batches[..|batches| - 1], batches[|batches| - 1];
      exists m :: HandlesBatches(a, front, m) && HandlesBatch(m, last.events, b)
  }

  /** The batches read from a file descriptor that then has no more: reading goes on at most up to
      the first failure. */
  predicate ReadOf(batches: seq<Batch>, seen: seq<Batch>) {
    && (seen <= batches || seen == batches + [Batch([], false)])
    && forall k :: 0 <= k < |seen| - 1 ==> seen[k].ok
  }

  /** Events are read, once no signalled flip is left. `still` says that a flip is pending at the end;
      then the last read has failed. */
  ghost predicate ReadsOn(a: Queue, batches: seq<Batch>, b: Queue, still: bool) {
    exists seen: seq<Batch> ::
      && HandlesBatches(a, seen, b) && ReadOf(batches, seen) && (seen != [] ==> a.flips == [])
      && (still ==> seen != [] && !seen[|seen| - 1].ok)
  }

  /** amdgpu_drm_wait_pending_flip after the level was opened: the signalled flips are handled
      first, then events are read. */
  ghost predicate FlipWait(a: Queue, batches: seq<Batch>, b: Queue, still: bool) {
    exists drained: Queue :: Repeats(HandleFlip, a, drained) && ReadsOn(drained, batches, b, still)
  }

  /** The queue, and the CRTCs with a flip pending. */
  datatype Snap = Snap(q: Queue, waiting: set<nat>)

  /** What a driver call does. */
  ghost predicate Does(a: Snap, call: DriverCall, b: Snap)
    decreases call
  {
    match call
    case RequestEvent(op) => b == a.(q := if op.Alloc? then Apply(a.q, op) else a.q)
    case SetFlipPending(crtc, on) => b == a.(waiting := if on then a.waiting + {crtc} else a.waiting - {crtc})
    case AbandonClient(client) => b == a.(q := Apply(a.q, AbortClient(client)))
    case AbandonEntry(n) => Kept(Apply(a.q, AbortEntry(n)), b.q)
    case AbandonId(id) => Kept(Apply(a.q, AbortId(id)), b.q)
    case ReadEvents(batch) => HandlesBatch(a.q, batch.events, b.q)
    case EmulateVblank(crtc, event) =>
      if FlipNumbered(a.q.pending, event.seqNo) then b == a else Emulates(a.q, crtc, event, b.q)
    case Bracket(crtc, batches, body) =>
      exists m, n ::
        && DoesAll(m, body, n)
        && FlipWait(Apply(a.q, OpenWait(crtc)), batches, m.q, crtc in m.waiting)
        && (crtc !in a.waiting ==> m == a.(q := Apply(a.q, OpenWait(crtc))))
        && Closes(n.q, crtc, b.q)
  }

  /** What the calls do one after the other. */
  ghost predicate DoesAll(a: Snap, calls: seq<DriverCall>, b: Snap)
    decreases calls
  {
    if calls == [] then a == b
    else
      var front, last := calls[..|calls| - 1], calls[|calls| - 1];
      exists m :: DoesAll(a, front, m) && Does(m, last, b)
  }

  /** The event is signalled, then a wait level is opened and closed. */
  ghost predicate Emulates(a: Queue, crtc: nat, event: Event, b: Queue) {
    exists m :: After(a, event, m) && Closes(Apply(m, OpenWait(crtc)), crtc, b)
  }

  /** amdgpu_drm_queue_handle_deferred: after the last level the vblanks are handled. */
  ghost predicate Closes(a: Queue, crtc: nat, b: Queue) {
    var a1 := Apply(a, CloseWait(crtc));
    if Level(a, crtc) == 1 then Repeats(HandleVblank, a1, b) && b.vblanks == [] else b == a1
  }

  lemma DoesMore(a: Snap, calls: seq<DriverCall>, m: Snap, call: DriverCall, b: Snap)
    requires DoesAll(a, calls, m) && Does(m, call, b)
    ensures DoesAll(a, calls + [call], b)
  {
    var all := calls + [call];
    assert all[..|all| - 1] == calls && all[|all| - 1] == call;
  }

  lemma HandlesNone(a: Queue)
    ensures HandlesBatches(a, [], a)
  {
  }

  lemma HandlesMore(a: Queue, seen: seq<Batch>, m: Queue, batch: Batch, b: Queue)
    requires HandlesBatches(a, seen, m) && HandlesBatch(m, batch.events, b)
    ensures HandlesBatches(a, seen + [batch], b)
  {
    var all := seen + [batch];
    assert all[..|all| - 1] == seen && all[|all| - 1] == batch;
  }

  lemma DeliveredThen(a: Queue, events: seq<Event>, b: Queue, c: Queue)
    requires Delivered(a, events, b) && Reaches(b, c)
    ensures Delivered(a, events, c)
  {
    if events == [] {
      ReachesTrans(a, b, c);
    } else {
      var front, last := events[..|events| - 1], events[|events| - 1];
      var m :| After(m, last, b) && Delivered(a, front, m);
      ReachesTrans(Apply(m, ToOp(last)), b, c);
      assert After(m, last, c);
    }
  }

  lemma DeliveredOneMore(a: Queue, events: seq<Event>, m: Queue, e: Event, b: Queue)
    requires Delivered(a, events, m) && After(m, e, b)
    ensures Delivered(a, events + [e], b)
  {
    var all := events + [e];
    assert all[..|all| - 1] == events && all[|all| - 1] == e;
  }

  lemma ReachesSelf(a: Queue)
    ensures Reaches(a, a)
  {
    assert a == Run(a, []);
  }

  lemma ReachesOne(a: Queue, op: Op)
    ensures Reaches(a, Apply(a, op))
  {
    assert Run(Apply(a, op), [op][1..]) == Apply(a, op);
    assert Apply(a, op) == Run(a, [op]);
  }

  lemma ReachesTrans(a: Queue, b: Queue, c: Queue)
    requires Reaches(a, b) && Reaches(b, c)
    ensures Reaches(a, c)
  {
    var x :| b == Run(a, x);
    var y :| c == Run(b, y);
    RunAppend(a, x, y);
  }

  lemma ReachesStep(a: Queue, b: Queue, op: Op)
    requires Reaches(a, b)
    ensures Reaches(a, Apply(b, op))
  {
    ReachesOne(b, op);
    ReachesTrans(a, b, Apply(b, op));
  }

  lemma KeptTrans(a: Queue, b: Queue, c: Queue)
    requires Kept(a, b) && Kept(b, c)
    ensures Kept(a, c)
  {
    ReachesTrans(a, b, c);
    forall d ensures Level(a, d) == Level(c, d) {
      assert Level(a, d) == Level(b, d);
    }
    if Quiet(a) {
      forall d ensures Level(b, d) == 0 {
        assert Level(a, d) == Level(b, d);
      }
    }
  }

  lemma KeptSelf(a: Queue)
    ensures Kept(a, a)
  {
    ReachesSelf(a);
  }

  lemma OpenedKept(a: Queue, b: Queue, c: Queue, crtc: nat)
    requires Opened(a, b, crtc) && Kept(b, c)
    ensures Opened(a, c, crtc)
  {
    ReachesTrans(a, b, c);
    forall d ensures Level(c, d) == Level(a, d) + if d == crtc then 1 else 0 {
      assert Level(b, d) == Level(c, d);
    }
  }

  lemma KeptOpened(a: Queue, b: Queue, c: Queue, crtc: nat)
    requires Kept(a, b) && Opened(b, c, crtc)
    ensures Opened(a, c, crtc)
  {
    ReachesTrans(a, b, c);
    forall d ensures Level(c, d) == Level(a, d) + if d == crtc then 1 else 0 {
      assert Level(a, d) == Level(b, d);
    }
  }

  /** A driver path that closes the wait it opened keeps what every complete call keeps. */
  lemma BracketKept(a: Queue, b: Queue, c: Queue, crtc: nat)
    requires Opened(a, b, crtc) && Closed(b, c, crtc)
    ensures Kept(a, c)
  {
    ReachesTrans(a, b, c);
    assert Level(b, crtc) == Level(a, crtc) + 1;
  }

  lemma ReachesInv(a: Queue, b: Queue)
    requires Inv(a) && Reaches(a, b)
    ensures Inv(b)
  {
    var ops :| b == Run(a, ops);
    InvRun(a, ops);
  }

  /** Nothing stranded: a complete driver call made while no other is active, from a state
      with empty signalled lists, ends with the same (zero) levels and with the signalled
      and the deferred lists all empty. */
  lemma NothingStranded(a: Queue, b: Queue)
    requires Inv(a) && Kept(a, b)
    requires Quiet(a) && a.flips == [] && a.vblanks == []
    ensures Quiet(b) && b.flips == [] && b.vblanks == [] && b.deferred == []
  {
    ReachesInv(a, b);
    assert b.deferred == [] || Level(b, b.deferred[0].crtc) > 0;
    forall c ensures Level(b, c) == 0 {
      assert Level(a, c) == Level(b, c);
    }
  }

  /** The queue's walks through a list for a sequence number. */
  method FirstNumbered(l: seq<Entry>, n: nat) returns (i: nat)
    ensures i == IndexOf(l, n)
  {
    i := 0;
    while i < |l| && l[i].seqNo != n
      invariant i <= |l| && forall k :: 0 <= k < i ==> l[k].seqNo != n
    {
      i := i + 1;
    }
  }

  /** The walk for a client event id. */
  method FirstWithId(l: seq<Entry>, id: nat) returns (i: nat)
    ensures i == IndexOfId(l, id)
  {
    i := 0;
    while i < |l| && l[i].id != id
      invariant i <= |l| && forall k :: 0 <= k < i ==> l[k].id != id
    {
      i := i + 1;
    }
  }

  lemma RestoreStart(was: seq<Entry>, crtc: nat)
    ensures NotOfCrtc(was[..0], crtc) == [] && OfCrtc(was[..0], crtc) == [] && was[0..] == was
  {
  }

  /** One round of the restoring loop. */
  lemma RestoreStep(was: seq<Entry>, n: nat, crtc: nat)
    requires n < |was|
    ensures var kept := NotOfCrtc(was[..n], crtc);
            var list, i := kept + was[n..], |kept|;
            && i < |list| && list[i] == was[n]
            && (if was[n].crtc != crtc then
                  && NotOfCrtc(was[..n + 1], crtc) + was[n + 1..] == list && |NotOfCrtc(was[..n + 1], crtc)| == i + 1
                  && OfCrtc(was[..n + 1], crtc) == OfCrtc(was[..n], crtc)
                else
                  && Without(list, i) == NotOfCrtc(was[..n + 1], crtc) + was[n + 1..] &&
                      NotOfCrtc(was[..n + 1], crtc) == kept
                  && OfCrtc(was[..n + 1], crtc) == OfCrtc(was[..n], crtc) + [was[n]])
  {
    var kept := NotOfCrtc(was[..n], crtc);
    assert was[..n + 1][..n] == was[..n];
    assert was[n..] == [was[n]] + was[n + 1..];
    assert kept + was[n..] == (kept + [was[n]]) + was[n + 1..];
  }

  lemma AbortKept(q: Queue, n: nat)
    ensures Kept(q, Apply(q, AbortEntry(n)))
  {
    ReachesOne(q, AbortEntry(n));
  }

  lemma KeepsOthers(l: seq<Entry>, i: nat)
    requires i < |l|
    ensures forall e :: e in l && e != l[i] ==> e in Without(l, i)
  {
    assert l == l[..i] + [l[i]] + l[i + 1..];
  }

  /** A page flip with this number is pending. */
  predicate FlipNumbered(pending: seq<Entry>, n: nat) {
    exists e :: e in pending && e.seqNo == n && e.isFlip
  }

  lemma FlipNumberedOnly(q: Queue, n: nat)
    requires Inv(q) && FlipNumbered(q.pending, n)
    ensures forall e :: e in q.pending && e.seqNo == n ==> e.isFlip
  {
    var e :| e in q.pending && e.seqNo == n && e.isFlip;
    assert Known(q.issued, e);
  }

  /** An issued entry that is not pending never becomes pending again. */
  lemma {:induction false} NeverPendingAgain(q: Queue, ops: seq<Op>, s: nat)
    requires Inv(q) && 1 <= s <= |q.issued| && Count(q.pending, s) == 0
    ensures Count(Run(q, ops).pending, s) == 0 && |q.issued| <= |Run(q, ops).issued|
    decreases |ops|
  {
    if ops != [] {
      InvKept(q, ops[0]);
      NotPendingStep(q, ops[0], s);
      NeverPendingAgain(Apply(q, ops[0]), ops[1..], s);
    }
  }

  lemma NotPendingStep(q: Queue, op: Op, s: nat)
    requires Inv(q) && 1 <= s <= |q.issued| && Count(q.pending, s) == 0
    ensures Count(Apply(q, op).pending, s) == 0 && |q.issued| <= |Apply(q, op).issued|
  {
    CountMember(q.pending, s);
    CountMember(Apply(q, op).pending, s);
    if op.AbortClient? {
      CountClear(q.pending, op.client, s);
    }
  }

  /** The event takes its entry out of the pending list. */
  lemma SignalledOrCalled(q: Queue, event: Event, e: Entry)
    requires Inv(q) && e in q.pending && e.seqNo == event.seqNo
    ensures var q' := Apply(q, ToOp(event)); Inv(q') && Count(q'.pending, e.seqNo) == 0 && q'.issued == q.issued
    ensures 1 <= e.seqNo <= |q.issued| && q.issued[e.seqNo - 1] == Ident(e)
  {
    InvKept(q, ToOp(event));
    assert Known(q.issued, e);
    assert CensusAt(q, e.seqNo);
    CountMember(q.pending, e.seqNo);
    CountWithout(q.pending, IndexOf(q.pending, e.seqNo), e.seqNo);
  }

  /** A vblank entry that is not pending, while no vblank is signalled and its CRTC has no
      open wait, was called back. */
  lemma NowhereElse(q: Queue, s: nat)
    requires Inv(q) && 1 <= s <= |q.issued| && !q.issued[s - 1].isFlip
    requires Count(q.pending, s) == 0 && q.vblanks == [] && Level(q, q.issued[s - 1].crtc) == 0
    ensures Calls(q, s) == 1
  {
    assert CensusAt(q, s);
    CountMember(q.flips, s);
    CountMember(q.deferred, s);
  }

  /** An event's entry was called back once no vblank is signalled and its CRTC has no open wait. */
  lemma DeliveredNow(a: Queue, b: Queue, event: Event, e: Entry)
    requires Inv(a) && e in a.pending && e.seqNo == event.seqNo && !e.isFlip
    requires Reaches(Apply(a, ToOp(event)), b) && b.vblanks == [] && Level(b, e.crtc) == 0
    ensures Calls(b, e.seqNo) == 1
  {
    SignalledOrCalled(a, event, e);
    hide Apply, Inv, Run;
    var q, s := Apply(a, ToOp(event)), e.seqNo;
    var ops :| b == Run(q, ops);
    NeverPendingAgain(q, ops, s);
    ReachesInv(q, b);
    IssuedPrefix(q, ops);
    NowhereElse(b, s);
  }

  lemma {:induction false} IssuedPrefix(q: Queue, ops: seq<Op>)
    ensures q.issued <= Run(q, ops).issued
    decreases |ops|
  {
    if ops != [] {
      assert q.issued <= Apply(q, ops[0]).issued;
      IssuedPrefix(Apply(q, ops[0]), ops[1..]);
    }
  }

  class DrmQueue {
    var pending: seq<Entry>
    var flipSignalled: seq<Entry>
    var vblankSignalled: seq<Entry>
    var vblankDeferred: seq<Entry>
    var nesting: map<nat, nat>
    var counter: nat
    var flipPending: set<nat>
    var scripts: seq<seq<DriverCall>>
    ghost var issued: seq<Entry>
    ghost var log: seq<Call>

    ghost function State(): Queue
      reads this
    {
      Queue(pending, flipSignalled, vblankSignalled, vblankDeferred, nesting, counter, issued, log)
    }

    ghost function Now(): Snap
      reads this
    {
      Snap(State(), flipPending)
    }

    constructor (scripts: seq<seq<DriverCall>>)
      ensures flipPending == {}
      ensures State() == EMPTY_QUEUE && this.scripts == scripts
    {
      pending, flipSignalled, vblankSignalled, vblankDeferred := [], [], [], [];
      nesting, counter, flipPending := map[], 0, {};
      this.scripts := scripts;
      issued, log := [], [];
    }

    function NestingLevel(crtc: nat): nat
      reads this
    {
      if crtc in nesting then nesting[crtc] else 0
    }

    /** Run the handler or the abort procedure of an entry that was just unlinked. */
    method CallOut(e: Entry, aborted: bool, ghost before: Queue, ghost op: Op)
      requires Apply(before, op) == State().(log := Ran(State(), e, aborted))
      requires Kept(before, Apply(before, op))
      modifies this
      ensures Kept(before, State()) && Kept(Apply(before, op), State()) && Reaches(Apply(before, op), State())
      ensures old(scripts) != [] ==> DoesAll(Snap(Apply(before, op), old(flipPending)), old(scripts)[0], Now())
      ensures |scripts| <= old(|scripts|)
      ensures old(scripts) == [] ==> State() == Apply(before, op)
      ensures old(scripts) != [] ==> |scripts| < old(|scripts|)
      decreases |scripts|, 1
    {
      hide Times, DoesAll;
      log := log + [Call(e, aborted, NestingLevel(e.crtc))];
      KeptSelf(State());
      if scripts != [] {
        var script := scripts[0];
        scripts := scripts[1..];
        ghost var mid := State();
        RunCalls(script);
        KeptTrans(before, mid, State());
      }
    }

    /** amdgpu_drm_queue_handler: deliver one event. */
    method QueueHandler(event: Event)
      modifies this
      ensures Reaches(Apply(old(State()), ToOp(event)), State()) && SameLevels(old(State()), State())
      ensures (forall e :: e in old(pending) && e.seqNo == event.seqNo ==> !e.isFlip) && old(flipSignalled) == []
              ==> flipSignalled == []
      ensures |scripts| <= old(|scripts|)
      decreases |scripts|, 2
    {
      ghost var before := State();
      ghost var op := ToOp(event);
      ReachesOne(before, op);
      ReachesSelf(Apply(before, op));
      var i := FirstNumbered(pending, event.seqNo);
      if i == |pending| {
        return;
      }
      var e := pending[i];
      assert e in old(pending);
      pending := Without(pending, i);
      if !e.handler {
        CallOut(e, true, before, op);
        return;
      }
      e := e.(usec := event.sec * 1000000 + event.usec, frame := event.frame);
      if e.isFlip {
        flipSignalled := flipSignalled + [e];
      } else {
        vblankSignalled := vblankSignalled + [e];
      }
      assert State() == Apply(before, op);
    }

    /** amdgpu_drm_handle_vblank_signalled: handle every signalled vblank, or defer it while
        its CRTC has an open wait. */
    method HandleVblankSignalled()
      modifies this
      ensures Kept(old(State()), State()) && vblankSignalled == []
      ensures Repeats(HandleVblank, old(State()), State())
      ensures |scripts| <= old(|scripts|)
      decreases |scripts|, 3
    {
      hide Times, Repeats, DoesAll;
      ghost var before := State();
      KeptSelf(before);
      RepeatsSelf(HandleVblank, before);
      while vblankSignalled != []
        invariant Kept(before, State()) && Repeats(HandleVblank, before, State()) && |scripts| <= old(|scripts|)
        decreases |scripts|, |vblankSignalled|
      {
        ghost var here := State();
        ReachesOne(here, HandleVblank);
        KeptSelf(Apply(here, HandleVblank));
        var e := vblankSignalled[0];
        vblankSignalled := vblankSignalled[1..];
        if NestingLevel(e.crtc) == 0 {
          CallOut(e, !e.handler, here, HandleVblank);
        } else {
          vblankDeferred := vblankDeferred + [e];
          assert State() == Apply(here, HandleVblank);
        }
        KeptTrans(before, here, State());
        RepeatsMore(HandleVblank, before, here, State());
      }
    }

    /** amdgpu_drm_queue_handle_deferred: close one wait level of a CRTC. */
    method HandleDeferred(crtc: nat)
      modifies this
      ensures Closed(old(State()), State(), crtc) && Closes(old(State()), crtc, State())
      ensures Reaches(Apply(old(State()), CloseWait(crtc)), State())
      ensures Level(old(State()), crtc) != 1 ==>
                State() == Apply(old(State()), CloseWait(crtc)) && scripts == old(scripts)
      ensures |scripts| <= old(|scripts|)
      decreases |scripts|, 4
    {
      hide Times, Repeats;
      ghost var before := State();
      ReachesOne(before, CloseWait(crtc));
      ReachesSelf(Apply(before, CloseWait(crtc)));
      if NestingLevel(crtc) == 0 {
        return;
      }
      nesting := nesting[crtc := nesting[crtc] - 1];
      if nesting[crtc] > 0 {
        assert State() == Apply(before, CloseWait(crtc));
        return;
      }
      RestoreDeferred(crtc);
      ghost var mid := State();
      assert mid == Apply(before, CloseWait(crtc));
      HandleVblankSignalled();
      ReachesTrans(before, mid, State());
    }

    /** Put the deferred events of a CRTC back into the signalled list. */
    method RestoreDeferred(crtc: nat)
      modifies this`vblankSignalled, this`vblankDeferred
      ensures vblankSignalled == old(vblankSignalled) + OfCrtc(old(vblankDeferred), crtc)
      ensures vblankDeferred == NotOfCrtc(old(vblankDeferred), crtc)
    {
      hide OfCrtc, NotOfCrtc, Without;
      ghost var was := vblankDeferred;
      RestoreStart(was, crtc);
      ghost var n := 0;
      var i := 0;
      while i < |vblankDeferred|
        invariant n <= |was| && i == |NotOfCrtc(was[..n], crtc)| && |vblankDeferred| == i + |was| - n
        invariant vblankDeferred == NotOfCrtc(was[..n], crtc) + was[n..]
        invariant vblankSignalled == old(vblankSignalled) + OfCrtc(was[..n], crtc)
        decreases |was| - n
      {
        RestoreStep(was, n, crtc);
        var e := vblankDeferred[i];
        if e.crtc != crtc {
          i := i + 1;
        } else {
          vblankDeferred := Without(vblankDeferred, i);
          vblankSignalled := vblankSignalled + [e];
        }
        n := n + 1;
      }
      assert was[..n] == was;
    }

    /** amdgpu_drm_queue_alloc; 0 when no memory is left. */
    method QueueAlloc(op: Op, memory: bool) returns (seqNo: nat)
      requires op.Alloc?
      modifies this
      ensures Kept(old(State()), State()) && scripts == old(scripts)
      ensures seqNo == if memory then NextSeqNo(old(State())) else 0
      ensures memory ==> State() == Apply(old(State()), op)
      ensures memory ==>
                pending == old(pending) +
                  [Entry(seqNo, op.client, op.crtc, op.id, op.data, op.procs, op.handler, op.isFlip, 0, 0)]
      ensures flipPending == old(flipPending)
      ensures !memory ==> State() == old(State())
    {
      ReachesSelf(State());
      ReachesOne(State(), op);
      if !memory {
        return 0;
      }
      if counter == 0 {
        counter := counter + 1;
      }
      var e := Entry(counter, op.client, op.crtc, op.id, op.data, op.procs, op.handler, op.isFlip, 0, 0);
      counter := counter + 1;
      issued := issued + [Ident(e)];
      pending := pending + [e];
      return e.seqNo;
    }

    /** amdgpu_drm_abort_client: clear the handlers of a client's pending entries. */
    method DrmAbortClient(client: nat)
      modifies this`pending
      ensures State() == Apply(old(State()), AbortClient(client)) && Kept(old(State()), State())
    {
      ghost var was := pending;
      ReachesOne(State(), AbortClient(client));
      var i := 0;
      while i < |pending|
        invariant i <= |pending| == |was|
        invariant forall k :: 0 <= k < i ==> pending[k] == ClearHandlers(was, client)[k]
        invariant forall k :: i <= k < |was| ==> pending[k] == was[k]
      {
        if pending[i].client == client {
          pending := pending[i := pending[i].(handler := false)];
        }
        i := i + 1;
      }
      assert pending == ClearHandlers(was, client);
    }

    /** amdgpu_drm_abort_entry: search signalled vblanks, deferred and pending, in this order. */
    method DrmAbortEntry(seqNo: nat)
      modifies this
      ensures Kept(old(State()), State()) && Kept(Apply(old(State()), AbortEntry(seqNo)), State())
      ensures |scripts| <= old(|scripts|)
      decreases |scripts|, 2
    {
      ghost var before := State();
      ReachesSelf(before);
      if seqNo == 0 {
        assert Apply(before, AbortEntry(0)) == before;
        return;
      }
      ReachesOne(before, AbortEntry(seqNo));
      KeptSelf(Apply(before, AbortEntry(seqNo)));
      var i := FirstNumbered(vblankSignalled, seqNo);
      if i < |vblankSignalled| {
        var e := vblankSignalled[i];
        vblankSignalled := Without(vblankSignalled, i);
        CallOut(e, true, before, AbortEntry(seqNo));
        return;
      }
      i := FirstNumbered(vblankDeferred, seqNo);
      if i < |vblankDeferred| {
        var e := vblankDeferred[i];
        vblankDeferred := Without(vblankDeferred, i);
        CallOut(e, true, before, AbortEntry(seqNo));
        return;
      }
      i := FirstNumbered(pending, seqNo);
      if i < |pending| {
        var e := pending[i];
        pending := Without(pending, i);
        CallOut(e, true, before, AbortEntry(seqNo));
      }
    }

    /** amdgpu_drm_abort_id: abort the first pending entry with a client event id. */
    method DrmAbortId(id: nat)
      modifies this
      ensures Kept(old(State()), State()) && Kept(Apply(old(State()), AbortId(id)), State())
      ensures |scripts| <= old(|scripts|)
      decreases |scripts|, 2
    {
      ghost var before := State();
      ReachesOne(before, AbortId(id));
      KeptSelf(Apply(before, AbortId(id)));
      ReachesSelf(before);
      var i := FirstWithId(pending, id);
      if i < |pending| {
        var e := pending[i];
        pending := Without(pending, i);
        CallOut(e, true, before, AbortId(id));
      }
    }

    /** amdgpu_drm_queue_close: abort what is pending on the CRTCs of a screen. The abort
        procedures run while a server is closing down make no further queue calls. */
    method QueueClose(crtcs: set<nat>)
      requires Inv(State())
      modifies this`pending, this`log
      ensures Kept(old(State()), State())
      ensures forall e :: e in pending <==> e in old(pending) && e.crtc !in crtcs
      ensures forall e :: e in old(pending) && e.crtc in crtcs ==> Call(e, true, Level(State(), e.crtc)) in log
    {
      hide Apply, Inv, Run, Reaches;
      ghost var before := State();
      ReachesSelf(before);
      var i := 0;
      while i < |pending|
        invariant i <= |pending| && Kept(before, State()) && Inv(State())
        invariant forall e :: e in pending ==> e in old(pending)
        invariant forall e :: e in old(pending) && e.crtc !in crtcs ==> e in pending
        invariant forall k :: 0 <= k < i ==> pending[k].crtc !in crtcs
        invariant forall e :: e in old(pending) && e !in pending ==> Call(e, true, Level(State(), e.crtc)) in log
        decreases |pending| - i
      {
        var e := pending[i];
        if e.crtc in crtcs {
          ghost var here := State();
          ReachesOne(here, AbortEntry(e.seqNo));
          InvKept(here, AbortEntry(e.seqNo));
          AbortPending(here, i);
          KeepsOthers(pending, i);
          AbortKept(here, e.seqNo);
          pending := Without(pending, i);
          log := log + [Call(e, true, NestingLevel(e.crtc))];
          KeptTrans(before, here, State());
        } else {
          i := i + 1;
        }
      }
    }

    /** amdgpu_drm_handle_event: read events, then run all signalled flips and vblanks. */
    method HandleEvent(batch: Batch) returns (ok: bool)
      modifies this
      ensures Kept(old(State()), State()) && flipSignalled == [] && vblankSignalled == []
      ensures HandlesBatch(old(State()), batch.events, State()) && Delivered(old(State()), batch.events, State())
      ensures |scripts| <= old(|scripts|) && ok == batch.ok
      decreases |scripts|, 4
    {
      hide Times, Repeats, Delivered;
      ghost var before := State();
      ReadAll(batch.events);
      ghost var read := State();
      RepeatsSelf(HandleFlip, read);
      while flipSignalled != []
        invariant |scripts| <= old(|scripts|)
        invariant Reaches(before, State()) && SameLevels(before, State())
        invariant Delivered(before, batch.events, State()) && Repeats(HandleFlip, read, State())
        decreases |scripts|, |flipSignalled|
      {
        ghost var here := State();
        HandleFirstFlip();
        ReachesTrans(before, here, State());
        DeliveredThen(before, batch.events, here, State());
        RepeatsMore(HandleFlip, read, here, State());
      }
      ghost var here := State();
      HandleVblankSignalled();
      ReachesTrans(before, here, State());
      DeliveredThen(before, batch.events, here, State());
      ok := batch.ok;
    }

    /** drmHandleEvent: hand each event read to the queue. */
    method ReadAll(events: seq<Event>)
      modifies this
      ensures Reaches(old(State()), State()) && SameLevels(old(State()), State())
      ensures Delivered(old(State()), events, State())
      ensures |scripts| <= old(|scripts|)
      decreases |scripts|, 3
    {
      hide Apply, Run;
      ghost var before := State();
      ReachesSelf(before);
      var i := 0;
      while i < |events|
        invariant i <= |events| && |scripts| <= old(|scripts|)
        invariant Reaches(before, State()) && SameLevels(before, State())
        invariant Delivered(before, events[..i], State())
      {
        ghost var here := State();
        QueueHandler(events[i]);
        ReachesStep(before, here, ToOp(events[i]));
        ReachesTrans(before, Apply(here, ToOp(events[i])), State());
        DeliveredOneMore(before, events[..i], here, events[i], State());
        assert events[..i + 1] == events[..i] + [events[i]];
        i := i + 1;
      }
      assert events[..i] == events;
    }

    /** Handle the first signalled flip. */
    method HandleFirstFlip()
      requires flipSignalled != []
      modifies this
      ensures Kept(old(State()), State()) && Kept(Apply(old(State()), HandleFlip), State())
      ensures |scripts| <= old(|scripts|)
      ensures |scripts| == old(|scripts|) ==> |flipSignalled| < old(|flipSignalled|)
      decreases |scripts|, 2
    {
      ghost var before := State();
      ReachesOne(before, HandleFlip);
      var e := flipSignalled[0];
      flipSignalled := flipSignalled[1..];
      CallOut(e, !e.handler, before, HandleFlip);
    }

    /** amdgpu_drm_wait_pending_flip: open a wait level, then run flips until none is pending
        for the CRTC or reading events fails. */
    method WaitPendingFlip(crtc: nat, batches: seq<Batch>)
      modifies this
      ensures Opened(old(State()), State(), crtc) && Reaches(Apply(old(State()), OpenWait(crtc)), State())
      ensures FlipWait(Apply(old(State()), OpenWait(crtc)), batches, State(), crtc in flipPending)
      ensures crtc !in old(flipPending) ==> Now() == old(Now()).(q := Apply(old(State()), OpenWait(crtc)))
      ensures crtc !in flipPending || flipSignalled == []
      ensures |scripts| <= old(|scripts|)
      decreases |scripts|, 5
    {
      hide Times, Repeats, HandlesBatch, HandlesBatches, DoesAll;
      ghost var before := State();
      nesting := nesting[crtc := NestingLevel(crtc) + 1];
      ghost var waiting := State();
      assert waiting == Apply(before, OpenWait(crtc));
      ReachesOne(before, OpenWait(crtc));
      KeptSelf(waiting);
      RepeatsSelf(HandleFlip, waiting);
      while crtc in flipPending && flipSignalled != []
        invariant Kept(waiting, State()) && Repeats(HandleFlip, waiting, State()) && |scripts| <= old(|scripts|)
        invariant crtc !in old(flipPending) ==> flipPending == old(flipPending) && State() == waiting
        decreases |scripts|, |flipSignalled|
      {
        ghost var here := State();
        HandleFirstFlip();
        KeptTrans(waiting, here, State());
        RepeatsMore(HandleFlip, waiting, here, State());
      }
      ghost var drained, seen: seq<Batch> := State(), [];
      HandlesNone(drained);
      var i := 0;
      var more := true;
      while crtc in flipPending && more
        invariant Kept(waiting, State()) && |scripts| <= old(|scripts|) && i <= |batches|
        invariant crtc !in flipPending || flipSignalled == []
        invariant crtc !in old(flipPending) ==> flipPending == old(flipPending) && State() == waiting
        invariant HandlesBatches(drained, seen, State()) && ReadOf(batches, seen)
        invariant if seen == [] then more && State() == drained else drained.flips == [] && more == seen[|seen| - 1].ok
        invariant more ==> seen == batches[..i]
        decreases if more then 1 else 0, |batches| - i
      {
        ghost var here := State();
        var batch := if i < |batches| then batches[i] else Batch([], false);
        more := HandleEvent(batch);
        HandlesMore(drained, seen, here, batch, State());
        ReadMore(batches, i, batch);
        seen := seen + [batch];
        i := if i < |batches| then i + 1 else i;
        KeptTrans(waiting, here, State());
      }
      OpenedKept(before, waiting, State(), crtc);
    }

    /** One driver call, as a callback or the server makes it. */
    method RunCall(call: DriverCall)
      modifies this
      ensures Kept(old(State()), State()) && |scripts| <= old(|scripts|)
      ensures Does(old(Now()), call, Now())
      decreases |scripts|, 10, call
    {
      hide Times, Repeats, HandlesBatch, FlipWait, DoesAll, Closes;
      ghost var before := State();
      KeptSelf(before);
      match call {
        case RequestEvent(op) =>
          if op.Alloc? {
            var n := QueueAlloc(op, true);
          }
        case SetFlipPending(crtc, on) =>
          flipPending := if on then flipPending + {crtc} else flipPending - {crtc};
        case AbandonClient(client) => DrmAbortClient(client);
        case AbandonEntry(n) => DrmAbortEntry(n);
        case AbandonId(id) => DrmAbortId(id);
        case ReadEvents(batch) => var ok := HandleEvent(batch);
        case EmulateVblank(crtc, event) => EmulateEvent(crtc, event);
        case Bracket(crtc, batches, body) =>
          WaitPendingFlip(crtc, batches);
          ghost var waited := Now();
          RunCalls(body);
          ghost var worked := Now();
          OpenedKept(before, waited.q, worked.q, crtc);
          HandleDeferred(crtc);
          BracketKept(before, worked.q, State(), crtc);
      }
    }

    /** Deliver a vblank that the kernel will not: signal the entry, then open and close a
        wait level so that it is handled now unless an outer wait is open. The driver does
        this only for entries allocated as vblank waits. */
    method EmulateEvent(crtc: nat, event: Event)
      modifies this
      ensures Kept(old(State()), State()) && |scripts| <= old(|scripts|)
      ensures if FlipNumbered(old(pending), event.seqNo) then Now() == old(Now())
              else Emulates(old(State()), crtc, event, State())
      ensures Inv(old(State())) && Level(old(State()), crtc) == 0
              && (exists e :: e in old(pending) && e.seqNo == event.seqNo && e.crtc == crtc && !e.isFlip)
              ==> Calls(State(), event.seqNo) == 1
      decreases |scripts|, 6
    {
      hide Closes;
      ghost var before := State();
      KeptSelf(before);
      if FlipNumbered(pending, event.seqNo) {
        if Inv(before) {
          FlipNumberedOnly(before, event.seqNo);
        }
        return;
      }
      ghost var sent := Apply(before, ToOp(event));
      QueueHandler(event);
      ghost var signalled := State();
      ReachesOne(before, ToOp(event));
      ReachesTrans(before, sent, signalled);
      nesting := nesting[crtc := NestingLevel(crtc) + 1];
      ghost var waiting := State();
      assert waiting == Apply(signalled, OpenWait(crtc));
      ReachesOne(signalled, OpenWait(crtc));
      ReachesTrans(before, signalled, waiting);
      assert Opened(before, waiting, crtc);
      HandleDeferred(crtc);
      BracketKept(before, waiting, State(), crtc);
      ReachesTrans(sent, signalled, waiting);
      ReachesTrans(sent, waiting, State());
      if Inv(before) && Level(before, crtc) == 0
         && exists e :: e in before.pending && e.seqNo == event.seqNo && e.crtc == crtc && !e.isFlip {
        ghost var e :| e in before.pending && e.seqNo == event.seqNo && e.crtc == crtc && !e.isFlip;
        assert Level(waiting, crtc) == 1;
        DeliveredNow(before, State(), event, e);
      }
    }

    /** Any sequence of driver calls. */
    method RunCalls(calls: seq<DriverCall>)
      modifies this
      ensures Kept(old(State()), State()) && |scripts| <= old(|scripts|)
      ensures DoesAll(old(Now()), calls, Now())
      decreases |scripts|, 10, calls
    {
      hide Does;
      ghost var before := State();
      KeptSelf(before);
      var i := 0;
      while i < |calls|
        invariant i <= |calls| && Kept(before, State()) && |scripts| <= old(|scripts|)
        invariant DoesAll(old(Now()), calls[..i], Now())
      {
        ghost var here := Now();
        RunCall(calls[i]);
        KeptTrans(before, here.q, State());
        DoesMore(old(Now()), calls[..i], here, calls[i], Now());
        assert calls[..i + 1] == calls[..i] + [calls[i]];
        i := i + 1;
      }
      assert calls[..i] == calls;
    }
  }

  lemma ReadMore(batches: seq<Batch>, i: nat, batch: Batch)
    requires i <= |batches| && batch == if i < |batches| then batches[i] else Batch([], false)
    requires ReadOf(batches, batches[..i]) && (i > 0 ==> batches[i - 1].ok)
    ensures ReadOf(batches, batches[..i] + [batch])
    ensures i < |batches| ==> batches[..i] + [batch] == batches[..i + 1]
  {
    if i == |batches| {
      assert batches[..i] == batches;
    }
  }

  /** A whole session from the initial state, with any callbacks and any kernel replies: at
      the end every level is zero, nothing is signalled or deferred, and every entry issued
      is still pending or was called back exactly once. */
  method Session(calls: seq<DriverCall>, scripts: seq<seq<DriverCall>>) returns (q: DrmQueue)
    ensures fresh(q)
    ensures DoesAll(Snap(EMPTY_QUEUE, {}), calls, q.Now())
    ensures Quiet(q.State()) && q.flipSignalled == [] && q.vblankSignalled == [] && q.vblankDeferred == []
    ensures forall s :: 1 <= s < NextSeqNo(q.State()) ==> Count(q.pending, s) + Calls(q.State(), s) == 1
  {
    q := new DrmQueue(scripts);
    q.RunCalls(calls);
    ghost var end := q.State();
    NothingStranded(EMPTY_QUEUE, end);
    ReachesInv(EMPTY_QUEUE, end);
    forall s | 1 <= s < NextSeqNo(end) ensures Count(q.pending, s) + Calls(end, s) == 1 {
      assert CensusAt(end, s);
    }
  }
}
