/**
 What holds over every run of the event queue: each issued entry is called back exactly
 once, deferral is safe, and aborting a client is final.
 */
module QueueSafety {
  import opened QueueModel

  // ----- Counting sequence numbers -----

  lemma {:induction false} CountAppend(a: seq<Entry>, b: seq<Entry>, s: nat)
    ensures Count(a + b, s) == Count(a, s) + Count(b, s)
  {
    if b == [] {
      assert a + b == a;
    } else {
      CountAppend(a, b[..|b| - 1], s);
      assert (a + b)[..|a + b| - 1] == a + b[..|b| - 1];
    }
  }

  lemma CountSnoc(l: seq<Entry>, e: Entry, s: nat)
    ensures Count(l + [e], s) == Count(l, s) + (if e.seqNo == s then 1 else 0)
  {
    assert (l + [e])[..|l|] == l;
  }

  lemma CountWithout(l: seq<Entry>, i: nat, s: nat)
    requires i < |l|
    ensures Count(l, s) == Count(Without(l, i), s) + (if l[i].seqNo == s then 1 else 0)
  {
    assert l == (l[..i] + [l[i]]) + l[i + 1..];
    CountAppend(l[..i] + [l[i]], l[i + 1..], s);
    CountSnoc(l[..i], l[i], s);
    CountAppend(l[..i], l[i + 1..], s);
  }

  lemma {:induction false} CountClear(l: seq<Entry>, client: nat, s: nat)
    ensures Count(ClearHandlers(l, client), s) == Count(l, s)
  {
    if l != [] {
      CountClear(l[..|l| - 1], client, s);
      assert ClearHandlers(l, client)[..|l| - 1] == ClearHandlers(l[..|l| - 1], client);
    }
  }

  lemma {:induction false} CountSplit(l: seq<Entry>, crtc: nat, s: nat)
    ensures Count(OfCrtc(l, crtc), s) + Count(NotOfCrtc(l, crtc), s) == Count(l, s)
  {
    if l != [] {
      var front, last := l[..|l| - 1], l[|l| - 1];
      CountSplit(front, crtc, s);
      if last.crtc == crtc {
        CountSnoc(OfCrtc(front, crtc), last, s);
      } else {
        CountSnoc(NotOfCrtc(front, crtc), last, s);
      }
      assert OfCrtc(front, crtc) + [] == OfCrtc(front, crtc);
      assert NotOfCrtc(front, crtc) + [] == NotOfCrtc(front, crtc);
    }
  }

  lemma {:induction false} CountMember(l: seq<Entry>, s: nat)
    ensures Count(l, s) > 0 <==> exists e :: e in l && e.seqNo == s
  {
    if l != [] {
      var front, last := l[..|l| - 1], l[|l| - 1];
      CountMember(front, s);
      assert l == front + [last];
      if Count(l, s) > 0 {
        if last.seqNo == s {
          assert last in l;
        } else {
          var e :| e in front && e.seqNo == s;
          assert e in l;
        }
      }
    }
  }

  lemma {:induction false} CallsMember(log: seq<Call>, s: nat)
    ensures CountCalls(log, s) > 0 <==> exists c :: c in log && c.entry.seqNo == s
  {
    if log != [] {
      var front, last := log[..|log| - 1], log[|log| - 1];
      CallsMember(front, s);
      assert log == front + [last];
      if CountCalls(log, s) > 0 {
        if last.entry.seqNo == s {
          assert last in log;
        } else {
          var c :| c in front && c.entry.seqNo == s;
          assert c in log;
        }
      }
    }
  }

  // ----- Splitting the deferred list by CRTC -----

  lemma {:induction false} SplitMembers(l: seq<Entry>, crtc: nat, e: Entry)
    ensures e in OfCrtc(l, crtc) <==> e in l && e.crtc == crtc
    ensures e in NotOfCrtc(l, crtc) <==> e in l && e.crtc != crtc
  {
    if l != [] {
      SplitMembers(l[..|l| - 1], crtc, e);
      assert l == l[..|l| - 1] + [l[|l| - 1]];
    }
  }

  /** Position of entry i of `l` among the entries of the CRTC. */
  function Rank(l: seq<Entry>, crtc: nat, i: nat): nat
    requires i <= |l|
  {
    |OfCrtc(l[..i], crtc)|
  }

  lemma {:induction false} OfCrtcAppend(a: seq<Entry>, b: seq<Entry>, crtc: nat)
    ensures OfCrtc(a + b, crtc) == OfCrtc(a, crtc) + OfCrtc(b, crtc)
  {
    if b == [] {
      assert a + b == a;
    } else {
      var bf := b[..|b| - 1];
      OfCrtcAppend(a, bf, crtc);
      assert (a + b)[..|a + b| - 1] == a + bf;
    }
  }

  /** Closing the last wait level puts back all and only that CRTC's deferred entries after
      the entries already signalled, and keeps the others and all other levels as they were. */
  lemma CloseWaitRestores(q: Queue, crtc: nat)
    requires Level(q, crtc) == 1
    ensures var q' := Apply(q, CloseWait(crtc));
            && |q'.vblanks| >= |q.vblanks| && q'.vblanks[..|q.vblanks|] == q.vblanks
            && (forall e :: e in q'.vblanks[|q.vblanks|..] <==> e in q.deferred && e.crtc == crtc)
            && (forall e :: e in q'.deferred <==> e in q.deferred && e.crtc != crtc)
            && (forall s :: Places(q', s) == Places(q, s))
            && (forall c :: Level(q', c) == if c == crtc then 0 else Level(q, c))
  {
    var l := q.deferred;
    var q' := Apply(q, CloseWait(crtc));
    assert q'.vblanks[|q.vblanks|..] == OfCrtc(l, crtc);
    forall e ensures e in OfCrtc(l, crtc) <==> e in l && e.crtc == crtc
      ensures e in NotOfCrtc(l, crtc) <==> e in l && e.crtc != crtc
    {
      SplitMembers(l, crtc, e);
    }
    forall s ensures Places(q', s) == Places(q, s) {
      CountSplit(l, crtc, s);
      CountAppend(q.vblanks, OfCrtc(l, crtc), s);
    }
  }

  /** The entries put back keep their order. */
  lemma CloseWaitOrder(q: Queue, crtc: nat, i: nat, j: nat)
    requires Level(q, crtc) == 1
    requires i < j < |q.deferred| && q.deferred[i].crtc == crtc && q.deferred[j].crtc == crtc
    ensures var q' := Apply(q, CloseWait(crtc));
            var ri, rj := |q.vblanks| + Rank(q.deferred, crtc, i), |q.vblanks| + Rank(q.deferred, crtc, j);
            ri < rj < |q'.vblanks| && q'.vblanks[ri] == q.deferred[i] && q'.vblanks[rj] == q.deferred[j]
  {
    RankAt(q.deferred, crtc, i);
    RankAt(q.deferred, crtc, j);
    RankBefore(q.deferred, crtc, i, j);
  }

  lemma RankAt(l: seq<Entry>, crtc: nat, i: nat)
    requires i < |l| && l[i].crtc == crtc
    ensures Rank(l, crtc, i) < |OfCrtc(l, crtc)| && OfCrtc(l, crtc)[Rank(l, crtc, i)] == l[i]
  {
    assert l == l[..i + 1] + l[i + 1..];
    OfCrtcAppend(l[..i + 1], l[i + 1..], crtc);
    assert l[..i + 1][..i] == l[..i];
  }

  lemma RankBefore(l: seq<Entry>, crtc: nat, i: nat, j: nat)
    requires i < j <= |l| && l[i].crtc == crtc
    ensures Rank(l, crtc, i) < Rank(l, crtc, j)
  {
    var p := l[..j];
    RankAt(p, crtc, i);
    assert p[..i] == l[..i];
  }

  // ----- The invariant, part by part -----

  /** Moving one entry out of a list into the log keeps the census. */
  lemma CountLogged(q: Queue, l: seq<Entry>, i: nat, aborted: bool, s: nat)
    requires i < |l|
    ensures Count(l, s) + Calls(q, s) == Count(Without(l, i), s) + CountCalls(Ran(q, l[i], aborted), s)
  {
    CountWithout(l, i, s);
    assert Ran(q, l[i], aborted)[..|q.log|] == q.log;
  }

  lemma CensusSignal(q: Queue, n: nat, frame: nat, sec: nat, usec: nat, s: nat)
    requires CensusAt(q, s)
    ensures CensusAt(DoSignal(q, n, frame, sec, usec), s)
  {
    var i := IndexOf(q.pending, n);
    if i < |q.pending| {
      var e := q.pending[i];
      CountLogged(q, q.pending, i, true, s);
      CountWithout(q.pending, i, s);
      var e' := e.(usec := sec * 1000000 + usec, frame := frame);
      CountSnoc(q.flips, e', s);
      CountSnoc(q.vblanks, e', s);
    }
  }

  lemma CensusHandleFlip(q: Queue, s: nat)
    requires CensusAt(q, s)
    ensures CensusAt(DoHandleFlip(q), s)
  {
    if q.flips != [] {
      assert Without(q.flips, 0) == q.flips[1..];
      CountLogged(q, q.flips, 0, !q.flips[0].handler, s);
    }
  }

  lemma CensusHandleVblank(q: Queue, s: nat)
    requires CensusAt(q, s)
    ensures CensusAt(DoHandleVblank(q), s)
  {
    if q.vblanks != [] {
      var e := q.vblanks[0];
      assert Without(q.vblanks, 0) == q.vblanks[1..];
      if Level(q, e.crtc) == 0 {
        CountLogged(q, q.vblanks, 0, !e.handler, s);
      } else {
        CountSnoc(q.deferred, e, s);
        CountWithout(q.vblanks, 0, s);
      }
    }
  }

  lemma CensusCloseWait(q: Queue, crtc: nat, s: nat)
    requires CensusAt(q, s)
    ensures CensusAt(DoCloseWait(q, crtc), s)
  {
    hide OfCrtc, NotOfCrtc, Count, CountCalls;
    CountSplit(q.deferred, crtc, s);
    CountAppend(q.vblanks, OfCrtc(q.deferred, crtc), s);
  }

  lemma CensusAlloc(q: Queue, op: Op, s: nat)
    requires CensusAt(q, s) && NextSeqNo(q) == |q.issued| + 1 && op.Alloc?
    ensures CensusAt(DoAlloc(q, op), s)
  {
    CountSnoc(q.pending, DoAlloc(q, op).pending[|q.pending|], s);
  }

  lemma CensusAbort(q: Queue, n: nat, s: nat)
    requires CensusAt(q, s)
    ensures CensusAt(DoAbortEntry(q, n), s) && CensusAt(DoAbortId(q, n), s)
  {
    var v, d, p, k := IndexOf(q.vblanks, n), IndexOf(q.deferred, n), IndexOf(q.pending, n), IndexOfId(q.pending, n);
    if v < |q.vblanks| { CountLogged(q, q.vblanks, v, true, s); }
    if d < |q.deferred| { CountLogged(q, q.deferred, d, true, s); }
    if p < |q.pending| { CountLogged(q, q.pending, p, true, s); }
    if k < |q.pending| { CountLogged(q, q.pending, k, true, s); }
  }

  lemma CensusKept(q: Queue, op: Op, s: nat)
    requires CensusAt(q, s) && NextSeqNo(q) == |q.issued| + 1
    ensures CensusAt(Apply(q, op), s)
  {
    match op
    case Alloc(_, _, _, _, _, _, _) => CensusAlloc(q, op, s);
    case Signal(n, frame, sec, usec) => CensusSignal(q, n, frame, sec, usec, s);
    case HandleFlip => CensusHandleFlip(q, s);
    case HandleVblank => CensusHandleVblank(q, s);
    case OpenWait(_) =>
    case CloseWait(crtc) => CensusCloseWait(q, crtc, s);
    case AbortClient(client) => CountClear(q.pending, client, s);
    case AbortEntry(n) => CensusAbort(q, n, s);
    case AbortId(id) => CensusAbort(q, id, s);
  }

  lemma CloseWaitMembers(q: Queue, crtc: nat, e: Entry)
    ensures var q' := DoCloseWait(q, crtc);
            && (e in q'.vblanks <==> e in q.vblanks || (Level(q, crtc) == 1 && e in q.deferred && e.crtc == crtc))
            && (e in q'.deferred <==> e in q.deferred && !(Level(q, crtc) == 1 && e.crtc == crtc))
  {
    SplitMembers(q.deferred, crtc, e);
  }

  lemma FaithfulSignal(q: Queue, n: nat, frame: nat, sec: nat, usec: nat)
    requires Faithful(q)
    ensures Faithful(DoSignal(q, n, frame, sec, usec))
  {
    var i := IndexOf(q.pending, n);
    if i < |q.pending| {
      assert Known(q.issued, q.pending[i]);
      assert Known(q.issued, q.pending[i].(usec := sec * 1000000 + usec, frame := frame));
    }
  }

  lemma FaithfulHandle(q: Queue)
    requires Faithful(q)
    ensures Faithful(DoHandleFlip(q)) && Faithful(DoHandleVblank(q))
  {
    if q.flips != [] { assert Known(q.issued, q.flips[0]); }
    if q.vblanks != [] { assert Known(q.issued, q.vblanks[0]); }
  }

  lemma FaithfulAbort(q: Queue, n: nat)
    requires Faithful(q)
    ensures Faithful(DoAbortEntry(q, n)) && Faithful(DoAbortId(q, n))
  {
    forall e | e in q.vblanks || e in q.deferred || e in q.pending ensures Known(q.issued, e) {
    }
  }

  lemma FaithfulCloseWait(q: Queue, crtc: nat)
    requires Faithful(q)
    ensures Faithful(DoCloseWait(q, crtc))
  {
    var q' := DoCloseWait(q, crtc);
    forall e | e in q'.vblanks || e in q'.deferred ensures Known(q.issued, e) {
      CloseWaitMembers(q, crtc, e);
    }
  }

  lemma FaithfulAlloc(q: Queue, op: Op)
    requires Faithful(q) && op.Alloc?
    ensures Faithful(DoAlloc(q, op))
  {
    var q' := DoAlloc(q, op);
    forall e | Known(q.issued, e) ensures Known(q'.issued, e) {
    }
    assert Known(q'.issued, q'.pending[|q.pending|]);
  }

  lemma FaithfulAbortClient(q: Queue, client: nat)
    requires Faithful(q)
    ensures Faithful(Apply(q, AbortClient(client)))
  {
    var q' := Apply(q, AbortClient(client));
    forall e | e in q'.pending ensures Known(q.issued, e) {
      var i :| 0 <= i < |q'.pending| && q'.pending[i] == e;
      assert Known(q.issued, q.pending[i]);
    }
  }

  lemma FaithfulKept(q: Queue, op: Op)
    requires Faithful(q)
    ensures Faithful(Apply(q, op))
  {
    match op
    case Alloc(_, _, _, _, _, _, _) => FaithfulAlloc(q, op);
    case Signal(n, frame, sec, usec) => FaithfulSignal(q, n, frame, sec, usec);
    case HandleFlip => FaithfulHandle(q);
    case HandleVblank => FaithfulHandle(q);
    case OpenWait(_) =>
    case CloseWait(crtc) => FaithfulCloseWait(q, crtc);
    case AbortClient(client) => FaithfulAbortClient(q, client);
    case AbortEntry(n) => FaithfulAbort(q, n);
    case AbortId(id) => FaithfulAbort(q, id);
  }

  lemma KindsKept(q: Queue, op: Op)
    requires Kinds(q)
    ensures Kinds(Apply(q, op))
  {
    var q' := Apply(q, op);
    if op.CloseWait? {
      forall e | e in q'.vblanks || e in q'.deferred ensures e in q.vblanks || e in q.deferred {
        CloseWaitMembers(q, op.crtc, e);
      }
    }
  }

  lemma DeferralKept(q: Queue, op: Op)
    requires Deferral(q) && Kinds(q)
    ensures Deferral(Apply(q, op))
  {
    hide OfCrtc, NotOfCrtc, ClearHandlers, Ident, IndexOf;
    var q' := Apply(q, op);
    if op.CloseWait? {
      forall e | e in q'.deferred ensures Level(q', e.crtc) > 0 {
        CloseWaitMembers(q, op.crtc, e);
      }
    }
  }

  lemma InvKept(q: Queue, op: Op)
    requires Inv(q)
    ensures Inv(Apply(q, op))
  {
    forall s ensures CensusAt(Apply(q, op), s) {
      CensusKept(q, op, s);
    }
    FaithfulKept(q, op);
    KindsKept(q, op);
    DeferralKept(q, op);
  }

  lemma {:induction false} InvRun(q: Queue, ops: seq<Op>)
    requires Inv(q)
    ensures Inv(Run(q, ops))
    decreases |ops|
  {
    if ops != [] {
      InvKept(q, ops[0]);
      InvRun(Apply(q, ops[0]), ops[1..]);
    }
  }

  lemma {:induction false} RunAppend(q: Queue, a: seq<Op>, b: seq<Op>)
    ensures Run(q, a + b) == Run(Run(q, a), b)
    decreases |a|
  {
    if a == [] {
      assert a + b == b;
    } else {
      assert (a + b)[0] == a[0] && (a + b)[1..] == a[1..] + b;
      RunAppend(Apply(q, a[0]), a[1..], b);
    }
  }

  // ----- Exactly once -----

  ghost predicate Reachable(q: Queue) {
    exists ops :: q == Run(EMPTY_QUEUE, ops)
  }

  lemma ReachableInv(q: Queue)
    requires Reachable(q)
    ensures Inv(q)
  {
    var ops :| q == Run(EMPTY_QUEUE, ops);
    InvRun(EMPTY_QUEUE, ops);
  }

  /** In every reachable state each issued number is in exactly one list and was never
      called back, or in none and was called back exactly once. Nothing else is anywhere. */
  lemma ExactlyOnce(q: Queue, s: nat)
    requires Reachable(q)
    ensures 1 <= s < NextSeqNo(q) ==>
              || (Places(q, s) == 1 && Calls(q, s) == 0)
              || (Places(q, s) == 0 && Calls(q, s) == 1)
    ensures s == 0 || NextSeqNo(q) <= s ==> Places(q, s) == 0 && Calls(q, s) == 0
  {
    ReachableInv(q);
    assert CensusAt(q, s);
  }

  lemma LogGrows(q: Queue, op: Op, s: nat)
    ensures Calls(Apply(q, op), s) >= Calls(q, s)
    ensures q.log <= Apply(q, op).log && |Apply(q, op).log| <= |q.log| + 1
  {
    LogStep(q, op);
    hide Apply;
    var q' := Apply(q, op);
    if q'.log != q.log {
      assert q'.log[..|q.log|] == q.log;
    }
  }

  lemma LogStep(q: Queue, op: Op)
    ensures q.log <= Apply(q, op).log && |Apply(q, op).log| <= |q.log| + 1
  {
    hide Without, OfCrtc, NotOfCrtc, ClearHandlers, Level, IndexOf, IndexOfId, Ident;
  }

  lemma {:induction false} LogGrowsRun(q: Queue, ops: seq<Op>, s: nat)
    ensures Calls(Run(q, ops), s) >= Calls(q, s)
    ensures q.log <= Run(q, ops).log
    decreases |ops|
  {
    if ops != [] {
      LogGrows(q, ops[0], s);
      LogGrowsRun(Apply(q, ops[0]), ops[1..], s);
    }
  }

  lemma NowhereUntouched(q: Queue, s: nat, frame: nat, sec: nat, usec: nat)
    requires Places(q, s) == 0
    ensures Apply(q, Signal(s, frame, sec, usec)) == q
    ensures Apply(q, AbortEntry(s)) == q
  {
    CountMember(q.pending, s);
    CountMember(q.vblanks, s);
    CountMember(q.deferred, s);
  }

  /** Once an entry was called back, no event, no abort and no further run reaches it again. */
  lemma LateEventIgnored(q: Queue, s: nat, ops: seq<Op>, frame: nat, sec: nat, usec: nat)
    requires Inv(q) && Calls(q, s) == 1
    ensures var r := Run(q, ops);
            && Places(r, s) == 0 && Calls(r, s) == 1
            && Apply(r, Signal(s, frame, sec, usec)) == r
            && Apply(r, AbortEntry(s)) == r
  {
    var r := Run(q, ops);
    InvRun(q, ops);
    LogGrowsRun(q, ops, s);
    assert CensusAt(r, s);
    NowhereUntouched(r, s, frame, sec, usec);
  }

  // ----- Deferral -----

  /** No vblank handler runs while its CRTC has an open wait, over every run. */
  lemma DeferralSafety(q: Queue, e: Entry, c: Call)
    requires Reachable(q)
    ensures e in q.deferred ==> Level(q, e.crtc) > 0
    ensures c in q.log && !c.aborted && !c.entry.isFlip ==> c.level == 0
    ensures e in q.vblanks || e in q.deferred || e in q.flips ==> e.handler
  {
    ReachableInv(q);
  }

  // ----- Client abort -----

  /** The fate of one number after its client went away. */
  ghost predicate Doomed(q: Queue, s: nat) {
    && (forall e :: e in q.pending && e.seqNo == s ==> !e.handler)
    && (forall e :: e in q.flips || e in q.vblanks || e in q.deferred ==> e.seqNo != s)
    && (forall c :: c in q.log && c.entry.seqNo == s ==> c.aborted)
    && s < NextSeqNo(q)
  }

  lemma DoomedSignal(q: Queue, n: nat, frame: nat, sec: nat, usec: nat, s: nat)
    requires Doomed(q, s)
    ensures Doomed(DoSignal(q, n, frame, sec, usec), s)
  {
    var i := IndexOf(q.pending, n);
    if i < |q.pending| {
      assert q.pending[i] in q.pending;
    }
  }

  lemma DoomedClose(q: Queue, crtc: nat, s: nat)
    requires Doomed(q, s)
    ensures Doomed(DoCloseWait(q, crtc), s)
  {
    var q' := DoCloseWait(q, crtc);
    forall e | e in q'.vblanks || e in q'.deferred ensures e.seqNo != s {
      CloseWaitMembers(q, crtc, e);
    }
  }

  lemma DoomedClient(q: Queue, client: nat, s: nat)
    requires Doomed(q, s)
    ensures Doomed(q.(pending := ClearHandlers(q.pending, client)), s)
  {
    var l := ClearHandlers(q.pending, client);
    forall e | e in l && e.seqNo == s ensures !e.handler {
      var i :| 0 <= i < |l| && l[i] == e;
      assert q.pending[i] in q.pending;
    }
  }

  lemma DoomedAbort(q: Queue, n: nat, s: nat)
    requires Doomed(q, s)
    ensures Doomed(DoAbortEntry(q, n), s) && Doomed(DoAbortId(q, n), s)
  {
  }

  lemma DoomedKept(q: Queue, op: Op, s: nat)
    requires Doomed(q, s)
    ensures Doomed(Apply(q, op), s)
  {
    hide DoCloseWait, DoSignal, DoAbortEntry, DoAbortId, ClearHandlers;
    match op
    case CloseWait(crtc) => DoomedClose(q, crtc, s);
    case AbortClient(client) => DoomedClient(q, client, s);
    case Signal(n, frame, sec, usec) => DoomedSignal(q, n, frame, sec, usec, s);
    case AbortEntry(n) => DoomedAbort(q, n, s);
    case AbortId(id) => DoomedAbort(q, id, s);
    case _ =>
  }

  lemma {:induction false} DoomedRun(q: Queue, ops: seq<Op>, s: nat)
    requires Doomed(q, s)
    ensures Doomed(Run(q, ops), s)
    decreases |ops|
  {
    if ops != [] {
      DoomedKept(q, ops[0], s);
      DoomedRun(Apply(q, ops[0]), ops[1..], s);
    }
  }

  /** After aborting a client, in every continuation each entry that was pending for it is
      still waiting without a handler or was aborted exactly once; its handler never runs.
      Entries of other clients, the other lists and the log are unchanged by the abort. */
  lemma ClientAbortFinal(q: Queue, client: nat, e: Entry, ops: seq<Op>)
    requires Inv(q) && e in q.pending
    ensures var a := Apply(q, AbortClient(client));
            && |a.pending| == |q.pending|
            && (forall i :: 0 <= i < |q.pending| && q.pending[i].client != client ==> a.pending[i] == q.pending[i])
            && a == q.(pending := a.pending)
    ensures e.client == client ==>
              var r := Run(Apply(q, AbortClient(client)), ops);
              && Count(r.pending, e.seqNo) + Calls(r, e.seqNo) == 1
              && (forall c :: c in r.log && c.entry.seqNo == e.seqNo ==> c.aborted)
              && (forall x :: x in r.pending && x.seqNo == e.seqNo ==> !x.handler)
  {
    if e.client == client {
      var a := Apply(q, AbortClient(client));
      InvKept(q, AbortClient(client));
      ClientDoomed(q, client, e);
      DoomedRun(a, ops, e.seqNo);
      InvRun(a, ops);
      var r := Run(a, ops);
      assert CensusAt(r, e.seqNo);
      CountMember(r.flips, e.seqNo);
      CountMember(r.vblanks, e.seqNo);
      CountMember(r.deferred, e.seqNo);
    }
  }

  lemma ClientDoomed(q: Queue, client: nat, e: Entry)
    requires Inv(q) && e in q.pending && e.client == client
    ensures Doomed(Apply(q, AbortClient(client)), e.seqNo) && e.seqNo >= 1
  {
    var a := Apply(q, AbortClient(client));
    PendingOnly(q, e);
    forall x | x in a.pending && x.seqNo == e.seqNo ensures !x.handler {
      var i :| 0 <= i < |a.pending| && a.pending[i] == x;
      assert Known(q.issued, q.pending[i]) && Known(q.issued, e);
    }
  }

  /** A pending entry's number is in no other list and was not called back. */
  lemma PendingOnly(q: Queue, e: Entry)
    requires Inv(q) && e in q.pending
    ensures forall x :: x in q.flips || x in q.vblanks || x in q.deferred ==> x.seqNo != e.seqNo
    ensures forall c :: c in q.log ==> c.entry.seqNo != e.seqNo
    ensures 1 <= e.seqNo < NextSeqNo(q)
  {
    var s := e.seqNo;
    assert Known(q.issued, e);
    assert CensusAt(q, s);
    CountMember(q.pending, s);
    CountMember(q.flips, s);
    CountMember(q.vblanks, s);
    CountMember(q.deferred, s);
    CallsMember(q.log, s);
  }

  /** Aborting a pending entry by its number takes exactly that entry. */
  lemma AbortPending(q: Queue, i: nat)
    requires Inv(q) && i < |q.pending|
    ensures Apply(q, AbortEntry(q.pending[i].seqNo)) == q.(pending := Without(q.pending, i),
            log := Ran(q, q.pending[i], true))
  {
    var s := q.pending[i].seqNo;
    PendingOnly(q, q.pending[i]);
    var k := IndexOf(q.pending, s);
    assert CensusAt(q, s);
    if k != i {
      CountWithout(q.pending, k, s);
      assert Without(q.pending, k)[i - 1] == q.pending[i];
      CountMember(Without(q.pending, k), s);
    }
  }

  // ----- What handlers are given -----

  /** An event for the entry is among the operations, with the frame and time the entry has. */
  ghost predicate EventOf(ops: seq<Op>, e: Entry) {
    exists sec: nat, usec: nat :: Signal(e.seqNo, e.frame, sec, usec) in ops && e.usec == sec * 1000000 + usec
  }

  /** Signalled entries and handlers that ran have the frame and time of such an event. */
  ghost predicate Timed(ops: seq<Op>, q: Queue) {
    && (forall e :: e in q.flips || e in q.vblanks || e in q.deferred ==> EventOf(ops, e))
    && (forall c :: c in q.log && !c.aborted ==> EventOf(ops, c.entry))
  }

  lemma EventStays(ops: seq<Op>, op: Op, e: Entry)
    requires EventOf(ops, e)
    ensures EventOf(ops + [op], e)
  {
    var sec: nat, usec: nat :| Signal(e.seqNo, e.frame, sec, usec) in ops && e.usec == sec * 1000000 + usec;
    assert Signal(e.seqNo, e.frame, sec, usec) in ops + [op];
  }

  lemma TimedMore(ops: seq<Op>, op: Op, q: Queue)
    requires Timed(ops, q)
    ensures Timed(ops + [op], q)
  {
    forall e | EventOf(ops, e) ensures EventOf(ops + [op], e) {
      EventStays(ops, op, e);
    }
  }

  lemma TimedSignal(ops: seq<Op>, op: Op, q: Queue)
    requires Timed(ops, q) && op.Signal? && op in ops
    ensures Timed(ops, Apply(q, op))
  {
    var i := IndexOf(q.pending, op.seqNo);
    if i < |q.pending| {
      var e := q.pending[i].(usec := op.sec * 1000000 + op.usec, frame := op.frame);
      assert EventOf(ops, e);
    }
  }

  lemma TimedClose(ops: seq<Op>, crtc: nat, q: Queue)
    requires Timed(ops, q)
    ensures Timed(ops, Apply(q, CloseWait(crtc)))
  {
    var q' := Apply(q, CloseWait(crtc));
    forall e | e in q'.vblanks || e in q'.deferred ensures EventOf(ops, e) {
      CloseWaitMembers(q, crtc, e);
    }
  }

  lemma TimedStep(ops: seq<Op>, op: Op, q: Queue)
    requires Timed(ops, q)
    ensures Timed(ops + [op], Apply(q, op))
  {
    TimedMore(ops, op, q);
    if op.Signal? {
      TimedSignal(ops + [op], op, q);
    } else if op.CloseWait? {
      TimedClose(ops + [op], op.crtc, q);
    } else {
      hide EventOf, OfCrtc, NotOfCrtc, ClearHandlers;
    }
  }

  lemma {:induction false} TimedRun(done: seq<Op>, ops: seq<Op>, q: Queue)
    requires Timed(done, q)
    ensures Timed(done + ops, Run(q, ops))
    decreases |ops|
  {
    if ops == [] {
      assert done + ops == done;
    } else {
      TimedStep(done, ops[0], q);
      TimedRun(done + [ops[0]], ops[1..], Apply(q, ops[0]));
      assert done + [ops[0]] + ops[1..] == done + ops;
    }
  }

  /** Every handler that ran in a run from the initial state was given the frame and time of an
      event that came for its entry. */
  lemma HandlersGetEvents(ops: seq<Op>, c: Call)
    requires c in Run(EMPTY_QUEUE, ops).log && !c.aborted
    ensures EventOf(ops, c.entry)
  {
    TimedRun([], ops, EMPTY_QUEUE);
    assert [] + ops == ops;
  }

  // ----- What is aborted -----

  /** amdgpu_drm_abort_id aborts exactly the first pending entry with the id, if there is one. */
  lemma AbortIdFirst(q: Queue, id: nat, i: nat)
    requires i <= |q.pending| && (i < |q.pending| ==> q.pending[i].id == id)
    requires forall k :: 0 <= k < i ==> q.pending[k].id != id
    ensures var q' := Apply(q, AbortId(id));
            if i == |q.pending| then q' == q
            else q' == q.(pending := q.pending[..i] + q.pending[i + 1..],
                          log := q.log + [Call(q.pending[i], true, Level(q, q.pending[i].crtc))])
  {
    assert IndexOfId(q.pending, id) == i;
  }

  /** amdgpu_drm_abort_entry runs the abort procedure of exactly the entry with the number, unless
      it is a signalled flip, and takes it out of the queue. */
  lemma AbortEntryExactly(q: Queue, e: Entry)
    requires Inv(q) && (e in q.vblanks || e in q.deferred || e in q.pending)
    ensures var q' := Apply(q, AbortEntry(e.seqNo));
            && q'.log == q.log + [Call(e, true, Level(q, e.crtc))] && Places(q', e.seqNo) == 0
            && q'.flips == q.flips && q'.level == q.level && q'.issued == q.issued
            && forall s :: s != e.seqNo ==> Places(q', s) == Places(q, s)
  {
    var n := e.seqNo;
    var q' := Apply(q, AbortEntry(n));
    InvKept(q, AbortEntry(n));
    AbortedOne(q, e);
    CallsSnoc(q.log, Call(e, true, Level(q, e.crtc)), n);
    assert CensusAt(q', n) && CensusAt(q, n);
    ListedAgain(q, e);
    forall s | s != n ensures Places(q', s) == Places(q, s) {
      assert CensusAt(q', s) && CensusAt(q, s);
      CallsSnoc(q.log, Call(e, true, Level(q, e.crtc)), s);
    }
  }

  lemma CallsSnoc(log: seq<Call>, c: Call, s: nat)
    ensures CountCalls(log + [c], s) == CountCalls(log, s) + if c.entry.seqNo == s then 1 else 0
  {
    assert (log + [c])[..|log|] == log;
  }

  lemma ListedAgain(q: Queue, e: Entry)
    requires Inv(q) && (e in q.vblanks || e in q.deferred || e in q.pending)
    ensures Places(q, e.seqNo) == 1 && e.seqNo != 0
  {
    CountMember(q.vblanks, e.seqNo);
    CountMember(q.deferred, e.seqNo);
    CountMember(q.pending, e.seqNo);
    assert CensusAt(q, e.seqNo);
  }

  /** The three searches find the entry, wherever it is. */
  lemma AbortedOne(q: Queue, e: Entry)
    requires Inv(q) && (e in q.vblanks || e in q.deferred || e in q.pending)
    ensures var q' := Apply(q, AbortEntry(e.seqNo));
            && q'.log == q.log + [Call(e, true, Level(q, e.crtc))]
            && q'.flips == q.flips && q'.level == q.level && q'.issued == q.issued
  {
    var n := e.seqNo;
    ListedAgain(q, e);
    CountMember(q.vblanks, n);
    CountMember(q.deferred, n);
    CountMember(q.pending, n);
    OnlyOne(q.vblanks, e);
    OnlyOne(q.deferred, e);
    OnlyOne(q.pending, e);
    hide Inv, Count, IndexOf;
  }

  /** An entry whose number occurs once is found at its number. */
  lemma OnlyOne(l: seq<Entry>, e: Entry)
    requires Count(l, e.seqNo) <= 1
    ensures var i := IndexOf(l, e.seqNo);
            (e in l ==> i < |l| && l[i] == e) && (i < |l| ==> Count(l, e.seqNo) == 1)
  {
    var i := IndexOf(l, e.seqNo);
    CountMember(l, e.seqNo);
    if i < |l| {
      assert l[i] in l;
      if e in l && l[i] != e {
        var k :| 0 <= k < |l| && l[k] == e;
        CountWithout(l, i, e.seqNo);
      }
    }
  }

  // ----- In which order -----

  function Again(op: Op, n: nat): seq<Op> {
    if n == 0 then [] else [op] + Again(op, n - 1)
  }

  /** The calls of handling these entries in turn. */
  function Called(q: Queue, l: seq<Entry>): seq<Call> {
    if l == [] then [] else [Call(l[0], !l[0].handler, Level(q, l[0].crtc))] + Called(q, l[1..])
  }

  lemma CalledSame(q: Queue, q': Queue, l: seq<Entry>)
    requires q'.level == q.level
    ensures Called(q', l) == Called(q, l)
  {
  }

  /** Signalled flips are handled in the order in which they were signalled. */
  lemma {:induction false} FlipsInOrder(q: Queue, n: nat)
    requires n <= |q.flips|
    ensures Run(q, Again(HandleFlip, n)).log == q.log + Called(q, q.flips[..n])
    decreases n
  {
    if n > 0 {
      var q' := Apply(q, HandleFlip);
      FlipsInOrder(q', n - 1);
      assert q.flips[..n][0] == q.flips[0] && q.flips[..n][1..] == q'.flips[..n - 1];
      CalledSame(q, q', q'.flips[..n - 1]);
      assert Again(HandleFlip, n)[1..] == Again(HandleFlip, n - 1);
    }
  }

  /** The entries whose CRTC has no open wait, or those whose CRTC has one. */
  function Due(q: Queue, l: seq<Entry>, due: bool): seq<Entry> {
    if l == [] then []
    else (if (Level(q, l[0].crtc) == 0) == due then [l[0]] else []) + Due(q, l[1..], due)
  }

  lemma DueSame(q: Queue, q': Queue, l: seq<Entry>, due: bool)
    requires q'.level == q.level
    ensures Due(q', l, due) == Due(q, l, due)
  {
  }

  /** Handling the first one, before the entries l. */
  lemma VblankFirst(q: Queue, l: seq<Entry>)
    requires q.vblanks != []
    ensures var q', all := Apply(q, HandleVblank), [q.vblanks[0]] + l;
            && q'.level == q.level && q'.vblanks == q.vblanks[1..]
            && q'.log + Called(q, Due(q, l, true)) == q.log + Called(q, Due(q, all, true))
            && q'.deferred + Due(q, l, false) == q.deferred + Due(q, all, false)
  {
    hide Due, Called;
    var e := q.vblanks[0];
    DueFirst(q, e, l, true);
    DueFirst(q, e, l, false);
    CalledFirst(q, e, Due(q, l, true));
  }

  lemma DueFirst(q: Queue, e: Entry, l: seq<Entry>, due: bool)
    ensures Due(q, [e] + l, due) == if (Level(q, e.crtc) == 0) == due then [e] + Due(q, l, due) else Due(q, l, due)
  {
    assert ([e] + l)[1..] == l;
  }

  lemma CalledFirst(q: Queue, e: Entry, l: seq<Entry>)
    ensures Called(q, [e] + l) == [Call(e, !e.handler, Level(q, e.crtc))] + Called(q, l)
  {
    assert ([e] + l)[1..] == l;
  }

  /** Signalled vblanks are handled in the order in which they were signalled, or deferred in
      that order if their CRTC has an open wait. */
  lemma {:induction false} VblanksInOrder(q: Queue, n: nat)
    requires n <= |q.vblanks|
    ensures var q' := Run(q, Again(HandleVblank, n));
            && q'.log == q.log + Called(q, Due(q, q.vblanks[..n], true))
            && q'.deferred == q.deferred + Due(q, q.vblanks[..n], false)
    decreases n
  {
    if n > 0 {
      hide Apply, Due, Called;
      var q', rest := Apply(q, HandleVblank), q.vblanks[1..n];
      VblankFirst(q, rest);
      VblanksInOrder(q', n - 1);
      assert q'.vblanks[..n - 1] == rest && q.vblanks[..n] == [q.vblanks[0]] + rest;
      DueSame(q, q', rest, true);
      DueSame(q, q', rest, false);
      CalledSame(q, q', Due(q, rest, true));
      assert Again(HandleVblank, n)[1..] == Again(HandleVblank, n - 1);
    }
  }
}
