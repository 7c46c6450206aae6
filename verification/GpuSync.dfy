/**
 The stamps that tell whether the GPU may still be using a pixmap, and the marks that tell
 whether a client's or the server's damage has been flushed to the GPU. Counters are machine
 words; the proofs relate them to unbounded ones.
 */
module GpuSync {
  import opened Common

  // ----- Modular comparison -----

  /** A counter as a word of 2 * half values. */
  function Word(half: nat, n: int): nat
    requires half > 0
  {
    n % (2 * half)
  }

  /** (int)(access - synced) > 0 on words of 2 * half values. */
  predicate Ahead(half: nat, access: int, synced: int)
    requires half > 0
  {
    0 < (access - synced) % (2 * half) < half
  }

  /** Comparing the words is comparing the differences of the counters. */
  lemma AheadOfWords(half: nat, a: int, s: int)
    requires half > 0
    ensures Ahead(half, Word(half, a), Word(half, s)) <==> Ahead(half, a, s)
  {
    var m := 2 * half;
    ModShift(a - s, s / m - a / m, m);
    assert a % m - s % m == a - s + (s / m - a / m) * m;
  }

  /** While the counters are less than half the range apart, the comparison is the true one. */
  lemma AheadIsTrue(half: nat, a: int, s: int)
    requires half > 0 && 0 <= a - s + half < 2 * half
    ensures Ahead(half, Word(half, a), Word(half, s)) <==> a > s
  {
    AheadOfWords(half, a, s);
    if a >= s {
      DivMod(a - s, 0, a - s, 2 * half);
    } else {
      DivMod(a - s, -1, a - s + 2 * half, 2 * half);
    }
  }

  // ----- CPU access to pixmaps -----

  /** Stamps of a pixmap's last GPU read and write, and whether it is mapped. */
  datatype Pixmap = Pixmap(gpuRead: nat, gpuWrite: nat, mapped: bool)

  /** What a pixmap's stamps would be without wrapping. */
  datatype Stamps = Stamps(read: nat, write: nat)

  datatype Access =
    | GpuRead(pixmap: nat)
    | GpuWrite(pixmap: nat)
    | Flush
    | Finish
    | CpuRead(pixmap: nat, mapOk: bool)
    | CpuWrite(pixmap: nat, mapOk: bool)

  /** The state with counters that do not wrap; they are compared as the words are. */
  datatype Track = Track(half: nat, glamor: bool, flushed: nat, synced: nat, stamps: map<nat, Stamps>, mapped: set<nat>)

  /** The access asks for a pixmap the driver knows. */
  predicate Asks(t: Track, a: Access) {
    (a.CpuRead? || a.CpuWrite?) && a.pixmap in t.stamps
  }

  /** The latest GPU access a CPU access has to wait for. */
  function Awaited(t: Track, a: Access): nat
    requires Asks(t, a)
  {
    if a.CpuWrite? then t.stamps[a.pixmap].read else t.stamps[a.pixmap].write
  }

  /** amdgpu_glamor_gpu_pending for the stamps that matter to the access. */
  predicate Late(t: Track, a: Access)
    requires t.half > 0 && Asks(t, a)
  {
    var s := t.stamps[a.pixmap];
    Ahead(t.half, s.write, t.synced) || (a.CpuWrite? && Ahead(t.half, s.read, t.synced))
  }

  /** The CPU may access the pixmap. */
  predicate Granted(t: Track, a: Access) {
    Asks(t, a) && (a.pixmap in t.mapped || a.mapOk)
  }

  /** amdgpu_glamor_prepare_access_cpu. */
  function Prepared(t: Track, p: nat, late: bool, mapOk: bool): Track {
    var f := if late then t.flushed + 1 else t.flushed;
    if p !in t.mapped && !mapOk then t.(flushed := f)
    else t.(flushed := f, synced := if late || p !in t.mapped then f else t.synced, mapped := t.mapped + {p})
  }

  /** What an access does: a CPU access flushes and waits for the GPU if a GPU access that
      matters to it seems pending, and mapping a pixmap waits as well. */
  function Next(t: Track, a: Access): Track
    requires t.half > 0
  {
    match a
    case Flush => t.(flushed := t.flushed + 1)
    case Finish => if t.glamor then t.(flushed := t.flushed + 1) else t
    case GpuRead(p) => if p in t.stamps then t.(stamps := t.stamps[p := t.stamps[p].(read := t.flushed + 1)]) else t
    case GpuWrite(p) => if p in t.stamps then t.(stamps := t.stamps[p := Stamps(t.flushed + 1, t.flushed + 1)]) else t
    case _ =>
      if !Asks(t, a) then t else Prepared(t, a.pixmap, Late(t, a), a.mapOk)
  }

  /** The state after a run. */
  function RunTrack(t: Track, accesses: seq<Access>): Track
    requires t.half > 0
    decreases |accesses|
  {
    if accesses == [] then t else RunTrack(Next(t, accesses[0]), accesses[1..])
  }

  /** Which accesses of a run are granted. */
  function Grants(t: Track, accesses: seq<Access>): (r: seq<bool>)
    requires t.half > 0
    ensures |r| == |accesses|
    decreases |accesses|
  {
    if accesses == [] then [] else [Granted(t, accesses[0])] + Grants(Next(t, accesses[0]), accesses[1..])
  }

  /** Less than half the counter range has been flushed since the last synchronisation. */
  predicate Recent(t: Track) {
    t.flushed + 1 - t.synced < t.half
  }

  /** That is so at every CPU access of the run. */
  predicate AlwaysRecent(t: Track, accesses: seq<Access>)
    requires t.half > 0
    decreases |accesses|
  {
    accesses != [] ==>
      (Asks(t, accesses[0]) ==> Recent(t)) && AlwaysRecent(Next(t, accesses[0]), accesses[1..])
  }

  /** Stamps are at most one flush ahead. */
  ghost predicate Ordered(t: Track) {
    && t.half > 0 && t.synced <= t.flushed
    && forall p :: p in t.stamps ==> t.stamps[p].write <= t.stamps[p].read <= t.flushed + 1
  }

  lemma NextOrdered(t: Track, a: Access)
    requires Ordered(t)
    ensures Ordered(Next(t, a))
  {
  }

  /** A CPU access that is granted while the flush counter has not run half its range ahead finds
      all GPU accesses (or writes) recorded for the pixmap done. */
  lemma GrantedIsSynced(t: Track, a: Access)
    requires Ordered(t) && Granted(t, a) && Recent(t)
    ensures Awaited(t, a) <= Next(t, a).synced
  {
    var s := t.stamps[a.pixmap];
    CaughtUp(t.half, s.write, t.synced);
    CaughtUp(t.half, s.read, t.synced);
    AheadOfWords(t.half, s.write, t.synced);
    AheadOfWords(t.half, s.read, t.synced);
  }

  /** CPU access implies synced: over any interleaving, access i of the run is granted only if
      all GPU accesses (or writes) of its pixmap recorded before are known to be done then. */
  lemma {:induction false} GrantsAreSynced(t: Track, accesses: seq<Access>, i: nat)
    requires Ordered(t) && i < |accesses| && AlwaysRecent(t, accesses)
    ensures Ordered(RunTrack(t, accesses[..i]))
    ensures var before := RunTrack(t, accesses[..i]);
            Grants(t, accesses)[i] ==>
              Asks(before, accesses[i]) && Awaited(before, accesses[i]) <= Next(before, accesses[i]).synced
    decreases |accesses|
  {
    var t' := Next(t, accesses[0]);
    NextOrdered(t, accesses[0]);
    if i == 0 {
      assert accesses[..0] == [];
      if Granted(t, accesses[0]) {
        GrantedIsSynced(t, accesses[0]);
      }
    } else {
      GrantsAreSynced(t', accesses[1..], i - 1);
      assert accesses[..i][0] == accesses[0] && accesses[..i][1..] == accesses[1..][..i - 1];
    }
  }

  /** A CPU access flushes only if a GPU access that matters to it seems pending, and only an access
      that waits for the GPU, because of that or to map the pixmap, is taken to synchronise: then
      everything flushed so far is done. */
  lemma SyncedByWaiting(t: Track, a: Access)
    requires Ordered(t) && Asks(t, a)
    ensures var u := Next(t, a);
            && u.flushed == t.flushed + (if Late(t, a) then 1 else 0) && u.stamps == t.stamps
            && (u.mapped == if a.pixmap in t.mapped || a.mapOk then t.mapped + {a.pixmap} else t.mapped)
            && (Granted(t, a) && (Late(t, a) || a.pixmap !in t.mapped) ==> u.synced == u.flushed)
            && (!Granted(t, a) || (!Late(t, a) && a.pixmap in t.mapped) ==> u.synced == t.synced)
  {
  }

  // ----- The GPU accesses of a run -----

  lemma {:induction false} RunTrackAppend(t: Track, x: seq<Access>, y: seq<Access>)
    requires t.half > 0
    ensures RunTrack(t, x).half > 0 && RunTrack(t, x + y) == RunTrack(RunTrack(t, x), y)
    decreases |x|
  {
    if x == [] {
      assert x + y == y;
    } else {
      RunTrackAppend(Next(t, x[0]), x[1..], y);
      assert (x + y)[0] == x[0] && (x + y)[1..] == x[1..] + y;
    }
  }

  lemma RunSplit(t: Track, accesses: seq<Access>, j: nat, i: nat)
    requires t.half > 0 && j < i <= |accesses|
    ensures var u := RunTrack(t, accesses[..j]);
            u.half > 0 && RunTrack(t, accesses[..i]) == RunTrack(Next(u, accesses[j]), accesses[j + 1..i])
  {
    var rest := accesses[j..i];
    RunTrackAppend(t, accesses[..j], rest);
    assert accesses[..j] + rest == accesses[..i] && rest[0] == accesses[j] && rest[1..] == accesses[j + 1..i];
  }

  /** The stamps of a pixmap never go back. */
  lemma {:induction false} StampsGrow(t: Track, accesses: seq<Access>, p: nat)
    requires Ordered(t) && p in t.stamps
    ensures var u := RunTrack(t, accesses);
            && Ordered(u) && p in u.stamps
            && u.stamps[p].write >= t.stamps[p].write && u.stamps[p].read >= t.stamps[p].read
    decreases |accesses|
  {
    if accesses != [] {
      NextOrdered(t, accesses[0]);
      StampsGrow(Next(t, accesses[0]), accesses[1..], p);
    }
  }

  /** A GPU write, or a GPU read if reads matter. */
  predicate Uses(a: Access, p: nat, write: bool) {
    a == GpuWrite(p) || (write && a == GpuRead(p))
  }

  lemma UsedIsStamped(t: Track, a: Access, p: nat, write: bool)
    requires t.half > 0 && p in t.stamps && Uses(a, p, write)
    ensures var u := Next(t, a);
            && p in u.stamps && (if write then u.stamps[p].read else u.stamps[p].write) == t.flushed + 1
            && (a == GpuWrite(p) ==> u.stamps[p].write == t.flushed + 1)
  {
  }

  /** CPU access implies synced, told by the run alone: a CPU access that is granted after a GPU
      access to the same pixmap (a write, or also a read if the CPU writes) finds that GPU access
      done, since the GPU has been waited for after a flush that came later. */
  lemma AccessedAfterDone(t: Track, accesses: seq<Access>, j: nat, i: nat, p: nat)
    requires Ordered(t) && AlwaysRecent(t, accesses) && j < i < |accesses| && p in t.stamps
    requires (accesses[i].CpuRead? || accesses[i].CpuWrite?) && accesses[i].pixmap == p
    requires Uses(accesses[j], p, accesses[i].CpuWrite?) && Grants(t, accesses)[i]
    ensures RunTrack(t, accesses[..j]).flushed + 1 <= RunTrack(t, accesses[..i + 1]).synced
  {
    hide Next, Grants, AlwaysRecent, Uses;
    var tj := RunTrack(t, accesses[..j]);
    StampsGrow(t, accesses[..j], p);
    NextOrdered(tj, accesses[j]);
    UsedIsStamped(tj, accesses[j], p, accesses[i].CpuWrite?);
    StampsGrow(Next(tj, accesses[j]), accesses[j + 1..i], p);
    RunSplit(t, accesses, j, i);
    GrantsAreSynced(t, accesses, i);
    RunSplit(t, accesses, i, i + 1);
  }

  class Screen {
    const half: nat
    var useGlamor: bool
    var gpuFlushed: nat
    var gpuSynced: nat
    var pixmaps: map<nat, Pixmap>
    ghost var flushed: nat
    ghost var synced: nat
    ghost var stamps: map<nat, Stamps>

    ghost predicate Valid()
      reads this
    {
      && half > 0
      && gpuFlushed == Word(half, flushed) && gpuSynced == Word(half, synced) && synced <= flushed
      && pixmaps.Keys == stamps.Keys
      && (forall p :: p in stamps ==>
            && pixmaps[p].gpuRead == Word(half, stamps[p].read) && pixmaps[p].gpuWrite == Word(half, stamps[p].write)
            && stamps[p].write <= stamps[p].read <= flushed + 1)
    }

    /** The counters as they would be without wrapping. */
    ghost function State(): Track
      reads this
    {
      Track(half, useGlamor, flushed, synced, stamps, set p | p in pixmaps && pixmaps[p].mapped)
    }

    constructor (half: nat, useGlamor: bool, names: set<nat>)
      requires half > 0
      ensures Valid() && this.half == half && flushed == 0 && synced == 0
    {
      this.half, this.useGlamor := half, useGlamor;
      gpuFlushed, gpuSynced := 0, 0;
      pixmaps := map p | p in names :: Pixmap(0, 0, false);
      flushed, synced := 0, 0;
      stamps := map p | p in names :: Stamps(0, 0);
      new;
      DivMod(0, 0, 0, 2 * half);
    }

    /** amdgpu_glamor_flush. */
    method GlamorFlush()
      requires Valid()
      modifies this`gpuFlushed, this`flushed
      ensures Valid() && State() == old(State()).(flushed := old(flushed) + 1)
    {
      AddOne(half, flushed);
      hide Word;
      gpuFlushed := Word(half, gpuFlushed + 1);
      flushed := flushed + 1;
    }

    /** amdgpu_glamor_finish. */
    method GlamorFinish()
      requires Valid()
      modifies this`gpuFlushed, this`flushed
      ensures Valid() && State() == Next(old(State()), Finish)
    {
      if useGlamor {
        GlamorFlush();
      }
    }

    /** amdgpu_glamor_finish_access_gpu_ro and _rw. */
    method FinishAccessGpu(p: nat, write: bool)
      requires Valid() && p in pixmaps
      modifies this`pixmaps, this`stamps
      ensures Valid() && State() == Next(old(State()), if write then GpuWrite(p) else GpuRead(p))
      ensures pixmaps.Keys == old(pixmaps).Keys && pixmaps[p].gpuRead == Word(half, gpuFlushed + 1)
      ensures pixmaps[p].gpuWrite == if write then Word(half, gpuFlushed + 1) else old(pixmaps)[p].gpuWrite
      ensures forall x :: x in pixmaps && x != p ==> pixmaps[x] == old(pixmaps)[x]
    {
      AddOne(half, flushed);
      hide Word, Prepared, Late, Asks;
      var stamp := Word(half, gpuFlushed + 1);
      var q := pixmaps[p];
      pixmaps := pixmaps[p := if write then q.(gpuRead := stamp, gpuWrite := stamp) else q.(gpuRead := stamp)];
      stamps := stamps[p := Stamps(flushed + 1, if write then flushed + 1 else stamps[p].write)];
      assert State().mapped == old(State().mapped);
    }

    /** amdgpu_glamor_prepare_access_cpu. */
    method PrepareAccessCpu(p: nat, needSync: bool, mapOk: bool) returns (ok: bool)
      requires Valid() && p in pixmaps
      modifies this`gpuFlushed, this`gpuSynced, this`pixmaps, this`flushed, this`synced
      ensures Valid() && State() == Prepared(old(State()), p, needSync, mapOk)
      ensures ok == (old(pixmaps[p].mapped) || mapOk)
    {
      if needSync {
        GlamorFlush();
      }
      if !pixmaps[p].mapped {
        if !mapOk {
          return false;
        }
        pixmaps := pixmaps[p := pixmaps[p].(mapped := true)];
        gpuSynced, synced := gpuFlushed, flushed;
      } else if needSync {
        gpuSynced, synced := gpuFlushed, flushed;
      }
      return true;
    }

    /** amdgpu_glamor_prepare_access_cpu_rw (or _ro): while less than half the counter range has
        been flushed since the last synchronisation, TRUE means that all recorded GPU accesses
        (or writes) of the pixmap are done. Without private data there is nothing to wait for. */
    method PrepareAccess(p: Option<nat>, write: bool, mapOk: bool) returns (ok: bool)
      requires Valid() && (p.Some? ==> p.value in pixmaps)
      modifies this`gpuFlushed, this`gpuSynced, this`pixmaps, this`flushed, this`synced
      ensures Valid() && (p.None? ==> ok && State() == old(State()))
      ensures p.Some? ==>
                var t, a := old(State()), if write then CpuWrite(p.value, mapOk) else CpuRead(p.value, mapOk);
                ok == Granted(t, a) && State() == Next(t, a) && (Recent(t) && ok ==> Awaited(t, a) <= synced)
    {
      if p.None? {
        return true;
      }
      hide Ahead, Word;
      var q := pixmaps[p.value];
      ghost var t := stamps[p.value];
      AheadOfWords(half, t.write, synced);
      AheadOfWords(half, t.read, synced);
      var needSync := Ahead(half, q.gpuWrite, gpuSynced);
      if write && !needSync {
        needSync := Ahead(half, q.gpuRead, gpuSynced);
      }
      ghost var a := if write then CpuWrite(p.value, mapOk) else CpuRead(p.value, mapOk);
      assert needSync == Late(State(), a);
      if Granted(State(), a) && Recent(State()) {
        GrantedIsSynced(State(), a);
      }
      hide Prepared, Late, Awaited;
      ok := PrepareAccessCpu(p.value, needSync, mapOk);
    }

    /** One access. */
    method Handle(a: Access) returns (granted: bool)
      requires Valid()
      modifies this`gpuFlushed, this`gpuSynced, this`pixmaps, this`flushed, this`synced, this`stamps
      ensures Valid() && granted == Granted(old(State()), a) && State() == Next(old(State()), a)
    {
      granted := false;
      match a
      case GpuRead(p) => if p in pixmaps { FinishAccessGpu(p, false); }
      case GpuWrite(p) => if p in pixmaps { FinishAccessGpu(p, true); }
      case Flush => GlamorFlush();
      case Finish => GlamorFinish();
      case CpuRead(p, mapOk) => if p in pixmaps { granted := PrepareAccess(Some(p), false, mapOk); }
      case CpuWrite(p, mapOk) => if p in pixmaps { granted := PrepareAccess(Some(p), true, mapOk); }
    }

    /** Any interleaving of GPU and CPU accesses and flushes on any number of pixmaps: the words do
        what counters that do not wrap would do, and grant the accesses these grant. */
    method Drive(accesses: seq<Access>) returns (granted: seq<bool>)
      requires Valid()
      modifies this`gpuFlushed, this`gpuSynced, this`pixmaps, this`flushed, this`synced, this`stamps
      ensures Valid() && Ordered(old(State())) && |granted| == |accesses|
      ensures granted == Grants(old(State()), accesses) && State() == RunTrack(old(State()), accesses)
    {
      hide Next, Granted;
      granted := [];
      ghost var start := State();
      for i := 0 to |accesses|
        invariant Valid() && |granted| == i && State().half == half
        invariant granted + Grants(State(), accesses[i..]) == Grants(start, accesses)
        invariant RunTrack(State(), accesses[i..]) == RunTrack(start, accesses)
      {
        assert accesses[i..][0] == accesses[i] && accesses[i..][1..] == accesses[i + 1..];
        ghost var here, told := State(), granted;
        var ok := Handle(accesses[i]);
        granted := granted + [ok];
        assert told + Grants(here, accesses[i..]) == granted + Grants(State(), accesses[i + 1..]);
      }
    }
  }

  lemma AddOne(half: nat, n: nat)
    requires half > 0
    ensures Word(half, Word(half, n) + 1) == Word(half, n + 1)
  {
    var m := 2 * half;
    ModShift(n % m + 1, n / m, m);
    assert n % m + 1 + n / m * m == n + 1;
  }

  /** A stamp that is less than half the range ahead is seen to be ahead. */
  lemma CaughtUp(half: nat, a: nat, s: nat)
    requires half > 0
    ensures a - s < half && !Ahead(half, Word(half, a), Word(half, s)) ==> a <= s
  {
    if 0 < a - s < half {
      AheadIsTrue(half, a, s);
    }
  }

  // ----- Flushing damage before clients see it -----

  const SERVER: nat := 0
  const HALF_INT: nat := 0x8000_0000

  datatype Signal =
    | EventsSent(client: nat, damage: bool)
    | FlushRequest(requester: Option<nat>, vtHeld: bool)
    | FlushElsewhere

  /** The flush counter and the clients' marks; a mark is zero until the client's first event. */
  datatype Marks = Marks(flushed: nat, needs: map<nat, nat>)

  function Needs(m: Marks, c: nat): nat {
    if c in m.needs then m.needs[c] else 0
  }

  /** callback_needs_flush: compare in a 32-bit int. */
  predicate Marked(m: Marks, c: nat) {
    Ahead(HALF_INT, Needs(m, c), m.flushed)
  }

  /** The client's mark lies so far back that the comparison wraps. */
  predicate Lagging(m: Marks, c: nat) {
    m.flushed > Needs(m, c) + HALF_INT
  }

  /** A flush request without a client comes from the server. */
  function Requester(s: Signal): nat
    requires s.FlushRequest?
  {
    if s.requester.Some? then s.requester.value else SERVER
  }

  /** The signal flushes. */
  predicate Flushes(m: Marks, s: Signal) {
    match s
    case EventsSent(_, _) => false
    case FlushRequest(_, vtHeld) => vtHeld && Marked(m, Requester(s))
    case FlushElsewhere => true
  }

  /** amdgpu_event_callback, amdgpu_flush_callback and any other flush. */
  function Signalled(m: Marks, s: Signal): Marks {
    if Flushes(m, s) then m.(flushed := m.flushed + 1)
    else if !s.EventsSent? || Marked(m, s.client) || Marked(m, SERVER) then m
    else
      var mark := if s.damage then m.flushed + 1 else m.flushed;
      m.(needs := m.needs[s.client := mark][SERVER := mark])
  }

  /** No client that gets events, nor the server, lags behind at any time of the run. */
  predicate NeverLags(m: Marks, signals: seq<Signal>)
    decreases |signals|
  {
    signals != [] ==>
      && (signals[0].EventsSent? ==> !Lagging(m, signals[0].client) && !Lagging(m, SERVER))
      && NeverLags(Signalled(m, signals[0]), signals[1..])
  }

  /** Which signals of a run flush. */
  function Flushed(m: Marks, signals: seq<Signal>): (r: seq<bool>)
    ensures |r| == |signals|
    decreases |signals|
  {
    if signals == [] then [] else [Flushes(m, signals[0])] + Flushed(Signalled(m, signals[0]), signals[1..])
  }

  function RunMarks(m: Marks, signals: seq<Signal>): Marks
    decreases |signals|
  {
    if signals == [] then m else RunMarks(Signalled(m, signals[0]), signals[1..])
  }

  /** Marks are at most one ahead, and one client ahead means the server client is ahead. */
  ghost predicate Covered(m: Marks) {
    && (forall c :: Needs(m, c) <= m.flushed + 1)
    && (forall c :: Needs(m, c) == m.flushed + 1 ==> Needs(m, SERVER) == m.flushed + 1)
  }

  lemma MarkedIff(m: Marks, c: nat)
    requires Covered(m) && !Lagging(m, c)
    ensures Marked(m, c) <==> Needs(m, c) == m.flushed + 1
  {
    AheadIsTrue(HALF_INT, Needs(m, c), m.flushed);
    AheadOfWords(HALF_INT, Needs(m, c), m.flushed);
  }

  /** Any marked client means that the server client is marked too. */
  lemma ServerMarked(m: Marks, c: nat)
    requires Covered(m) && !Lagging(m, c) && Marked(m, c)
    ensures Marked(m, SERVER)
  {
    MarkedIff(m, c);
    MarkedIff(m, SERVER);
  }

  /** A signal keeps the server covered; after damage, or if it was so before and the signal does
      not flush, the server's mark is ahead. */
  lemma SignalledCovered(m: Marks, s: Signal)
    requires Covered(m) && (s.EventsSent? ==> !Lagging(m, s.client) && !Lagging(m, SERVER))
    ensures var m' := Signalled(m, s);
            && Covered(m')
            && ((s.EventsSent? && s.damage) || (Needs(m, SERVER) == m.flushed + 1 && !Flushes(m, s)) ==>
                  Needs(m', SERVER) == m'.flushed + 1)
  {
    if s.EventsSent? {
      MarkedIff(m, s.client);
      MarkedIff(m, SERVER);
    }
    hide Marked;
    var m' := Signalled(m, s);
    forall c
      ensures Needs(m', c) <= m'.flushed + 1 && (Needs(m', c) == m'.flushed + 1 ==> Needs(m', SERVER) == m'.flushed + 1)
    {
      assert m'.needs == m.needs || (c != s.client && c != SERVER) ==> Needs(m', c) == Needs(m, c);
      assert Needs(m, c) <= m.flushed + 1;
    }
  }

  /** While the server's mark is ahead, its next request with the VT held flushes, or something
      did so before. */
  lemma {:induction false} ServerRequestFlushes(m: Marks, signals: seq<Signal>, i: nat) returns (k: nat)
    requires Covered(m) && Needs(m, SERVER) == m.flushed + 1 && NeverLags(m, signals)
    requires i < |signals| && signals[i] == FlushRequest(None, true)
    ensures k <= i && Flushed(m, signals)[k]
    decreases |signals|
  {
    MarkedIff(m, SERVER);
    if Flushes(m, signals[0]) {
      k := 0;
    } else {
      assert i > 0;
      SignalledCovered(m, signals[0]);
      k := ServerRequestFlushes(Signalled(m, signals[0]), signals[1..], i - 1);
      k := k + 1;
    }
  }

  /** Server-wide flush is complete: in any run in which nobody lags 2^31 flushes behind, damage
      sent to any client is flushed by the server's next flush request with the VT held, if
      nothing flushed before. */
  lemma {:induction false} DamageIsFlushed(m: Marks, signals: seq<Signal>, j: nat, i: nat) returns (k: nat)
    requires Covered(m) && NeverLags(m, signals)
    requires j < i < |signals| && signals[j].EventsSent? && signals[j].damage && signals[i] == FlushRequest(None, true)
    ensures j < k <= i && Flushed(m, signals)[k]
    decreases |signals|
  {
    SignalledCovered(m, signals[0]);
    if j == 0 {
      k := ServerRequestFlushes(Signalled(m, signals[0]), signals[1..], i - 1);
    } else {
      k := DamageIsFlushed(Signalled(m, signals[0]), signals[1..], j - 1, i - 1);
    }
    k := k + 1;
  }

  /** No client's mark is ahead. */
  ghost predicate Settled(m: Marks) {
    forall c :: Needs(m, c) <= m.flushed
  }

  /** No client that asks for a flush lags behind then. */
  predicate RequestersKeepUp(m: Marks, signals: seq<Signal>)
    decreases |signals|
  {
    signals != [] ==>
      && (signals[0].FlushRequest? ==> !Lagging(m, Requester(signals[0])))
      && RequestersKeepUp(Signalled(m, signals[0]), signals[1..])
  }

  /** A flush leaves no mark ahead; events without damage put none ahead. */
  lemma SettledAfter(m: Marks, s: Signal)
    requires Covered(m) && (Flushes(m, s) || (Settled(m) && !(s.EventsSent? && s.damage)))
    ensures Settled(Signalled(m, s))
  {
    hide Marked;
    var m' := Signalled(m, s);
    forall c ensures Needs(m', c) <= m'.flushed {
      assert Needs(m, c) <= m.flushed + 1;
      assert m'.needs == m.needs || (c != s.client && c != SERVER) ==> Needs(m', c) == Needs(m, c);
    }
  }

  /** Where the mark comes from that makes a request flush: damage since the last flush, or, if j is
      -1, before the run. */
  lemma {:induction false} FlushCause(m: Marks, signals: seq<Signal>, k: nat) returns (j: int)
    requires Covered(m) && NeverLags(m, signals) && RequestersKeepUp(m, signals)
    requires k < |signals| && signals[k].FlushRequest? && Flushed(m, signals)[k]
    ensures -1 <= j < k && signals[k].vtHeld
    ensures if j < 0 then !Settled(m) else signals[j].EventsSent? && signals[j].damage
    ensures forall l :: j < l < k && 0 <= l ==> !Flushed(m, signals)[l]
    decreases |signals|
  {
    var s, m' := signals[0], Signalled(m, signals[0]);
    if k == 0 {
      MarkedIff(m, Requester(s));
      j := -1;
    } else {
      SignalledCovered(m, s);
      j := FlushCause(m', signals[1..], k - 1);
      if j >= 0 {
        j := j + 1;
      } else if s.EventsSent? && s.damage {
        j := 0;
      } else if Flushes(m, s) || Settled(m) {
        SettledAfter(m, s);
      }
    }
  }

  /** No needless flush: from a state without marks ahead, a request flushes only if the VT is held,
      damage was sent to some client, and nothing flushed since. */
  lemma FlushHasCause(m: Marks, signals: seq<Signal>, k: nat) returns (j: nat)
    requires Covered(m) && Settled(m) && NeverLags(m, signals) && RequestersKeepUp(m, signals)
    requires k < |signals| && signals[k].FlushRequest? && Flushed(m, signals)[k]
    ensures j < k && signals[k].vtHeld && signals[j].EventsSent? && signals[j].damage
    ensures forall l :: j < l < k ==> !Flushed(m, signals)[l]
  {
    j := FlushCause(m, signals, k);
  }

  class FlushMarks {
    var gpuFlushed: nat
    var needsFlush: map<nat, nat>
    const damageType: nat

    ghost function State(): Marks
      reads this
    {
      Marks(gpuFlushed, needsFlush)
    }

    constructor (damageType: nat)
      ensures State() == Marks(0, map[]) && Covered(State()) && this.damageType == damageType
    {
      gpuFlushed, needsFlush := 0, map[];
      this.damageType := damageType;
    }

    predicate NeedsFlush(c: nat)
      reads this
      ensures NeedsFlush(c) == Marked(State(), c)
    {
      Ahead(HALF_INT, if c in needsFlush then needsFlush[c] else 0, gpuFlushed)
    }

    /** amdgpu_event_callback for events sent to a client. */
    method EventCallback(client: nat, types: seq<nat>)
      modifies this`needsFlush
      ensures State() == Signalled(old(State()), EventsSent(client, damageType in types))
    {
      if NeedsFlush(client) || NeedsFlush(SERVER) {
        return;
      }
      needsFlush := needsFlush[client := gpuFlushed][SERVER := gpuFlushed];
      for i := 0 to |types|
        invariant damageType !in types[..i]
        invariant needsFlush == old(needsFlush)[client := gpuFlushed][SERVER := gpuFlushed]
      {
        if types[i] == damageType {
          needsFlush := needsFlush[client := gpuFlushed + 1][SERVER := gpuFlushed + 1];
          return;
        }
      }
    }

    /** amdgpu_flush_callback; no client stands for the server. */
    method FlushCallback(client: Option<nat>, vtHeld: bool) returns (flushed: bool)
      modifies this`gpuFlushed
      ensures State() == Signalled(old(State()), FlushRequest(client, vtHeld))
      ensures flushed == Flushes(old(State()), FlushRequest(client, vtHeld))
    {
      var c := if client.Some? then client.value else SERVER;
      if vtHeld && NeedsFlush(c) {
        gpuFlushed := gpuFlushed + 1;
        return true;
      }
      return false;
    }

    /** One signal. */
    method Handle(s: Signal) returns (flushed: bool)
      modifies this`needsFlush, this`gpuFlushed
      ensures State() == Signalled(old(State()), s) && flushed == Flushes(old(State()), s)
    {
      hide Marked;
      flushed := false;
      match s
      case EventsSent(client, damage) => EventCallback(client, if damage then [damageType] else []);
      case FlushRequest(client, vtHeld) => flushed := FlushCallback(client, vtHeld);
      case FlushElsewhere =>
        gpuFlushed := gpuFlushed + 1;
        flushed := true;
    }

    /** Any run of callbacks: which of them flushed. */
    method Drive(signals: seq<Signal>) returns (flushed: seq<bool>)
      modifies this`needsFlush, this`gpuFlushed
      ensures flushed == Flushed(old(State()), signals) && State() == RunMarks(old(State()), signals)
    {
      hide Signalled, Flushes;
      flushed := [];
      ghost var start := State();
      for i := 0 to |signals|
        invariant |flushed| == i && flushed + Flushed(State(), signals[i..]) == Flushed(start, signals)
        invariant RunMarks(State(), signals[i..]) == RunMarks(start, signals)
      {
        assert signals[i..][0] == signals[i] && signals[i..][1..] == signals[i + 1..];
        ghost var here, told := State(), flushed;
        var done := Handle(signals[i]);
        flushed := flushed + [done];
        assert told + Flushed(here, signals[i..]) == flushed + Flushed(State(), signals[i + 1..]);
      }
    }
  }
}
