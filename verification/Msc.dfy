/**
 Frame counts (MSC): extrapolation while a CRTC is off, interpolated vblanks across power
 changes, per-drawable offsets modulo 2^32, and the frames requested for
 glXWaitForMscOML and glXSwapBuffersMscOML.
 */
module Msc {
  import opened Common

  const U32: nat := 0x1_0000_0000
  const U64: nat := 0x1_0000_0000_0000_0000
  const MICROS: nat := 1000000
  const DEFAULT_NOMINAL_FRAME_RATE: nat := 60

  // ----- Frames since the CRTC was switched off -----

  /** Whole frames a CRTC with this rate would have shown between two times. */
  function Elapsed(since: nat, now: nat, fps: nat): (r: nat)
    requires since <= now
    ensures MICROS * r <= (now - since) * fps < MICROS * (r + 1)
  {
    (now - since) * fps / MICROS
  }

  lemma ElapsedMono(since: nat, t1: nat, t2: nat, fps: nat)
    requires since <= t1 <= t2
    ensures Elapsed(since, t1, fps) <= Elapsed(since, t2, fps)
  {
    MulMono(t1 - since, t2 - since, fps);
    DivMono((t1 - since) * fps, (t2 - since) * fps, MICROS);
  }

  /** The frame rate recorded when the CRTC is switched off. */
  function NominalRate(clock: nat, pixels: nat): nat {
    if clock * 1000 == 0 || pixels == 0 then DEFAULT_NOMINAL_FRAME_RATE else clock * 1000 / pixels
  }

  lemma Frames(n: nat, k: nat)
    requires k > 0
    ensures n / k * k <= n < (n / k + 1) * k && k * (n / k) <= n < k * (n / k + 1)
  {
  }

  lemma RateBounds(clock: nat, pixels: nat)
    ensures var rate := NominalRate(clock, pixels);
            if clock > 0 && pixels > 0 then rate * pixels <= clock * 1000 < (rate + 1) * pixels else rate == 60
  {
    if pixels > 0 {
      Frames(clock * 1000, pixels);
    }
  }

  /** What the driver is told: the mode and the last vblank on switching off, the time on
      switching on, and on each query the kernel's counter and the time. */
  datatype Event =
    | Off(ust: nat, frame: nat, clock: nat, pixels: nat, now: nat)
    | On(now: nat)
    | Ask(frame: nat, now: nat)

  class CrtcClock {
    var dpmsOn: bool
    var lastUst: nat
    var lastSeq: nat
    var lastFps: nat
    var interpolated: nat

    constructor ()
      ensures dpmsOn && lastUst == 0 && lastSeq == 0 && lastFps == 0 && interpolated == 0
    {
      dpmsOn, lastUst, lastSeq, lastFps, interpolated := true, 0, 0, 0, 0;
    }

    /** drmmode_do_crtc_dpms, on to off; no reply leaves the record as it was. */
    method SwitchOff(reply: Option<(nat, nat)>, clock: nat, pixels: nat)
      requires dpmsOn
      modifies this
      ensures !dpmsOn && interpolated == old(interpolated)
      ensures reply.Some? ==>
                lastUst == reply.value.0 && lastSeq == reply.value.1 && lastFps == NominalRate(clock, pixels)
      ensures reply.Some? && clock > 0 && pixels > 0 ==> lastFps * pixels <= clock * 1000 < (lastFps + 1) * pixels
      ensures reply.Some? && (clock == 0 || pixels == 0) ==> lastFps == 60
      ensures reply.None? ==> lastUst == old(lastUst) && lastSeq == old(lastSeq) && lastFps == old(lastFps)
    {
      if reply.Some? {
        lastUst, lastSeq := reply.value.0, reply.value.1;
        var rate := clock * 1000;
        if rate == 0 || pixels == 0 {
          rate := DEFAULT_NOMINAL_FRAME_RATE;
        } else {
          rate := rate / pixels;
        }
        RateBounds(clock, pixels);
        lastFps := rate;
      }
      dpmsOn := false;
    }

    /** drmmode_do_crtc_dpms, off to on: account for the vblanks missed. */
    method SwitchOn(now: Option<nat>)
      requires !dpmsOn && (now.Some? && lastUst != 0 ==> lastUst <= now.value)
      modifies this
      ensures dpmsOn && lastUst == old(lastUst) && lastSeq == old(lastSeq) && lastFps == old(lastFps)
      ensures interpolated == if now.Some? && lastUst != 0
                              then (old(interpolated) + Elapsed(lastUst, now.value, lastFps)) % U32
                              else old(interpolated)
    {
      if now.Some? && lastUst != 0 {
        interpolated := (interpolated + (now.value - lastUst) * lastFps / MICROS) % U32;
      }
      dpmsOn := true;
    }

    /** amdgpu_dri2_get_crtc_msc: the kernel's counter while the CRTC runs, extrapolated from
        the record otherwise, plus the interpolated vblanks. The extrapolated time stamp lies
        between the last vblank and now. */
    method GetCrtcMsc(kernel: Option<(nat, nat)>, now: nat) returns (ok: bool, ust: nat, msc: nat)
      requires lastUst <= now && (lastUst != 0 ==> lastFps > 0)
      ensures dpmsOn && kernel.Some? ==> ok && ust == kernel.value.0 && msc == kernel.value.1 + interpolated
      ensures !(dpmsOn && kernel.Some?) ==> ok == (lastUst != 0)
      ensures !(dpmsOn && kernel.Some?) && ok ==>
                var frames := Elapsed(lastUst, now, lastFps);
                lastFps * (ust - lastUst) <= frames * MICROS < lastFps * (ust - lastUst + 1)
      ensures !(dpmsOn && kernel.Some?) && ok ==>
                msc == lastSeq + Elapsed(lastUst, now, lastFps) + interpolated && lastUst <= ust <= now
    {
      if dpmsOn && kernel.Some? {
        ust, msc := kernel.value.0, kernel.value.1;
      } else {
        if lastUst == 0 {
          return false, 0, 0;
        }
        var deltaT := now - lastUst;
        var deltaSeq := deltaT * lastFps / MICROS;
        StampBetween(deltaT, lastFps);
        Frames(deltaSeq * MICROS, lastFps);
        ust := lastUst + deltaSeq * MICROS / lastFps;
        msc := lastSeq + deltaSeq;
      }
      return true, ust, msc + interpolated;
    }

    ghost function State(): Clock
      reads this
    {
      Clock(dpmsOn, lastUst, lastSeq, lastFps, interpolated)
    }

    /** One event, and the report if it is a query. */
    method Handle(e: Event) returns (report: seq<Option<nat>>)
      requires lastUst <= e.now && (lastUst != 0 ==> lastFps > 0)
      modifies this
      ensures State() == After(old(State()), e)
      ensures report == if e.Ask? then [Count(old(State()), e.frame, e.now)] else []
    {
      report := [];
      match e
      case Off(ust, f, clock, pixels, t) =>
        if dpmsOn {
          SwitchOff(Some((ust, f)), clock, pixels);
        }
      case On(t) =>
        if !dpmsOn {
          SwitchOn(Some(t));
        }
      case Ask(f, t) =>
        var ok, ust, msc := GetCrtcMsc(Some((t, f)), t);
        report := [if ok then Some(msc) else None];
    }

    /** Any run of power changes and queries: the counts reported. */
    method Drive(events: seq<Event>, ghost frame0: nat, ghost now0: nat) returns (reports: seq<Option<nat>>)
      requires Sound(events, frame0, now0) && lastUst <= now0 && (lastUst != 0 ==> lastFps > 0)
      modifies this
      ensures reports == Reports(events, old(State()), frame0, now0)
    {
      reports := [];
      ghost var frame, now := frame0, now0;
      var i := 0;
      while i < |events|
        invariant i <= |events| && Sound(events[i..], frame, now)
        invariant lastUst <= now && (lastUst != 0 ==> lastFps > 0)
        invariant reports + Reports(events[i..], State(), frame, now) == Reports(events, old(State()), frame0, now0)
      {
        var e := events[i];
        assert events[i..][0] == e && events[i..][1..] == events[i + 1..];
        ghost var c, rest := State(), Reports(events[i..], State(), frame, now);
        ghost var told := reports;
        var report := Handle(e);
        reports := reports + report;
        frame, now := FrameAfter(e, frame), e.now;
        assert told + rest == reports + Reports(events[i + 1..], State(), frame, now);
        i := i + 1;
      }
    }
  }

  // ----- What the reported counts are -----

  /** The power state of a CRTC with the record made when it was switched off. */
  datatype Clock = Clock(on: bool, ust: nat, frame: nat, fps: nat, interpolated: nat)

  function FrameAfter(e: Event, frame: nat): nat {
    if e.On? then frame else e.frame
  }

  /** Counter and clock never go back, the last vblank is not in the future, and the recorded
      rate is positive. */
  ghost predicate Sound(events: seq<Event>, frame: nat, now: nat) {
    events != [] ==>
      var e := events[0];
      && now <= e.now && frame <= FrameAfter(e, frame) && Sound(events[1..], FrameAfter(e, frame), e.now)
      && (e.Off? ==> e.ust <= e.now && NominalRate(e.clock, e.pixels) > 0)
  }

  /** The vblanks a CRTC that is off has missed. */
  function Missed(c: Clock, now: nat): nat
    requires c.ust <= now
  {
    if c.on || c.ust == 0 then 0 else Elapsed(c.ust, now, c.fps)
  }

  function After(c: Clock, e: Event): Clock
    requires c.ust <= e.now
  {
    match e
    case Off(ust, frame, clock, pixels, _) =>
      if c.on then Clock(false, ust, frame, NominalRate(clock, pixels), c.interpolated) else c
    case On(now) =>
      if c.on then c
      else c.(on := true,
              interpolated := if c.ust == 0 then c.interpolated else (c.interpolated + Missed(c, now)) % U32)
    case Ask(_, _) => c
  }

  /** The count given out at a time at which the kernel's counter is `frame`. */
  function Count(c: Clock, frame: nat, now: nat): Option<nat>
    requires c.ust <= now
  {
    if c.on then Some(frame + c.interpolated)
    else if c.ust == 0 then None
    else Some(c.frame + Missed(c, now) + c.interpolated)
  }

  /** The counts given out over a run. */
  ghost function Reports(events: seq<Event>, c: Clock, frame: nat, now: nat): seq<Option<nat>>
    requires Sound(events, frame, now) && c.ust <= now
    decreases |events|
  {
    if events == [] then []
    else
      var e := events[0];
      (if e.Ask? then [Count(c, e.frame, e.now)] else []) +
      Reports(events[1..], After(c, e), FrameAfter(e, frame), e.now)
  }

  /** The missed vblanks of the run fit the 32-bit count. */
  ghost predicate Fits(events: seq<Event>, c: Clock, frame: nat, now: nat)
    requires Sound(events, frame, now) && c.ust <= now
    decreases |events|
  {
    events != [] ==>
      var e := events[0];
      && (e.On? ==> c.interpolated + Missed(c, e.now) < U32)
      && Fits(events[1..], After(c, e), FrameAfter(e, frame), e.now)
  }

  /** What the next count is at least. */
  function Floor(c: Clock, frame: nat, now: nat): nat
    requires c.ust <= now
  {
    (if c.on || c.ust == 0 then frame else c.frame) + Missed(c, now) + c.interpolated
  }

  ghost predicate NeverBack(reports: seq<Option<nat>>) {
    forall i, j :: 0 <= i < j < |reports| && reports[i].Some? && reports[j].Some? ==>
        reports[i].value <= reports[j].value
  }

  ghost predicate AtLeast(reports: seq<Option<nat>>, n: nat) {
    forall i :: 0 <= i < |reports| && reports[i].Some? ==> reports[i].value >= n
  }

  /** An event does not lower what the next count is at least. */
  lemma FloorRises(c: Clock, e: Event, frame: nat, now: nat)
    requires Sound([e], frame, now) && c.ust <= now && c.frame <= frame &&
             (e.On? ==> c.interpolated + Missed(c, e.now) < U32)
    ensures var c' := After(c, e);
            c'.ust <= e.now && c'.frame <= FrameAfter(e, frame) &&
                Floor(c, frame, now) <= Floor(c', FrameAfter(e, frame), e.now)
  {
    ElapsedMono(c.ust, now, e.now, c.fps);
  }

  lemma {:induction false} NeverBackFrom(events: seq<Event>, c: Clock, frame: nat, now: nat)
    requires Sound(events, frame, now) && c.ust <= now && c.frame <= frame && Fits(events, c, frame, now)
    ensures NeverBack(Reports(events, c, frame, now)) && AtLeast(Reports(events, c, frame, now), Floor(c, frame, now))
    decreases |events|
  {
    if events != [] {
      var e := events[0];
      var c', frame' := After(c, e), FrameAfter(e, frame);
      FloorRises(c, e, frame, now);
      NeverBackFrom(events[1..], c', frame', e.now);
      var rest := Reports(events[1..], c', frame', e.now);
      if e.Ask? {
        assert Count(c, e.frame, e.now).Some? ==> Count(c, e.frame, e.now).value == Floor(c', frame', e.now);
        assert Reports(events, c, frame, now) == [Count(c, e.frame, e.now)] + rest;
      } else {
        assert Reports(events, c, frame, now) == rest;
      }
    }
  }

  /** Frame counts never go back: over any run of power changes and queries whose missed vblanks
      fit the 32-bit count, the counts reported for a CRTC that started switched on are
      nondecreasing, across transitions too. */
  lemma MscNeverBack(events: seq<Event>, frame: nat, now: nat)
    requires Sound(events, frame, now)
    requires Fits(events, Clock(true, 0, 0, 0, 0), frame, now)
    ensures NeverBack(Reports(events, Clock(true, 0, 0, 0, 0), frame, now))
  {
    NeverBackFrom(events, Clock(true, 0, 0, 0, 0), frame, now);
  }

  /** Once the 32-bit count wraps, a query after the CRTC is switched on goes back behind one
      made while it was off. */
  lemma WrapGoesBack(c: Clock, frame: nat, now: nat)
    requires !c.on && c.ust != 0 && c.ust <= now && c.frame <= frame < c.frame + U32 && c.interpolated < U32
    requires c.interpolated + Missed(c, now) >= U32
    ensures Count(After(c, On(now)), frame, now).value < Count(c, frame, now).value
  {
    var n := c.interpolated + Missed(c, now);
    assert n % U32 <= n - U32;
  }

  lemma StampBetween(t: nat, fps: nat)
    requires fps > 0
    ensures 0 <= t * fps / MICROS * MICROS / fps <= t
  {
    var s := t * fps / MICROS;
    QuotientAtLeast(t * fps, MICROS, 0);
    QuotientAtLeast(s * MICROS, fps, 0);
    assert s * MICROS <= t * fps < (t + 1) * fps;
    QuotientBelow(s * MICROS, fps, t + 1);
  }

  // ----- The emulated event of a CRTC that is off -----

  /** C division, for a positive divisor. */
  function CDiv(a: int, b: int): int
    requires b > 0
  {
    if a >= 0 then a / b else -((-a) / b)
  }

  /** The record of a CRTC that is off. */
  datatype Record = Record(ust: nat, frame: nat, fps: nat)

  /** When the frame would be shown. */
  function TimeOf(r: Record, frame: int): int
    requires r.fps > 0
  {
    r.ust + CDiv((frame - r.frame) * MICROS, r.fps)
  }

  /** Frame amdgpu_dri2_deferred_event computes at a time. */
  function FrameAt(r: Record, t: nat): nat
    requires r.ust <= t
  {
    r.frame + Elapsed(r.ust, t, r.fps)
  }

  /** Microseconds, cast to 32 bits, to timer milliseconds with a margin. */
  function TimerMillis(d: int): (ms: nat)
    ensures 0 <= d < U32 ==> d + 1000 <= 1000 * ms <= d + 2000
  {
    var c := d % U32;
    var ms := c / 1000;
    if c - ms * 1000 > 0 then ms + 2 else ms + 1
  }

  datatype Delay = Delay(target: int, micros: int)

  /** The frame to wait for when the divisor rule applies. */
  function NextMatching(current: nat, divisor: nat, remainder: nat): nat
    requires divisor > 0
  {
    var base := current - current % divisor + remainder;
    if current % divisor >= remainder then base + divisor else base
  }

  /** amdgpu_dri2_extrapolate_msc_delay with a usable record: the frame waited for and the
      time until then, before it is turned into milliseconds. */
  function Extrapolate(r: Record, now: nat, target: int, divisor: nat, remainder: nat): Delay
    requires r.fps > 0 && r.ust <= now
  {
    var d := TimeOf(r, target) - now;
    if d >= 0 then Delay(target, d)
    else
      var current := FrameAt(r, now) % U32;
      if divisor == 0 then Delay(current, 0)
      else
        var t := NextMatching(current, divisor, remainder) % U32;
        Delay(t, TimeOf(r, t) - now)
  }

  /** amdgpu_dri2_extrapolate_msc_delay: 16 ms and frame 0 without a record or a clock. */
  method ExtrapolateMscDelay(r: Record, clock: Option<nat>, target: int, divisor: nat, remainder: nat)
    returns (newTarget: int, ms: nat)
    requires r.ust != 0 ==> r.fps > 0 && (clock.Some? ==> r.ust <= clock.value)
    ensures r.ust == 0 || clock.None? ==> newTarget == 0 && ms == 16
    ensures r.ust != 0 && clock.Some? ==>
              var e := Extrapolate(r, clock.value, target, divisor, remainder);
              newTarget == e.target && ms == TimerMillis(e.micros)
  {
    newTarget := target;
    if r.ust == 0 || clock.None? {
      return 0, 16;
    }
    var now := clock.value;
    var d := r.ust + CDiv((newTarget - r.frame) * MICROS, r.fps) - now;
    if d < 0 {
      var current := (r.frame + (now - r.ust) * r.fps / MICROS) % U32;
      if divisor == 0 {
        newTarget, d := current, 0;
      } else {
        newTarget := current - current % divisor + remainder;
        if current % divisor >= remainder {
          newTarget := newTarget + divisor;
        }
        newTarget := newTarget % U32;
        d := r.ust + CDiv((newTarget - r.frame) * MICROS, r.fps) - now;
      }
    }
    var c := d % U32;
    ms := c / 1000;
    if c - ms * 1000 > 0 {
      ms := ms + 2;
    } else {
      ms := ms + 1;
    }
  }

  /** Nothing wraps in the branch for a missed target. */
  predicate NoWrap(r: Record, now: nat, divisor: nat, remainder: nat)
    requires r.ust <= now
  {
    FrameAt(r, now) + divisor + remainder < U32
  }

  lemma NextMatchingLater(current: nat, divisor: nat, remainder: nat)
    requires divisor > 0
    ensures current < NextMatching(current, divisor, remainder) <= current + divisor + remainder
  {
  }

  /** A frame after the current one is shown now or later: the delay recomputed after a miss
      is never negative. */
  lemma LaterFrameNotPast(r: Record, now: nat, frame: int)
    requires r.fps > 0 && r.ust <= now && frame > FrameAt(r, now)
    ensures TimeOf(r, frame) >= now
  {
    var e, k := (now - r.ust) * r.fps, frame - r.frame;
    assert e < k * MICROS by {
      if k * MICROS <= e { QuotientAtLeast(e, MICROS, k); }
    }
    QuotientAtLeast(k * MICROS, r.fps, now - r.ust);
  }

  lemma MillisMargin(d: nat)
    requires d < U32
    ensures 1000 * TimerMillis(d) >= d + 1000
  {
  }

  lemma MillisShort(d: nat)
    requires d >= U32
    ensures 1000 * TimerMillis(d) < d
  {
  }

  /** A timer that fires a microsecond or more after the time of a frame is not early. */
  lemma NotEarlyAt(r: Record, frame: int, t: nat)
    requires r.fps > 0 && r.ust <= t && TimeOf(r, frame) < t
    ensures FrameAt(r, t) >= frame
  {
    var k := frame - r.frame;
    if k > 0 {
      var q := k * MICROS / r.fps;
      MulMono(q + 1, t - r.ust, r.fps);
      assert k * MICROS < (q + 1) * r.fps by {
        if (q + 1) * r.fps <= k * MICROS { QuotientAtLeast(k * MICROS, r.fps, q + 1); }
      }
      QuotientAtLeast((t - r.ust) * r.fps, MICROS, k);
    }
  }

  /** Before the time of a frame, the frame is not reached. */
  lemma EarlyBefore(r: Record, frame: int, t: nat)
    requires r.fps > 0 && r.ust <= t < TimeOf(r, frame)
    ensures FrameAt(r, t) < frame
  {
    var k := frame - r.frame;
    var q := CDiv(k * MICROS, r.fps);
    assert k > 0 && q == k * MICROS / r.fps;
    MulMono(t - r.ust + 1, q, r.fps);
    assert q * r.fps <= k * MICROS;
    assert (t - r.ust + 1) * r.fps == (t - r.ust) * r.fps + r.fps;
    QuotientBelow((t - r.ust) * r.fps, MICROS, k);
  }

  lemma ExtrapolateNonNegative(r: Record, now: nat, target: int, divisor: nat, remainder: nat)
    requires r.fps > 0 && r.ust <= now && NoWrap(r, now, divisor, remainder)
    ensures Extrapolate(r, now, target, divisor, remainder).micros >= 0
  {
    hide TimeOf, NextMatching, Elapsed;
    if TimeOf(r, target) < now && divisor > 0 {
      var current := FrameAt(r, now);
      NextMatchingLater(current, divisor, remainder);
      LaterFrameNotPast(r, now, NextMatching(current, divisor, remainder));
    }
  }

  /** Either the delay is exactly the time until the target, or the target is the frame shown
      now and the delay is zero. */
  lemma ExtrapolateShape(r: Record, now: nat, target: int, divisor: nat, remainder: nat)
    requires r.fps > 0 && r.ust <= now && NoWrap(r, now, divisor, remainder)
    ensures var e := Extrapolate(r, now, target, divisor, remainder);
            TimeOf(r, e.target) == now + e.micros || (e.target == FrameAt(r, now) && e.micros == 0)
  {
  }

  /** The frame waited for: the target if it is still to come, otherwise the frame shown now or, with
      a divisor, the least later frame that leaves the remainder. */
  lemma ExtrapolateTarget(r: Record, now: nat, target: int, divisor: nat, remainder: nat)
    requires r.fps > 0 && r.ust <= now && NoWrap(r, now, divisor, remainder)
    ensures var t, current := Extrapolate(r, now, target, divisor, remainder).target, FrameAt(r, now);
            && (TimeOf(r, target) >= now ==> t == target)
            && (TimeOf(r, target) < now && divisor == 0 ==> t == current)
            && (TimeOf(r, target) < now && remainder < divisor ==>
                  && t > current && t % divisor == remainder
                  && forall m: nat :: current < m < t ==> m % divisor != remainder)
  {
    hide TimeOf, FrameAt, NextMatching;
    var current := FrameAt(r, now);
    if divisor > 0 {
      NextMatchingLater(current, divisor, remainder);
      LeastMatching(current, divisor, remainder);
      assert current % U32 == current;
      assert NextMatching(current, divisor, remainder) % U32 == NextMatching(current, divisor, remainder);
    }
  }

  /** The timer is never early, exactly as long as the delay fits the 32-bit cast: whenever it
      fires at or after the returned milliseconds, the frame computed then has reached the
      target, despite all the truncating divisions. */
  lemma TimerNeverEarlyIff(r: Record, now: nat, target: int, divisor: nat, remainder: nat)
    requires r.fps > 0 && r.ust <= now && NoWrap(r, now, divisor, remainder)
    ensures var e := Extrapolate(r, now, target, divisor, remainder);
            (forall t: nat :: t >= now + 1000 * TimerMillis(e.micros) ==> FrameAt(r, t) >= e.target) <==> e.micros < U32
  {
    hide Elapsed, TimeOf, TimerMillis, Extrapolate;
    var e := Extrapolate(r, now, target, divisor, remainder);
    ExtrapolateNonNegative(r, now, target, divisor, remainder);
    ExtrapolateShape(r, now, target, divisor, remainder);
    var first := now + 1000 * TimerMillis(e.micros);
    if e.micros < U32 {
      MillisMargin(e.micros);
      forall t: nat | t >= first ensures FrameAt(r, t) >= e.target {
        if TimeOf(r, e.target) == now + e.micros {
          NotEarlyAt(r, e.target, t);
        } else {
          ElapsedMono(r.ust, now, t, r.fps);
        }
      }
    } else {
      MillisShort(e.micros);
      EarlyBefore(r, e.target, first);
    }
  }

  /** A CRTC that ran at one frame per second and is asked for a frame two hours ahead: the timer
      fires a second after the delay modulo 2^32, long before the frame. */
  lemma TimerCanBeEarly()
    ensures var r, now, target := Record(1000000, 0, 1), 1000000, 7200;
            var e := Extrapolate(r, now, target, 0, 0);
            && e.target == target && e.micros == 7200000000 > U32
            && FrameAt(r, now + 1000 * TimerMillis(e.micros)) < target
  {
  }

  // ----- Divisor and remainder -----

  /** With remainder < divisor, the frame computed is the least one after the current one that
      leaves the remainder; with a larger remainder no frame does. */
  lemma LeastMatching(current: nat, divisor: nat, remainder: nat)
    requires divisor > 0
    ensures remainder < divisor ==>
              var t := NextMatching(current, divisor, remainder);
              t > current && t % divisor == remainder && forall m: nat :: current < m < t ==> m % divisor != remainder
    ensures remainder >= divisor ==> forall m: nat :: m % divisor != remainder
  {
    if remainder < divisor {
      var t, base := NextMatching(current, divisor, remainder), current - current % divisor;
      NextMatchingFrom(current, divisor, remainder);
      forall m: nat | current < m < t ensures m % divisor != remainder {
        if m < base + divisor {
          ModFrom(current, divisor, m - base);
        } else {
          ModFrom(current, divisor, m - base - divisor);
        }
      }
    }
  }

  lemma NextMatchingFrom(current: nat, divisor: nat, remainder: nat)
    requires remainder < divisor
    ensures NextMatching(current, divisor, remainder) % divisor == remainder
  {
    ModFrom(current, divisor, remainder);
  }

  /** Remainders of the frames in the current period and in the next. */
  lemma ModFrom(current: nat, divisor: nat, r: nat)
    requires r < divisor
    ensures (current - current % divisor + r) % divisor == r
    ensures (current - current % divisor + divisor + r) % divisor == r
  {
    var q := current / divisor;
    assert current == q * divisor + current % divisor;
    assert (q + 1) * divisor == q * divisor + divisor;
    DivMod(q * divisor + r, q, r, divisor);
    DivMod((q + 1) * divisor + r, q + 1, r, divisor);
  }

  /** The frame amdgpu_dri2_schedule_wait_msc asks the kernel for. `frame` is the kernel's
      current frame and `delta` the drawable's offset, both 32 bits. */
  method WaitRequest(target: nat, divisor: nat, remainder: nat, frame: nat, delta: nat) returns (request: nat)
    requires frame < U32 && delta < U32
    ensures request < U32
    ensures var current := (frame + delta) % U32;
            var wanted := if divisor == 0 || current < target then (if current < target then target else current)
                          else NextMatching(current, divisor, remainder);
            (request + delta) % U32 == wanted % U32
  {
    var current := (frame + delta) % U32;
    var t := target;
    if divisor == 0 || current < t {
      if current >= t {
        t := current;
      }
      Offset(t, delta);
      return (t - delta) % U32;
    }
    var wanted := current - current % divisor + remainder;
    if current % divisor >= remainder {
      wanted := wanted + divisor;
    }
    Offset(wanted, delta);
    return (wanted - delta) % U32;
  }

  lemma Offset(wanted: int, delta: nat)
    ensures ((wanted - delta) % U32 + delta) % U32 == wanted % U32
  {
    SameResidue((wanted - delta) % U32 + delta, wanted, -((wanted - delta) / U32));
  }

  lemma SameResidue(a: int, b: int, k: int)
    requires a == b + k * U32
    ensures a % U32 == b % U32
  {
  }

  /** The frame amdgpu_dri2_schedule_swap settles on in its divisor branch, in drawable frames,
      before the frame of flip lead is taken off. It compares the kernel frame, computed in
      64 bits, with the drawable's current frame. */
  function SwapChoice(current: nat, divisor: nat, remainder: nat, delta: nat): nat
    requires divisor > 0
  {
    var base := current - current % divisor + remainder;
    if (base - delta) % U64 <= current then base + divisor else base
  }

  /** The target after amdgpu_get_optimal_flip_target and the frame of flip lead: a flip is
      aimed at most three frames ahead, and at the next frame when its target has passed. */
  function SwapTarget(current: nat, target: nat, flip: bool, tuned: bool): nat {
    var t := if flip && tuned && (target <= current || target > current + 3) then current + 1 else target;
    if flip && t > 0 then t - 1 else t
  }

  /** A swap that does not flip keeps its target. A flip is submitted one frame before the frame it is
      to show; an adjusted one is aimed at one of the next three frames, at the target if that is
      one of them and at the next frame otherwise. */
  lemma SwapAim(current: nat, target: nat, flip: bool, tuned: bool)
    ensures var t := SwapTarget(current, target, flip, tuned);
            && (!flip ==> t == target)
            && (flip && !tuned ==> t == if target > 0 then target - 1 else 0)
            && (flip && tuned ==> current <= t <= current + 2)
            && (flip && tuned && current < target <= current + 3 ==> t + 1 == target)
            && (flip && tuned && !(current < target <= current + 3) ==> t == current)
  {
  }

  /** amdgpu_dri2_schedule_swap on a running CRTC: what the kernel is asked for. `tuned` says
      that the flip target is adjusted. */
  method SwapRequest(current: nat, target: nat, divisor: nat, remainder: nat, delta: nat, flip: bool, tuned: bool)
    returns (request: nat)
    requires current < U32 && remainder < U32 && delta < U32
    ensures request < U32
    ensures var t, lead := SwapTarget(current, target, flip, tuned), if flip then 1 else 0;
            if divisor == 0 || current < t then (request + delta) % U32 == (if current >= t then current else t) % U32
            else (request + lead + delta) % U32 == SwapChoice(current, divisor, remainder, delta) % U32
  {
    var t := target;
    if flip && tuned {
      if t <= current {
        t := current + 1;
      } else if t > current + 1 + 2 {
        t := current + 1;
      }
    }
    var lead := if flip then 1 else 0;
    if t > 0 {
      t := t - lead;
    }
    if divisor == 0 || current < t {
      if current >= t {
        t := current;
      }
      Offset(t, delta);
      return (t - delta) % U32;
    }
    var base := current - current % divisor + remainder;
    var event := (base - delta) % U64;
    if event <= current {
      event := event + divisor;
    }
    request := (event - lead) % U32;
    ghost var k := (base - delta) / U64;
    assert event == SwapChoice(current, divisor, remainder, delta) - delta - k * U64;
    SameResidue(request + lead + delta, SwapChoice(current, divisor, remainder, delta),
        -((event - lead) / U32) - k * U32);
  }

  /** The swap path picks the least matching frame exactly when taking off the offset does not
      move the candidate across the current frame. */
  lemma SwapLeastIff(current: nat, divisor: nat, remainder: nat, delta: nat)
    requires divisor > 0 && current < U32 && remainder < U32 && delta < U32
    ensures var base := current - current % divisor + remainder;
            SwapChoice(current, divisor, remainder, delta) == NextMatching(current, divisor, remainder) <==>
            if base < delta then base > current else !(current < base <= current + delta)
  {
    SwapCompares(current, current - current % divisor + remainder, delta);
  }

  lemma SwapCompares(current: nat, base: nat, delta: nat)
    requires current < U32 && base < 2 * U32 && delta < U32
    ensures ((base - delta) % U64 <= current <==> base <= current) <==>
            if base < delta then base > current else !(current < base <= current + delta)
  {
    if base < delta {
      assert (base - delta) % U64 == base - delta + U64;
    } else {
      assert (base - delta) % U64 == base - delta;
    }
  }

  /** Without an offset, wait and swap ask for the same frame, the swap one earlier if it flips. */
  lemma SwapAgreesWithWait(current: nat, divisor: nat, remainder: nat)
    requires divisor > 0 && current < U32 && remainder < U32
    ensures SwapChoice(current, divisor, remainder, 0) == NextMatching(current, divisor, remainder)
  {
    SwapLeastIff(current, divisor, remainder, 0);
  }

  /** With an offset the swap path can ask for a later frame than the least one. */
  lemma SwapCanSkip()
    ensures SwapChoice(10, 4, 3, 1) == 15 && NextMatching(10, 4, 3) == 11
  {
  }

  // ----- A drawable moving between CRTCs -----

  /** Value of a signed 32-bit sum. */
  function ToInt32(x: int): int {
    var m := x % U32;
    if m < U32 / 2 then m else m - U32
  }

  /** amdgpu_dri2_get_msc for a window. */
  function DrawableMsc(msc: int, vblankDelta: int): nat {
    (msc + vblankDelta) % U32
  }

  /** A window that never moved sees the CRTC's count, and one that stays sees it advance frame by
      frame, modulo 2^32. */
  lemma DrawableCounts(msc: int, delta: int, frames: int)
    ensures DrawableMsc(msc, 0) == msc % U32
    ensures DrawableMsc(msc + frames, delta) == (DrawableMsc(msc, delta) + frames) % U32
  {
    SameResidue(DrawableMsc(msc, delta) + frames, msc + frames + delta, -((msc + delta) / U32));
  }

  class Window {
    var crtc: Option<nat>
    var vblankDelta: int

    constructor ()
      ensures crtc.None? && vblankDelta == 0
    {
      crtc, vblankDelta := None, 0;
    }

    /** amdgpu_dri2_drawable_crtc: follow the window to the CRTC that shows most of it. If both
        counters can be read, its frame count is the same before and after. */
    method DrawableCrtc(best: Option<nat>, counters: map<nat, nat>) returns (chosen: Option<nat>)
      modifies this
      ensures chosen == crtc && crtc == (if best.Some? then best else old(crtc))
      ensures -0x8000_0000 <= old(vblankDelta) < 0x8000_0000 ==> -0x8000_0000 <= vblankDelta < 0x8000_0000
      ensures old(crtc).Some? && crtc.value in counters && old(crtc).value in counters ==>
                DrawableMsc(counters[crtc.value], vblankDelta) ==
                DrawableMsc(counters[old(crtc).value], old(vblankDelta))
      ensures !(old(crtc).Some? && crtc.value in counters && old(crtc).value in counters) ==>
              vblankDelta == old(vblankDelta)
    {
      chosen := best;
      if chosen.None? {
        chosen := crtc;
      } else if crtc.Some? && crtc != chosen {
        if crtc.value in counters && chosen.value in counters {
          MoveKeeps(counters[crtc.value], counters[chosen.value], vblankDelta);
          vblankDelta := ToInt32(vblankDelta + counters[crtc.value] - counters[chosen.value]);
        }
      }
      crtc := chosen;
    }
  }

  lemma MoveKeeps(from: int, to: int, delta: int)
    ensures DrawableMsc(to, ToInt32(delta + from - to)) == DrawableMsc(from, delta)
  {
    var x := delta + from - to;
    SameResidue(to + ToInt32(x), from + delta, if x % U32 < U32 / 2 then -(x / U32) else -(x / U32) - 1);
  }

  /** A stay on one CRTC: its counter when the drawable arrives and when it leaves. */
  datatype Stay = Stay(arrive: int, leave: int)

  /** vblank_delta after all moves between consecutive stays. */
  function DeltaAfter(stays: seq<Stay>, delta: int): int
    requires |stays| > 0
    decreases |stays|
  {
    if |stays| == 1 then delta
    else DeltaAfter(stays[1..], ToInt32(delta + stays[0].leave - stays[1].arrive))
  }

  /** Frames shown during all stays. */
  function Shown(stays: seq<Stay>): int {
    if stays == [] then 0 else stays[0].leave - stays[0].arrive + Shown(stays[1..])
  }

  /** Over any sequence of moves between CRTCs with arbitrary counters, a drawable's frame
      count advances, modulo 2^32, by exactly the frames each CRTC showed while it was there. */
  lemma {:induction false} DrawableMscContinuous(stays: seq<Stay>, delta: int)
    requires |stays| > 0
    ensures DrawableMsc(stays[|stays| - 1].leave, DeltaAfter(stays, delta)) ==
            (DrawableMsc(stays[0].arrive, delta) + Shown(stays)) % U32
    decreases |stays|
  {
    var a := stays[0];
    var first := DrawableMsc(a.arrive, delta);
    if |stays| == 1 {
      assert stays[1..] == [] && Shown(stays) == a.leave - a.arrive;
      SameResidue(first + Shown(stays), a.leave + delta, -((a.arrive + delta) / U32));
    } else {
      var next := ToInt32(delta + a.leave - stays[1].arrive);
      DrawableMscContinuous(stays[1..], next);
      MoveKeeps(a.leave, stays[1].arrive, delta);
      var moved := DrawableMsc(a.leave, delta);
      assert stays[1..][|stays| - 2] == stays[|stays| - 1];
      SameResidue(moved + Shown(stays[1..]), first + Shown(stays), (a.arrive + delta) / U32 - (a.leave + delta) / U32);
    }
  }
}
