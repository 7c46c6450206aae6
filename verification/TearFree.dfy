/**
 TearFree scanout of one CRTC: two scanout buffers, of which one is displayed. Each update
 copies only the damaged part of the screen, plus what the previous update copied into the
 other buffer. Pixels are functions of a point; the screen uses framebuffer coordinates and
 the scanout buffers use CRTC coordinates.
 */
module TearFree {
  datatype Point = Point(x: int, y: int)

  /** Half open; empty when x1 >= x2 or y1 >= y2. */
  datatype Box = Box(x1: int, y1: int, x2: int, y2: int)

  type Image = Point -> int

  const NO_BOX := Box(0, 0, 0, 0)

  /** Position and size of the CRTC in the framebuffer. */
  datatype Geometry = Geometry(x: int, y: int, w: nat, h: nat)

  predicate In(b: Box, p: Point) {
    b.x1 <= p.x < b.x2 && b.y1 <= p.y < b.y2
  }

  predicate Nil(b: Box) {
    b.x1 >= b.x2 || b.y1 >= b.y2
  }

  function Min(a: int, b: int): int { if a < b then a else b }

  function Max(a: int, b: int): int { if a < b then b else a }

  // ----- Regions -----

  /** Points of a region given as boxes. */
  predicate InSome(bs: seq<Box>, p: Point) {
    exists i :: 0 <= i < |bs| && In(bs[i], p)
  }

  /** Smallest box around two, ignoring empty ones. */
  function Around(a: Box, b: Box): (r: Box)
    ensures forall p :: In(a, p) || In(b, p) ==> In(r, p)
    ensures Nil(a) ==> r == b
    ensures !Nil(a) && Nil(b) ==> r == a
    ensures !Nil(a) && !Nil(b) ==>
              && (r.x1 == a.x1 || r.x1 == b.x1) && (r.x2 == a.x2 || r.x2 == b.x2)
              && (r.y1 == a.y1 || r.y1 == b.y1) && (r.y2 == a.y2 || r.y2 == b.y2)
  {
    if Nil(a) then b else if Nil(b) then a
    else Box(Min(a.x1, b.x1), Min(a.y1, b.y1), Max(a.x2, b.x2), Max(a.y2, b.y2))
  }

  function Extents(bs: seq<Box>): (r: Box)
    ensures forall p :: InSome(bs, p) ==> In(r, p)
  {
    if bs == [] then NO_BOX
    else
      var rest := Extents(bs[1..]);
      assert forall p :: InSome(bs, p) ==> In(bs[0], p) || InSome(bs[1..], p) by {
        forall p | InSome(bs, p) ensures In(bs[0], p) || InSome(bs[1..], p) {
          var i :| 0 <= i < |bs| && In(bs[i], p);
          if i > 0 { assert bs[i] == bs[1..][i - 1]; }
        }
      }
      Around(bs[0], rest)
  }

  /** RegionSubtract of two boxes: at most a band above, below, left and right of `b`. */
  function Subtract(a: Box, b: Box): (r: seq<Box>)
    ensures forall p :: InSome(r, p) <==> In(a, p) && !In(b, p)
  {
    var y1, y2 := Max(a.y1, Min(b.y1, a.y2)), Min(a.y2, Max(b.y2, a.y1));
    var r := if Nil(b) then [a]
             else [Box(a.x1, a.y1, a.x2, y1), Box(a.x1, y2, a.x2, a.y2),
                   Box(a.x1, y1, Min(a.x2, b.x1), y2), Box(Max(a.x1, b.x2), y1, a.x2, y2)];
    assert forall p :: InSome(r, p) <==> In(a, p) && !In(b, p) by {
      forall p ensures InSome(r, p) <==> In(a, p) && !In(b, p) {
        if Nil(b) {
          assert InSome(r, p) <==> In(r[0], p);
        } else {
          assert InSome(r, p) <==> In(r[0], p) || In(r[1], p) || In(r[2], p) || In(r[3], p);
        }
      }
    }
    r
  }

  function AllNil(bs: seq<Box>): bool {
    forall i :: 0 <= i < |bs| ==> Nil(bs[i])
  }

  // ----- Coordinates -----

  function ToScreen(g: Geometry, p: Point): Point {
    Point(p.x + g.x, p.y + g.y)
  }

  predicate OnCrtc(g: Geometry, p: Point) {
    0 <= p.x < g.w && 0 <= p.y < g.h
  }

  /** amdgpu_scanout_extents_intersect without rotation or transform: the box in CRTC
      coordinates, clipped to the CRTC. */
  function Clip(g: Geometry, b: Box): (r: Box)
    ensures forall p :: In(r, p) <==> In(b, ToScreen(g, p)) && OnCrtc(g, p)
  {
    Box(Max(b.x1 - g.x, 0), Max(b.y1 - g.y, 0), Min(b.x2 - g.x, g.w), Min(b.y2 - g.y, g.h))
  }

  lemma NilHasNoPoint(b: Box, p: Point)
    ensures In(b, p) ==> !Nil(b)
  {
  }

  // ----- The simple form, and what the fast form keeps -----

  /** Copy the whole screen. */
  function FullCopy(screen: Image, g: Geometry): Image {
    p => screen(ToScreen(g, p))
  }

  ghost predicate Agree(g: Geometry, a: Image, b: Image) {
    forall p :: OnCrtc(g, p) ==> a(p) == b(p)
  }

  /** Equal on the CRTC outside a box given in framebuffer coordinates. */
  ghost predicate AgreeOutside(g: Geometry, a: Image, b: Image, box: Box) {
    forall p :: OnCrtc(g, p) && !In(box, ToScreen(g, p)) ==> a(p) == b(p)
  }

  /** On the CRTC, `dst` is the screen inside the box; outside it is `other` inside the last
      region and what it was elsewhere. */
  ghost predicate Copied(g: Geometry, dst: Image, screen: Image, box: Box, last: Box, other: Image, was: Image) {
    forall p :: OnCrtc(g, p) ==> dst(p) == CopiedAt(g, screen, box, last, other, was, p)
  }

  ghost function CopiedAt(g: Geometry, screen: Image, box: Box, last: Box, other: Image, was: Image, p: Point): int {
    var q := ToScreen(g, p);
    if In(box, q) then screen(q) else if In(last, q) then other(p) else was(p)
  }

  ghost predicate Drawn(screen: Image, box: Box, pixels: Image, was: Image) {
    forall p :: screen(p) == if In(box, p) then pixels(p) else was(p)
  }

  /** Emptying the damage without copying it leaves a displayed buffer right, whatever the screen
      and the buffer hold, if and only if the damage did not touch the CRTC. */
  lemma ForgettingIff(g: Geometry, damage: Box)
    ensures (forall screen: Image, shown: Image :: AgreeOutside(g, shown, FullCopy(screen, g), damage) ==>
               Agree(g, shown, FullCopy(screen, g))) <==> Nil(Clip(g, damage))
  {
    var c := Clip(g, damage);
    if !Nil(c) {
      var p := Point(c.x1, c.y1);
      assert In(c, p) && OnCrtc(g, p) && In(damage, ToScreen(g, p));
      var screen: Image, shown: Image := q => 0, q => if q == p then 1 else 0;
      assert AgreeOutside(g, shown, FullCopy(screen, g), damage);
      assert shown(p) != FullCopy(screen, g)(p);
    } else {
      forall screen: Image, shown: Image | AgreeOutside(g, shown, FullCopy(screen, g), damage)
        ensures Agree(g, shown, FullCopy(screen, g))
      {
        forall p | OnCrtc(g, p) ensures shown(p) == FullCopy(screen, g)(p) {
          NilHasNoPoint(c, p);
        }
      }
    }
  }

  /** Same position, and at least as wide and as high. */
  predicate Covers(asked: Geometry, had: Geometry) {
    asked.x == had.x && asked.y == had.y && asked.w >= had.w && asked.h >= had.h
  }

  /** A buffer that was filled for a mode the kernel then refused is right for the old mode,
      whatever the screen and the rest of the buffer hold, if and only if the refused mode had
      the old position and covered the old one. */
  lemma RefusedModeIff(had: Geometry, asked: Geometry)
    requires had.w > 0 && had.h > 0
    ensures (forall screen: Image, shown: Image :: Agree(asked, shown, FullCopy(screen, asked)) ==>
               Agree(had, shown, FullCopy(screen, had))) <==> Covers(asked, had)
  {
    if asked.w < had.w {
      OutsideWrong(had, asked, Point(asked.w, 0));
    } else if asked.h < had.h {
      OutsideWrong(had, asked, Point(0, asked.h));
    } else if !Covers(asked, had) {
      var corner := Point(0, 0);
      var p := ToScreen(had, corner);
      var screen: Image := q => if q == p then 1 else 0;
      var shown := FullCopy(screen, asked);
      assert OnCrtc(had, corner) && ToScreen(asked, corner) != p;
      assert shown(corner) == 0 && FullCopy(screen, had)(corner) == 1;
      assert Agree(asked, shown, FullCopy(screen, asked)) && !Agree(had, shown, FullCopy(screen, had));
    } else {
      forall screen: Image, shown: Image | Agree(asked, shown, FullCopy(screen, asked))
        ensures Agree(had, shown, FullCopy(screen, had))
      {
        CoveredAgree(had, asked, shown, screen);
      }
    }
  }

  /** A pixel that the refused mode did not have was not filled. */
  lemma OutsideWrong(had: Geometry, asked: Geometry, p: Point)
    requires OnCrtc(had, p) && !OnCrtc(asked, p)
    ensures exists screen: Image, shown: Image ::
              Agree(asked, shown, FullCopy(screen, asked)) && !Agree(had, shown, FullCopy(screen, had))
  {
    var screen: Image, shown: Image := q => 0, q => if q == p then 1 else 0;
    assert Agree(asked, shown, FullCopy(screen, asked));
    assert shown(p) == 1 && FullCopy(screen, had)(p) == 0;
    assert !Agree(had, shown, FullCopy(screen, had));
  }

  lemma CoveredAgree(had: Geometry, asked: Geometry, shown: Image, screen: Image)
    requires Covers(asked, had) && Agree(asked, shown, FullCopy(screen, asked))
    ensures Agree(had, shown, FullCopy(screen, had))
  {
    forall p | OnCrtc(had, p) ensures shown(p) == FullCopy(screen, had)(p) {
      assert OnCrtc(asked, p) && ToScreen(asked, p) == ToScreen(had, p);
    }
  }

  /** Buffers that are right for a mode are right for one that it covers. */
  lemma CoveredKeeps(had: Geometry, asked: Geometry, shown: Image, other: Image, screen: Image, last: Box)
    requires Covers(asked, had) && Agree(asked, shown, FullCopy(screen, asked))
    ensures AgreeOutside(had, shown, FullCopy(screen, had), NO_BOX)
    ensures AgreeOutside(asked, other, shown, last) ==> AgreeOutside(had, other, shown, last)
  {
    CoveredAgree(had, asked, shown, screen);
  }

  /** A frame handed to a flip: the buffer and the screen at that moment. */
  datatype Frame = Frame(geometry: Geometry, shown: Image, screen: Image)

  ghost predicate Whole(f: Frame) {
    Agree(f.geometry, f.shown, FullCopy(f.screen, f.geometry))
  }

  /** The mode asked for lies within the screen. */
  predicate Fits(g: Geometry, virtual: Box) {
    g.w > 0 && g.h > 0 && virtual.x1 <= g.x && virtual.y1 <= g.y && g.x + g.w <= virtual.x2 && g.y + g.h <= virtual.y2
  }

  lemma ModeShows(g: Geometry, virtual: Box)
    requires Fits(g, virtual)
    ensures !Nil(virtual) && !Nil(Clip(g, virtual)) && forall p :: OnCrtc(g, p) ==> In(virtual, ToScreen(g, p))
  {
    assert OnCrtc(g, Point(0, 0)) && In(Clip(g, virtual), Point(0, 0));
    NilHasNoPoint(Clip(g, virtual), Point(0, 0));
  }

  /** What can happen to the CRTC. */
  datatype Event =
    | Draw(box: Box, pixels: Image)
    | BlockHandler(flipOk: bool, vblankOk: bool)
    | FlipDone
    | VblankDone
    | SetPower(enabled: bool, on: bool)
    | SetMode(geometry: Geometry, virtual: Box, tearFree: bool, blank: seq<Image>, ok: bool)

  /** The event sets a mode, or asks the kernel for one. */
  predicate Asks(e: Event, enabled: bool) {
    e.SetMode? && enabled && |e.blank| == 2 && Fits(e.geometry, e.virtual)
  }

  function GeometryAfter(e: Event, g: Geometry, enabled: bool): Geometry {
    if Asks(e, enabled) && e.ok then e.geometry else g
  }

  function EnabledAfter(e: Event, enabled: bool): bool {
    if e.SetPower? then e.enabled else enabled
  }

  /** A mode that the kernel refuses covers the mode of the CRTC. */
  predicate Harmless(e: Event, g: Geometry, enabled: bool) {
    Asks(e, enabled) && !e.ok ==> Covers(e.geometry, g)
  }

  /** Every mode that the kernel refuses in the run covers the one the CRTC then has. */
  predicate AllHarmless(events: seq<Event>, g: Geometry, enabled: bool)
    decreases |events|
  {
    events != [] ==>
      && Harmless(events[0], g, enabled)
      && AllHarmless(events[1..], GeometryAfter(events[0], g, enabled), EnabledAfter(events[0], enabled))
  }

  // ----- What an event does -----

  /** The state of the CRTC at one moment. */
  datatype View = View(
    screen: Image, geometry: Geometry, enabled: bool, dpmsOn: bool, tearFree: bool,
    buffer: seq<Image>, present: seq<bool>, width: seq<nat>, height: seq<nat>, id: nat,
    damage: Box, lastRegion: Box, flipPending: bool, vblankPending: bool, frames: seq<Frame>)

  ghost predicate Formed(v: View) {
    |v.buffer| == 2 && |v.present| == 2 && |v.width| == 2 && |v.height| == 2 && v.id < 2
  }

  /** The CRTC is idle and shows some damage. */
  predicate ShowsDamage(v: View) {
    v.enabled && !v.flipPending && v.dpmsOn && !Nil(v.damage) && !Nil(Clip(v.geometry, v.damage))
  }

  /** Buffer k of b has the damage copied, and what the last region holds from the other buffer. */
  ghost predicate DamageCopied(a: View, k: nat, b: View)
    requires Formed(a) && k < 2
  {
    && |b.buffer| == 2 && b.buffer[1 - k] == a.buffer[1 - k]
    && Copied(a.geometry, b.buffer[k], a.screen, a.damage, if a.tearFree then a.lastRegion else NO_BOX,
              a.buffer[1 - k], a.buffer[k])
  }

  /** amdgpu_scanout_update_handler. */
  ghost predicate CopiedNow(a: View, b: View)
    requires Formed(a)
  {
    if !ShowsDamage(a) then b == a.(vblankPending := false)
    else
      && DamageCopied(a, a.id, b)
      && b == a.(buffer := b.buffer, damage := NO_BOX, lastRegion := if a.tearFree then a.damage else a.lastRegion,
                 vblankPending := false)
  }

  /** amdgpu_scanout_update. */
  ghost predicate Updated(a: View, vblankOk: bool, b: View)
    requires Formed(a)
  {
    if !a.enabled || a.vblankPending || a.flipPending || !a.dpmsOn || Nil(a.damage) then b == a
    else if Nil(Clip(a.geometry, a.damage)) then b == a.(damage := NO_BOX)
    else if vblankOk then b == a.(vblankPending := true)
    else CopiedNow(a, b)
  }

  /** The end of amdgpu_scanout_flip after a refused flip. */
  ghost predicate GaveUp(a: View, vblankOk: bool, b: View)
    requires Formed(a)
  {
    exists c ::
      && Updated(a.(damage := a.lastRegion, lastRegion := NO_BOX), vblankOk, c) && |c.present| == 2
      && b == c.(present := c.present[1 - a.id := false], tearFree := false)
  }

  lemma GivesUp(a: View, vblankOk: bool, c: View)
    requires Formed(a) && |c.present| == 2
    requires Updated(a.(damage := a.lastRegion, lastRegion := NO_BOX), vblankOk, c)
    ensures GaveUp(a, vblankOk, c.(present := c.present[1 - a.id := false], tearFree := false))
  {
  }

  /** amdgpu_scanout_flip. */
  ghost predicate FlippedTo(a: View, flipOk: bool, vblankOk: bool, b: View)
    requires Formed(a)
  {
    if a.vblankPending || !ShowsDamage(a) then b == a
    else
      var k := 1 - a.id;
      exists c ::
        && DamageCopied(a, k, c) && c == a.(buffer := c.buffer, lastRegion := a.damage, damage := NO_BOX)
        && if flipOk then b == c.(id := k, flipPending := true,
                                  frames := a.frames + [Frame(a.geometry, c.buffer[k], a.screen)])
           else GaveUp(c, vblankOk, b)
  }

  lemma NoFlip(a: View, flipOk: bool, vblankOk: bool)
    requires Formed(a)
    ensures a.vblankPending || !ShowsDamage(a) ==> FlippedTo(a, flipOk, vblankOk, a)
  {
  }

  lemma FlipDetermined(a: View, flipOk: bool, vblankOk: bool, c: View, b: View)
    requires Formed(a) && !a.vblankPending && ShowsDamage(a) && DamageCopied(a, 1 - a.id, c)
    requires c == a.(buffer := c.buffer, lastRegion := a.damage, damage := NO_BOX)
    requires if flipOk then b == c.(id := 1 - a.id, flipPending := true,
                                    frames := a.frames + [Frame(a.geometry, c.buffer[1 - a.id], a.screen)])
             else GaveUp(c, vblankOk, b)
    ensures FlippedTo(a, flipOk, vblankOk, b)
  {
    hide GaveUp, Copied;
  }

  /** drmmode_set_mode_major: the whole screen is copied for the mode asked for. */
  ghost predicate ModeAsked(a: View, e: Event, b: View)
    requires e.SetMode?
  {
    && Formed(b) && b.tearFree == e.tearFree && b.geometry == (if e.ok then e.geometry else a.geometry)
    && b.id == (if e.tearFree then a.id else 0) && b.damage == NO_BOX
    && b.lastRegion == (if e.tearFree then e.virtual else a.lastRegion)
    && b.vblankPending == (a.flipPending && a.vblankPending)
    && Agree(e.geometry, b.buffer[b.id], FullCopy(a.screen, e.geometry))
    && b.screen == a.screen && b.enabled == a.enabled && b.dpmsOn == a.dpmsOn && b.flipPending == a.flipPending
    && b.frames == a.frames
  }

  ghost predicate Happens(a: View, e: Event, b: View)
    requires Formed(a)
  {
    match e
    case Draw(box, pixels) =>
      Drawn(b.screen, box, pixels, a.screen) && b == a.(screen := b.screen, damage := Around(a.damage, box))
    case BlockHandler(flipOk, vblankOk) =>
      if a.tearFree then FlippedTo(a, flipOk, vblankOk, b) else Updated(a, vblankOk, b)
    case FlipDone => b == a.(flipPending := false)
    case VblankDone => if a.vblankPending then CopiedNow(a, b) else b == a
    case SetPower(enabled, on) => b == a.(enabled := enabled, dpmsOn := on)
    case SetMode(_, _, _, _, _) => if Asks(e, a.enabled) then ModeAsked(a, e, b) else b == a
  }

  /** The events happened one after the other. */
  ghost predicate AllHappen(a: View, events: seq<Event>, b: View)
    decreases |events|
  {
    if events == [] then a == b
    else
      var front, last := events[..|events| - 1], events[|events| - 1];
      exists m :: AllHappen(a, front, m) && Formed(m) && Happens(m, last, b)
  }

  lemma HappensMore(a: View, events: seq<Event>, m: View, e: Event, b: View)
    requires AllHappen(a, events, m) && Formed(m) && Happens(m, e, b)
    ensures AllHappen(a, events + [e], b)
  {
    var all := events + [e];
    assert all[..|all| - 1] == events && all[|all| - 1] == e;
  }

  /** With the invariant, the spare buffer becomes the whole screen, and the displayed one then differs
      from it only in the damage. */
  lemma SparePixels(g: Geometry, front: Image, spare: Image, filled: Image, screen: Image, damage: Box, last: Box)
    requires Copied(g, filled, screen, damage, last, front, spare)
    ensures AgreeOutside(g, front, FullCopy(screen, g), damage) && AgreeOutside(g, spare, front, last) ==>
              && Agree(g, filled, FullCopy(screen, g)) && AgreeOutside(g, front, filled, damage)
              && AgreeOutside(g, filled, FullCopy(screen, g), NO_BOX)
  {
    if AgreeOutside(g, front, FullCopy(screen, g), damage) && AgreeOutside(g, spare, front, last) {
      forall p | OnCrtc(g, p) ensures filled(p) == FullCopy(screen, g)(p) {
        assert filled(p) == CopiedAt(g, screen, damage, last, front, spare, p);
      }
    }
  }

  class Scanout {
    var screen: Image
    var geometry: Geometry
    var enabled: bool
    var dpmsOn: bool
    var tearFree: bool
    var buffer: seq<Image>
    var present: seq<bool>
    var width: seq<nat>
    var height: seq<nat>
    var id: nat
    var damage: Box
    var lastRegion: Box
    var flipPending: bool
    var vblankPending: bool
    ghost var frames: seq<Frame>

    ghost predicate Shape()
      reads this
    {
      && |buffer| == 2 && |present| == 2 && |width| == 2 && |height| == 2 && id < 2
      && present[id] && (tearFree ==> present[1 - id])
    }

    ghost function Now(): View
      reads this
    {
      View(screen, geometry, enabled, dpmsOn, tearFree, buffer, present, width, height, id, damage, lastRegion,
           flipPending, vblankPending, frames)
    }

    /** The buffer that the driver takes for the displayed one shows the screen outside the damage.
        Only a refused mode makes it another one than the kernel displays (see ScanoutModeset). */
    ghost predicate FrontOk()
      reads this
    {
      Shape() && AgreeOutside(geometry, buffer[id], FullCopy(screen, geometry), damage)
    }

    /** In addition the spare buffer equals the displayed one outside the last region, a copy
        scheduled for the next vblank is not a TearFree one, and every frame handed to a flip
        was the whole screen. */
    ghost predicate Valid()
      reads this
    {
      && FrontOk()
      && (tearFree ==> AgreeOutside(geometry, buffer[1 - id], buffer[id], lastRegion))
      && (vblankPending ==> !tearFree && !flipPending)
      && (forall i :: 0 <= i < |frames| ==> Whole(frames[i]))
    }

    /** The pixmap of buffer k has the size of a mode. */
    predicate Sized(k: nat, g: Geometry)
      reads this
    {
      k < |width| && k < |height| && k < |present| && present[k] && width[k] == g.w && height[k] == g.h
    }

    /** Before the first mode set everything is damaged. */
    constructor (screen: Image, geometry: Geometry, content: Image)
      ensures Valid() && frames == [] && this.screen == screen && this.geometry == geometry
      ensures enabled && dpmsOn && !flipPending && !vblankPending && id == 0
    {
      this.screen, this.geometry, enabled, dpmsOn, tearFree := screen, geometry, true, true, false;
      buffer, present, id := [content, content], [true, false], 0;
      width, height := [geometry.w, 0], [geometry.h, 0];
      damage := Box(geometry.x, geometry.y, geometry.x + geometry.w, geometry.y + geometry.h);
      lastRegion, flipPending, vblankPending, frames := NO_BOX, false, false, [];
    }

    /** amdgpu_sync_scanout_pixmaps: bring buffer k up to date with the other one where the
        last update touched that one, except where the coming update will copy anyway. */
    method SyncScanoutPixmaps(newRegion: Box, k: nat)
      requires Shape() && k < 2
      modifies this`buffer
      ensures |buffer| == 2 && buffer[1 - k] == old(buffer[1 - k])
      ensures forall p :: OnCrtc(geometry, p) ==>
                buffer[k](p) == if In(lastRegion, ToScreen(geometry, p)) && !In(newRegion, ToScreen(geometry, p))
                                then old(buffer)[1 - k](p) else old(buffer)[k](p)
    {
      if Nil(lastRegion) {
        return;
      }
      var remaining := Subtract(lastRegion, newRegion);
      assert forall p :: InSome(remaining, p) <==> In(lastRegion, p) && !In(newRegion, p);
      if AllNil(remaining) {
        return;
      }
      var g := geometry;
      var extents := Clip(g, Extents(remaining));
      if Nil(extents) {
        assert forall p :: OnCrtc(g, p) && InSome(remaining, ToScreen(g, p)) ==> In(extents, p);
        return;
      }
      var src, dst := buffer[1 - k], buffer[k];
      buffer := buffer[k := p => if OnCrtc(g, p) && InSome(remaining, ToScreen(g, p)) then src(p) else dst(p)];
    }

    /** amdgpu_scanout_do_update: copy a part of the screen into buffer k. */
    method ScanoutDoUpdate(k: nat, extents: Box) returns (done: bool)
      requires Shape() && k < 2
      modifies this`buffer, this`lastRegion
      ensures done <==> enabled && present[k] && !Nil(extents) && !Nil(Clip(geometry, extents))
      ensures |buffer| == 2 && buffer[1 - k] == old(buffer[1 - k])
      ensures !done ==> buffer == old(buffer) && lastRegion == old(lastRegion)
      ensures done ==> lastRegion == if tearFree then extents else old(lastRegion)
      ensures done ==> Copied(geometry, buffer[k], screen, extents, if tearFree then old(lastRegion) else NO_BOX,
                              old(buffer[1 - k]), old(buffer[k]))
    {
      if !enabled || !present[k] || Nil(extents) {
        return false;
      }
      var clipped := Clip(geometry, extents);
      if Nil(clipped) {
        return false;
      }
      if tearFree {
        SyncScanoutPixmaps(extents, k);
        lastRegion := extents;
      }
      var g, src, dst := geometry, screen, buffer[k];
      buffer := buffer[k := p => if In(clipped, p) then src(ToScreen(g, p)) else dst(p)];
      return true;
    }

    /** The displayed buffer is about to be copied to: the CRTC is idle and shows some damage. */
    ghost predicate Copies()
      reads this
    {
      enabled && !flipPending && dpmsOn && !Nil(damage) && !Nil(Clip(geometry, damage))
    }

    /** amdgpu_scanout_update_handler: copy the damage into the displayed buffer. While TearFree
        is being given up the last region is empty, so nothing is taken from the spare buffer. */
    method ScanoutUpdateHandler()
      requires Shape()
      modifies this`buffer, this`lastRegion, this`damage, this`vblankPending
      ensures Shape() && !vblankPending && buffer[1 - id] == old(buffer[1 - id])
      ensures CopiedNow(old(Now()), Now())
      ensures if old(Copies()) then damage == NO_BOX
              else damage == old(damage) && buffer == old(buffer) && lastRegion == old(lastRegion)
      ensures old(FrontOk()) && (tearFree ==> Nil(old(lastRegion))) ==>
                FrontOk() && (old(Copies()) ==> Agree(geometry, buffer[id], FullCopy(screen, geometry)))
    {
      if enabled && !flipPending && dpmsOn {
        var done := ScanoutDoUpdate(id, damage);
        if done {
          damage := NO_BOX;
        }
      }
      vblankPending := false;
    }

    /** amdgpu_scanout_update: copy the damage at the next vblank, or now if none can be had. */
    method ScanoutUpdate(vblankOk: bool)
      requires Shape()
      modifies this`buffer, this`lastRegion, this`damage, this`vblankPending
      ensures Shape() && buffer[1 - id] == old(buffer[1 - id])
      ensures Updated(old(Now()), vblankOk, Now())
      ensures old(FrontOk()) && (tearFree ==> Nil(old(lastRegion))) ==> FrontOk()
      ensures vblankPending ==> old(vblankPending) || !flipPending
      ensures if !enabled || old(vblankPending) || flipPending || !dpmsOn || Nil(old(damage))
              then damage == old(damage) && buffer == old(buffer) && vblankPending == old(vblankPending)
              else if Nil(Clip(geometry, old(damage))) then damage == NO_BOX && buffer == old(buffer) && !vblankPending
              else if vblankOk then vblankPending && damage == old(damage) && buffer == old(buffer)
              else !vblankPending && damage == NO_BOX
      ensures old(FrontOk()) && (tearFree ==> Nil(old(lastRegion))) && old(Copies()) && !old(vblankPending) &&
              !vblankOk ==>
                Agree(geometry, buffer[id], FullCopy(screen, geometry))
    {
      if !enabled || vblankPending || flipPending || !dpmsOn {
        return;
      }
      if Nil(damage) {
        return;
      }
      if Nil(Clip(geometry, damage)) {
        assert forall p :: OnCrtc(geometry, p) ==>
               (In(damage, ToScreen(geometry, p)) <==> In(Clip(geometry, damage), p));
        damage := NO_BOX;
        return;
      }
      if vblankOk {
        vblankPending := true;
      } else {
        ScanoutUpdateHandler();
      }
    }

    /** The end of amdgpu_scanout_flip when the kernel refuses the flip: the last region becomes
        damage again, so that it covers every stale pixel of the displayed buffer; it is copied
        at the next vblank or now, and TearFree is given up. */
    method GiveUpTearFree(vblankOk: bool)
      requires Shape() && tearFree && enabled && dpmsOn && !flipPending && !vblankPending
      requires !Nil(lastRegion) && !Nil(Clip(geometry, lastRegion))
      modifies this`damage, this`lastRegion, this`buffer, this`vblankPending, this`present, this`tearFree
      ensures Shape() && !tearFree && !present[1 - id] && vblankPending == vblankOk
      ensures GaveUp(old(Now()), vblankOk, Now())
      ensures vblankOk ==> damage == old(lastRegion)
      ensures AgreeOutside(geometry, old(buffer[id]), FullCopy(screen, geometry), old(lastRegion)) ==>
                FrontOk() && (!vblankOk ==> Agree(geometry, buffer[id], FullCopy(screen, geometry)))
    {
      hide Copied, Clip, Nil, Agree, AgreeOutside, FullCopy, CopiedNow, Updated, GaveUp, Whole;
      UpdateLast(vblankOk);
      GivesUp(old(Now()), vblankOk, Now());
      present := present[1 - id := false];
      tearFree := false;
    }

    /** The last region becomes the damage, which is updated. */
    method UpdateLast(vblankOk: bool)
      requires Shape() && enabled && dpmsOn && !flipPending && !vblankPending
      requires !Nil(lastRegion) && !Nil(Clip(geometry, lastRegion))
      modifies this`damage, this`lastRegion, this`buffer, this`vblankPending
      ensures Shape() && vblankPending == vblankOk && (vblankOk ==> damage == old(lastRegion))
      ensures Updated(old(Now()).(damage := old(lastRegion), lastRegion := NO_BOX), vblankOk, Now())
      ensures AgreeOutside(geometry, old(buffer[id]), FullCopy(screen, geometry), old(lastRegion)) ==>
                FrontOk() && (!vblankOk ==> Agree(geometry, buffer[id], FullCopy(screen, geometry)))
    {
      assert Nil(NO_BOX);
      hide Copied, Clip, Nil, Agree, AgreeOutside, FullCopy, Updated;
      damage := lastRegion;
      lastRegion := NO_BOX;
      ScanoutUpdate(vblankOk);
    }

    /** The TearFree CRTC is idle and shows some of the damage. */
    ghost predicate Flips()
      reads this
    {
      !vblankPending && Copies()
    }

    /** amdgpu_scanout_flip: update the spare buffer and flip to it. If the kernel refuses,
        the damage is restored and TearFree is given up. */
    method ScanoutFlip(flipOk: bool, vblankOk: bool)
      requires Shape() && tearFree
      modifies this`buffer, this`lastRegion, this`damage, this`vblankPending, this`present, this`tearFree,
               this`id, this`flipPending, this`frames
      ensures Shape() && (old(Valid()) ==> Valid())
      ensures FlippedTo(old(Now()), flipOk, vblankOk, Now())
      ensures !old(Flips()) ==>
                tearFree && frames == old(frames) && buffer == old(buffer) && damage == old(damage) && id == old(id)
      ensures old(Flips()) && flipOk ==>
                && tearFree && flipPending && id == 1 - old(id) && damage == NO_BOX
                && frames == old(frames) + [Frame(geometry, buffer[id], screen)]
                && Copied(geometry, buffer[id], screen, old(damage), old(lastRegion), old(buffer[id]),
                    old(buffer[1 - id]))
      ensures old(Valid()) && old(Flips()) && flipOk ==> Agree(geometry, buffer[id], FullCopy(screen, geometry))
      ensures old(Flips()) && !flipOk ==>
                && !tearFree && frames == old(frames) && id == old(id) && vblankPending == vblankOk
                && (vblankOk ==> damage == old(damage))
                && (old(Valid()) && !vblankOk ==> Agree(geometry, buffer[id], FullCopy(screen, geometry)))
    {
      hide Clip, Nil, Agree, AgreeOutside, FullCopy, Copied, GaveUp, FlippedTo, Whole;
      NoFlip(Now(), flipOk, vblankOk);
      if vblankPending || flipPending || !dpmsOn {
        return;
      }
      var done := CopyToSpare();
      if !done {
        return;
      }
      ghost var copied := Now();
      if flipOk {
        FlipToSpare();
      } else {
        GiveUpTearFree(vblankOk);
      }
      FlipDetermined(old(Now()), flipOk, vblankOk, copied, Now());
    }

    /** Bring the spare buffer up to date and empty the damage. */
    method CopyToSpare() returns (done: bool)
      requires Shape() && tearFree
      modifies this`buffer, this`lastRegion, this`damage
      ensures done <==> enabled && !Nil(old(damage)) && !Nil(Clip(geometry, old(damage)))
      ensures !done ==> Now() == old(Now())
      ensures done ==> Shape() && DamageCopied(old(Now()), 1 - id, Now())
      ensures done ==> Now() == old(Now()).(buffer := buffer, lastRegion := old(damage), damage := NO_BOX)
      ensures done && old(Valid()) ==>
                && Agree(geometry, buffer[1 - id], FullCopy(screen, geometry))
                && AgreeOutside(geometry, buffer[1 - id], FullCopy(screen, geometry), damage)
                && AgreeOutside(geometry, buffer[id], buffer[1 - id], lastRegion)
                && AgreeOutside(geometry, buffer[id], FullCopy(screen, geometry), lastRegion)
    {
      hide Clip, Nil, Agree, AgreeOutside, FullCopy, Copied, Whole;
      var k := 1 - id;
      done := ScanoutDoUpdate(k, damage);
      if done {
        damage := NO_BOX;
        SparePixels(geometry, buffer[id], old(buffer[k]), buffer[k], screen, old(damage), old(lastRegion));
      }
    }

    /** The kernel takes the flip to the spare buffer. */
    method FlipToSpare()
      requires Shape() && tearFree
      modifies this`id, this`flipPending, this`frames
      ensures Shape() && Now() == old(Now()).(id := 1 - old(id), flipPending := true, frames := frames)
      ensures frames == old(frames) + [Frame(geometry, buffer[id], screen)]
      ensures Agree(geometry, buffer[id], FullCopy(screen, geometry)) ==> Whole(frames[|frames| - 1])
    {
      id := 1 - id;
      flipPending := true;
      frames := frames + [Frame(geometry, buffer[id], screen)];
    }

    /** amdgpu_scanout_flip when the FB lookup or the queue entry fails after the damage was
        emptied. The displayed buffer is as before and its damage forgotten, which ForgettingIff
        shows to be right for all contents exactly if there was no damage on the CRTC. */
    method FlipWithoutEntry()
      requires Shape() && tearFree
      modifies this`buffer, this`lastRegion, this`damage
      ensures Shape() && buffer[id] == old(buffer[id])
      ensures if old(Flips()) then damage == NO_BOX && lastRegion == old(damage)
              else damage == old(damage) && lastRegion == old(lastRegion) && buffer == old(buffer)
      ensures old(Flips()) ==>
                Copied(geometry, buffer[1 - id], screen, old(damage), old(lastRegion), old(buffer[id]),
                    old(buffer[1 - id]))
    {
      if vblankPending || flipPending || !dpmsOn {
        return;
      }
      var done := ScanoutDoUpdate(1 - id, damage);
      if done {
        damage := NO_BOX;
      }
    }

    /** Buffers of the size of the mode; one of another size is made anew, with any content. */
    method CreateBuffers(g: Geometry, tf: bool, blank: seq<Image>)
      requires Shape() && |blank| == 2
      modifies this`geometry, this`tearFree, this`id, this`buffer, this`present, this`width, this`height
      ensures Shape() && geometry == g && tearFree == tf && id == (if tf then old(id) else 0)
      ensures Sized(id, g) && (tf ==> Sized(1 - id, g))
      ensures old(Sized(id, g)) && id == old(id) ==> buffer[id] == old(buffer[id])
    {
      geometry, tearFree := g, tf;
      if !tf {
        id := 0;
      }
      CreateBuffer(id, g, blank[id]);
      if tf {
        CreateBuffer(1 - id, g, blank[1 - id]);
      }
    }

    /** drmmode_crtc_scanout_create. */
    method CreateBuffer(k: nat, g: Geometry, content: Image)
      requires |buffer| == 2 && |present| == 2 && |width| == 2 && |height| == 2 && k < 2
      modifies this`buffer, this`present, this`width, this`height
      ensures |buffer| == 2 && |present| == 2 && |width| == 2 && |height| == 2 && Sized(k, g)
      ensures buffer == if old(Sized(k, g)) then old(buffer) else old(buffer)[k := content]
      ensures present[1 - k] == old(present[1 - k]) && width[1 - k] == old(width[1 - k]) &&
              height[1 - k] == old(height[1 - k])
    {
      if Sized(k, g) {
        return;
      }
      buffer, present := buffer[k := content], present[k := true];
      width, height := width[k := g.w], height[k := g.h];
    }

    /** drmmode_crtc_scanout_update and its place in drmmode_set_mode_major: buffers that do not
        fit are made anew, then the whole screen is copied for the new geometry, and only then
        the kernel is asked. If it refuses, the geometry is restored but not the buffers: the
        kernel goes on displaying the buffer it had. If that is still the driver's, it was filled
        for the refused geometry (see RefusedModeIff); if it was remade, or TearFree was ended
        while the second buffer was displayed, it has lost its damage (see ForgettingIff). */
    method ScanoutModeset(g: Geometry, virtual: Box, tf: bool, blank: seq<Image>, ok: bool) returns (ghost shown: Image)
      requires Shape() && enabled && |blank| == 2 && Fits(g, virtual)
      modifies this`geometry, this`tearFree, this`id, this`buffer, this`present, this`width, this`height,
               this`damage, this`lastRegion, this`vblankPending
      ensures Shape() && tearFree == tf && damage == NO_BOX && geometry == if ok then g else old(geometry)
      ensures Agree(g, buffer[id], FullCopy(screen, g)) && (tf ==> lastRegion == virtual && id == old(id))
      ensures vblankPending == (flipPending && old(vblankPending))
      ensures ModeAsked(old(Now()), SetMode(g, virtual, tf, blank, ok), Now())
      ensures shown == if ok || (id == old(id) && old(Sized(id, g))) then buffer[id] else old(buffer[id])
      ensures old(Valid()) && (ok || Covers(g, old(geometry))) ==> Valid()
    {
      hide Copied, Clip, Nil, Fits, Whole;
      ghost var displayed, kept := buffer[id], Sized(id, g);
      ghost var was := id;
      var saved := geometry;
      FillBuffers(g, virtual, tf, blank);
      shown := if ok || (kept && id == was) then buffer[id] else displayed;
      hide Agree, AgreeOutside, FullCopy;
      if !ok {
        if Covers(g, saved) {
          CoveredKeeps(saved, g, buffer[id], buffer[1 - id], screen, lastRegion);
        }
        geometry := saved;
      } else if !tf {
        present := present[1 := false];
      }
    }

    /** Make the buffers for a mode and copy the whole screen. */
    method FillBuffers(g: Geometry, virtual: Box, tf: bool, blank: seq<Image>)
      requires Shape() && enabled && |blank| == 2 && Fits(g, virtual)
      modifies this`geometry, this`tearFree, this`id, this`buffer, this`present, this`width, this`height,
               this`damage, this`lastRegion, this`vblankPending
      ensures Shape() && tearFree == tf && damage == NO_BOX && geometry == g && id == (if tf then old(id) else 0)
      ensures Agree(g, buffer[id], FullCopy(screen, g)) && FrontOk()
      ensures tf ==> lastRegion == virtual && AgreeOutside(g, buffer[1 - id], buffer[id], lastRegion)
      ensures !tf ==> lastRegion == old(lastRegion)
      ensures vblankPending == (flipPending && old(vblankPending))
    {
      hide Clip, Nil, Fits;
      CreateBuffers(g, tf, blank);
      ModeShows(g, virtual);
      var done := ScanoutDoUpdate(id, virtual);
      if done {
        damage := NO_BOX;
        if !flipPending {
          vblankPending := false;
        }
      }
    }

    /** Drawing to the screen. Only the extents of the damage are kept. */
    method ScreenDraw(box: Box, pixels: Image)
      requires Shape()
      modifies this`screen, this`damage
      ensures Shape() && (old(Valid()) ==> Valid()) && damage == Around(old(damage), box)
      ensures Drawn(screen, box, pixels, old(screen))
    {
      var before := screen;
      screen := p => if In(box, p) then pixels(p) else before(p);
      damage := Around(damage, box);
    }

    /** One event. */
    method Run(e: Event)
      requires Shape()
      modifies this
      ensures Shape() && old(frames) <= frames && Happens(old(Now()), e, Now())
      ensures old(Valid()) && Harmless(e, old(geometry), old(enabled)) ==> Valid()
      ensures enabled == EnabledAfter(e, old(enabled)) && geometry == GeometryAfter(e, old(geometry), old(enabled))
    {
      hide Copied, Drawn, Agree, AgreeOutside, Clip, Nil, FullCopy, Whole, FlippedTo, Updated, CopiedNow, ModeAsked;
      hide Around, In, Covers, Fits;
      match e
      case Draw(box, pixels) => ScreenDraw(box, pixels);
      case BlockHandler(flipOk, vblankOk) => HandleBlock(flipOk, vblankOk);
      case FlipDone => flipPending := false;
      case VblankDone => HandleVblank();
      case SetPower(on, dpms) => enabled, dpmsOn := on, dpms;
      case SetMode(_, _, _, _, _) => RequestMode(e);
    }

    /** The part of the block handler that updates the scanout of a CRTC. */
    method HandleBlock(flipOk: bool, vblankOk: bool)
      requires Shape()
      modifies this
      ensures Shape() && old(frames) <= frames && (old(Valid()) ==> Valid())
      ensures if old(tearFree) then FlippedTo(old(Now()), flipOk, vblankOk, Now())
              else Updated(old(Now()), vblankOk, Now())
      ensures enabled == old(enabled) && geometry == old(geometry)
    {
      hide Copied, Drawn, Agree, AgreeOutside, Clip, Nil, FullCopy, Whole, FlippedTo, Updated, CopiedNow, ModeAsked;
      if tearFree {
        ScanoutFlip(flipOk, vblankOk);
      } else {
        ScanoutUpdate(vblankOk);
      }
    }

    /** The vblank of a scheduled copy, if there is one. */
    method HandleVblank()
      requires Shape()
      modifies this
      ensures Shape() && frames == old(frames) && (old(Valid()) ==> Valid())
      ensures if old(vblankPending) then CopiedNow(old(Now()), Now()) else Now() == old(Now())
      ensures enabled == old(enabled) && geometry == old(geometry)
    {
      hide Copied, Drawn, Agree, AgreeOutside, Clip, Nil, FullCopy, Whole, FlippedTo, Updated, CopiedNow, ModeAsked;
      if vblankPending {
        ScanoutUpdateHandler();
      }
    }

    /** A mode is asked for. */
    method RequestMode(e: Event)
      requires Shape() && e.SetMode?
      modifies this
      ensures Shape() && frames == old(frames)
      ensures old(Valid()) && Harmless(e, old(geometry), old(enabled)) ==> Valid()
      ensures if Asks(e, old(enabled)) then ModeAsked(old(Now()), e, Now()) else Now() == old(Now())
      ensures enabled == old(enabled) && geometry == GeometryAfter(e, old(geometry), old(enabled))
    {
      hide Copied, Drawn, Agree, AgreeOutside, Clip, Nil, FullCopy, Whole, FlippedTo, Updated, CopiedNow, ModeAsked;
      hide Around, In, Covers, Fits;
      if Asks(e, enabled) {
        ghost var shown := ScanoutModeset(e.geometry, e.virtual, e.tearFree, e.blank, e.ok);
      }
    }

    /** Over every run in which refused modes cover the mode the CRTC has, each frame handed
        to a TearFree flip is the whole screen on the CRTC's area, as if the whole screen had been
        copied. */
    method Drive(events: seq<Event>)
      requires Valid()
      modifies this
      ensures Shape() && old(frames) <= frames && AllHappen(old(Now()), events, Now())
      ensures AllHarmless(events, old(geometry), old(enabled)) ==>
                Valid() && forall i :: 0 <= i < |frames| ==>
                  Agree(frames[i].geometry, frames[i].shown, FullCopy(frames[i].screen, frames[i].geometry))
    {
      hide Happens;
      for i := 0 to |events|
        invariant Shape() && old(frames) <= frames && AllHappen(old(Now()), events[..i], Now())
        invariant AllHarmless(events, old(geometry), old(enabled)) ==>
                    Valid() && AllHarmless(events[i..], geometry, enabled)
      {
        assert events[i..][0] == events[i] && events[i..][1..] == events[i + 1..];
        assert events[..i + 1] == events[..i] + [events[i]];
        ghost var here := Now();
        Run(events[i]);
        HappensMore(old(Now()), events[..i], here, events[i], Now());
      }
      assert events[..|events|] == events;
      assert AllHarmless(events, old(geometry), old(enabled)) ==> forall i :: 0 <= i < |frames| ==> Whole(frames[i]);
    }
  }

  // ----- Runs that go wrong -----

  const TWO_PIXELS := Geometry(0, 0, 2, 1)
  const THREE_PIXELS := Box(0, 0, 3, 1)

  /** A TearFree CRTC of two pixels on a screen of three. */
  method TwoPixels(picture: Image) returns (s: Scanout)
    ensures fresh(s) && Poised(s) && s.screen == picture && s.lastRegion == THREE_PIXELS
    ensures Agree(TWO_PIXELS, s.buffer[0], FullCopy(picture, TWO_PIXELS))
  {
    hide Agree, AgreeOutside, Copied, Drawn;
    s := new Scanout(picture, TWO_PIXELS, picture);
    ghost var shown := s.ScanoutModeset(TWO_PIXELS, THREE_PIXELS, true, [picture, picture], true);
  }

  /** TearFree flips on the two pixels come next. */
  ghost predicate Poised(s: Scanout)
    reads s
  {
    && s.Shape() && s.tearFree && s.enabled && s.dpmsOn && !s.flipPending && !s.vblankPending
    && s.geometry == TWO_PIXELS && s.id == 0 && s.frames == [] && s.damage == NO_BOX
  }

  /** Drawing one of the pixels and flipping takes the other one from the displayed buffer. */
  method DrawAndFlip(s: Scanout, box: Box, pixels: Image, ghost p: Point)
    requires Poised(s) && (box == Box(0, 0, 1, 1) || box == Box(1, 0, 2, 1))
    requires OnCrtc(TWO_PIXELS, p) && !In(box, p) && In(s.lastRegion, p) && s.buffer[0](p) != s.screen(p)
    modifies s
    ensures |s.frames| == 1 && !Whole(s.frames[0])
  {
    hide Agree, AgreeOutside, Copied, Drawn, Whole, Scanout.Valid, Scanout.FrontOk;
    hide FlippedTo, Clip, Around, Nil, In, FullCopy;
    PixelBox(box);
    ghost var before, was, last := s.screen, s.buffer, s.lastRegion;
    s.ScreenDraw(box, pixels);
    DrawnAt(s.screen, box, pixels, before, p);
    s.ScanoutFlip(true, true);
    assert ToScreen(TWO_PIXELS, p) == p;
    StaleAt(s.frames[0], box, last, was[0], was[1], p);
  }

  /** The first pixel is drawn and the flip for it ends early. */
  method DrawAndForget(s: Scanout, pixels: Image)
    requires Poised(s) && s.buffer[0](Point(0, 0)) != pixels(Point(0, 0))
    modifies s
    ensures Poised(s) && s.lastRegion == Box(0, 0, 1, 1) && s.buffer[0](Point(0, 0)) != s.screen(Point(0, 0))
  {
    hide Agree, AgreeOutside, Copied, Drawn, Whole, Scanout.Valid, Scanout.FrontOk;
    hide Clip, Around, Nil, In;
    var box := Box(0, 0, 1, 1);
    PixelBox(box);
    ghost var before := s.screen;
    s.ScreenDraw(box, pixels);
    DrawnAt(s.screen, box, pixels, before, Point(0, 0));
    s.FlipWithoutEntry();
  }

  /** The kernel refuses to move the CRTC by one pixel. */
  method MoveRefused(s: Scanout)
    requires Poised(s) && s.screen(Point(1, 0)) != s.screen(Point(2, 0))
    modifies s
    ensures Poised(s) && s.lastRegion == THREE_PIXELS && s.buffer[0](Point(1, 0)) != s.screen(Point(1, 0))
  {
    hide Agree, AgreeOutside, Copied, Drawn, Whole, Scanout.Valid, Scanout.FrontOk;
    var moved := TWO_PIXELS.(x := 1);
    ghost var shown := s.ScanoutModeset(moved, THREE_PIXELS, true, [s.screen, s.screen], false);
    AgreeAt(moved, s.buffer[0], FullCopy(s.screen, moved), Point(1, 0));
    assert ToScreen(moved, Point(1, 0)) == Point(2, 0);
  }

  /** Something is drawn, the flip for it ends early, something else is drawn, and the next flip
      hands over a frame that lacks the first drawing. */
  method EarlyReturnShowsStale(blank: Image, pixels: Image) returns (s: Scanout)
    requires blank(Point(0, 0)) != pixels(Point(0, 0))
    ensures fresh(s) && |s.frames| == 1 && !Whole(s.frames[0])
  {
    hide Whole, Agree, Scanout.Valid, Scanout.FrontOk;
    s := TwoPixels(blank);
    AgreeAt(TWO_PIXELS, s.buffer[0], FullCopy(blank, TWO_PIXELS), Point(0, 0));
    assert ToScreen(TWO_PIXELS, Point(0, 0)) == Point(0, 0);
    DrawAndForget(s, pixels);
    DrawAndFlip(s, Box(1, 0, 2, 1), pixels, Point(0, 0));
  }

  /** The kernel refuses to move the CRTC by one pixel, something is drawn, and the next flip hands
      over a frame that still shows the other position. */
  method RefusedMoveShowsStale(picture: Image, pixels: Image) returns (s: Scanout)
    requires picture(Point(1, 0)) != picture(Point(2, 0))
    ensures fresh(s) && |s.frames| == 1 && !Whole(s.frames[0])
  {
    hide Whole, Poised, Scanout.Valid, Scanout.FrontOk;
    s := TwoPixels(picture);
    MoveRefused(s);
    DrawAndFlip(s, Box(0, 0, 1, 1), pixels, Point(1, 0));
  }

  lemma PixelBox(box: Box)
    ensures box == Box(0, 0, 1, 1) || box == Box(1, 0, 2, 1) ==>
              !Nil(box) && !Nil(Clip(TWO_PIXELS, box)) && Around(NO_BOX, box) == box
    ensures In(Box(0, 0, 1, 1), Point(0, 0))
  {
  }

  lemma AgreeAt(g: Geometry, a: Image, b: Image, p: Point)
    requires Agree(g, a, b) && OnCrtc(g, p)
    ensures a(p) == b(p)
  {
  }

  lemma DrawnAt(screen: Image, box: Box, pixels: Image, was: Image, p: Point)
    requires Drawn(screen, box, pixels, was)
    ensures screen(p) == if In(box, p) then pixels(p) else was(p)
  {
  }

  /** A pixel outside the damage is taken from the other buffer, and that one is stale there. */
  lemma StaleAt(f: Frame, damage: Box, last: Box, other: Image, was: Image, p: Point)
    requires Copied(f.geometry, f.shown, f.screen, damage, last, other, was)
    requires OnCrtc(f.geometry, p) && !In(damage, ToScreen(f.geometry, p)) && In(last, ToScreen(f.geometry, p))
    requires other(p) != f.screen(ToScreen(f.geometry, p))
    ensures !Whole(f)
  {
    assert f.shown(p) == CopiedAt(f.geometry, f.screen, damage, last, other, was, p);
  }
}
