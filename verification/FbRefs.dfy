/**
 Framebuffer reference counts. Every place the driver keeps a counted FB pointer in is a
 slot; an FB exists while its count is positive and is removed from the kernel when the
 count reaches zero.
 */
module FbRefs {
  import opened Common

  /** The places that hold a counted FB pointer. */
  datatype Slot =
    | PixmapFb(pixmap: nat)
    | CrtcFb(crtc: nat)
    | FlipPending(crtc: nat)
    | FlipDataFb(request: nat, crtc: nat)

  /** `refcnt` holds the FBs that exist; identities below `created` were handed out.
      `fatal` records that one of the two FatalError checks failed. */
  datatype Fbs = Fbs(slots: map<Slot, nat>, refcnt: map<nat, int>, created: nat, fatal: bool)

  function Alive(t: Fbs, fb: nat): bool {
    fb in t.refcnt && t.refcnt[fb] > 0
  }

  function Acquire(t: Fbs, next: Option<nat>): Fbs {
    if next.None? then t
    else if !Alive(t, next.value) then t.(fatal := true)
    else t.(refcnt := t.refcnt[next.value := t.refcnt[next.value] + 1])
  }

  function Release(t: Fbs, slot: Slot): Fbs {
    if slot !in t.slots then t
    else
      var fb := t.slots[slot];
      if !Alive(t, fb) then t.(fatal := true)
      else if t.refcnt[fb] == 1 then t.(refcnt := t.refcnt - {fb})
      else t.(refcnt := t.refcnt[fb := t.refcnt[fb] - 1])
  }

  /** drmmode_fb_reference: point a slot at another FB, or at none. The new FB is counted
      before the old one is let go. */
  function Reference(t: Fbs, slot: Slot, next: Option<nat>): Fbs {
    var a := Acquire(t, next);
    if a.fatal then a
    else
      var u := Release(a, slot);
      if u.fatal then u
      else u.(slots := if next.Some? then u.slots[slot := next.value] else u.slots - {slot})
  }

  /** amdgpu_fb_create into a slot that holds nothing: the slot owns the first reference. */
  function Create(t: Fbs, slot: Slot): Fbs {
    t.(slots := t.slots[slot := t.created], refcnt := t.refcnt[t.created := 1], created := t.created + 1)
  }

  ghost function Holders(slots: map<Slot, nat>, fb: nat): set<Slot> {
    set s | s in slots && slots[s] == fb
  }

  /** Every FB's count is the number of slots holding it; a held FB exists, an FB nobody
      holds does not. */
  ghost predicate Conserved(t: Fbs) {
    && !t.fatal
    && (forall s :: s in t.slots ==> t.slots[s] in t.refcnt)
    && (forall fb :: fb in t.refcnt ==> fb < t.created && t.refcnt[fb] > 0)
    && (forall fb :: fb in t.refcnt ==> t.refcnt[fb] == |Holders(t.slots, fb)|)
  }

  /** How much a count changes when a slot is pointed elsewhere. */
  function Change(slots: map<Slot, nat>, slot: Slot, next: Option<nat>, fb: nat): int {
    (if next == Some(fb) then 1 else 0) - (if slot in slots && slots[slot] == fb then 1 else 0)
  }

  lemma HoldersChange(slots: map<Slot, nat>, slot: Slot, next: Option<nat>, fb: nat)
    ensures var slots' := if next.Some? then slots[slot := next.value] else slots - {slot};
            |Holders(slots', fb)| == |Holders(slots, fb)| + Change(slots, slot, next, fb)
  {
    var slots' := if next.Some? then slots[slot := next.value] else slots - {slot};
    var rest := Holders(slots, fb) - {slot};
    assert Holders(slots, fb) == if slot in slots && slots[slot] == fb then rest + {slot} else rest;
    assert Holders(slots', fb) == if next == Some(fb) then rest + {slot} else rest;
  }

  /** Slots and counts of `u` are those of `t` after pointing `slot` at `next`. */
  ghost predicate Moved(t: Fbs, slot: Slot, next: Option<nat>, u: Fbs) {
    && !u.fatal && u.created == t.created
    && u.slots == (if next.Some? then t.slots[slot := next.value] else t.slots - {slot})
    && (forall fb :: fb in u.refcnt <==> fb in t.refcnt && t.refcnt[fb] + Change(t.slots, slot, next, fb) != 0)
    && (forall fb :: fb in u.refcnt ==> u.refcnt[fb] == t.refcnt[fb] + Change(t.slots, slot, next, fb))
  }

  lemma ReferenceMoves(t: Fbs, slot: Slot, next: Option<nat>)
    requires Conserved(t) && (next.Some? ==> next.value in t.refcnt)
    ensures Moved(t, slot, next, Reference(t, slot, next))
  {
    hide Reference;
    var u := Reference(t, slot, next);
    forall fb
      ensures fb in u.refcnt <==> fb in t.refcnt && t.refcnt[fb] + Change(t.slots, slot, next, fb) != 0
      ensures fb in u.refcnt ==> u.refcnt[fb] == t.refcnt[fb] + Change(t.slots, slot, next, fb)
    {
      RefcntAt(t, slot, next, fb);
    }
    RefcntAt(t, slot, next, 0);
  }

  lemma RefcntAt(t: Fbs, slot: Slot, next: Option<nat>, fb: nat)
    requires Conserved(t) && (next.Some? ==> next.value in t.refcnt)
    ensures var u := Reference(t, slot, next);
            && !u.fatal && u.created == t.created
            && u.slots == (if next.Some? then t.slots[slot := next.value] else t.slots - {slot})
            && (fb in u.refcnt <==> fb in t.refcnt && t.refcnt[fb] + Change(t.slots, slot, next, fb) != 0)
            && (fb in u.refcnt ==> u.refcnt[fb] == t.refcnt[fb] + Change(t.slots, slot, next, fb))
  {
  }

  lemma MovedConserves(t: Fbs, slot: Slot, next: Option<nat>, u: Fbs)
    requires Conserved(t) && Moved(t, slot, next, u) && (next.Some? ==> next.value in t.refcnt)
    ensures Conserved(u)
    ensures forall fb :: fb in u.refcnt <==> fb in t.refcnt && Holders(u.slots, fb) != {}
  {
    forall fb | fb in t.refcnt
      ensures t.refcnt[fb] + Change(t.slots, slot, next, fb) == |Holders(u.slots, fb)|
      ensures fb in u.refcnt <==> Holders(u.slots, fb) != {}
    {
      HoldersChange(t.slots, slot, next, fb);
      assert Holders(u.slots, fb) != {} <==> |Holders(u.slots, fb)| != 0;
    }
    forall s | s in u.slots ensures u.slots[s] in u.refcnt {
      assert s in Holders(u.slots, u.slots[s]);
    }
  }

  /** Taking or dropping a reference keeps the counts equal to the holders, changes no other
      slot, and removes an FB exactly when its last slot lets go. */
  lemma ReferenceConserves(t: Fbs, slot: Slot, next: Option<nat>)
    requires Conserved(t) && (next.Some? ==> next.value in t.refcnt)
    ensures var u := Reference(t, slot, next);
            && Conserved(u)
            && u.slots == (if next.Some? then t.slots[slot := next.value] else t.slots - {slot})
            && u.created == t.created
            && (forall fb :: fb in u.refcnt <==> fb in t.refcnt && Holders(u.slots, fb) != {})
  {
    ReferenceMoves(t, slot, next);
    MovedConserves(t, slot, next, Reference(t, slot, next));
  }

  /** Referencing an FB that no slot holds is exactly what the first FatalError catches. */
  lemma ReferenceFatalIff(t: Fbs, slot: Slot, next: Option<nat>)
    requires Conserved(t)
    ensures Reference(t, slot, next).fatal <==> next.Some? && Holders(t.slots, next.value) == {}
  {
    if next.Some? && next.value in t.refcnt {
      ReferenceConserves(t, slot, next);
      assert |Holders(t.slots, next.value)| > 0;
    } else if next.Some? {
      assert forall s :: s in t.slots ==> t.slots[s] != next.value;
    } else {
      ReferenceConserves(t, slot, next);
    }
  }

  lemma CreateConserves(t: Fbs, slot: Slot)
    requires Conserved(t) && slot !in t.slots
    ensures Conserved(Create(t, slot))
    ensures var u := Create(t, slot);
            && u.slots.Keys == t.slots.Keys + {slot} && u.slots[slot] !in t.refcnt
            && Holders(u.slots, u.slots[slot]) == {slot}
            && forall s :: s in t.slots ==> u.slots[s] == t.slots[s]
  {
    var t' := Create(t, slot);
    forall fb | fb in t'.refcnt ensures t'.refcnt[fb] == |Holders(t'.slots, fb)| {
      HoldersChange(t.slots, slot, Some(t.created), fb);
      if fb == t.created {
        forall s | s in t.slots ensures t.slots[s] != fb {
          assert t.slots[s] in t.refcnt;
        }
        assert Holders(t.slots, fb) == {};
      }
    }
  }

  /** The table as the driver changes it. */
  class FbTable {
    var slots: map<Slot, nat>
    var refcnt: map<nat, int>
    var created: nat
    var removed: set<nat>
    var fatal: bool

    ghost function Table(): Fbs
      reads this
    {
      Fbs(slots, refcnt, created, fatal)
    }

    /** Removed FBs are those handed out that no longer exist. */
    ghost predicate Valid()
      reads this
    {
      Conserved(Table()) && forall fb: nat :: fb in removed <==> fb < created && fb !in refcnt
    }

    constructor ()
      ensures Valid() && slots == map[] && created == 0
    {
      slots, refcnt, created, removed, fatal := map[], map[], 0, {}, false;
    }

    /** drmmode_fb_reference_loc; FatalError ends the server. */
    method SetSlot(slot: Slot, next: Option<nat>)
      requires !fatal
      modifies this
      ensures Table() == Reference(old(Table()), slot, next)
      ensures removed == old(removed) + (old(refcnt).Keys - refcnt.Keys)
    {
      if next.Some? {
        if next.value !in refcnt || refcnt[next.value] <= 0 {
          fatal := true;
          return;
        }
        refcnt := refcnt[next.value := refcnt[next.value] + 1];
      }
      assert Table() == Acquire(old(Table()), next);
      if slot in slots {
        var fb := slots[slot];
        if fb !in refcnt || refcnt[fb] <= 0 {
          fatal := true;
          return;
        }
        refcnt := refcnt[fb := refcnt[fb] - 1];
        if refcnt[fb] == 0 {
          removed := removed + {fb};
          refcnt := refcnt - {fb};
        }
      }
      assert Table() == Release(Acquire(old(Table()), next), slot);
      slots := if next.Some? then slots[slot := next.value] else slots - {slot};
    }

    /** With a live FB, nothing fatal happens and exactly the FBs nobody holds any more are
        removed from the kernel. */
    method PointAt(slot: Slot, next: Option<nat>)
      requires Valid() && (next.Some? ==> next.value in refcnt)
      modifies this
      ensures Valid() && Table() == Reference(old(Table()), slot, next)
      ensures forall fb: nat :: fb in removed <==> fb in old(removed) || (fb in old(refcnt) && Holders(slots, fb) == {})
    {
      ReferenceConserves(Table(), slot, next);
      SetSlot(slot, next);
    }
  }
}
