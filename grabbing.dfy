/** The per-hand grab state machine: grip edges, picking the nearest picture,
    a second hand joining, and the parent the held picture is attached to. */
module Grabbing {
  import opened Wrappers
  import opened Pictures

  /** How close a hand must be to a picture's surface to hold it. */
  const HoldDistance: real := 0.05

  /** The analog trigger and grip values of one controller in this tick. */
  datatype Reading = Reading(trigger: real, grip: real)

  /** What one hand brings to a tick: its controller and its distance to the
      surface of each picture of the list (same order as the list). */
  datatype HandInput = HandInput(reading: Reading, distances: seq<real>)

  /** Where the held picture is attached after `UpdatePictureParent`. */
  datatype Parent = ResizingHandle | LeftHand | RightHand | AlbumRoot

  /** `grip[]`, `holding[]` (index 0 is the left hand, 1 the right) and the
      picture being modified, as an index into the pictures list. */
  datatype GrabState = GrabState(grip: seq<bool>, holding: seq<bool>, active: Option<nat>)

  datatype HandStep = HandStep(state: GrabState, changed: bool)

  datatype TickStep = TickStep(state: GrabState, reparent: Option<Parent>)

  predicate WellFormed(s: GrabState)
  {
    |s.grip| == 2 && |s.holding| == 2
  }

  /** The distances match the list, and the active picture is in it. */
  predicate Fits(s: GrabState, pictures: Option<seq<PictureData>>, distances: seq<real>)
  {
    && WellFormed(s)
    && (pictures.Some? ==> |distances| == |pictures.value|)
    && (pictures.Some? && s.active.Some? ==> s.active.value < |pictures.value|)
  }

  /** The grip counts as pressed when the trigger or the grip is past half way. */
  predicate GripSignal(r: Reading)
  {
    r.trigger > 0.5 || r.grip > 0.5
  }

  // ------------------------------------------------------------ nearest picture

  /** The `foreach` over the pictures list carrying `dst_min`, from position `i`. */
  function ScanFrom(pictures: seq<PictureData>, distances: seq<real>, i: nat, best: Option<nat>, dmin: real): Option<nat>
    requires |distances| == |pictures| && i <= |pictures|
    decreases |pictures| - i
  {
    if i == |pictures| then best
    else if pictures[i].hasObject && distances[i] < dmin then ScanFrom(pictures, distances, i + 1, Some(i), distances[i])
    else ScanFrom(pictures, distances, i + 1, best, dmin)
  }

  /** The picture a free hand picks up, if any. */
  function Closest(pictures: seq<PictureData>, distances: seq<real>): Option<nat>
    requires |distances| == |pictures|
  {
    ScanFrom(pictures, distances, 0, None, HoldDistance)
  }

  /** The scan's state after the first `i` pictures. */
  predicate ScanInvariant(pictures: seq<PictureData>, distances: seq<real>, i: nat, best: Option<nat>, dmin: real)
    requires |distances| == |pictures| && i <= |pictures|
  {
    match best
    case None =>
      dmin == HoldDistance && forall j :: 0 <= j < i && pictures[j].hasObject ==> distances[j] >= HoldDistance
    case Some(b) =>
      && b < i && pictures[b].hasObject && dmin == distances[b] && distances[b] < HoldDistance
      && (forall j :: 0 <= j < i && pictures[j].hasObject ==> distances[b] <= distances[j])
      && (forall j :: 0 <= j < b && pictures[j].hasObject ==> distances[b] < distances[j])
  }

  lemma {:induction false} ScanFromSelects(pictures: seq<PictureData>, distances: seq<real>, i: nat, best: Option<nat>, dmin: real)
    requires |distances| == |pictures| && i <= |pictures|
    requires ScanInvariant(pictures, distances, i, best, dmin)
    ensures var r := ScanFrom(pictures, distances, i, best, dmin);
      r.Some? ==> r.value < |pictures|
    ensures var r := ScanFrom(pictures, distances, i, best, dmin);
      ScanInvariant(pictures, distances, |pictures|, r, if r.Some? then distances[r.value] else HoldDistance)
    decreases |pictures| - i
  {
    if i < |pictures| {
      if pictures[i].hasObject && distances[i] < dmin {
        ScanFromSelects(pictures, distances, i + 1, Some(i), distances[i]);
      } else {
        ScanFromSelects(pictures, distances, i + 1, best, dmin);
      }
    }
  }

  /** The picked picture has a scene object, is strictly within reach, is at
      least as near as every other picture with an object, and strictly nearer
      than every such picture before it in the list; when nothing is picked no
      picture with an object is within reach. */
  lemma ClosestIsNearest(pictures: seq<PictureData>, distances: seq<real>)
    requires |distances| == |pictures|
    ensures Closest(pictures, distances).Some? ==>
      var k := Closest(pictures, distances).value;
      && k < |pictures| && pictures[k].hasObject && distances[k] < HoldDistance
      && (forall j :: 0 <= j < |pictures| && pictures[j].hasObject ==> distances[k] <= distances[j])
      && (forall j :: 0 <= j < k && pictures[j].hasObject ==> distances[k] < distances[j])
    ensures Closest(pictures, distances).None? ==>
      forall j :: 0 <= j < |pictures| && pictures[j].hasObject ==> distances[j] >= HoldDistance
  {
    ScanFromSelects(pictures, distances, 0, None, HoldDistance);
  }

  /** The loop of `UpdateHolding` that looks for the nearest picture. */
  method FindClosest(pictures: seq<PictureData>, distances: seq<real>) returns (found: Option<nat>)
    requires |distances| == |pictures|
    ensures found == Closest(pictures, distances)
  {
    var dstMin := HoldDistance;
    found := None;
    for i := 0 to |pictures|
      invariant ScanFrom(pictures, distances, i, found, dstMin) == Closest(pictures, distances)
    {
      if !pictures[i].hasObject {
        continue;
      }
      var dst := distances[i];
      if dst < dstMin {
        dstMin := dst;
        found := Some(i);
      }
    }
  }

  // ------------------------------------------------------------ steps

  /** `CheckIfGripChanged`: the stored grip takes the new signal; the result
      says whether it differed. */
  function GripAfter(s: GrabState, index: nat, r: Reading): HandStep
    requires WellFormed(s) && index < 2
  {
    HandStep(s.(grip := s.grip[index := GripSignal(r)]), GripSignal(r) != s.grip[index])
  }

  /** `UpdateHolding`. */
  function HoldingAfter(s: GrabState, index: nat, pictures: Option<seq<PictureData>>, distances: seq<real>): (r: GrabState)
    requires Fits(s, pictures, distances) && index < 2
    ensures Fits(r, pictures, distances) && r.grip == s.grip
  {
    if pictures.None? then s
    else if !s.grip[index] then s.(holding := s.holding[index := false])
    else if s.active.Some? then s.(holding := s.holding[index := distances[s.active.value] < HoldDistance])
    else
      match Closest(pictures.value, distances)
      case None => s
      case Some(k) =>
        ClosestIsNearest(pictures.value, distances);
        s.(holding := s.holding[index := true], active := Some(k))
  }

  /** `ProcessGrabbing(index)`: a grip edge updates the holding, and the
      result says whether the holding changed. */
  function HandAfter(s: GrabState, index: nat, r: Reading, pictures: Option<seq<PictureData>>, distances: seq<real>): (step: HandStep)
    requires Fits(s, pictures, distances) && index < 2
    ensures Fits(step.state, pictures, distances)
  {
    var gripped := GripAfter(s, index, r);
    if gripped.changed then
      var held := HoldingAfter(gripped.state, index, pictures, distances);
      HandStep(held, held.holding[index] != s.holding[index])
    else gripped
  }

  /** `UpdatePictureParent`: two hands attach the picture to the resizing
      handle, one hand to that hand, none back to the album. */
  function ParentFor(holdingLeft: bool, holdingRight: bool): (p: Parent)
    ensures p == ResizingHandle <==> holdingLeft && holdingRight
    ensures p == LeftHand <==> holdingLeft && !holdingRight
    ensures p == RightHand <==> !holdingLeft && holdingRight
    ensures p == AlbumRoot <==> !holdingLeft && !holdingRight
  {
    if holdingLeft then
      if holdingRight then ResizingHandle else LeftHand
    else if holdingRight then RightHand
    else AlbumRoot
  }

  predicate TickFits(s: GrabState, left: HandInput, right: HandInput, pictures: Option<seq<PictureData>>)
  {
    Fits(s, pictures, left.distances) && Fits(s, pictures, right.distances)
  }

  /** `ProcessGrabbing()`: the left hand, then the right hand only when the
      left hand's holding did not change (the `||` short-circuits); on a change
      with a picture held, the picture is re-parented and released when no
      hand holds it any more. */
  function TickAfter(s: GrabState, left: HandInput, right: HandInput, pictures: Option<seq<PictureData>>): (t: TickStep)
    requires TickFits(s, left, right, pictures)
    ensures TickFits(t.state, left, right, pictures)
  {
    var l := HandAfter(s, 0, left.reading, pictures, left.distances);
    var r := if l.changed then l else HandAfter(l.state, 1, right.reading, pictures, right.distances);
    var s2 := r.state;
    if r.changed && s2.active.Some? then
      var parent := ParentFor(s2.holding[0], s2.holding[1]);
      TickStep(if !s2.holding[0] && !s2.holding[1] then s2.(active := None) else s2, Some(parent))
    else TickStep(s2, None)
  }

  // ------------------------------------------------------------ properties

  /** What `UpdateHolding` does, case by case. */
  lemma HoldingRules(s: GrabState, index: nat, pictures: Option<seq<PictureData>>, distances: seq<real>)
    requires Fits(s, pictures, distances) && index < 2
    ensures var r := HoldingAfter(s, index, pictures, distances);
      && (pictures.None? ==> r == s)
      && r.holding[1 - index] == s.holding[1 - index]
      && (pictures.Some? && !s.grip[index] ==> !r.holding[index] && r.active == s.active)
      && (pictures.Some? && s.grip[index] && s.active.Some? ==>
            r.active == s.active && r.holding[index] == (distances[s.active.value] < HoldDistance))
      && (pictures.Some? && s.grip[index] && s.active.None? && r.active.None? ==>
            r == s && forall j :: 0 <= j < |distances| && pictures.value[j].hasObject ==> distances[j] >= HoldDistance)
      && (pictures.Some? && s.grip[index] && s.active.None? && r.active.Some? ==>
            var k := r.active.value;
            && r.holding[index]
            && k < |distances| && pictures.value[k].hasObject && distances[k] < HoldDistance
            && (forall j :: 0 <= j < |distances| && pictures.value[j].hasObject ==> distances[k] <= distances[j])
            && (forall j :: 0 <= j < k && pictures.value[j].hasObject ==> distances[k] < distances[j]))
  {
    if pictures.Some? {
      ClosestIsNearest(pictures.value, distances);
    }
  }

  /** `ProcessGrabbing(index)` reports a change exactly when the hand's holding
      changed, and it never touches the other hand. */
  lemma HandChangeIsHoldingChange(s: GrabState, index: nat, r: Reading, pictures: Option<seq<PictureData>>, distances: seq<real>)
    requires Fits(s, pictures, distances) && index < 2
    ensures var step := HandAfter(s, index, r, pictures, distances);
      && (step.changed <==> step.state.holding[index] != s.holding[index])
      && step.state.grip[index] == GripSignal(r)
      && step.state.grip[1 - index] == s.grip[1 - index]
      && step.state.holding[1 - index] == s.holding[1 - index]
      && (GripSignal(r) == s.grip[index] ==> step.state == s)
  {
    var gripped := GripAfter(s, index, r);
    if gripped.changed {
      HoldingRules(gripped.state, index, pictures, distances);
    } else {
      assert s.grip[index := GripSignal(r)] == s.grip;
    }
  }

  /** The right hand is not looked at in a tick where the left hand's holding
      changed: its stored grip and its holding stay as they were. */
  lemma LeftChangeSkipsRight(s: GrabState, left: HandInput, right: HandInput, pictures: Option<seq<PictureData>>)
    requires TickFits(s, left, right, pictures)
    requires HandAfter(s, 0, left.reading, pictures, left.distances).changed
    ensures TickAfter(s, left, right, pictures).state.grip[1] == s.grip[1]
    ensures TickAfter(s, left, right, pictures).state.holding[1] == s.holding[1]
  {
    HandChangeIsHoldingChange(s, 0, left.reading, pictures, left.distances);
  }

  /** After a change with a picture held, the picture is re-parented as the
      two holding flags say, and released exactly when neither hand holds it. */
  lemma ReleaseExactlyWhenNoHandHolds(s: GrabState, left: HandInput, right: HandInput, pictures: Option<seq<PictureData>>)
    requires TickFits(s, left, right, pictures)
    ensures var t := TickAfter(s, left, right, pictures);
      t.reparent.Some? ==>
        && t.reparent.value == ParentFor(t.state.holding[0], t.state.holding[1])
        && (t.state.active.None? <==> !t.state.holding[0] && !t.state.holding[1])
  {
  }

  /** While a picture is active no other picture is picked: a tick keeps it
      or releases it. */
  lemma NoReselectionWhileActive(s: GrabState, left: HandInput, right: HandInput, pictures: Option<seq<PictureData>>)
    requires TickFits(s, left, right, pictures) && s.active.Some?
    ensures TickAfter(s, left, right, pictures).state.active in {s.active, None}
  {
    var l := HandAfter(s, 0, left.reading, pictures, left.distances);
    var gripped := GripAfter(s, 0, left.reading);
    if gripped.changed {
      HoldingRules(gripped.state, 0, pictures, left.distances);
    }
    assert l.state.active == s.active;
    if !l.changed {
      var gripped1 := GripAfter(l.state, 1, right.reading);
      if gripped1.changed {
        HoldingRules(gripped1.state, 1, pictures, right.distances);
      }
    }
  }

  /** A picture is active exactly when some hand holds it. */
  predicate Consistent(s: GrabState)
    requires WellFormed(s)
  {
    s.active.Some? <==> s.holding[0] || s.holding[1]
  }

  lemma HandKeepsActiveUnlessHoldingChanges(s: GrabState, index: nat, r: Reading, pictures: Option<seq<PictureData>>, distances: seq<real>)
    requires Fits(s, pictures, distances) && index < 2 && Consistent(s)
    ensures var step := HandAfter(s, index, r, pictures, distances);
      && (!step.changed ==> step.state.active == s.active && step.state.holding == s.holding)
      && (step.changed ==> step.state.active.Some?)
  {
    var gripped := GripAfter(s, index, r);
    HandChangeIsHoldingChange(s, index, r, pictures, distances);
    if gripped.changed {
      HoldingRules(gripped.state, index, pictures, distances);
      var step := HandAfter(s, index, r, pictures, distances);
      if !step.changed {
        assert step.state.holding[index] == s.holding[index];
        assert step.state.holding == s.holding;
      }
    }
  }

  /** Every tick keeps "a picture is active exactly when some hand holds it". */
  lemma TickKeepsConsistent(s: GrabState, left: HandInput, right: HandInput, pictures: Option<seq<PictureData>>)
    requires TickFits(s, left, right, pictures) && Consistent(s)
    ensures Consistent(TickAfter(s, left, right, pictures).state)
  {
    var l := HandAfter(s, 0, left.reading, pictures, left.distances);
    HandKeepsActiveUnlessHoldingChanges(s, 0, left.reading, pictures, left.distances);
    if !l.changed {
      assert Consistent(l.state);
      HandKeepsActiveUnlessHoldingChanges(l.state, 1, right.reading, pictures, right.distances);
    }
  }

  // ------------------------------------------------------------ the static state

  /** The static fields of the grab code, updated in place every tick. */
  class Grabber {
    var grip: array<bool>
    var holding: array<bool>
    var currentlyModified: Option<nat>

    ghost predicate Valid()
      reads this
    {
      grip.Length == 2 && holding.Length == 2 && grip != holding
    }

    function State(): (s: GrabState)
      reads this, grip, holding
      requires Valid()
      ensures WellFormed(s)
    {
      GrabState(grip[..], holding[..], currentlyModified)
    }

    /** `InitGrabbing`: no grip, no hold, no picture. */
    constructor ()
      ensures Valid() && fresh(grip) && fresh(holding)
      ensures State() == GrabState([false, false], [false, false], None)
      ensures Consistent(State())
    {
      grip := new bool[2](_ => false);
      holding := new bool[2](_ => false);
      currentlyModified := None;
    }

    /** `CheckIfGripChanged`. */
    method CheckIfGripChanged(index: nat, r: Reading) returns (gripChanged: bool)
      requires Valid() && index < 2
      modifies grip
      ensures Valid()
      ensures gripChanged == (GripSignal(r) != old(grip[index]))
      ensures grip[index] == GripSignal(r)
      ensures HandStep(State(), gripChanged) == GripAfter(old(State()), index, r)
    {
      var gripNew := GripSignal(r);
      gripChanged := gripNew != grip[index];
      if gripNew && !grip[index] {
        grip[index] := true;
      } else if !gripNew && grip[index] {
        grip[index] := false;
      }
    }

    /** `UpdateHolding`. */
    method UpdateHolding(index: nat, pictures: Option<seq<PictureData>>, distances: seq<real>)
      requires Valid() && index < 2 && Fits(State(), pictures, distances)
      modifies holding, this`currentlyModified
      ensures Valid()
      ensures State() == HoldingAfter(old(State()), index, pictures, distances)
    {
      if pictures.None? {
        return;
      }
      if !grip[index] {
        holding[index] := false;
        return;
      }
      if currentlyModified.Some? {
        var dst := distances[currentlyModified.value];
        holding[index] := dst < HoldDistance;
      } else {
        var found := FindClosest(pictures.value, distances);
        if found.Some? {
          holding[index] := true;
          currentlyModified := found;
        }
      }
    }

    /** `ProcessGrabbing(index)`. */
    method ProcessHand(index: nat, r: Reading, pictures: Option<seq<PictureData>>, distances: seq<real>)
      returns (holdingChanged: bool)
      requires Valid() && index < 2 && Fits(State(), pictures, distances)
      modifies grip, holding, this`currentlyModified
      ensures Valid()
      ensures HandStep(State(), holdingChanged) == HandAfter(old(State()), index, r, pictures, distances)
    {
      holdingChanged := CheckIfGripChanged(index, r);
      if holdingChanged {
        var holdingOld := holding[index];
        UpdateHolding(index, pictures, distances);
        holdingChanged := holding[index] != holdingOld;
      }
    }

    /** `ProcessGrabbing()`: returns where the held picture is re-parented, if it is. */
    method ProcessGrabbing(left: HandInput, right: HandInput, pictures: Option<seq<PictureData>>)
      returns (reparent: Option<Parent>)
      requires Valid() && TickFits(State(), left, right, pictures)
      modifies grip, holding, this`currentlyModified
      ensures Valid()
      ensures TickStep(State(), reparent) == TickAfter(old(State()), left, right, pictures)
    {
      var grabbingChanged := ProcessHand(0, left.reading, pictures, left.distances);
      if !grabbingChanged {
        grabbingChanged := ProcessHand(1, right.reading, pictures, right.distances);
      }
      reparent := None;
      if grabbingChanged {
        if currentlyModified.Some? {
          reparent := Some(ParentFor(holding[0], holding[1]));
          if !holding[0] && !holding[1] {
            currentlyModified := None;
          }
        }
      }
    }
  }
}
