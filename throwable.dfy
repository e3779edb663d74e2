/** ThrowableItemSystem: the player picks up the object a ray from the camera hits when it is
    tagged "Throwable", carries it at a grab point, and drops it (key E) or throws it (a click).
    Positions, directions, forces and the carried object's rotation are floating point and are
    not modelled; what is modelled is which object is held and the physics flags each step sets. */
module ThrowableItems {

  const ThrowableTag: string := "Throwable"

  /** `RigidbodyInterpolation`. */
  datatype Interpolation = NoInterpolation | Interpolate | Extrapolate

  /** The transform's parent as far as this component is concerned. */
  datatype Parent = Unparented | GrabPoint | OtherParent

  /** A game object the pickup ray can hit, with the parts of its Rigidbody, Collider and
      Transform the component touches. `impulses` counts the impulses `AddForce` applied. */
  class SceneObject {
    const tag: string
    const hasRigidbody: bool
    var isKinematic: bool
    var interpolation: Interpolation
    var impulses: nat
    var colliderEnabled: bool
    var parent: Parent

    constructor (tag: string, hasRigidbody: bool, isKinematic: bool, interpolation: Interpolation,
                 colliderEnabled: bool, parent: Parent)
      ensures this.tag == tag && this.hasRigidbody == hasRigidbody
      ensures this.isKinematic == isKinematic && this.interpolation == interpolation
      ensures this.colliderEnabled == colliderEnabled && this.parent == parent
      ensures impulses == 0
    {
      this.tag := tag;
      this.hasRigidbody := hasRigidbody;
      this.isKinematic := isKinematic;
      this.interpolation := interpolation;
      this.colliderEnabled := colliderEnabled;
      this.parent := parent;
      impulses := 0;
    }

    /** Released to physics: unparented, simulated, interpolated and collidable. */
    ghost predicate Released()
      reads this
    {
      parent == Unparented && !isKinematic && interpolation == Interpolate && colliderEnabled
    }

    /** Carried: kinematic, not interpolated, not collidable and following the grab point. */
    ghost predicate Carried()
      reads this
    {
      hasRigidbody && isKinematic && interpolation == NoInterpolation && !colliderEnabled
      && parent == GrabPoint
    }
  }

  /** How `TryPickup` ends: the ray hit nothing; it hit an object without the tag; it picked the
      object up; or the tagged object has no Rigidbody, so setting `isKinematic` on the null
      reference throws after `heldObject` was assigned and before `isHolding` is set. */
  datatype PickupOutcome = Missed | NotThrowable | PickedUp | MissingRigidbody

  /** Whether a frame's E press went to `TryPickup`, and with what outcome. */
  datatype Attempt = NotAttempted | Attempted(outcome: PickupOutcome)

  /** What one `Update` did. */
  datatype FrameResult = FrameResult(pickup: Attempt, dropped: bool, thrown: bool)

  class ThrowableItemSystem {
    var heldObject: SceneObject?
    var heldObjectRb: SceneObject?
    var isHolding: bool

    /** While holding, the held object is carried and its Rigidbody is the one referenced; while
        not holding, no Rigidbody is referenced. */
    ghost predicate Valid()
      reads this, heldObject
    {
      && (isHolding ==> heldObject != null && heldObjectRb == heldObject && heldObject.Carried())
      && (!isHolding ==> heldObjectRb == null)
    }

    /** `isHolding` is set exactly when an object is referenced. */
    ghost predicate Consistent()
      reads this
    {
      isHolding <==> heldObject != null
    }

    constructor ()
      ensures Valid() && Consistent()
      ensures heldObject == null && heldObjectRb == null && !isHolding
    {
      heldObject := null;
      heldObjectRb := null;
      isHolding := false;
    }

    /** `TryPickup`; `hit` is the object whose collider the ray hit, or null when it hit
        nothing within range on the pickup layer. Called only while nothing is held. */
    method TryPickup(hit: SceneObject?) returns (outcome: PickupOutcome)
      requires Valid() && !isHolding
      modifies this, hit
      ensures Valid()
      ensures outcome == Missed <==> hit == null
      ensures outcome == NotThrowable <==> hit != null && hit.tag != ThrowableTag
      ensures outcome == PickedUp <==> hit != null && hit.tag == ThrowableTag && hit.hasRigidbody
      ensures outcome == Missed || outcome == NotThrowable ==> unchanged(this)
      ensures outcome == NotThrowable ==> unchanged(hit)
      ensures outcome == PickedUp ==>
                && isHolding && heldObject == hit && heldObjectRb == hit
                && hit.Carried() && hit.impulses == old(hit.impulses)
      ensures outcome == MissingRigidbody ==>
                && !isHolding && heldObject == hit && heldObjectRb == null && unchanged(hit)
      ensures outcome != MissingRigidbody && old(Consistent()) ==> Consistent()
    {
      if hit == null {
        return Missed;
      }
      if hit.tag != ThrowableTag {
        return NotThrowable;
      }
      heldObject := hit;
      heldObjectRb := if hit.hasRigidbody then hit else null;
      if heldObjectRb == null {
        return MissingRigidbody;
      }
      heldObjectRb.isKinematic := true;
      heldObjectRb.interpolation := NoInterpolation;
      heldObject.parent := GrabPoint;
      heldObject.colliderEnabled := false;
      isHolding := true;
      outcome := PickedUp;
    }

    /** `DropItem`: a no-op when nothing is held; otherwise releases the held object to physics
        and forgets it. */
    method DropItem()
      requires Valid()
      modifies this, heldObject
      ensures Valid()
      ensures old(Consistent()) ==> Consistent()
      ensures !old(isHolding) ==> unchanged(this) && (heldObject != null ==> unchanged(heldObject))
      ensures old(isHolding) ==>
                && heldObject == null && heldObjectRb == null && !isHolding
                && old(heldObject).Released() && old(heldObject).impulses == old(heldObject.impulses)
    {
      if !isHolding {
        return;
      }
      heldObject.parent := Unparented;
      heldObjectRb.isKinematic := false;
      heldObjectRb.interpolation := Interpolate;
      heldObject.colliderEnabled := true;
      heldObject := null;
      heldObjectRb := null;
      isHolding := false;
    }

    /** `ThrowItem`: a no-op when nothing is held; otherwise releases the held object as
        `DropItem` does, applies one impulse to it, and forgets it. */
    method ThrowItem()
      requires Valid()
      modifies this, heldObject
      ensures Valid()
      ensures old(Consistent()) ==> Consistent()
      ensures !old(isHolding) ==> unchanged(this) && (heldObject != null ==> unchanged(heldObject))
      ensures old(isHolding) ==>
                && heldObject == null && heldObjectRb == null && !isHolding
                && old(heldObject).Released() && old(heldObject).impulses == old(heldObject.impulses) + 1
    {
      if !isHolding {
        return;
      }
      heldObject.parent := Unparented;
      heldObjectRb.isKinematic := false;
      heldObjectRb.interpolation := Interpolate;
      heldObjectRb.impulses := heldObjectRb.impulses + 1;
      heldObject.colliderEnabled := true;
      heldObject := null;
      heldObjectRb := null;
      isHolding := false;
    }

    /** `Update`, given whether E and the left mouse button went down this frame and what the
        pickup ray hits. The E handler runs before the throw check. */
    method Update(eDown: bool, clickDown: bool, hit: SceneObject?) returns (r: FrameResult)
      requires Valid()
      modifies this, heldObject, hit
      ensures Valid()
      ensures eDown && old(isHolding) ==>
                && r == FrameResult(NotAttempted, true, false)
                && !isHolding && heldObject == null && old(heldObject).Released()
                && old(heldObject).impulses == old(heldObject.impulses)
      ensures eDown && !old(isHolding) ==>
                && r.pickup.Attempted? && !r.dropped
                && (r.pickup.outcome == PickedUp <==> hit != null && hit.tag == ThrowableTag && hit.hasRigidbody)
                && (r.pickup.outcome == Missed <==> hit == null)
                && (r.pickup.outcome == NotThrowable <==> hit != null && hit.tag != ThrowableTag)
                && (r.thrown <==> r.pickup.outcome == PickedUp && clickDown)
      ensures eDown && !old(isHolding) && r.pickup.outcome in {Missed, NotThrowable} ==>
                unchanged(this) && (hit != null ==> unchanged(hit))
      ensures eDown && !old(isHolding) && r.pickup.outcome == MissingRigidbody ==>
                && heldObject == hit && heldObjectRb == null && !isHolding && !r.thrown && unchanged(hit)
      ensures eDown && !old(isHolding) && r.thrown ==>
                && !isHolding && heldObject == null && hit.Released() && hit.impulses == old(hit.impulses) + 1
      ensures eDown && !old(isHolding) && r.pickup == Attempted(PickedUp) && !clickDown ==>
                isHolding && heldObject == hit && hit.Carried() && hit.impulses == old(hit.impulses)
      ensures eDown && old(isHolding) && hit != null && hit != old(heldObject) ==> unchanged(hit)
      ensures eDown && !old(isHolding) && old(heldObject) != null && old(heldObject) != hit ==>
                unchanged(old(heldObject))
      ensures !eDown ==> r.pickup == NotAttempted && !r.dropped && (r.thrown <==> old(isHolding) && clickDown)
      ensures !eDown && r.thrown ==>
                && !isHolding && heldObject == null && old(heldObject).Released()
                && old(heldObject).impulses == old(heldObject.impulses) + 1
      ensures !eDown && !clickDown ==> unchanged(this) && (heldObject != null ==> unchanged(heldObject))
      ensures !eDown && hit != null && hit != old(heldObject) ==> unchanged(hit)
      ensures !eDown && !old(isHolding) ==> unchanged(this) && (heldObject != null ==> unchanged(heldObject))
      ensures r.pickup != Attempted(MissingRigidbody) && old(Consistent()) ==> Consistent()
    {
      r := FrameResult(NotAttempted, false, false);
      if eDown {
        if !isHolding {
          var outcome := TryPickup(hit);
          r := r.(pickup := Attempted(outcome));
        } else {
          DropItem();
          r := r.(dropped := true);
        }
      }
      if clickDown && isHolding {
        ThrowItem();
        r := r.(thrown := true);
      }
    }
  }
}
