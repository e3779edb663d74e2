/** CamSwitch: an array of cameras of which the current one is shown, switched with the keys 1, 2
    and 3 or back to the previous one. A camera is shown by activating its game object. */
module CameraSwitching {

  /** A slot of the `cameras` array: null, or a camera whose game object is active or not. */
  datatype Slot = Empty | Cam(active: bool)

  /** How a `SwitchCamera` call ends: it switched; it refused the index with a warning; or it
      threw because `currentCameraIndex` does not index the array (`cameras[currentCameraIndex]`
      is read before anything is written, so the throw changes nothing). */
  datatype Outcome = Switched | Rejected | CurrentOutOfRange

  /** The cameras' state and the two indices. */
  datatype Rig = Rig(slots: seq<Slot>, current: int, previous: int)

  /** Every camera that is active is the current one. */
  predicate AtMostCurrentActive(r: Rig)
  {
    forall i :: 0 <= i < |r.slots| && r.slots[i] == Cam(true) ==> i == r.current
  }

  /** The current camera exists and it is the only active one. */
  predicate OnlyCurrentActive(r: Rig)
  {
    0 <= r.current < |r.slots| && r.slots[r.current] == Cam(true) && AtMostCurrentActive(r)
  }

  /** The slots after `Start`'s loop: each camera is active exactly when it is the default one;
      null slots stay null. */
  function StartSlots(slots: seq<Slot>, defaultIndex: int): (r: seq<Slot>)
    ensures |r| == |slots|
    ensures forall i :: 0 <= i < |r| ==> (r[i] == Empty <==> slots[i] == Empty)
  {
    seq(|slots|, i requires 0 <= i < |slots| => if slots[i] == Empty then Empty else Cam(i == defaultIndex))
  }

  /** `Start`: with no cameras it only logs an error; otherwise it shows the default camera
      alone and makes it both current and previous. */
  function AfterStart(r: Rig, defaultIndex: int): (r': Rig)
    ensures |r.slots| == 0 ==> r' == r
    ensures |r.slots| > 0 ==> r'.current == defaultIndex && r'.previous == defaultIndex
    ensures |r'.slots| == |r.slots|
    ensures forall i :: 0 <= i < |r.slots| ==> (r'.slots[i] == Cam(true) <==> r.slots[i] != Empty && i == defaultIndex)
  {
    if |r.slots| == 0 then r
    else Rig(StartSlots(r.slots, defaultIndex), defaultIndex, defaultIndex)
  }

  /** After `Start` on a non-empty array, no camera but the default is active, the default is
      active when its slot holds a camera, and both indices are the default. */
  lemma StartShowsDefault(r: Rig, defaultIndex: int)
    requires |r.slots| > 0
    ensures AtMostCurrentActive(AfterStart(r, defaultIndex))
    ensures AfterStart(r, defaultIndex).current == AfterStart(r, defaultIndex).previous == defaultIndex
    ensures 0 <= defaultIndex < |r.slots| && r.slots[defaultIndex] != Empty ==>
              OnlyCurrentActive(AfterStart(r, defaultIndex))
  {
    var s := AfterStart(r, defaultIndex).slots;
    assert forall i :: 0 <= i < |s| ==> s[i] == (if r.slots[i] == Empty then Empty else Cam(i == defaultIndex));
  }

  /** Whether `SwitchCamera` accepts index `n`: it is in range and its slot holds a camera. */
  predicate Selectable(slots: seq<Slot>, n: int)
  {
    0 <= n < |slots| && slots[n] != Empty
  }

  /** `SwitchCamera(n)`. */
  function Switch(r: Rig, n: int): (res: (Rig, Outcome))
    ensures res.1 == Rejected <==> !Selectable(r.slots, n)
    ensures res.1 == CurrentOutOfRange <==> Selectable(r.slots, n) && !(0 <= r.current < |r.slots|)
    ensures res.1 != Switched ==> res.0 == r
    ensures res.1 == Switched ==>
              && |res.0.slots| == |r.slots|
              && res.0.current == n && res.0.previous == r.current
              && res.0.slots[n] == Cam(true)
              && (r.current != n && r.slots[r.current] != Empty ==> res.0.slots[r.current] == Cam(false))
              && (forall i :: 0 <= i < |r.slots| && i != n && i != r.current ==> res.0.slots[i] == r.slots[i])
  {
    if n < 0 || n >= |r.slots| || r.slots[n] == Empty then (r, Rejected)
    else if r.current < 0 || r.current >= |r.slots| then (r, CurrentOutOfRange)
    else
      var hidden := if r.slots[r.current] != Empty then r.slots[r.current := Cam(false)] else r.slots;
      (Rig(hidden[n := Cam(true)], n, r.current), Switched)
  }

  /** A switch never turns a null slot into a camera or the reverse. */
  lemma SwitchKeepsSlots(r: Rig, n: int)
    ensures |Switch(r, n).0.slots| == |r.slots|
    ensures forall i :: 0 <= i < |r.slots| ==> (Switch(r, n).0.slots[i] == Empty <==> r.slots[i] == Empty)
  {
  }

  /** If no camera but the current one is active before a switch, the same holds after it, and
      after a successful switch the new current camera is the one camera shown. */
  lemma SwitchKeepsOneActive(r: Rig, n: int)
    requires AtMostCurrentActive(r)
    ensures AtMostCurrentActive(Switch(r, n).0)
    ensures Switch(r, n).1 == Switched ==> OnlyCurrentActive(Switch(r, n).0)
  {
    var (r', o) := Switch(r, n);
    if o == Switched {
      assert forall i :: 0 <= i < |r'.slots| && i != n && i != r.current ==> r'.slots[i] == r.slots[i];
    }
  }

  /** `SwitchToPreviousCamera`. */
  function SwitchToPrevious(r: Rig): (res: (Rig, Outcome))
    ensures res.1 == Rejected <==> !Selectable(r.slots, r.previous)
    ensures res.1 != Switched ==> res.0 == r
    ensures res.1 == Switched ==> res.0.current == r.previous && res.0.previous == r.current
  {
    Switch(r, r.previous)
  }

  /** Going back to the previous camera twice, when the current camera is the only one shown
      and the previous one can be selected, restores the cameras and both indices exactly. */
  lemma SwitchToPreviousTwiceRestores(r: Rig)
    requires OnlyCurrentActive(r)
    requires Selectable(r.slots, r.previous)
    ensures SwitchToPrevious(r).1 == Switched
    ensures SwitchToPrevious(SwitchToPrevious(r).0).1 == Switched
    ensures SwitchToPrevious(SwitchToPrevious(r).0).0 == r
  {
    var (r1, o1) := SwitchToPrevious(r);
    SwitchKeepsSlots(r, r.previous);
    var (r2, o2) := SwitchToPrevious(r1);
    assert r1.previous == r.current && r1.current == r.previous;
    assert Selectable(r1.slots, r1.previous);
    forall i | 0 <= i < |r.slots| ensures r2.slots[i] == r.slots[i] {
      if i == r.current {
        assert r2.slots[i] == Cam(true);
      } else if i == r.previous {
        assert r.slots[i] == Cam(false);
      } else {
        assert r1.slots[i] == r.slots[i];
      }
    }
    assert r2.slots == r.slots;
  }

  /** The indices the keys 1, 2 and 3 pressed in one frame request, in the order `Update` tests
      them; a key is ignored when the array is too short for its index. */
  function KeyRequests(count: nat, key1: bool, key2: bool, key3: bool): (reqs: seq<int>)
    ensures forall j :: 0 <= j < |reqs| ==> 0 <= reqs[j] < count
    ensures 0 in reqs <==> key1 && count > 0
    ensures 1 in reqs <==> key2 && count > 1
    ensures 2 in reqs <==> key3 && count > 2
    ensures forall j, k :: 0 <= j < k < |reqs| ==> reqs[j] < reqs[k]
  {
    (if key1 && count > 0 then [0] else []) +
    (if key2 && count > 1 then [1] else []) +
    (if key3 && count > 2 then [2] else [])
  }

  /** The switches requested in one frame, applied one after another. */
  function SwitchAll(r: Rig, reqs: seq<int>): (r': Rig)
    ensures |r'.slots| == |r.slots|
    ensures forall i :: 0 <= i < |r.slots| ==> (r'.slots[i] == Empty <==> r.slots[i] == Empty)
    decreases |reqs|
  {
    if reqs == [] then r else SwitchAll(Switch(r, reqs[0]).0, reqs[1..])
  }

  /** `Update`: the keys 1, 2 and 3, tested in that order. */
  function AfterUpdate(r: Rig, key1: bool, key2: bool, key3: bool): (r': Rig)
    ensures !key1 && !key2 && !key3 ==> r' == r
    ensures |r'.slots| == |r.slots|
    ensures forall i :: 0 <= i < |r.slots| ==> (r'.slots[i] == Empty <==> r.slots[i] == Empty)
  {
    SwitchAll(r, KeyRequests(|r.slots|, key1, key2, key3))
  }

  /** The last selectable index among `reqs`, or `fallback` when there is none. */
  function LastSelectable(slots: seq<Slot>, reqs: seq<int>, fallback: int): int
    decreases |reqs|
  {
    if reqs == [] then fallback
    else LastSelectable(slots, reqs[1..], if Selectable(slots, reqs[0]) then reqs[0] else fallback)
  }

  /** With a valid current index, the last selectable request of a frame becomes current (and
      with none, the current camera stays); only-the-current-camera-shown is kept throughout. */
  lemma {:induction false} SwitchAllLastWins(r: Rig, reqs: seq<int>)
    requires 0 <= r.current < |r.slots|
    requires AtMostCurrentActive(r)
    ensures SwitchAll(r, reqs).current == LastSelectable(r.slots, reqs, r.current)
    ensures AtMostCurrentActive(SwitchAll(r, reqs))
    ensures |SwitchAll(r, reqs).slots| == |r.slots|
    ensures forall i :: 0 <= i < |r.slots| ==> (SwitchAll(r, reqs).slots[i] == Empty <==> r.slots[i] == Empty)
    decreases |reqs|
  {
    if reqs != [] {
      var r1 := Switch(r, reqs[0]).0;
      SwitchKeepsSlots(r, reqs[0]);
      SwitchKeepsOneActive(r, reqs[0]);
      assert forall k :: Selectable(r1.slots, k) <==> Selectable(r.slots, k);
      SwitchAllLastWins(r1, reqs[1..]);
      assert LastSelectable(r1.slots, reqs[1..], r1.current)
          == LastSelectable(r.slots, reqs[1..], r1.current) by {
        LastSelectableSameSlots(r1.slots, r.slots, reqs[1..], r1.current);
      }
    }
  }

  lemma {:induction false} LastSelectableSameSlots(s1: seq<Slot>, s2: seq<Slot>, reqs: seq<int>, fallback: int)
    requires forall k :: Selectable(s1, k) <==> Selectable(s2, k)
    ensures LastSelectable(s1, reqs, fallback) == LastSelectable(s2, reqs, fallback)
    decreases |reqs|
  {
    if reqs != [] {
      LastSelectableSameSlots(s1, s2, reqs[1..], if Selectable(s1, reqs[0]) then reqs[0] else fallback);
    }
  }

  /** Within one frame the last pressed key whose camera exists wins. */
  lemma UpdateLastKeyWins(r: Rig, key1: bool, key2: bool, key3: bool)
    requires 0 <= r.current < |r.slots|
    requires AtMostCurrentActive(r)
    ensures AfterUpdate(r, key1, key2, key3).current ==
              LastSelectable(r.slots, KeyRequests(|r.slots|, key1, key2, key3), r.current)
    ensures AtMostCurrentActive(AfterUpdate(r, key1, key2, key3))
  {
    SwitchAllLastWins(r, KeyRequests(|r.slots|, key1, key2, key3));
  }

  /** After a batch of switches the current camera exists and is the only one shown, provided
      no other camera is shown before the batch and either the current camera is already shown
      or some request can be selected. */
  lemma {:induction false} SwitchAllKeepsOnlyCurrent(r: Rig, reqs: seq<int>)
    requires 0 <= r.current < |r.slots| && AtMostCurrentActive(r)
    requires r.slots[r.current] == Cam(true) || exists j :: 0 <= j < |reqs| && Selectable(r.slots, reqs[j])
    ensures OnlyCurrentActive(SwitchAll(r, reqs))
    decreases |reqs|
  {
    if reqs == [] {
      return;
    }
    var (r1, o) := Switch(r, reqs[0]);
    SwitchKeepsSlots(r, reqs[0]);
    SwitchKeepsOneActive(r, reqs[0]);
    assert forall k :: Selectable(r1.slots, k) <==> Selectable(r.slots, k);
    if o != Switched && r.slots[r.current] != Cam(true) {
      var j :| 0 <= j < |reqs| && Selectable(r.slots, reqs[j]);
      assert j != 0;
      assert Selectable(r1.slots, reqs[1..][j - 1]);
    }
    SwitchAllKeepsOnlyCurrent(r1, reqs[1..]);
  }

  /** A frame of `Update` keeps the current camera the only one shown. */
  lemma UpdateKeepsOnlyCurrent(r: Rig, key1: bool, key2: bool, key3: bool)
    requires OnlyCurrentActive(r)
    ensures OnlyCurrentActive(AfterUpdate(r, key1, key2, key3))
  {
    SwitchAllKeepsOnlyCurrent(r, KeyRequests(|r.slots|, key1, key2, key3));
  }

  /** While the current index does not index the array, every switch either is refused or
      throws before writing, so a batch of switches changes nothing. */
  lemma {:induction false} SwitchAllStuck(r: Rig, reqs: seq<int>)
    requires !(0 <= r.current < |r.slots|)
    ensures SwitchAll(r, reqs) == r
    decreases |reqs|
  {
    if reqs != [] {
      SwitchAllStuck(Switch(r, reqs[0]).0, reqs[1..]);
    }
  }

  /** A frame whose current index is out of range (a default index outside the array) leaves
      the cameras and both indices as they were, whatever keys are pressed. */
  lemma UpdateOutOfRangeChangesNothing(r: Rig, key1: bool, key2: bool, key3: bool)
    requires !(0 <= r.current < |r.slots|)
    ensures AfterUpdate(r, key1, key2, key3) == r
  {
    SwitchAllStuck(r, KeyRequests(|r.slots|, key1, key2, key3));
  }

  /** The component: `cameras` as the scene assigned it, the default index, and the two indices
      it maintains. */
  class CamSwitch {
    const cameras: array<Slot>
    const defaultCameraIndex: int
    var currentCameraIndex: int
    var previousCameraIndex: int

    ghost function State(): Rig
      reads this, cameras
    {
      Rig(cameras[..], currentCameraIndex, previousCameraIndex)
    }

    /** The component as deserialized: both indices hold their default, 0. A null `cameras`
        is represented by an empty array. */
    constructor (cameras: array<Slot>, defaultCameraIndex: int)
      ensures this.cameras == cameras && this.defaultCameraIndex == defaultCameraIndex
      ensures currentCameraIndex == 0 && previousCameraIndex == 0
    {
      this.cameras := cameras;
      this.defaultCameraIndex := defaultCameraIndex;
      currentCameraIndex := 0;
      previousCameraIndex := 0;
    }

    method Start()
      modifies this, cameras
      ensures State() == AfterStart(old(State()), defaultCameraIndex)
    {
      if cameras.Length == 0 {
        return;
      }
      for i := 0 to cameras.Length
        invariant forall j :: 0 <= j < i ==>
                    cameras[j] == (if old(cameras[j]) == Empty then Empty else Cam(j == defaultCameraIndex))
        invariant forall j :: i <= j < cameras.Length ==> cameras[j] == old(cameras[j])
      {
        if cameras[i] != Empty {
          cameras[i] := Cam(i == defaultCameraIndex);
        }
      }
      currentCameraIndex := defaultCameraIndex;
      previousCameraIndex := defaultCameraIndex;
      assert cameras[..] == StartSlots(old(cameras[..]), defaultCameraIndex);
    }

    method SwitchCamera(newCameraIndex: int) returns (outcome: Outcome)
      modifies this, cameras
      ensures (State(), outcome) == Switch(old(State()), newCameraIndex)
    {
      if newCameraIndex < 0 || newCameraIndex >= cameras.Length || cameras[newCameraIndex] == Empty {
        return Rejected;
      }
      if currentCameraIndex < 0 || currentCameraIndex >= cameras.Length {
        return CurrentOutOfRange;
      }
      if cameras[currentCameraIndex] != Empty {
        cameras[currentCameraIndex] := Cam(false);
      }
      previousCameraIndex := currentCameraIndex;
      currentCameraIndex := newCameraIndex;
      cameras[currentCameraIndex] := Cam(true);
      outcome := Switched;
    }

    method SwitchToPreviousCamera() returns (outcome: Outcome)
      modifies this, cameras
      ensures (State(), outcome) == SwitchToPrevious(old(State()))
    {
      outcome := SwitchCamera(previousCameraIndex);
    }

    /** `Update`, given which of the keys 1, 2 and 3 went down this frame. */
    method Update(key1: bool, key2: bool, key3: bool)
      modifies this, cameras
      ensures State() == AfterUpdate(old(State()), key1, key2, key3)
    {
      ghost var start := State();
      ghost var done: seq<int> := [];
      if key1 && cameras.Length > 0 {
        SwitchAllSnoc(start, done, 0);
        var _ := SwitchCamera(0);
        done := done + [0];
      }
      assert State() == SwitchAll(start, done);
      if key2 && cameras.Length > 1 {
        SwitchAllSnoc(start, done, 1);
        var _ := SwitchCamera(1);
        done := done + [1];
      }
      assert State() == SwitchAll(start, done);
      if key3 && cameras.Length > 2 {
        SwitchAllSnoc(start, done, 2);
        var _ := SwitchCamera(2);
        done := done + [2];
      }
      assert done == KeyRequests(cameras.Length, key1, key2, key3);
    }
  }

  /** Applying one more request after a batch is switching from the batch's result. */
  lemma {:induction false} SwitchAllSnoc(r: Rig, reqs: seq<int>, k: int)
    ensures SwitchAll(r, reqs + [k]) == Switch(SwitchAll(r, reqs), k).0
    decreases |reqs|
  {
    if reqs == [] {
      assert [] + [k] == [k];
      assert [k][1..] == [];
    } else {
      assert (reqs + [k])[0] == reqs[0];
      assert (reqs + [k])[1..] == reqs[1..] + [k];
      SwitchAllSnoc(Switch(r, reqs[0]).0, reqs[1..], k);
    }
  }
}
