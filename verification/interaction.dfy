/**
 * The mouse and wheel handlers of the 3D view (onMouseDown, onMouseMove,
 * onMouseUp, onWheel and the cleanup in src/components/ThreeVisualization.tsx)
 * and the measurement overlay they build and remove through updateCircle.
 *
 * three.js is not modelled: the raycast result is a parameter (the id and
 * position of the first marker hit, or none), the camera position is kept in
 * spherical coordinates, and the position a right-drag pan moves the camera to
 * is a parameter. The overlay objects are recorded by what they were built from.
 */
module Interaction {
  import opened Wrappers
  import opened Types
  import M = Measurement

  /** The camera position as THREE.Spherical: distance to the origin, azimuth and polar angle. */
  datatype Spherical = Spherical(radius: real, theta: real, phi: real)

  /** A pointer position in client pixels. */
  datatype Pointer = Pointer(x: real, y: real)

  /** The first marker under the pointer: its `userData.id` and its position. */
  datatype Hit = Hit(id: int, position: M.Vec3)

  /** What onMouseMove reports to the parent: nothing, onPointHover(entry, pointer) or onPointLeave(). */
  datatype Notice = NoNotice | Hover(entry: Entry, at: Pointer) | Leave

  /** The three overlay objects updateCircle keeps in the scene. */
  datatype Part = CircleLine | Disk | Plane

  const RotateSpeed: real := 0.01
  const MinPhi: real := 0.1
  const MaxPhi: real := M.Pi - 0.1
  const MinDistance: real := 5.0
  const MaxDistance: real := 50.0

  // ------------------------------------------------------------ camera

  /** `Math.max(0.1, Math.min(Math.PI - 0.1, phi))`. */
  function ClampPhi(phi: real): (r: real)
    ensures MinPhi <= r <= MaxPhi
    ensures MinPhi <= phi <= MaxPhi ==> r == phi
    ensures phi < MinPhi ==> r == MinPhi
    ensures phi > MaxPhi ==> r == MaxPhi
  {
    var upper := if MaxPhi < phi then MaxPhi else phi;
    if MinPhi > upper then MinPhi else upper
  }

  /** The orbit step of a left drag: the azimuth turns by -dx/100, the polar angle by dy/100 and is clamped. */
  function Orbit(camera: Spherical, dx: real, dy: real): Spherical {
    Spherical(camera.radius, camera.theta - dx * RotateSpeed, ClampPhi(camera.phi + dy * RotateSpeed))
  }

  /** Whatever the drag, the camera stays strictly between the poles and keeps its distance. */
  lemma OrbitKeepsCameraOffPoles(camera: Spherical, dx: real, dy: real)
    ensures MinPhi <= Orbit(camera, dx, dy).phi <= MaxPhi
    ensures 0.0 < Orbit(camera, dx, dy).phi < M.Pi
    ensures Orbit(camera, dx, dy).radius == camera.radius
  {
  }

  /** `event.deltaY > 0 ? 1.1 : 0.9`. */
  function ZoomFactor(deltaY: real): (f: real)
    ensures f > 0.0
    ensures deltaY > 0.0 ==> f > 1.0
    ensures deltaY <= 0.0 ==> f < 1.0
  {
    if deltaY > 0.0 then 1.1 else 0.9
  }

  /**
   * `clampLength(5, 50)` on a vector of the given length: the length is
   * clamped into [5, 50], except that a zero vector stays zero (three.js
   * divides by `length || 1`).
   */
  function ClampLength(length: real): (r: real)
    requires length >= 0.0
    ensures length == 0.0 ==> r == 0.0
    ensures length > 0.0 ==> MinDistance <= r <= MaxDistance
    ensures MinDistance <= length <= MaxDistance ==> r == length
  {
    if length == 0.0 then 0.0
    else if length < MinDistance then MinDistance
    else if length > MaxDistance then MaxDistance
    else length
  }

  /** onWheel: the camera distance is scaled by the zoom factor, then clamped; its direction is kept. */
  function Zoomed(camera: Spherical, deltaY: real): Spherical
    requires camera.radius >= 0.0
  {
    camera.(radius := ClampLength(camera.radius * ZoomFactor(deltaY)))
  }

  /**
   * After a wheel event a camera away from the origin is between 5 and 50
   * from it; scrolling down never brings it closer and scrolling up never
   * moves it away, for a camera already in that range.
   */
  lemma ZoomStaysInRange(camera: Spherical, deltaY: real)
    requires camera.radius >= 0.0
    ensures var z := Zoomed(camera, deltaY);
      && z.theta == camera.theta && z.phi == camera.phi
      && (camera.radius > 0.0 ==> MinDistance <= z.radius <= MaxDistance)
      && (camera.radius == 0.0 ==> z.radius == 0.0)
      && (MinDistance <= camera.radius <= MaxDistance && deltaY > 0.0 ==> z.radius >= camera.radius)
      && (MinDistance <= camera.radius <= MaxDistance && deltaY <= 0.0 ==> z.radius <= camera.radius)
  {
    var f := ZoomFactor(deltaY);
    if camera.radius > 0.0 {
      assert camera.radius * f > 0.0;
      if deltaY > 0.0 {
        assert camera.radius * f >= camera.radius * 1.0;
      } else {
        assert camera.radius * f <= camera.radius * 1.0;
      }
    }
  }

  // ------------------------------------------------------------- hover

  /** `data.find(d => d.id === id)`: the first entry with that id, if any. */
  function Find(data: seq<Entry>, id: int): (r: Option<Entry>)
    ensures r.Some? ==> r.value in data && r.value.id == id
    ensures r.None? <==> forall e :: e in data ==> e.id != id
  {
    if data == [] then None
    else if data[0].id == id then Some(data[0])
    else Find(data[1..], id)
  }

  /** The entry found is the first one carrying the id. */
  lemma {:induction false} FindFirst(data: seq<Entry>, id: int, i: nat)
    requires i < |data| && data[i].id == id
    requires forall j :: 0 <= j < i ==> data[j].id != id
    ensures Find(data, id) == Some(data[i])
  {
    if i > 0 {
      FindFirst(data[1..], id, i - 1);
    }
  }

  // ----------------------------------------------------------- overlay

  /** The scene holds one of each overlay object whose ref is set and none of the others. */
  predicate InStep(scene: multiset<Part>, circle: Option<seq<real>>, disk: Option<M.Frame>, plane: Option<M.Frame>) {
    && scene[CircleLine] == (if circle.Some? then 1 else 0)
    && scene[Disk] == (if disk.Some? then 1 else 0)
    && scene[Plane] == (if plane.Some? then 1 else 0)
  }

  /** A scene in step with the refs holds at most one of each overlay object, and none at all once every ref is null. */
  lemma AtMostOneOfEach(scene: multiset<Part>, circle: Option<seq<real>>, disk: Option<M.Frame>, plane: Option<M.Frame>)
    requires InStep(scene, circle, disk, plane)
    ensures forall p :: scene[p] <= 1
    ensures circle.None? && disk.None? && plane.None? ==> scene == multiset{}
  {
    forall p ensures scene[p] <= 1 && (circle.None? && disk.None? && plane.None? ==> scene[p] == 0) {
      match p
      case CircleLine =>
      case Disk =>
      case Plane =>
    }
    if circle.None? && disk.None? && plane.None? {
      assert forall p :: scene[p] == multiset{}[p];
    }
  }

  /**
   * The state the handlers share: the drag flags and last pointer position
   * (closure variables), the last hovered and last clicked ids, the overlay
   * refs with the scene holding them, and the camera.
   */
  class Viewer {
    var isDragging: bool
    var isRightDragging: bool
    var previous: Pointer
    var lastHover: Option<int>
    var lastClicked: Option<int>
    /** circleRef: the 64 vertex positions of the circle line. */
    var circle: Option<seq<real>>
    /** diskRef and planeRef: the frame they were oriented by. */
    var disk: Option<M.Frame>
    var plane: Option<M.Frame>
    var scene: multiset<Part>
    var camera: Spherical

    /** The scene holds exactly the overlay objects whose refs are set, and the camera is not behind the origin. */
    predicate Valid()
      reads this
    {
      && InStep(scene, circle, disk, plane)
      && camera.radius >= 0.0
    }

    /** The state after set-up: nothing dragged, hovered or clicked, no overlay. */
    constructor(initial: Spherical)
      requires initial.radius >= 0.0
      ensures Valid()
      ensures !isDragging && !isRightDragging && previous == Pointer(0.0, 0.0)
      ensures lastHover == None && lastClicked == None
      ensures circle == None && disk == None && plane == None && scene == multiset{}
      ensures camera == initial
    {
      isDragging := false;
      isRightDragging := false;
      previous := Pointer(0.0, 0.0);
      lastHover := None;
      lastClicked := None;
      circle := None;
      disk := None;
      plane := None;
      scene := multiset{};
      camera := initial;
    }

    /**
     * Removes the circle, the disk and the plane from the scene and nulls
     * their refs; the scene holds a single copy of each, which remove takes out.
     */
    method RemoveOverlay()
      requires Valid()
      modifies this
      ensures Valid()
      ensures circle == None && disk == None && plane == None && scene == multiset{}
      ensures isDragging == old(isDragging) && isRightDragging == old(isRightDragging) && previous == old(previous)
      ensures lastHover == old(lastHover) && lastClicked == old(lastClicked) && camera == old(camera)
    {
      if circle.Some? {
        scene := scene[CircleLine := 0];
        circle := None;
      }
      if disk.Some? {
        scene := scene[Disk := 0];
        disk := None;
      }
      if plane.Some? {
        scene := scene[Plane := 0];
        plane := None;
      }
      AtMostOneOfEach(scene, circle, disk, plane);
    }

    /**
     * updateCircle: builds the circle around the extreme axis through the
     * point, replacing the geometry of the objects that exist and adding to
     * the scene only those that do not.
     */
    method UpdateCircle(point: M.Vec3, axis: M.Axis, norm: M.Vec3 -> real, cos: real -> real, sin: real -> real)
      requires Valid()
      modifies this
      ensures Valid()
      ensures circle == Some(M.CirclePositions(M.CircleFrame(point, axis, norm), cos, sin))
      ensures disk == Some(M.CircleFrame(point, axis, norm)) && plane == disk
      ensures isDragging == old(isDragging) && isRightDragging == old(isRightDragging) && previous == old(previous)
      ensures lastHover == old(lastHover) && lastClicked == old(lastClicked) && camera == old(camera)
    {
      var frame := M.CircleFrame(point, axis, norm);
      var positions := M.FillCirclePositions(frame, cos, sin);
      if circle.None? {
        scene := scene + multiset{CircleLine};
      }
      circle := Some(positions[..]);
      if disk.None? {
        scene := scene + multiset{Disk};
      }
      disk := Some(frame);
      if plane.None? {
        scene := scene + multiset{Plane};
      }
      plane := Some(frame);
    }

    /**
     * onMouseDown. Left button on a marker: clicking the marker clicked last
     * removes the overlay and forgets it, any other marker gets the overlay
     * and is remembered; either way no drag starts. Left button elsewhere
     * starts an orbit drag, right button a pan drag, both from the pointer.
     */
    method MouseDown(button: int, hit: Option<Hit>, at: Pointer, axis: M.Axis, norm: M.Vec3 -> real, cos: real -> real, sin: real -> real)
      requires Valid()
      modifies this
      ensures Valid()
      ensures button == 0 && hit.Some? && old(lastClicked) == Some(hit.value.id) ==>
        && circle == None && disk == None && plane == None && scene == multiset{}
        && lastClicked == None && !isDragging
      ensures button == 0 && hit.Some? && old(lastClicked) != Some(hit.value.id) ==>
        && circle == Some(M.CirclePositions(M.CircleFrame(hit.value.position, axis, norm), cos, sin))
        && disk == Some(M.CircleFrame(hit.value.position, axis, norm)) && plane == disk
        && lastClicked == Some(hit.value.id) && !isDragging
      ensures button == 0 && hit.Some? ==> previous == old(previous) && isRightDragging == old(isRightDragging)
      ensures button == 0 && hit.None? ==>
        && isDragging && previous == at && isRightDragging == old(isRightDragging)
        && lastClicked == old(lastClicked) && circle == old(circle) && disk == old(disk) && plane == old(plane)
      ensures button == 2 ==>
        && isRightDragging && previous == at && isDragging == old(isDragging)
        && lastClicked == old(lastClicked) && circle == old(circle) && disk == old(disk) && plane == old(plane)
      ensures button != 0 && button != 2 ==>
        && isDragging == old(isDragging) && isRightDragging == old(isRightDragging) && previous == old(previous)
        && lastClicked == old(lastClicked) && circle == old(circle) && disk == old(disk) && plane == old(plane)
      ensures lastHover == old(lastHover) && camera == old(camera)
    {
      if button == 0 {
        match hit {
          case Some(h) =>
            if lastClicked == Some(h.id) {
              RemoveOverlay();
              lastClicked := None;
            } else {
              UpdateCircle(h.position, axis, norm, cos, sin);
              lastClicked := Some(h.id);
            }
            isDragging := false;
          case None =>
            isDragging := true;
            previous := at;
        }
      } else if button == 2 {
        isRightDragging := true;
        previous := at;
      }
    }

    /**
     * onMouseMove. During an orbit drag the camera turns by the pointer's
     * movement; during a pan drag it moves to `panned`; only when neither
     * drag is on is the marker under the pointer tested. A hovered marker
     * other than the last one becomes the last one, and is reported when an
     * entry has its id; leaving all markers is reported only when one was
     * hovered.
     */
    method MouseMove(at: Pointer, hit: Option<int>, data: seq<Entry>, panned: Spherical) returns (notice: Notice)
      requires Valid() && panned.radius >= 0.0
      modifies this
      ensures Valid()
      ensures old(isDragging) ==>
        && camera == Orbit(old(camera), at.x - old(previous).x, at.y - old(previous).y)
        && previous == at && lastHover == old(lastHover) && notice == NoNotice
      ensures !old(isDragging) && old(isRightDragging) ==>
        camera == panned && previous == at && lastHover == old(lastHover) && notice == NoNotice
      ensures !old(isDragging) && !old(isRightDragging) ==> camera == old(camera) && previous == old(previous)
      ensures !old(isDragging) && !old(isRightDragging) && hit.Some? && old(lastHover) != hit ==>
        && lastHover == hit
        && (Find(data, hit.value).Some? ==> notice == Hover(Find(data, hit.value).value, at))
        && (Find(data, hit.value).None? ==> notice == NoNotice)
      ensures !old(isDragging) && !old(isRightDragging) && hit.Some? && old(lastHover) == hit ==>
        lastHover == hit && notice == NoNotice
      ensures !old(isDragging) && !old(isRightDragging) && hit.None? ==>
        && lastHover == None
        && (notice == Leave <==> old(lastHover).Some?)
        && (old(lastHover).None? ==> notice == NoNotice)
      ensures isDragging == old(isDragging) && isRightDragging == old(isRightDragging)
      ensures lastClicked == old(lastClicked) && circle == old(circle) && disk == old(disk) && plane == old(plane)
    {
      notice := NoNotice;
      if isDragging {
        camera := Orbit(camera, at.x - previous.x, at.y - previous.y);
        previous := at;
      } else if isRightDragging {
        camera := panned;
        previous := at;
      } else {
        match hit {
          case Some(id) =>
            if lastHover != Some(id) {
              lastHover := Some(id);
              var found := Find(data, id);
              if found.Some? {
                notice := Hover(found.value, at);
              }
            }
          case None =>
            if lastHover != None {
              lastHover := None;
              notice := Leave;
            }
        }
      }
    }

    /** onMouseUp, also bound to mouseleave: both drags end. */
    method MouseUp()
      requires Valid()
      modifies this
      ensures Valid()
      ensures !isDragging && !isRightDragging
      ensures previous == old(previous) && lastHover == old(lastHover) && lastClicked == old(lastClicked)
      ensures circle == old(circle) && disk == old(disk) && plane == old(plane) && camera == old(camera)
    {
      isDragging := false;
      isRightDragging := false;
    }

    /** onWheel: the camera zooms by the factor of the scroll direction and is clamped into [5, 50]. */
    method Wheel(deltaY: real)
      requires Valid()
      modifies this
      ensures Valid()
      ensures camera == Zoomed(old(camera), deltaY)
      ensures isDragging == old(isDragging) && isRightDragging == old(isRightDragging) && previous == old(previous)
      ensures lastHover == old(lastHover) && lastClicked == old(lastClicked)
      ensures circle == old(circle) && disk == old(disk) && plane == old(plane)
    {
      camera := Zoomed(camera, deltaY);
    }

    /**
     * The effect's cleanup: the overlay objects leave the scene and their refs
     * are nulled. The last clicked and last hovered ids are component refs and
     * survive it, so after the cleanup a click on the marker clicked before it
     * removes nothing and draws nothing the first time.
     */
    method Teardown()
      requires Valid()
      modifies this
      ensures Valid()
      ensures circle == None && disk == None && plane == None && scene == multiset{}
      ensures isDragging == old(isDragging) && isRightDragging == old(isRightDragging) && previous == old(previous)
      ensures lastHover == old(lastHover) && lastClicked == old(lastClicked) && camera == old(camera)
    {
      RemoveOverlay();
    }

    /**
     * A change of `data` re-runs the effect: the cleanup, then a new scene, a
     * new camera at `initial` and new drag flags and pointer. The last
     * clicked and last hovered ids carry over, so a first click on the marker
     * clicked before takes the removal branch of MouseDown and draws nothing.
     */
    method Remount(initial: Spherical)
      requires Valid() && initial.radius >= 0.0
      modifies this
      ensures Valid()
      ensures !isDragging && !isRightDragging && previous == Pointer(0.0, 0.0)
      ensures circle == None && disk == None && plane == None && scene == multiset{}
      ensures camera == initial
      ensures lastHover == old(lastHover) && lastClicked == old(lastClicked)
    {
      Teardown();
      scene := multiset{};
      isDragging := false;
      isRightDragging := false;
      previous := Pointer(0.0, 0.0);
      camera := initial;
    }
  }
}
