/**
 * The application around the pipeline: the scene of seven objects, the
 * per-frame loop that picks which one to draw from the number keys, and
 * the keyboard controls of the camera. The window, the clock and model
 * loading are outside the model: the keys held in each frame are given
 * as a sequence of sets, and the vertex array of the loaded sphere is a
 * parameter.
 */
module App {
  import opened Numerics
  import opened Linalg
  import opened Primitives
  import opened Cameras

  datatype Key =
    | Key1 | Key2 | Key3 | Key4 | Key5 | Key6 | Key7
    | A | D | Q | E | W | S
    | Left | Right | Up | Down
    | Escape

  // ------------------------------------------------------------- scene

  datatype SceneObject = SceneObject(
    translation: Vec3,
    rotation: Vec3,
    scale: real,
    vertexArray: seq<Vertex>,
    id: real)

  /** An object at the origin, unrotated and at unit scale. */
  function Plain(sphere: seq<Vertex>, id: real): SceneObject
  {
    SceneObject(Vec3(0.0, 0.0, 0.0), Vec3(0.0, 0.0, 0.0), 1.0, sphere, id)
  }

  /**
   * The scene: seven objects sharing the sphere's vertex array, with ids 1
   * to 7; the second (the moon) is moved to (0.5, 1, 0), turned a quarter
   * of pi about y and scaled to 0.3, the others sit at the origin.
   */
  function SceneObjects(sphere: seq<Vertex>): (objs: seq<SceneObject>)
    ensures |objs| == 7
    ensures forall i :: 0 <= i < 7 ==> objs[i].vertexArray == sphere && objs[i].id == (i + 1) as real
    ensures objs[1].translation == Vec3(0.5, 1.0, 0.0) && objs[1].rotation == Vec3(0.0, Pi / 4.0, 0.0)
    ensures objs[1].scale == 0.3
    ensures forall i :: 0 <= i < 7 && i != 1 ==> objs[i] == Plain(sphere, (i + 1) as real)
  {
    [Plain(sphere, 1.0),
     SceneObject(Vec3(0.5, 1.0, 0.0), Vec3(0.0, Pi / 4.0, 0.0), 0.3, sphere, 2.0),
     Plain(sphere, 3.0), Plain(sphere, 4.0), Plain(sphere, 5.0), Plain(sphere, 6.0), Plain(sphere, 7.0)]
  }

  /** `Vec::get`: the element at `i`, or nothing past the end. */
  function Get<T>(xs: seq<T>, i: nat): (r: Option<T>)
    ensures r.Some? <==> i < |xs|
    ensures r.Some? ==> r.value == xs[i]
  {
    if i < |xs| then Some(xs[i]) else None
  }

  // --------------------------------------------------------- selection

  /** The number key that selects object k (counted from 0). */
  function DigitKey(k: nat): Key
    requires k < 7
  {
    [Key1, Key2, Key3, Key4, Key5, Key6, Key7][k]
  }

  /** The lowest k at or above `from` whose number key is held. */
  function LowestHeldDigit(held: set<Key>, from: nat): (r: Option<nat>)
    requires from <= 7
    ensures r.Some? ==> from <= r.value < 7 && DigitKey(r.value) in held
    ensures r.Some? ==> forall j :: from <= j < r.value ==> DigitKey(j) !in held
    ensures r.None? ==> forall j :: from <= j < 7 ==> DigitKey(j) !in held
    decreases 7 - from
  {
    if from == 7 then None
    else if DigitKey(from) in held then Some(from)
    else LowestHeldDigit(held, from + 1)
  }

  /**
   * The object selected after a frame: the lowest held number key wins;
   * with none held the selection stays.
   */
  function Selection(held: set<Key>, current: nat): (s: nat)
    ensures (forall j :: 0 <= j < 7 ==> DigitKey(j) !in held) ==> s == current
    ensures (exists j :: 0 <= j < 7 && DigitKey(j) in held) ==>
              s < 7 && DigitKey(s) in held && forall j :: 0 <= j < s ==> DigitKey(j) !in held
  {
    match LowestHeldDigit(held, 0)
    case Some(k) => k
    case None => current
  }

  /** The `if ... else if` chain over keys 1 to 7 in the main loop. */
  method SelectObject(held: set<Key>, current: nat) returns (selected: nat)
    ensures selected == Selection(held, current)
  {
    selected := current;
    if Key1 in held {
      selected := 0;
    } else if Key2 in held {
      selected := 1;
    } else if Key3 in held {
      selected := 2;
    } else if Key4 in held {
      selected := 3;
    } else if Key5 in held {
      selected := 4;
    } else if Key6 in held {
      selected := 5;
    } else if Key7 in held {
      selected := 6;
    }
  }

  /** The selection after the frames so far, starting from object 0. */
  function SelectionAfter(frames: seq<set<Key>>): (s: nat)
    ensures s < 7
  {
    if frames == [] then 0
    else Selection(frames[|frames| - 1], SelectionAfter(frames[..|frames| - 1]))
  }

  /** The frame in which Escape is first held, or the number of frames. */
  function EscapeFrame(frames: seq<set<Key>>): (n: nat)
    ensures n <= |frames|
    ensures forall i :: 0 <= i < n ==> Escape !in frames[i]
    ensures n < |frames| ==> Escape in frames[n]
  {
    if frames == [] then 0
    else if Escape in frames[0] then 0
    else 1 + EscapeFrame(frames[1..])
  }

  // ------------------------------------------------------------ controls

  const MovementSpeed: real := 1.0
  const RotationSpeed: real := Pi / 50.0
  const ZoomSpeed: real := 0.1

  /** `v` when only the `plus` key is held, `-v` when only the `minus` key is, else 0. */
  function Signed(plus: bool, minus: bool, v: real): real
  {
    (if plus then v else 0.0) - (if minus then v else 0.0)
  }

  /**
   * The pan direction of the frame: A and D move along x, Q and E along y;
   * opposite keys cancel, so each component is -1, 0 or 1.
   */
  function MovementOf(held: set<Key>): (mv: Vec3)
    ensures mv.z == 0.0
    ensures mv.x == 0.0 <==> (A in held <==> D in held)
    ensures mv.y == 0.0 <==> (Q in held <==> E in held)
  {
    Vec3(Signed(D in held, A in held, MovementSpeed), Signed(Q in held, E in held, MovementSpeed), 0.0)
  }

  /** Each component of the movement is -1, 0 or 1: one step at most along each axis. */
  lemma MovementComponents(held: set<Key>)
    ensures MovementOf(held).x in {-1.0, 0.0, 1.0} && MovementOf(held).y in {-1.0, 0.0, 1.0}
  {
  }

  /** The orbit calls of a frame: Left, Right, W, S, in that order. */
  function OrbitCalls(held: set<Key>): seq<CameraCall>
  {
    (if Left in held then [CameraCall.Orbit(RotationSpeed, 0.0)] else [])
    + (if Right in held then [CameraCall.Orbit(-RotationSpeed, 0.0)] else [])
    + (if W in held then [CameraCall.Orbit(0.0, -RotationSpeed)] else [])
    + (if S in held then [CameraCall.Orbit(0.0, RotationSpeed)] else [])
  }

  /** The pan call of a frame: made only when the movement has positive length. */
  function MoveCalls(held: set<Key>, m: Libm): seq<CameraCall>
  {
    var mv := MovementOf(held);
    if m.sqrt(Dot3(mv, mv)) > 0.0 then [CameraCall.MoveCenter(mv)] else []
  }

  /** The zoom calls of a frame: Up, then Down. */
  function ZoomCalls(held: set<Key>): seq<CameraCall>
  {
    (if Up in held then [CameraCall.Zoom(ZoomSpeed)] else [])
    + (if Down in held then [CameraCall.Zoom(-ZoomSpeed)] else [])
  }

  /** Every camera call `handle_input` makes in one frame, in order. */
  function InputCalls(held: set<Key>, m: Libm): seq<CameraCall>
  {
    OrbitCalls(held) + MoveCalls(held, m) + ZoomCalls(held)
  }

  /** The orbit block of `handle_input`: Left and Right turn the yaw, W and S the pitch. */
  method OrbitControls(held: set<Key>, camera: Camera)
    modifies camera
    ensures camera.calls == old(camera.calls) + OrbitCalls(held)
  {
    if Left in held {
      camera.Orbit(RotationSpeed, 0.0);
    }
    if Right in held {
      camera.Orbit(-RotationSpeed, 0.0);
    }
    if W in held {
      camera.Orbit(0.0, -RotationSpeed);
    }
    if S in held {
      camera.Orbit(0.0, RotationSpeed);
    }
  }

  /**
   * The movement block of `handle_input`: the movement vector is built up
   * key by key and the centre moved when its length is positive.
   */
  method MovementControls(held: set<Key>, camera: Camera, m: Libm)
    modifies camera
    ensures camera.calls == old(camera.calls) + MoveCalls(held, m)
  {
    var movement := Vec3(0.0, 0.0, 0.0);
    if A in held {
      movement := movement.(x := movement.x - MovementSpeed);
    }
    if D in held {
      movement := movement.(x := movement.x + MovementSpeed);
    }
    if Q in held {
      movement := movement.(y := movement.y + MovementSpeed);
    }
    if E in held {
      movement := movement.(y := movement.y - MovementSpeed);
    }
    assert movement == MovementOf(held);
    if m.sqrt(Dot3(movement, movement)) > 0.0 {
      camera.MoveCenter(movement);
    }
  }

  /** The zoom block of `handle_input`: Up zooms by 0.1, Down by -0.1. */
  method ZoomControls(held: set<Key>, camera: Camera)
    modifies camera
    ensures camera.calls == old(camera.calls) + ZoomCalls(held)
  {
    if Up in held {
      camera.Zoom(ZoomSpeed);
    }
    if Down in held {
      camera.Zoom(-ZoomSpeed);
    }
  }

  /** `handle_input(window, camera)`: orbit, then movement, then zoom. */
  method HandleInput(held: set<Key>, camera: Camera, m: Libm)
    modifies camera
    ensures camera.calls == old(camera.calls) + InputCalls(held, m)
  {
    OrbitControls(held, camera);
    MovementControls(held, camera, m);
    ZoomControls(held, camera);
  }

  /**
   * With a lawful square root, the camera pans exactly when the held keys
   * do not cancel out, and then by the frame's movement.
   */
  lemma PansExactlyWhenUnbalanced(held: set<Key>, m: Libm)
    requires Lawful(m)
    ensures MoveCalls(held, m) != [] <==> (A in held) != (D in held) || (Q in held) != (E in held)
    ensures MoveCalls(held, m) != [] ==> MoveCalls(held, m) == [CameraCall.MoveCenter(MovementOf(held))]
  {
    SqrtPositive(m, 0.0);
    assert 0.0 <= m.sqrt(0.0);
    SqrtPositive(m, 1.0);
    SqrtPositive(m, 2.0);
    PansWithSmallRoots(held, m);
  }

  /** The same, knowing only the square roots of 0, 1 and 2 that a frame can ask for. */
  lemma PansWithSmallRoots(held: set<Key>, m: Libm)
    requires m.sqrt(0.0) == 0.0 && m.sqrt(1.0) > 0.0 && m.sqrt(2.0) > 0.0
    ensures MoveCalls(held, m) != [] <==> (A in held) != (D in held) || (Q in held) != (E in held)
    ensures MoveCalls(held, m) != [] ==> MoveCalls(held, m) == [CameraCall.MoveCenter(MovementOf(held))]
  {
    SquaredMovement(held);
  }

  /** The squared length of the movement counts the axes whose two keys disagree. */
  lemma SquaredMovement(held: set<Key>)
    ensures Dot3(MovementOf(held), MovementOf(held))
         == (if (A in held) != (D in held) then 1.0 else 0.0) + (if (Q in held) != (E in held) then 1.0 else 0.0)
  {
    var x := Signed(D in held, A in held, MovementSpeed);
    var y := Signed(Q in held, E in held, MovementSpeed);
    assert x * x == (if (A in held) != (D in held) then 1.0 else 0.0);
    assert y * y == (if (Q in held) != (E in held) then 1.0 else 0.0);
  }

  /** The net orbit and zoom of a list of camera calls. */
  function NetYaw(calls: seq<CameraCall>): real
  {
    if calls == [] then 0.0
    else (if calls[0].Orbit? then calls[0].deltaYaw else 0.0) + NetYaw(calls[1..])
  }

  function NetPitch(calls: seq<CameraCall>): real
  {
    if calls == [] then 0.0
    else (if calls[0].Orbit? then calls[0].deltaPitch else 0.0) + NetPitch(calls[1..])
  }

  function NetZoom(calls: seq<CameraCall>): real
  {
    if calls == [] then 0.0
    else (if calls[0].Zoom? then calls[0].delta else 0.0) + NetZoom(calls[1..])
  }

  lemma {:induction false} NetAppend(a: seq<CameraCall>, b: seq<CameraCall>)
    ensures NetYaw(a + b) == NetYaw(a) + NetYaw(b)
    ensures NetPitch(a + b) == NetPitch(a) + NetPitch(b)
    ensures NetZoom(a + b) == NetZoom(a) + NetZoom(b)
  {
    if a != [] {
      assert (a + b)[1..] == a[1..] + b;
      NetAppend(a[1..], b);
    } else {
      assert a + b == b;
    }
  }

  /**
   * The net effect of a frame's controls: Left and Right turn the yaw by
   * plus and minus pi/50 and cancel when both are held, S and W likewise
   * for the pitch, Up and Down zoom by plus and minus 0.1.
   */
  lemma InputNet(held: set<Key>, m: Libm)
    ensures NetYaw(InputCalls(held, m)) == Signed(Left in held, Right in held, RotationSpeed)
    ensures NetPitch(InputCalls(held, m)) == Signed(S in held, W in held, RotationSpeed)
    ensures NetZoom(InputCalls(held, m)) == Signed(Up in held, Down in held, ZoomSpeed)
  {
    OrbitNet(held);
    MoveNet(held, m);
    ZoomNet(held);
    NetAppend(OrbitCalls(held), MoveCalls(held, m));
    NetAppend(OrbitCalls(held) + MoveCalls(held, m), ZoomCalls(held));
  }

  lemma OrbitNet(held: set<Key>)
    ensures NetYaw(OrbitCalls(held)) == Signed(Left in held, Right in held, RotationSpeed)
    ensures NetPitch(OrbitCalls(held)) == Signed(S in held, W in held, RotationSpeed)
    ensures NetZoom(OrbitCalls(held)) == 0.0
  {
    var l := if Left in held then [CameraCall.Orbit(RotationSpeed, 0.0)] else [];
    var r := if Right in held then [CameraCall.Orbit(-RotationSpeed, 0.0)] else [];
    var w := if W in held then [CameraCall.Orbit(0.0, -RotationSpeed)] else [];
    var s := if S in held then [CameraCall.Orbit(0.0, RotationSpeed)] else [];
    NetAppend(l, r);
    NetAppend(l + r, w);
    NetAppend(l + r + w, s);
  }

  lemma MoveNet(held: set<Key>, m: Libm)
    ensures NetYaw(MoveCalls(held, m)) == 0.0 && NetPitch(MoveCalls(held, m)) == 0.0
    ensures NetZoom(MoveCalls(held, m)) == 0.0
  {
  }

  lemma ZoomNet(held: set<Key>)
    ensures NetYaw(ZoomCalls(held)) == 0.0 && NetPitch(ZoomCalls(held)) == 0.0
    ensures NetZoom(ZoomCalls(held)) == Signed(Up in held, Down in held, ZoomSpeed)
  {
    var up := if Up in held then [CameraCall.Zoom(ZoomSpeed)] else [];
    var down := if Down in held then [CameraCall.Zoom(-ZoomSpeed)] else [];
    NetAppend(up, down);
  }

  /** With no key held, a frame makes no camera call. */
  lemma NoKeysNoCalls(m: Libm)
    requires Lawful(m)
    ensures InputCalls({}, m) == []
  {
    PansExactlyWhenUnbalanced({}, m);
  }

  // ---------------------------------------------------------- main loop

  /**
   * The object selected in each of the frames so far: entry i is the
   * selection after frame i, always one of the seven objects.
   */
  function SelectionTrace(frames: seq<set<Key>>): (ss: seq<nat>)
    ensures |ss| == |frames|
    ensures forall i :: 0 <= i < |ss| ==> ss[i] == SelectionAfter(frames[..i + 1]) && ss[i] < 7
  {
    if frames == [] then []
    else
      var init := frames[..|frames| - 1];
      PrefixOfPrefix(frames, |frames| - 1);
      assert frames[..|frames|] == frames;
      SelectionTrace(init) + [SelectionAfter(frames)]
  }

  lemma PrefixOfPrefix<T>(xs: seq<T>, n: nat)
    requires n <= |xs|
    ensures forall i {:trigger xs[..i + 1]} :: 0 <= i < n ==> xs[..n][..i + 1] == xs[..i + 1]
  {
  }

  /** The camera calls of the frames so far, frame after frame. */
  function InputTrace(frames: seq<set<Key>>, m: Libm): seq<CameraCall>
  {
    if frames == [] then []
    else InputTrace(frames[..|frames| - 1], m) + InputCalls(frames[|frames| - 1], m)
  }

  lemma AppendAssoc<T>(a: seq<T>, b: seq<T>, c: seq<T>)
    ensures a + (b + c) == (a + b) + c
  {
  }

  /** The trace of k + 1 frames is the trace of k frames followed by frame k's calls. */
  lemma InputTraceStep(frames: seq<set<Key>>, k: nat, m: Libm)
    requires k < |frames|
    ensures InputTrace(frames[..k + 1], m) == InputTrace(frames[..k], m) + InputCalls(frames[k], m)
  {
    assert frames[..k + 1][..k] == frames[..k];
  }

  /** The sum over the frames of each frame's `Signed` value. */
  function SignedSum(frames: seq<set<Key>>, plus: Key, minus: Key, v: real): real
  {
    if frames == [] then 0.0
    else SignedSum(frames[..|frames| - 1], plus, minus, v) + Signed(plus in frames[|frames| - 1], minus in frames[|frames| - 1], v)
  }

  /**
   * Over any run of frames, the camera's net yaw is the sum of each frame's
   * contribution: pi/50 with Left alone, -pi/50 with Right alone, nothing
   * when both or neither are held.
   */
  lemma {:induction false} TraceYaw(frames: seq<set<Key>>, m: Libm)
    ensures NetYaw(InputTrace(frames, m)) == SignedSum(frames, Left, Right, RotationSpeed)
  {
    if frames != [] {
      var init, last := frames[..|frames| - 1], frames[|frames| - 1];
      assert InputTrace(frames, m) == InputTrace(init, m) + InputCalls(last, m);
      TraceYaw(init, m);
      NetAppend(InputTrace(init, m), InputCalls(last, m));
      InputNet(last, m);
    }
  }

  /** The same for the pitch: S alone adds pi/50, W alone takes it away. */
  lemma {:induction false} TracePitch(frames: seq<set<Key>>, m: Libm)
    ensures NetPitch(InputTrace(frames, m)) == SignedSum(frames, S, W, RotationSpeed)
  {
    if frames != [] {
      var init, last := frames[..|frames| - 1], frames[|frames| - 1];
      assert InputTrace(frames, m) == InputTrace(init, m) + InputCalls(last, m);
      TracePitch(init, m);
      NetAppend(InputTrace(init, m), InputCalls(last, m));
      InputNet(last, m);
    }
  }

  /** The same for the zoom: Up alone adds 0.1, Down alone takes it away. */
  lemma {:induction false} TraceZoom(frames: seq<set<Key>>, m: Libm)
    ensures NetZoom(InputTrace(frames, m)) == SignedSum(frames, Up, Down, ZoomSpeed)
  {
    if frames != [] {
      var init, last := frames[..|frames| - 1], frames[|frames| - 1];
      assert InputTrace(frames, m) == InputTrace(init, m) + InputCalls(last, m);
      TraceZoom(init, m);
      NetAppend(InputTrace(init, m), InputCalls(last, m));
      InputNet(last, m);
    }
  }

  /**
   * The loop of `main` over the frames the window delivers: it stops at the
   * first frame with Escape held; otherwise it counts the frame, runs the
   * camera controls, updates the selection and draws the selected object.
   * Returns the frame counter and the index of the object drawn in each
   * frame; `objects.get` always finds the object, since the selection
   * never leaves 0..6.
   */
  method MainLoop(frames: seq<set<Key>>, sphere: seq<Vertex>, camera: Camera, m: Libm)
    returns (time: nat, drawn: seq<nat>)
    modifies camera
    ensures time == |drawn| == EscapeFrame(frames)
    ensures drawn == SelectionTrace(frames[..EscapeFrame(frames)])
    ensures forall i :: 0 <= i < |drawn| ==> drawn[i] < |SceneObjects(sphere)|
    ensures camera.calls == old(camera.calls) + InputTrace(frames[..EscapeFrame(frames)], m)
  {
    var objects := SceneObjects(sphere);
    time := 0;
    drawn := [];
    var selected := 0;
    var frame := 0;
    while frame < |frames|
      invariant 0 <= frame <= EscapeFrame(frames)
      invariant time == |drawn| == frame
      invariant selected == SelectionAfter(frames[..frame])
      invariant drawn == SelectionTrace(frames[..frame])
      invariant camera.calls == old(camera.calls) + InputTrace(frames[..frame], m)
      decreases |frames| - frame
    {
      var held := frames[frame];
      if Escape in held {
        break;
      }
      assert frame < EscapeFrame(frames);
      assert frames[..frame + 1][..frame] == frames[..frame];
      time := time + 1;
      HandleInput(held, camera, m);
      InputTraceStep(frames, frame, m);
      AppendAssoc(old(camera.calls), InputTrace(frames[..frame], m), InputCalls(held, m));
      selected := SelectObject(held, selected);
      match Get(objects, selected) {
        case Some(obj) =>
          drawn := drawn + [selected];
        case None =>
          assert false;
      }
      frame := frame + 1;
    }
  }
}
