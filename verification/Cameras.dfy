/** Camera messages and the resolution of the encoders that must follow them. */
module Cameras {

  datatype Size = Size(width: nat, height: nat) {
    predicate IsEven() {
      width % 2 == 0 && height % 2 == 0
    }

    function EvenDown(): Size {
      Size(width - width % 2, height - height % 2)
    }
  }

  datatype Camera = Camera(isLeft: bool, size: Size, matrix: seq<real>)

  /** An encoder context: not usable, or opened for a resolution. */
  datatype Context = Closed | Open(size: Size)

  datatype Codec = Codec(info: Size, context: Context)

  /** What one eye consists of: the stored camera and its two encoders. */
  datatype View = View(camera: Camera, scene: Codec, depth: Codec)

  /** Whether each of an eye's encoders can be reopened. */
  datatype Opens = Opens(scene: bool, depth: bool) {
    predicate Both() {
      scene && depth
    }
  }

  function Reinit(size: Size, opens: bool): Codec {
    Codec(size, if opens then Open(size) else Closed)
  }

  /** Handling of one camera message for one eye; the flag says that an exception escaped. */
  function SetCamera(v: View, camera: Camera, opens: Opens): (View, bool) {
    if v.camera.size == camera.size then (v.(camera := camera), false)
    else
      var size := camera.size.EvenDown();
      if !opens.scene then (v.(scene := Reinit(size, false)), true)
      else if !opens.depth then (v.(scene := Reinit(size, true), depth := Reinit(size, false)), true)
      else (View(camera.(size := size), Reinit(size, true), Reinit(size, true)), false)
  }

  /** Camera, codec settings and opened contexts of an eye all have one size. */
  predicate Agree(v: View) {
    v.scene == v.depth == Codec(v.camera.size, Open(v.camera.size))
  }

  // ---- One message ----

  /** A message fails exactly when it changes the size and an encoder does not reopen. A successful one
      leaves the eye in agreement exactly when it reopened the encoders or nothing was wrong before: a
      message that asks for the stored size repairs nothing. */
  lemma SuccessAgrees(v: View, camera: Camera, opens: Opens)
    ensures var (v', threw) := SetCamera(v, camera, opens);
            && (threw <==> v.camera.size != camera.size && !opens.Both())
            && (!threw ==> (Agree(v') <==> v.camera.size != camera.size || Agree(v)))
  {
  }

  /** `stored` is `requested` with an odd width or height made even by dropping one pixel. */
  predicate RoundedDown(stored: Size, requested: Size) {
    && stored.width % 2 == 0 && stored.width <= requested.width <= stored.width + 1
    && stored.height % 2 == 0 && stored.height <= requested.height <= stored.height + 1
  }

  /** A failed reopening keeps the old camera and never leaves the eye in agreement: the encoder that
      failed is closed with the requested even size in its settings; if it is the scene encoder the
      depth encoder is not touched, and if it is the depth encoder the scene encoder is already open. */
  lemma FailureDisagrees(v: View, camera: Camera, opens: Opens)
    requires SetCamera(v, camera, opens).1
    ensures var v' := SetCamera(v, camera, opens).0;
            && v'.camera == v.camera && !Agree(v')
            && RoundedDown(v'.scene.info, camera.size)
            && (if opens.scene then
                  && v'.scene.context == Open(v'.scene.info) && v'.depth == Codec(v'.scene.info, Closed)
                else v'.scene.context.Closed? && v'.depth == v.depth)
  {
  }

  /** A message that changes the size and reopens both encoders stores its camera with the size rounded
      down, and opens both encoders for that size; one that asks for the stored size changes only the
      camera. */
  lemma SuccessRoundsDown(v: View, camera: Camera, opens: Opens)
    requires !SetCamera(v, camera, opens).1
    ensures var v' := SetCamera(v, camera, opens).0;
            && v'.camera == camera.(size := v'.camera.size)
            && (if camera.size == v.camera.size then
                  && v'.camera.size == camera.size && v'.scene == v.scene && v'.depth == v.depth
                else
                  && RoundedDown(v'.camera.size, camera.size)
                  && v'.scene == v'.depth == Codec(v'.camera.size, Open(v'.camera.size)))
  {
  }

  // ---- Any sequence of messages ----

  datatype Views = Views(left: View, right: View) {
    function At(isLeft: bool): View {
      if isLeft then left else right
    }
  }

  function Initial(size: Size, matrix: seq<real>): Views {
    var codec := Codec(size, Open(size));
    Views(View(Camera(false, size, matrix), codec, codec), View(Camera(false, size, matrix), codec, codec))
  }

  /** A camera message, with what the encoder library will answer if it is asked to reopen. */
  datatype Message = Message(camera: Camera, opens: Opens)

  /** A message concerns the eye it names. */
  function Handle(vs: Views, m: Message): Views {
    var v := SetCamera(vs.At(m.camera.isLeft), m.camera, m.opens).0;
    if m.camera.isLeft then vs.(left := v) else vs.(right := v)
  }

  function HandleAll(vs: Views, messages: seq<Message>): Views {
    if messages == [] then vs else Handle(HandleAll(vs, messages[..|messages| - 1]), messages[|messages| - 1])
  }

  /** The messages for one eye, oldest first. */
  function Addressed(messages: seq<Message>, isLeft: bool): seq<Message> {
    if messages == [] then []
    else
      var last := messages[|messages| - 1];
      Addressed(messages[..|messages| - 1], isLeft) + if last.camera.isLeft == isLeft then [last] else []
  }

  /** Some accepted camera has a size other than `size`. */
  predicate Departs(accepted: seq<Camera>, size: Size) {
    exists i :: 0 <= i < |accepted| && accepted[i].size != size
  }

  /** The size of the last accepted camera rounded down, or the default. */
  function Expected(accepted: seq<Camera>, size: Size): Size {
    if accepted == [] then size else accepted[|accepted| - 1].size.EvenDown()
  }

  function StoredSize(accepted: seq<Camera>, size: Size): Size {
    if Departs(accepted, size) then Expected(accepted, size) else size
  }

  /** The cameras of those messages that did not throw: they ask for the stored size, or both encoders
      reopen. */
  function Accepted(mine: seq<Message>, size: Size): seq<Camera> {
    if mine == [] then []
    else
      var before, last := Accepted(mine[..|mine| - 1], size), mine[|mine| - 1];
      if last.camera.size == StoredSize(before, size) || last.opens.Both() then before + [last.camera] else before
  }

  /** Message `i` asks for a size other than the stored one. */
  predicate Reopens(mine: seq<Message>, size: Size, i: nat)
    requires i < |mine|
  {
    mine[i].camera.size != StoredSize(Accepted(mine[..i], size), size)
  }

  /** After every failed reopening another one succeeded. */
  predicate Repaired(mine: seq<Message>, size: Size) {
    forall i :: 0 <= i < |mine| && Reopens(mine, size, i) && !mine[i].opens.Both() ==>
      exists j :: i < j < |mine| && Reopens(mine, size, j) && mine[j].opens.Both()
  }

  lemma ReopensPrefix(mine: seq<Message>, m: Message, size: Size, i: nat)
    requires i < |mine|
    ensures (mine + [m])[i] == mine[i] && (Reopens(mine + [m], size, i) <==> Reopens(mine, size, i))
  {
    assert (mine + [m])[..i] == mine[..i];
  }

  lemma RepairedAppend(mine: seq<Message>, m: Message, size: Size)
    ensures Repaired(mine + [m], size) <==>
            if m.camera.size != StoredSize(Accepted(mine, size), size) then m.opens.Both() else Repaired(mine, size)
  {
    var all, n := mine + [m], |mine|;
    assert all[..n] == mine && all[n] == m;
    forall i | 0 <= i < n
      ensures all[i] == mine[i] && (Reopens(all, size, i) <==> Reopens(mine, size, i))
    {
      ReopensPrefix(mine, m, size, i);
    }
    if Reopens(all, size, n) && m.opens.Both() {
      assert Repaired(all, size);
    }
  }

  lemma DepartsAppend(accepted: seq<Camera>, camera: Camera, size: Size)
    ensures Departs(accepted + [camera], size) <==> Departs(accepted, size) || camera.size != size
  {
    assert (accepted + [camera])[|accepted|] == camera;
    forall i | 0 <= i < |accepted|
      ensures (accepted + [camera])[i] == accepted[i]
    {
    }
  }

  /** The stored camera is the last accepted one up to the size, and the size is the requested one
      rounded down to even as soon as some accepted camera departed from the default. */
  predicate Records(stored: Camera, accepted: seq<Camera>, size: Size) {
    && (accepted != [] ==> stored == accepted[|accepted| - 1].(size := stored.size))
    && stored.size == StoredSize(accepted, size)
  }

  lemma RecordsStep(stored: Camera, accepted: seq<Camera>, camera: Camera, size: Size)
    requires Records(stored, accepted, size)
    ensures Records(if camera.size == stored.size then camera else camera.(size := camera.size.EvenDown()),
                    accepted + [camera], size)
  {
    DepartsAppend(accepted, camera, size);
    if camera.size == stored.size && Departs(accepted, size) {
      assert camera.size == accepted[|accepted| - 1].size.EvenDown();
      EvenDownTwice(accepted[|accepted| - 1].size);
    }
  }

  lemma EvenDownTwice(size: Size)
    ensures size.EvenDown().IsEven() && size.EvenDown().EvenDown() == size.EvenDown()
  {
  }

  lemma AcceptedAppend(mine: seq<Message>, m: Message, size: Size)
    ensures var before := Accepted(mine, size);
            Accepted(mine + [m], size) ==
            if m.camera.size == StoredSize(before, size) || m.opens.Both() then before + [m.camera] else before
  {
    assert (mine + [m])[..|mine|] == mine;
  }

  /** What an eye looks like after its messages `mine`: it records the accepted cameras, and agrees
      with itself exactly when every failure was repaired. */
  predicate Follows(v: View, mine: seq<Message>, size: Size) {
    Records(v.camera, Accepted(mine, size), size) && (Agree(v) <==> Repaired(mine, size))
  }

  lemma FollowsStep(v: View, mine: seq<Message>, m: Message, size: Size)
    requires Follows(v, mine, size)
    ensures Follows(SetCamera(v, m.camera, m.opens).0, mine + [m], size)
  {
    AcceptedAppend(mine, m, size);
    RepairedAppend(mine, m, size);
    RecordsStep(v.camera, Accepted(mine, size), m.camera, size);
    if SetCamera(v, m.camera, m.opens).1 {
      FailureDisagrees(v, m.camera, m.opens);
    } else {
      SuccessAgrees(v, m.camera, m.opens);
    }
  }

  lemma {:induction false} EyesFollowMessages(size: Size, matrix: seq<real>, messages: seq<Message>, isLeft: bool)
    ensures Follows(HandleAll(Initial(size, matrix), messages).At(isLeft), Addressed(messages, isLeft), size)
  {
    if messages != [] {
      var before, last := messages[..|messages| - 1], messages[|messages| - 1];
      EyesFollowMessages(size, matrix, before, isLeft);
      if last.camera.isLeft == isLeft {
        FollowsStep(HandleAll(Initial(size, matrix), before).At(isLeft), Addressed(before, isLeft), last, size);
      } else {
        assert Addressed(messages, isLeft) == Addressed(before, isLeft);
      }
    }
  }

  lemma StoredSizeIsEven(accepted: seq<Camera>, size: Size)
    ensures StoredSize(accepted, size) == Expected(accepted, size)
       <==> accepted == [] || size.IsEven() || Departs(accepted, size)
    ensures StoredSize(accepted, size).IsEven() <==> size.IsEven() || Departs(accepted, size)
  {
    if Departs(accepted, size) {
      EvenDownTwice(accepted[|accepted| - 1].size);
    } else if accepted != [] {
      assert accepted[|accepted| - 1].size == size;
    }
  }

  /** The stored size is the last accepted one rounded down to even, and it is even, if and only if the
      default size is even or some accepted camera departed from it (or none was accepted). */
  lemma ResolutionFollowsRequests(size: Size, matrix: seq<real>, messages: seq<Message>, isLeft: bool)
    ensures var v := HandleAll(Initial(size, matrix), messages).At(isLeft);
            var accepted := Accepted(Addressed(messages, isLeft), size);
            && (v.camera.size == Expected(accepted, size) <==> accepted == [] || size.IsEven() || Departs(accepted, size))
            && (v.camera.size.IsEven() <==> size.IsEven() || Departs(accepted, size))
  {
    EyesFollowMessages(size, matrix, messages, isLeft);
    StoredSizeIsEven(Accepted(Addressed(messages, isLeft), size), size);
  }

  lemma DepartedSizeIsRounded(accepted: seq<Camera>, size: Size)
    requires Departs(accepted, size)
    ensures accepted != [] && RoundedDown(StoredSize(accepted, size), accepted[|accepted| - 1].size)
  {
  }

  /** Once some accepted camera departed from the default, the stored size is the last accepted one with
      odd sizes made even by dropping one pixel, and so are the settings and contexts of both encoders
      if every failure was repaired. */
  ghost predicate Rounds(v: View, mine: seq<Message>, size: Size) {
    var accepted := Accepted(mine, size);
    Departs(accepted, size) ==>
      && accepted != [] && RoundedDown(v.camera.size, accepted[|accepted| - 1].size)
      && (Repaired(mine, size) ==> v.scene == v.depth == Codec(v.camera.size, Open(v.camera.size)))
  }

  lemma FollowingRounds(v: View, mine: seq<Message>, size: Size)
    requires Follows(v, mine, size)
    ensures Rounds(v, mine, size)
  {
    if Departs(Accepted(mine, size), size) {
      DepartedSizeIsRounded(Accepted(mine, size), size);
    }
  }

  lemma LastRequestIsRoundedDown(size: Size, matrix: seq<real>, messages: seq<Message>, isLeft: bool)
    ensures Rounds(HandleAll(Initial(size, matrix), messages).At(isLeft), Addressed(messages, isLeft), size)
  {
    EyesFollowMessages(size, matrix, messages, isLeft);
    FollowingRounds(HandleAll(Initial(size, matrix), messages).At(isLeft), Addressed(messages, isLeft), size);
  }

  /** When no reopening fails, every message is accepted and there is nothing to repair. */
  lemma {:induction false} SuccessIsFollowed(mine: seq<Message>, size: Size)
    requires forall i :: 0 <= i < |mine| ==> mine[i].opens.Both()
    ensures Repaired(mine, size) && |Accepted(mine, size)| == |mine|
    ensures forall i :: 0 <= i < |mine| ==> Accepted(mine, size)[i] == mine[i].camera
  {
    if mine != [] {
      SuccessIsFollowed(mine[..|mine| - 1], size);
    }
  }

  // ---- The objects ----

  class CodecContextManager {
    var info: Size
    var context: Context

    constructor (size: Size)
      ensures Value() == Codec(size, Open(size))
    {
      info, context := size, Open(size);
    }

    function Value(): Codec
      reads this
    {
      Codec(info, context)
    }

    /** `opens` stands for the encoder library accepting the new settings. */
    method ChangeResolution(width: nat, height: nat, opens: bool) returns (threw: bool)
      modifies this
      ensures Value() == Reinit(Size(width, height), opens)
      ensures threw == !opens
    {
      info := Size(width, height);
      context := Closed;
      if !opens {
        return true;
      }
      context := Open(info);
      return false;
    }
  }

  class CameraManager {
    const sceneLeft: CodecContextManager
    const depthLeft: CodecContextManager
    const sceneRight: CodecContextManager
    const depthRight: CodecContextManager
    var cameraLeft: Camera
    var cameraRight: Camera

    /** The four encoders are different objects. */
    ghost predicate Valid() {
      && sceneLeft != depthLeft && sceneLeft != sceneRight && sceneLeft != depthRight
      && depthLeft != sceneRight && depthLeft != depthRight && sceneRight != depthRight
    }

    ghost function Value(): Views
      reads this, sceneLeft, depthLeft, sceneRight, depthRight
    {
      Views(View(cameraLeft, sceneLeft.Value(), depthLeft.Value()),
            View(cameraRight, sceneRight.Value(), depthRight.Value()))
    }

    constructor (sceneLeft: CodecContextManager, depthLeft: CodecContextManager,
                 sceneRight: CodecContextManager, depthRight: CodecContextManager,
                 size: Size, matrix: seq<real>)
      ensures this.sceneLeft == sceneLeft && this.depthLeft == depthLeft
      ensures this.sceneRight == sceneRight && this.depthRight == depthRight
      ensures cameraLeft == cameraRight == Camera(false, size, matrix)
    {
      this.sceneLeft, this.depthLeft := sceneLeft, depthLeft;
      this.sceneRight, this.depthRight := sceneRight, depthRight;
      cameraLeft, cameraRight := Camera(false, size, matrix), Camera(false, size, matrix);
    }

    method SetCameraLeft(camera: Camera, opens: Opens) returns (threw: bool)
      requires Valid()
      modifies this`cameraLeft, sceneLeft, depthLeft
      ensures (Value().left, threw) == SetCamera(old(Value()).left, camera, opens)
      ensures Value().right == old(Value()).right
    {
      var c := camera;
      if cameraLeft.size.width != c.size.width || cameraLeft.size.height != c.size.height {
        if c.size.width % 2 != 0 {
          c := c.(size := c.size.(width := c.size.width - 1));
        }
        if c.size.height % 2 != 0 {
          c := c.(size := c.size.(height := c.size.height - 1));
        }
        threw := sceneLeft.ChangeResolution(c.size.width, c.size.height, opens.scene);
        if threw {
          return;
        }
        threw := depthLeft.ChangeResolution(c.size.width, c.size.height, opens.depth);
        if threw {
          return;
        }
      }
      cameraLeft := c;
      return false;
    }

    method SetCameraRight(camera: Camera, opens: Opens) returns (threw: bool)
      requires Valid()
      modifies this`cameraRight, sceneRight, depthRight
      ensures (Value().right, threw) == SetCamera(old(Value()).right, camera, opens)
      ensures Value().left == old(Value()).left
    {
      var c := camera;
      if cameraRight.size.width != c.size.width || cameraRight.size.height != c.size.height {
        if c.size.width % 2 != 0 {
          c := c.(size := c.size.(width := c.size.width - 1));
        }
        if c.size.height % 2 != 0 {
          c := c.(size := c.size.(height := c.size.height - 1));
        }
        threw := sceneRight.ChangeResolution(c.size.width, c.size.height, opens.scene);
        if threw {
          return;
        }
        threw := depthRight.ChangeResolution(c.size.width, c.size.height, opens.depth);
        if threw {
          return;
        }
      }
      cameraRight := c;
      return false;
    }
  }

  /** The wiring at start-up, followed by any sequence of messages with any outcomes: the objects hold
      exactly what `HandleAll` says, and each eye agrees exactly when its failures were repaired. */
  method ServeMessages(size: Size, matrix: seq<real>, messages: seq<Message>) returns (left: View, right: View)
    ensures Views(left, right) == HandleAll(Initial(size, matrix), messages)
    ensures Agree(left) <==> Repaired(Addressed(messages, true), size)
    ensures Agree(right) <==> Repaired(Addressed(messages, false), size)
  {
    var sceneLeft := new CodecContextManager(size);
    var depthLeft := new CodecContextManager(size);
    var sceneRight := new CodecContextManager(size);
    var depthRight := new CodecContextManager(size);
    var manager := new CameraManager(sceneLeft, depthLeft, sceneRight, depthRight, size, matrix);
    var threw;
    for i := 0 to |messages|
      invariant manager.Valid() && manager.Value() == HandleAll(Initial(size, matrix), messages[..i])
      invariant manager.sceneLeft == sceneLeft && manager.depthLeft == depthLeft
      invariant manager.sceneRight == sceneRight && manager.depthRight == depthRight
    {
      assert messages[..i + 1][..i] == messages[..i];
      if messages[i].camera.isLeft {
        threw := manager.SetCameraLeft(messages[i].camera, messages[i].opens);
      } else {
        threw := manager.SetCameraRight(messages[i].camera, messages[i].opens);
      }
    }
    assert messages[..|messages|] == messages;
    EyesFollowMessages(size, matrix, messages, true);
    EyesFollowMessages(size, matrix, messages, false);
    left := View(manager.cameraLeft, Codec(sceneLeft.info, sceneLeft.context), Codec(depthLeft.info, depthLeft.context));
    right := View(manager.cameraRight, Codec(sceneRight.info, sceneRight.context), Codec(depthRight.info, depthRight.context));
  }
}
