/** 2D sprite-sheet animation: a texture cut into a `cols` × `rows` grid of
    frames, named animations (a run of consecutive frames with a speed and a
    loop flag) and named instances (which animation plays, the current frame
    and the time spent on it). The release build is modelled: lookups by key
    go through `operator[]` / `find` without the debug-build fallbacks. */
module Sprite {
  import opened Common

  /** A GPU texture as the sprite sees it: a handle and its size. */
  datatype Texture = Texture(id: nat, width: real, height: real)

  class Animation {
    var speed: real
    var count: Uint16
    var start: Uint16
    var end: Uint16
    var loop: bool

    constructor (speed: real, count: Uint16, start: Uint16, end: Uint16, loop: bool)
      ensures this.speed == speed && this.count == count && this.start == start
      ensures this.end == end && this.loop == loop
    {
      this.speed := speed;
      this.count := count;
      this.start := start;
      this.end := end;
      this.loop := loop;
    }
  }

  class Instance {
    var frameRec: Rect
    var animation: Animation?
    var animTime: real
    var currentFrame: Uint16

    constructor (frameRec: Rect, animation: Animation?, animTime: real, currentFrame: Uint16)
      ensures this.frameRec == frameRec && this.animation == animation
      ensures this.animTime == animTime && this.currentFrame == currentFrame
    {
      this.frameRec := frameRec;
      this.animation := animation;
      this.animTime := animTime;
      this.currentFrame := currentFrame;
    }
  }

  // ---- Frame arithmetic ----

  /** The source rectangle of grid cell `start + frame`: cells are numbered
      row by row, `cols` to a row, from the corner of `texSource`. */
  function FrameRect(texSource: Rect, frameSize: Vec2, cols: int, start: nat, frame: nat): Rect
    requires cols > 0
  {
    Rect(texSource.x + ((start + frame) % cols) as real * frameSize.x,
         texSource.y + ((start + frame) / cols) as real * frameSize.y,
         frameSize.x, frameSize.y)
  }

  /** Distinct cells have distinct rectangles (for frames of positive size),
      so the rectangle identifies the cell. */
  lemma FrameRectInjective(texSource: Rect, frameSize: Vec2, cols: int, s1: nat, f1: nat, s2: nat, f2: nat)
    requires cols > 0 && frameSize.x > 0.0 && frameSize.y > 0.0
    requires FrameRect(texSource, frameSize, cols, s1, f1) == FrameRect(texSource, frameSize, cols, s2, f2)
    ensures s1 + f1 == s2 + f2
  {
    var c1, c2 := s1 + f1, s2 + f2;
    var col1, col2 := c1 % cols, c2 % cols;
    var row1, row2 := c1 / cols, c2 / cols;
    assert col1 as real * frameSize.x == col2 as real * frameSize.x;
    assert col1 == col2;
    assert row1 as real * frameSize.y == row2 as real * frameSize.y;
    assert row1 == row2;
    assert c1 == row1 * cols + col1;
    assert c2 == row2 * cols + col2;
  }

  lemma ModOfSmaller(a: nat, c: nat)
    requires a < c
    ensures a % c == a
  {
  }

  // ---- Frame stepping ----

  /** The frame after `frame` in an animation of `count` frames, the first
      after the last. */
  function NextFrame(frame: int, count: int): int
  {
    if frame == count - 1 then 0 else frame + 1
  }

  /** The frame before `frame`, the last before the first. */
  function PreviousFrame(frame: int, count: int): int
  {
    if frame == 0 then count - 1 else frame - 1
  }

  /** A non-zero multiple of a positive `n` is at least `n` away from 0. */
  lemma MultipleSign(k: int, n: int)
    requires n > 0
    ensures k >= 1 ==> k * n >= n
    ensures k <= -1 ==> k * n <= -n
    ensures k == 0 ==> k * n == 0
  {
  }

  /** The remainder is unique: `x = q n + m` with `0 <= m < n` fixes `x % n`. */
  lemma ModUnique(x: int, n: int, q: int, m: int)
    requires n > 0 && 0 <= m < n && x == q * n + m
    ensures x % n == m
  {
    var d := x / n;
    assert (q - d) * n == x % n - m;
    MultipleSign(q - d, n);
  }

  lemma WrapStep(frame: int, direction: int, count: int)
    requires count > 0 && (direction == 1 || direction == -1)
    ensures 0 <= frame < count ==>
      (frame + direction + count) % count
      == if direction > 0 then NextFrame(frame, count) else PreviousFrame(frame, count)
  {
    if 0 <= frame < count {
      var x := frame + direction + count;
      if x < count {
        ModUnique(x, count, 0, x);
      } else if x < 2 * count {
        ModUnique(x, count, 1, x - count);
      } else {
        ModUnique(x, count, 2, 0);
      }
    }
  }

  /** The part of an instance that `Update` steps. */
  datatype AnimState = AnimState(frame: int, time: real)

  /** Whether `Update` plays on: a looping animation, or one not yet at its
      last frame in the direction of play. Otherwise only the time grows. */
  predicate Playing(count: int, loop: bool, s: AnimState, dt: real)
  {
    loop || (dt > 0.0 && s.frame < count - 1) || (dt <= 0.0 && s.frame > 0)
  }

  /** Whether `Update` moves to another frame, the only step that divides by
      `count`. */
  predicate Advances(count: int, loop: bool, speed: real, s: AnimState, dt: real)
  {
    Playing(count, loop, s, dt) && (s.time + dt) * (if dt > 0.0 then 1.0 else -1.0) >= speed
  }

  /** One `Update(dt)`: a positive `dt` plays forward, any other backward.
      A looping animation, or one not yet at its last frame in the direction
      of play, accumulates time and moves one frame (with wrap-around) once
      the time reaches `speed`, restarting the time. At the end of a
      non-looping animation only the time grows, until it reaches `speed`. */
  function StepFrame(count: int, loop: bool, speed: real, s: AnimState, dt: real): (r: AnimState)
    requires count > 0 || !Advances(count, loop, speed, s, dt)
    ensures 0 <= s.frame < count ==> 0 <= r.frame < count
    ensures 0 <= s.frame < count ==>
            || r.frame == s.frame
            || (dt > 0.0 && r.frame == NextFrame(s.frame, count) && r.time == 0.0)
            || (dt <= 0.0 && r.frame == PreviousFrame(s.frame, count) && r.time == 0.0)
    ensures r == s || r.time == s.time + dt || r.time == 0.0
  {
    var direction := if dt > 0.0 then 1 else -1;
    if Playing(count, loop, s, dt) then
      var time := s.time + dt;
      if time * direction as real >= speed then
        WrapStep(s.frame, direction, count);
        AnimState((s.frame + direction + count) % count, 0.0)
      else AnimState(s.frame, time)
    else if s.time < speed then AnimState(s.frame, s.time + dt)
    else s
  }

  /** An animation of no frames (its 16-bit count wrapped to 0) that does not
      loop, played forward or held at frame 0, never reaches the division:
      its frame stays and only the time grows, up to `speed`. */
  lemma EmptyAnimationHolds(speed: real, s: AnimState, dt: real)
    requires s.frame >= 0 && (dt > 0.0 || s.frame == 0)
    ensures !Advances(0, false, speed, s, dt)
    ensures StepFrame(0, false, speed, s, dt)
            == if s.time < speed then AnimState(s.frame, s.time + dt) else s
  {
  }

  /** A non-looping animation never wraps: playing forward the frame never
      decreases, playing backward it never increases. */
  lemma StepFrameNoWrap(count: int, speed: real, s: AnimState, dt: real)
    requires count > 0 && 0 <= s.frame < count
    ensures var r := StepFrame(count, false, speed, s, dt);
      (dt > 0.0 ==> s.frame <= r.frame) && (dt <= 0.0 ==> r.frame <= s.frame)
  {
  }

  /** `Update` applied once per time step in `dts`. */
  function StepAll(count: int, loop: bool, speed: real, s: AnimState, dts: seq<real>): AnimState
    requires count > 0
    decreases |dts|
  {
    if dts == [] then s
    else StepAll(count, loop, speed, StepFrame(count, loop, speed, s, dts[0]), dts[1..])
  }

  /** Played forward over any number of updates, a non-looping animation
      stays between its starting frame and its last frame. */
  lemma {:induction false} ForwardPlayStaysAhead(count: int, speed: real, s: AnimState, dts: seq<real>)
    requires count > 0 && 0 <= s.frame < count
    requires forall i :: 0 <= i < |dts| ==> dts[i] > 0.0
    ensures s.frame <= StepAll(count, false, speed, s, dts).frame < count
    decreases |dts|
  {
    if dts != [] {
      var next := StepFrame(count, false, speed, s, dts[0]);
      StepFrameNoWrap(count, speed, s, dts[0]);
      ForwardPlayStaysAhead(count, speed, next, dts[1..]);
    }
  }

  /** `IsAnimFinished` on the stepped state: last frame, time used up. */
  predicate Finished(count: int, speed: real, s: AnimState)
  {
    s.frame == count - 1 && s.time >= speed
  }

  /** Once a non-looping animation has finished, further forward updates
      leave it exactly as it is. */
  lemma FinishedIsStable(count: int, speed: real, s: AnimState, dt: real)
    requires count > 0 && Finished(count, speed, s) && dt > 0.0
    ensures StepFrame(count, false, speed, s, dt) == s
  {
  }

  // ---- Loading ----

  /** Whether `texSource` differs from the whole image, so the image must be
      cropped before it becomes a texture. */
  predicate NeedsCrop(texSource: Rect, imageWidth: real, imageHeight: real)
  {
    texSource.x != 0.0 || texSource.y != 0.0
    || texSource.width != imageWidth || texSource.height != imageHeight
  }

  /** The source rectangle `Load(imPath, cols, rows, speed)` passes on: the
      size of the texture the sprite held before the call. */
  function WholeSheetAsWritten(previous: Texture): Rect
  {
    Rect(0.0, 0.0, previous.width, previous.height)
  }

  /** The evidently intended whole-sheet rectangle: the image's own size. */
  function WholeSheet(imageWidth: real, imageHeight: real): Rect
  {
    Rect(0.0, 0.0, imageWidth, imageHeight)
  }

  /** Loading "the whole sheet" never crops with the intended rectangle, but
      with the rectangle as written it crops whenever the previous texture
      and the new image differ in size. */
  lemma WholeSheetCrop(previous: Texture, imageWidth: real, imageHeight: real)
    ensures !NeedsCrop(WholeSheet(imageWidth, imageHeight), imageWidth, imageHeight)
    ensures NeedsCrop(WholeSheetAsWritten(previous), imageWidth, imageHeight)
        <==> previous.width != imageWidth || previous.height != imageHeight
  {
  }

  /** A sprite that showed a 64×64 texture and then loads a 128×32 sheet as
      a whole gets a 64×64 crop of it. */
  lemma WholeSheetCounterexample()
    ensures NeedsCrop(WholeSheetAsWritten(Texture(1, 64.0, 64.0)), 128.0, 32.0)
    ensures WholeSheetAsWritten(Texture(1, 64.0, 64.0)) != WholeSheet(128.0, 32.0)
  {
  }

  /** The scalar state of a sprite. */
  datatype SpriteSettings = SpriteSettings(
    texture: Option<Texture>, unloadTexture: bool, frameSize: Vec2, frameCenter: Vec2,
    texSource: Rect, cols: int, rows: int, frameNum: Uint16)

  class Sprite {
    var animations: map<string, Animation?>
    var instances: map<string, Instance>
    /** `None` for a null texture pointer. */
    var texture: Option<Texture>
    /** Whether the destructor deletes the texture. */
    var unloadTexture: bool
    var frameSize: Vec2
    var frameCenter: Vec2
    var texSource: Rect
    /** `uint8_t` fields. */
    var cols: int
    var rows: int
    var frameNum: Uint16

    /** `Sprite()`: no animation, no instance; the texture pointer is left
        uninitialised in the source and is modelled as null. */
    constructor ()
      ensures animations == map[] && instances == map[]
      ensures texture == None && !unloadTexture
    {
      animations := map[];
      instances := map[];
      texture := None;
      unloadTexture := false;
      frameSize := Vec2(0.0, 0.0);
      frameCenter := Vec2(0.0, 0.0);
      texSource := Rect(0.0, 0.0, 0.0, 0.0);
      cols := 0;
      rows := 0;
      frameNum := 0;
    }

    /** The texture the destructor deletes, if any. */
    function Releases(): (r: Option<Texture>)
      reads this
      ensures r.Some? <==> unloadTexture && texture.Some?
      ensures r.Some? ==> r == texture
    {
      if unloadTexture && texture.Some? then texture else None
    }

    /** Everything but the two maps. */
    function Settings(): SpriteSettings
      reads this
    {
      SpriteSettings(texture, unloadTexture, frameSize, frameCenter, texSource, cols, rows, frameNum)
    }

    /** `NewAnimation(key, start, end, speed, loop)`: stores a fresh animation
        of `end - start + 1` frames (as a `uint16_t`), replacing any animation
        of the same key. */
    method NewAnimation(keyAnimation: string, startFrame: Uint16, endFrame: Uint16, speed: real, loop: bool)
      returns (animation: Animation)
      modifies this
      ensures fresh(animation)
      ensures animations == old(animations)[keyAnimation := animation]
      ensures animation.count == ToUint16(endFrame - startFrame + 1)
      ensures animation.start == startFrame && animation.end == endFrame
      ensures animation.speed == speed && animation.loop == loop
      ensures instances == old(instances) && Settings() == old(Settings())
    {
      animation := new Animation(speed, ToUint16(endFrame - startFrame + 1), startFrame, endFrame, loop);
      animations := animations[keyAnimation := animation];
    }

    /** `GetAnimation(key)` (non-const): `operator[]` inserts a null entry for
        an absent key and returns it. */
    method GetAnimation(keyAnimation: string) returns (animation: Animation?)
      modifies this
      ensures animations == if keyAnimation in old(animations) then old(animations)
                            else old(animations)[keyAnimation := null]
      ensures keyAnimation in animations && animation == animations[keyAnimation]
      ensures instances == old(instances) && Settings() == old(Settings())
    {
      if keyAnimation !in animations {
        animations := animations[keyAnimation := null];
      }
      animation := animations[keyAnimation];
    }

    /** `NewInstance(key, animation)`: a fresh instance on `animation` at its
        first frame, time 0, showing the rectangle at the corner of
        `texSource`; replaces any instance of the same key. */
    method NewInstance(keyInstance: string, animation: Animation?) returns (instance: Instance)
      modifies this
      ensures fresh(instance)
      ensures instances == old(instances)[keyInstance := instance]
      ensures instance.animation == animation && instance.animTime == 0.0 && instance.currentFrame == 0
      ensures instance.frameRec == Rect(texSource.x, texSource.y, frameSize.x, frameSize.y)
      ensures animations == old(animations) && Settings() == old(Settings())
    {
      instance := new Instance(Rect(texSource.x, texSource.y, frameSize.x, frameSize.y), animation, 0.0, 0);
      instances := instances[keyInstance := instance];
    }

    /** `NewInstance(keyInstance, keyAnimation)`. */
    method NewInstanceOf(keyInstance: string, keyAnimation: string) returns (instance: Instance)
      modifies this
      ensures fresh(instance)
      ensures animations == if keyAnimation in old(animations) then old(animations)
                            else old(animations)[keyAnimation := null]
      ensures instance.animation == animations[keyAnimation]
      ensures instances == old(instances)[keyInstance := instance]
      ensures instance.animTime == 0.0 && instance.currentFrame == 0
      ensures Settings() == old(Settings())
    {
      var animation := GetAnimation(keyAnimation);
      instance := NewInstance(keyInstance, animation);
    }

    /** The sprite holds `tex` cut into a `cols` by `rows` grid of
        `texSource`, with a fresh looping `"main"` animation over every frame
        of the grid and a fresh `"main"` instance on it at frame 0; every
        other animation and instance is kept. */
    twostate predicate Loaded(tex: Option<Texture>, cols: int, rows: int, texSource: Rect, speed: real)
      requires cols != 0 && rows != 0
      reads this, animations.Values, instances.Values
    {
      && Settings() == SpriteSettings(
           tex, unloadTexture,
           Vec2(texSource.width / cols as real, texSource.height / rows as real),
           Vec2(texSource.width / cols as real * 0.5, texSource.height / rows as real * 0.5),
           texSource, ToUint8(cols), ToUint8(rows), ToUint16(cols * rows))
      && "main" in animations && animations["main"] != null && fresh(animations["main"])
      && animations == old(animations)["main" := animations["main"]]
      && animations["main"].start == 0 && animations["main"].end == ToUint16(frameNum - 1)
      && animations["main"].loop && animations["main"].speed == speed
      && animations["main"].count == ToUint16(ToUint16(frameNum - 1) + 1)
      && "main" in instances && fresh(instances["main"])
      && instances == old(instances)["main" := instances["main"]]
      && instances["main"].animation == animations["main"]
      && instances["main"].currentFrame == 0 && instances["main"].animTime == 0.0
    }

    /** `Load(texture, cols, rows, texSource, speed)`: adopts the texture and
        grid, and creates the looping `"main"` animation over every frame of
        the grid with its `"main"` instance. The frame size divides by the
        `int` arguments, so they must not be zero. */
    method LoadTexture(tex: Option<Texture>, cols: int, rows: int, texSource: Rect, speed: real)
      requires cols != 0 && rows != 0
      modifies this
      ensures unloadTexture == old(unloadTexture)
      ensures Loaded(tex, cols, rows, texSource, speed)
    {
      texture := tex;
      this.texSource := texSource;
      this.cols := ToUint8(cols);
      this.rows := ToUint8(rows);
      frameSize := Vec2(texSource.width / cols as real, texSource.height / rows as real);
      frameCenter := Vec2(frameSize.x * 0.5, frameSize.y * 0.5);
      frameNum := ToUint16(cols * rows);
      var main := NewAnimation("main", 0, ToUint16(frameNum - 1), speed, true);
      var instance := NewInstanceOf("main", "main");
    }

    /** `Load(imPath, cols, rows, texSource, speed)`: the image read from the
        file has the given size; unless `texSource` is the whole image it is
        cropped to it and the rectangle moved to the origin. The new texture
        (handle `newId`) is owned by the sprite. */
    method LoadFromFile(imageWidth: real, imageHeight: real, newId: nat,
                        cols: int, rows: int, texSource: Rect, speed: real)
      requires cols != 0 && rows != 0
      modifies this
      ensures unloadTexture
      ensures var cropped := NeedsCrop(texSource, imageWidth, imageHeight);
        this.texSource == (if cropped then texSource.(x := 0.0, y := 0.0) else texSource)
        && texture == Some(if cropped then Texture(newId, texSource.width, texSource.height)
                           else Texture(newId, imageWidth, imageHeight))
      ensures var cropped := NeedsCrop(texSource, imageWidth, imageHeight);
        Loaded(texture, cols, rows, if cropped then texSource.(x := 0.0, y := 0.0) else texSource, speed)
    {
      unloadTexture := true;
      var source := texSource;
      var tex := Texture(newId, imageWidth, imageHeight);
      if NeedsCrop(texSource, imageWidth, imageHeight) {
        tex := Texture(newId, texSource.width, texSource.height);
        source := source.(x := 0.0, y := 0.0);
      }
      LoadTexture(Some(tex), cols, rows, source, speed);
    }

    /** `Load(image, cols, rows, texSource, speed)`: as `LoadFromFile`, but
        the ownership flag is left as it was, so a texture created here is
        not deleted by the destructor unless an earlier file load set it. */
    method LoadFromImage(imageWidth: real, imageHeight: real, newId: nat,
                         cols: int, rows: int, texSource: Rect, speed: real)
      requires cols != 0 && rows != 0
      modifies this
      ensures unloadTexture == old(unloadTexture)
      ensures var cropped := NeedsCrop(texSource, imageWidth, imageHeight);
        this.texSource == (if cropped then texSource.(x := 0.0, y := 0.0) else texSource)
        && texture == Some(if cropped then Texture(newId, texSource.width, texSource.height)
                           else Texture(newId, imageWidth, imageHeight))
      ensures var cropped := NeedsCrop(texSource, imageWidth, imageHeight);
        Loaded(texture, cols, rows, if cropped then texSource.(x := 0.0, y := 0.0) else texSource, speed)
    {
      var source := texSource;
      var tex := Texture(newId, imageWidth, imageHeight);
      if NeedsCrop(texSource, imageWidth, imageHeight) {
        tex := Texture(newId, texSource.width, texSource.height);
        source := source.(x := 0.0, y := 0.0);
      }
      LoadTexture(Some(tex), cols, rows, source, speed);
    }

    /** `Load(imPath, cols, rows, speed)` as written: the "whole sheet" is
        taken from the texture held before the call, which must exist (in the
        constructor that forwards here the pointer is still uninitialised). */
    method LoadWholeAsWritten(imageWidth: real, imageHeight: real, newId: nat,
                              cols: int, rows: int, speed: real)
      requires texture.Some? && cols != 0 && rows != 0
      modifies this
      ensures var requested := WholeSheetAsWritten(old(texture.value));
        texture.Some?
        && (NeedsCrop(requested, imageWidth, imageHeight) ==>
              texture.value == Texture(newId, requested.width, requested.height))
    {
      LoadFromFile(imageWidth, imageHeight, newId, cols, rows, WholeSheetAsWritten(texture.value), speed);
    }

    /** `Load(imPath, cols, rows, speed)` as evidently intended: the whole
        image becomes the texture, uncropped. */
    method LoadWhole(imageWidth: real, imageHeight: real, newId: nat, cols: int, rows: int, speed: real)
      requires cols != 0 && rows != 0
      modifies this
      ensures texture == Some(Texture(newId, imageWidth, imageHeight))
      ensures texSource == WholeSheet(imageWidth, imageHeight)
      ensures unloadTexture
    {
      WholeSheetCrop(Texture(newId, imageWidth, imageHeight), imageWidth, imageHeight);
      LoadFromFile(imageWidth, imageHeight, newId, cols, rows, WholeSheet(imageWidth, imageHeight), speed);
    }

    /** `SetAnimation(keyAnimation, keyInstance)`: the instance restarts on
        the animation looked up by key (a null one if the key is absent). */
    method SetAnimation(keyAnimation: string, keyInstance: string)
      requires keyInstance in instances
      modifies this, instances[keyInstance]
      ensures instances == old(instances)
      ensures keyAnimation in animations
      ensures animations == (if keyAnimation in old(animations) then old(animations)
                             else old(animations)[keyAnimation := null])
      ensures instances[keyInstance].animation == animations[keyAnimation]
      ensures instances[keyInstance].currentFrame == 0 && instances[keyInstance].animTime == 0.0
      ensures instances[keyInstance].frameRec == old(instances[keyInstance].frameRec)
      ensures Settings() == old(Settings())
    {
      var instance := instances[keyInstance];
      var animation := GetAnimation(keyAnimation);
      instance.animation := animation;
      instance.currentFrame := 0;
      instance.animTime := 0.0;
    }

    /** `SetAnimationSpeed(time, key)`. */
    method SetAnimationSpeed(time: real, keyAnimation: string)
      requires keyAnimation in animations && animations[keyAnimation] != null
      modifies animations[keyAnimation]
      ensures animations[keyAnimation].speed == time
      ensures animations[keyAnimation].loop == old(animations[keyAnimation].loop)
      ensures animations[keyAnimation].count == old(animations[keyAnimation].count)
      ensures animations[keyAnimation].start == old(animations[keyAnimation].start)
      ensures animations[keyAnimation].end == old(animations[keyAnimation].end)
    {
      animations[keyAnimation].speed := time;
    }

    /** `SetAnimationLoop(loop, key)`. */
    method SetAnimationLoop(loop: bool, keyAnimation: string)
      requires keyAnimation in animations && animations[keyAnimation] != null
      modifies animations[keyAnimation]
      ensures animations[keyAnimation].loop == loop
      ensures animations[keyAnimation].speed == old(animations[keyAnimation].speed)
      ensures animations[keyAnimation].count == old(animations[keyAnimation].count)
      ensures animations[keyAnimation].start == old(animations[keyAnimation].start)
      ensures animations[keyAnimation].end == old(animations[keyAnimation].end)
    {
      animations[keyAnimation].loop := loop;
    }

    /** `GetAnimationFrameRec(frameIndex, animation)`: the frame index is
        first reduced modulo the animation's length. */
    function GetAnimationFrameRec(frameIndex: Uint16, animation: Animation): (r: Rect)
      requires animation.count > 0 && cols > 0
      reads this, animation
      ensures r.width == frameSize.x && r.height == frameSize.y
    {
      FrameRect(texSource, frameSize, cols, animation.start, frameIndex % animation.count)
    }

    /** With frames of positive size, the rectangle `GetAnimationFrameRec`
        returns tells which frame of the animation it is. */
    lemma FrameRecIdentifiesFrame(f: Uint16, g: Uint16, animation: Animation)
      requires animation.count > 0 && cols > 0 && frameSize.x > 0.0 && frameSize.y > 0.0
      requires GetAnimationFrameRec(f, animation) == GetAnimationFrameRec(g, animation)
      ensures f % animation.count == g % animation.count
    {
      FrameRectInjective(texSource, frameSize, cols, animation.start, f % animation.count,
                         animation.start, g % animation.count);
    }

    /** `RemoveInstance(key)`: erasing through `find` needs the key to exist. */
    method RemoveInstance(keyInstance: string)
      requires keyInstance in instances
      modifies this
      ensures instances == old(instances) - {keyInstance}
      ensures animations == old(animations) && Settings() == old(Settings())
    {
      instances := instances - {keyInstance};
    }

    /** `ClearInstances()`: walks the map erasing every entry but `"main"`. */
    method ClearInstances()
      modifies this
      ensures forall k :: k in instances <==> k in old(instances) && k == "main"
      ensures forall k :: k in instances ==> instances[k] == old(instances)[k]
      ensures animations == old(animations) && Settings() == old(Settings())
    {
      var toVisit := instances.Keys;
      while toVisit != {}
        invariant toVisit <= instances.Keys
        invariant forall k :: k in instances <==> k in old(instances) && (k in toVisit || k == "main")
        invariant forall k :: k in instances ==> instances[k] == old(instances)[k]
        invariant animations == old(animations) && Settings() == old(Settings())
        decreases toVisit
      {
        var k :| k in toVisit;
        if k != "main" {
          instances := instances - {k};
        }
        toVisit := toVisit - {k};
      }
    }

    /** `GotoFrame(position, key)`: jumps to `position` modulo the animation's
        length with the time restarted. */
    method GotoFrame(position: Uint16, keyInstance: string)
      requires keyInstance in instances && instances[keyInstance].animation != null
      requires instances[keyInstance].animation.count > 0 && cols > 0
      modifies instances[keyInstance]
      ensures instances[keyInstance].animation == old(instances[keyInstance].animation)
      ensures var instance := instances[keyInstance];
        instance.currentFrame == position % instance.animation.count && instance.animTime == 0.0
        && instance.frameRec
           == FrameRect(texSource, frameSize, cols, instance.animation.start, instance.currentFrame)
    {
      var instance := instances[keyInstance];
      var animation := instance.animation;
      instance.animTime := 0.0;
      instance.currentFrame := position % animation.count;
      ModOfSmaller(instance.currentFrame, animation.count);
      instance.frameRec := GetAnimationFrameRec(instance.currentFrame, animation);
    }

    /** `IsCurrentFrameAfter(position, key)`: the instance has moved past
        `position`, so it is not at the first frame. */
    predicate IsCurrentFrameAfter(position: Uint16, keyInstance: string)
      requires keyInstance in instances
      reads this, instances[keyInstance]
      ensures IsCurrentFrameAfter(position, keyInstance) ==> instances[keyInstance].currentFrame > 0
    {
      instances[keyInstance].currentFrame > position
    }

    /** `IsCurrentFrameBefore(position, key)`: never together with
        `IsCurrentFrameAfter`. */
    predicate IsCurrentFrameBefore(position: Uint16, keyInstance: string)
      requires keyInstance in instances
      reads this, instances[keyInstance]
      ensures IsCurrentFrameBefore(position, keyInstance) ==> !IsCurrentFrameAfter(position, keyInstance)
    {
      instances[keyInstance].currentFrame < position
    }

    /** `IsCurrentFrameEqual(position, key)`: the three comparisons split
        the positions, so equal means neither before nor after. */
    predicate IsCurrentFrameEqual(position: Uint16, keyInstance: string)
      requires keyInstance in instances
      reads this, instances[keyInstance]
      ensures IsCurrentFrameEqual(position, keyInstance)
          <==> !IsCurrentFrameBefore(position, keyInstance) && !IsCurrentFrameAfter(position, keyInstance)
    {
      instances[keyInstance].currentFrame == position
    }

    /** `IsAnimFinished(key)`. */
    predicate IsAnimFinished(keyInstance: string)
      requires keyInstance in instances && instances[keyInstance].animation != null
      reads this, instances[keyInstance], instances[keyInstance].animation
      ensures IsAnimFinished(keyInstance) ==>
        instances[keyInstance].currentFrame as int == instances[keyInstance].animation.count - 1
        && instances[keyInstance].animTime >= instances[keyInstance].animation.speed
    {
      var instance := instances[keyInstance];
      Finished(instance.animation.count, instance.animation.speed,
               AnimState(instance.currentFrame, instance.animTime))
    }

    /** `Update(dt, instance)`: steps the frame as `StepFrame` says and moves
        the frame rectangle to the new frame's cell. */
    method Update(dt: real, instance: Instance)
      requires instance.animation != null && cols > 0
      requires var a := instance.animation;
        a.count > 0 || !Advances(a.count, a.loop, a.speed, AnimState(instance.currentFrame, instance.animTime), dt)
      modifies instance
      ensures instance.animation == old(instance.animation)
      ensures var a := instance.animation;
        AnimState(instance.currentFrame, instance.animTime)
        == StepFrame(a.count, a.loop, a.speed, AnimState(old(instance.currentFrame), old(instance.animTime)), dt)
      ensures instance.frameRec
        == FrameRect(texSource, frameSize, cols, instance.animation.start, instance.currentFrame)
           .(width := old(instance.frameRec.width), height := old(instance.frameRec.height))
    {
      var animation := instance.animation;
      var direction := if dt > 0.0 then 1 else -1;
      if animation.loop || (direction > 0 && instance.currentFrame < animation.count - 1)
         || (direction < 0 && instance.currentFrame > 0)
      {
        instance.animTime := instance.animTime + dt;
        if instance.animTime * direction as real >= animation.speed {
          instance.currentFrame := (instance.currentFrame + direction + animation.count) % animation.count;
          instance.animTime := 0.0;
        }
      } else if instance.animTime < animation.speed {
        instance.animTime := instance.animTime + dt;
      }
      var cell := FrameRect(texSource, frameSize, cols, animation.start, instance.currentFrame);
      instance.frameRec := instance.frameRec.(x := cell.x, y := cell.y);
    }

    /** The move constructor: takes the maps, the texture and its ownership;
        the moved-from sprite keeps empty maps and a null, unowned texture. */
    constructor Moved(other: Sprite)
      modifies other
      ensures animations == old(other.animations) && instances == old(other.instances)
      ensures texture == old(other.texture) && unloadTexture == old(other.unloadTexture)
      ensures frameSize == old(other.frameSize) && frameCenter == old(other.frameCenter)
      ensures texSource == old(other.texSource)
      ensures cols == old(other.cols) && rows == old(other.rows) && frameNum == old(other.frameNum)
      ensures other.animations == map[] && other.instances == map[]
      ensures other.texture == None && !other.unloadTexture
      ensures Releases() == old(other.Releases()) && other.Releases() == None
    {
      animations := other.animations;
      instances := other.instances;
      texture := other.texture;
      unloadTexture := other.unloadTexture;
      frameSize := other.frameSize;
      frameCenter := other.frameCenter;
      texSource := other.texSource;
      cols := other.cols;
      rows := other.rows;
      frameNum := other.frameNum;
      new;
      other.animations := map[];
      other.instances := map[];
      other.texture := None;
      other.unloadTexture := false;
    }

    /** Move assignment; moving a sprite onto itself changes nothing. The
        texture this sprite owned before is overwritten without being
        deleted. */
    method MoveAssign(other: Sprite)
      modifies this, other
      ensures other == this ==> unchanged(this)
      ensures other != this ==>
        animations == old(other.animations) && instances == old(other.instances)
        && texture == old(other.texture) && unloadTexture == old(other.unloadTexture)
        && frameSize == old(other.frameSize) && frameCenter == old(other.frameCenter)
        && texSource == old(other.texSource)
        && cols == old(other.cols) && rows == old(other.rows) && frameNum == old(other.frameNum)
        && other.animations == map[] && other.instances == map[]
        && other.texture == None && !other.unloadTexture
        && Releases() == old(other.Releases()) && other.Releases() == None
    {
      if this != other {
        animations := other.animations;
        instances := other.instances;
        texture := other.texture;
        unloadTexture := other.unloadTexture;
        frameSize := other.frameSize;
        frameCenter := other.frameCenter;
        texSource := other.texSource;
        cols := other.cols;
        rows := other.rows;
        frameNum := other.frameNum;
        other.animations := map[];
        other.instances := map[];
        other.texture := None;
        other.unloadTexture := false;
      }
    }

    /** `GetGrid()`: rows first, then columns. */
    function GetGrid(): (grid: Vec2)
      reads this
      ensures grid.x == rows as real && grid.y == cols as real
    {
      Vec2(rows as real, cols as real)
    }
  }
}
