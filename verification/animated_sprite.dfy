/** An animated sprite: a sprite that plays one animation of a sprite sheet
    at a time, one frame per `update` once more than `animationDelay`
    milliseconds have passed since the previous frame. */
module AnimatedSprites {
  import opened Wrappers
  import opened MachineInts

  /** A rectangle of the sprite sheet. Frames are opaque to this model. */
  datatype IntRect = IntRect(left: int, top: int, width: int, height: int)

  /** One animation: its frames in playing order. */
  type Animation = seq<IntRect>

  /** The animations of an animation set, indexed by animation id. */
  type AnimationList = seq<Animation>

  /** The state the class keeps. `animations` and `currentAnimation` are
      pointers in the class and `None` where it holds a null pointer;
      `currentAnimation` keeps the animation it was started on.
      `textureRect` is the rectangle of the sheet the sprite shows; the rest
      of the underlying sprite is not modelled. Times are whole milliseconds. */
  datatype AnimatedSprite = AnimatedSprite(
    textureRect: IntRect,
    animations: Option<AnimationList>,
    animating: bool,
    currentFrame: uint32,
    currentAnimationId: uint32,
    currentAnimation: Option<Animation>,
    lastUpdate: int32,
    animationDelay: uint32)

  /** The state `init` leaves behind: nothing playing, everything zero. */
  predicate Idle(s: AnimatedSprite)
  {
    && !s.animating && s.currentFrame == 0 && s.currentAnimationId == 0
    && s.currentAnimation == None && s.lastUpdate == 0 && s.animationDelay == 0
  }

  /** `init`: resets the playing state and keeps the sheet rectangle and the
      animations. */
  function Init(s: AnimatedSprite): (r: AnimatedSprite)
    ensures Idle(r)
    ensures r.textureRect == s.textureRect && r.animations == s.animations
  {
    s.(animating := false, currentFrame := 0, currentAnimationId := 0,
       currentAnimation := None, lastUpdate := 0, animationDelay := 0)
  }

  /** The default and the texture-only constructors: no animations, then
      `init`. `baseRect` is the rectangle the underlying sprite starts with. */
  function NewAnimatedSprite(baseRect: IntRect): (r: AnimatedSprite)
    ensures Idle(r) && r.animations == None && r.textureRect == baseRect
  {
    Init(AnimatedSprite(baseRect, None, false, 0, 0, None, 0, 0))
  }

  /** The constructor taking an animation set: it stores the animations,
      shows the first frame of the first animation and then calls `init`.
      `None` stands for the exception `at` throws when there is no first
      animation or it has no first frame. */
  function NewAnimatedSpriteWith(baseRect: IntRect, animations: AnimationList): (r: Option<AnimatedSprite>)
    ensures r.None? <==> |animations| == 0 || |animations[0]| == 0
    ensures r.Some? ==> Idle(r.value) && r.value.animations == Some(animations)
                        && r.value.textureRect == animations[0][0]
  {
    if |animations| == 0 || |animations[0]| == 0 then None
    else Some(Init(AnimatedSprite(animations[0][0], Some(animations), false, 0, 0, None, 0, 0)))
  }

  // ---------------------------------------------------------------------
  // Setters and getters

  function SetAnimating(s: AnimatedSprite, animating: bool): (r: AnimatedSprite)
    ensures r.animating == animating && r.(animating := s.animating) == s
  {
    s.(animating := animating)
  }

  function SetCurrentFrame(s: AnimatedSprite, frame: uint32): (r: AnimatedSprite)
    ensures r.currentFrame == frame && r.(currentFrame := s.currentFrame) == s
  {
    s.(currentFrame := frame)
  }

  function SetAnimations(s: AnimatedSprite, animations: AnimationList): (r: AnimatedSprite)
    ensures r.animations == Some(animations) && r.(animations := s.animations) == s
  {
    s.(animations := Some(animations))
  }

  function SetAnimationDelay(s: AnimatedSprite, delay: uint32): (r: AnimatedSprite)
    ensures r.animationDelay == delay && r.(animationDelay := s.animationDelay) == s
  {
    s.(animationDelay := delay)
  }

  function GetCurrentFrame(s: AnimatedSprite): (r: uint32)
    ensures s.(currentFrame := r) == s
    ensures Idle(s) ==> r == 0
  {
    s.currentFrame
  }

  function GetCurrentAnimationId(s: AnimatedSprite): (r: uint32)
    ensures s.(currentAnimationId := r) == s
    ensures Idle(s) ==> r == 0
  {
    s.currentAnimationId
  }

  function GetAnimationDelay(s: AnimatedSprite): (r: uint32)
    ensures s.(animationDelay := r) == s
    ensures Idle(s) ==> r == 0
  {
    s.animationDelay
  }

  function IsAnimating(s: AnimatedSprite): (r: bool)
    ensures s.(animating := r) == s
    ensures Idle(s) ==> !r
  {
    s.animating
  }

  /** Each getter returns what its setter stored, the setter changes nothing
      the other getters see, and storing what a getter returned changes
      nothing at all. */
  lemma SettersRoundTrip(s: AnimatedSprite, frame: uint32, delay: uint32, animating: bool)
    ensures GetCurrentFrame(SetCurrentFrame(s, frame)) == frame
    ensures GetAnimationDelay(SetCurrentFrame(s, frame)) == GetAnimationDelay(s)
    ensures IsAnimating(SetCurrentFrame(s, frame)) == IsAnimating(s)
    ensures GetAnimationDelay(SetAnimationDelay(s, delay)) == delay
    ensures GetCurrentFrame(SetAnimationDelay(s, delay)) == GetCurrentFrame(s)
    ensures IsAnimating(SetAnimationDelay(s, delay)) == IsAnimating(s)
    ensures IsAnimating(SetAnimating(s, animating)) == animating
    ensures GetCurrentFrame(SetAnimating(s, animating)) == GetCurrentFrame(s)
    ensures GetAnimationDelay(SetAnimating(s, animating)) == GetAnimationDelay(s)
    ensures GetCurrentAnimationId(SetCurrentFrame(SetAnimationDelay(SetAnimating(s, animating), delay), frame))
            == GetCurrentAnimationId(s)
    ensures SetCurrentFrame(s, GetCurrentFrame(s)) == s
    ensures SetAnimationDelay(s, GetAnimationDelay(s)) == s
    ensures SetAnimating(s, IsAnimating(s)) == s
  {
  }

  // ---------------------------------------------------------------------
  // runAnimation

  /** The outcome of `runAnimation`: the started sprite, or the state the
      sprite is left in when `at` throws because the id is out of range
      (the flag and the id were written before the lookup). */
  datatype RunResult = Started(sprite: AnimatedSprite) | OutOfRange(leftBehind: AnimatedSprite)

  /** `runAnimation(animationId)`. The animations must be set: the class
      dereferences the pointer unconditionally. */
  function RunAnimation(s: AnimatedSprite, animationId: uint32): (r: RunResult)
    requires s.animations.Some?
    ensures r.Started? <==> (animationId as int) < |s.animations.value|
    ensures r.Started? ==>
              && r.sprite.animating && r.sprite.currentFrame == 0
              && r.sprite.currentAnimationId == animationId
              && r.sprite.currentAnimation == Some(s.animations.value[animationId])
              && r.sprite.(animating := s.animating, currentFrame := s.currentFrame,
                           currentAnimationId := s.currentAnimationId,
                           currentAnimation := s.currentAnimation) == s
    ensures r.OutOfRange? ==>
              r.leftBehind == s.(animating := true, currentAnimationId := animationId)
  {
    var begun := s.(animating := true, currentAnimationId := animationId);
    if (animationId as int) < |s.animations.value|
    then Started(begun.(currentAnimation := Some(s.animations.value[animationId]), currentFrame := 0))
    else OutOfRange(begun)
  }

  // ---------------------------------------------------------------------
  // update

  /** The milliseconds since the last frame, as the class compares them:
      the `int` difference converted to `unsigned int` for the comparison
      with the unsigned delay. */
  function Elapsed(s: AnimatedSprite, currentTime: int32): uint32
  {
    ToUnsigned(currentTime as int - s.lastUpdate as int)
  }

  /** Whether `update(currentTime)` moves to the next frame. */
  predicate ShouldAdvance(s: AnimatedSprite, currentTime: int32)
  {
    s.animating && Elapsed(s, currentTime) > s.animationDelay
  }

  /** The frame after `frame` in an animation of `size` frames: the unsigned
      `frame + 1`, which wraps to 0 above the largest unsigned value, taken
      modulo the size. */
  function NextFrame(frame: uint32, size: nat): (r: uint32)
    requires size > 0
    ensures (r as int) < size
  {
    var bumped := ToUnsigned(frame as int + 1) as int;
    assert bumped % size <= bumped;
    (bumped % size) as uint32
  }

  /** The frame counter points into the animation being played. */
  predicate FrameInRange(s: AnimatedSprite)
  {
    s.currentAnimation.Some? ==> (s.currentFrame as int) < |s.currentAnimation.value|
  }

  /** `update(currentTime)`. Advancing needs a started, non-empty animation:
      the class dereferences `currentAnimation` and divides by its size. */
  function Update(s: AnimatedSprite, currentTime: int32): (r: AnimatedSprite)
    requires ShouldAdvance(s, currentTime) ==> s.currentAnimation.Some? && |s.currentAnimation.value| > 0
    ensures !ShouldAdvance(s, currentTime) ==> r == s
    ensures ShouldAdvance(s, currentTime) ==>
              && (r.currentFrame as int) < |s.currentAnimation.value|
              && r.textureRect == s.currentAnimation.value[r.currentFrame]
              && r.lastUpdate == currentTime
              && r.(currentFrame := s.currentFrame, textureRect := s.textureRect,
                    lastUpdate := s.lastUpdate) == s
  {
    if ShouldAdvance(s, currentTime) then
      var frames := s.currentAnimation.value;
      var frame := NextFrame(s.currentFrame, |frames|);
      s.(currentFrame := frame, textureRect := frames[frame], lastUpdate := currentTime)
    else
      s
  }

  /** When the clock has moved forward by less than 2^32 ms, `update`
      advances exactly when the sprite is animating and more than the delay
      has passed. */
  lemma AdvanceAfterDelay(s: AnimatedSprite, currentTime: int32)
    requires s.lastUpdate <= currentTime
    ensures ShouldAdvance(s, currentTime) <==>
              s.animating && currentTime as int - s.lastUpdate as int > s.animationDelay as int
  {
  }

  /** A current time before the last update (a clock that went back) still
      advances the frame whenever the delay is below 2^31: the negative
      difference converts to an unsigned value of at least 2^31. */
  lemma ClockRewindAdvances(s: AnimatedSprite, currentTime: int32)
    requires s.animating && currentTime < s.lastUpdate
    requires currentTime as int - s.lastUpdate as int >= -0x8000_0000
    requires (s.animationDelay as int) < 0x8000_0000
    ensures ShouldAdvance(s, currentTime)
  {
  }

  /** A sprite that is not animating, whether never started or stopped with
      `setAnimating(false)`, ignores updates; an initialised sprite is one. */
  lemma StoppedIgnoresUpdates(s: AnimatedSprite, currentTime: int32)
    requires !s.animating
    ensures Update(s, currentTime) == s
  {
  }

  /** Starting an animation and every update after it keep the frame counter
      inside the animation being played. */
  lemma FrameStaysInRange(s: AnimatedSprite, animationId: uint32, currentTime: int32)
    requires s.animations.Some?
    requires (animationId as int) < |s.animations.value| ==> |s.animations.value[animationId]| > 0
    ensures RunAnimation(s, animationId).Started? ==> FrameInRange(RunAnimation(s, animationId).sprite)
    ensures FrameInRange(s) && (ShouldAdvance(s, currentTime) ==> s.currentAnimation.Some? && |s.currentAnimation.value| > 0)
            ==> FrameInRange(Update(s, currentTime))
  {
  }

  /** Inside the animation, the next frame is the following one, or the first
      after the last. */
  lemma NextFrameSteps(frame: uint32, size: nat)
    requires (frame as int) < size <= UINT32_LIMIT
    ensures NextFrame(frame, size) as int == if frame as int + 1 == size then 0 else frame as int + 1
  {
    var bumped := ToUnsigned(frame as int + 1) as int;
    if frame as int + 1 < size {
      assert bumped == frame as int + 1;
      ModOfSmaller(bumped, size);
    } else if size < UINT32_LIMIT {
      assert bumped == size;
      ModOfItself(size);
    } else {
      assert bumped == 0;
      ModOfSmaller(0, size);
    }
  }

  lemma ModOfSmaller(a: int, m: int)
    requires 0 <= a < m
    ensures a % m == a
  {
  }

  lemma ModOfItself(m: int)
    requires m > 0
    ensures m % m == 0
  {
  }

  /** The frame reached after `n` frame advances from `frame`. */
  function FrameAfter(frame: uint32, size: nat, n: nat): (r: uint32)
    requires size > 0
    decreases n
  {
    if n == 0 then frame else FrameAfter(NextFrame(frame, size), size, n - 1)
  }

  /** Within one round, `n` advances from frame `f` count up from `f` and
      wrap around once past the last frame. */
  lemma {:induction false} FramesAdvance(frame: uint32, size: nat, n: nat)
    requires (frame as int) < size <= UINT32_LIMIT && n <= size
    ensures FrameAfter(frame, size, n) as int ==
              if frame as int + n < size then frame as int + n else frame as int + n - size
    decreases n
  {
    if n > 0 {
      NextFrameSteps(frame, size);
      FramesAdvance(NextFrame(frame, size), size, n - 1);
    }
  }

  /** Advancing `a` frames and then `b` more is advancing `a + b` frames. */
  lemma {:induction false} FrameAfterAdds(frame: uint32, size: nat, a: nat, b: nat)
    requires size > 0
    ensures FrameAfter(FrameAfter(frame, size, a), size, b) == FrameAfter(frame, size, a + b)
    decreases a
  {
    if a > 0 {
      FrameAfterAdds(NextFrame(frame, size), size, a - 1, b);
    }
  }

  /** The animation plays its frames in a cycle: it is back at the frame it
      started from after exactly `size` advances and at no earlier advance,
      and from then on it repeats itself. */
  lemma FramesCycle(frame: uint32, size: nat, n: nat)
    requires (frame as int) < size <= UINT32_LIMIT
    ensures FrameAfter(frame, size, size) == frame
    ensures 0 < n < size ==> FrameAfter(frame, size, n) != frame
    ensures FrameAfter(frame, size, n + size) == FrameAfter(frame, size, n)
  {
    FramesAdvance(frame, size, size);
    if n < size {
      FramesAdvance(frame, size, n);
    }
    FrameAfterAdds(frame, size, size, n);
    assert size + n == n + size;
  }

  /** An advancing update moves to the frame `NextFrame` names. */
  lemma UpdateAdvancesOneFrame(s: AnimatedSprite, currentTime: int32)
    requires ShouldAdvance(s, currentTime) && s.currentAnimation.Some? && |s.currentAnimation.value| > 0
    ensures Update(s, currentTime).currentFrame == NextFrame(s.currentFrame, |s.currentAnimation.value|)
  {
  }

  /** A sprite whose `update` may advance: a non-empty animation was started. */
  predicate Playable(s: AnimatedSprite)
  {
    s.currentAnimation.Some? && |s.currentAnimation.value| > 0
  }

  /** `update` called once for each of `times`, in order. */
  function UpdateAll(s: AnimatedSprite, times: seq<int32>): (r: AnimatedSprite)
    requires Playable(s)
    ensures r.currentAnimation == s.currentAnimation
    ensures FrameInRange(s) ==> FrameInRange(r)
    decreases |times|
  {
    if |times| == 0 then s else UpdateAll(Update(s, times[0]), times[1..])
  }

  /** Every call in the series comes late enough to advance the frame. */
  ghost predicate AllAdvance(s: AnimatedSprite, times: seq<int32>)
    requires Playable(s)
    decreases |times|
  {
    |times| == 0 || (ShouldAdvance(s, times[0]) && AllAdvance(Update(s, times[0]), times[1..]))
  }

  /** A series of `n` updates that each come after the delay plays the next
      `n` frames of the animation in order and shows the frame it lands on. */
  lemma {:induction false} UpdatesPlayInOrder(s: AnimatedSprite, times: seq<int32>)
    requires Playable(s) && FrameInRange(s) && AllAdvance(s, times)
    ensures UpdateAll(s, times).currentFrame
            == FrameAfter(s.currentFrame, |s.currentAnimation.value|, |times|)
    ensures |times| > 0 ==>
              UpdateAll(s, times).textureRect
              == s.currentAnimation.value[UpdateAll(s, times).currentFrame]
    decreases |times|
  {
    if |times| > 0 {
      var next := Update(s, times[0]);
      UpdateAdvancesOneFrame(s, times[0]);
      UpdatesPlayInOrder(next, times[1..]);
    }
  }
}
