// Sprite animation and character motion: named frame sequences played by an
// animation controller, a motion controller with gravity, clamped speed,
// friction, jumping and a ground line, and the character that picks its
// animation from its motion.
module BackInMotion {
  import opened Common

  datatype AnimationState = Idle | Walking | Running | Jumping | Falling | Attacking | Hurt | Dead

  datatype AnimationFrame = AnimationFrame(spriteIndex: nat, duration: real)

  datatype AnimationSequence = AnimationSequence(name: string, frames: seq<AnimationFrame>, loops: bool)

  function Durations(frames: seq<AnimationFrame>): (r: seq<real>)
    ensures |r| == |frames| && forall k :: 0 <= k < |frames| ==> r[k] == frames[k].duration
  {
    if frames == [] then [] else Durations(frames[..|frames| - 1]) + [frames[|frames| - 1].duration]
  }

  /** `total_duration`: the frames' durations added up. */
  function TotalDuration(s: AnimationSequence): real {
    Sum(Durations(s.frames))
  }

  /** Frames that each last between `lo` and `hi` make a sequence lasting between n·lo and n·hi. */
  lemma TotalDurationBounds(s: AnimationSequence, lo: real, hi: real)
    requires forall k :: 0 <= k < |s.frames| ==> lo <= s.frames[k].duration <= hi
    ensures |s.frames| as real * lo <= TotalDuration(s) <= |s.frames| as real * hi
  {
    hide Sum, Durations;
    var d := Durations(s.frames);
    assert forall k :: 0 <= k < |d| ==> lo <= d[k] <= hi;
    SumBounds(d, lo, hi);
  }

  /**
   * The frame after `frame` in a sequence of `n` frames: past the last one a
   * looping sequence starts over and any other stays on its last frame.
   */
  function NextFrame(frame: nat, n: nat, loops: bool): nat
    requires n > 0
  {
    if frame + 1 >= n then (if loops then 0 else n - 1) else frame + 1
  }

  /** The next frame stays within the sequence and is one step on, a wrap to 0, or a stay on the end. */
  lemma NextFrameStep(frame: nat, n: nat, loops: bool)
    requires frame < n
    ensures NextFrame(frame, n, loops) < n
    ensures NextFrame(frame, n, loops) == frame + 1 ||
            (frame == n - 1 && NextFrame(frame, n, loops) == (if loops then 0 else frame))
  {
  }

  /** The frame and timer that one `update` of `dt` at `speed` leaves within a sequence. */
  function FrameStep(s: AnimationSequence, frame: nat, timer: real, dt: real, speed: real): (nat, real)
    requires frame < |s.frames|
  {
    var t := timer + dt * speed;
    if t >= s.frames[frame].duration then (NextFrame(frame, |s.frames|, s.loops), t - s.frames[frame].duration)
    else (frame, t)
  }


  /** `AnimationController`. */
  class AnimationController {
    var sequences: map<string, AnimationSequence>
    var currentSequence: Option<string>
    var currentFrame: nat
    var frameTimer: real
    var playbackSpeed: real
    var facingRight: bool

    /**
     * Sequences are filed under their own names, the current one is among
     * them, and the current frame is within the current non-empty sequence.
     */
    ghost predicate Valid()
      reads this
    {
      (forall k :: k in sequences ==> sequences[k].name == k) &&
      (currentSequence.Some? ==>
        (currentSequence.value in sequences &&
         (sequences[currentSequence.value].frames != [] ==> currentFrame < |sequences[currentSequence.value].frames|)))
    }

    /** The sequence being played, when there is one. */
    predicate Playing()
      reads this
    {
      currentSequence.Some? && currentSequence.value in sequences
    }

    /** `AnimationController::new`: no sequences, nothing playing, normal speed, facing right. */
    constructor ()
      ensures Valid() && sequences == map[] && currentSequence == None && currentFrame == 0
      ensures frameTimer == 0.0 && playbackSpeed == 1.0 && facingRight
    {
      sequences := map[];
      currentSequence := None;
      currentFrame := 0;
      frameTimer := 0.0;
      playbackSpeed := 1.0;
      facingRight := true;
    }

    /** `add_sequence`: files the sequence under its name, replacing any sequence of that name. */
    method AddSequence(s: AnimationSequence)
      modifies this
      ensures sequences == old(sequences)[s.name := s]
      ensures currentSequence == old(currentSequence) && currentFrame == old(currentFrame) && frameTimer == old(frameTimer)
      ensures playbackSpeed == old(playbackSpeed) && facingRight == old(facingRight)
      ensures old(Valid()) && (old(currentSequence) != Some(s.name) || s.frames == [] || currentFrame < |s.frames|) ==> Valid()
    {
      sequences := sequences[s.name := s];
    }

    /**
     * `play`: an unknown name changes nothing; a known one restarts from its
     * first frame when asked to or when another sequence was playing, and
     * otherwise carries on.
     */
    method Play(name: string, restart: bool)
      requires Valid()
      modifies this
      ensures Valid() && sequences == old(sequences) && playbackSpeed == old(playbackSpeed) && facingRight == old(facingRight)
      ensures name in sequences && (restart || old(currentSequence) != Some(name)) ==>
                currentSequence == Some(name) && currentFrame == 0 && frameTimer == 0.0
      ensures name !in sequences || (!restart && old(currentSequence) == Some(name)) ==>
                currentSequence == old(currentSequence) && currentFrame == old(currentFrame) && frameTimer == old(frameTimer)
    {
      if name in sequences {
        var s := sequences[name];
        if restart || currentSequence != Some(s.name) {
          currentSequence := Some(s.name);
          currentFrame := 0;
          frameTimer := 0.0;
        }
      }
    }

    /** The current sequence's frame `currentFrame` is done within `dt` more seconds. */
    predicate FrameEnds(dt: real)
      requires Valid()
      reads this
    {
      Playing() && sequences[currentSequence.value].frames != [] &&
      frameTimer + dt * playbackSpeed >= sequences[currentSequence.value].frames[currentFrame].duration
    }

    /**
     * `update`: with a non-empty sequence playing, the frame timer runs at
     * the playback speed; when it passes the current frame's duration the
     * overflow is kept and the animation moves on one frame.
     */
    method Update(dt: real)
      requires Valid()
      modifies this
      ensures Valid() && sequences == old(sequences) && currentSequence == old(currentSequence)
      ensures playbackSpeed == old(playbackSpeed) && facingRight == old(facingRight)
      ensures old(FrameEnds(dt)) ==>
                var s := sequences[currentSequence.value];
                currentFrame == NextFrame(old(currentFrame), |s.frames|, s.loops) &&
                frameTimer == old(frameTimer) + dt * playbackSpeed - s.frames[old(currentFrame)].duration
      ensures !old(FrameEnds(dt)) && Playing() && sequences[currentSequence.value].frames != [] ==>
                currentFrame == old(currentFrame) && frameTimer == old(frameTimer) + dt * playbackSpeed
      ensures !(Playing() && sequences[currentSequence.value].frames != []) ==>
                currentFrame == old(currentFrame) && frameTimer == old(frameTimer)
      ensures Playing() && sequences[currentSequence.value].frames != [] ==>
                old(currentFrame) < |sequences[currentSequence.value].frames| &&
                (currentFrame, frameTimer) == FrameStep(sequences[currentSequence.value], old(currentFrame), old(frameTimer), dt, playbackSpeed)
    {
      if currentSequence.Some? && currentSequence.value in sequences {
        var s := sequences[currentSequence.value];
        if s.frames != [] {
          frameTimer := frameTimer + dt * playbackSpeed;
          var duration := s.frames[currentFrame].duration;
          if frameTimer >= duration {
            frameTimer := frameTimer - duration;
            NextFrameStep(currentFrame, |s.frames|, s.loops);
            currentFrame := NextFrame(currentFrame, |s.frames|, s.loops);
          }
        }
      }
    }

    /** `get_current_sprite_index`: the current frame's sprite, or 0 when nothing is playing or there is no such frame. */
    function CurrentSpriteIndex(): (r: nat)
      reads this
      ensures !Playing() ==> r == 0
      ensures Playing() && currentFrame >= |sequences[currentSequence.value].frames| ==> r == 0
      ensures Playing() && currentFrame < |sequences[currentSequence.value].frames| ==>
                r == sequences[currentSequence.value].frames[currentFrame].spriteIndex
    {
      if currentSequence.Some? && currentSequence.value in sequences && currentFrame < |sequences[currentSequence.value].frames|
      then sequences[currentSequence.value].frames[currentFrame].spriteIndex
      else 0
    }

    /** `set_facing`. */
    method SetFacing(right: bool)
      modifies this
      ensures facingRight == right
      ensures sequences == old(sequences) && currentSequence == old(currentSequence) && currentFrame == old(currentFrame)
      ensures frameTimer == old(frameTimer) && playbackSpeed == old(playbackSpeed)
    {
      facingRight := right;
    }

    /** `set_speed`: the playback speed is never below 0.1, and any speed from 0.1 up is taken as given. */
    method SetSpeed(speed: real)
      modifies this
      ensures playbackSpeed >= 0.1 && (speed >= 0.1 ==> playbackSpeed == speed) && (speed < 0.1 ==> playbackSpeed == 0.1)
      ensures sequences == old(sequences) && currentSequence == old(currentSequence) && currentFrame == old(currentFrame)
      ensures frameTimer == old(frameTimer) && facingRight == old(facingRight)
    {
      playbackSpeed := MaxR(speed, 0.1);
    }
  }

  /** `f32::clamp`: `x` held within [lo, hi]. */
  function Clamp(x: real, lo: real, hi: real): (r: real)
    requires lo <= hi
    ensures lo <= r <= hi
    ensures lo <= x <= hi ==> r == x
    ensures x < lo ==> r == lo
    ensures x > hi ==> r == hi
  {
    if x < lo then lo else if x > hi then hi else x
  }

  /** `MotionController`. */
  class MotionController {
    var position: Vec2
    var velocity: Vec2
    var acceleration: Vec2
    const maxSpeed: Vec2
    const friction: Vec2
    const gravity: real
    var onGround: bool
    const jumpPower: real
    var canJump: bool

    /** The speed limits are a proper range and friction never reverses the horizontal speed. */
    ghost predicate Valid()
      reads this
    {
      maxSpeed.x >= 0.0 && maxSpeed.y >= 0.0 && friction.x >= 0.0
    }

    /** `MotionController::new`: at rest at the origin, top speed (200, 400), friction (0.8, 1), gravity 600, jump power 250. */
    constructor (position: Vec2)
      ensures Valid() && this.position == position && velocity == Zero && acceleration == Zero
      ensures maxSpeed == Vec2(200.0, 400.0) && friction == Vec2(0.8, 1.0) && gravity == 600.0 && jumpPower == 250.0
      ensures !onGround && canJump
    {
      this.position := position;
      velocity := Zero;
      acceleration := Zero;
      maxSpeed := Vec2(200.0, 400.0);
      friction := Vec2(0.8, 1.0);
      gravity := 600.0;
      onGround := false;
      jumpPower := 250.0;
      canJump := true;
    }

    /** `apply_force`: forces add up in the acceleration until the next update. */
    method ApplyForce(force: Vec2)
      modifies this
      ensures acceleration == Add(old(acceleration), force)
      ensures position == old(position) && velocity == old(velocity) && onGround == old(onGround) && canJump == old(canJump)
    {
      acceleration := Add(acceleration, force);
    }

    /** `jump`: only when allowed and standing; then it launches upwards and uses up the jump. */
    method Jump()
      modifies this
      ensures old(canJump && onGround) ==> velocity == Vec2(old(velocity).x, -jumpPower) && !onGround && !canJump
      ensures !old(canJump && onGround) ==> velocity == old(velocity) && onGround == old(onGround) && canJump == old(canJump)
      ensures position == old(position) && acceleration == old(acceleration)
    {
      if canJump && onGround {
        velocity := Vec2(velocity.x, -jumpPower);
        onGround := false;
        canJump := false;
      }
    }

    /**
     * `update`: gravity while airborne, then the acceleration, then each
     * component clamped to the top speed and friction on the horizontal one;
     * the position moves by the new velocity and the acceleration is spent.
     */
    method Update(dt: real)
      requires Valid()
      modifies this
      ensures Valid() && acceleration == Zero && onGround == old(onGround) && canJump == old(canJump)
      ensures velocity == NewVelocity(old(velocity), old(acceleration), old(onGround), dt)
      ensures position == Add(old(position), Scale(velocity, dt))
      ensures -maxSpeed.y <= velocity.y <= maxSpeed.y
      ensures -maxSpeed.x * friction.x <= velocity.x <= maxSpeed.x * friction.x
    {
      var v := velocity;
      if !onGround {
        v := Vec2(v.x, v.y + gravity * dt);
      }
      v := Add(v, Scale(acceleration, dt));
      v := Vec2(Clamp(v.x, -maxSpeed.x, maxSpeed.x), Clamp(v.y, -maxSpeed.y, maxSpeed.y));
      ScaleWithin(v.x, maxSpeed.x, friction.x);
      v := Vec2(v.x * friction.x, v.y);
      velocity := v;
      position := Add(position, Scale(velocity, dt));
      acceleration := Zero;
    }

    /** The velocity one `update` yields. */
    function NewVelocity(v: Vec2, a: Vec2, grounded: bool, dt: real): Vec2
      requires Valid()
      reads this
    {
      var fallen := if grounded then v else Vec2(v.x, v.y + gravity * dt);
      var pushed := Add(fallen, Scale(a, dt));
      Vec2(Clamp(pushed.x, -maxSpeed.x, maxSpeed.x) * friction.x, Clamp(pushed.y, -maxSpeed.y, maxSpeed.y))
    }

    /**
     * `check_ground_collision`: at or past the ground line the body is put
     * on it, stops falling and may jump again; above it, it is airborne.
     */
    method CheckGroundCollision(groundY: real)
      modifies this
      ensures old(position).y >= groundY ==>
                position == Vec2(old(position).x, groundY) && velocity == Vec2(old(velocity).x, 0.0) && onGround && canJump
      ensures old(position).y < groundY ==>
                position == old(position) && velocity == old(velocity) && !onGround && canJump == old(canJump)
      ensures acceleration == old(acceleration)
    {
      if position.y >= groundY {
        position := Vec2(position.x, groundY);
        velocity := Vec2(velocity.x, 0.0);
        onGround := true;
        canJump := true;
      } else {
        onGround := false;
      }
    }
  }

  /** Scaling a value within [-m, m] by a factor f >= 0 keeps it within [-m·f, m·f]. */
  lemma ScaleWithin(x: real, m: real, f: real)
    requires -m <= x <= m && 0.0 <= f
    ensures -m * f <= x * f <= m * f
  {
  }

  datatype CharacterInput = CharacterInput(moveLeft: bool, moveRight: bool, jump: bool, attack: bool)

  /** The acceleration after the input forces: 400 to the left, then 400 to the right, as pressed. */
  function InputAcceleration(a: Vec2, input: CharacterInput): Vec2 {
    var left := if input.moveLeft then Add(a, Vec2(-400.0, 0.0)) else a;
    if input.moveRight then Add(left, Vec2(400.0, 0.0)) else left
  }

  /** The way the character faces after the input: the last direction pressed, else as before. */
  function Facing(right: bool, input: CharacterInput): bool {
    if input.moveRight then true else if input.moveLeft then false else right
  }

  /** Whether the jump input launches: only when jumping is allowed and the body stands on the ground. */
  predicate Launches(input: CharacterInput, onGround: bool, canJump: bool) {
    input.jump && canJump && onGround
  }


  function Abs(x: real): (r: real)
    ensures r >= 0.0 && (r == x || r == -x)
  {
    if x < 0.0 then -x else x
  }

  /**
   * `determine_animation_state`: airborne comes first (jumping while rising,
   * falling otherwise), then attacking, then running above speed 150,
   * walking above 10, and idle.
   */
  function StateFor(onGround: bool, velocity: Vec2, attack: bool): (s: AnimationState)
    ensures s == Jumping <==> !onGround && velocity.y < 0.0
    ensures s == Falling <==> !onGround && velocity.y >= 0.0
    ensures s == Attacking <==> onGround && attack
    ensures s == Running <==> onGround && !attack && Abs(velocity.x) > 150.0
    ensures s == Walking <==> onGround && !attack && 10.0 < Abs(velocity.x) <= 150.0
    ensures s == Idle <==> onGround && !attack && Abs(velocity.x) <= 10.0
    ensures s != Hurt && s != Dead
  {
    if !onGround then
      (if velocity.y < 0.0 then Jumping else Falling)
    else if attack then Attacking
    else
      var speed := Abs(velocity.x);
      if speed > 150.0 then Running else if speed > 10.0 then Walking else Idle
  }

  /** `play_animation_for_state`'s choice of sequence. */
  function SequenceName(s: AnimationState): string {
    match s
    case Idle => "idle"
    case Walking => "walk"
    case Running => "run"
    case Jumping => "jump"
    case Falling => "fall"
    case Attacking => "attack"
    case Hurt => "hurt"
    case Dead => "dead"
  }

  /** The character's six sequences. */
  function CharacterSequences(): (m: map<string, AnimationSequence>)
    ensures forall k :: k in m ==> m[k].name == k && m[k].frames != []
  {
    map[
      "idle" := AnimationSequence("idle", [AnimationFrame(0, 0.5), AnimationFrame(1, 0.5), AnimationFrame(2, 0.5)], true),
      "walk" := AnimationSequence("walk", [AnimationFrame(3, 0.15), AnimationFrame(4, 0.15), AnimationFrame(5, 0.15), AnimationFrame(6, 0.15)], true),
      "run" := AnimationSequence("run", [AnimationFrame(7, 0.1), AnimationFrame(8, 0.1), AnimationFrame(9, 0.1)], true),
      "jump" := AnimationSequence("jump", [AnimationFrame(10, 0.2)], false),
      "fall" := AnimationSequence("fall", [AnimationFrame(11, 0.1)], false),
      "attack" := AnimationSequence("attack", [AnimationFrame(12, 0.1), AnimationFrame(13, 0.1), AnimationFrame(14, 0.15)], false)
    ]
  }

  /** Every state the character can reach has a sequence; the hurt and dead ones have none. */
  lemma StateSequences(s: AnimationState)
    ensures SequenceName(s) in CharacterSequences() <==> s != Hurt && s != Dead
  {
  }

  /** The animation controller of a new character: the six sequences added one by one, nothing played yet. */
  method CharacterAnimation() returns (a: AnimationController)
    ensures fresh(a) && a.Valid() && a.sequences == CharacterSequences() && a.currentSequence == None
  {
    a := new AnimationController();
    var all := CharacterSequences();
    a.AddSequence(all["idle"]);
    a.AddSequence(all["walk"]);
    a.AddSequence(all["run"]);
    a.AddSequence(all["jump"]);
    a.AddSequence(all["fall"]);
    a.AddSequence(all["attack"]);
    assert a.sequences == all;
  }

  /** `Character`. */
  class Character {
    const animation: AnimationController
    const motion: MotionController
    const size: Vec2
    var state: AnimationState
    var lastState: AnimationState

    ghost predicate Valid()
      reads this, animation, motion
    {
      animation.Valid() && motion.Valid() && animation.sequences == CharacterSequences() &&
      SequenceName(state) in animation.sequences
    }

    /** `Character::new`: the six sequences, standing idle (nothing played yet) at `position`. */
    constructor (position: Vec2)
      ensures Valid() && fresh(animation) && fresh(motion)
      ensures motion.position == position && motion.velocity == Zero && animation.currentSequence == None
      ensures size == Vec2(32.0, 32.0) && state == Idle && lastState == Idle
    {
      var a := CharacterAnimation();
      animation := a;
      motion := new MotionController(position);
      size := Vec2(32.0, 32.0);
      state := Idle;
      lastState := Idle;
    }

    /** `determine_animation_state` for this character. */
    function DetermineAnimationState(input: CharacterInput): AnimationState
      reads motion
    {
      StateFor(motion.onGround, motion.velocity, input.attack)
    }

    /**
     * The velocity the input and one motion step give before the ground
     * check: a launching jump sets the vertical speed to -jumpPower and
     * lifts the body off the ground, then `update` runs with the pushed
     * acceleration.
     */
    function StepVelocity(v: Vec2, a: Vec2, onGround: bool, canJump: bool, dt: real, input: CharacterInput): Vec2
      requires motion.Valid()
      reads motion
    {
      var jumps := Launches(input, onGround, canJump);
      var launched := if jumps then Vec2(v.x, -motion.jumpPower) else v;
      motion.NewVelocity(launched, InputAcceleration(a, input), onGround && !jumps, dt)
    }

    /**
     * The movement half of `update`: input forces and jump, one motion step,
     * the ground at y = 200; a body that reaches the ground line lands on it,
     * stops falling and may jump again.
     */
    method Move(dt: real, input: CharacterInput)
      requires motion.Valid()
      modifies motion, animation
      ensures motion.Valid() && motion.acceleration == Zero
      ensures motion.position.y <= 200.0 && (motion.onGround <==> motion.position.y == 200.0)
      ensures var v := StepVelocity(old(motion.velocity), old(motion.acceleration), old(motion.onGround), old(motion.canJump), dt, input);
              var p := Add(old(motion.position), Scale(v, dt));
              if p.y >= 200.0 then
                motion.position == Vec2(p.x, 200.0) && motion.velocity == Vec2(v.x, 0.0) && motion.canJump
              else
                motion.position == p && motion.velocity == v &&
                motion.canJump == (old(motion.canJump) && !Launches(input, old(motion.onGround), old(motion.canJump)))
      ensures animation.facingRight == Facing(old(animation.facingRight), input)
      ensures animation.sequences == old(animation.sequences) && animation.currentSequence == old(animation.currentSequence)
      ensures animation.currentFrame == old(animation.currentFrame) && animation.frameTimer == old(animation.frameTimer)
      ensures animation.playbackSpeed == old(animation.playbackSpeed)
    {
      ghost var v0, a0, grounded, canJump := motion.velocity, motion.acceleration, motion.onGround, motion.canJump;
      ghost var p0 := motion.position;
      ghost var jumps := Launches(input, grounded, canJump);
      if input.moveLeft {
        motion.ApplyForce(Vec2(-400.0, 0.0));
        animation.SetFacing(false);
      }
      if input.moveRight {
        motion.ApplyForce(Vec2(400.0, 0.0));
        animation.SetFacing(true);
      }
      assert motion.acceleration == InputAcceleration(a0, input);
      if input.jump {
        motion.Jump();
      }
      assert motion.velocity == (if jumps then Vec2(v0.x, -motion.jumpPower) else v0);
      assert motion.onGround == (grounded && !jumps) && motion.canJump == (canJump && !jumps);
      assert motion.position == p0;
      motion.Update(dt);
      ghost var v := StepVelocity(v0, a0, grounded, canJump, dt, input);
      assert motion.velocity == v;
      assert motion.position == Add(p0, Scale(v, dt));
      motion.CheckGroundCollision(200.0);
    }

    /**
     * The animation half of `update`: the state follows the motion, a changed
     * state restarts its sequence and an unchanged one keeps it, the playback
     * speed follows the horizontal speed, and the playing sequence advances
     * by one frame step from where it was (or from its start after a restart).
     */
    method Animate(dt: real, input: CharacterInput)
      requires Valid()
      modifies this, animation
      ensures Valid() && lastState == old(state) && animation.sequences == old(animation.sequences)
      ensures state == StateFor(motion.onGround, motion.velocity, input.attack)
      ensures animation.playbackSpeed == MaxR(MaxR(Abs(motion.velocity.x) / 100.0, 0.5), 0.1)
      ensures animation.facingRight == old(animation.facingRight)
      ensures state != lastState ==> animation.currentSequence == Some(SequenceName(state))
      ensures state == lastState ==> animation.currentSequence == old(animation.currentSequence)
      ensures animation.Playing() ==>
                var s := animation.sequences[animation.currentSequence.value];
                var frame := if state != lastState then 0 else old(animation.currentFrame);
                var timer := if state != lastState then 0.0 else old(animation.frameTimer);
                frame < |s.frames| &&
                (animation.currentFrame, animation.frameTimer) == FrameStep(s, frame, timer, dt, animation.playbackSpeed)
      ensures !animation.Playing() ==>
                animation.currentFrame == old(animation.currentFrame) && animation.frameTimer == old(animation.frameTimer)
    {
      lastState := state;
      state := DetermineAnimationState(input);
      StateSequences(state);
      if state != lastState {
        animation.Play(SequenceName(state), true);
      }
      var speedFactor := MaxR(Abs(motion.velocity.x) / 100.0, 0.5);
      animation.SetSpeed(speedFactor);
      animation.Update(dt);
    }

    /** `update`: the movement step, then the animation step. */
    method Update(dt: real, input: CharacterInput)
      requires Valid()
      modifies this, animation, motion
      ensures Valid() && lastState == old(state)
      ensures state == StateFor(motion.onGround, motion.velocity, input.attack)
      ensures motion.position.y <= 200.0 && (motion.onGround <==> motion.position.y == 200.0) && motion.acceleration == Zero
      ensures var v := StepVelocity(old(motion.velocity), old(motion.acceleration), old(motion.onGround), old(motion.canJump), dt, input);
              var p := Add(old(motion.position), Scale(v, dt));
              if p.y >= 200.0 then
                motion.position == Vec2(p.x, 200.0) && motion.velocity == Vec2(v.x, 0.0) && motion.canJump
              else
                motion.position == p && motion.velocity == v &&
                motion.canJump == (old(motion.canJump) && !Launches(input, old(motion.onGround), old(motion.canJump)))
      ensures animation.facingRight == Facing(old(animation.facingRight), input)
      ensures animation.playbackSpeed == MaxR(MaxR(Abs(motion.velocity.x) / 100.0, 0.5), 0.1)
      ensures state != lastState ==> animation.currentSequence == Some(SequenceName(state))
      ensures state == lastState ==> animation.currentSequence == old(animation.currentSequence)
      ensures animation.Playing() ==>
                var s := animation.sequences[animation.currentSequence.value];
                var frame := if state != lastState then 0 else old(animation.currentFrame);
                var timer := if state != lastState then 0.0 else old(animation.frameTimer);
                frame < |s.frames| &&
                (animation.currentFrame, animation.frameTimer) == FrameStep(s, frame, timer, dt, animation.playbackSpeed)
      ensures !animation.Playing() ==>
                animation.currentFrame == old(animation.currentFrame) && animation.frameTimer == old(animation.frameTimer)
    {
      Move(dt, input);
      Animate(dt, input);
    }

    /** `get_current_sprite_index`. */
    function CurrentSpriteIndex(): (r: nat)
      reads animation
    {
      animation.CurrentSpriteIndex()
    }
  }
}
