/** What one call of MainScene.update() computes, as functions of the arrow
    keys and of what the player sprite held before the call; and what a run
    of calls, one per frame, does. */
module Movement {
  import opened Vectors
  import opened HeroAnimations

  /** The speed constant of update(), in pixels per second. */
  const Speed: real := 100.0

  /** Speed * Speed, written out so that lengths compare linearly. */
  const SpeedSq: real := 10000.0

  /** The isDown flags of the four cursor keys, sampled for one frame. */
  datatype CursorKeys = CursorKeys(left: bool, right: bool, up: bool, down: bool)

  const NoKeys := CursorKeys(false, false, false, false)

  predicate AnyHeld(k: CursorKeys) {
    k.left || k.right || k.up || k.down
  }

  datatype Option<T> = None | Some(value: T)

  /** What update() reads and writes of the player sprite: the arcade
      body's velocity, the current animation, whether it is playing, and
      the displayed frame. */
  datatype Sprite = Sprite(velocity: Vec, anim: Option<Dir>, playing: bool, frame: int)

  /** The sprite as physics.add.sprite(100, 100, 'hero', 0) creates it. */
  const Spawned := Sprite(Origin, None, false, 0)

  /** The velocity once the keys are applied and before it is normalised:
      reset to zero, then each axis set on its own, left over right and
      up over down. */
  function Resolve(k: CursorKeys): (v: Vec)
    ensures WellFormed(v)
    ensures (v.sx == Negative <==> k.left) && (v.sx == Positive <==> !k.left && k.right)
    ensures (v.sy == Negative <==> k.up) && (v.sy == Positive <==> !k.up && k.down)
    ensures v.sx != Zero ==> v.x2 == SpeedSq
    ensures v.sy != Zero ==> v.y2 == SpeedSq
  {
    var stopped := Of(0.0, 0.0);
    var horizontal :=
      if k.left then WithX(stopped, -Speed)
      else if k.right then WithX(stopped, Speed)
      else stopped;
    if k.up then WithY(horizontal, -Speed)
    else if k.down then WithY(horizontal, Speed)
    else horizontal
  }

  /** The sign one axis resolves to: the first of its two keys wins. */
  function AxisSign(first: bool, second: bool): Sign {
    if first then Negative else if second then Positive else Zero
  }

  /** The velocity update() leaves on the body, in closed form: each axis
      points as Resolve set it, and the length is Speed, shared evenly
      between the axes on a diagonal; with no key held it is zero. */
  function Velocity(k: CursorKeys): (v: Vec)
    ensures (v.sx == Negative <==> k.left) && (v.sx == Positive <==> !k.left && k.right)
    ensures (v.sy == Negative <==> k.up) && (v.sy == Positive <==> !k.up && k.down)
    ensures LengthSq(v) == if AnyHeld(k) then SpeedSq else 0.0
    ensures v.sx != Zero && v.sy != Zero ==> v.x2 == v.y2
  {
    var sx := AxisSign(k.left, k.right);
    var sy := AxisSign(k.up, k.down);
    var share := if sx != Zero && sy != Zero then SpeedSq / 2.0 else SpeedSq;
    Vec(sx, sy, if sx == Zero then 0.0 else share, if sy == Zero then 0.0 else share)
  }

  /** The closed form is the form of a real vector. */
  lemma VelocityWellFormed(k: CursorKeys)
    ensures WellFormed(Velocity(k))
  {
  }

  /** Normalising Resolve(k) and scaling it by Speed, as update() does in
      place on the body's velocity, gives Velocity(k). */
  lemma NormalizeScaleIsVelocity(k: CursorKeys)
    ensures Scale(Normalize(Resolve(k)), Speed) == Velocity(k)
  {
    if !AnyHeld(k) {
      StillIsVelocity(k);
    } else if (k.left || k.right) && (k.up || k.down) {
      DiagonalIsVelocity(k);
    } else {
      AxisIsVelocity(k);
    }
  }

  lemma StillIsVelocity(k: CursorKeys)
    requires !AnyHeld(k)
    ensures Scale(Normalize(Resolve(k)), Speed) == Velocity(k)
  {
  }

  lemma DiagonalIsVelocity(k: CursorKeys)
    requires (k.left || k.right) && (k.up || k.down)
    ensures Scale(Normalize(Resolve(k)), Speed) == Velocity(k)
  {
  }

  lemma AxisIsVelocity(k: CursorKeys)
    requires AnyHeld(k) && !((k.left || k.right) && (k.up || k.down))
    ensures Scale(Normalize(Resolve(k)), Speed) == Velocity(k)
  {
    var r := Resolve(k);
    var n := Normalize(r);
    ScaleBySpeed(n);
    NormalizeAxis(r);
  }

  /** A vector along one axis normalises to a unit square on that axis. */
  lemma NormalizeAxis(v: Vec)
    requires WellFormed(v) && (v.x2 == 0.0 || v.y2 == 0.0) && LengthSq(v) > 0.0
    ensures Normalize(v).x2 == (if v.x2 == 0.0 then 0.0 else 1.0)
    ensures Normalize(v).y2 == (if v.y2 == 0.0 then 0.0 else 1.0)
  {
  }

  lemma ScaleBySpeed(v: Vec)
    requires WellFormed(v)
    ensures Scale(v, Speed) == Vec(v.sx, v.sy, 10000.0 * v.x2, 10000.0 * v.y2)
  {
    var r := Scale(v, Speed);
    assert Speed * Speed == 10000.0;
    assert r.x2 == (Speed * Speed) * v.x2 && r.y2 == (Speed * Speed) * v.y2;
  }

  /** The body is left exactly at rest by a frame without keys, and only
      by such a frame; before normalisation as well as after. */
  lemma AtRestIffNoKey(k: CursorKeys)
    ensures Resolve(k) == Origin <==> !AnyHeld(k)
    ensures Velocity(k) == Origin <==> !AnyHeld(k)
  {
  }

  /** The direction a velocity points in, the x axis checked before the y axis. */
  function Heading(v: Vec): Option<Dir> {
    if v.sx == Negative then Some(Left)
    else if v.sx == Positive then Some(Right)
    else if v.sy == Negative then Some(Up)
    else if v.sy == Positive then Some(Down)
    else None
  }

  /** The walk cycle update() plays: left, then right, then up, then down.
      One is chosen exactly when a key is held, and it is the direction of
      the new velocity, x axis first. */
  function Walk(k: CursorKeys): (d: Option<Dir>)
    ensures d.Some? <==> AnyHeld(k)
    ensures d == Heading(Velocity(k))
  {
    if k.left then Some(Left)
    else if k.right then Some(Right)
    else if k.up then Some(Up)
    else if k.down then Some(Down)
    else None
  }

  /** The walk cycle played points the way the body moves: walk_left and
      walk_right on the x axis, walk_up and walk_down on the y axis. */
  lemma WalkAgreesWithVelocity(k: CursorKeys)
    ensures Walk(k) == Some(Left) ==> Velocity(k).sx == Negative
    ensures Walk(k) == Some(Right) ==> Velocity(k).sx == Positive
    ensures Walk(k) == Some(Up) ==> Velocity(k).sx == Zero && Velocity(k).sy == Negative
    ensures Walk(k) == Some(Down) ==> Velocity(k).sx == Zero && Velocity(k).sy == Positive
  {
  }

  /** The frame update() shows when no key is held, from the velocity of the
      previous frame: the first frame of the walk cycle that velocity points
      in, or the current frame when it is zero. */
  function StandFrame(prev: Vec, frame: int): (f: int)
    ensures match Heading(prev)
      case Some(d) => f == FirstFrame(d)
      case None => f == frame
  {
    if prev.sx == Negative then 4
    else if prev.sx == Positive then 8
    else if prev.sy == Negative then 12
    else if prev.sy == Positive then 0
    else frame
  }

  /** anims.play(key, true) for the walk cycle d: a cycle that is already
      playing goes on untouched; otherwise d starts from its first frame. */
  function Played(s: Sprite, d: Dir): (r: Sprite)
    ensures r.velocity == s.velocity && r.anim == Some(d) && r.playing
    ensures s.playing && s.anim == Some(d) ==> r == s
    ensures !(s.playing && s.anim == Some(d)) ==> r.frame == Frames(d)[0]
  {
    if s.playing && s.anim == Some(d) then s
    else s.(anim := Some(d), playing := true, frame := FirstFrame(d))
  }

  /** anims.stop(): playback stops on the frame shown; the animation is kept. */
  function Stopped(s: Sprite): (r: Sprite)
    ensures !r.playing && r.anim == s.anim && r.frame == s.frame && r.velocity == s.velocity
  {
    s.(playing := false)
  }

  /** One call of update(). */
  function Tick(s: Sprite, k: CursorKeys): (r: Sprite)
    ensures r.velocity == Velocity(k)
    ensures r.playing <==> AnyHeld(k)
    ensures r.playing ==> r.anim == Walk(k)
    ensures r.playing && !(s.playing && s.anim == r.anim) ==> r.frame == FirstFrame(r.anim.value)
    ensures r.playing && s.playing && s.anim == r.anim ==> r.frame == s.frame
    ensures !r.playing ==> r.anim == s.anim && r.frame == StandFrame(s.velocity, s.frame)
  {
    var moved := s.(velocity := Velocity(k));
    match Walk(k)
    case Some(d) => Played(moved, d)
    case None => Stopped(moved).(frame := StandFrame(s.velocity, s.frame))
  }

  /** update() called once per frame with the keys of each frame in turn.
      The velocity is reset every frame, so after a run it is fixed by the
      keys of the last frame alone, and so is whether a cycle plays. */
  function Run(s: Sprite, keys: seq<CursorKeys>): (r: Sprite)
    ensures keys == [] ==> r == s
    ensures keys != [] ==> r.velocity == Velocity(keys[|keys| - 1])
    ensures keys != [] ==> (r.playing <==> AnyHeld(keys[|keys| - 1]))
    decreases |keys|
  {
    if keys == [] then s else Run(Tick(s, keys[0]), keys[1..])
  }

  /** What holds of the sprite between frames: a frame of the sheet, and
      while a cycle plays, a frame of that cycle. */
  predicate Inv(s: Sprite) {
    0 <= s.frame < 16 && (s.playing ==> s.anim.Some? && s.frame in Frames(s.anim.value))
  }

  lemma TickKeepsInv(s: Sprite, k: CursorKeys)
    requires Inv(s)
    ensures Inv(Tick(s, k))
  {
  }

  lemma {:induction false} RunKeepsInv(s: Sprite, keys: seq<CursorKeys>)
    requires Inv(s)
    ensures Inv(Run(s, keys))
    decreases |keys|
  {
    if keys != [] {
      var next := Tick(s, keys[0]);
      TickKeepsInv(s, keys[0]);
      RunKeepsInv(next, keys[1..]);
      assert Run(s, keys) == Run(next, keys[1..]);
    }
  }

  /** Every state the sprite reaches from its creation satisfies Inv. */
  lemma {:induction false} ReachableInv(keys: seq<CursorKeys>)
    ensures Inv(Run(Spawned, keys))
  {
    RunKeepsInv(Spawned, keys);
  }

  /** In every state the sprite reaches, the body is at rest or moves at
      exactly Speed. */
  lemma {:induction false} ReachableSpeed(keys: seq<CursorKeys>)
    ensures var v := Run(Spawned, keys).velocity;
      WellFormed(v) && (LengthSq(v) == 0.0 || LengthSq(v) == SpeedSq)
  {
    if keys != [] {
      VelocityWellFormed(keys[|keys| - 1]);
    }
  }

  /** A second frame with the same keys changes nothing: the velocity is
      recomputed to the same value, a walk cycle already playing is left
      alone, and after a frame without keys the velocity is zero, so no
      stand frame is chosen again. */
  lemma TickIdempotent(s: Sprite, k: CursorKeys)
    ensures Tick(Tick(s, k), k) == Tick(s, k)
  {
  }

  /** Holding the same keys for any number of frames ends where the first
      of those frames did; in particular any run of frames without keys. */
  lemma {:induction false} SteadyRunSettles(s: Sprite, keys: seq<CursorKeys>)
    requires keys != []
    requires forall i :: 0 <= i < |keys| ==> keys[i] == keys[0]
    ensures Run(s, keys) == Tick(s, keys[0])
  {
    var k := keys[0];
    var settled := Tick(s, k);
    TickIdempotent(s, k);
    SteadyRunStaysPut(settled, k, keys[1..]);
    assert Run(s, keys) == Run(settled, keys[1..]);
  }

  /** A state that a frame with keys k leaves alone stays put for any run
      of frames with keys k. */
  lemma {:induction false} SteadyRunStaysPut(s: Sprite, k: CursorKeys, keys: seq<CursorKeys>)
    requires Tick(s, k) == s
    requires forall i :: 0 <= i < |keys| ==> keys[i] == k
    ensures Run(s, keys) == s
    decreases |keys|
  {
    if keys != [] {
      SteadyRunStaysPut(s, k, keys[1..]);
      assert Run(s, keys) == Run(s, keys[1..]);
    }
  }

  /** Releasing the keys after walking stops the walk cycle on its own
      first frame. */
  lemma StopsOnFirstFrameOfWalk(s: Sprite, k: CursorKeys)
    requires AnyHeld(k)
    ensures Walk(k).Some?
    ensures var r := Tick(Tick(s, k), NoKeys);
      !r.playing && r.anim == Walk(k) && r.frame == FirstFrame(Walk(k).value)
  {
  }

  /** The worked examples: left alone, up with right, left with right, and
      no key after moving left. */
  lemma Scenarios(s: Sprite)
    ensures var k := CursorKeys(true, false, false, false);
      Velocity(k) == Of(-Speed, 0.0) && Walk(k) == Some(Left)
    ensures var k := CursorKeys(false, true, true, false);
      Velocity(k) == Vec(Positive, Negative, 5000.0, 5000.0) && Walk(k) == Some(Right)
    ensures var k := CursorKeys(true, true, false, false);
      Velocity(k) == Of(-Speed, 0.0) && Walk(k) == Some(Left)
    ensures var r := Tick(s.(velocity := Of(-5.0, 0.0)), NoKeys);
      r.velocity == Origin && !r.playing && r.frame == 4
  {
  }
}
