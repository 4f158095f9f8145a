/** The scene's player sprite as update() drives it: the fields it changes
    in place, and update() itself, statement by statement. */
module MainScene {
  import opened Vectors
  import opened HeroAnimations
  import opened Movement

  class Player {
    /** body.velocity */
    var velocity: Vec
    /** anims.currentAnim, by the direction of its walk cycle */
    var anim: Option<Dir>
    /** anims.isPlaying */
    var playing: bool
    /** the displayed frame of the 'hero' sheet */
    var frame: int

    function State(): Sprite
      reads this
    {
      Sprite(velocity, anim, playing, frame)
    }

    /** physics.add.sprite(100, 100, 'hero', 0): at rest, on frame 0, no
        animation yet. */
    constructor ()
      ensures State() == Spawned
    {
      velocity := Origin;
      anim := None;
      playing := false;
      frame := 0;
    }

    /** anims.play(Config(d).key, true). */
    method Play(d: Dir)
      modifies this`anim, this`playing, this`frame
      ensures State() == Played(old(State()), d)
    {
      if !(playing && anim == Some(d)) {
        anim := Some(d);
        playing := true;
        frame := FirstFrame(d);
      }
    }

    /** anims.stop(). */
    method Stop()
      modifies this`playing
      ensures State() == Stopped(old(State()))
    {
      playing := false;
    }

    /** One frame of the scene with the cursor keys sampled for it. */
    method Update(cursors: CursorKeys)
      modifies this
      ensures State() == Tick(old(State()), cursors)
    {
      var prevVelocity := velocity;
      Move(cursors);
      Animate(cursors, prevVelocity);
    }

    /** The first half of update(): stop, set each axis from its keys, then
        normalise and scale to the speed. */
    method Move(cursors: CursorKeys)
      modifies this`velocity
      ensures velocity == Velocity(cursors)
    {
      var speed := Speed;
      Steer(cursors, speed);
      NormalizeScaleIsVelocity(cursors);
      velocity := Scale(Normalize(velocity), speed);
    }

    /** Stop any previous movement, then set the horizontal and the vertical
        component from the keys. */
    method Steer(cursors: CursorKeys, speed: real)
      requires speed == Speed
      modifies this`velocity
      ensures velocity == Resolve(cursors)
    {
      velocity := Of(0.0, 0.0);

      if cursors.left {
        velocity := WithX(velocity, -speed);
      } else if cursors.right {
        velocity := WithX(velocity, speed);
      }

      if cursors.up {
        velocity := WithY(velocity, -speed);
      } else if cursors.down {
        velocity := WithY(velocity, speed);
      }
    }

    /** The second half of update(): play the walk cycle of the first held
        key, or stop and show the stand frame of the previous velocity. */
    method Animate(cursors: CursorKeys, prevVelocity: Vec)
      modifies this`anim, this`playing, this`frame
      ensures State() == Tick(old(State()).(velocity := prevVelocity), cursors).(velocity := velocity)
    {
      if cursors.left {
        Play(Left);
      } else if cursors.right {
        Play(Right);
      } else if cursors.up {
        Play(Up);
      } else if cursors.down {
        Play(Down);
      } else {
        Stop();
        if prevVelocity.sx == Negative {
          frame := 4;
        } else if prevVelocity.sx == Positive {
          frame := 8;
        } else if prevVelocity.sy == Negative {
          frame := 12;
        } else if prevVelocity.sy == Positive {
          frame := 0;
        }
      }
    }
  }
}
