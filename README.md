# Top-down hero movement, modelled in Dafny

The demo scene `MainScene` moves a hero sprite with the four arrow keys. On
every frame, `update()` works in this order:

1. Stops the arcade body.
2. Sets the horizontal component from left/right. Left wins when both are held.
3. Sets the vertical component from up/down. Up wins when both are held.
4. Normalises the velocity and scales it to `speed` = 100, so a diagonal is
   no faster than an axis.
5. Picks an animation:
   - With a key held, it plays the walk cycle of the first held key, in the
     order left, right, up, down.
   - With no key held, it stops the animation and shows a "stand" frame
     chosen by the sign of the velocity of the previous frame.

`create()` registers the four walk cycles over the rows of the sheet `hero`,
taken to be a 4x4 sheet of 16 frames.

The project has four modules:

- `Vectors` (vectors.dfy): the body's `Vector2` velocity. A component is held
  by its sign and its square. The real vector (x, y) is therefore
  `Vec(SignOf(x), SignOf(y), x*x, y*y)`. In this form `setVelocityX/Y`,
  `normalize()` and `scale()` are exact rational arithmetic, and no square
  root is needed. `DenotesUnique` shows the form loses nothing.
- `HeroAnimations` (animations.dfy): the four `anims.create` calls as data.
  `generateFrameNumbers` is modelled as an inclusive range of frames.
- `Movement` (movement.dfy): one call of `update()` as the function `Tick`
  over a `Sprite` value, with the keys as a parameter. `Run` folds `Tick`
  over a sequence of frames. This module also holds the lemmas about runs.
- `MainScene` (player.dfy): the sprite as a class `Player` whose fields
  `update()` overwrites in place.
  - `Update` is written statement by statement, like the source.
  - Its contract is `State() == Tick(old(State()), cursors)`, so every
    property proved of `Tick` holds of the class.

Behaviour of `update()` that is easy to misread:

- When both left and right are held, the code moves left. It does not
  cancel the two out.
- The code normalises on every frame, not only on a diagonal. On an axis
  this changes nothing (`NormalizeScaleIsVelocity`).
- With no key held and a zero previous velocity, the code sets no stand
  frame. The displayed frame stays as it was; there is no default "down"
  pose.
- The stand frame depends on the velocity of the previous frame only, not
  on the last non-zero velocity.
- The animation order (left, right, up, down) is not a different rule from
  the velocity's. It is the direction of the new velocity, with the x axis
  checked first (`Walk`). That is the same rule the stand frame applies to
  the previous velocity (`StandFrame`).

## Model

| member | source | states |
|---|---|---|
| Vectors.SignOf | src/mainScene.js:111-114 | the sign is negative exactly for r < 0 and positive exactly for r > 0, as the stand-frame comparisons test it |
| Vectors.Of | src/mainScene.js:78 | setVelocity(x, y) writes a well-formed form that denotes (x, y) and no other real vector; the reset of line 78 is Of(0, 0) in Resolve and Steer |
| Vectors.DenotesUnique | src/mainScene.js:75 | a form denotes at most one real vector, so holding the velocity as signs and squares loses nothing |
| Vectors.WithX | src/mainScene.js:82-84 | setVelocityX(x) writes sign SignOf(x) and square x * x on the x axis and keeps the y component |
| Vectors.WithY | src/mainScene.js:89-91 | setVelocityY(y) writes sign SignOf(y) and square y * y on the y axis and keeps the x component |
| Vectors.AssignDenotes | src/mainScene.js:82-91 | assigning one component of the form of (x, y) gives the form of the vector with that component replaced |
| Vectors.Normalize | src/mainScene.js:95 | normalize() keeps both signs, leaves the zero vector alone and gives any other vector unit length |
| Vectors.NormalizeKeepsDirection | src/mainScene.js:95 | normalize() divides each square by the squared length, so the ratio of the components is kept |
| Vectors.Scale | src/mainScene.js:95 | scale(k) for k > 0 keeps both signs and multiplies each square by k * k, so the form stays well formed |
| Vectors.ScaleLength | src/mainScene.js:95 | scale(k) multiplies the squared length by k * k |
| Vectors.ScaleDenotes | src/mainScene.js:95 | scaling the form of (x, y) by k gives the form of (k x, k y) |
| HeroAnimations.Config | src/mainScene.js:40-63 | each anims.create call covers four consecutive frames of the 16, starting on a multiple of 4, at frameRate 8 and repeat -1 |
| HeroAnimations.FrameRange | src/mainScene.js:42 | generateFrameNumbers({start, end}) lists end - start + 1 frames, the i-th being start + i |
| HeroAnimations.Frames | src/mainScene.js:40-63 | each walk cycle has four frames, from its start frame to its end frame |
| HeroAnimations.FirstFrameStartsCycle | src/mainScene.js:40-63 | the first frame of each cycle's frame list is its start frame |
| HeroAnimations.CyclesPartitionSheet | src/mainScene.js:39-63 | a frame is in the cycle for d iff it is one of the sheet's 16 frames and lies in d's row, so every sheet frame is in exactly one cycle |
| HeroAnimations.KeysDistinct | src/mainScene.js:40-63 | the four animation keys are pairwise distinct |
| Movement.Resolve | src/mainScene.js:77-92 | after the reset and the two axis blocks, x is negative iff left is held and positive iff right alone is held, y likewise with up over down, and a non-zero axis has magnitude speed |
| Movement.Velocity | src/mainScene.js:73-95 | the final velocity has the signs Resolve gives, squared length speed^2 when a key is held and 0 otherwise, and equal components on a diagonal |
| Movement.VelocityWellFormed | src/mainScene.js:94-95 | the final velocity is the form of a real vector |
| Movement.NormalizeScaleIsVelocity | src/mainScene.js:94-95 | normalize().scale(speed) applied to the resolved velocity gives exactly Velocity(k), for all sixteen key states |
| Movement.AtRestIffNoKey | src/mainScene.js:78-95 | the velocity is zero, before and after normalising, exactly when no key is held |
| Movement.Walk | src/mainScene.js:98-105 | a walk cycle is chosen iff a key is held, and it is the heading of the new velocity, x axis first |
| Movement.WalkAgreesWithVelocity | src/mainScene.js:81-105 | walk_left/right imply the x sign is negative/positive; walk_up/down imply no x motion and y negative/positive |
| Movement.StandFrame | src/mainScene.js:110-114 | the stand frame is the first frame of the cycle the previous velocity heads in (4, 8, 12, 0), or the unchanged frame when it was zero |
| Movement.Played | src/mainScene.js:99-105 | play(key, true) leaves a cycle already playing alone, otherwise starts the cycle on its first frame; the velocity is kept |
| Movement.Stopped | src/mainScene.js:108 | stop() ends playback and keeps the animation, the frame and the velocity |
| Movement.Tick | src/mainScene.js:73-116 | one update(): the new velocity depends on the keys alone; a cycle plays iff a key is held, and it is Walk(k); the frame is reset, kept or the stand frame as the case requires |
| Movement.Run | src/mainScene.js:73-116 | update() once per frame: no frames leave the sprite as it was; after a run the velocity is Velocity of the last frame's keys and a cycle plays iff that frame held a key |
| Movement.TickKeepsInv | src/mainScene.js:73-116 | a frame of the sheet stays one, and a playing cycle always shows one of its own frames |
| Movement.RunKeepsInv | src/mainScene.js:73-116 | the invariant holds after any number of frames |
| Movement.ReachableInv | src/mainScene.js:32 | from the spawned sprite, every reachable state satisfies the invariant |
| Movement.ReachableSpeed | src/mainScene.js:94-95 | in every reachable state the body is at rest or moves at exactly speed |
| Movement.TickIdempotent | src/mainScene.js:73-116 | a second frame with the same keys changes nothing |
| Movement.SteadyRunSettles | src/mainScene.js:73-116 | holding the same keys for any number of frames ends where one frame with them does |
| Movement.SteadyRunStaysPut | src/mainScene.js:73-116 | a state one frame with keys k leaves alone stays put for any run of frames with keys k |
| Movement.StopsOnFirstFrameOfWalk | src/mainScene.js:107-114 | releasing the keys after walking stops on the first frame of the cycle just walked |
| Movement.Scenarios | src/mainScene.js:73-116 | left gives (-100, 0) and walk_left; up+right gives squares (5000, 5000) with x positive, y negative, and walk_right; left+right gives left; no key after moving left shows frame 4 |
| MainScene.Player.constructor | src/mainScene.js:32 | the sprite is created at rest on frame 0 with no animation |
| MainScene.Player.Play | src/mainScene.js:99-105 | the new state is Played of the old one |
| MainScene.Player.Stop | src/mainScene.js:108 | the new state is Stopped of the old one |
| MainScene.Player.Update | src/mainScene.js:73-116 | the new state is Tick of the old state and the keys |
| MainScene.Player.Move | src/mainScene.js:77-95 | the body's velocity becomes Velocity(cursors) and nothing else changes |
| MainScene.Player.Steer | src/mainScene.js:77-92 | the body's velocity becomes Resolve(cursors) and nothing else changes |
| MainScene.Player.Animate | src/mainScene.js:97-115 | the animation fields become those Tick gives from the velocity before the frame |

## Left out

- `preload()` and the tilemap, layer, collision, world-bounds and camera
  set-up of `create()` are engine calls with no logic of their own.
- Arcade-physics collision may change the body's velocity between frames.
  The model takes the velocity found at the start of `update()` as given:
  it is the field of `Player`, or `s.velocity` in `Tick`. It does not
  compute what the engine does to it. `Run` and every lemma over two or
  more frames assume the engine leaves the velocity as `update()` wrote it.
  In the scene a wall zeroes the blocked axis: walking up and left into a
  wall that stops x and then releasing the keys shows frame 12, not
  walk_left's frame 4.
- Floating point: velocities are exact reals. A diagonal component is
  held as its square, 5000 = (100/sqrt 2)^2, and is not rounded.
- Keyboard polling (`createCursorKeys()`) becomes the four `isDown` flags of
  `CursorKeys`, passed to `Update` for each frame.
- Playback timing: `frameRate` 8 and `repeat: -1` are kept in `Config` as
  data, but the advance from frame to frame while a cycle plays is not
  modelled. The model's displayed frame is the one `play` or `setFrame`
  last set.
- Movement.TickIdempotent and the steady-run lemmas hold only because
  playback timing is not modelled. In the running scene a cycle that is
  still playing goes on advancing its frame.
- `generateFrameNumbers` is modelled only for ascending ranges, the only
  kind `create()` uses.
- Movement.Velocity: its contract does not include `WellFormed`. That fact
  is the separate lemma `VelocityWellFormed`.
- Vectors.Normalize: its contract states the signs, the zero case and the
  unit length. That the ratio of the components is kept is the separate
  lemma `NormalizeKeepsDirection`.
- The model assumes `hero.png` holds at least 16 frames, as the 4x4 layout
  suggests; `generateFrameNumbers` would leave out frame numbers the
  texture lacks.
- src/index.js (the game configuration) is not part of this model.
