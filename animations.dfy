/** The hero's walk cycles, as create() registers them: four looping
    animations over consecutive frames of the 4x4 sprite sheet 'hero'. */
module HeroAnimations {

  datatype Dir = Down | Left | Right | Up

  /** The fields of one anims.create call that the model keeps. */
  datatype AnimConfig = AnimConfig(key: string, start: int, end: int, frameRate: nat, repeat: int)

  /** The four anims.create calls of create(). */
  function Config(d: Dir): (c: AnimConfig)
    ensures 0 <= c.start && c.end == c.start + 3 && c.end < 16 && c.start % 4 == 0
    ensures c.frameRate == 8 && c.repeat == -1
  {
    match d
    case Down => AnimConfig("walk_down", 0, 3, 8, -1)
    case Left => AnimConfig("walk_left", 4, 7, 8, -1)
    case Right => AnimConfig("walk_right", 8, 11, 8, -1)
    case Up => AnimConfig("walk_up", 12, 15, 8, -1)
  }

  /** generateFrameNumbers(sheet, { start, end }): the frames start to end, inclusive. */
  function FrameRange(start: int, end: int): (r: seq<int>)
    requires start <= end
    ensures |r| == end - start + 1
    ensures forall i :: 0 <= i < |r| ==> r[i] == start + i
    decreases end - start
  {
    if start == end then [start] else [start] + FrameRange(start + 1, end)
  }

  /** The frames of the walk cycle for d. */
  function Frames(d: Dir): (fs: seq<int>)
    ensures |fs| == 4 && fs[0] == Config(d).start && fs[3] == Config(d).end
  {
    FrameRange(Config(d).start, Config(d).end)
  }

  /** The frame the walk cycle for d starts on. */
  function FirstFrame(d: Dir): int {
    Config(d).start
  }

  /** The cycle for d plays its first frame first. */
  lemma FirstFrameStartsCycle(d: Dir)
    ensures Frames(d)[0] == FirstFrame(d)
  {
  }

  /** The cycle a sheet frame belongs to: the sheet's rows, top to bottom. */
  function RowOf(f: int): Dir
    requires 0 <= f < 16
  {
    [Down, Left, Right, Up][f / 4]
  }

  /** The four cycles split the sheet's sixteen frames: every frame of a
      cycle is on the sheet, in that cycle's row, and every frame of the
      sheet is in exactly one cycle. */
  lemma CyclesPartitionSheet(d: Dir, f: int)
    ensures f in Frames(d) <==> 0 <= f < 16 && RowOf(f) == d
  {
  }

  /** The four animation keys are distinct, so each names one cycle. */
  lemma KeysDistinct(d: Dir, e: Dir)
    ensures Config(d).key == Config(e).key <==> d == e
  {
  }
}
