/** Lite.Graphics.Animation: a frame counter on a grid of tiles that a game
    advances with the elapsed time and turns into a source rectangle. */
module Animations {
  import opened Primitives
  import opened Results
  import opened Xna

  /** The only way the frame setter can fail: an integer division by zero. */
  datatype AnimationError = DivideByZero

  /** The three fields the frame setter writes. */
  datatype Cursor = Cursor(currentFrame: int, frameX: int, frameY: int)

  /** numberOfFrames is the sum of the column and row counts. */
  function NumberOfFrames(numberOfFramesX: int, numberOfFramesY: int): int {
    numberOfFramesX + numberOfFramesY
  }

  /** The grids on which the setter never divides by zero. */
  predicate GridDefined(isLooping: bool, numberOfFramesX: int, numberOfFramesY: int) {
    numberOfFramesX != 0 && numberOfFramesY != 0 &&
    (isLooping ==> NumberOfFrames(numberOfFramesX, numberOfFramesY) != 0)
  }

  /** The frame the setter stores before it derives the grid position:
      wrapped with C#'s remainder when looping, otherwise capped at the last frame. */
  function StoredFrame(value: int, isLooping: bool, n: int): int
    requires isLooping ==> n != 0
  {
    if isLooping then TruncRem(value, n)
    else if value >= n then n - 1
    else value
  }

  /** The CurrentFrame setter on its own: the new cursor, or the division by
      zero it throws. */
  function SetFrame(value: int, isLooping: bool, numberOfFramesX: int, numberOfFramesY: int): Result<Cursor, AnimationError> {
    var n := NumberOfFrames(numberOfFramesX, numberOfFramesY);
    if isLooping && n == 0 then Err(DivideByZero)
    else
      var frame := StoredFrame(value, isLooping, n);
      if numberOfFramesX == 0 || numberOfFramesY == 0 then Err(DivideByZero)
      else Ok(Cursor(frame, TruncRem(frame, numberOfFramesX), TruncDiv(frame, numberOfFramesY)))
  }

  /** The setter fails exactly on the grids where it would divide by zero. */
  lemma SetFrameFailsOnlyOnDegenerateGrids(value: int, isLooping: bool, numberOfFramesX: int, numberOfFramesY: int)
    ensures SetFrame(value, isLooping, numberOfFramesX, numberOfFramesY).Ok?
        <==> GridDefined(isLooping, numberOfFramesX, numberOfFramesY)
  {
  }

  /** A looping animation on a grid of positive size keeps a non-negative
      frame below numberOfFrames, congruent to the value set, and a frame
      already in range is stored as it is. */
  lemma SetFrameWrapsWhenLooping(value: int, numberOfFramesX: int, numberOfFramesY: int)
    requires numberOfFramesX > 0 && numberOfFramesY > 0
    ensures var n := NumberOfFrames(numberOfFramesX, numberOfFramesY);
      var c := SetFrame(value, true, numberOfFramesX, numberOfFramesY);
      c.Ok? &&
      value == n * TruncDiv(value, n) + c.value.currentFrame &&
      (value >= 0 ==> 0 <= c.value.currentFrame < n) &&
      (0 <= value < n ==> c.value.currentFrame == value)
  {
    var n := NumberOfFrames(numberOfFramesX, numberOfFramesY);
    if 0 <= value < n {
      TruncMatchesEuclidean(value, n);
      ModUnique(value, n, 0, value);
    }
  }

  /** A non-looping animation stores the value, capped at the last frame. */
  lemma SetFrameStopsWhenNotLooping(value: int, numberOfFramesX: int, numberOfFramesY: int)
    requires numberOfFramesX != 0 && numberOfFramesY != 0
    ensures var n := NumberOfFrames(numberOfFramesX, numberOfFramesY);
      var c := SetFrame(value, false, numberOfFramesX, numberOfFramesY);
      c.Ok? &&
      c.value.currentFrame <= n - 1 &&
      (value < n ==> c.value.currentFrame == value) &&
      (value >= n ==> c.value.currentFrame == n - 1)
  {
  }

  /** On a grid of positive size, a stored non-negative frame splits into a
      column below numberOfFramesX and the quotient by numberOfFramesY. */
  lemma SetFrameGridPosition(value: int, isLooping: bool, numberOfFramesX: int, numberOfFramesY: int)
    requires numberOfFramesX > 0 && numberOfFramesY > 0
    requires SetFrame(value, isLooping, numberOfFramesX, numberOfFramesY).value.currentFrame >= 0
    ensures var c := SetFrame(value, isLooping, numberOfFramesX, numberOfFramesY).value;
      0 <= c.frameX < numberOfFramesX &&
      c.currentFrame == numberOfFramesX * (c.currentFrame / numberOfFramesX) + c.frameX &&
      0 <= c.frameY && numberOfFramesY * c.frameY <= c.currentFrame < numberOfFramesY * (c.frameY + 1)
  {
    var c := SetFrame(value, isLooping, numberOfFramesX, numberOfFramesY).value;
    TruncMatchesEuclidean(c.currentFrame, numberOfFramesX);
    TruncMatchesEuclidean(c.currentFrame, numberOfFramesY);
  }

  /** The frame after one more advance: the setter applied to currentFrame + 1. */
  function Advance(frame: int, isLooping: bool, numberOfFramesX: int, numberOfFramesY: int): int
    requires GridDefined(isLooping, numberOfFramesX, numberOfFramesY)
  {
    SetFrame(frame + 1, isLooping, numberOfFramesX, numberOfFramesY).value.currentFrame
  }

  /** The frame after k advances from frame. */
  function AdvanceTimes(frame: int, k: nat, isLooping: bool, numberOfFramesX: int, numberOfFramesY: int): int
    requires GridDefined(isLooping, numberOfFramesX, numberOfFramesY)
  {
    if k == 0 then frame
    else Advance(AdvanceTimes(frame, k - 1, isLooping, numberOfFramesX, numberOfFramesY), isLooping, numberOfFramesX, numberOfFramesY)
  }

  /** A looping animation on a grid of positive size starting inside the
      frame range is at frame (frame + k) mod numberOfFrames after k advances:
      it wraps to frame 0 after the last one. */
  lemma {:induction false} LoopingAnimationCycles(frame: int, k: nat, numberOfFramesX: int, numberOfFramesY: int)
    requires numberOfFramesX > 0 && numberOfFramesY > 0
    requires 0 <= frame < NumberOfFrames(numberOfFramesX, numberOfFramesY)
    ensures AdvanceTimes(frame, k, true, numberOfFramesX, numberOfFramesY)
         == (frame + k) % NumberOfFrames(numberOfFramesX, numberOfFramesY)
  {
    var n := NumberOfFrames(numberOfFramesX, numberOfFramesY);
    if k == 0 {
      SmallMod(frame, n);
    } else {
      LoopingAnimationCycles(frame, k - 1, numberOfFramesX, numberOfFramesY);
      var f := (frame + k - 1) % n;
      assert AdvanceTimes(frame, k - 1, true, numberOfFramesX, numberOfFramesY) == f;
      TruncMatchesEuclidean(f + 1, n);
      NextRemainder(frame + k - 1, n);
    }
  }

  /** (a mod n + 1) mod n == (a + 1) mod n. */
  lemma NextRemainder(a: int, n: int)
    requires a >= 0 && n > 0
    ensures (a % n + 1) % n == (a + 1) % n
  {
    var q := a / n;
    var r := a % n;
    if r + 1 < n {
      ModUnique(a + 1, n, q, r + 1);
      ModUnique(r + 1, n, 0, r + 1);
    } else {
      ModUnique(a + 1, n, q + 1, 0);
      ModUnique(r + 1, n, 1, 0);
    }
  }

  /** A non-looping animation advances one frame at a time and then stays on
      the last frame. */
  lemma {:induction false} NonLoopingAnimationStops(frame: int, k: nat, numberOfFramesX: int, numberOfFramesY: int)
    requires numberOfFramesX != 0 && numberOfFramesY != 0
    requires frame <= NumberOfFrames(numberOfFramesX, numberOfFramesY) - 1
    ensures var last := NumberOfFrames(numberOfFramesX, numberOfFramesY) - 1;
      AdvanceTimes(frame, k, false, numberOfFramesX, numberOfFramesY)
        == (if frame + k <= last then frame + k else last)
  {
    if k > 0 {
      NonLoopingAnimationStops(frame, k - 1, numberOfFramesX, numberOfFramesY);
    }
  }

  /** The state Update works on: the cursor and the accumulated time. */
  datatype Clock = Clock(cursor: Cursor, currentElapsedTime: real)

  /** Update: the elapsed milliseconds are added, and once they exceed the
      frame time the frame advances and the accumulated time restarts at 0. */
  function UpdateSpec(c: Clock, elapsedMilliseconds: real, frameElapsedTime: real,
                      isLooping: bool, numberOfFramesX: int, numberOfFramesY: int): Clock
    requires GridDefined(isLooping, numberOfFramesX, numberOfFramesY)
  {
    var elapsed := c.currentElapsedTime + elapsedMilliseconds;
    if elapsed > frameElapsedTime then
      Clock(SetFrame(c.cursor.currentFrame + 1, isLooping, numberOfFramesX, numberOfFramesY).value, 0.0)
    else
      Clock(c.cursor, elapsed)
  }

  /** Update either advances the frame by one and restarts the clock, or keeps
      the frame and only accumulates; the frame time is exceeded exactly in the first case. */
  lemma UpdateAdvancesOrAccumulates(c: Clock, elapsedMilliseconds: real, frameElapsedTime: real,
                                    isLooping: bool, numberOfFramesX: int, numberOfFramesY: int)
    requires GridDefined(isLooping, numberOfFramesX, numberOfFramesY)
    ensures var r := UpdateSpec(c, elapsedMilliseconds, frameElapsedTime, isLooping, numberOfFramesX, numberOfFramesY);
      if c.currentElapsedTime + elapsedMilliseconds > frameElapsedTime then
        r.cursor.currentFrame == Advance(c.cursor.currentFrame, isLooping, numberOfFramesX, numberOfFramesY) &&
        r.currentElapsedTime == 0.0
      else
        r.cursor == c.cursor && r.currentElapsedTime == c.currentElapsedTime + elapsedMilliseconds
  {
  }

  /** A frame's tile: offset plus frame size times the grid position. */
  function TileAt(animationOffsetX: int, animationOffsetY: int, frameWidth: int, frameHeight: int, frameX: int, frameY: int): Rectangle {
    Rectangle(animationOffsetX + frameWidth * frameX, animationOffsetY + frameHeight * frameY, frameWidth, frameHeight)
  }

  /** 0 <= w * x <= w * m for 0 <= x <= m and w >= 0. */
  lemma ColumnBound(w: int, x: int, m: int)
    requires w >= 0 && 0 <= x <= m
    ensures 0 <= w * x <= w * m
  {
  }

  /** The mutable struct Animation, with the frame setter as SetCurrentFrame.
      The fields the source declares readonly, and the offsets no member
      writes, are constants. */
  class Animation {
    var frameX: int
    var frameY: int
    const numberOfFramesX: int
    const numberOfFramesY: int
    const animationOffsetX: int
    const animationOffsetY: int
    const frameWidth: int
    const frameHeight: int
    const frameElapsedTime: real
    var currentElapsedTime: real
    const isLooping: bool
    var currentFrame: int

    function Position(): Cursor
      reads this
    {
      Cursor(currentFrame, frameX, frameY)
    }

    function ClockState(): Clock
      reads this
    {
      Clock(Position(), currentElapsedTime)
    }

    /** The grid is one the setter can work on, and the grid position is the
        one the setter derives from the current frame. */
    ghost predicate Valid()
      reads this
    {
      GridDefined(isLooping, numberOfFramesX, numberOfFramesY) &&
      frameX == TruncRem(currentFrame, numberOfFramesX) &&
      frameY == TruncDiv(currentFrame, numberOfFramesY)
    }

    /** The constructor ends by setting the start frame, which throws on a
        grid where SetFrame fails; the model constructs only the others. */
    constructor (frameWidth: int, frameHeight: int, numberOfFramesX: int, numberOfFramesY: int,
                 frameElapsedTime: real, isLooping: bool, animationOffsetX: int, animationOffsetY: int, startFrame: int)
      requires GridDefined(isLooping, numberOfFramesX, numberOfFramesY)
      ensures Valid()
      ensures this.frameWidth == frameWidth && this.frameHeight == frameHeight
      ensures this.numberOfFramesX == numberOfFramesX && this.numberOfFramesY == numberOfFramesY
      ensures this.animationOffsetX == animationOffsetX && this.animationOffsetY == animationOffsetY
      ensures this.frameElapsedTime == frameElapsedTime && this.isLooping == isLooping
      ensures ClockState() == Clock(SetFrame(startFrame, isLooping, numberOfFramesX, numberOfFramesY).value, 0.0)
    {
      this.frameWidth := frameWidth;
      this.frameHeight := frameHeight;
      this.numberOfFramesX := numberOfFramesX;
      this.numberOfFramesY := numberOfFramesY;
      this.animationOffsetX := animationOffsetX;
      this.animationOffsetY := animationOffsetY;
      this.currentFrame := 0;
      this.frameX := 0;
      this.frameY := 0;
      this.frameElapsedTime := frameElapsedTime;
      this.currentElapsedTime := 0.0;
      this.isLooping := isLooping;
      new;
      SetCurrentFrame(startFrame);
    }

    /** The private CurrentFrame setter. */
    method SetCurrentFrame(value: int)
      requires GridDefined(isLooping, numberOfFramesX, numberOfFramesY)
      modifies this`currentFrame, this`frameX, this`frameY
      ensures Valid()
      ensures Position() == SetFrame(value, isLooping, numberOfFramesX, numberOfFramesY).value
    {
      currentFrame := value;
      if isLooping {
        currentFrame := TruncRem(currentFrame, NumberOfFrames(numberOfFramesX, numberOfFramesY));
      } else if currentFrame >= NumberOfFrames(numberOfFramesX, numberOfFramesY) {
        currentFrame := NumberOfFrames(numberOfFramesX, numberOfFramesY) - 1;
      }
      frameX := TruncRem(currentFrame, numberOfFramesX);
      frameY := TruncDiv(currentFrame, numberOfFramesY);
    }

    /** Bounds: the tile of the current frame on the tile set, one frame in
        size; for a non-negative frame on a grid with columns its left edge
        lies among the numberOfFramesX columns that start at the offset. */
    function Bounds(): (r: Rectangle)
      reads this
      ensures r.width == frameWidth && r.height == frameHeight
      ensures Valid() && numberOfFramesX > 0 && currentFrame >= 0 && frameWidth >= 0 ==>
        animationOffsetX <= r.x <= animationOffsetX + frameWidth * (numberOfFramesX - 1)
    {
      if 0 <= frameX < numberOfFramesX && frameWidth >= 0 then
        ColumnBound(frameWidth, frameX, numberOfFramesX - 1);
        TileAt(animationOffsetX, animationOffsetY, frameWidth, frameHeight, frameX, frameY)
      else
        TileAt(animationOffsetX, animationOffsetY, frameWidth, frameHeight, frameX, frameY)
    }

    /** Update, given the elapsed game time in milliseconds. */
    method Update(elapsedMilliseconds: real)
      requires Valid()
      modifies this`currentFrame, this`frameX, this`frameY, this`currentElapsedTime
      ensures Valid()
      ensures ClockState() == UpdateSpec(old(ClockState()), elapsedMilliseconds, frameElapsedTime,
                                         isLooping, numberOfFramesX, numberOfFramesY)
    {
      currentElapsedTime := currentElapsedTime + elapsedMilliseconds;
      if currentElapsedTime > frameElapsedTime {
        SetCurrentFrame(currentFrame + 1);
        currentElapsedTime := 0.0;
      }
    }
  }
}
