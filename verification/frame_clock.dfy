/** The frame clock: the fixed 24 fps mapping between a playback position in
    milliseconds and a 1-based frame number (UIMediaPlayer.cs, `Update` and
    `Seek`). Times are exact reals; the source computes in IEEE single floats. */
module FrameClock {

  /** Frames per second (the source's `FRAME_RATE`). */
  const FrameRate: real := 24.0

  /** Length of one frame in milliseconds, `1 / FRAME_RATE * 1000`. */
  const FrameMs: real := 1.0 / FrameRate * 1000.0

  /** The C# `(int)` conversion of a real: truncation toward zero (not floor). */
  function Truncate(x: real): (n: int)
    ensures 0.0 <= x ==> n as real <= x < n as real + 1.0
    ensures x < 0.0 ==> n as real - 1.0 < x <= n as real
  {
    if x >= 0.0 then x.Floor else -((-x).Floor)
  }

  /** The frame shown at `timeMs`: `(int)(timeMs * (FRAME_RATE / 1000)) + 1`.
      For a non-negative time it is the frame whose interval
      [TimeOf(frame), TimeOf(frame + 1)) contains the time. */
  function FrameOf(timeMs: real): (frame: int)
    ensures 0.0 <= timeMs ==> 1 <= frame
    ensures 0.0 <= timeMs ==> TimeOf(frame) <= timeMs < TimeOf(frame + 1)
  {
    Truncate(timeMs * (FrameRate / 1000.0)) + 1
  }

  /** The seek target of a frame, `(frame - 1) * (1 / FRAME_RATE * 1000)`; it
      is a valid (non-negative) position exactly for the frames 1, 2, 3, ... */
  function TimeOf(frame: int): (timeMs: real)
    ensures 0.0 <= timeMs <==> 1 <= frame
  {
    (frame - 1) as real * FrameMs
  }

  /** Over exact arithmetic, the frame at the seek target of `frame` is
      `frame` itself, for every frame number (not only the valid ones). */
  lemma FrameOfTimeOf(frame: int)
    ensures FrameOf(TimeOf(frame)) == frame
  {
  }

  /** Consecutive frames are one frame length apart, and seek targets grow
      with the frame number. */
  lemma TimeOfMonotone(f1: int, f2: int)
    requires f1 <= f2
    ensures TimeOf(f1) <= TimeOf(f2)
    ensures f1 < f2 ==> TimeOf(f1) + FrameMs <= TimeOf(f2)
  {
  }

  /** The playback position has reached frame `target` exactly when it is at
      or past that frame's seek target: the test the stage watcher relies on. */
  lemma FrameReached(timeMs: real, target: int)
    requires 0.0 <= timeMs
    ensures FrameOf(timeMs) >= target <==> timeMs >= TimeOf(target)
  {

  }

  /** Frame numbers never decrease as the position advances. */
  lemma FrameOfMonotone(t1: real, t2: real)
    requires 0.0 <= t1 <= t2
    ensures FrameOf(t1) <= FrameOf(t2)
  {

  }
}
