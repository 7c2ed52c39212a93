/** The timing logic shared by every tween loop.

    A tween is a coroutine the host resumes once per rendered frame. The
    host's clock is given as `frames`: `frames[k]` is the time the engine
    reports during the `k`-th frame in which the coroutine runs (frame 0 is
    the one in which it starts, so `frames[0]` is its start time). Within a
    frame the clock does not move.

    Each loop reads the clock at the top of its body, writes an interpolated
    value and yields; the loop guard is tested before the body, against the
    elapsed time the PREVIOUS body computed. So in frame 0 and frame 1 the
    guard sees an elapsed time of 0, and in frame `j` > 0 it sees the elapsed
    time of frame `j - 1`. */
module TweenClock {
  import opened Easing

  /** The time elapsed since the start, as read in frame `k`. */
  function Elapsed(frames: seq<real>, k: nat): real
    requires k < |frames|
  {
    frames[k] - frames[0]
  }

  /** The elapsed time the loop guard compares with the duration at the start
      of frame `j`. */
  function GuardTime(frames: seq<real>, j: nat): (t: real)
    requires j < |frames|
    ensures j <= 1 ==> t == 0.0
  {
    if j == 0 then 0.0 else Elapsed(frames, j - 1)
  }

  /** The first frame at or after `j` whose guard stops the loop (the guard
      time has reached `delay`), or `|frames|` when the samples run out
      before that. */
  function ExitFrameFrom(frames: seq<real>, delay: real, j: nat): (e: nat)
    requires j <= |frames|
    ensures j <= e <= |frames|
    decreases |frames| - j
  {
    if j == |frames| then j
    else if GuardTime(frames, j) >= delay then j
    else ExitFrameFrom(frames, delay, j + 1)
  }

  /** The search stops only at a guard that stops the loop. */
  lemma {:induction false} ExitFrameFromStops(frames: seq<real>, delay: real, j: nat)
    requires j <= |frames|
    ensures ExitFrameFrom(frames, delay, j) < |frames| ==> GuardTime(frames, ExitFrameFrom(frames, delay, j)) >= delay
    decreases |frames| - j
  {
    if j < |frames| && GuardTime(frames, j) < delay {
      ExitFrameFromStops(frames, delay, j + 1);
    }
  }

  /** Every guard the search passes over lets the loop go on. */
  lemma {:induction false} ExitFrameFromSkips(frames: seq<real>, delay: real, j: nat, i: nat)
    requires j <= |frames|
    requires j <= i < ExitFrameFrom(frames, delay, j)
    ensures GuardTime(frames, i) < delay
    decreases |frames| - j
  {
    if j < i {
      ExitFrameFromSkips(frames, delay, j + 1, i);
    }
  }

  /** The frame in which a tween of duration `delay` leaves its loop and
      snaps to its target, which is also the number of loop iterations; it
      is `|frames|` when the tween is still running after the last sample. */
  function ExitFrame(frames: seq<real>, delay: real): (e: nat)
    ensures e <= |frames|
  {
    ExitFrameFrom(frames, delay, 0)
  }

  /** The exit frame is the first frame whose guard stops the loop: `k` is
      it exactly when every guard before `k` let the loop go on and either
      the guard of frame `k` stops it or the samples end at `k`. */
  lemma ExitFrameIsFirst(frames: seq<real>, delay: real, k: nat)
    ensures ExitFrame(frames, delay) == k <==>
      k <= |frames| &&
      (k < |frames| ==> GuardTime(frames, k) >= delay) &&
      (forall i :: 0 <= i < k ==> GuardTime(frames, i) < delay)
  {
    var e := ExitFrame(frames, delay);
    ExitFrameFromStops(frames, delay, 0);
    forall i | 0 <= i < e
      ensures GuardTime(frames, i) < delay
    {
      ExitFrameFromSkips(frames, delay, 0, i);
    }
  }

  /** The eased progress the loop body computes in frame `k`. */
  function Progress(frames: seq<real>, delay: real, easing: Easing, k: nat): real
    requires k < |frames| && delay > 0.0
  {
    EaseStep(Elapsed(frames, k) / delay, easing)
  }

  /** Time never runs backwards between samples. */
  ghost predicate Monotone(frames: seq<real>)
  {
    forall i, j :: 0 <= i <= j < |frames| ==> frames[i] <= frames[j]
  }

  /** A duration of zero or less stops the loop before its first iteration:
      the tween jumps straight to its target in the frame it starts. */
  lemma ZeroDelayJumps(frames: seq<real>, delay: real)
    requires |frames| > 0 && delay <= 0.0
    ensures ExitFrame(frames, delay) == 0
  {
  }

  /** A positive duration always runs the body in frames 0 and 1: the guard
      sees an elapsed time of 0 in both. */
  lemma PositiveDelayRunsTwice(frames: seq<real>, delay: real)
    requires delay > 0.0
    ensures ExitFrame(frames, delay) >= if |frames| < 2 then |frames| else 2
  {
    ExitFrameIsFirst(frames, delay, ExitFrame(frames, delay));
  }

  /** With a clock that does not run backwards, the tween has finished by the
      last sample exactly when the duration is not positive or the
      second-to-last sample is at least `delay` after the start. */
  lemma FinishedByLastSample(frames: seq<real>, delay: real)
    requires Monotone(frames) && |frames| > 0
    ensures ExitFrame(frames, delay) < |frames| <==>
      delay <= 0.0 || (|frames| >= 2 && frames[|frames| - 2] - frames[0] >= delay)
  {
    var n := |frames|;
    var e := ExitFrame(frames, delay);
    ExitFrameIsFirst(frames, delay, e);
    if e < n && delay > 0.0 {
      assert e >= 2 && frames[e - 1] <= frames[n - 2];
    }
    if delay > 0.0 && n >= 2 && frames[n - 2] - frames[0] >= delay {
      assert GuardTime(frames, n - 1) >= delay;
    }
  }

  /** The last write before the snap is at progress 1 or beyond: the guard
      of the exit frame tested the elapsed time of the frame before, which
      had already reached `delay`. */
  lemma LastWriteAtOrPastEnd(frames: seq<real>, delay: real)
    requires delay > 0.0
    requires ExitFrame(frames, delay) < |frames|
    ensures ExitFrame(frames, delay) >= 2
    ensures Elapsed(frames, ExitFrame(frames, delay) - 1) / delay >= 1.0
  {
    var e := ExitFrame(frames, delay);
    ExitFrameIsFirst(frames, delay, e);
    assert Elapsed(frames, e - 1) >= delay;
    DivAtLeastOne(Elapsed(frames, e - 1), delay);
  }

  lemma DivAtLeastOne(x: real, d: real)
    requires d > 0.0 && x >= d
    ensures x / d >= 1.0
  {
  }

  /** The first write of every tween is at eased progress 0, so it writes
      the start value whatever the easing. */
  lemma FirstWriteAtStart(frames: seq<real>, delay: real, easing: Easing)
    requires |frames| > 0 && delay > 0.0
    ensures Progress(frames, delay, easing, 0) == 0.0
  {
    EndPoints(easing);
  }
}
