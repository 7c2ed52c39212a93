/** The tween drivers: fade, rotate, scale and move, each a per-frame loop,
    and the bounce wrappers that alternate two of them.

    Each driver is a coroutine. Here it is a method that is handed the clock
    samples of the frames the host gives it (see `TweenClock`) and returns
    whether the coroutine completed within them (`finished`) and how many
    loop iterations ran (`iterations`, one per frame). When the samples run
    out first, the coroutine is left suspended after the write of the last
    frame: that is the state the method returns in. The loop of every driver
    is the same: read the clock, compute the eased progress, write the
    interpolated value, yield; once the guard stops the loop, write the
    target value exactly. */
module Tweens {
  import opened Values
  import opened Scene
  import opened Easing
  import opened TweenClock

  /* ---------------------------------------------------------------------
     Alpha tweening
     --------------------------------------------------------------------- */

  /** Fades the renderer's material alpha from `from` to `to` over `delay`
      seconds. The colour's r, g and b are kept in every frame. */
  method FadeFromTo(renderer: Renderer, frames: seq<real>, delay: real,
                    from: real := 1.0, to: real := 0.0, easing: Easing := Linear)
    returns (finished: bool, iterations: nat)
    modifies renderer.material
    ensures iterations == ExitFrame(frames, delay)
    ensures finished <==> iterations < |frames|
    ensures delay <= 0.0 && |frames| > 0 ==> finished && iterations == 0
    ensures renderer.material.color == old(renderer.material.color).(a := renderer.material.color.a)
    ensures finished ==> renderer.material.color.a == to
    ensures !finished && |frames| > 0 ==> (delay > 0.0 &&
      renderer.material.color.a == Lerp(from, to, Progress(frames, delay, easing, |frames| - 1)))
    ensures |frames| == 0 ==> renderer.material.color == old(renderer.material.color)
  {
    if |frames| == 0 {
      ExitFrameIsFirst(frames, delay, 0);
      return false, 0;
    }
    var material := renderer.material;
    var spawntime := frames[0];
    var currentTime := frames[0] - spawntime;
    var k := 0;
    while currentTime < delay
      invariant k < |frames|
      invariant currentTime == GuardTime(frames, k)
      invariant forall i :: 0 <= i < k ==> GuardTime(frames, i) < delay
      invariant material.color == old(material.color).(a := material.color.a)
      invariant k == 0 ==> material.color == old(material.color)
      invariant k > 0 ==> delay > 0.0 && material.color.a == Lerp(from, to, Progress(frames, delay, easing, k - 1))
      decreases |frames| - k
    {
      currentTime := frames[k] - spawntime;
      var step := EaseStep(currentTime / delay, easing);
      material.color := Color(material.color.r, material.color.g, material.color.b, Lerp(from, to, step));
      // yield: the next iteration runs in the next frame, if the host gives one
      if k + 1 == |frames| {
        ExitFrameIsFirst(frames, delay, |frames|);
        return false, |frames|;
      }
      k := k + 1;
    }
    material.color := Color(material.color.r, material.color.g, material.color.b, to);
    ExitFrameIsFirst(frames, delay, k);
    finished, iterations := true, k;
  }

  /** Fades from the alpha the material has when the call is made. */
  method FadeTo(renderer: Renderer, frames: seq<real>, delay: real, to: real := 0.0, easing: Easing := Linear)
    returns (finished: bool, iterations: nat)
    modifies renderer.material
    ensures iterations == ExitFrame(frames, delay)
    ensures finished <==> iterations < |frames|
    ensures delay <= 0.0 && |frames| > 0 ==> finished && iterations == 0
    ensures renderer.material.color == old(renderer.material.color).(a := renderer.material.color.a)
    ensures finished ==> renderer.material.color.a == to
    ensures !finished && |frames| > 0 ==> (delay > 0.0 &&
      renderer.material.color.a == Lerp(old(renderer.material.color.a), to, Progress(frames, delay, easing, |frames| - 1)))
    ensures |frames| == 0 ==> renderer.material.color == old(renderer.material.color)
  {
    finished, iterations := FadeFromTo(renderer, frames, delay, renderer.material.color.a, to, easing);
  }

  /** The number of halves (one tween each) that a bounce of at most `halves`
      halves completes when it starts in frame `start`. Each half starts in
      the frame the previous one ended: the wrapper starts the next tween
      right after the previous one reports that it is done, before yielding. */
  function HalvesDone(frames: seq<real>, start: nat, delay: real, halves: nat): (n: nat)
    requires start <= |frames|
    ensures n <= halves
    decreases halves
  {
    if halves == 0 then 0
    else
      var e := ExitFrame(frames[start..], delay);
      if e == |frames| - start then 0 else 1 + HalvesDone(frames, start + e, delay, halves - 1)
  }

  /** The bound on halves only cuts the endless bounce off: allowing one
      more half adds at most that half, and adds nothing once a half has
      failed to complete within the samples. */
  lemma {:induction false} HalvesDoneExtends(frames: seq<real>, start: nat, delay: real, halves: nat)
    requires start <= |frames|
    ensures HalvesDone(frames, start, delay, halves) <= HalvesDone(frames, start, delay, halves + 1)
              <= HalvesDone(frames, start, delay, halves) + 1
    ensures HalvesDone(frames, start, delay, halves) < halves ==>
              HalvesDone(frames, start, delay, halves + 1) == HalvesDone(frames, start, delay, halves)
    decreases halves
  {
    if halves > 0 {
      var e := ExitFrame(frames[start..], delay);
      if e < |frames| - start {
        HalvesDoneExtends(frames, start + e, delay, halves - 1);
      }
    }
  }

  /** With a duration of zero or less, every half completes in the frame it
      starts: the bounce never yields. */
  lemma {:induction false} ZeroDelayBounceNeverYields(frames: seq<real>, start: nat, delay: real, halves: nat)
    requires start < |frames| && delay <= 0.0
    ensures HalvesDone(frames, start, delay, halves) == halves
    decreases halves
  {
    if halves > 0 {
      ZeroDelayJumps(frames[start..], delay);
      ZeroDelayBounceNeverYields(frames, start, delay, halves - 1);
    }
  }

  /** Alternates fading from `from` to `to` and back, for at most `halves`
      halves. A half that completes ends at exactly its target: after an odd
      number of completed halves the alpha is `to`, after an even one `from`. */
  method FadeBounce(renderer: Renderer, frames: seq<real>, halves: nat, delay: real,
                    from: real := 1.0, to: real := 0.0, easing: Easing := Linear)
    returns (done: nat)
    modifies renderer.material
    ensures done == HalvesDone(frames, 0, delay, halves)
    ensures renderer.material.color == old(renderer.material.color).(a := renderer.material.color.a)
    ensures halves > 0 && done == halves ==> renderer.material.color.a == if done % 2 == 1 then to else from
  {
    done := 0;
    var start: nat := 0;
    while done < halves
      invariant start <= |frames|
      invariant done <= halves
      invariant done + HalvesDone(frames, start, delay, halves - done) == HalvesDone(frames, 0, delay, halves)
      invariant renderer.material.color.r == old(renderer.material.color.r)
      invariant renderer.material.color.g == old(renderer.material.color.g)
      invariant renderer.material.color.b == old(renderer.material.color.b)
      invariant done > 0 ==> renderer.material.color.a == if done % 2 == 1 then to else from
      decreases halves - done
    {
      var forward := done % 2 == 0;
      var a, b := if forward then from else to, if forward then to else from;
      var finished, iterations := FadeFromTo(renderer, frames[start..], delay, a, b, easing);
      if !finished {
        return;
      }
      start := start + iterations;
      done := done + 1;
    }
  }

  /* ---------------------------------------------------------------------
     Rotation tweening
     --------------------------------------------------------------------- */

  /** Turns the transform's local Euler angles from `from` to `to`; position
      and scale are kept. */
  method RotateFromTo(t: Transform, frames: seq<real>, delay: real, from: Vector3, to: Vector3,
                      easing: Easing := Linear)
    returns (finished: bool, iterations: nat)
    modifies t
    ensures iterations == ExitFrame(frames, delay)
    ensures finished <==> iterations < |frames|
    ensures delay <= 0.0 && |frames| > 0 ==> finished && iterations == 0
    ensures t.position == old(t.position) && t.localScale == old(t.localScale)
    ensures finished ==> t.localEulerAngles == to
    ensures !finished && |frames| > 0 ==> (delay > 0.0 &&
      t.localEulerAngles == LerpVector(from, to, Progress(frames, delay, easing, |frames| - 1)))
    ensures |frames| == 0 ==> t.localEulerAngles == old(t.localEulerAngles)
  {
    if |frames| == 0 {
      ExitFrameIsFirst(frames, delay, 0);
      return false, 0;
    }
    var spawntime := frames[0];
    var currentTime := frames[0] - spawntime;
    var k := 0;
    while currentTime < delay
      invariant k < |frames|
      invariant currentTime == GuardTime(frames, k)
      invariant forall i :: 0 <= i < k ==> GuardTime(frames, i) < delay
      invariant t.position == old(t.position) && t.localScale == old(t.localScale)
      invariant k == 0 ==> t.localEulerAngles == old(t.localEulerAngles)
      invariant k > 0 ==> delay > 0.0 && t.localEulerAngles == LerpVector(from, to, Progress(frames, delay, easing, k - 1))
      decreases |frames| - k
    {
      currentTime := frames[k] - spawntime;
      var step := EaseStep(currentTime / delay, easing);
      t.localEulerAngles := LerpVector(from, to, step);
      if k + 1 == |frames| {
        ExitFrameIsFirst(frames, delay, |frames|);
        return false, |frames|;
      }
      k := k + 1;
    }
    t.localEulerAngles := to;
    ExitFrameIsFirst(frames, delay, k);
    finished, iterations := true, k;
  }

  /** Turns from the angles the transform has when the call is made. */
  method RotateTo(t: Transform, frames: seq<real>, delay: real, to: Vector3, easing: Easing := Linear)
    returns (finished: bool, iterations: nat)
    modifies t
    ensures iterations == ExitFrame(frames, delay)
    ensures finished <==> iterations < |frames|
    ensures delay <= 0.0 && |frames| > 0 ==> finished && iterations == 0
    ensures t.position == old(t.position) && t.localScale == old(t.localScale)
    ensures finished ==> t.localEulerAngles == to
    ensures !finished && |frames| > 0 ==> (delay > 0.0 &&
      t.localEulerAngles == LerpVector(old(t.localEulerAngles), to, Progress(frames, delay, easing, |frames| - 1)))
    ensures |frames| == 0 ==> t.localEulerAngles == old(t.localEulerAngles)
  {
    finished, iterations := RotateFromTo(t, frames, delay, t.localEulerAngles, to, easing);
  }

  /** Alternates turning from `from` to `to` and back, for at most `halves` halves. */
  method RotateBounce(t: Transform, frames: seq<real>, halves: nat, delay: real, from: Vector3, to: Vector3,
                      easing: Easing := Linear)
    returns (done: nat)
    modifies t
    ensures done == HalvesDone(frames, 0, delay, halves)
    ensures t.position == old(t.position) && t.localScale == old(t.localScale)
    ensures halves > 0 && done == halves ==> t.localEulerAngles == if done % 2 == 1 then to else from
  {
    done := 0;
    var start: nat := 0;
    while done < halves
      invariant start <= |frames|
      invariant done <= halves
      invariant done + HalvesDone(frames, start, delay, halves - done) == HalvesDone(frames, 0, delay, halves)
      invariant t.position == old(t.position) && t.localScale == old(t.localScale)
      invariant done > 0 ==> t.localEulerAngles == if done % 2 == 1 then to else from
      decreases halves - done
    {
      var forward := done % 2 == 0;
      var a, b := if forward then from else to, if forward then to else from;
      var finished, iterations := RotateFromTo(t, frames[start..], delay, a, b, easing);
      if !finished {
        return;
      }
      start := start + iterations;
      done := done + 1;
    }
  }

  /* ---------------------------------------------------------------------
     Scale tweening
     --------------------------------------------------------------------- */

  /** Scales x from `fromX` to `toX` and y from `fromY` to `toY`; the z scale,
      the position and the rotation are kept. */
  method ScaleFromTo(t: Transform, frames: seq<real>, delay: real,
                     fromX: real := 1.0, toX: real := 1.0, fromY: real := 1.0, toY: real := 1.0,
                     easing: Easing := Linear)
    returns (finished: bool, iterations: nat)
    modifies t
    ensures iterations == ExitFrame(frames, delay)
    ensures finished <==> iterations < |frames|
    ensures delay <= 0.0 && |frames| > 0 ==> finished && iterations == 0
    ensures t.position == old(t.position) && t.localEulerAngles == old(t.localEulerAngles)
    ensures t.localScale.z == old(t.localScale.z)
    ensures finished ==> t.localScale.x == toX && t.localScale.y == toY
    ensures !finished && |frames| > 0 ==> (delay > 0.0 &&
      t.localScale.x == Lerp(fromX, toX, Progress(frames, delay, easing, |frames| - 1)) &&
      t.localScale.y == Lerp(fromY, toY, Progress(frames, delay, easing, |frames| - 1)))
    ensures |frames| == 0 ==> t.localScale == old(t.localScale)
  {
    if |frames| == 0 {
      ExitFrameIsFirst(frames, delay, 0);
      return false, 0;
    }
    var spawntime := frames[0];
    var currentTime := frames[0] - spawntime;
    var k := 0;
    while currentTime < delay
      invariant k < |frames|
      invariant currentTime == GuardTime(frames, k)
      invariant forall i :: 0 <= i < k ==> GuardTime(frames, i) < delay
      invariant t.position == old(t.position) && t.localEulerAngles == old(t.localEulerAngles)
      invariant t.localScale.z == old(t.localScale.z)
      invariant k == 0 ==> t.localScale == old(t.localScale)
      invariant k > 0 ==> (delay > 0.0 &&
        t.localScale.x == Lerp(fromX, toX, Progress(frames, delay, easing, k - 1)) &&
        t.localScale.y == Lerp(fromY, toY, Progress(frames, delay, easing, k - 1)))
      decreases |frames| - k
    {
      currentTime := frames[k] - spawntime;
      var step := EaseStep(currentTime / delay, easing);
      t.localScale := Vector3(Lerp(fromX, toX, step), Lerp(fromY, toY, step), t.localScale.z);
      if k + 1 == |frames| {
        ExitFrameIsFirst(frames, delay, |frames|);
        return false, |frames|;
      }
      k := k + 1;
    }
    t.localScale := Vector3(toX, toY, t.localScale.z);
    ExitFrameIsFirst(frames, delay, k);
    finished, iterations := true, k;
  }

  /** Scales x and y together from `from` to `to`. */
  method ScaleFromToUniform(t: Transform, frames: seq<real>, delay: real,
                            from: real := 1.0, to: real := 1.0, easing: Easing := Linear)
    returns (finished: bool, iterations: nat)
    modifies t
    ensures iterations == ExitFrame(frames, delay)
    ensures finished <==> iterations < |frames|
    ensures delay <= 0.0 && |frames| > 0 ==> finished && iterations == 0
    ensures t.position == old(t.position) && t.localEulerAngles == old(t.localEulerAngles)
    ensures t.localScale.z == old(t.localScale.z)
    ensures finished ==> t.localScale == Vector3(to, to, old(t.localScale.z))
    ensures !finished && |frames| > 0 ==> (delay > 0.0 &&
      t.localScale.x == t.localScale.y == Lerp(from, to, Progress(frames, delay, easing, |frames| - 1)))
    ensures |frames| == 0 ==> t.localScale == old(t.localScale)
  {
    finished, iterations := ScaleFromTo(t, frames, delay, from, to, from, to, easing);
  }

  /** Scales x and y to `to`, each from the value it has when the call is made. */
  method ScaleTo(t: Transform, frames: seq<real>, delay: real, to: real := 1.0, easing: Easing := Linear)
    returns (finished: bool, iterations: nat)
    modifies t
    ensures iterations == ExitFrame(frames, delay)
    ensures finished <==> iterations < |frames|
    ensures delay <= 0.0 && |frames| > 0 ==> finished && iterations == 0
    ensures t.position == old(t.position) && t.localEulerAngles == old(t.localEulerAngles)
    ensures t.localScale.z == old(t.localScale.z)
    ensures finished ==> t.localScale == Vector3(to, to, old(t.localScale.z))
    ensures !finished && |frames| > 0 ==> (delay > 0.0 &&
      t.localScale.x == Lerp(old(t.localScale.x), to, Progress(frames, delay, easing, |frames| - 1)) &&
      t.localScale.y == Lerp(old(t.localScale.y), to, Progress(frames, delay, easing, |frames| - 1)))
    ensures |frames| == 0 ==> t.localScale == old(t.localScale)
  {
    finished, iterations := ScaleFromTo(t, frames, delay, t.localScale.x, to, t.localScale.y, to, easing);
  }

  /** Alternates scaling x and y from `from` to `to` and back, for at most
      `halves` halves; the z scale is kept throughout. */
  method ScaleBounce(t: Transform, frames: seq<real>, halves: nat, delay: real,
                     from: real := 1.0, to: real := 1.0, easing: Easing := Linear)
    returns (done: nat)
    modifies t
    ensures done == HalvesDone(frames, 0, delay, halves)
    ensures t.position == old(t.position) && t.localEulerAngles == old(t.localEulerAngles)
    ensures t.localScale.z == old(t.localScale.z)
    ensures halves > 0 && done == halves ==>
      var v := if done % 2 == 1 then to else from;
      t.localScale.x == v && t.localScale.y == v
  {
    done := 0;
    var start: nat := 0;
    while done < halves
      invariant start <= |frames|
      invariant done <= halves
      invariant done + HalvesDone(frames, start, delay, halves - done) == HalvesDone(frames, 0, delay, halves)
      invariant t.position == old(t.position) && t.localEulerAngles == old(t.localEulerAngles)
      invariant t.localScale.z == old(t.localScale.z)
      invariant done > 0 ==>
        var v := if done % 2 == 1 then to else from;
        t.localScale.x == v && t.localScale.y == v
      decreases halves - done
    {
      var forward := done % 2 == 0;
      var a, b := if forward then from else to, if forward then to else from;
      var finished, iterations := ScaleFromToUniform(t, frames[start..], delay, a, b, easing);
      if !finished {
        return;
      }
      start := start + iterations;
      done := done + 1;
    }
  }

  /* ---------------------------------------------------------------------
     Position tweening
     --------------------------------------------------------------------- */

  /** Moves the transform's position from `from` to `to`; rotation and scale
      are kept. */
  method MoveFromTo(t: Transform, frames: seq<real>, delay: real, from: Vector3, to: Vector3,
                    easing: Easing := Linear)
    returns (finished: bool, iterations: nat)
    modifies t
    ensures iterations == ExitFrame(frames, delay)
    ensures finished <==> iterations < |frames|
    ensures delay <= 0.0 && |frames| > 0 ==> finished && iterations == 0
    ensures t.localEulerAngles == old(t.localEulerAngles) && t.localScale == old(t.localScale)
    ensures finished ==> t.position == to
    ensures !finished && |frames| > 0 ==> (delay > 0.0 &&
      t.position == LerpVector(from, to, Progress(frames, delay, easing, |frames| - 1)))
    ensures |frames| == 0 ==> t.position == old(t.position)
  {
    if |frames| == 0 {
      ExitFrameIsFirst(frames, delay, 0);
      return false, 0;
    }
    var spawntime := frames[0];
    var currentTime := frames[0] - spawntime;
    var k := 0;
    while currentTime < delay
      invariant k < |frames|
      invariant currentTime == GuardTime(frames, k)
      invariant forall i :: 0 <= i < k ==> GuardTime(frames, i) < delay
      invariant t.localEulerAngles == old(t.localEulerAngles) && t.localScale == old(t.localScale)
      invariant k == 0 ==> t.position == old(t.position)
      invariant k > 0 ==> delay > 0.0 && t.position == LerpVector(from, to, Progress(frames, delay, easing, k - 1))
      decreases |frames| - k
    {
      currentTime := frames[k] - spawntime;
      var step := EaseStep(currentTime / delay, easing);
      t.position := LerpVector(from, to, step);
      if k + 1 == |frames| {
        ExitFrameIsFirst(frames, delay, |frames|);
        return false, |frames|;
      }
      k := k + 1;
    }
    t.position := to;
    ExitFrameIsFirst(frames, delay, k);
    finished, iterations := true, k;
  }

  /** Moves between two points of the z = 0 plane. */
  method MoveFromTo2D(t: Transform, frames: seq<real>, delay: real, from: Vector2, to: Vector2,
                      easing: Easing := Linear)
    returns (finished: bool, iterations: nat)
    modifies t
    ensures iterations == ExitFrame(frames, delay)
    ensures finished <==> iterations < |frames|
    ensures delay <= 0.0 && |frames| > 0 ==> finished && iterations == 0
    ensures t.localEulerAngles == old(t.localEulerAngles) && t.localScale == old(t.localScale)
    ensures finished ==> t.position == Vector3(to.x, to.y, 0.0)
    ensures !finished && |frames| > 0 ==> (delay > 0.0 &&
      t.position == LerpVector(ToVector3(from), ToVector3(to), Progress(frames, delay, easing, |frames| - 1)))
    ensures |frames| == 0 ==> t.position == old(t.position)
  {
    finished, iterations := MoveFromTo(t, frames, delay, ToVector3(from), ToVector3(to), easing);
  }

  /** Moves from the position the transform has when the call is made to the
      point `to` of the z = 0 plane: the z coordinate ends at 0 whatever it
      was. */
  method MoveTo(t: Transform, frames: seq<real>, delay: real, to: Vector2, easing: Easing := Linear)
    returns (finished: bool, iterations: nat)
    modifies t
    ensures iterations == ExitFrame(frames, delay)
    ensures finished <==> iterations < |frames|
    ensures delay <= 0.0 && |frames| > 0 ==> finished && iterations == 0
    ensures t.localEulerAngles == old(t.localEulerAngles) && t.localScale == old(t.localScale)
    ensures finished ==> t.position == Vector3(to.x, to.y, 0.0)
    ensures !finished && |frames| > 0 ==> (delay > 0.0 &&
      t.position == LerpVector(old(t.position), ToVector3(to), Progress(frames, delay, easing, |frames| - 1)))
    ensures |frames| == 0 ==> t.position == old(t.position)
  {
    finished, iterations := MoveFromTo(t, frames, delay, t.position, ToVector3(to), easing);
  }

  /** Alternates moving from `from` to `to` and back, for at most `halves` halves. */
  method MoveBounce(t: Transform, frames: seq<real>, halves: nat, delay: real, from: Vector3, to: Vector3,
                    easing: Easing := Linear)
    returns (done: nat)
    modifies t
    ensures done == HalvesDone(frames, 0, delay, halves)
    ensures t.localEulerAngles == old(t.localEulerAngles) && t.localScale == old(t.localScale)
    ensures halves > 0 && done == halves ==> t.position == if done % 2 == 1 then to else from
  {
    done := 0;
    var start: nat := 0;
    while done < halves
      invariant start <= |frames|
      invariant done <= halves
      invariant done + HalvesDone(frames, start, delay, halves - done) == HalvesDone(frames, 0, delay, halves)
      invariant t.localEulerAngles == old(t.localEulerAngles) && t.localScale == old(t.localScale)
      invariant done > 0 ==> t.position == if done % 2 == 1 then to else from
      decreases halves - done
    {
      var forward := done % 2 == 0;
      var a, b := if forward then from else to, if forward then to else from;
      var finished, iterations := MoveFromTo(t, frames[start..], delay, a, b, easing);
      if !finished {
        return;
      }
      start := start + iterations;
      done := done + 1;
    }
  }
}
