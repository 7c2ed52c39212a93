# UnityExtensions core, modelled in Dafny

`extensions.cs` is a static class of Unity extension methods. This project
models its self-contained core:

- the collision-mask builder (`GetCollisionMask`);
- the tag-filtered component collector over a scene graph
  (`GetComponentsInChildrenWithTag`);
- the small value helpers (`setAlpha`, `SetPositionX/Y/Z`, `toVector3`);
- the easing curves (`easeStep`, `QuadEase`, `QuadOutEase`, `BounceEase`);
- the tween coroutines (`FadeFromTo`, `RotateFromTo`, `ScaleFromTo`,
  `MoveFromTo`, the `*To` shortcuts and the `*Bounce` alternations).

The engine is abstracted away. The layer-collision table is a function
`ignores(layer, other)`. A game object is a tree node (tag, component,
children). The engine's colour and vectors are records of exact reals. A
material and a transform are classes whose fields the tweens overwrite.

A coroutine is modelled as a method. It is handed the clock samples of the
frames in which the host resumes it (`frames[k]` is `Time.time` during the
`k`-th such frame). It returns whether it completed within them and how
many loop iterations ran. When the samples run out first, the method
returns in the state the coroutine is suspended in.

Modules:

- `CollisionMask`: the mask loop over a `bv32` accumulator.
- `TagSearch`: the recursive collector over a `GameObject<C>` tree, proved
  equal to a tag filter of the pre-order walk.
- `Values`: `Color`, `Vector2`, `Vector3`, `SetAlpha`, `ToVector3` and the
  unclamped `Lerp`.
- `Scene`: the `Material`, `Renderer` and `Transform` classes and the
  position setters.
- `Easing`: the curves and the selector.
- `TweenClock`: the loop-exit frame every tween shares, and its properties.
- `Tweens`: the tween drivers and the bounce wrappers.

Timing follows the code exactly. Each loop guard compares the duration with
the elapsed time computed by the previous iteration, which is 0 before the
first one. So a positive duration always runs the body in the first two
frames, and the last interpolated write is at progress 1 or beyond. A bounce
starts each half in the frame in which the previous half ended, because
the wrapper starts the next inner coroutine before it yields.

The collector visits nodes in pre-order (the root, then each child's
subtree in order), and the model proves that order. Over exact reals the
bounce curve reaches exactly 1 at each join and never exceeds 1 on [0, 1];
any excess comes from single-precision rounding.

## Model

| member | source | states |
|---|---|---|
| CollisionMask.EffectiveLayer | extensions.cs:41-42 | a layer of -1 selects the object's own layer; any other value is used as given |
| CollisionMask.AsInt32 | extensions.cs:39-48 | the signed 32-bit reading of the mask is negative exactly when bit 31 (layer 31) is set |
| CollisionMask.OrBit | extensions.cs:46 | or-ing a 0/1 value shifted to bit `i` sets bit `i` when the value is 1 and leaves every other bit unchanged |
| CollisionMask.GetCollisionMask | extensions.cs:39-49 | for each of the 32 layers, bit `i` is set exactly when the effective layer is not ignored against layer `i`; nothing ignored gives all ones (-1), everything ignored gives 0 |
| CollisionMask.AgreeBelowMasked | extensions.cs:44-48 | two words with the same low `n` bits are equal under the low-`n` mask |
| CollisionMask.AllBitsSet | extensions.cs:44-48 | a word with all 32 bits set is 0xFFFFFFFF |
| CollisionMask.NoBitsSet | extensions.cs:44-48 | a word with no bit set is 0 |
| TagSearch.PreOrder | extensions.cs:33-34 | the pre-order walk of a subtree starts with its root |
| TagSearch.ComponentsWithTag | extensions.cs:30-31 | filtering a node list by tag yields at most one component per node |
| TagSearch.GetComponentsInChildrenWithTag | extensions.cs:25-37 | the result is the tag filter of the pre-order walk of the subtree (root first, then each child's subtree in order), with one entry per tagged node |
| TagSearch.CollectAllSnoc | extensions.cs:33-34 | visiting one more child appends exactly that child's results |
| TagSearch.ComponentsWithTagAppend | extensions.cs:33-34 | the tag filter distributes over concatenation |
| TagSearch.CollectIsFilteredPreOrder | extensions.cs:28-36 | the collector's result is the pre-order list of the subtree filtered by tag, mapped to components |
| TagSearch.CollectAllIsFilteredPreOrder | extensions.cs:33-34 | the concatenated results of the children are the tag filter of their concatenated pre-orders |
| TagSearch.CollectLength | extensions.cs:28-36 | the result has exactly one entry per node of the subtree that carries the tag |
| TagSearch.CollectAllLength | extensions.cs:33-34 | the children's results have one entry per tagged node among their subtrees |
| TagSearch.RootFirst | extensions.cs:30-31 | a matching root contributes the first entry |
| TagSearch.ChildBlock | extensions.cs:33-34 | the results of the `k`-th child form one contiguous block after the root's entry and the earlier children's results |
| TagSearch.CollectAllSplit | extensions.cs:33-34 | the children's results split at any child into before, that child, and after |
| TagSearch.ComponentsWithTagMembers | extensions.cs:30-31 | a component is in the filtered list exactly when some listed node carries the tag and has that component |
| TagSearch.CollectMembers | extensions.cs:25-37 | a component is in the result exactly when some node of the subtree carries the tag and has that component |
| TagSearch.EmptyIffNoneTagged | extensions.cs:25-37 | the result is empty exactly when no node of the subtree carries the tag |
| Values.SetAlpha | extensions.cs:51-54 | r, g and b are kept; a is the argument, unclamped |
| Values.ToVector3 | extensions.cs:89-92 | x and y are kept and z is the argument (0 by default) |
| Values.Lerp | extensions.cs:291 | interpolation at 0 gives `from`, at 1 gives `to`, and between equal ends gives that value |
| Values.LerpReversed | extensions.cs:291 | interpolating from `to` to `from` by `s` equals interpolating from `from` to `to` by 1 - `s` |
| Values.LerpVector | extensions.cs:248 | vector interpolation is component-wise scalar interpolation |
| Values.LerpVectorEnds | extensions.cs:248 | vector interpolation hits both end points exactly |
| Scene.SetPositionX | extensions.cs:77-80 | only the x coordinate of the position changes; rotation and scale are kept |
| Scene.SetPositionY | extensions.cs:81-84 | only the y coordinate of the position changes; rotation and scale are kept |
| Scene.SetPositionZ | extensions.cs:85-88 | only the z coordinate of the position changes; rotation and scale are kept |
| Easing.QuadEase | extensions.cs:162-167 | stays in [0, 1] on [0, 1]; below 0.5 it is the first half, from 0.5 on the second |
| Easing.QuadIn | extensions.cs:164 | the first half maps [0, 0.5] into [0, 0.5] |
| Easing.QuadOutHalf | extensions.cs:165-166 | the second half maps [0.5, 1] into [0.5, 1] |
| Easing.QuadOutEase | extensions.cs:168-171 | never exceeds 1 and stays in [0, 1] on [0, 1] |
| Easing.BouncePiece | extensions.cs:176-188 | each parabola of the bounce curve is at least its floor height |
| Easing.BounceSegment | extensions.cs:174-186 | selects one of four pieces: the first exactly below 1/2.75, the second exactly on [1/2.75, 2/2.75), the third exactly on [2/2.75, 2.5/2.75), the last exactly from 2.5/2.75 on |
| Easing.BounceEase | extensions.cs:172-190 | equals the piece its segment selects and stays in [0, 1] on [0, 1] |
| Easing.BouncePieceRange | extensions.cs:172-190 | on its own interval within [0, 1] each bounce piece is at most 1 |
| Easing.EaseStep | extensions.cs:142-156 | `Linear` and any unnamed enum value return the input; every curve maps [0, 1] into [0, 1] |
| Easing.EndPoints | extensions.cs:142-190 | every easing maps 0 to 0 and 1 to 1 |
| Easing.QuadContinuous | extensions.cs:162-167 | the two halves of the quadratic ease meet at 0.5 with value 0.5 |
| Easing.BounceContinuous | extensions.cs:172-190 | adjacent bounce pieces agree, at value 1, at 1/2.75, 2/2.75 and 2.5/2.75 |
| Easing.QuadMonotone | extensions.cs:162-167 | the quadratic ease never decreases on [0, 1] |
| Easing.QuadOutMonotone | extensions.cs:168-171 | the quadratic ease-out never decreases on [0, 1] |
| TweenClock.GuardTime | extensions.cs:202-209 | the guard sees an elapsed time of 0 in the first two frames |
| TweenClock.ExitFrameFrom | extensions.cs:204-209 | the first stopping frame at or after `j` lies between `j` and the number of samples |
| TweenClock.ExitFrameFromStops | extensions.cs:204 | the search ends at a frame whose guard stops the loop, unless the samples run out |
| TweenClock.ExitFrameFromSkips | extensions.cs:204 | every frame the search passes over has a guard that continues the loop |
| TweenClock.ExitFrame | extensions.cs:202-210 | the exit frame is at most the number of samples |
| TweenClock.ExitFrameIsFirst | extensions.cs:202-210 | `k` is the exit frame exactly when every earlier guard continues and frame `k` stops the loop or ends the samples |
| TweenClock.ZeroDelayJumps | extensions.cs:202-211 | a duration of zero or less runs the loop zero times |
| TweenClock.PositiveDelayRunsTwice | extensions.cs:202-209 | a positive duration runs the loop body in the first two frames the samples provide |
| TweenClock.FinishedByLastSample | extensions.cs:202-211 | with a clock that never runs backwards, the tween finishes within the samples exactly when the duration is not positive or the second-to-last sample is at least the duration after the start |
| TweenClock.LastWriteAtOrPastEnd | extensions.cs:204-208 | before the final snap, the last interpolated write used a progress of at least 1 |
| TweenClock.FirstWriteAtStart | extensions.cs:206-208 | the first write is at eased progress 0 for every easing |
| Tweens.FadeFromTo | extensions.cs:198-212 | iterations equal the exit frame; a completed fade ends with alpha exactly `to`; a zero duration completes at once; a suspended fade holds the last interpolated alpha; r, g, b are kept |
| Tweens.FadeTo | extensions.cs:194-197 | fades from the alpha at the call; iterations equal the exit frame; a completed fade ends at `to`; a zero duration completes at once; with no frames nothing changes; r, g, b are kept |
| Tweens.HalvesDone | extensions.cs:216-228 | a bounce completes at most as many halves as it is allowed |
| Tweens.HalvesDoneExtends | extensions.cs:216-228 | allowing one more half adds at most one completed half, and none once a half has failed to complete |
| Tweens.ZeroDelayBounceNeverYields | extensions.cs:216-228 | with a duration of zero or less every half completes in the frame it starts |
| Tweens.FadeBounce | extensions.cs:214-229 | completes the halves `HalvesDone` gives; r, g, b are kept; after all allowed halves the alpha is `to` for an odd count and `from` for an even one |
| Tweens.RotateFromTo | extensions.cs:239-252 | iterations equal the exit frame; a completed turn ends exactly at `to`; a zero duration completes at once; a suspended turn holds the last interpolated angles; position and scale are kept |
| Tweens.RotateTo | extensions.cs:234-237 | turns from the angles at the call; a completed turn ends at `to`; a zero duration completes at once; with no frames nothing changes; position and scale are kept |
| Tweens.RotateBounce | extensions.cs:253-268 | completes the halves `HalvesDone` gives; position and scale are kept; after all allowed halves the angles are `to` or `from` by parity |
| Tweens.ScaleFromTo | extensions.cs:282-295 | iterations equal the exit frame; a completed scale ends with x and y exactly at their targets; a zero duration completes at once; z, position and rotation are kept |
| Tweens.ScaleFromToUniform | extensions.cs:277-280 | x and y follow the same interpolation and end together at `to`; a zero duration completes at once; with no frames nothing changes; z is kept |
| Tweens.ScaleTo | extensions.cs:273-276 | x and y start from their values at the call and both end at `to`; a zero duration completes at once; with no frames nothing changes; z is kept |
| Tweens.ScaleBounce | extensions.cs:296-311 | completes the halves `HalvesDone` gives; z, position and rotation are kept; after all allowed halves x and y are `to` or `from` by parity |
| Tweens.MoveFromTo | extensions.cs:325-338 | iterations equal the exit frame; a completed move ends exactly at `to`; a zero duration completes at once; a suspended move holds the last interpolated position; rotation and scale are kept |
| Tweens.MoveFromTo2D | extensions.cs:320-323 | moves between the lifted points and ends at (to.x, to.y, 0); a zero duration completes at once; with no frames nothing changes |
| Tweens.MoveTo | extensions.cs:316-319 | moves from the position at the call and ends at (to.x, to.y, 0), whatever z was; a zero duration completes at once; with no frames nothing changes |
| Tweens.MoveBounce | extensions.cs:339-354 | completes the halves `HalvesDone` gives; rotation and scale are kept; after all allowed halves the position is `to` or `from` by parity |

## Left out

- `SelfDestruct` and `ResetTransform` (extensions.cs:12-22): plain engine calls with no logic of their own.
- `RandomRangeXY`, `RandomRangeXYZ`, `RandomColor` and `MoveRandomly`: they depend on the engine's random generator. Their `== float.NaN` default checks never hold, because NaN compares unequal to itself.
- `ApproxEquals` and `SinEase`: they depend on IEEE `Pow` and `Sin`. `SinEase` is unreachable from `easeStep`.
- `FadeIn` and `FadeOut`: alpha fades on the deprecated `GUIText` type, with fixed end points (0 to 1 and 1 to 0) and no easing. Unlike the tween drivers, their guard reads the clock again in each frame.
- Single-precision rounding: every value is an exact real.
- Values.Lerp: does not clamp its parameter to [0, 1] as the engine's `Mathf.Lerp` and `Vector3.Lerp` do. Clamping is engine behaviour not visible here. So the last interpolated value before the snap may overshoot the target in this model.
- `Time.time`, `IEnumerator`, `yield` and the host's frame pump: they are replaced by a sequence of clock samples, one per resumed frame. A coroutine that the host stops pumping is modelled as suspended when the samples end.
- Tweens.FadeBounce: the endless `while (true)` is bounded by a `halves` argument, and the alpha left by a half that does not complete within the samples is not stated. With a duration of zero or less the source spins forever within one frame; the model completes all allowed halves without consuming a frame.
- Tweens.RotateBounce: bounded by `halves` in the same way; the angles left by a half that does not complete within the samples are not stated.
- Tweens.ScaleBounce: bounded by `halves` in the same way; the x and y scale left by a half that does not complete within the samples are not stated.
- Tweens.MoveBounce: bounded by `halves` in the same way; the position left by a half that does not complete within the samples is not stated.
- Engine normalisation of `localEulerAngles` to [0, 360): angles are stored as written.
- The null result of `GetComponent<T>()` for a node without that component: the component type `C` is generic and may include a "nothing" value.
- The C# `int` loop counter of `GetCollisionMask`: it is modelled as a `bv32` index, and the shift `1 << i` as a bit-vector shift, which agrees with C# for i < 32.
