# tsoomin: a Dafny model of the zoom engine

tsoomin is an X11 screen magnifier. A background loop holds a passive grab on
the mouse wheel with the OS key. A wheel press with that key opens a session
(`tsoom`). The session captures the screen into a texture and shows it in a
full-screen overlay. The user zooms it with the wheel around the pointer and
leaves with any of buttons 1 to 3.

This project models the frame engine inside `tsoom`, the quad shaders, and
the grab bookkeeping of `main`. Floating-point values are modelled as Dafny
`real`, so float rounding is abstracted away. C `int`s are modelled as
unbounded integers.

- `Geometry`: the `union rect`. It is a datatype with the named fields
  x0, y0, x1, y1 and a flat view `S()` standing for `s[4]`.
- `Events`: how one frame's queue is drained. The result is a summed tick
  count, a sticky exit flag and the last pointer position. The press that
  started the session seeds this state.
- `Zoom`: the zoom block. It contracts or expands the target rectangle
  affinely around the texel under the pointer, with `m = dzoom * 0.03`.
- `Lag`: the two followers. `rect0` moves 0.7 and `rect1` 0.3 of the
  remaining way to the target after each frame.
- `Engine`: the frame and the session loop as functions of the state.
  Each frame drains, then zooms, then renders the followers, then lags them.
  The exit flag is tested only at the top of the loop.
- `Tsoom`: the session as the C code runs it. `Session` is a class whose
  fields are the locals of `tsoom`. Its methods (drain loop, zoom, draw, the
  `for i < 4` lag loop, the frame loop) are proved against `Engine`.
- `Shader`: the vertex shader's mapping from vertex id to corners, and the
  BLURRY fragment shader. That shader takes 8 samples at `i/8` and keeps only
  those inside the unit square, then divides by a fixed 8.
- `Grab`: the two-stage table of grabbed buttons and modifiers. `Display.Grab`
  issues one grab or ungrab per screen and button.
- `Entry`: the start-up grab, the press that starts a session, and the grab
  swap around each session.

The event source is an input. Each frame's queue is given as a sequence of
pending events. Each event carries the input method's filter verdict
(`XFilterEvent`). The session loop runs over a finite sequence of such
queues. It stops at the first frame that raises the exit flag, or when the
sequence runs out. The draw call is modelled only by what it receives: the
pair of rectangles `rect0`, `rect1`.

tsoomin.c has no pointer-drag panning, no key handling and no snap-back
phase. Exit is a plain flag, and the session ends after the frame in which
the flag was raised. The follower rates are the literals 0.7 and 0.3.
Zooming in and then out by the same count does not give back the old
rectangle: one tick in and one out leave 0.9991 of the span
(`Zoom.ZoomInThenOutShrinks`).

## Model

| member | source | states |
|---|---|---|
| Geometry.FromS | tsoomin.c:57-62 | reading a four-element `s` view back as named fields gives a rect whose `s` view is the same four values |
| Events.Seed | tsoomin.c:283-291 | session entry counts the triggering press like a drained press at its root coordinates, from zero ticks and a clear flag; a wheel press (4 or 5) is counted exactly as the drain counts it, but unlike the drain the seed never raises the exit flag, even for buttons 1 to 3 |
| Events.ReduceAppend | tsoomin.c:293-307 | draining a queue in two parts, one after the other, is the same as draining it all at once |
| Events.ReduceZoom | tsoomin.c:298-305 | after a drain the tick count is its old value plus the number of button-4 presses minus the number of button-5 presses; filtered and non-press events do not count |
| Events.ReduceExit | tsoomin.c:302 | after a drain the exit flag is set exactly when it was already set or some unfiltered press of button 1, 2 or 3 was drained |
| Events.ReducePointerUnmoved | tsoomin.c:297-306 | a queue with no unfiltered press leaves the pointer where it was |
| Events.ReducePointerLastPress | tsoomin.c:299-300 | the pointer ends at the window coordinates of the last unfiltered press |
| Events.ApplyIgnores | tsoomin.c:296-297 | a filtered event, or one that is not a button press, changes nothing |
| Events.ApplyOtherButton | tsoomin.c:298-305 | a press of a button outside 1..5 only moves the pointer |
| Events.ExitPressIdempotent | tsoomin.c:302 | an exit press sets the flag without touching the ticks, and a second identical press changes nothing more |
| Zoom.AxisScales | tsoomin.c:311-317 | on one axis the span is scaled by (1 - m), and the focal coordinate keeps its relative position in the new span |
| Zoom.AxisContracts | tsoomin.c:311-317 | on one axis, for 0 <= m <= 1 and a pointer inside the viewport, both edges move inward and do not cross |
| Zoom.AxisExpands | tsoomin.c:311-317 | on one axis, for m < 0 and a pointer inside the viewport, both edges move outward |
| Zoom.ZoomScales | tsoomin.c:311-317 | after a zoom, width and height are exactly (1 - dzoom*0.03) times their old values |
| Zoom.ZoomKeepsFocalPoint | tsoomin.c:312-317 | the texture point at the pointer's relative position mx/width, my/height is the same before and after the zoom, so the texel under the cursor stays under it |
| Zoom.ZoomZeroIsIdentity | tsoomin.c:309-319 | zero ticks leave the rectangle unchanged |
| Zoom.ZoomInStaysWithin | tsoomin.c:311-317 | for an ordered rect, 0 <= m <= 1 and a pointer inside the viewport, the new target lies inside the old one and is still ordered |
| Zoom.ZoomOutContains | tsoomin.c:311-317 | for an ordered rect, dzoom < 0 and a pointer inside the viewport, the new target contains the old one |
| Zoom.ZoomOvershootMirrors | tsoomin.c:311 | 34 or more ticks in one frame make m > 1, and a rect of positive width comes out with negative width |
| Zoom.ZoomInThenOutShrinks | tsoomin.c:311-317 | one tick in then one tick out at the same pointer is not an inverse: the spans end at 0.9991 of their old size |
| Zoom.ZoomExample | tsoomin.c:311-317 | from (0,0,1,1), with the cursor at the centre and one tick, the result is (0.015, 0.015, 0.985, 0.985) |
| Lag.ApproachDistance | tsoomin.c:334-337 | one lag step multiplies the distance to the target by (1 - rate): 0.3 for rect0, 0.7 for rect1 |
| Lag.ApproachBetween | tsoomin.c:334-337 | for a rate in [0,1] the new value lies between the old value and the target |
| Lag.ApproachStrict | tsoomin.c:334-337 | for a rate strictly between 0 and 1, a follower not at the target gets strictly closer and does not reach it in one step |
| Lag.LagStepProperties | tsoomin.c:334-337 | for all four components of both followers, the new value lies between the old value and the target, and the distance left is 0.3 (rect0) or 0.7 (rect1) of the old one |
| Lag.LagFixedPoint | tsoomin.c:334-337 | a follower already equal to the target stays put |
| Lag.ApproachNDistance | tsoomin.c:334-337 | after n lag steps toward a fixed target, one component has (1 - rate)^n of its distance left |
| Lag.IterateComponents | tsoomin.c:334-337 | n lag steps of a rect act on each of the four components separately |
| Lag.IterateDistance | tsoomin.c:334-337 | after n frames toward a fixed target, each component of a follower has (1 - rate)^n of its initial distance left |
| Lag.SharpLeadsBlur | tsoomin.c:335-336 | starting from the same rect, rect0 (rate 0.7) is never further from a fixed target than rect1 (rate 0.3) after any number of frames |
| Engine.FrameZoomsOnce | tsoomin.c:293-319 | in each frame the ticks of every press (plus any left from session entry) are summed, and the zoom is applied once with that sum and the last pointer, only if the sum is nonzero; no ticks remain afterwards; otherwise the target is unchanged |
| Engine.FrameRendersThenLags | tsoomin.c:309-337 | a frame renders the followers it started with, then lags them toward the target as this frame's zoom left it |
| Engine.FirstFrameShowsHome | tsoomin.c:283-338 | the first frame of a session shows (0,0,1,1) for both rects, whatever the triggering tick |
| Engine.ExitFrameIsLast | tsoomin.c:292-338 | the frame in which exit arrives is still drained, zoomed, rendered and lagged, and no further frame runs |
| Engine.RunStopsAfterFirstExit | tsoomin.c:292-338 | if the first exit press comes in frame k, the loop runs exactly k + 1 frames and ends with the flag raised |
| Engine.RunWithoutExit | tsoomin.c:292-338 | without any exit press the loop runs every frame offered and the flag stays clear |
| Tsoom.Session.constructor | tsoomin.c:283-291 | the session starts with all three rects at (0,0,1,1), the exit flag clear, and ticks and pointer seeded by the triggering press |
| Tsoom.Session.Drain | tsoomin.c:293-307 | the drain loop leaves the state equal to the drain specification applied to the queue; nothing is rendered |
| Tsoom.Session.ZoomStep | tsoomin.c:309-319 | the zoom block leaves the state equal to the zoom specification: zoom once if there are ticks, then clear them |
| Tsoom.Session.Render | tsoomin.c:327-330 | the draw call receives the current rect0 and rect1 |
| Tsoom.Session.LagStep | tsoomin.c:334-337 | the `for i < 4` loop over the flat view moves rect0 and rect1 by the lag steps of rate 0.7 and 0.3; the target and everything else are unchanged |
| Tsoom.Session.FrameStep | tsoomin.c:293-337 | one loop body: the new state is one frame of the specification, and exactly one draw is recorded |
| Tsoom.Session.Loop | tsoomin.c:292-338 | the while loop ends in the state the loop specification gives, records every frame's draw in order, and returns the number of frames run |
| Tsoom.RunSession | tsoomin.c:283-338 | a whole session from its triggering press produces exactly the draws and the final state of the loop specification started from session entry |
| Shader.QuadTriangles | tsoomin.c:31-34 | vertices 0 and 3 coincide, as do 2 and 4; triangles (0,1,2) and (3,4,5) each have three distinct corners, use all four together and share exactly the diagonal Q0-Q2, so they tile the quad; both have the same winding |
| Shader.VertexIsCorner | tsoomin.c:172-188 | each branch of the vertex shader sets the clip position of the corner its `IS_Q*` test names and reads both rect uniforms at that corner (`.xy`, `.zy`, `.zw`, `.xw`) |
| Shader.CornersAgree | tsoomin.c:172-188 | every clip coordinate is +-1; left (-1) takes x0, right (+1) takes x1, top (+1) takes y0, bottom (-1) takes y1, for both rects |
| Shader.SameSwizzle | tsoomin.c:172-188 | in every branch the read of `u_rect1` mirrors the read of `u_rect0`: swapping the two rects swaps the two texture coordinates |
| Shader.Blurry | tsoomin.c:206-214 | the fragment loop computes the sum of the included samples times 1/8 |
| Shader.SamplesStopShortOfEnd | tsoomin.c:208-209 | sample parameters are i/8 in [0,1); sample 0 is v_uv0, and no sample equals v_uv1 unless v_uv1 equals v_uv0 |
| Shader.NoDivergenceAccumulates | tsoomin.c:208-213 | with v_uv0 = v_uv1 inside the unit square, all samples coincide and k of them sum to k times that texel |
| Shader.CrispWithoutDivergence | tsoomin.c:206-214 | zero divergence and an in-range point give exactly that point's texel |
| Shader.WhiteAccumulatesCount | tsoomin.c:208-213 | on a uniformly white image the accumulator counts the included samples |
| Shader.FixedDivisor | tsoomin.c:214 | the divisor is a fixed 8, not the number of included samples: on a white image the result is (included samples)/8, with at most 8 included |
| Shader.NothingInside | tsoomin.c:210 | samples outside the unit square contribute nothing, so if none is inside the fragment is black |
| Shader.SamplesInsideBetweenInsideEnds | tsoomin.c:209-210 | when both v_uv0 and v_uv1 are in the unit square, every sample is included |
| Grab.StageGrabSets | tsoomin.c:353-367 | stage 0 grabs buttons 4..5 with MODIFIER and stage 1 grabs buttons 1..5 with AnyModifier, on every screen; only stages 0 and 1 have an entry |
| Grab.StagesDisjoint | tsoomin.c:353-365 | the two table entries carry different literal modifier masks (MODIFIER and AnyModifier), so as literal triples no grab of one stage is a grab of the other; stage 0 grabs something whenever there is a screen |
| Grab.Display.Grab | tsoomin.c:349-391 | for stage 0 or 1 it adds (grab) or removes (ungrab) that stage's grab on every screen and every button of its range; any other stage fails and changes nothing |
| Entry.Startup | tsoomin.c:405-407 | at start-up exactly the stage-0 grabs are active |
| Entry.Dispatch | tsoomin.c:415-427 | a session runs exactly for an unfiltered press whose state equals MODIFIER and whose button is 4 or 5; stage-1 grabs are active while it runs; its draws are those of the loop specification; afterwards exactly the stage-0 grabs are active again |

## Left out

- Screen capture (`XShmCreateImage`, `shmget`, `shmat`, `XShmGetImage`, texture upload, lines 89-113 and 272-281): foreign I/O. The texture is a function parameter of the fragment shader.
- Window, visual, colormap and GLX context creation and teardown (lines 119-153 and 340-347): windowing boilerplate.
- Shader compilation and linking, `chkgl`, uniform lookup (lines 21-55 and 157-270): GL glue whose failures only abort the process.
- The GL calls of a frame (clear, bind, uniform upload, `glDrawArrays`, `glXSwapBuffers`, lines 321-332): the model records only the pair `rect0`, `rect1` given to each draw.
- Texel colours and the NOISY shader with its `sin`-based hash (lines 219-241): float numerics. The program hard-codes BLURRY (line 155), and only that shader is modelled. Texel values are an arbitrary function of position, so what is proved is which sample positions are included and how they are summed. The model carries one colour channel; the three channels of `acc` are accumulated alike.
- IEEE float rounding: every value is a `real`, and the constants 0.03, 0.7 and 0.3 are exact.
- `dzoom` and pointer coordinates are unbounded integers; 32-bit overflow of the tick count is not modelled.
- The blocking `XNextEvent` loop of `main`, `XInitThreads`, `setlocale`, `XOpenDisplay` and its failure, `XAllowEvents`, `XCloseDisplay` (lines 395-415 and 431-433): process plumbing. Only the entry test and the grab sequence are modelled.
- Screen-index lookup and window attributes (lines 73-87): X glue. The root window's width and height are parameters and are required to be positive, as an X screen's are.
- Tsoom.Session.Loop: the real loop runs until an exit press. The model runs over a finite sequence of per-frame queues and also stops when that sequence runs out. Events that arrive while a frame drains belong to that frame's queue.
- Grab.Display.Grab: grabs are kept as exact (screen, button, modifier mask) triples. X11 expands an `AnyModifier` grab or ungrab to every modifier combination; that expansion is not modelled. Under that expansion stage 1 covers the stage-0 grabs. The restore after a session still holds, because of the order of the calls at lines 420-424: the stage-0 grabs are released before the stage-1 grabs are made, and made again only after the stage-1 grabs are released.
- Grab.Display.Grab: the assertion failure for an unknown stage is modelled as a `false` result that issues nothing, not as a process abort.
- Shader.CornersAgree: vertex ids are restricted to 0..5, the ids `glDrawArrays(GL_TRIANGLES, 0, 6)` produces. For other ids the source leaves the position unassigned.
- Zoom.ZoomInStaysWithin: it needs 0 <= m <= 1, that is 0 to 33 ticks in one frame; `Zoom.ZoomOvershootMirrors` states what happens beyond.
