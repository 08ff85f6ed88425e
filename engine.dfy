/** The frame engine of a zoom session, as functions of its state: the
    specification that the imperative session loop is proved against. */
module Engine {
  import opened Geometry
  import opened Zoom
  import opened Lag
  import opened Events

  /** Everything the frame loop mutates: the target rectangle, its two
      followers and the drained input signals. */
  datatype State = State(target: Rect, rect0: Rect, rect1: Rect, sig: Signals)

  /** The two rectangles handed to the shader for one draw call. */
  datatype Shot = Shot(rect0: Rect, rect1: Rect)

  /** Where a run of frames ends and what each of its frames showed. */
  datatype Trace = Trace(final: State, shots: seq<Shot>)

  /** Session entry: all three rectangles at home, signals seeded by the
      triggering press. */
  function Start(initial: ButtonEvent): State {
    State(Home, Home, Home, Seed(initial))
  }

  /** Drain this frame's queue. */
  function DrainPhase(e: State, q: seq<Pending>): State {
    e.(sig := Reduce(e.sig, q))
  }

  /** Apply the accumulated ticks once, then clear them. */
  function ZoomPhase(e: State, width: int, height: int): State
    requires width > 0 && height > 0
  {
    if e.sig.dzoom != 0 then
      e.(target := ZoomRect(e.target, e.sig.dzoom, e.sig.mx, e.sig.my, width, height),
         sig := e.sig.(dzoom := 0))
    else e
  }

  /** Move both followers toward the target. */
  function LagPhase(e: State): State {
    e.(rect0 := LagRect(e.rect0, e.target, SharpRate),
       rect1 := LagRect(e.rect1, e.target, BlurRate))
  }

  /** One iteration of the session loop: drain, zoom, (render,) lag. */
  function Frame(e: State, q: seq<Pending>, width: int, height: int): State
    requires width > 0 && height > 0
  {
    LagPhase(ZoomPhase(DrainPhase(e, q), width, height))
  }

  /** What an iteration renders: the followers as they stand after the zoom. */
  function Shown(e: State, q: seq<Pending>, width: int, height: int): Shot
    requires width > 0 && height > 0
  {
    var z := ZoomPhase(DrainPhase(e, q), width, height);
    Shot(z.rect0, z.rect1)
  }

  /** The session loop over the queues seen at successive frames: the exit
      flag is tested at the top of every iteration only. */
  function Run(e: State, frames: seq<seq<Pending>>, width: int, height: int): Trace
    requires width > 0 && height > 0
    decreases |frames|
  {
    if e.sig.exiting || frames == [] then Trace(e, [])
    else
      var rest := Run(Frame(e, frames[0], width, height), frames[1..], width, height);
      Trace(rest.final, [Shown(e, frames[0], width, height)] + rest.shots)
  }

  /** One unfolding of the loop: a frame that starts without the exit
      flag and has a queue runs, then the rest follows from its result. */
  lemma StepUnfolds(e: State, frames: seq<seq<Pending>>, width: int, height: int)
    requires width > 0 && height > 0
    requires !e.sig.exiting && frames != []
    ensures var rest := Run(Frame(e, frames[0], width, height), frames[1..], width, height);
      Run(e, frames, width, height) == Trace(rest.final, [Shown(e, frames[0], width, height)] + rest.shots)
  {
  }

  /** Zoom is applied once per frame, with the ticks of the whole frame
      summed (including any left from session entry) and the pointer of
      the last press; afterwards no ticks remain. */
  lemma FrameZoomsOnce(e: State, q: seq<Pending>, width: int, height: int)
    requires width > 0 && height > 0
    ensures var d := e.sig.dzoom + PressCount(q, 4) - PressCount(q, 5);
      var s := Reduce(e.sig, q);
      var f := Frame(e, q, width, height);
      f.sig.dzoom == 0 &&
      f.target == (if d != 0 then ZoomRect(e.target, d, s.mx, s.my, width, height) else e.target) &&
      f.sig.mx == s.mx && f.sig.my == s.my &&
      (f.sig.exiting <==> e.sig.exiting || HasExitPress(q))
  {
    ReduceZoom(e.sig, q);
    ReduceExit(e.sig, q);
  }

  /** A frame renders the followers it started with, then lags them toward
      the target as this frame's zoom left it (the zoom does not touch them). */
  lemma FrameRendersThenLags(e: State, q: seq<Pending>, width: int, height: int)
    requires width > 0 && height > 0
    ensures Shown(e, q, width, height) == Shot(e.rect0, e.rect1)
    ensures var f := Frame(e, q, width, height);
      f.rect0 == LagRect(e.rect0, f.target, SharpRate) &&
      f.rect1 == LagRect(e.rect1, f.target, BlurRate)
  {
  }

  /** The first frame of a session shows the home rectangle, whatever the
      triggering tick was. */
  lemma FirstFrameShowsHome(initial: ButtonEvent, frames: seq<seq<Pending>>, width: int, height: int)
    requires width > 0 && height > 0 && frames != []
    ensures |Run(Start(initial), frames, width, height).shots| > 0
    ensures Run(Start(initial), frames, width, height).shots[0] == Shot(Home, Home)
  {
    FrameRendersThenLags(Start(initial), frames[0], width, height);
  }

  /** The frame in which exit arrives is still zoomed, rendered and lagged,
      and it is the last one. */
  lemma ExitFrameIsLast(e: State, q: seq<Pending>, rest: seq<seq<Pending>>, width: int, height: int)
    requires width > 0 && height > 0
    requires !e.sig.exiting && HasExitPress(q)
    ensures Run(e, [q] + rest, width, height) == Trace(Frame(e, q, width, height), [Shown(e, q, width, height)])
  {
    FrameZoomsOnce(e, q, width, height);
    assert ([q] + rest)[1..] == rest;
  }

  /** A session whose first exit press comes in frame k runs exactly k + 1
      frames and ends with the exit flag raised. */
  lemma {:induction false} RunStopsAfterFirstExit(e: State, frames: seq<seq<Pending>>, k: nat, width: int, height: int)
    requires width > 0 && height > 0
    requires !e.sig.exiting
    requires k < |frames| && HasExitPress(frames[k])
    requires forall j :: 0 <= j < k ==> !HasExitPress(frames[j])
    ensures |Run(e, frames, width, height).shots| == k + 1
    ensures Run(e, frames, width, height).final.sig.exiting
    decreases k
  {
    FrameZoomsOnce(e, frames[0], width, height);
    if k > 0 {
      var tail := frames[1..];
      assert forall j :: 0 <= j < k - 1 ==> tail[j] == frames[j + 1];
      RunStopsAfterFirstExit(Frame(e, frames[0], width, height), tail, k - 1, width, height);
    }
  }

  /** Without any exit press the loop runs through every frame offered. */
  lemma {:induction false} RunWithoutExit(e: State, frames: seq<seq<Pending>>, width: int, height: int)
    requires width > 0 && height > 0
    requires !e.sig.exiting
    requires forall j :: 0 <= j < |frames| ==> !HasExitPress(frames[j])
    ensures |Run(e, frames, width, height).shots| == |frames|
    ensures !Run(e, frames, width, height).final.sig.exiting
    decreases |frames|
  {
    if frames != [] {
      FrameZoomsOnce(e, frames[0], width, height);
      var tail := frames[1..];
      assert forall j :: 0 <= j < |tail| ==> tail[j] == frames[j + 1];
      RunWithoutExit(Frame(e, frames[0], width, height), tail, width, height);
    }
  }
}
