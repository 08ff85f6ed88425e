/** The zoom session (`tsoom`) as the source runs it: its locals as the
    fields of an object that the frame loop updates in place. */
module Tsoom {
  import opened Geometry
  import opened Zoom
  import opened Lag
  import opened Events
  import opened Engine

  class Session {
    /** Size of the root window, in pixels. */
    const width: int
    const height: int

    var target: Rect
    var rect0: Rect
    var rect1: Rect
    var dzoom: int
    var exiting: bool
    var mx: int
    var my: int
    /** The rectangles handed to the shader by every draw call so far. */
    var shots: seq<Shot>

    /** The fields as the engine state they stand for. */
    function Current(): State
      reads this
    {
      State(target, rect0, rect1, Signals(dzoom, exiting, mx, my))
    }

    /** Session entry, seeded by the press that started it. */
    constructor (initial: ButtonEvent, width: int, height: int)
      requires width > 0 && height > 0
      ensures this.width == width && this.height == height
      ensures Current() == Start(initial) && shots == []
    {
      var d := 0;
      if initial.button == 4 { d := d + 1; }
      if initial.button == 5 { d := d - 1; }
      this.width, this.height := width, height;
      exiting := false;
      rect0 := Home;
      rect1 := Home;
      target := Home;
      dzoom := d;
      mx, my := initial.xRoot, initial.yRoot;
      shots := [];
    }

    /** Drains the events pending at the start of a frame, oldest first. */
    method Drain(q: seq<Pending>)
      modifies this
      ensures Current() == DrainPhase(old(Current()), q)
      ensures shots == old(shots)
    {
      var i := 0;
      while i < |q|
        invariant 0 <= i <= |q|
        invariant Current() == DrainPhase(old(Current()), q[..i])
        invariant shots == old(shots)
      {
        assert q[..i + 1][..i] == q[..i];
        var p := q[i];
        if !p.filtered {
          match p.ev
          case ButtonPress(b) =>
            mx := b.x;
            my := b.y;
            if 1 <= b.button <= 3 { exiting := true; }
            if b.button == 4 { dzoom := dzoom + 1; }
            if b.button == 5 { dzoom := dzoom - 1; }
          case OtherEvent(_) =>
        }
        i := i + 1;
      }
      assert q[..|q|] == q;
    }

    /** Applies the accumulated ticks to the target, once, and clears them. */
    method ZoomStep()
      requires width > 0 && height > 0
      modifies this
      ensures Current() == ZoomPhase(old(Current()), width, height)
      ensures shots == old(shots)
    {
      if dzoom != 0 {
        var m := Fraction(dzoom);
        var r := target;
        var cx := r.x0 + (r.x1 - r.x0) * (mx as real / width as real);
        var cy := r.y0 + (r.y1 - r.y0) * (my as real / height as real);
        assert cx == Focal(r.x0, r.x1, mx, width) && cy == Focal(r.y0, r.y1, my, height);
        target := Rect(r.x0 + m * (cx - r.x0), r.y0 + m * (cy - r.y0),
                       r.x1 + m * (cx - r.x1), r.y1 + m * (cy - r.y1));
        dzoom := 0;
      }
    }

    /** The draw call: records the two rectangles it is given. */
    method Render()
      modifies this`shots
      ensures shots == old(shots) + [Shot(rect0, rect1)]
    {
      shots := shots + [Shot(rect0, rect1)];
    }

    /** Moves both followers toward the target, component by component
        through the flat view of each rectangle. */
    method LagStep()
      modifies this`rect0, this`rect1
      ensures Current() == LagPhase(old(Current()))
    {
      var s0, s1, t := rect0.S(), rect1.S(), target.S();
      for i := 0 to 4
        invariant |s0| == 4 && |s1| == 4
        invariant forall j :: 0 <= j < i ==>
          s0[j] == Approach(old(rect0).S()[j], t[j], SharpRate) &&
          s1[j] == Approach(old(rect1).S()[j], t[j], BlurRate)
        invariant forall j :: i <= j < 4 ==> s0[j] == old(rect0).S()[j] && s1[j] == old(rect1).S()[j]
      {
        s0 := s0[i := s0[i] + (t[i] - s0[i]) * SharpRate];
        s1 := s1[i := s1[i] + (t[i] - s1[i]) * BlurRate];
      }
      rect0 := FromS(s0);
      rect1 := FromS(s1);
    }

    /** One iteration of the loop body: drain, zoom, render, lag. */
    method FrameStep(q: seq<Pending>)
      requires width > 0 && height > 0
      modifies this
      ensures Current() == Frame(old(Current()), q, width, height)
      ensures shots == old(shots) + [Shown(old(Current()), q, width, height)]
    {
      Drain(q);
      ZoomStep();
      Render();
      LagStep();
    }

    /** The session loop over the queues seen at successive frames; returns
        the number of frames run. Exit is tested at the top of the loop only. */
    method Loop(frames: seq<seq<Pending>>) returns (n: nat)
      requires width > 0 && height > 0
      modifies this
      ensures Current() == Run(old(Current()), frames, width, height).final
      ensures shots == old(shots) + Run(old(Current()), frames, width, height).shots
      ensures n == |Run(old(Current()), frames, width, height).shots|
    {
      ghost var full := Run(Current(), frames, width, height);
      ghost var shown: seq<Shot> := [];
      n := 0;
      while !exiting && n < |frames|
        invariant 0 <= n <= |frames| && |shown| == n
        invariant shots == old(shots) + shown
        invariant Run(Current(), frames[n..], width, height).final == full.final
        invariant shown + Run(Current(), frames[n..], width, height).shots == full.shots
        decreases |frames| - n
      {
        ghost var before := Current();
        StepUnfolds(before, frames[n..], width, height);
        assert frames[n..][0] == frames[n] && frames[n..][1..] == frames[n + 1..];
        FrameStep(frames[n]);
        shown := shown + [Shown(before, frames[n], width, height)];
        n := n + 1;
      }
      assert Run(Current(), frames[n..], width, height) == Trace(Current(), []);
    }
  }

  /** `tsoom`: one session from its triggering press to its exit, given the
      queues pending at successive frames. Returns what every frame showed
      and the state the session ended in. */
  method RunSession(initial: ButtonEvent, frames: seq<seq<Pending>>, width: int, height: int)
    returns (shots: seq<Shot>, final: State)
    requires width > 0 && height > 0
    ensures shots == Run(Start(initial), frames, width, height).shots
    ensures final == Run(Start(initial), frames, width, height).final
  {
    var s := new Session(initial, width, height);
    var n := s.Loop(frames);
    shots, final := s.shots, s.Current();
  }
}
