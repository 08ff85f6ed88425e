/** The top-level dispatcher of `main`: which press starts a session, and
    the grab swap around each session. */
module Entry {
  import opened Events
  import opened Grab
  import opened Engine
  import opened Tsoom

  /** A session starts only on an unfiltered button press whose modifier
      state is exactly the trigger modifier and whose button is the wheel. */
  predicate StartsSession(p: Pending) {
    !p.filtered && p.ev.ButtonPress? &&
    p.ev.press.state == Modifier && (p.ev.press.button == 4 || p.ev.press.button == 5)
  }

  /** Program start: the hidden-overlay grabs are put in place. */
  method Startup(screens: nat) returns (d: Display)
    ensures fresh(d) && d.screens == screens
    ensures d.active == Keys(StageTable(0).value, screens)
  {
    d := new Display(screens);
    var ok := d.Grab(true, 0);
  }

  /** One event of the dispatch loop. A session-starting press swaps the
      stage-0 grabs for the stage-1 grabs, runs the session over the
      queues pending at its frames, and swaps them back. Returns whether a
      session ran, the grabs in force while it ran, and what it showed. */
  method Dispatch(d: Display, p: Pending, frames: seq<seq<Pending>>, width: int, height: int)
    returns (started: bool, during: set<Key>, shots: seq<Shot>)
    requires width > 0 && height > 0
    requires d.active == Keys(StageTable(0).value, d.screens)
    modifies d
    ensures started <==> StartsSession(p)
    ensures d.active == old(d.active)
    ensures started ==> during == Keys(StageTable(1).value, d.screens)
    ensures started ==> shots == Run(Start(p.ev.press), frames, width, height).shots
    ensures !started ==> during == d.active && shots == []
  {
    started, during, shots := false, d.active, [];
    if p.filtered {
      return;
    }
    match p.ev
    case ButtonPress(b) =>
      if b.state == Modifier {
        if b.button == 4 || b.button == 5 {
          var ok := d.Grab(false, 0);
          ok := d.Grab(true, 1);
          during := d.active;
          var final;
          shots, final := RunSession(b, frames, width, height);
          ok := d.Grab(false, 1);
          ok := d.Grab(true, 0);
          started := true;
        }
      }
    case OtherEvent(_) =>
  }
}
