/** The per-frame event drain of the session loop: pending button presses
    become a signed zoom tick count, a sticky exit flag and the last
    pointer position. */
module Events {

  /** The fields of an X button event the engine reads. `x`, `y` are
      relative to the event window, `xRoot`, `yRoot` to the root window;
      `state` is the modifier mask held at the time of the press. */
  datatype ButtonEvent = ButtonEvent(x: int, y: int, xRoot: int, yRoot: int, button: int, state: int)

  /** A queued event: a button press, or any other event type. */
  datatype Event = ButtonPress(press: ButtonEvent) | OtherEvent(kind: int)

  /** An event as taken off the queue, with the input method's verdict
      (`XFilterEvent`): a filtered event is skipped. */
  datatype Pending = Pending(ev: Event, filtered: bool)

  /** What the drain accumulates: zoom ticks, the exit flag, the pointer. */
  datatype Signals = Signals(dzoom: int, exiting: bool, mx: int, my: int)

  /** Wheel up (button 4) zooms in one tick, wheel down (button 5) out. */
  function TickOf(button: int): int {
    if button == 4 then 1 else if button == 5 then -1 else 0
  }

  /** Buttons 1 to 3 end the session. */
  predicate IsExitButton(button: int) {
    1 <= button <= 3
  }

  /** The state at session entry, seeded by the press that started it:
      it counts like that press drained from a fresh state, read at its
      root coordinates, except that it never raises the exit flag, even
      for buttons 1 to 3. A wheel press is counted exactly as the drain
      would count it. */
  function Seed(initial: ButtonEvent): (s: Signals)
    ensures !s.exiting
    ensures var start := Signals(0, false, initial.xRoot, initial.yRoot);
      var p := Pending(ButtonPress(initial.(x := initial.xRoot, y := initial.yRoot)), false);
      s == Apply(start, p).(exiting := false) &&
      (initial.button == 4 || initial.button == 5 ==> s == Apply(start, p))
  {
    Signals(TickOf(initial.button), false, initial.xRoot, initial.yRoot)
  }

  /** A press that the drain acts on. */
  predicate IsPress(p: Pending) {
    !p.filtered && p.ev.ButtonPress?
  }

  predicate IsExitPress(p: Pending) {
    IsPress(p) && IsExitButton(p.ev.press.button)
  }

  /** One event of the drain. */
  function Apply(s: Signals, p: Pending): Signals {
    if p.filtered then s
    else match p.ev
      case OtherEvent(_) => s
      case ButtonPress(b) =>
        Signals(s.dzoom + TickOf(b.button), s.exiting || IsExitButton(b.button), b.x, b.y)
  }

  /** The whole drain of a frame's queue, oldest event first. */
  function Reduce(s: Signals, q: seq<Pending>): Signals
    decreases |q|
  {
    if q == [] then s else Apply(Reduce(s, q[..|q| - 1]), q[|q| - 1])
  }

  /** Number of presses of `button` in the queue that the drain acts on. */
  function PressCount(q: seq<Pending>, button: int): nat
    decreases |q|
  {
    if q == [] then 0
    else PressCount(q[..|q| - 1], button) + (if IsPress(q[|q| - 1]) && q[|q| - 1].ev.press.button == button then 1 else 0)
  }

  /** Some press in the queue asks to exit. */
  predicate HasExitPress(q: seq<Pending>) {
    exists i :: 0 <= i < |q| && IsExitPress(q[i])
  }

  /** Draining `a` and then `b` is draining `a + b`. */
  lemma {:induction false} ReduceAppend(s: Signals, a: seq<Pending>, b: seq<Pending>)
    ensures Reduce(s, a + b) == Reduce(Reduce(s, a), b)
    decreases |b|
  {
    if b == [] {
      assert a + b == a;
    } else {
      var c := a + b;
      assert c[..|c| - 1] == a + b[..|b| - 1];
      ReduceAppend(s, a, b[..|b| - 1]);
    }
  }

  /** The ticks of all presses in a frame are summed: button 4 adds one,
      button 5 takes one away. */
  lemma {:induction false} ReduceZoom(s: Signals, q: seq<Pending>)
    ensures Reduce(s, q).dzoom == s.dzoom + PressCount(q, 4) - PressCount(q, 5)
    decreases |q|
  {
    if q != [] {
      ReduceZoom(s, q[..|q| - 1]);
    }
  }

  /** The exit flag is sticky and is raised exactly when some press of
      buttons 1 to 3 was drained. */
  lemma {:induction false} ReduceExit(s: Signals, q: seq<Pending>)
    ensures Reduce(s, q).exiting <==> s.exiting || HasExitPress(q)
    decreases |q|
  {
    if q != [] {
      var n := |q| - 1;
      ReduceExit(s, q[..n]);
      if HasExitPress(q[..n]) {
        var i :| 0 <= i < n && IsExitPress(q[..n][i]);
        assert IsExitPress(q[i]);
      }
      if HasExitPress(q) && !IsExitPress(q[n]) {
        var i :| 0 <= i < |q| && IsExitPress(q[i]);
        assert q[..n][i] == q[i];
      }
    }
  }

  /** With no press in the queue the pointer does not move. */
  lemma {:induction false} ReducePointerUnmoved(s: Signals, q: seq<Pending>)
    requires forall i :: 0 <= i < |q| ==> !IsPress(q[i])
    ensures Reduce(s, q).mx == s.mx && Reduce(s, q).my == s.my
    decreases |q|
  {
    if q != [] {
      var n := |q| - 1;
      assert forall i :: 0 <= i < n ==> q[..n][i] == q[i];
      ReducePointerUnmoved(s, q[..n]);
    }
  }

  /** The pointer ends at the position of the last press: the last press wins. */
  lemma {:induction false} ReducePointerLastPress(s: Signals, q: seq<Pending>, i: nat)
    requires i < |q| && IsPress(q[i])
    requires forall j :: i < j < |q| ==> !IsPress(q[j])
    ensures Reduce(s, q).mx == q[i].ev.press.x && Reduce(s, q).my == q[i].ev.press.y
    decreases |q|
  {
    var n := |q| - 1;
    if i < n {
      assert forall j :: 0 <= j < n ==> q[..n][j] == q[j];
      ReducePointerLastPress(s, q[..n], i);
    }
  }

  /** Events other than button presses, and filtered ones, change nothing. */
  lemma ApplyIgnores(s: Signals, p: Pending)
    requires !IsPress(p)
    ensures Apply(s, p) == s
  {
  }

  /** A press of a button that is neither an exit nor a wheel button only
      moves the pointer. */
  lemma ApplyOtherButton(s: Signals, p: Pending)
    requires IsPress(p) && !(1 <= p.ev.press.button <= 5)
    ensures Apply(s, p) == s.(mx := p.ev.press.x, my := p.ev.press.y)
  {
  }

  /** An exit press is idempotent: pressing it twice acts like once. */
  lemma ExitPressIdempotent(s: Signals, p: Pending)
    requires IsExitPress(p)
    ensures Apply(Apply(s, p), p) == Apply(s, p)
    ensures Apply(s, p).exiting && Apply(s, p).dzoom == s.dzoom
  {
  }
}
