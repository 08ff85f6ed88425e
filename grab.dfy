/** Passive button grabs on the root windows (`grab`): which buttons and
    modifiers each stage grabs, and the grab/ungrab requests it issues. */
module Grab {

  /** X11 modifier masks used by the program (Mod4Mask, AnyModifier). */
  const Mod4Mask: int := 0x40
  const AnyModifier: int := 0x8000
  /** The trigger modifier: the OS key by default. */
  const Modifier: int := Mod4Mask

  /** One stage's entry in the table: a modifier mask and a button range. */
  datatype Stage = Stage(modifiers: int, button0: int, button1: int)

  datatype Option<T> = None | Some(value: T)

  /** Stage 0 (overlay hidden) grabs only the wheel with the trigger
      modifier; stage 1 (zooming) grabs every button with any modifier;
      any other stage is an assertion failure. */
  function StageTable(stage: int): Option<Stage> {
    if stage == 0 then Some(Stage(Modifier, 4, 5))
    else if stage == 1 then Some(Stage(AnyModifier, 1, 5))
    else None
  }

  /** A passive grab: a button with a modifier mask on one screen's root. */
  datatype Key = Key(screen: int, button: int, modifiers: int)

  /** Every grab a stage stands for, across `screens` screens. */
  function Keys(s: Stage, screens: nat): set<Key> {
    set sc: int, b: int | 0 <= sc < screens && s.button0 <= b <= s.button1 :: Key(sc, b, s.modifiers)
  }

  /** The grabs of a stage issued when the loops stand at (screen, button):
      all earlier screens, and the earlier buttons of this one. */
  function Issued(s: Stage, screen: int, button: int): set<Key> {
    set sc: int, b: int | 0 <= sc <= screen && s.button0 <= b <= s.button1 && (sc < screen || b < button) ::
      Key(sc, b, s.modifiers)
  }

  lemma IssuedNextButton(s: Stage, screen: int, button: int)
    requires 0 <= screen && s.button0 <= button <= s.button1
    ensures Issued(s, screen, button + 1) == Issued(s, screen, button) + {Key(screen, button, s.modifiers)}
  {
    var k := Key(screen, button, s.modifiers);
    assert k in Issued(s, screen, button + 1);
  }

  lemma IssuedNextScreen(s: Stage, screen: int)
    requires 0 <= screen && s.button0 <= s.button1 + 1
    ensures Issued(s, screen, s.button1 + 1) == Issued(s, screen + 1, s.button0)
  {
  }

  lemma IssuedStart(s: Stage)
    ensures Issued(s, 0, s.button0) == {}
  {
  }

  lemma IssuedAll(s: Stage, screens: nat)
    ensures Issued(s, screens, s.button0) == Keys(s, screens)
  {
  }

  /** What each stage grabs: stage 0 the wheel buttons 4 and 5 with the
      trigger modifier, stage 1 every button 1 to 5 with any modifier, on
      every screen; no other stage has an entry. */
  lemma StageGrabSets(stage: int, screens: nat, k: Key)
    ensures stage == 0 ==> (k in Keys(StageTable(stage).value, screens) <==>
      0 <= k.screen < screens && 4 <= k.button <= 5 && k.modifiers == Mod4Mask)
    ensures stage == 1 ==> (k in Keys(StageTable(stage).value, screens) <==>
      0 <= k.screen < screens && 1 <= k.button <= 5 && k.modifiers == AnyModifier)
    ensures StageTable(stage).Some? <==> stage == 0 || stage == 1
  {
  }

  /** The two table entries carry different literal modifier masks, so as
      (screen, button, mask) triples no grab of one stage is a grab of the
      other; stage 0 grabs something whenever there is a screen. */
  lemma StagesDisjoint(screens: nat)
    ensures Keys(StageTable(0).value, screens) !! Keys(StageTable(1).value, screens)
    ensures |Keys(StageTable(0).value, screens)| > 0 <==> screens > 0
  {
    if screens > 0 {
      assert Key(0, 4, Modifier) in Keys(StageTable(0).value, screens);
    }
  }

  /** The display connection's passive grabs. */
  class Display {
    const screens: nat
    var active: set<Key>

    constructor (screens: nat)
      ensures this.screens == screens && active == {}
    {
      this.screens := screens;
      active := {};
    }

    /** `grab(is_grab, stage)`: for every screen and every button of the
        stage's range, grab or ungrab it with the stage's modifiers. Returns
        false, issuing nothing, for a stage outside the table. */
    method Grab(isGrab: bool, stage: int) returns (ok: bool)
      modifies this`active
      ensures ok <==> StageTable(stage).Some?
      ensures !ok ==> active == old(active)
      ensures ok ==> active == if isGrab then old(active) + Keys(StageTable(stage).value, screens)
                               else old(active) - Keys(StageTable(stage).value, screens)
    {
      var entry := StageTable(stage);
      if entry.None? {
        return false;
      }
      var s := entry.value;
      IssuedStart(s);
      for screen := 0 to screens
        invariant active == if isGrab then old(active) + Issued(s, screen, s.button0)
                            else old(active) - Issued(s, screen, s.button0)
      {
        for button := s.button0 to s.button1 + 1
          invariant active == if isGrab then old(active) + Issued(s, screen, button)
                              else old(active) - Issued(s, screen, button)
        {
          IssuedNextButton(s, screen, button);
          if isGrab {
            active := active + {Key(screen, button, s.modifiers)};
          } else {
            active := active - {Key(screen, button, s.modifiers)};
          }
        }
        IssuedNextScreen(s, screen);
      }
      IssuedAll(s, screens);
      ok := true;
    }
  }
}
