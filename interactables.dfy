/**
 * The three interactable objects of the level. Each keeps whether the player
 * is inside its trigger volume; the monolith and the mood switch also keep
 * whether they have fired. A frame's Update receives whether the interact key
 * went down this frame, and acts on the registered singleton.
 */
module Interactables {
  import opened Unity
  import opened Progress

  /** The trigger volume's state after a collider enters (entering == true)
      or leaves it: only the player changes it. */
  function InRangeAfter(inRange: bool, other: Collider, entering: bool): (r: bool)
    ensures CompareTag(other, PlayerTag) ==> r == entering
    ensures !CompareTag(other, PlayerTag) ==> r == inRange
  {
    if CompareTag(other, PlayerTag) then entering else inRange
  }

  class MonolithInteractable {
    var inRange: bool
    var activated: bool

    constructor ()
      ensures !inRange && !activated
    {
      inRange, activated := false, false;
    }

    /** The monolith fires when the key goes down while the player is in
        range, it has not fired before, and the scroll has been taken; firing
        marks it activated and raises the singleton's count once. */
    method Update(keyDown: bool, game: Singleton)
      modifies this`activated, game
      ensures var fires := keyDown && old(inRange) && !old(activated) && old(game.gottenScroll);
        activated == (old(activated) || fires) &&
        (fires ==> game.eventsActivated == Int32(old(game.eventsActivated) + 1) &&
                   game.gottenScroll == old(game.gottenScroll) &&
                   game.effects == old(game.effects) + EventEffects(game.eventsActivated)) &&
        (!fires ==> unchanged(game))
    {
      if keyDown {
        if inRange && !activated {
          var scroll := game.HasGottenScroll();
          if scroll {
            activated := true;
            game.IncreaseEvents();
          }
        }
      }
    }

    method OnTriggerEnter(other: Collider)
      modifies this`inRange
      ensures inRange == InRangeAfter(old(inRange), other, true)
    {
      if CompareTag(other, PlayerTag) {
        inRange := true;
      }
    }

    method OnTriggerExit(other: Collider)
      modifies this`inRange
      ensures inRange == InRangeAfter(old(inRange), other, false)
    {
      if CompareTag(other, PlayerTag) {
        inRange := false;
      }
    }
  }

  class MoodSwitchInteractable {
    var inRange: bool
    var activated: bool

    constructor ()
      ensures !inRange && !activated
    {
      inRange, activated := false, false;
    }

    /** The mood switch fires when the key goes down while the player is in
        range, it has not fired before, and exactly three events have been
        activated (not two, not four). */
    method Update(keyDown: bool, game: Singleton)
      modifies this`activated, game
      ensures var fires := keyDown && old(inRange) && !old(activated) && old(game.eventsActivated) == 3;
        activated == (old(activated) || fires) &&
        (fires ==> game.gottenScroll == old(game.gottenScroll) &&
                   game.eventsActivated == old(game.eventsActivated) &&
                   game.effects == old(game.effects) + [End]) &&
        (!fires ==> unchanged(game))
    {
      if keyDown {
        if inRange && !activated {
          var count := game.GetActivatedEvents();
          if count == 3 {
            activated := true;
            game.MoodSwitch();
          }
        }
      }
    }

    method OnTriggerEnter(other: Collider)
      modifies this`inRange
      ensures inRange == InRangeAfter(old(inRange), other, true)
    {
      if CompareTag(other, PlayerTag) {
        inRange := true;
      }
    }

    method OnTriggerExit(other: Collider)
      modifies this`inRange
      ensures inRange == InRangeAfter(old(inRange), other, false)
    {
      if CompareTag(other, PlayerTag) {
        inRange := false;
      }
    }
  }

  class ScrollInteractable {
    var inRange: bool

    constructor ()
      ensures !inRange
    {
      inRange := false;
    }

    /** A key press in range hands over the scroll, every time: there is no
        once-only guard. */
    method Update(keyDown: bool, game: Singleton)
      modifies game
      ensures keyDown && inRange ==>
        game.gottenScroll && game.eventsActivated == old(game.eventsActivated) &&
        game.effects == old(game.effects) + [ScrollGotten]
      ensures !(keyDown && inRange) ==> unchanged(game)
    {
      if keyDown {
        if inRange {
          game.ReceiveScroll();
        }
      }
    }

    method OnTriggerEnter(other: Collider)
      modifies this
      ensures inRange == InRangeAfter(old(inRange), other, true)
    {
      if CompareTag(other, PlayerTag) {
        inRange := true;
      }
    }

    method OnTriggerExit(other: Collider)
      modifies this
      ensures inRange == InRangeAfter(old(inRange), other, false)
    {
      if CompareTag(other, PlayerTag) {
        inRange := false;
      }
    }
  }
}
