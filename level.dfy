/**
 * The level as a closed scene: one registered singleton, one scroll, one mood
 * switch and k monoliths, and nothing else that calls the singleton. Every
 * frame callback of every object is one method here. The invariant ties the
 * singleton's count to the set of monoliths that have fired and its trace to
 * the story told so far.
 */
module Scene {
  import opened Unity
  import opened Progress
  import opened Interactables

  /** A set of indices below k has at most k elements. */
  lemma {:induction false} IndicesBelow(s: set<int>, k: nat)
    requires forall j :: j in s ==> 0 <= j < k
    ensures |s| <= k
    decreases k
  {
    if k == 0 {
      assert forall j :: j !in s;
      assert s == {};
    } else {
      var t := s - {k - 1};
      IndicesBelow(t, k - 1);
      if k - 1 in s {
        assert s == t + {k - 1};
      } else {
        assert s == t;
      }
    }
  }

  /** What the singleton holds once n monoliths have fired and the mood switch
      has (ended) or has not fired: the count is n, the scroll was taken
      before any monolith fired, the ending came only at a count of three, and
      the cues other than ScrollGotten are the story up to step n, followed by
      the ending if it was sent. */
  predicate Accounted(count: int, scroll: bool, effects: seq<Effect>, ended: bool, n: nat) {
    count == n && (n > 0 ==> scroll) && (ended ==> n >= 3) &&
    Plot(effects) == Story(Min(n, 3)) + (if ended then [End] else [])
  }

  /** A monolith firing tells the next step of the story (nothing past step
      three) and keeps an ending already sent last. */
  lemma MonolithStep(count: int, effects: seq<Effect>, ended: bool, n: nat)
    requires Accounted(count, true, effects, ended, n) && n < Int32Max
    ensures Int32(count + 1) == n + 1
    ensures Accounted(Int32(count + 1), true, effects + EventEffects(n + 1), ended, n + 1)
  {
    Int32Identity(n + 1);
    PlotAppend(effects, EventEffects(n + 1));
    StoryStep(n);
    if n < 3 {
      var es := EventEffects(n + 1);
      assert Plot(es) == Plot(es[..1]) + [es[1]];
      assert es[..1][..0] == [];
    }
  }

  /** The mood switch firing at count three appends the ending to the story. */
  lemma EndingStep(count: int, scroll: bool, effects: seq<Effect>, n: nat)
    requires Accounted(count, scroll, effects, false, n) && count == 3
    ensures Accounted(count, scroll, effects + [End], true, n)
  {
    PlotAppend(effects, [End]);
    assert [End][..0] == [];
  }

  /** Taking the scroll, any number of times, adds nothing to the story. */
  lemma ScrollStep(count: int, scroll: bool, effects: seq<Effect>, ended: bool, n: nat)
    requires Accounted(count, scroll, effects, ended, n)
    ensures Accounted(count, true, effects + [ScrollGotten], ended, n)
  {
    assert (effects + [ScrollGotten])[..|effects|] == effects;
  }

  /** The ending is in the trace exactly when it was sent, and then the whole
      story comes before it. */
  lemma EndingMeansStoryTold(count: int, scroll: bool, effects: seq<Effect>, ended: bool, n: nat)
    requires Accounted(count, scroll, effects, ended, n)
    ensures End in effects <==> ended
    ensures ended ==> Plot(effects) == Story(3) + [End]
  {
    PlotMembership(effects, End);
    assert End !in Story(Min(n, 3));
  }

  class Level {
    var game: Singleton
    var scroll: ScrollInteractable
    var moodSwitch: MoodSwitchInteractable
    var monoliths: seq<MonolithInteractable>
    ghost var fired: set<int>   // the positions of the monoliths that have fired

    /** The count is the number of monoliths that have fired; one can only
        have fired once the scroll was taken; the ending was sent only at a
        count of three; and the cues other than ScrollGotten are the story up
        to the count, followed by the ending if the mood switch has fired. */
    ghost predicate Valid()
      reads this, game, moodSwitch, monoliths
    {
      (forall i, j :: 0 <= i < j < |monoliths| ==> monoliths[i] != monoliths[j]) &&
      |monoliths| <= Int32Max &&
      (forall j :: j in fired ==> 0 <= j < |monoliths|) &&
      (forall j :: 0 <= j < |monoliths| ==> (monoliths[j].activated <==> j in fired)) &&
      Accounted(game.eventsActivated, game.gottenScroll, game.effects, moodSwitch.activated, |fired|)
    }

    /** The level as authored: nothing has fired and nothing has been sent. */
    constructor (game: Singleton, scroll: ScrollInteractable, moodSwitch: MoodSwitchInteractable,
                 monoliths: seq<MonolithInteractable>)
      requires forall i, j :: 0 <= i < j < |monoliths| ==> monoliths[i] != monoliths[j]
      requires |monoliths| <= Int32Max
      requires forall j :: 0 <= j < |monoliths| ==> !monoliths[j].activated
      requires !moodSwitch.activated && game.eventsActivated == 0 && game.effects == []
      ensures Valid()
      ensures this.game == game && this.scroll == scroll && this.moodSwitch == moodSwitch
      ensures this.monoliths == monoliths
    {
      this.game := game;
      this.scroll := scroll;
      this.moodSwitch := moodSwitch;
      this.monoliths := monoliths;
      fired := {};
    }

    /** No more events are counted than there are monoliths, and the count
        never goes negative. */
    lemma EventsBounded()
      requires Valid()
      ensures 0 <= game.eventsActivated <= |monoliths|
    {
      IndicesBelow(fired, |monoliths|);
    }

    /** The ending has been sent exactly when the mood switch has fired, and
        then all three events came before it. */
    lemma EndComesLast()
      requires Valid()
      ensures End in game.effects <==> moodSwitch.activated
      ensures moodSwitch.activated ==> Plot(game.effects) == Story(3) + [End]
    {
      EndingMeansStoryTold(game.eventsActivated, game.gottenScroll, game.effects, moodSwitch.activated, |fired|);
    }

    method UpdateMonolith(j: int, keyDown: bool)
      requires Valid() && 0 <= j < |monoliths|
      modifies this`fired, monoliths[j], game
      ensures Valid()
    {
      var m := monoliths[j];
      var was := m.activated;
      ghost var n, effects := |fired|, game.effects;
      m.Update(keyDown, game);
      if m.activated && !was {
        assert j !in fired;
        IndicesBelow(fired + {j}, |monoliths|);
        MonolithStep(n, effects, moodSwitch.activated, n);
        assert game.eventsActivated == n + 1 && game.gottenScroll;
        assert game.effects == effects + EventEffects(n + 1);
        fired := fired + {j};
        assert |fired| == n + 1;
      } else {
        assert m.activated == was && unchanged(game);
      }
      assert forall i :: 0 <= i < |monoliths| && i != j ==> monoliths[i].activated == old(monoliths[i].activated);
    }

    method EnterMonolith(j: int, other: Collider)
      requires Valid() && 0 <= j < |monoliths|
      modifies monoliths[j]
      ensures Valid()
    {
      monoliths[j].OnTriggerEnter(other);
    }

    method ExitMonolith(j: int, other: Collider)
      requires Valid() && 0 <= j < |monoliths|
      modifies monoliths[j]
      ensures Valid()
    {
      monoliths[j].OnTriggerExit(other);
    }

    method UpdateMoodSwitch(keyDown: bool)
      requires Valid()
      modifies moodSwitch`activated, game
      ensures Valid()
    {
      ghost var effects := game.effects;
      var was := moodSwitch.activated;
      moodSwitch.Update(keyDown, game);
      if moodSwitch.activated && !was {
        EndingStep(3, game.gottenScroll, effects, |fired|);
      }
    }

    method EnterMoodSwitch(other: Collider)
      requires Valid()
      modifies moodSwitch`inRange
      ensures Valid()
    {
      moodSwitch.OnTriggerEnter(other);
    }

    method ExitMoodSwitch(other: Collider)
      requires Valid()
      modifies moodSwitch`inRange
      ensures Valid()
    {
      moodSwitch.OnTriggerExit(other);
    }

    method UpdateScroll(keyDown: bool)
      requires Valid()
      modifies game
      ensures Valid()
    {
      ghost var scrolls, effects := game.gottenScroll, game.effects;
      scroll.Update(keyDown, game);
      if game.effects != effects {
        ScrollStep(|fired|, scrolls, effects, moodSwitch.activated, |fired|);
      }
    }

    method EnterScroll(other: Collider)
      requires Valid()
      modifies scroll
      ensures Valid()
    {
      scroll.OnTriggerEnter(other);
    }

    method ExitScroll(other: Collider)
      requires Valid()
      modifies scroll
      ensures Valid()
    {
      scroll.OnTriggerExit(other);
    }
  }
}
