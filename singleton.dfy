/**
 * The game-progression singleton: whether the scroll has been taken, how many
 * monoliths have been activated, and the cues it sends to the timeline and the
 * three particle systems. The timeline and the particle systems are not
 * modelled; each call into them is one entry of the effects trace.
 */
module Progress {
  import opened Unity

  /** One call into the timeline manager or one particle system's Play. */
  datatype Effect =
    | ScrollGotten        // timeline.ScrollGotten()
    | Event1 | Event2 | Event3
    | Particle1 | Particle2 | Particle3
    | End                 // timeline.End()

  /** The cues IncreaseEvents sends when the count has just become n: the
      matching timeline event and particle system for 1, 2 and 3, nothing for
      any other count. */
  function EventEffects(n: int): (es: seq<Effect>)
    ensures 1 <= n <= 3 <==> |es| == 2
    ensures es == [] || es[0] in {Event1, Event2, Event3}
    ensures es in {[], [Event1, Particle1], [Event2, Particle2], [Event3, Particle3]}
  {
    if n == 1 then [Event1, Particle1]
    else if n == 2 then [Event2, Particle2]
    else if n == 3 then [Event3, Particle3]
    else []
  }

  function Min(a: int, b: int): int {
    if a <= b then a else b
  }

  /** The first n steps of the story, two cues per step. */
  function Story(n: nat): (es: seq<Effect>)
    requires n <= 3
    ensures |es| == 2 * n
  {
    [Event1, Particle1, Event2, Particle2, Event3, Particle3][..2 * n]
  }

  /** The cues sent by n increments from zero, in order. */
  function Emitted(n: nat): seq<Effect> {
    if n == 0 then [] else Emitted(n - 1) + EventEffects(n)
  }

  /** Raising the count from n to n + 1 extends the story by the next step,
      and by nothing once all three steps have been told. */
  lemma StoryStep(n: nat)
    ensures Story(Min(n, 3)) + EventEffects(n + 1) == Story(Min(n + 1, 3))
  {
    var all := [Event1, Particle1, Event2, Particle2, Event3, Particle3];
    if n < 3 {
      assert all[..2 * n + 2] == all[..2 * n] + all[2 * n..2 * n + 2];
    }
  }

  /** However many times the count is raised from zero, the cues sent are the
      story up to step three, each step once and in order. */
  lemma {:induction false} EmittedIsStory(n: nat)
    ensures Emitted(n) == Story(Min(n, 3))
  {
    if n > 0 {
      EmittedIsStory(n - 1);
      StoryStep(n - 1);
    }
  }

  /** The effects other than ScrollGotten, in order. */
  function Plot(es: seq<Effect>): (p: seq<Effect>)
    ensures |p| <= |es|
  {
    if |es| == 0 then []
    else Plot(es[..|es| - 1]) + (if es[|es| - 1] == ScrollGotten then [] else [es[|es| - 1]])
  }

  lemma {:induction false} PlotAppend(a: seq<Effect>, b: seq<Effect>)
    ensures Plot(a + b) == Plot(a) + Plot(b)
    decreases |b|
  {
    if |b| > 0 {
      var n := |b| - 1;
      assert (a + b)[..|a + b| - 1] == a + b[..n];
      PlotAppend(a, b[..n]);
    } else {
      assert a + b == a;
    }
  }

  /** Plot keeps every effect except ScrollGotten. */
  lemma {:induction false} PlotMembership(es: seq<Effect>, e: Effect)
    requires e != ScrollGotten
    ensures e in Plot(es) <==> e in es
  {
    if |es| > 0 {
      var n := |es| - 1;
      PlotMembership(es[..n], e);
      assert es == es[..n] + [es[n]];
    }
  }

  class Singleton {
    var gottenScroll: bool
    var eventsActivated: int    // a C# int
    var effects: seq<Effect>    // calls into the timeline and the particle systems

    constructor ()
      ensures !gottenScroll && eventsActivated == 0 && effects == []
    {
      gottenScroll, eventsActivated, effects := false, 0, [];
    }

    method HasGottenScroll() returns (b: bool)
      ensures b == gottenScroll
    {
      b := gottenScroll;
    }

    /** The scroll is taken: the flag is set and the timeline told, on every
        call, including repeated ones. */
    method ReceiveScroll()
      modifies this
      ensures gottenScroll
      ensures eventsActivated == old(eventsActivated)
      ensures effects == old(effects) + [ScrollGotten]
    {
      gottenScroll := true;
      effects := effects + [ScrollGotten];
    }

    method GetActivatedEvents() returns (n: int)
      ensures n == eventsActivated
    {
      n := eventsActivated;
    }

    /** One more monolith is activated; the new count selects the cues. The
        increment is C#'s unchecked int addition. */
    method IncreaseEvents()
      modifies this
      ensures eventsActivated == Int32(old(eventsActivated) + 1)
      ensures gottenScroll == old(gottenScroll)
      ensures effects == old(effects) + EventEffects(eventsActivated)
    {
      eventsActivated := Int32(eventsActivated + 1);
      if eventsActivated == 1 {
        effects := effects + [Event1, Particle1];
      } else if eventsActivated == 2 {
        effects := effects + [Event2, Particle2];
      } else if eventsActivated == 3 {
        effects := effects + [Event3, Particle3];
      }
    }

    /** The ending: the timeline is told, whatever the state. */
    method MoodSwitch()
      modifies this
      ensures gottenScroll == old(gottenScroll) && eventsActivated == old(eventsActivated)
      ensures effects == old(effects) + [End]
    {
      effects := effects + [End];
    }
  }

  /** The static Singleton.Instance and the components Awake destroys. */
  class Registry {
    var instance: Option<Singleton>
    var destroyed: set<Singleton>

    constructor ()
      ensures instance.None? && destroyed == {}
    {
      instance, destroyed := None, {};
    }

    /** The first singleton to wake registers itself; a different one waking
        later is destroyed and the registered instance stays. */
    method Awake(s: Singleton)
      modifies this
      ensures instance.Some?
      ensures old(instance).Some? && old(instance).value != s ==>
                instance == old(instance) && destroyed == old(destroyed) + {s}
      ensures old(instance).None? || old(instance).value == s ==>
                instance == Some(s) && destroyed == old(destroyed)
    {
      if instance.Some? && instance.value != s {
        destroyed := destroyed + {s};
      } else {
        instance := Some(s);
      }
    }
  }
}
