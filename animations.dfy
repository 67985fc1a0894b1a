/** Animation bookkeeping of `AnimationManager` (js/animations.js): which
    entrance animation an element gets, the scroll observer that animates
    each element at most once, the reveal transforms, the stagger and hero
    timer schedules, and teardown. Elements are identified by number;
    their class lists are given with each observer entry. */
module Animations {
  /** The classes the scroll observer looks for. */
  const Left := "scroll-animate-left"
  const Right := "scroll-animate-right"
  const Scale := "scroll-animate-scale"
  const StaggerClass := "stagger-animate"

  /** The animation types `animateElement` has a case for. */
  const HandledTypes: set<string> := {"fadeInUp", "fadeInLeft", "fadeInRight", "scaleIn", "stagger"}

  /** `getAnimationType`: the first of left, right, scale and stagger among
      the element's classes decides; with none of them it is `fadeInUp`. */
  function GetAnimationType(classes: set<string>): (r: string)
    ensures r in HandledTypes
    ensures r == "fadeInLeft" <==> Left in classes
    ensures r == "fadeInRight" <==> Right in classes && Left !in classes
    ensures r == "scaleIn" <==> Scale in classes && Left !in classes && Right !in classes
    ensures r == "stagger" <==>
      StaggerClass in classes && Scale !in classes && Left !in classes && Right !in classes
    ensures r == "fadeInUp" <==>
      StaggerClass !in classes && Scale !in classes && Left !in classes && Right !in classes
  {
    if Left in classes then "fadeInLeft"
    else if Right in classes then "fadeInRight"
    else if Scale in classes then "scaleIn"
    else if StaggerClass in classes then "stagger"
    else "fadeInUp"
  }

  /** What `animateElement` does to an element: slide it in from a start
      transform to an end transform (adding `animated` on the next frame),
      stagger its children, or only add `animated`. */
  datatype Effect = Slide(start: string, end: string) | StaggerChildren | MarkAnimated

  /** The `switch` of `animateElement`. */
  function AnimateElement(animationType: string): (e: Effect)
    ensures e == MarkAnimated <==> animationType !in HandledTypes
    ensures e == StaggerChildren <==> animationType == "stagger"
  {
    match animationType
    case "fadeInUp" => Slide("translateY(30px)", "translateY(0)")
    case "fadeInLeft" => Slide("translateX(-30px)", "translateX(0)")
    case "fadeInRight" => Slide("translateX(30px)", "translateX(0)")
    case "scaleIn" => Slide("scale(0.8)", "scale(1)")
    case "stagger" => StaggerChildren
    case _ => MarkAnimated
  }

  /** The default branch of `animateElement` is never taken for a type that
      `getAnimationType` chose, and every slide ends at rest. */
  lemma DefaultUnreachable(classes: set<string>)
    ensures AnimateElement(GetAnimationType(classes)) != MarkAnimated
    ensures AnimateElement(GetAnimationType(classes)).Slide? ==>
      AnimateElement(GetAnimationType(classes)).end in {"translateY(0)", "translateX(0)", "scale(1)"}
  {
  }

  /** The start transforms of `revealElement`. */
  const RevealTransforms: map<string, string> := map[
    "up" := "translateY(30px)",
    "down" := "translateY(-30px)",
    "left" := "translateX(-30px)",
    "right" := "translateX(30px)",
    "scale" := "scale(0.8)"
  ]

  /** The start transform for a direction; an unknown direction moves up. */
  function RevealTransform(direction: string): (t: string)
    ensures direction in RevealTransforms ==> t == RevealTransforms[direction]
    ensures direction !in RevealTransforms ==> t == RevealTransforms["up"]
  {
    if direction in RevealTransforms then RevealTransforms[direction] else RevealTransforms["up"]
  }

  /** What `revealElement` does: only make the element opaque, or fade it in
      from a start transform. */
  datatype Reveal = OpacityOnly | FadeFrom(transform: string)

  /** An observer entry: the element, its classes, and whether it
      intersects the viewport. */
  datatype Entry = Entry(target: nat, classes: set<string>, isIntersecting: bool)

  /** A hero timer: the element's place in the hero list and its delay. */
  datatype HeroTimer = HeroTimer(slot: nat, delay: int)

  const HeroSelectors: seq<string> :=
    [".hero-greeting", ".hero-title", ".hero-subtitle", ".hero-stats", ".hero-buttons", ".hero-image"]

  /** The targets of the intersecting entries among `entries`. */
  function IntersectingTargets(entries: seq<Entry>): (r: set<nat>)
    ensures forall t :: t in r <==> exists i | 0 <= i < |entries| :: entries[i].isIntersecting && entries[i].target == t
  {
    if entries == [] then {}
    else
      IntersectingTargets(entries[..|entries| - 1]) +
      (if entries[|entries| - 1].isIntersecting then {entries[|entries| - 1].target} else {})
  }

  /** The entry indices the scroll callback animates when it is handed
      `entries` while the elements in `seen` have already been animated:
      an intersecting entry whose element is in neither `seen` nor an
      earlier intersecting entry. Every index it picks names an
      intersecting entry whose element had not been seen. */
  function Observed(seen: set<nat>, entries: seq<Entry>): (r: seq<nat>)
    ensures forall k | 0 <= k < |r| ::
      r[k] < |entries| && entries[r[k]].isIntersecting && entries[r[k]].target !in seen
  {
    if entries == [] then []
    else
      var n := |entries| - 1;
      var before := Observed(seen, entries[..n]);
      if entries[n].isIntersecting && entries[n].target !in seen + IntersectingTargets(entries[..n])
      then before + [n] else before
  }

  /** The elements of the entries at `indices`. */
  function TargetsAt(entries: seq<Entry>, indices: seq<nat>): set<nat>
    requires forall k | 0 <= k < |indices| :: indices[k] < |entries|
  {
    if indices == [] then {}
    else TargetsAt(entries, indices[..|indices| - 1]) + {entries[indices[|indices| - 1]].target}
  }

  /** The indices in `a` rise and name entries with different elements. */
  predicate InOrderOnce(entries: seq<Entry>, a: seq<nat>)
    requires forall k | 0 <= k < |a| :: a[k] < |entries|
  {
    forall k, l | 0 <= k < l < |a| :: a[k] < a[l] && entries[a[k]].target != entries[a[l]].target
  }

  /** The animated entries come in order, and no element is animated twice
      in one callback. */
  lemma {:induction false} ObservedDistinct(seen: set<nat>, entries: seq<Entry>)
    ensures InOrderOnce(entries, Observed(seen, entries))
  {
    if entries != [] {
      var n := |entries| - 1;
      var front := entries[..n];
      var before := Observed(seen, front);
      ObservedDistinct(seen, front);
      var a := Observed(seen, entries);
      forall k, l | 0 <= k < l < |a|
        ensures a[k] < a[l] && entries[a[k]].target != entries[a[l]].target
      {
        assert front[before[k]] == entries[before[k]];
        if l < |before| {
          assert front[before[l]] == entries[before[l]];
        } else {
          assert a == before + [n];
          assert entries[before[k]].target in IntersectingTargets(front);
        }
      }
    }
  }

  /** The elements animated in one callback are exactly the intersecting
      ones not animated before: none is missed and none is repeated. */
  lemma {:induction false} ObservedTargets(seen: set<nat>, entries: seq<Entry>)
    ensures TargetsAt(entries, Observed(seen, entries)) == IntersectingTargets(entries) - seen
  {
    if entries != [] {
      var n := |entries| - 1;
      var front := entries[..n];
      var before := Observed(seen, front);
      ObservedTargets(seen, front);
      TargetsAtPrefix(entries, n, before);
      var a := Observed(seen, entries);
      if a != before {
        assert a[..|a| - 1] == before;
      }
    }
  }

  /** Indices below `n` pick the same elements from `entries` and from its
      first `n` entries. */
  lemma {:induction false} TargetsAtPrefix(entries: seq<Entry>, n: nat, indices: seq<nat>)
    requires n <= |entries|
    requires forall k | 0 <= k < |indices| :: indices[k] < n
    ensures TargetsAt(entries, indices) == TargetsAt(entries[..n], indices)
  {
    if indices != [] {
      TargetsAtPrefix(entries, n, indices[..|indices| - 1]);
    }
  }

  /** The hero timers set for the first `n` hero elements when those in
      `present` are on the page. */
  function HeroSchedule(present: set<string>, n: nat): seq<HeroTimer>
    requires n <= |HeroSelectors|
  {
    if n == 0 then []
    else
      HeroSchedule(present, n - 1) +
      (if HeroSelectors[n - 1] in present then [HeroTimer(n - 1, (n - 1) * 200)] else [])
  }

  /** Each hero timer waits 200 ms per place in the list; places come in
      order; and a place has a timer exactly when its element is present. */
  lemma {:induction false} HeroScheduleSlots(present: set<string>, n: nat)
    requires n <= |HeroSelectors|
    ensures var ts := HeroSchedule(present, n);
      && (forall k | 0 <= k < |ts| ::
            ts[k].slot < n && HeroSelectors[ts[k].slot] in present && ts[k].delay == 200 * ts[k].slot)
      && (forall k, l | 0 <= k < l < |ts| :: ts[k].slot < ts[l].slot)
      && (forall i | 0 <= i < n :: HeroTimer(i, 200 * i) in ts <==> HeroSelectors[i] in present)
  {
    if n > 0 {
      HeroScheduleSlots(present, n - 1);
      var ts := HeroSchedule(present, n);
      var before := HeroSchedule(present, n - 1);
      forall i | 0 <= i < n - 1
        ensures HeroTimer(i, 200 * i) in ts <==> HeroTimer(i, 200 * i) in before
      {
        if HeroTimer(i, 200 * i) in ts {
          var k :| 0 <= k < |ts| && ts[k] == HeroTimer(i, 200 * i);
          if k < |before| {
            assert before[k] == ts[k];
          }
        }
      }
    }
  }

  /** `delays[i] == i * step` for each of `count` timers. The schedule of
      `staggerAnimation` (step 100) and of `revealElements`. */
  method Delays(count: nat, step: int) returns (delays: seq<int>)
    ensures |delays| == count
    ensures forall i | 0 <= i < count :: delays[i] == i * step
  {
    delays := [];
    for i := 0 to count
      invariant |delays| == i
      invariant forall k | 0 <= k < i :: delays[k] == k * step
    {
      delays := delays + [i * step];
    }
  }

  class AnimationManager {
    const isReducedMotion: bool
    /** The keys of the `observers` map. */
    var observers: set<string>
    var animatedElements: set<nat>

    /** Only the scroll observer is ever registered, and never under
        reduced motion. */
    predicate Valid()
      reads this
    {
      observers <= {"scroll"} && (isReducedMotion ==> observers == {})
    }

    /** The constructor with `setupScrollAnimations`: the scroll observer
        is registered unless the user prefers reduced motion. */
    constructor (isReducedMotion: bool)
      ensures Valid()
      ensures this.isReducedMotion == isReducedMotion
      ensures observers == (if isReducedMotion then {} else {"scroll"})
      ensures animatedElements == {}
    {
      this.isReducedMotion := isReducedMotion;
      observers := if isReducedMotion then {} else {"scroll"};
      animatedElements := {};
    }

    /** The scroll observer's callback: each intersecting entry whose
        element has not been animated yet is animated and remembered.
        Returns the indices of the entries that were animated, in order,
        and the effect `animateElement` gave each one's element. */
    method OnScrollEntries(entries: seq<Entry>) returns (animated: seq<nat>, effects: seq<Effect>)
      requires Valid() && "scroll" in observers
      modifies this
      ensures Valid() && observers == old(observers)
      ensures animated == Observed(old(animatedElements), entries)
      ensures animatedElements == old(animatedElements) + IntersectingTargets(entries)
      ensures |effects| == |animated|
      ensures forall k | 0 <= k < |animated| :: effects[k] == EffectOf(entries[animated[k]])
    {
      animated := [];
      effects := [];
      for i := 0 to |entries|
        invariant observers == old(observers)
        invariant animated == Observed(old(animatedElements), entries[..i])
        invariant animatedElements == old(animatedElements) + IntersectingTargets(entries[..i])
        invariant |effects| == |animated|
        invariant forall k | 0 <= k < |animated| :: animated[k] < i && effects[k] == EffectOf(entries[animated[k]])
      {
        var entry := entries[i];
        assert entries[..i + 1][..i] == entries[..i];
        if entry.isIntersecting && entry.target !in animatedElements {
          animated := animated + [i];
          effects := effects + [EffectOf(entry)];
          animatedElements := animatedElements + {entry.target};
        }
      }
      assert entries[..|entries|] == entries;
    }

    /** The effect the callback has on the element of an animated entry. */
    function EffectOf(entry: Entry): (e: Effect)
      ensures e != MarkAnimated
    {
      DefaultUnreachable(entry.classes);
      AnimateElement(GetAnimationType(entry.classes))
    }

    /** `staggerAnimation`: child `i` of the element fades in after
        `i * 100` ms. */
    method StaggerAnimation(childCount: nat) returns (delays: seq<int>)
      ensures |delays| == childCount
      ensures forall i | 0 <= i < childCount :: delays[i] == i * 100
    {
      delays := Delays(childCount, 100);
    }

    /** `animateHeroSection`: nothing under reduced motion; otherwise a timer
        for each hero element present on the page, in list order, at
        `200` ms per place in the list, so a missing element leaves a gap. */
    method AnimateHeroSection(present: set<string>) returns (timers: seq<HeroTimer>)
      ensures timers == if isReducedMotion then [] else HeroSchedule(present, |HeroSelectors|)
    {
      timers := [];
      if isReducedMotion {
        return;
      }
      for index := 0 to |HeroSelectors|
        invariant timers == HeroSchedule(present, index)
      {
        if HeroSelectors[index] in present {
          timers := timers + [HeroTimer(index, index * 200)];
        }
      }
    }

    /** `revealElement`: only opacity under reduced motion, otherwise a fade
        from the direction's start transform. */
    function RevealElement(direction: string): (r: Reveal)
      ensures r == OpacityOnly <==> isReducedMotion
      ensures r.FadeFrom? ==> r.transform == RevealTransform(direction)
    {
      if isReducedMotion then OpacityOnly else FadeFrom(RevealTransform(direction))
    }

    /** `revealElements`: element `i` is revealed from below after
        `i * stagger` ms, 100 ms apart unless told otherwise. */
    method RevealElements(count: nat, stagger: int := 100) returns (delays: seq<int>, effect: Reveal)
      ensures |delays| == count
      ensures forall i | 0 <= i < count :: delays[i] == i * stagger
      ensures effect == RevealElement("up")
    {
      delays := Delays(count, stagger);
      effect := RevealElement("up");
    }

    /** `destroy`: every observer is disconnected and forgotten, and the
        record of animated elements is cleared. */
    method Destroy()
      requires Valid()
      modifies this
      ensures Valid()
      ensures observers == {} && animatedElements == {}
    {
      observers := {};
      animatedElements := {};
    }
  }
}
