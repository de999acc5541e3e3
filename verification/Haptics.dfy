/** Vibration patterns for the browser: on and off times in turn, with intensity played as a
    share of every 20 ms. The browser buzzes at the even positions and rests at the odd ones. */
module Haptics {
  import opened Options

  const PWM_CYCLE := 20

  datatype Vibration = Vibration(duration: nat, intensity: Option<real>, delay: Option<int>)

  /** One entry of a pattern, by what its milliseconds were meant for. */
  datatype Segment = Segment(on: nat, off: nat)

  /** `Math.round`. */
  function Round(x: real): int {
    (x + 0.5).Floor
  }

  function Max(a: int, b: int): int {
    if a < b then b else a
  }

  /** The milliseconds to buzz for out of `span`: never none at all. */
  function Share(span: nat, intensity: real): int {
    Max(1, Round(Wanted(span, intensity)))
  }

  /** The buzzing a span of time asks for. */
  function Wanted(span: nat, intensity: real): real {
    span as real * intensity
  }

  lemma ShareFits(span: nat, intensity: real)
    requires 0.0 < intensity < 1.0 && 0 < span
    ensures 1 <= Share(span, intensity) <= span
    ensures -1.0 < Share(span, intensity) as real - Wanted(span, intensity) < 1.0
  {
    assert 0.0 < Wanted(span, intensity) < span as real;
  }

  /** The share is the whole number nearest to what is asked for, upwards in the middle, and never none. */
  lemma ShareIsNearest(span: nat, intensity: real, ms: int)
    ensures var asked := span as real * intensity;
            Share(span, intensity) == ms <==>
              || (asked < 1.5 && ms == 1)
              || (1.5 <= asked && asked - 0.5 < ms as real <= asked + 0.5)
  {
  }

  /** One vibration below full and above no intensity, cycle by cycle. */
  function Cycles(remaining: nat, intensity: real): seq<Segment>
    requires 0.0 < intensity < 1.0
  {
    if remaining >= PWM_CYCLE then
      ShareFits(PWM_CYCLE, intensity);
      var on := Share(PWM_CYCLE, intensity);
      [Segment(on, 0), Segment(0, PWM_CYCLE - on)] + Cycles(remaining - PWM_CYCLE, intensity)
    else if remaining > 0 then
      ShareFits(remaining, intensity);
      var on := Share(remaining, intensity);
      if on < remaining then [Segment(on, 0), Segment(0, remaining - on)] else [Segment(on, 0)]
    else []
  }

  lemma NextCycle(remaining: nat, intensity: real)
    requires 0.0 < intensity < 1.0 && PWM_CYCLE <= remaining
    ensures var on := Share(PWM_CYCLE, intensity);
            && 1 <= on <= PWM_CYCLE
            && Cycles(remaining, intensity)
            == [Segment(on, 0), Segment(0, PWM_CYCLE - on)] + Cycles(remaining - PWM_CYCLE, intensity)
  {
    ShareFits(PWM_CYCLE, intensity);
    hide Share;
  }

  lemma LastCycle(remaining: nat, intensity: real)
    requires 0.0 < intensity < 1.0 && 0 < remaining < PWM_CYCLE
    ensures var on := Share(remaining, intensity);
            && 1 <= on <= remaining
            && Cycles(remaining, intensity)
            == if on < remaining then [Segment(on, 0), Segment(0, remaining - on)] else [Segment(on, 0)]
  {
    ShareFits(remaining, intensity);
    hide Share;
  }

  lemma NoCycles(intensity: real)
    requires 0.0 < intensity < 1.0
    ensures Cycles(0, intensity) == []
  {
  }

  function Modulated(duration: nat, intensity: real): seq<Segment> {
    if intensity >= 1.0 then [Segment(duration, 0)]
    else if intensity <= 0.0 then []
    else Cycles(duration, intensity)
  }

  function Intensity(v: Vibration, usual: real): real {
    var wanted := if v.intensity.Some? then v.intensity.value else usual;
    if wanted < 0.0 then 0.0 else if wanted > 1.0 then 1.0 else wanted
  }

  function Delay(v: Vibration): nat {
    if v.delay.Some? && v.delay.value > 0 then v.delay.value else 0
  }

  /** Without an intensity of its own a vibration has the usual one, and both are held between none and
      full. A delay only counts if it is positive. */
  lemma SettingsTaken(v: Vibration, usual: real, d: int)
    ensures v.intensity.Some? && 0.0 <= v.intensity.value <= 1.0 ==> Intensity(v, usual) == v.intensity.value
    ensures v.intensity.None? ==> Intensity(v, usual) == Intensity(v.(intensity := Some(usual)), usual)
    ensures v.intensity.Some? && v.intensity.value < 0.0 ==> Intensity(v, usual) == 0.0
    ensures v.intensity.Some? && 1.0 < v.intensity.value ==> Intensity(v, usual) == 1.0
    ensures Delay(v) == d <==> (v.delay == Some(d) && 0 < d) || (d == 0 && (v.delay.None? || v.delay.value <= 0))
  {
  }

  /** Rest added to the last entry. */
  function Rested(pattern: seq<Segment>, ms: nat): seq<Segment>
    requires pattern != []
  {
    var last := pattern[|pattern| - 1];
    pattern[..|pattern| - 1] + [last.(off := last.off + ms)]
  }

  /** The pause before a vibration: part of a rest the pattern ends with, or an entry of its own. */
  function Paused(pattern: seq<Segment>, ms: nat): seq<Segment> {
    if ms == 0 then pattern
    else if pattern == [] then [Segment(0, 0), Segment(0, ms)]
    else if |pattern| % 2 == 0 then Rested(pattern, ms)
    else pattern + [Segment(0, ms)]
  }

  /** A vibration that is not felt: its time is rest. */
  function Silent(pattern: seq<Segment>, ms: nat): seq<Segment> {
    if pattern != [] && |pattern| % 2 == 0 then Rested(pattern, ms)
    else if ms > 0 then pattern + [Segment(0, 0), Segment(0, ms)]
    else pattern
  }

  function Played(pattern: seq<Segment>, v: Vibration, usual: real): seq<Segment> {
    var paused := Paused(pattern, Delay(v));
    var pulses := Modulated(v.duration, Intensity(v, usual));
    if pulses == [] then Silent(paused, v.duration) else paused + pulses
  }

  /** The pattern of `toVibratePattern`, remembering what each millisecond was meant for. */
  function Pattern(vs: seq<Vibration>, usual: real): seq<Segment> {
    if vs == [] then []
    else Played(Pattern(vs[..|vs| - 1], usual), vs[|vs| - 1], usual)
  }

  /** The numbers handed to the browser. */
  function Times(pattern: seq<Segment>): seq<int> {
    seq(|pattern|, i requires 0 <= i < |pattern| => pattern[i].on + pattern[i].off)
  }

  function Sum(xs: seq<int>): int {
    if xs == [] then 0 else Sum(xs[..|xs| - 1]) + xs[|xs| - 1]
  }

  function OnTime(pattern: seq<Segment>): nat {
    if pattern == [] then 0 else OnTime(pattern[..|pattern| - 1]) + pattern[|pattern| - 1].on
  }

  function OffTime(pattern: seq<Segment>): nat {
    if pattern == [] then 0 else OffTime(pattern[..|pattern| - 1]) + pattern[|pattern| - 1].off
  }

  /** How long the browser buzzes. */
  function BuzzTime(times: seq<int>): int {
    if times == [] then 0
    else BuzzTime(times[..|times| - 1]) + if |times| % 2 == 1 then times[|times| - 1] else 0
  }

  /** The time a list of vibrations asks for, pauses included. */
  function Asked(vs: seq<Vibration>): nat {
    if vs == [] then 0
    else Asked(vs[..|vs| - 1]) + Delay(vs[|vs| - 1]) + vs[|vs| - 1].duration
  }

  /** The time it should buzz, each vibration at its own intensity. */
  function Felt(vs: seq<Vibration>, usual: real): nat {
    if vs == [] then 0
    else
      var v := vs[|vs| - 1];
      Felt(vs[..|vs| - 1], usual) + OnTime(Modulated(v.duration, Intensity(v, usual)))
  }

  /** Every millisecond is played as what it was meant for. */
  predicate InPhase(pattern: seq<Segment>) {
    forall i :: 0 <= i < |pattern| ==> if i % 2 == 0 then pattern[i].off == 0 else pattern[i].on == 0
  }

  lemma {:induction false} OnTimeJoin(p: seq<Segment>, q: seq<Segment>)
    ensures OnTime(p + q) == OnTime(p) + OnTime(q)
    ensures OffTime(p + q) == OffTime(p) + OffTime(q)
  {
    if q == [] {
      assert p + q == p;
    } else {
      OnTimeJoin(p, q[..|q| - 1]);
      assert (p + q)[..|p + q| - 1] == p + q[..|q| - 1];
    }
  }

  lemma {:induction false} TimesSum(p: seq<Segment>)
    ensures Sum(Times(p)) == OnTime(p) + OffTime(p)
  {
    if p != [] {
      TimesSum(p[..|p| - 1]);
      assert Times(p)[..|p| - 1] == Times(p[..|p| - 1]);
    }
  }

  lemma {:induction false} PhaseBuzz(p: seq<Segment>)
    requires InPhase(p)
    ensures BuzzTime(Times(p)) == OnTime(p)
  {
    if p != [] {
      PhaseBuzz(p[..|p| - 1]);
      assert Times(p)[..|p| - 1] == Times(p[..|p| - 1]);
    }
  }

  lemma RestedTimes(p: seq<Segment>, ms: nat)
    requires p != []
    ensures OnTime(Rested(p, ms)) == OnTime(p) && OffTime(Rested(p, ms)) == OffTime(p) + ms
  {
    assert Rested(p, ms)[..|p| - 1] == p[..|p| - 1];
  }

  lemma PairTimes(a: Segment, b: Segment)
    ensures OnTime([a]) == a.on && OffTime([a]) == a.off
    ensures OnTime([a, b]) == a.on + b.on && OffTime([a, b]) == a.off + b.off
  {
    assert [a][..0] == [] && [a, b][..1] == [a];
  }

  lemma PausedTimes(p: seq<Segment>, ms: nat)
    ensures OnTime(Paused(p, ms)) == OnTime(p) && OffTime(Paused(p, ms)) == OffTime(p) + ms
  {
    PairTimes(Segment(0, ms), Segment(0, ms));
    PairTimes(Segment(0, 0), Segment(0, ms));
    if p != [] {
      RestedTimes(p, ms);
      OnTimeJoin(p, [Segment(0, ms)]);
    }
  }

  lemma SilentTimes(p: seq<Segment>, ms: nat)
    ensures OnTime(Silent(p, ms)) == OnTime(p) && OffTime(Silent(p, ms)) == OffTime(p) + ms
  {
    PairTimes(Segment(0, 0), Segment(0, ms));
    OnTimeJoin(p, [Segment(0, 0), Segment(0, ms)]);
    if p != [] {
      RestedTimes(p, ms);
    }
  }

  /** Cutting a vibration into cycles keeps its length. */
  lemma {:induction false} CyclesTimes(remaining: nat, intensity: real)
    requires 0.0 < intensity < 1.0
    ensures OnTime(Cycles(remaining, intensity)) + OffTime(Cycles(remaining, intensity)) == remaining
  {
    if remaining >= PWM_CYCLE {
      CyclesTimes(remaining - PWM_CYCLE, intensity);
      NextCycle(remaining, intensity);
      hide Share, Cycles, OnTime, OffTime;
      CycleTimes(Share(PWM_CYCLE, intensity), Cycles(remaining - PWM_CYCLE, intensity));
    } else if remaining > 0 {
      LastCycle(remaining, intensity);
      var on := Share(remaining, intensity);
      hide Share, Cycles, OnTime, OffTime;
      PairTimes(Segment(on, 0), Segment(0, remaining - on));
    } else {
      NoCycles(intensity);
      hide Share, Cycles;
    }
  }

  lemma CycleTimes(on: nat, rest: seq<Segment>)
    requires on <= PWM_CYCLE
    ensures var cycles := [Segment(on, 0), Segment(0, PWM_CYCLE - on)] + rest;
            && OnTime(cycles) == on + OnTime(rest)
            && OffTime(cycles) == PWM_CYCLE - on + OffTime(rest)
  {
    hide OnTime, OffTime;
    PairTimes(Segment(on, 0), Segment(0, PWM_CYCLE - on));
    OnTimeJoin([Segment(on, 0), Segment(0, PWM_CYCLE - on)], rest);
  }

  lemma ModulatedTimes(duration: nat, intensity: real)
    ensures Modulated(duration, intensity) != []
        ==> OnTime(Modulated(duration, intensity)) + OffTime(Modulated(duration, intensity)) == duration
    ensures Modulated(duration, intensity) == [] ==> duration == 0 || intensity <= 0.0
  {
    if intensity >= 1.0 {
      PairTimes(Segment(duration, 0), Segment(0, 0));
    } else if 0.0 < intensity {
      CyclesTimes(duration, intensity);
    }
  }

  /** Playing one more vibration adds its buzzing and the rest of its time. */
  lemma PlayedTimes(p: seq<Segment>, v: Vibration, usual: real)
    ensures var pulses := Modulated(v.duration, Intensity(v, usual));
            && OnTime(Played(p, v, usual)) == OnTime(p) + OnTime(pulses)
            && OnTime(Played(p, v, usual)) + OffTime(Played(p, v, usual))
            == OnTime(p) + OffTime(p) + Delay(v) + v.duration
  {
    var paused, pulses := Paused(p, Delay(v)), Modulated(v.duration, Intensity(v, usual));
    PausedTimes(p, Delay(v));
    SilentTimes(paused, v.duration);
    ModulatedTimes(v.duration, Intensity(v, usual));
    OnTimeJoin(paused, pulses);
  }

  /** A pattern lasts exactly as long as its vibrations and their pauses, whatever they are. */
  lemma {:induction false} TimeConserved(vs: seq<Vibration>, usual: real)
    ensures Sum(Times(Pattern(vs, usual))) == Asked(vs)
    ensures OnTime(Pattern(vs, usual)) == Felt(vs, usual)
  {
    TimesSum(Pattern(vs, usual));
    if vs != [] {
      var before, v := vs[..|vs| - 1], vs[|vs| - 1];
      TimeConserved(before, usual);
      TimesSum(Pattern(before, usual));
      PlayedTimes(Pattern(before, usual), v, usual);
    }
  }

  /** Is what is left of a vibration after its full cycles all buzz? */
  predicate AllOn(rest: nat, intensity: real) {
    rest != 0 && Share(rest, intensity) == rest
  }

  /** Does a vibration that starts at a buzz position leave off at the end of a buzz? */
  predicate EndsBuzzing(v: Vibration, usual: real) {
    var intensity := Intensity(v, usual);
    intensity >= 1.0 || (0.0 < intensity && AllOn(v.duration % PWM_CYCLE, intensity))
  }

  /** Is the last thing in the list the end of a buzz, so that the next entry is a rest? */
  predicate Buzzing(vs: seq<Vibration>, usual: real) {
    if vs == [] then false
    else
      var v := vs[|vs| - 1];
      var open := Buzzing(vs[..|vs| - 1], usual) && Delay(v) == 0;
      if EndsBuzzing(v, usual) then !open else open
  }

  /** After the end of a buzz, a vibration that takes time has to be set off by a pause. */
  predicate Spaced(vs: seq<Vibration>, usual: real) {
    forall k :: 0 <= k < |vs| ==>
      (Buzzing(vs[..k], usual) && 0 < vs[k].duration ==> 0 < Delay(vs[k]))
  }

  /** A run of cycles is in phase, begins with a buzz and may end with one. */
  predicate Shaped(cycles: seq<Segment>, remaining: nat, intensity: real) {
    && InPhase(cycles)
    && (|cycles| % 2 == 1 <==> AllOn(remaining % PWM_CYCLE, intensity))
    && (0 < remaining ==> cycles != [] && 0 < cycles[0].on)
  }

  lemma {:induction false} CyclesShape(remaining: nat, intensity: real)
    requires 0.0 < intensity < 1.0
    ensures Shaped(Cycles(remaining, intensity), remaining, intensity)
  {
    hide Share, Cycles, Shaped;
    if remaining >= PWM_CYCLE {
      CyclesShape(remaining - PWM_CYCLE, intensity);
      ShapedMore(remaining, intensity);
    } else if remaining > 0 {
      ShapedLast(remaining, intensity);
    } else {
      ShapedNone(intensity);
    }
  }

  lemma ShapedMore(remaining: nat, intensity: real)
    requires 0.0 < intensity < 1.0 && PWM_CYCLE <= remaining
    requires Shaped(Cycles(remaining - PWM_CYCLE, intensity), remaining - PWM_CYCLE, intensity)
    ensures Shaped(Cycles(remaining, intensity), remaining, intensity)
  {
    NextCycle(remaining, intensity);
    hide Share, Cycles, InPhase, AllOn;
    OneMoreCycle(Share(PWM_CYCLE, intensity), Cycles(remaining - PWM_CYCLE, intensity));
    SameRest(remaining);
  }

  lemma ShapedLast(remaining: nat, intensity: real)
    requires 0.0 < intensity < 1.0 && 0 < remaining < PWM_CYCLE
    ensures Shaped(Cycles(remaining, intensity), remaining, intensity)
  {
    LastCycle(remaining, intensity);
    hide Share, Cycles;
    assert remaining % PWM_CYCLE == remaining;
  }

  lemma ShapedNone(intensity: real)
    requires 0.0 < intensity < 1.0
    ensures Shaped(Cycles(0, intensity), 0, intensity)
  {
    NoCycles(intensity);
    hide Share, Cycles;
  }

  lemma SameRest(remaining: nat)
    requires PWM_CYCLE <= remaining
    ensures remaining % PWM_CYCLE == (remaining - PWM_CYCLE) % PWM_CYCLE
  {
  }

  lemma OneMoreCycle(on: nat, rest: seq<Segment>)
    requires 1 <= on <= PWM_CYCLE && InPhase(rest)
    ensures var cycles := [Segment(on, 0), Segment(0, PWM_CYCLE - on)] + rest;
            InPhase(cycles) && cycles[0].on == on && |cycles| % 2 == |rest| % 2
  {
    EvenJoin([Segment(on, 0), Segment(0, PWM_CYCLE - on)], rest);
  }

  lemma EvenJoin(p: seq<Segment>, q: seq<Segment>)
    requires InPhase(p) && InPhase(q) && |p| % 2 == 0
    ensures InPhase(p + q)
  {
    var r := p + q;
    forall i | |p| <= i < |r|
      ensures if i % 2 == 0 then r[i].off == 0 else r[i].on == 0
    {
      assert r[i] == q[i - |p|];
    }
  }

  /** One more vibration: the parity of the pattern, and whether it stays in phase. */
  lemma PlayedShape(p: seq<Segment>, v: Vibration, usual: real)
    requires InPhase(p)
    ensures var open := |p| % 2 == 1 && Delay(v) == 0;
            && (InPhase(Played(p, v, usual)) <==> !(open && 0 < v.duration))
            && (InPhase(Played(p, v, usual)) ==>
                  (|Played(p, v, usual)| % 2 == 1 <==> if EndsBuzzing(v, usual) then !open else open))
  {
    var paused, intensity := Paused(p, Delay(v)), Intensity(v, usual);
    PausedShape(p, Delay(v));
    hide Paused, Intensity, AllOn, Cycles, InPhase, Delay, Silent;
    if intensity <= 0.0 {
      SilentShape(paused, v.duration);
    } else if intensity >= 1.0 {
      FullShape(paused, v.duration);
    } else {
      CyclesShape(v.duration, intensity);
      if v.duration == 0 {
        SilentShape(paused, 0);
        NoCycles(intensity);
      } else if |paused| % 2 == 0 {
        EvenJoin(paused, Cycles(v.duration, intensity));
      } else {
        OddJoin(paused, Cycles(v.duration, intensity));
      }
    }
  }

  lemma PausedShape(p: seq<Segment>, ms: nat)
    requires InPhase(p)
    ensures InPhase(Paused(p, ms)) && (|Paused(p, ms)| % 2 == 1 <==> |p| % 2 == 1 && ms == 0)
  {
  }

  lemma FullShape(p: seq<Segment>, ms: nat)
    requires InPhase(p)
    ensures InPhase(p + [Segment(ms, 0)]) <==> !(|p| % 2 == 1 && 0 < ms)
  {
    assert (p + [Segment(ms, 0)])[|p|].on == ms;
  }

  lemma SilentShape(p: seq<Segment>, ms: nat)
    requires InPhase(p)
    ensures InPhase(Silent(p, ms)) <==> !(|p| % 2 == 1 && 0 < ms)
    ensures |Silent(p, ms)| % 2 == |p| % 2
  {
    if |p| % 2 == 1 && 0 < ms {
      assert Silent(p, ms)[|p| + 1].off == ms;
    }
  }

  lemma OddJoin(p: seq<Segment>, q: seq<Segment>)
    requires |p| % 2 == 1 && q != [] && q[0].on != 0
    ensures !InPhase(p + q)
  {
    assert (p + q)[|p|] == q[0];
  }

  /** Once a millisecond sits at the wrong kind of position, later vibrations leave it there. */
  lemma OutOfPhaseStays(p: seq<Segment>, v: Vibration, usual: real)
    requires !InPhase(p)
    ensures !InPhase(Played(p, v, usual))
  {
    var i :| 0 <= i < |p| && !(if i % 2 == 0 then p[i].off == 0 else p[i].on == 0);
    var q := Played(p, v, usual);
    hide Modulated, Intensity, Delay;
    assert |p| <= |q| && p[i].on <= q[i].on && p[i].off <= q[i].off;
  }

  /** Buzzing is felt when it is meant to be, and only then, exactly when every vibration that
      follows the end of a buzz is set off by a pause. Then the browser buzzes just as long as
      the vibrations ask for. */
  lemma {:induction false} InPhaseIffSpaced(vs: seq<Vibration>, usual: real)
    ensures InPhase(Pattern(vs, usual)) <==> Spaced(vs, usual)
    ensures Spaced(vs, usual) ==> (|Pattern(vs, usual)| % 2 == 1 <==> Buzzing(vs, usual))
    ensures Spaced(vs, usual) ==> BuzzTime(Times(Pattern(vs, usual))) == Felt(vs, usual)
  {
    if vs != [] {
      var before, v := vs[..|vs| - 1], vs[|vs| - 1];
      InPhaseIffSpaced(before, usual);
      SpacedStep(vs, usual);
      hide Played, Spaced, EndsBuzzing, InPhase;
      if InPhase(Pattern(before, usual)) {
        PlayedShape(Pattern(before, usual), v, usual);
      } else {
        OutOfPhaseStays(Pattern(before, usual), v, usual);
      }
    }
    TimeConserved(vs, usual);
    if InPhase(Pattern(vs, usual)) {
      PhaseBuzz(Pattern(vs, usual));
    }
  }

  lemma SpacedStep(vs: seq<Vibration>, usual: real)
    requires vs != []
    ensures var before, v := vs[..|vs| - 1], vs[|vs| - 1];
            Spaced(vs, usual)
            <==> Spaced(before, usual) && (Buzzing(before, usual) && 0 < v.duration ==> 0 < Delay(v))
  {
    var before := vs[..|vs| - 1];
    assert forall k :: 0 <= k < |before| ==> before[..k] == vs[..k] && before[k] == vs[k];
    hide Buzzing;
  }

  /** A pause before every vibration but the first is enough. */
  lemma PausesSuffice(vs: seq<Vibration>, usual: real)
    requires forall k :: 1 <= k < |vs| ==> 0 < Delay(vs[k])
    ensures InPhase(Pattern(vs, usual))
    ensures BuzzTime(Times(Pattern(vs, usual))) == Felt(vs, usual)
  {
    InPhaseIffSpaced(vs, usual);
    assert Buzzing(vs[..0], usual) == false;
  }

  /** Without a pause, a vibration of no intensity after a full one is felt as a buzz: here for
      12 ms where 5 are asked for. */
  lemma SilenceBuzzes()
    ensures var vs := [Vibration(5, Some(1.0), None), Vibration(7, Some(0.0), None)];
            Felt(vs, 0.5) == 5 && BuzzTime(Times(Pattern(vs, 0.5))) == 12
  {
    var a, b := Vibration(5, Some(1.0), None), Vibration(7, Some(0.0), None);
    var vs := [a, b];
    assert vs[..1] == [a] && [a][..0] == [];
    PairTimes(Segment(5, 0), Segment(0, 0));
    assert Pattern([a], 0.5) == [Segment(5, 0)];
    var p := Pattern(vs, 0.5);
    assert p == [Segment(5, 0), Segment(0, 0), Segment(0, 7)];
    var t := Times(p);
    assert t == [5, 0, 7] && t[..2] == [5, 0] && [5, 0][..1] == [5];
    assert BuzzTime([5]) == 5 && BuzzTime([5, 0]) == 5;
  }

  predicate Within(ms: int, wanted: real, bound: nat) {
    bound > 0 && -(bound as real) < ms as real - wanted < bound as real
  }

  lemma WithinAdds(a: int, b: int, x: real, y: real, m: nat, n: nat)
    requires Within(a, x, m) && Within(b, y, n)
    ensures Within(a + b, x + y, m + n)
  {
  }

  function StartedCycles(duration: nat): nat {
    (duration + PWM_CYCLE - 1) / PWM_CYCLE
  }

  /** Some buzzing in every cycle begun, and in all as much as the intensity asks for to within
      a millisecond a cycle; no vibration at all is no buzzing. */
  predicate Kept(duration: nat, intensity: real)
    requires 0.0 < intensity < 1.0
  {
    var on, begun := OnTime(Cycles(duration, intensity)), StartedCycles(duration);
    && begun <= on <= duration
    && if duration == 0 then on == 0 else Within(on, Wanted(duration, intensity), begun)
  }

  /** The buzzing of one vibration is its share of the time, to within a millisecond for every
      cycle begun; and there is some in every cycle, but never more than the time there is. */
  lemma {:induction false} IntensityKept(duration: nat, intensity: real)
    requires 0.0 < intensity < 1.0 && 0 < duration
    ensures Kept(duration, intensity)
  {
    if duration < PWM_CYCLE {
      KeptInOne(duration, intensity);
    } else {
      var left := duration - PWM_CYCLE;
      if left == 0 {
        NothingLeft(intensity);
      } else {
        IntensityKept(left, intensity);
      }
      hide *;
      KeptOnce(left, intensity);
      assert left + PWM_CYCLE == duration;
    }
  }

  lemma KeptInOne(duration: nat, intensity: real)
    requires 0.0 < intensity < 1.0 && 0 < duration < PWM_CYCLE
    ensures Kept(duration, intensity)
  {
    ShareFits(duration, intensity);
    LastCycle(duration, intensity);
    var on := Share(duration, intensity);
    hide Share, Cycles;
    PairTimes(Segment(on, 0), Segment(0, duration - on));
    assert StartedCycles(duration) == 1;
  }

  lemma OneCycleMore(left: nat, intensity: real)
    requires 0.0 < intensity < 1.0
    ensures var on := Share(PWM_CYCLE, intensity);
            && 1 <= on <= PWM_CYCLE
            && OnTime(Cycles(left + PWM_CYCLE, intensity)) == on + OnTime(Cycles(left, intensity))
  {
    NextCycle(left + PWM_CYCLE, intensity);
    hide Cycles, OnTime, Share;
    CycleTimes(Share(PWM_CYCLE, intensity), Cycles(left, intensity));
  }

  lemma FullCycleWithin(intensity: real)
    requires 0.0 < intensity < 1.0
    ensures Within(Share(PWM_CYCLE, intensity), Wanted(PWM_CYCLE, intensity), 1)
  {
    ShareFits(PWM_CYCLE, intensity);
    hide Share;
  }

  lemma KeptOnce(left: nat, intensity: real)
    requires 0.0 < intensity < 1.0 && Kept(left, intensity)
    ensures Kept(left + PWM_CYCLE, intensity)
  {
    var on, rest := Share(PWM_CYCLE, intensity), OnTime(Cycles(left, intensity));
    OneCycleMore(left, intensity);
    FullCycleWithin(intensity);
    Shares(left, intensity);
    hide Cycles, OnTime, StartedCycles, Within, Share, Wanted;
    if left == 0 {
      NoneStarted(intensity);
    } else {
      WithinAdds(on, rest, Wanted(PWM_CYCLE, intensity), Wanted(left, intensity), 1, StartedCycles(left));
    }
  }

  lemma NothingLeft(intensity: real)
    requires 0.0 < intensity < 1.0
    ensures Kept(0, intensity)
  {
  }

  lemma NoneStarted(intensity: real)
    ensures StartedCycles(0) == 0 && Wanted(0, intensity) == 0.0
  {
  }

  lemma Shares(left: nat, intensity: real)
    ensures StartedCycles(left + PWM_CYCLE) == StartedCycles(left) + 1
    ensures Wanted(left + PWM_CYCLE, intensity) == Wanted(PWM_CYCLE, intensity) + Wanted(left, intensity)
  {
    assert (left + PWM_CYCLE) as real == left as real + PWM_CYCLE as real;
  }

  lemma TimesJoin(p: seq<Segment>, q: seq<Segment>)
    ensures Times(p + q) == Times(p) + Times(q)
  {
  }

  lemma TimesRested(p: seq<Segment>, ms: nat)
    requires p != []
    ensures Times(Rested(p, ms)) == Times(p)[|p| - 1 := Times(p)[|p| - 1] + ms]
  {
  }

  /** One cycle moved from what is left to what is done. */
  lemma CycleDone(done: seq<Segment>, remaining: nat, intensity: real)
    requires 0.0 < intensity < 1.0 && PWM_CYCLE <= remaining
    ensures var on := Share(PWM_CYCLE, intensity);
            && 1 <= on <= PWM_CYCLE
            && var more := done + [Segment(on, 0), Segment(0, PWM_CYCLE - on)];
               && more + Cycles(remaining - PWM_CYCLE, intensity) == done + Cycles(remaining, intensity)
               && Times(more) == Times(done) + [on] + [PWM_CYCLE - on]
  {
    NextCycle(remaining, intensity);
    var on, rest := Share(PWM_CYCLE, intensity), Cycles(remaining - PWM_CYCLE, intensity);
    hide Share, Cycles;
    var cycle := [Segment(on, 0), Segment(0, PWM_CYCLE - on)];
    assert done + (cycle + rest) == done + cycle + rest;
    TimesJoin(done, cycle);
    assert Times(cycle) == [on] + [PWM_CYCLE - on];
    hide Times;
  }

  /** `modulateVibration`. */
  method ModulateVibration(duration: nat, intensity: real) returns (result: seq<int>)
    ensures result == Times(Modulated(duration, intensity))
  {
    if intensity >= 1.0 {
      return [duration];
    }
    if intensity <= 0.0 {
      return [];
    }
    hide Share, Cycles, Times;
    var onTime := Share(PWM_CYCLE, intensity);
    var offTime := PWM_CYCLE - onTime;
    result := [];
    var remaining := duration;
    TimesNone();
    ghost var done: seq<Segment> := [];
    while remaining >= PWM_CYCLE
      invariant 0 <= remaining <= duration
      invariant result == Times(done) && done + Cycles(remaining, intensity) == Cycles(duration, intensity)
    {
      CycleDone(done, remaining, intensity);
      result := result + [onTime];
      result := result + [offTime];
      done := done + [Segment(onTime, 0), Segment(0, offTime)];
      remaining := remaining - PWM_CYCLE;
    }
    TimesJoin(done, Cycles(remaining, intensity));
    if remaining > 0 {
      LastCycleTimes(remaining, intensity);
      var remOn := Share(remaining, intensity);
      result := result + [remOn];
      var remOff := remaining - remOn;
      if remOff > 0 {
        result := result + [remOff];
      }
    } else {
      NoCycles(intensity);
      TimesNone();
    }
  }

  lemma LastCycleTimes(remaining: nat, intensity: real)
    requires 0.0 < intensity < 1.0 && 0 < remaining < PWM_CYCLE
    ensures var on := Share(remaining, intensity);
            Times(Cycles(remaining, intensity)) == if on < remaining then [on] + [remaining - on] else [on]
  {
    LastCycle(remaining, intensity);
    hide Share, Cycles;
  }

  /** The pause in `toVibratePattern`. */
  method PushPause(times: seq<int>, delay: int, ghost pattern: seq<Segment>) returns (result: seq<int>)
    requires times == Times(pattern)
    ensures result == Times(Paused(pattern, Max(0, delay)))
  {
    result := times;
    if delay > 0 {
      if |result| > 0 && |result| % 2 == 0 {
        TimesRested(pattern, delay);
        result := result[|result| - 1 := result[|result| - 1] + delay];
      } else {
        TimesJoin(pattern, [Segment(0, delay)]);
        if |result| == 0 {
          result := result + [0];
        }
        result := result + [delay];
      }
    }
  }

  /** A vibration of no intensity in `toVibratePattern`. */
  method PushSilence(times: seq<int>, duration: nat, ghost pattern: seq<Segment>) returns (result: seq<int>)
    requires times == Times(pattern)
    ensures result == Times(Silent(pattern, duration))
  {
    result := times;
    if |result| > 0 && |result| % 2 == 0 {
      TimesRested(pattern, duration);
      result := result[|result| - 1 := result[|result| - 1] + duration];
    } else if duration > 0 {
      TimesJoin(pattern, [Segment(0, 0), Segment(0, duration)]);
      result := result + [0];
      result := result + [duration];
    }
  }

  /** `toVibratePattern`, editing the list of numbers in place. */
  method ToVibratePattern(vibrations: seq<Vibration>, defaultIntensity: real) returns (result: seq<int>)
    ensures result == Times(Pattern(vibrations, defaultIntensity))
  {
    hide Paused, Silent, Modulated, Times, Intensity;
    result := [];
    assert result == Times([]) by {
      TimesNone();
    }
    for k := 0 to |vibrations|
      invariant result == Times(Pattern(vibrations[..k], defaultIntensity))
    {
      var v := vibrations[k];
      ghost var p := Pattern(vibrations[..k], defaultIntensity);
      assert vibrations[..k + 1][..k] == vibrations[..k];
      result := PushPause(result, if v.delay.Some? then v.delay.value else 0, p);
      ghost var paused, pulses := Paused(p, Delay(v)), Modulated(v.duration, Intensity(v, defaultIntensity));
      var modulated := ModulateVibration(v.duration, Intensity(v, defaultIntensity));
      TimesLength(pulses);
      if |modulated| == 0 {
        result := PushSilence(result, v.duration, paused);
      } else {
        TimesJoin(paused, pulses);
        result := result + modulated;
      }
    }
    assert vibrations[..|vibrations|] == vibrations;
  }

  lemma TimesNone()
    ensures Times([]) == []
  {
  }

  lemma TimesLength(p: seq<Segment>)
    ensures |Times(p)| == |p|
  {
  }
}
