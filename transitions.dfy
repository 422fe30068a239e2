/** The theme's transition shorthands: one property, a fixed duration and the ease-in-out curve. */
module Transitions {
  import opened Wrappers
  import opened JsText

  /** `${prop} <duration> ease-in-out`, the property defaulting to "all" when it is omitted. */
  function Transition(duration: string, prop: Option<string>): (r: string)
    ensures prop.None? ==> r == "all " + duration + " ease-in-out"
    ensures prop.Some? ==> r == prop.value + " " + duration + " ease-in-out"
  {
    var p := if prop.Some? then prop.value else "all";
    p + " " + duration + " ease-in-out"
  }

  /** A property without spaces splits back into the property, the duration and the curve. */
  lemma TransitionParts(duration: string, prop: string)
    requires ' ' !in prop && ' ' !in duration
    ensures Split(Transition(duration, Some(prop)), ' ') == [prop, duration, "ease-in-out"]
  {
    var parts := [prop, duration, "ease-in-out"];
    assert ' ' !in "ease-in-out";
    JoinThenSplit(parts, ' ');
    assert parts[1..] == [duration, "ease-in-out"];
    assert parts[1..][1..] == ["ease-in-out"];
    assert Join(parts[1..], " ") == duration + " " + "ease-in-out";
    assert Join(parts, " ") == prop + " " + (duration + " " + "ease-in-out");
    assert " " + "ease-in-out" == " ease-in-out";
    assert Transition(duration, Some(prop)) == Join(parts, " ");
  }

  /** `theme.transition.fast(prop?)`: the 0.1s transition on `prop`, on "all" by default. */
  function Fast(prop: Option<string>): (r: string)
    ensures prop.None? ==> r == "all 0.1s ease-in-out"
    ensures prop.Some? && ' ' !in prop.value ==> Split(r, ' ') == [prop.value, "0.1s", "ease-in-out"]
  {
    assert ' ' !in "0.1s";
    if prop.Some? && ' ' !in prop.value then
      TransitionParts("0.1s", prop.value);
      Transition("0.1s", prop)
    else Transition("0.1s", prop)
  }

  /** `theme.transition.medium(prop?)`: the 0.2s transition on `prop`, on "all" by default. */
  function Medium(prop: Option<string>): (r: string)
    ensures prop.None? ==> r == "all 0.2s ease-in-out"
    ensures prop.Some? && ' ' !in prop.value ==> Split(r, ' ') == [prop.value, "0.2s", "ease-in-out"]
  {
    assert ' ' !in "0.2s";
    if prop.Some? && ' ' !in prop.value then
      TransitionParts("0.2s", prop.value);
      Transition("0.2s", prop)
    else Transition("0.2s", prop)
  }

  /** `theme.transition.slow(prop?)`: the 0.3s transition on `prop`, on "all" by default. */
  function Slow(prop: Option<string>): (r: string)
    ensures prop.None? ==> r == "all 0.3s ease-in-out"
    ensures prop.Some? && ' ' !in prop.value ==> Split(r, ' ') == [prop.value, "0.3s", "ease-in-out"]
  {
    assert ' ' !in "0.3s";
    if prop.Some? && ' ' !in prop.value then
      TransitionParts("0.3s", prop.value);
      Transition("0.3s", prop)
    else Transition("0.3s", prop)
  }
}
