/** The `'twitch' | 'youtube'` platform choice shared by the embeds and the
    archive page, and the local platform state the two embed components keep
    (src/components/ChatEmbed.tsx and src/components/StreamEmbed.tsx): it
    starts as the `platform` prop, follows the prop whenever the prop changes,
    and is set by the switch buttons, which also report the choice to the
    optional `onPlatformChange` callback. */
module Platforms {
  import opened Wrappers

  datatype Platform = TwitchPlatform | YouTubePlatform

  /** The component's `currentPlatform` state, together with the value of the
      `platform` prop at the last render (the dependency the synchronising
      effect compares against). */
  datatype Toggle = Toggle(current: Platform, prop: Platform)

  /** What can happen to a mounted embed: a switch button is clicked, or the
      parent renders it with a `platform` prop. */
  datatype Event = Clicked(choice: Platform) | Rendered(prop: Platform)

  /** The state after an event and the value handed to `onPlatformChange`,
      `None` when it was not called. */
  datatype Outcome = Outcome(state: Toggle, notified: Option<Platform>)

  /** `useState(platform)`: the state starts as the prop. */
  function Mount(prop: Platform): (t: Toggle)
    ensures t.current == prop && t.prop == prop
  {
    Toggle(prop, prop)
  }

  /** One event. A click sets the state and forwards the same value to the
      callback when there is one. A render runs the `[platform]` effect only
      when the prop differs from the previous render's, and then overwrites
      the state with it. */
  function Step(t: Toggle, e: Event, hasCallback: bool): (o: Outcome)
    ensures e.Clicked? ==> o.state.current == e.choice
    ensures e.Clicked? ==> (o.notified.Some? <==> hasCallback)
    ensures o.notified.Some? ==> e.Clicked? && o.notified.value == e.choice
    ensures e.Rendered? && e.prop != t.prop ==> o.state.current == e.prop
    ensures e.Rendered? && e.prop == t.prop ==> o.state == t
  {
    match e
    case Clicked(p) => Outcome(t.(current := p), if hasCallback then Some(p) else None)
    case Rendered(p) =>
      if p == t.prop then Outcome(t, None)
      else Outcome(Toggle(p, p), None)
  }

  /** The state after several events and every value reported, in order. */
  datatype Outcomes = Outcomes(state: Toggle, notified: seq<Platform>)

  /** A sequence of events from state `t`: the final state and the values
      reported to the callback, in order. */
  function Run(t: Toggle, events: seq<Event>, hasCallback: bool): Outcomes
    decreases |events|
  {
    if |events| == 0 then Outcomes(t, [])
    else
      var o := Step(t, events[0], hasCallback);
      var rest := Run(o.state, events[1..], hasCallback);
      Outcomes(rest.state, (if o.notified.Some? then [o.notified.value] else []) + rest.notified)
  }

  /** The choices made by clicks, in order. */
  function Clicks(events: seq<Event>): (r: seq<Platform>)
    ensures |r| <= |events|
    decreases |events|
  {
    if |events| == 0 then []
    else if events[0].Clicked? then [events[0].choice] + Clicks(events[1..])
    else Clicks(events[1..])
  }

  /** The callback sees exactly the clicked choices, in order, when it is
      given, and nothing otherwise; renders never call it. */
  lemma {:induction false} RunNotifiesClicks(t: Toggle, events: seq<Event>, hasCallback: bool)
    ensures Run(t, events, hasCallback).notified == if hasCallback then Clicks(events) else []
    decreases |events|
  {
    if |events| > 0 {
      RunNotifiesClicks(Step(t, events[0], hasCallback).state, events[1..], hasCallback);
    }
  }

  /** A controlled embed: every click is followed by a render of the parent
      that passes the reported choice back as the prop. */
  function Controlled(choices: seq<Platform>): (events: seq<Event>)
    ensures |events| == 2 * |choices|
    ensures Clicks(events) == choices
    decreases |choices|
  {
    if |choices| == 0 then []
    else
      var rest := Controlled(choices[1..]);
      var events := [Clicked(choices[0]), Rendered(choices[0])] + rest;
      assert events[1..][1..] == rest;
      events
  }

  /** In a controlled embed the state and the prop move in lock step: they
      agree after every round trip, ending on the last choice. */
  lemma {:induction false} ControlledLockStep(t: Toggle, choices: seq<Platform>)
    requires t.current == t.prop
    ensures Run(t, Controlled(choices), true).state.current == Run(t, Controlled(choices), true).state.prop
    ensures |choices| > 0 ==> Run(t, Controlled(choices), true).state.current == choices[|choices| - 1]
    ensures |choices| == 0 ==> Run(t, Controlled(choices), true).state == t
    decreases |choices|
  {
    if |choices| > 0 {
      var p := choices[0];
      var events := Controlled(choices);
      var mid := Step(Step(t, Clicked(p), true).state, Rendered(p), true).state;
      assert mid == Toggle(p, p);
      assert events[1..][1..] == Controlled(choices[1..]);
      ControlledLockStep(mid, choices[1..]);
      if |choices| > 1 {
        assert choices[1..][|choices| - 2] == choices[|choices| - 1];
      }
    }
  }

  /** An uncontrolled click is not undone when the parent keeps rendering the
      same prop: the effect only fires on a change of the prop. */
  lemma ClickSurvivesSameProp(prop: Platform, choice: Platform)
    ensures Run(Mount(prop), [Clicked(choice), Rendered(prop)], false).state.current == choice
  {
    var events := [Clicked(choice), Rendered(prop)];
    var clicked := Step(Mount(prop), Clicked(choice), false).state;
    assert clicked == Toggle(choice, prop);
    assert events[1..] == [Rendered(prop)];
    assert Run(clicked, [Rendered(prop)], false).state == clicked by {
      assert [Rendered(prop)][1..] == [];
    }
  }
}
