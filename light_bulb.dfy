/**
 * The `lightBulbMachine` of src/pages/FileUpload/utils.ts: a state machine
 * declared as a table. `lit` and `unlit` react to TOGGLE and BREAK; `broken`
 * is a final state and declares no transitions. As in the machine library the
 * table is written for, an event a state declares no transition for leaves
 * the state as it is.
 */
module LightBulb {

  datatype State = Lit | Unlit | Broken

  datatype Event = Toggle | Break

  /** `initial: 'unlit'`. */
  const Initial: State := Unlit

  /** The `on` tables of the states that declare transitions. */
  const Transitions: map<State, map<Event, State>> := map[
    Lit := map[Toggle := Unlit, Break := Broken],
    Unlit := map[Toggle := Lit, Break := Broken]
  ]

  /** `type: 'final'`. */
  predicate IsFinal(s: State) {
    s == Broken
  }

  /** One step: the table's target, or the same state when the table has none. */
  function Step(s: State, e: Event): (r: State)
    ensures IsFinal(s) ==> r == s
    ensures e == Break ==> IsFinal(r)
    ensures s == Lit && e == Toggle ==> r == Unlit
    ensures s == Unlit && e == Toggle ==> r == Lit
  {
    if s in Transitions && e in Transitions[s] then Transitions[s][e] else s
  }

  /** The state after a sequence of events. */
  function Run(s: State, events: seq<Event>): (r: State)
    ensures IsFinal(s) ==> r == s
    ensures Break in events ==> IsFinal(r)
    decreases |events|
  {
    if events == [] then s
    else
      assert events == [events[0]] + events[1..];
      Run(Step(s, events[0]), events[1..])
  }

  /** Two toggles bring a working bulb back to where it was. */
  lemma ToggleTwice(s: State)
    requires !IsFinal(s)
    ensures Run(s, [Toggle, Toggle]) == s
  {
    assert [Toggle, Toggle][1..] == [Toggle];
  }

  /** No event sequence leaves `broken`. */
  lemma {:induction false} BrokenIsFinal(events: seq<Event>)
    ensures Run(Broken, events) == Broken
    decreases |events|
  {
    if events != [] {
      BrokenIsFinal(events[1..]);
    }
  }

  /** The bulb ends broken exactly when it started broken or some event was a BREAK. */
  lemma {:induction false} BrokenIffBreak(s: State, events: seq<Event>)
    ensures Run(s, events) == Broken <==> s == Broken || Break in events
    decreases |events|
  {
    if events == [] {
    } else {
      var next := Step(s, events[0]);
      BrokenIffBreak(next, events[1..]);
      if events[0] == Break || s == Broken {
        BrokenIsFinal(events[1..]);
      }
      assert events == [events[0]] + events[1..];
    }
  }

  function Flip(s: State): State
    requires !IsFinal(s)
  {
    if s == Lit then Unlit else Lit
  }

  /** Without a BREAK, a working bulb is lit or unlit by the parity of the toggles. */
  lemma {:induction false} TogglesByParity(s: State, events: seq<Event>)
    requires !IsFinal(s)
    requires Break !in events
    ensures Run(s, events) == if |events| % 2 == 0 then s else Flip(s)
    decreases |events|
  {
    if events != [] {
      assert events[0] == Toggle;
      assert Break !in events[1..] by {
        assert events == [events[0]] + events[1..];
      }
      TogglesByParity(Flip(s), events[1..]);
    }
  }

  /** Every state reachable from the initial one is a state the table declares or the final one. */
  lemma Reachable(events: seq<Event>)
    ensures Run(Initial, events) in Transitions || IsFinal(Run(Initial, events))
  {
    if Break in events {
      BrokenIffBreak(Initial, events);
    } else {
      TogglesByParity(Initial, events);
    }
  }
}
