/**
 The page's press recognizer: short and long presses are collected on a stack until the finger
 has been up for a while; then the stack is executed as one gesture.
 */
module Gesture {
  import opened Text

  datatype Event =
    | Down(at: int)
    | Up(at: int)
    | Expire(timer: nat)

  /** `endWait` keeps its timer even after the timer was cancelled; `timers` are the live ones. */
  datatype State = State(
    lastDown: Option<int>, eventStack: string, endWait: Option<nat>, timers: set<nat>, nextTimer: nat,
      executed: seq<string>)

  const IDLE := State(None, "", None, {}, 0, [])

  function Cancelled(s: State): State {
    if s.endWait.Some? then s.(timers := s.timers - {s.endWait.value}) else s
  }

  function Letter(down: int, up: int): string {
    if up - down < 500 then "s" else "l"
  }

  function Step(s: State, e: Event): State {
    match e
    case Down(at) => Cancelled(s).(lastDown := Some(at))
    case Up(at) =>
      var c := Cancelled(s);
      if c.lastDown.None? then c.(eventStack := "")
      else
        c.(lastDown := None, eventStack := c.eventStack + Letter(c.lastDown.value, at),
           endWait := Some(c.nextTimer), timers := c.timers + {c.nextTimer}, nextTimer := c.nextTimer + 1)
    case Expire(t) =>
      // only a live timer can expire
      if t !in s.timers then s
      else s.(executed := s.executed + [s.eventStack], eventStack := "", endWait := None, timers := s.timers - {t})
  }

  function Run(s: State, events: seq<Event>): State
    decreases |events|
  {
    if events == [] then s else Step(Run(s, events[..|events| - 1]), events[|events| - 1])
  }

  // ---------------------------------------------------------------- the recognizer in place

  class InputManager {
    var lastDown: Option<int>
    var eventStack: string
    var endWait: Option<nat>
    var timers: set<nat>
    var nextTimer: nat
    var executed: seq<string>

    ghost function Value(): State
      reads this
    {
      State(lastDown, eventStack, endWait, timers, nextTimer, executed)
    }

    constructor ()
      ensures Value() == IDLE
    {
      lastDown, eventStack, endWait, timers, nextTimer, executed := None, "", None, {}, 0, [];
    }

    method Cancel()
      modifies this`timers
      ensures Value() == Cancelled(old(Value()))
    {
      if endWait.Some? { timers := timers - {endWait.value}; }
    }

    method Down(at: int)
      modifies this
      ensures Value() == Step(old(Value()), Event.Down(at))
    {
      Cancel();
      lastDown := Some(at);
    }

    method Up(at: int)
      modifies this
      ensures Value() == Step(old(Value()), Event.Up(at))
    {
      Cancel();
      if lastDown.None? {
        eventStack := "";
        return;
      }
      var down := lastDown.value;
      lastDown := None;
      if at - down < 500 { eventStack := eventStack + "s"; } else { eventStack := eventStack + "l"; }
      endWait := Some(nextTimer);
      timers := timers + {nextTimer};
      nextTimer := nextTimer + 1;
    }

    method Expire(t: nat)
      requires t in timers
      modifies this
      ensures Value() == Step(old(Value()), Event.Expire(t))
    {
      executed := executed + [eventStack];
      eventStack := "";
      endWait := None;
      timers := timers - {t};
    }
  }

  // ---------------------------------------------------------------- what every run keeps

  /** At most the timer of `endWait` is live, and while it is, no button is held and something was pressed. */
  ghost predicate Inv(s: State) {
    && (forall t :: t in s.timers ==> s.endWait == Some(t))
    && (forall t :: t in s.timers ==> s.lastDown.None? && s.eventStack != "")
    && (s.endWait.Some? ==> s.endWait.value < s.nextTimer)
    && (forall g :: g in s.executed ==> g != "")
  }

  lemma {:induction false} RunKeepsInv(events: seq<Event>)
    ensures Inv(Run(IDLE, events))
    decreases |events|
  {
    if events == [] {
    } else {
      RunKeepsInv(events[..|events| - 1]);
    }
  }

  /** In every run a pending timer implies no button held and a non-empty stack; executed gestures are never empty. */
  lemma PendingTimer(events: seq<Event>)
    ensures var s := Run(IDLE, events);
      && (s.timers != {} ==> s.lastDown.None? && s.eventStack != "" && s.endWait.Some? && s.timers == {s.endWait.value})
      && (forall g :: g in s.executed ==> g != "")
  {
    RunKeepsInv(events);
    var s := Run(IDLE, events);
    if t :| t in s.timers { assert s.timers == {t}; }
  }

  /**
   In every run a live timer that expires executes exactly what is on the stack, which is something,
   and leaves nothing on the stack and no timer; any other expiry changes nothing.
  */
  lemma ExpiryExecutes(events: seq<Event>, t: nat)
    ensures var s := Run(IDLE, events); var after := Run(IDLE, events + [Expire(t)]);
      && (t in s.timers ==> s.eventStack != "" && after.executed == s.executed + [s.eventStack])
      && (t in s.timers ==> after.eventStack == "" && after.timers == {} && after.endWait.None?)
      && (t !in s.timers ==> after == s)
  {
    RunKeepsInv(events);
    var s := Run(IDLE, events);
    assert (events + [Expire(t)])[..|events|] == events;
    if t in s.timers { assert s.timers == {t}; }
  }

  /** In every run a press leaves no timer, and a release leaves one when a button was held and none otherwise. */
  lemma OneTimer(events: seq<Event>, at: int)
    ensures var s := Run(IDLE, events);
      && Run(IDLE, events + [Down(at)]).timers == {}
      && Run(IDLE, events + [Up(at)]).timers == (if s.lastDown.Some? then {s.nextTimer} else {})
      && Run(IDLE, events + [Up(at)]).lastDown == None
  {
    RunKeepsInv(events);
    assert (events + [Down(at)])[..|events|] == events == (events + [Up(at)])[..|events|];
  }

  // ---------------------------------------------------------------- what the gestures spell

  function Concat(words: seq<string>): string
    decreases |words|
  {
    if words == [] then "" else Concat(words[..|words| - 1]) + words[|words| - 1]
  }

  /** The time of the press that is still held. */
  function Held(events: seq<Event>): Option<int>
    decreases |events|
  {
    if events == [] then None
    else match events[|events| - 1]
      case Down(at) => Some(at)
      case Up(_) => None
      case Expire(_) => Held(events[..|events| - 1])
  }

  /** The letters of all completed presses, in order. */
  function Letters(events: seq<Event>): string
    decreases |events|
  {
    if events == [] then ""
    else
      var before := events[..|events| - 1];
      match events[|events| - 1]
      case Up(at) =>
        if Held(before).None? then Letters(before)
        else if at - Held(before).value < 500 then Letters(before) + "s"
        else Letters(before) + "l"
      case _ => Letters(before)
  }

  /** The executed gestures followed by the stack. */
  function Spelled(s: State): string {
    Concat(s.executed) + s.eventStack
  }

  /** A release without a press that finds letters on the stack. */
  ghost predicate StrayRelease(events: seq<Event>) {
    exists k :: 0 <= k < |events| && events[k].Up? && Held(events[..k]).None? && Run(IDLE, events[..k]).eventStack != ""
  }

  lemma {:induction false} RunHolds(events: seq<Event>)
    ensures Run(IDLE, events).lastDown == Held(events)
    decreases |events|
  {
    if events == [] {
    } else {
      RunHolds(events[..|events| - 1]);
    }
  }

  lemma StrayReleaseStep(events: seq<Event>)
    requires events != []
    ensures var before := events[..|events| - 1]; var last := events[|events| - 1];
      StrayRelease(events) <==>
        StrayRelease(before) || (last.Up? && Held(before).None? && Run(IDLE, before).eventStack != "")
  {
    var before := events[..|events| - 1];
    assert forall k :: 0 <= k < |before| ==> events[..k] == before[..k] && events[k] == before[k];
    if StrayRelease(events) {
      var k :| 0 <= k < |events| && events[k].Up? && Held(events[..k]).None? && Run(IDLE, events[..k]).eventStack != "";
      if k < |before| { assert before[k].Up? && Held(before[..k]).None? && Run(IDLE, before[..k]).eventStack != ""; }
    }
    if StrayRelease(before) {
      var k :| 0 <= k < |before| && before[k].Up? && Held(before[..k]).None? && Run(IDLE, before[..k]).eventStack != "";
      assert events[k].Up? && Held(events[..k]).None? && Run(IDLE, events[..k]).eventStack != "";
    }
  }

  lemma StepSpells(s: State, e: Event)
    ensures Spelled(Step(s, e)) ==
      if !e.Up? then Spelled(s)
      else if s.lastDown.Some? then Spelled(s) + Letter(s.lastDown.value, e.at)
      else Concat(s.executed)
  {
    var t := Step(s, e);
    match e
    case Down(_) =>
    case Up(at) =>
      if s.lastDown.Some? {
        assert Concat(s.executed) + (s.eventStack + Letter(s.lastDown.value, at)) ==
          Spelled(s) + Letter(s.lastDown.value, at);
      }
    case Expire(timer) =>
      if timer in s.timers { assert t.executed[..|t.executed| - 1] == s.executed; }
  }

  /** Letters are only ever lost, and only by a stray release. */
  lemma {:induction false} SpellingTracks(events: seq<Event>)
    ensures var s := Run(IDLE, events);
      && |Spelled(s)| <= |Letters(events)|
      && (!StrayRelease(events) ==> Spelled(s) == Letters(events))
      && (StrayRelease(events) ==> |Spelled(s)| < |Letters(events)|)
    decreases |events|
  {
    if events == [] {
    } else {
      var before := events[..|events| - 1];
      SpellingTracks(before);
      RunHolds(before);
      StrayReleaseStep(events);
      var s := Run(IDLE, before);
      StepSpells(s, events[|events| - 1]);
      assert |Spelled(s)| == |Concat(s.executed)| + |s.eventStack|;
    }
  }

  /**
   The executed gestures followed by the current stack spell exactly the letters of all completed
   presses, in order, if and only if no stray release found letters on the stack.
  */
  lemma GesturesSpellIff(events: seq<Event>)
    ensures Spelled(Run(IDLE, events)) == Letters(events) <==> !StrayRelease(events)
  {
    SpellingTracks(events);
  }

  /** Presses and releases alternate; timers may expire in between. */
  predicate Alternating(events: seq<Event>)
    decreases |events|
  {
    events == [] ||
    (var before := events[..|events| - 1];
     Alternating(before) &&
     match events[|events| - 1]
     case Down(_) => Held(before).None?
     case Up(_) => Held(before).Some?
     case Expire(_) => true)
  }

  lemma {:induction false} AlternatingHasNoStray(events: seq<Event>)
    requires Alternating(events)
    ensures !StrayRelease(events)
    decreases |events|
  {
    if events == [] {
    } else {
      AlternatingHasNoStray(events[..|events| - 1]);
      StrayReleaseStep(events);
    }
  }

  /** For alternating presses and releases nothing is lost, reordered or repeated. */
  lemma AlternatingSpells(events: seq<Event>)
    requires Alternating(events)
    ensures Spelled(Run(IDLE, events)) == Letters(events)
  {
    AlternatingHasNoStray(events);
    GesturesSpellIff(events);
  }
}
