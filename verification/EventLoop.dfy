/**
 The C runtime's event loop. Each iteration copies the handle list and works on the copy, so
 that callbacks may register and unregister handles freely; timers compare wall-clock times.
 */
module EventLoop {
  import opened Text

  // ---------------------------------------------------------------- struct timeval

  datatype Timeval = Timeval(sec: int, usec: int)

  function Micros(t: Timeval): int { t.sec * 1_000_000 + t.usec }

  /** What `gettimeofday` delivers. */
  predicate Normalised(t: Timeval) { 0 <= t.usec < 1_000_000 }

  /** `compare_timeval` */
  function Compare(a: Timeval, b: Timeval): int {
    if a.sec > b.sec then 1
    else if a.sec < b.sec then -1
    else if a.usec > b.usec then 1
    else if a.usec < b.usec then -1
    else 0
  }

  /** `add_ms_to_timeval`; the carry test is strict, so exactly one million microseconds stay uncarried. */
  function AddMs(a: Timeval, ms: nat): Timeval {
    var sec := a.sec + ms / 1000;
    var usec := a.usec + ms % 1000 * 1000;
    if usec > 1_000_000 then Timeval(sec + 1, usec - 1_000_000) else Timeval(sec, usec)
  }

  /** Adding milliseconds conserves the total number of microseconds. */
  lemma AddMsConserves(a: Timeval, ms: nat)
    ensures Micros(AddMs(a, ms)) == Micros(a) + ms * 1000
    ensures Normalised(a) ==> 0 <= AddMs(a, ms).usec <= 1_000_000
  {
    assert ms == ms / 1000 * 1000 + ms % 1000;
  }

  /** Against a normalised time the comparison is exact, even for the uncarried million. */
  lemma DueTestIsExact(next: Timeval, now: Timeval)
    requires 0 <= next.usec <= 1_000_000 && Normalised(now)
    ensures Compare(next, now) <= 0 <==> Micros(next) <= Micros(now)
  {
    assert Micros(now) - Micros(next) == (now.sec - next.sec) * 1_000_000 + (now.usec - next.usec);
  }

  /** One time is an uncarried million, the other the same time carried. */
  predicate SameInstant(a: Timeval, b: Timeval) {
    || (a.usec == 1_000_000 && b == Timeval(a.sec + 1, 0))
    || (b.usec == 1_000_000 && a == Timeval(b.sec + 1, 0))
  }

  /**
   On all times `AddMs` can give, the comparison is the order of the times exactly unless one is an
   uncarried million and the other the same time carried.
  */
  lemma CompareIsOrderIff(a: Timeval, b: Timeval)
    requires 0 <= a.usec <= 1_000_000 && 0 <= b.usec <= 1_000_000
    ensures (Compare(a, b) == if Micros(a) > Micros(b) then 1 else if Micros(a) < Micros(b) then -1 else 0) <==>
      !SameInstant(a, b)
  {
    assert Micros(a) - Micros(b) == (a.sec - b.sec) * 1_000_000 + (a.usec - b.usec);
  }

  /** The exception occurs: equal times that compare as different. */
  lemma UncarriedMillionComparesLess(sec: int)
    ensures AddMs(Timeval(sec, 999_000), 1) == Timeval(sec, 1_000_000)
    ensures Micros(Timeval(sec, 1_000_000)) == Micros(Timeval(sec + 1, 0))
    ensures Compare(Timeval(sec, 1_000_000), Timeval(sec + 1, 0)) == -1
  {
  }

  // ---------------------------------------------------------------- handles

  datatype Handle =
    | Tick(id: nat)
    | Timer(id: nat, period: nat, registered: Timeval, nextRun: Timeval)
    | Listener(id: nat)

  datatype Call = RunTick(h: Handle) | RunTimer(h: Handle, now: Timeval) | RunAdd(h: Handle) | RunProcess(h: Handle)

  /** What a callback may do to the loop. */
  datatype Request = NewTick | NewTimer(period: nat, now: Timeval) | NewListener | Unregister(id: nat)

  datatype State = State(handles: seq<Handle>, nextId: nat)

  function Remove(handles: seq<Handle>, id: nat): seq<Handle> {
    if handles == [] then [] else if handles[0].id == id then handles[1..] else [handles[0]] + Remove(handles[1..], id)
  }

  function Serve(s: State, r: Request): State {
    match r
    case NewTick => State(s.handles + [Tick(s.nextId)], s.nextId + 1)
    case NewTimer(period, now) => State(s.handles + [Timer(s.nextId, period, now, AddMs(now, period))], s.nextId + 1)
    case NewListener => State(s.handles + [Listener(s.nextId)], s.nextId + 1)
    case Unregister(id) => s.(handles := Remove(s.handles, id))
  }

  function ServeAll(s: State, rs: seq<Request>): State
    decreases |rs|
  {
    if rs == [] then s else ServeAll(Serve(s, rs[0]), rs[1..])
  }

  /** Requests take effect one after another. */
  lemma {:induction false} ServedInOrder(s: State, rs: seq<Request>, r: Request)
    ensures ServeAll(s, rs + [r]) == Serve(ServeAll(s, rs), r)
    decreases |rs|
  {
    if rs == [] {
      assert [r][1..] == [];
    } else {
      assert (rs + [r])[1..] == rs[1..] + [r];
      ServedInOrder(Serve(s, rs[0]), rs[1..], r);
    }
  }

  predicate Due(h: Handle, now: Timeval) {
    h.Timer? && Compare(h.nextRun, now) <= 0
  }

  /** The phases of an iteration, in order. */
  datatype Phase = Ticks | Timers | Adds | Processes

  /** What a phase calls for one handle, if anything. */
  function CallOf(phase: Phase, h: Handle, now: Timeval): Option<Call> {
    match phase
    case Ticks => if h.Tick? then Some(RunTick(h)) else None
    case Timers => if Due(h, now) then Some(RunTimer(h, now)) else None
    case Adds => if h.Listener? then Some(RunAdd(h)) else None
    case Processes => if h.Listener? then Some(RunProcess(h)) else None
  }

  function PhaseCalls(phase: Phase, hs: seq<Handle>, now: Timeval): seq<Call> {
    if hs == [] then []
    else
      var c := CallOf(phase, hs[0], now);
      (if c.Some? then [c.value] else []) + PhaseCalls(phase, hs[1..], now)
  }

  /** The part of a phase that is still to come, one handle further. */
  lemma PhaseCallsFrom(phase: Phase, hs: seq<Handle>, i: nat, now: Timeval, done: seq<Call>)
    requires i < |hs|
    ensures var c := CallOf(phase, hs[i], now);
      done + PhaseCalls(phase, hs[i..], now) ==
        (if c.Some? then done + [c.value] else done) + PhaseCalls(phase, hs[i + 1..], now)
  {
    assert hs[i..][1..] == hs[i + 1..];
    var c, rest := CallOf(phase, hs[i], now), PhaseCalls(phase, hs[i + 1..], now);
    assert PhaseCalls(phase, hs[i..], now) == (if c.Some? then [c.value] else []) + rest;
  }

  /** The calls of one iteration over a list of handles: phase after phase, each in list order. */
  function Calls(hs: seq<Handle>, now: Timeval): seq<Call> {
    PhaseCalls(Ticks, hs, now) + PhaseCalls(Timers, hs, now) +
      PhaseCalls(Adds, hs, now) + PhaseCalls(Processes, hs, now)
  }

  /** The loop's state after the callbacks of some calls did what they do. */
  function AfterCalls(s: State, calls: seq<Call>, effects: Call -> seq<Request>): State
    decreases |calls|
  {
    if calls == [] then s else AfterCalls(ServeAll(s, effects(calls[0])), calls[1..], effects)
  }

  lemma {:induction false} AfterCallsConcat(s: State, a: seq<Call>, b: seq<Call>, effects: Call -> seq<Request>)
    ensures AfterCalls(s, a + b, effects) == AfterCalls(AfterCalls(s, a, effects), b, effects)
    decreases |a|
  {
    if a == [] {
      assert a + b == b;
    } else {
      assert (a + b)[1..] == a[1..] + b;
      AfterCallsConcat(ServeAll(s, effects(a[0])), a[1..], b, effects);
    }
  }

  lemma AfterCallsSnoc(s: State, done: seq<Call>, c: Call, effects: Call -> seq<Request>)
    ensures AfterCalls(s, done + [c], effects) == ServeAll(AfterCalls(s, done, effects), effects(c))
  {
    AfterCallsConcat(s, done, [c], effects);
    assert [c][1..] == [];
  }

  lemma AfterFour(s: State, a: seq<Call>, b: seq<Call>, c: seq<Call>, d: seq<Call>, effects: Call -> seq<Request>)
    ensures AfterCalls(AfterCalls(AfterCalls(AfterCalls(s, a, effects), b, effects), c, effects), d, effects)
      == AfterCalls(s, a + b + c + d, effects)
  {
    AfterCallsConcat(s, a, b, effects);
    AfterCallsConcat(s, a + b, c, effects);
    AfterCallsConcat(s, a + b + c, d, effects);
  }

  lemma JoinFour(before: seq<Call>, a: seq<Call>, b: seq<Call>, c: seq<Call>, d: seq<Call>)
    ensures before + a + b + c + d == before + (a + b + c + d)
  {
  }

  /** The two lists differ in timers only. */
  ghost predicate OnlyTimersMoved(a: seq<Handle>, b: seq<Handle>) {
    |a| == |b| && forall k :: 0 <= k < |a| ==> a[k] == b[k] || (a[k].Timer? && b[k].Timer?)
  }

  lemma {:induction false} SameListeners(a: seq<Handle>, b: seq<Handle>, now: Timeval)
    requires OnlyTimersMoved(a, b)
    ensures PhaseCalls(Adds, a, now) == PhaseCalls(Adds, b, now)
    ensures PhaseCalls(Processes, a, now) == PhaseCalls(Processes, b, now)
    decreases |a|
  {
    if a == [] {
    } else {
      SameListeners(a[1..], b[1..], now);
    }
  }

  // ---------------------------------------------------------------- the loop in place

  class Loop {
    var handles: seq<Handle>
    var nextId: nat
    var calls: seq<Call>

    ghost function Value(): State
      reads this
    {
      State(handles, nextId)
    }

    constructor ()
      ensures Value() == State([], 0) && calls == []
    {
      handles, nextId, calls := [], 0, [];
    }

    method Register(r: Request)
      requires !r.Unregister?
      modifies this`handles, this`nextId
      ensures Value() == Serve(old(Value()), r)
    {
      match r {
        case NewTick => handles := handles + [Tick(nextId)];
        case NewTimer(period, now) => handles := handles + [Timer(nextId, period, now, AddMs(now, period))];
        case NewListener => handles := handles + [Listener(nextId)];
      }
      nextId := nextId + 1;
    }

    /** Runs one callback: it is recorded, and its requests change the live list. */
    method Invoke(c: Call, effects: Call -> seq<Request>)
      modifies this
      ensures calls == old(calls) + [c]
      ensures Value() == ServeAll(old(Value()), effects(c))
    {
      calls := calls + [c];
      var rs := effects(c);
      var i := 0;
      assert rs[0..] == rs;
      while i < |rs|
        invariant 0 <= i <= |rs| && calls == old(calls) + [c]
        invariant ServeAll(Value(), rs[i..]) == ServeAll(old(Value()), rs)
      {
        assert rs[i..][1..] == rs[i + 1..];
        match rs[i] {
          case Unregister(id) => handles := Remove(handles, id);
          case _ => Register(rs[i]);
        }
        i := i + 1;
      }
    }

    method CopyHandles() returns (copy: seq<Handle>)
      ensures copy == handles
    {
      copy := [];
      for i := 0 to |handles|
        invariant copy == handles[..i]
      {
        copy := copy + [handles[i]];
      }
    }

    /**
     One phase walks the copy and calls the handles of its type. The timer phase also moves the
     next run, in the copy only; the live list is not told.
    */
    method RunPhase(phase: Phase, copy: seq<Handle>, now: Timeval, effects: Call -> seq<Request>)
      returns (moved: seq<Handle>)
      modifies this
      ensures calls == old(calls) + PhaseCalls(phase, copy, now)
      ensures Value() == AfterCalls(old(Value()), PhaseCalls(phase, copy, now), effects)
      ensures phase != Timers ==> moved == copy
      ensures OnlyTimersMoved(copy, moved)
    {
      moved := copy;
      var i := 0;
      assert copy[0..] == copy;
      ghost var done: seq<Call> := [];
      while i < |copy|
        invariant 0 <= i <= |copy| && OnlyTimersMoved(copy, moved) && moved[i..] == copy[i..]
        invariant phase != Timers ==> moved == copy
        invariant done + PhaseCalls(phase, copy[i..], now) == PhaseCalls(phase, copy, now)
        invariant calls == old(calls) + done
        invariant Value() == AfterCalls(old(Value()), done, effects)
      {
        assert moved[i] == moved[i..][0] == copy[i];
        PhaseCallsFrom(phase, copy, i, now, done);
        var c := CallOf(phase, moved[i], now);
        if c.Some? {
          Invoke(c.value, effects);
          AfterCallsSnoc(old(Value()), done, c.value, effects);
          done := done + [c.value];
          if phase == Timers {
            moved := moved[i := moved[i].(nextRun := AddMs(now, moved[i].period))];
          }
        }
        i := i + 1;
      }
      assert done == PhaseCalls(phase, copy, now);
    }

    /** One turn of `loop_run`; `now` is read when the timer phase begins. */
    method Iterate(now: Timeval, effects: Call -> seq<Request>)
      modifies this
      ensures calls == old(calls) + Calls(old(handles), now)
      ensures FullTurn(old(handles), now, calls[|old(calls)|..])
      ensures Value() == AfterCalls(old(Value()), Calls(old(handles), now), effects)
    {
      CallsAreFullTurn(handles, now);
      var copy := CopyHandles();
      ghost var s := Value();
      ghost var ticks := PhaseCalls(Ticks, copy, now);
      ghost var timers := PhaseCalls(Timers, copy, now);
      ghost var adds := PhaseCalls(Adds, copy, now);
      var copy1 := RunPhase(Ticks, copy, now, effects);
      var copy2 := RunPhase(Timers, copy1, now, effects);
      SameListeners(copy, copy2, now);
      var copy3 := RunPhase(Adds, copy2, now, effects);
      var copy4 := RunPhase(Processes, copy3, now, effects);
      AfterFour(s, ticks, timers, adds, PhaseCalls(Processes, copy, now), effects);
      JoinFour(old(calls), ticks, timers, adds, PhaseCalls(Processes, copy, now));
    }
  }

  // ---------------------------------------------------------------- whole runs

  /** One iteration's inputs: the time of its timer phase and what its callbacks do. */
  datatype Turn = Turn(now: Timeval, effects: Call -> seq<Request>)

  function RunCalls(s: State, turns: seq<Turn>): seq<Call>
    decreases |turns|
  {
    if turns == [] then []
    else
      var calls := Calls(s.handles, turns[0].now);
      calls + RunCalls(AfterCalls(s, calls, turns[0].effects), turns[1..])
  }

  /** A timer's next run is its registration time plus its period. */
  predicate Scheduled(s: State) {
    forall h :: h in s.handles && h.Timer? ==> Normalised(h.registered) && h.nextRun == AddMs(h.registered, h.period)
  }

  predicate HonestRequest(r: Request) {
    r.NewTimer? ==> Normalised(r.now)
  }

  /** Times read during the turn are normalised. */
  ghost predicate Honest(t: Turn) {
    && Normalised(t.now)
    && forall c: Call :: forall r :: r in t.effects(c) ==> HonestRequest(r)
  }

  /** Unregistering removes the first handle with the id, keeps all others and their order. */
  lemma {:induction false} RemoveMeaning(before: seq<Handle>, h: Handle, behind: seq<Handle>)
    requires forall x :: x in before ==> x.id != h.id
    ensures Remove(before + [h] + behind, h.id) == before + behind
    ensures Remove(before, h.id) == before
  {
    if before == [] {
      assert [] + [h] + behind == [h] + behind && ([h] + behind)[1..] == behind;
    } else {
      assert (before + [h] + behind)[1..] == before[1..] + [h] + behind;
      RemoveMeaning(before[1..], h, behind);
      assert before == [before[0]] + before[1..];
    }
  }

  lemma {:induction false} RemoveAbsent(handles: seq<Handle>, id: nat)
    requires forall h :: h in handles ==> h.id != id
    ensures Remove(handles, id) == handles
  {
    if handles == [] {
    } else {
      RemoveAbsent(handles[1..], id);
    }
  }

  lemma FirstWith(handles: seq<Handle>, id: nat) returns (k: nat)
    requires exists h :: h in handles && h.id == id
    ensures k < |handles| && handles[k].id == id && forall h :: h in handles[..k] ==> h.id != id
  {
    k := 0;
    while handles[k].id != id
      invariant k < |handles| && forall h :: h in handles[..k] ==> h.id != id
      invariant exists h :: h in handles[k..] && h.id == id
      decreases |handles| - k
    {
      assert handles[k..] == [handles[k]] + handles[k + 1..];
      assert handles[..k + 1] == handles[..k] + [handles[k]];
      k := k + 1;
    }
  }

  lemma RemoveSubset(handles: seq<Handle>, id: nat)
    ensures forall h :: h in Remove(handles, id) ==> h in handles
    ensures FreshIds(handles) ==> FreshIds(Remove(handles, id))
    ensures FreshIds(handles) ==> forall h :: h in Remove(handles, id) <==> h in handles && h.id != id
  {
    if exists h :: h in handles && h.id == id {
      var k := FirstWith(handles, id);
      assert handles == handles[..k] + [handles[k]] + handles[k + 1..];
      RemoveMeaning(handles[..k], handles[k], handles[k + 1..]);
    } else {
      RemoveAbsent(handles, id);
    }
  }

  /** No two handles share an id. */
  ghost predicate FreshIds(handles: seq<Handle>) {
    forall i, j :: 0 <= i < j < |handles| ==> handles[i].id != handles[j].id
  }

  /** Ids are used once and below the next one. */
  ghost predicate Orderly(s: State) {
    FreshIds(s.handles) && forall h :: h in s.handles ==> h.id < s.nextId
  }

  ghost predicate IsKind(h: Handle, r: Request) {
    match r
    case NewTick => h.Tick?
    case NewTimer(period, now) =>
      h.Timer? && h.period == period && h.registered == now &&
      Micros(h.nextRun) == Micros(now) + period * 1000
    case NewListener => h.Listener?
    case Unregister(_) => false
  }

  /**
   Registering appends one handle of the kind asked for, under an id no handle has; unregistering
   leaves exactly the handles with other ids, in order.
  */
  lemma ServeMeaning(s: State, r: Request)
    requires Orderly(s)
    ensures var t := Serve(s, r);
      && Orderly(t)
      && (!r.Unregister? ==> exists h ::
            t.handles == s.handles + [h] && IsKind(h, r) && forall x :: x in s.handles ==> x.id != h.id)
      && (r.Unregister? ==> forall h :: h in t.handles <==> h in s.handles && h.id != r.id)
  {
    var t := Serve(s, r);
    match r
    case Unregister(id) => RemoveSubset(s.handles, id);
    case NewTick => assert t.handles == s.handles + [Tick(s.nextId)] && IsKind(Tick(s.nextId), r);
    case NewListener => assert t.handles == s.handles + [Listener(s.nextId)] && IsKind(Listener(s.nextId), r);
    case NewTimer(period, now) =>
      AddMsConserves(now, period);
      assert IsKind(Timer(s.nextId, period, now, AddMs(now, period)), r);
      assert t.handles == s.handles + [Timer(s.nextId, period, now, AddMs(now, period))];
  }

  lemma {:induction false} ServeKeepsScheduled(s: State, rs: seq<Request>)
    requires Scheduled(s) && forall r :: r in rs ==> HonestRequest(r)
    ensures Scheduled(ServeAll(s, rs))
    decreases |rs|
  {
    if rs == [] {
    } else {
      if rs[0].Unregister? { RemoveSubset(s.handles, rs[0].id); }
      assert rs[0] in rs && Scheduled(Serve(s, rs[0]));
      ServeKeepsScheduled(Serve(s, rs[0]), rs[1..]);
    }
  }

  lemma {:induction false} CallsKeepScheduled(s: State, calls: seq<Call>, t: Turn)
    requires Scheduled(s) && Honest(t)
    ensures Scheduled(AfterCalls(s, calls, t.effects))
    decreases |calls|
  {
    if calls == [] {
    } else {
      ServeKeepsScheduled(s, t.effects(calls[0]));
      CallsKeepScheduled(ServeAll(s, t.effects(calls[0])), calls[1..], t);
    }
  }

  lemma {:induction false} PhaseCallsMembers(phase: Phase, hs: seq<Handle>, now: Timeval)
    ensures forall c :: c in PhaseCalls(phase, hs, now) <==> exists h :: h in hs && CallOf(phase, h, now) == Some(c)
  {
    if hs == [] {
    } else {
      PhaseCallsMembers(phase, hs[1..], now);
      assert forall h :: h in hs <==> h == hs[0] || h in hs[1..];
    }
  }

  lemma {:induction false} PhaseCallsAppend(phase: Phase, a: seq<Handle>, b: seq<Handle>, now: Timeval)
    ensures PhaseCalls(phase, a + b, now) == PhaseCalls(phase, a, now) + PhaseCalls(phase, b, now)
  {
    if a == [] {
      assert a + b == b;
    } else {
      assert (a + b)[1..] == a[1..] + b;
      PhaseCallsAppend(phase, a[1..], b, now);
    }
  }

  /** A phase calls a handle exactly once if it concerns it, after the handles before it and before those behind it. */
  lemma PhaseCallsAround(phase: Phase, before: seq<Handle>, h: Handle, behind: seq<Handle>, now: Timeval)
    ensures var c := CallOf(phase, h, now);
      PhaseCalls(phase, before + [h] + behind, now) ==
        PhaseCalls(phase, before, now) + (if c.Some? then [c.value] else []) + PhaseCalls(phase, behind, now)
  {
    PhaseCallsAppend(phase, before + [h], behind, now);
    PhaseCallsAppend(phase, before, [h], now);
    assert [h][1..] == [];
  }

  // ---------------------------------------------------------------- what one turn calls

  function Rank(c: Call): nat {
    match c
    case RunTick(_) => 0
    case RunTimer(_, _) => 1
    case RunAdd(_) => 2
    case RunProcess(_) => 3
  }

  /** How often a turn must make a call, told from the handle's kind. */
  ghost function Wanted(hs: seq<Handle>, now: Timeval, c: Call): nat {
    match c
    case RunTick(h) => if h.Tick? then multiset(hs)[h] else 0
    case RunTimer(h, at) => if h.Timer? && at == now && Compare(h.nextRun, now) <= 0 then multiset(hs)[h] else 0
    case RunAdd(h) => if h.Listener? then multiset(hs)[h] else 0
    case RunProcess(h) => if h.Listener? then multiset(hs)[h] else 0
  }

  /**
   Every tick is called once, every due timer once, every listener added once and processed once,
   nothing else is called; ticks come before timers, timers before additions, additions before
   processing.
  */
  ghost predicate FullTurn(hs: seq<Handle>, now: Timeval, calls: seq<Call>) {
    && (forall c :: multiset(calls)[c] == Wanted(hs, now, c))
    && (forall i, j :: 0 <= i < j < |calls| ==> Rank(calls[i]) <= Rank(calls[j]))
  }

  lemma WantedStep(h: Handle, rest: seq<Handle>, now: Timeval, phase: Phase, c: Call)
    requires Rank(c) == RankOf(phase)
    ensures Wanted([h] + rest, now, c) == (if CallOf(phase, h, now) == Some(c) then 1 else 0) + Wanted(rest, now, c)
  {
    assert multiset([h] + rest) == multiset{h} + multiset(rest);
  }

  lemma OneMoreCall(x: Call, calls: seq<Call>, c: Call)
    ensures multiset([x] + calls)[c] == (if x == c then 1 else 0) + multiset(calls)[c]
  {
    assert multiset([x] + calls) == multiset{x} + multiset(calls);
  }

  lemma CallRank(phase: Phase, h: Handle, now: Timeval)
    ensures CallOf(phase, h, now).Some? ==> Rank(CallOf(phase, h, now).value) == RankOf(phase)
  {
  }

  lemma PhaseStep(phase: Phase, h: Handle, rest: seq<Handle>, now: Timeval)
    ensures PhaseCalls(phase, [h] + rest, now) ==
      (if CallOf(phase, h, now).Some? then [CallOf(phase, h, now).value] else []) + PhaseCalls(phase, rest, now)
  {
    assert ([h] + rest)[1..] == rest;
  }

  lemma {:induction false} PhaseCount(phase: Phase, hs: seq<Handle>, now: Timeval, c: Call)
    ensures multiset(PhaseCalls(phase, hs, now))[c] == if Rank(c) == RankOf(phase) then Wanted(hs, now, c) else 0
  {
    if hs == [] {
    } else {
      var (h, rest) := (hs[0], hs[1..]);
      var (called, calls) := (CallOf(phase, h, now), PhaseCalls(phase, rest, now));
      PhaseCount(phase, rest, now, c);
      assert hs == [h] + rest;
      PhaseStep(phase, h, rest, now);
      CallRank(phase, h, now);
      if Rank(c) == RankOf(phase) { WantedStep(h, rest, now, phase, c); }
      if called.Some? { OneMoreCall(called.value, calls, c); } else { assert [] + calls == calls; }
    }
  }

  lemma {:induction false} PhaseRank(phase: Phase, hs: seq<Handle>, now: Timeval)
    ensures forall c :: c in PhaseCalls(phase, hs, now) ==> Rank(c) == RankOf(phase)
  {
    if hs == [] {
    } else {
      PhaseRank(phase, hs[1..], now);
    }
  }

  function RankOf(phase: Phase): nat {
    match phase
    case Ticks => 0
    case Timers => 1
    case Adds => 2
    case Processes => 3
  }

  lemma TurnCount(hs: seq<Handle>, now: Timeval, c: Call)
    ensures multiset(Calls(hs, now))[c] == Wanted(hs, now, c)
  {
    PhaseCount(Ticks, hs, now, c);
    PhaseCount(Timers, hs, now, c);
    PhaseCount(Adds, hs, now, c);
    PhaseCount(Processes, hs, now, c);
  }

  lemma TurnOrder(hs: seq<Handle>, now: Timeval)
    ensures var calls := Calls(hs, now); forall i, j :: 0 <= i < j < |calls| ==> Rank(calls[i]) <= Rank(calls[j])
  {
    PhaseRank(Ticks, hs, now);
    PhaseRank(Timers, hs, now);
    PhaseRank(Adds, hs, now);
    PhaseRank(Processes, hs, now);
    var (a, b) := (PhaseCalls(Ticks, hs, now), PhaseCalls(Timers, hs, now));
    var (c, d) := (PhaseCalls(Adds, hs, now), PhaseCalls(Processes, hs, now));
    RankedJoin(a, b, 0, 1);
    RankedJoin(a + b, c, 1, 2);
    RankedJoin(a + b + c, d, 2, 3);
  }

  lemma CallsAreFullTurn(hs: seq<Handle>, now: Timeval)
    ensures FullTurn(hs, now, Calls(hs, now))
  {
    TurnOrder(hs, now);
    forall c ensures multiset(Calls(hs, now))[c] == Wanted(hs, now, c) { TurnCount(hs, now, c); }
  }

  lemma RankedJoin(a: seq<Call>, b: seq<Call>, low: nat, high: nat)
    requires forall i, j :: 0 <= i < j < |a| ==> Rank(a[i]) <= Rank(a[j])
    requires low <= high && (forall c :: c in a ==> Rank(c) <= low) && (forall c :: c in b ==> Rank(c) == high)
    ensures forall i, j :: 0 <= i < j < |a + b| ==> Rank((a + b)[i]) <= Rank((a + b)[j])
    ensures forall c :: c in a + b ==> Rank(c) <= high
  {
    forall i, j | 0 <= i < j < |a + b| ensures Rank((a + b)[i]) <= Rank((a + b)[j]) {
      if j >= |a| {
        assert (a + b)[j] in b;
        assert i < |a| ==> (a + b)[i] in a;
        assert i >= |a| ==> (a + b)[i] in b;
      }
    }
  }

  /** The timer calls of an iteration are those of the due timers registered at its start. */
  lemma TimerCallsOf(hs: seq<Handle>, now: Timeval)
    ensures forall c :: c in Calls(hs, now) && c.RunTimer? <==>
      c.RunTimer? && c.h in hs && c.now == now && Due(c.h, now)
  {
    PhaseCallsMembers(Ticks, hs, now);
    PhaseCallsMembers(Timers, hs, now);
    PhaseCallsMembers(Adds, hs, now);
    PhaseCallsMembers(Processes, hs, now);
    forall c: Call | c.RunTimer? && c.h in hs && c.now == now && Due(c.h, now) ensures c in Calls(hs, now) {
      assert CallOf(Timers, c.h, now) == Some(c);
      assert c in PhaseCalls(Timers, hs, now);
    }
    forall c | c in Calls(hs, now) && c.RunTimer? ensures c.h in hs && c.now == now && Due(c.h, now) {
      if c in PhaseCalls(Ticks, hs, now) { assert false; }
      if c in PhaseCalls(Adds, hs, now) { assert false; }
      if c in PhaseCalls(Processes, hs, now) { assert false; }
    }
  }

  /**
   In every iteration a timer registered at its start fires exactly when its registration time
   plus its period is not later than the iteration's time: never early, and from then on in
   every iteration, because the period is only added on the copy.
  */
  lemma TimerFiresIff(s: State, t: Turn, h: Handle)
    requires Scheduled(s) && Honest(t) && h in s.handles && h.Timer?
    ensures RunTimer(h, t.now) in Calls(s.handles, t.now) <==>
      Micros(h.registered) + h.period * 1000 <= Micros(t.now)
  {
    TimerCallsOf(s.handles, t.now);
    AddMsConserves(h.registered, h.period);
    DueTestIsExact(h.nextRun, t.now);
  }

  /** No timer callback of any run comes before registration time plus period. */
  lemma {:induction false} NeverEarly(s: State, turns: seq<Turn>)
    requires Scheduled(s) && forall k :: 0 <= k < |turns| ==> Honest(turns[k])
    ensures forall c :: c in RunCalls(s, turns) && c.RunTimer? ==>
      c.h.Timer? && Micros(c.h.registered) + c.h.period * 1000 <= Micros(c.now)
    decreases |turns|
  {
    if turns == [] {
    } else {
      var t := turns[0];
      var calls := Calls(s.handles, t.now);
      CallsKeepScheduled(s, calls, t);
      NeverEarly(AfterCalls(s, calls, t.effects), turns[1..]);
      TimerCallsOf(s.handles, t.now);
      forall c | c in calls && c.RunTimer?
        ensures c.h.Timer? && Micros(c.h.registered) + c.h.period * 1000 <= Micros(c.now)
      {
        TimerFiresIff(s, t, c.h);
      }
    }
  }
}
