/**
 The synchronous event cascade: setting an attribute runs the handlers of the links that
 start there, each executes an action, and the action's plugin sets its own output, all
 nested in one call. The number of nested calls the stack allows is an explicit parameter.
 */
module Cascade {
  import opened Text
  import opened NetStructure

  /** A plugin kind by the handlers it installs. A remote component only forwards its actions to the network. */
  datatype Kind = HubBool | Light | StepRelay | Remote(cls: Class)

  /** An attribute of a component; plugins have the one attribute `output`. */
  datatype Port = Port(component: string, attribute: string)
  datatype Target = Target(component: string, action: string)

  /** Links by source attribute, in the order in which their handlers were registered. */
  datatype Net = Net(kinds: map<string, Kind>, links: map<Port, seq<Target>>)

  const BOOL := Enum(["off", "on"])
  const ON := Str("on")
  const OFF := Str("off")

  type Values = map<Port, JsValue>

  datatype Result = Done(values: Values) | Threw(values: Values) | Overflow

  /** The members of a component: every plugin of a kind has the same class. */
  function MemberOf(kind: Kind, name: string): Option<Member> {
    match kind
    case Remote(cls) => MemberByName(cls, name)
    case _ =>
      if name == "output" then Some(Attribute(name, BOOL))
      else if name == "input" || (kind.StepRelay? && name in ["on", "off"]) then Some(Action(name, [BOOL]))
      else None
  }

  /** The type of an attribute, when there is such an attribute. */
  function TypeOf(net: Net, p: Port): Option<NetType> {
    if p.component !in net.kinds then None
    else match MemberOf(net.kinds[p.component], p.attribute)
      case Some(Attribute(_, typ)) => Some(typ)
      case _ => None
  }

  /** `setAttribute` asserts that the attribute exists and checks the value. */
  predicate Accepts(net: Net, p: Port, v: JsValue) {
    TypeOf(net, p).Some? && CheckArg(v, TypeOf(net, p).value)
  }

  /** `executeAction` asserts that the action exists, counts the arguments and checks the one a link passes. */
  predicate Callable(net: Net, t: Target, v: JsValue) {
    t.component in net.kinds &&
    match MemberOf(net.kinds[t.component], t.action)
    case Some(Action(_, types)) => |types| == 1 && CheckArg(v, types[0])
    case _ => false
  }

  function Handlers(net: Net, p: Port): seq<Target> {
    if p in net.links then net.links[p] else []
  }

  function Output(component: string): Port {
    Port(component, "output")
  }

  function Next(t: Target): Port {
    Output(t.component)
  }

  function Current(values: Values, p: Port): JsValue {
    if p in values then values[p] else Null
  }

  function Toggled(v: JsValue): JsValue {
    if v == ON then OFF else ON
  }

  function AfterSet(net: Net, values: Values, p: Port, v: JsValue, depth: nat): Result
    decreases depth, 0, 0
  {
    if depth == 0 then Overflow
    else if !Accepts(net, p, v) then Threw(values)
    else AfterHandlers(net, values[p := v], Handlers(net, p), v, depth - 1)
  }

  /** Runs the handlers in order; the first one that throws ends the cascade. */
  function AfterHandlers(net: Net, values: Values, targets: seq<Target>, v: JsValue, depth: nat): Result
    decreases depth, 2, |targets|
  {
    if targets == [] then Done(values)
    else
      match AfterAction(net, values, targets[0], v, depth)
      case Done(after) => AfterHandlers(net, after, targets[1..], v, depth)
      case other => other
  }

  /** What executing an action makes its component do: nothing more, or set its output. */
  datatype Effect = Nothing | Set(value: JsValue) | Throw

  function EffectOf(net: Net, t: Target, v: JsValue, current: JsValue): Effect {
    if !Callable(net, t, v) then Throw
    else match net.kinds[t.component]
      case Remote(_) => Nothing
      case HubBool => Set(v)
      case Light => Set(v)
      case StepRelay =>
        if v != ON then Nothing
        else if t.action == "input" then Set(Toggled(current))
        else if t.action == "on" then (if current != ON then Set(ON) else Nothing)
        else (if current != OFF then Set(OFF) else Nothing)
  }

  function AfterAction(net: Net, values: Values, t: Target, v: JsValue, depth: nat): Result
    decreases depth, 1, 0
  {
    match EffectOf(net, t, v, Current(values, Next(t)))
    case Nothing => Done(values)
    case Throw => Threw(values)
    case Set(w) => AfterSet(net, values, Next(t), w, depth)
  }

  /** What an on/off member takes: one of the two words, the empty text, or no value. */
  predicate Switches(v: JsValue) {
    v in {Null, Undefined, Str(""), Str("on"), Str("off")}
  }

  /** The first member with the name is this one. */
  ghost predicate LeadsAt(cls: Class, m: Member, i: nat) {
    i < |cls| && cls[i] == m && forall k :: 0 <= k < i ==> cls[k].name != m.name
  }

  ghost predicate Leads(cls: Class, m: Member) {
    exists i: nat :: LeadsAt(cls, m, i)
  }

  /** The component has the action and the action takes the value. */
  ghost predicate Takes(net: Net, t: Target, v: JsValue) {
    t.component in net.kinds &&
    match net.kinds[t.component]
    case Remote(cls) => exists typ :: Leads(cls, Action(t.action, [typ])) && CheckArg(v, typ)
    case StepRelay => t.action in {"input", "on", "off"} && Switches(v)
    case _ => t.action == "input" && Switches(v)
  }

  /** The component has the attribute and the attribute takes the value. */
  ghost predicate Holds(net: Net, p: Port, v: JsValue) {
    p.component in net.kinds &&
    match net.kinds[p.component]
    case Remote(cls) => exists typ :: Leads(cls, Attribute(p.attribute, typ)) && CheckArg(v, typ)
    case _ => p.attribute == "output" && Switches(v)
  }

  lemma {:induction false} LeadsIff(cls: Class, m: Member)
    ensures Leads(cls, m) <==> MemberByName(cls, m.name) == Some(m)
  {
    if cls == [] {
    } else if cls[0].name == m.name {
      if cls[0] == m { assert LeadsAt(cls, m, 0); }
    } else {
      LeadsIff(cls[1..], m);
      if i: nat :| LeadsAt(cls[1..], m, i) { assert LeadsAt(cls, m, i + 1); }
      if i: nat :| LeadsAt(cls, m, i) { assert LeadsAt(cls[1..], m, i - 1); }
    }
  }

  /** A component throws exactly when it lacks the action or the action does not take the value. */
  lemma ThrowsUnlessTaken(net: Net, t: Target, v: JsValue, current: JsValue)
    ensures EffectOf(net, t, v, current).Throw? <==> !Takes(net, t, v)
  {
    assert CheckArg(v, BOOL) <==> Switches(v);
    if t.component in net.kinds && net.kinds[t.component].Remote? {
      var cls := net.kinds[t.component].cls;
      forall typ { LeadsIff(cls, Action(t.action, [typ])); }
      var m := MemberByName(cls, t.action);
      if m.Some? && m.value.Action? && |m.value.arguments| == 1 {
        assert m.value == Action(t.action, [m.value.arguments[0]]);
      }
    }
  }

  lemma AcceptsIff(net: Net, p: Port, v: JsValue)
    ensures Accepts(net, p, v) <==> Holds(net, p, v)
  {
    assert CheckArg(v, BOOL) <==> Switches(v);
    if p.component in net.kinds && net.kinds[p.component].Remote? {
      var cls := net.kinds[p.component].cls;
      forall typ { LeadsIff(cls, Attribute(p.attribute, typ)); }
      var m := MemberByName(cls, p.attribute);
      if m.Some? && m.value.Attribute? { assert m.value == Attribute(p.attribute, m.value.typ); }
    }
  }

  // ---------------------------------------------------------------- the cascade in place

  datatype Ending = Returned | Thrown | Exhausted

  predicate Agrees(r: Result, ending: Ending, values: Values) {
    match r
    case Done(after) => ending == Returned && values == after
    case Threw(after) => ending == Thrown && values == after
    case Overflow => ending == Exhausted
  }

  /** The objects' attribute values, overwritten while the cascade runs. */
  class Runtime {
    const net: Net
    var attributeValues: Values

    constructor (net: Net, values: Values)
      ensures this.net == net && attributeValues == values
    {
      this.net := net;
      attributeValues := values;
    }

    method SetAttribute(p: Port, v: JsValue, depth: nat) returns (ending: Ending)
      modifies this`attributeValues
      ensures Agrees(AfterSet(net, old(attributeValues), p, v, depth), ending, attributeValues)
      decreases depth, 0
    {
      if depth == 0 { return Exhausted; }
      if !Accepts(net, p, v) { return Thrown; }
      attributeValues := attributeValues[p := v];
      var targets := Handlers(net, p);
      ghost var start := attributeValues;
      assert targets[0..] == targets;
      var i := 0;
      while i < |targets|
        invariant 0 <= i <= |targets|
        invariant AfterHandlers(net, attributeValues, targets[i..], v, depth - 1) ==
          AfterHandlers(net, start, targets, v, depth - 1)
      {
        assert targets[i..][1..] == targets[i + 1..];
        var step := ExecuteAction(targets[i], v, depth - 1);
        if step != Returned { return step; }
        i := i + 1;
      }
      return Returned;
    }

    method ExecuteAction(t: Target, v: JsValue, depth: nat) returns (ending: Ending)
      modifies this`attributeValues
      ensures Agrees(AfterAction(net, old(attributeValues), t, v, depth), ending, attributeValues)
      decreases depth, 1
    {
      match EffectOf(net, t, v, Current(attributeValues, Next(t))) {
        case Nothing => ending := Returned;
        case Throw => ending := Thrown;
        case Set(w) => ending := SetAttribute(Next(t), w, depth);
      }
    }
  }

  // ---------------------------------------------------------------- link paths

  /** There is a path of n links from p to q. */
  ghost predicate Reaches(net: Net, p: Port, q: Port, n: nat)
    decreases n
  {
    if n == 0 then p == q else exists t :: t in Handlers(net, p) && Reaches(net, Next(t), q, n - 1)
  }

  ghost predicate Reachable(net: Net, p: Port, q: Port) {
    exists n: nat :: Reaches(net, p, q, n)
  }

  /** There is a path of n links from p. */
  ghost predicate Stretches(net: Net, p: Port, n: nat)
    decreases n
  {
    n == 0 || exists t :: t in Handlers(net, p) && Stretches(net, Next(t), n - 1)
  }

  predicate PassThrough(net: Net, t: Target) {
    t.component in net.kinds && net.kinds[t.component] in {HubBool, Light} && t.action == "input"
  }

  /** Everything that can be reached from p is a hub or a light, entered at its input. */
  ghost predicate PassThroughBelow(net: Net, p: Port) {
    forall q, t :: Reachable(net, p, q) && t in Handlers(net, q) ==> PassThrough(net, t)
  }

  lemma ReachableStep(net: Net, p: Port, t: Target, q: Port)
    requires t in Handlers(net, p) && Reachable(net, Next(t), q)
    ensures Reachable(net, p, q)
  {
    var n: nat :| Reaches(net, Next(t), q, n);
    assert Reaches(net, p, q, n + 1);
  }

  lemma ReachableCases(net: Net, p: Port, q: Port)
    ensures Reachable(net, p, q) <==> p == q || exists t :: t in Handlers(net, p) && Reachable(net, Next(t), q)
  {
    if Reachable(net, p, q) && p != q {
      var n: nat :| Reaches(net, p, q, n);
      var t :| t in Handlers(net, p) && Reaches(net, Next(t), q, n - 1);
      assert Reachable(net, Next(t), q);
    }
    if p == q { assert Reaches(net, p, q, 0); }
    if t :| t in Handlers(net, p) && Reachable(net, Next(t), q) { ReachableStep(net, p, t, q); }
  }

  lemma PassThroughStep(net: Net, p: Port)
    requires PassThroughBelow(net, p)
    ensures forall t :: t in Handlers(net, p) ==> PassThrough(net, t) && PassThroughBelow(net, Next(t))
  {
    ReachableCases(net, p, p);
    forall t | t in Handlers(net, p) ensures PassThroughBelow(net, Next(t)) {
      forall q, u | Reachable(net, Next(t), q) && u in Handlers(net, q) ensures PassThrough(net, u) {
        ReachableStep(net, p, t, q);
      }
    }
  }

  // ---------------------------------------------------------------- cascades through hubs and lights

  /** Every port some target leads to now holds v, every other port is as before. */
  ghost predicate Flooded(net: Net, before: Values, after: Values, targets: seq<Target>, v: JsValue) {
    forall q :: Current(after, q) ==
      if exists t :: t in targets && Reachable(net, Next(t), q) then v else Current(before, q)
  }

  lemma {:induction false} EmitFloods(net: Net, values: Values, targets: seq<Target>, v: JsValue, depth: nat)
    requires CheckArg(v, BOOL) && forall t :: t in targets ==> PassThrough(net, t) && PassThroughBelow(net, Next(t))
    ensures var r := AfterHandlers(net, values, targets, v, depth);
      && !r.Threw?
      && (r.Overflow? <==> exists t :: t in targets && Stretches(net, Next(t), depth))
      && (r.Done? ==> Flooded(net, values, r.values, targets, v))
    decreases depth, 1, |targets|
  {
    if targets == [] {
    } else {
      var (t, rest) := (targets[0], targets[1..]);
      assert forall u :: u in targets <==> u == t || u in rest;
      SetFloods(net, values, Next(t), v, depth);
      var first := AfterSet(net, values, Next(t), v, depth);
      assert first == AfterAction(net, values, t, v, depth);
      if first.Done? {
        EmitFloods(net, first.values, rest, v, depth);
      }
    }
  }

  /**
   Through hubs and lights only: the cascade exhausts a stack of the given depth exactly when
   that many links can be followed from the source, it never throws, and when it returns every
   reachable port holds the value and no other port changed.
  */
  lemma {:induction false} SetFloods(net: Net, values: Values, p: Port, v: JsValue, depth: nat)
    requires Accepts(net, p, v) && CheckArg(v, BOOL) && PassThroughBelow(net, p)
    ensures var r := AfterSet(net, values, p, v, depth);
      && !r.Threw?
      && (r.Overflow? <==> Stretches(net, p, depth))
      && (r.Done? ==> forall q :: Current(r.values, q) == if Reachable(net, p, q) then v else Current(values, q))
    decreases depth, 0, 0
  {
    if depth == 0 {
    } else {
      PassThroughStep(net, p);
      var targets := Handlers(net, p);
      EmitFloods(net, values[p := v], targets, v, depth - 1);
      forall q ensures Reachable(net, p, q) <==> p == q || exists t :: t in targets && Reachable(net, Next(t), q) {
        ReachableCases(net, p, q);
      }
    }
  }

  // ---------------------------------------------------------------- hardware at the end of the links

  function Flowing(net: Net, targets: seq<Target>): seq<Target> {
    if targets == [] then []
    else (if PassThrough(net, targets[0]) then [targets[0]] else []) + Flowing(net, targets[1..])
  }

  /** The links along which values pass on: those into hubs and lights. */
  function Flow(net: Net): Net {
    Net(net.kinds, map p | p in net.links :: Flowing(net, net.links[p]))
  }

  /** A remote component's action that takes the value: it is sent away and sets nothing. */
  predicate Sink(net: Net, t: Target, v: JsValue) {
    t.component in net.kinds && net.kinds[t.component].Remote? && Callable(net, t, v)
  }

  /** Wherever the value passes, it meets hubs, lights and remote actions that take it. */
  ghost predicate FlowsBelow(net: Net, p: Port, v: JsValue) {
    forall q, t :: Reachable(Flow(net), p, q) && t in Handlers(net, q) ==> PassThrough(net, t) || Sink(net, t, v)
  }

  lemma {:induction false} FlowingMembers(net: Net, targets: seq<Target>)
    ensures forall t :: t in Flowing(net, targets) <==> t in targets && PassThrough(net, t)
  {
    if targets == [] {
    } else {
      FlowingMembers(net, targets[1..]);
      assert forall t :: t in targets <==> t == targets[0] || t in targets[1..];
    }
  }

  lemma FlowHandlers(net: Net, p: Port)
    ensures Handlers(Flow(net), p) == Flowing(net, Handlers(net, p))
    ensures forall t :: t in Handlers(Flow(net), p) <==> t in Handlers(net, p) && PassThrough(net, t)
  {
    FlowingMembers(net, Handlers(net, p));
  }

  lemma FlowPasses(net: Net, p: Port)
    ensures PassThroughBelow(Flow(net), p)
  {
    forall q, t | t in Handlers(Flow(net), q) ensures PassThrough(Flow(net), t) { FlowHandlers(net, q); }
  }

  lemma FlowsStep(net: Net, p: Port, v: JsValue)
    requires FlowsBelow(net, p, v)
    ensures forall t :: t in Handlers(net, p) ==>
      (PassThrough(net, t) && FlowsBelow(net, Next(t), v)) || Sink(net, t, v)
  {
    ReachableCases(Flow(net), p, p);
    FlowHandlers(net, p);
    forall t | t in Handlers(net, p) && PassThrough(net, t) ensures FlowsBelow(net, Next(t), v) {
      forall q, u | Reachable(Flow(net), Next(t), q) && u in Handlers(net, q)
        ensures PassThrough(net, u) || Sink(net, u, v)
      {
        ReachableStep(Flow(net), p, t, q);
      }
    }
  }

  lemma {:induction false} HandlersFlow(net: Net, values: Values, targets: seq<Target>, v: JsValue, depth: nat)
    requires CheckArg(v, BOOL)
    requires forall t :: t in targets ==> (PassThrough(net, t) && FlowsBelow(net, Next(t), v)) || Sink(net, t, v)
    ensures AfterHandlers(net, values, targets, v, depth) ==
      AfterHandlers(Flow(net), values, Flowing(net, targets), v, depth)
    decreases depth, 1, |targets|
  {
    if targets == [] {
    } else {
      var (t, rest) := (targets[0], targets[1..]);
      if PassThrough(net, t) {
        SetFlows(net, values, Next(t), v, depth);
        assert Flowing(net, targets)[1..] == Flowing(net, rest);
        var first := AfterAction(net, values, t, v, depth);
        assert first == AfterAction(Flow(net), values, t, v, depth);
        if first.Done? { HandlersFlow(net, first.values, rest, v, depth); }
      } else {
        assert AfterAction(net, values, t, v, depth) == Done(values);
        assert Flowing(net, targets) == Flowing(net, rest);
        HandlersFlow(net, values, rest, v, depth);
      }
    }
  }

  /** Remote actions make no difference to the attribute values. */
  lemma {:induction false} SetFlows(net: Net, values: Values, p: Port, v: JsValue, depth: nat)
    requires CheckArg(v, BOOL) && FlowsBelow(net, p, v)
    ensures AfterSet(net, values, p, v, depth) == AfterSet(Flow(net), values, p, v, depth)
    decreases depth, 0, 0
  {
    if depth == 0 {
    } else {
      FlowsStep(net, p, v);
      FlowHandlers(net, p);
      HandlersFlow(net, values[p := v], Handlers(net, p), v, depth - 1);
    }
  }

  /**
   Through hubs and lights to remote components: the cascade exhausts a stack of the given depth
   exactly when that many links into hubs and lights can be followed from the source, it never throws,
   and when it returns every port reached along such links holds the value and no other port changed.
  */
  lemma SetAttributeFloods(net: Net, values: Values, p: Port, v: JsValue, depth: nat)
    requires Accepts(net, p, v) && CheckArg(v, BOOL) && FlowsBelow(net, p, v)
    ensures var r := AfterSet(net, values, p, v, depth);
      && !r.Threw?
      && (r.Overflow? <==> Stretches(Flow(net), p, depth))
      && (r.Done? ==> forall q :: Current(r.values, q) == if Reachable(Flow(net), p, q) then v else Current(values, q))
  {
    FlowPasses(net, p);
    SetFlows(net, values, p, v, depth);
    SetFloods(Flow(net), values, p, v, depth);
  }

  // ---------------------------------------------------------------- cycles

  /** Some port that can be reached from p lies on a cycle of links. */
  ghost predicate CycleBelow(net: Net, p: Port) {
    exists q, n: nat :: n > 0 && Reachable(net, p, q) && Reaches(net, q, q, n)
  }

  lemma {:induction false} ReachesThenStep(net: Net, p: Port, q: Port, n: nat, t: Target)
    requires Reaches(net, p, q, n) && t in Handlers(net, q)
    ensures Reaches(net, p, Next(t), n + 1)
    decreases n
  {
    if n == 0 {
      assert Reaches(net, Next(t), Next(t), 0);
    } else {
      var u :| u in Handlers(net, p) && Reaches(net, Next(u), q, n - 1);
      ReachesThenStep(net, Next(u), q, n - 1, t);
    }
  }

  lemma {:induction false} CycleStretches(net: Net, p: Port, q: Port, k: nat, m: nat, n: nat)
    requires m > 0 && Reaches(net, p, q, k) && Reaches(net, q, q, m)
    ensures Stretches(net, p, n)
    decreases n
  {
    if n == 0 {
    } else {
      var k' := if k == 0 then m else k;
      var t :| t in Handlers(net, p) && Reaches(net, Next(t), q, k' - 1);
      CycleStretches(net, Next(t), q, k' - 1, m, n - 1);
    }
  }

  ghost predicate Linked(net: Net, p: Port, q: Port) {
    exists t :: t in Handlers(net, p) && Next(t) == q
  }

  /** A sequence of ports, each linked to the next. */
  ghost predicate IsWalk(net: Net, w: seq<Port>) {
    forall i, j :: 0 <= i && j == i + 1 < |w| ==> Linked(net, w[i], w[j])
  }

  lemma {:induction false} WalkOf(net: Net, p: Port, n: nat) returns (w: seq<Port>)
    requires Stretches(net, p, n)
    ensures |w| == n + 1 && w[0] == p && IsWalk(net, w)
    decreases n
  {
    w := [p];
    if n == 0 {
    } else {
      var t :| t in Handlers(net, p) && Stretches(net, Next(t), n - 1);
      var rest := WalkOf(net, Next(t), n - 1);
      w := [p] + rest;
      forall i, j | 0 <= i && j == i + 1 < |w| ensures Linked(net, w[i], w[j]) {
        assert i > 0 ==> Linked(net, rest[i - 1], rest[j - 1]);
      }
    }
  }

  lemma ReachesThenLinked(net: Net, p: Port, q: Port, n: nat, r: Port)
    requires Reaches(net, p, q, n) && Linked(net, q, r)
    ensures Reaches(net, p, r, n + 1)
  {
    var t :| t in Handlers(net, q) && Next(t) == r;
    ReachesThenStep(net, p, q, n, t);
  }

  lemma {:induction false} WalkReaches(net: Net, w: seq<Port>, i: nat, j: nat)
    requires IsWalk(net, w) && i <= j < |w|
    ensures Reaches(net, w[i], w[j], j - i)
    decreases j
  {
    if i == j {
    } else {
      WalkReaches(net, w, i, j - 1);
      var q := w[j - 1];
      assert Linked(net, q, w[j]);
      ReachesThenLinked(net, w[i], q, j - 1 - i, w[j]);
    }
  }

  lemma {:induction false} Pigeonhole(w: seq<Port>, room: set<Port>)
    requires |w| > |room| && forall p :: p in w ==> p in room
    ensures exists i, j :: 0 <= i < j < |w| && w[i] == w[j]
    decreases |w|
  {
    var front, last := w[..|w| - 1], w[|w| - 1];
    if last in front {
      var i :| 0 <= i < |front| && front[i] == last;
      assert w[i] == w[|w| - 1];
    } else {
      assert last in room;
      Pigeonhole(front, room - {last});
      var i, j :| 0 <= i < j < |front| && front[i] == front[j];
      assert w[i] == w[j];
    }
  }

  /** A walk longer than the number of linked ports passes some port twice. */
  lemma LongWalkCycles(net: Net, p: Port, n: nat)
    requires n > |net.links.Keys| && Stretches(net, p, n)
    ensures CycleBelow(net, p)
  {
    var w := WalkOf(net, p, n);
    forall q | q in w[..n] ensures q in net.links.Keys {
      var i :| 0 <= i < n && w[..n][i] == q;
      assert w[i] == q;
      assert Linked(net, w[i], w[i + 1]);
    }
    Pigeonhole(w[..n], net.links.Keys);
    var i, j :| 0 <= i < j < n && w[..n][i] == w[..n][j];
    WalkReaches(net, w, 0, i);
    WalkReaches(net, w, i, j);
    assert Reachable(net, p, w[i]);
  }

  /**
   Paths of every length exist exactly when a cycle can be reached; otherwise none is longer than the
   number of linked ports.
   */
  lemma StretchesIffCycle(net: Net, p: Port, n: nat)
    requires n > |net.links.Keys|
    ensures Stretches(net, p, n) <==> CycleBelow(net, p)
  {
    if q, m: nat :| m > 0 && Reachable(net, p, q) && Reaches(net, q, q, m) {
      var k: nat :| Reaches(net, p, q, k);
      CycleStretches(net, p, q, k, m, n);
    }
    if Stretches(net, p, n) { LongWalkCycles(net, p, n); }
  }

  // ---------------------------------------------------------------- when a cascade throws

  predicate IntoRelay(net: Net, t: Target) {
    t.component in net.kinds && net.kinds[t.component].StepRelay?
  }

  ghost predicate NoRelayBelow(net: Net, p: Port) {
    forall q, t :: Reachable(Flow(net), p, q) && t in Handlers(net, q) ==> !IntoRelay(net, t)
  }

  /** Along hubs and lights some link is reached whose target does not take the value. */
  ghost predicate RefusedBelow(net: Net, p: Port, v: JsValue) {
    exists q, t :: Reachable(Flow(net), p, q) && t in Handlers(net, q) && !Takes(net, t, v)
  }

  ghost predicate RefusedVia(net: Net, t: Target, v: JsValue) {
    !Takes(net, t, v) || (PassThrough(net, t) && RefusedBelow(net, Next(t), v))
  }

  /** Values flow freely exactly when no relay is met and nothing refuses them. */
  lemma FlowsIff(net: Net, p: Port, v: JsValue)
    requires Switches(v)
    ensures FlowsBelow(net, p, v) <==> NoRelayBelow(net, p) && !RefusedBelow(net, p, v)
  {
    forall t ensures PassThrough(net, t) || Sink(net, t, v) <==> !IntoRelay(net, t) && Takes(net, t, v) {
      ThrowsUnlessTaken(net, t, v, Null);
    }
  }

  lemma RefusedStep(net: Net, p: Port, v: JsValue)
    ensures RefusedBelow(net, p, v) <==> exists t :: t in Handlers(net, p) && RefusedVia(net, t, v)
  {
    FlowHandlers(net, p);
    ReachableCases(Flow(net), p, p);
    if q, t :| Reachable(Flow(net), p, q) && t in Handlers(net, q) && !Takes(net, t, v) {
      ReachableCases(Flow(net), p, q);
      if p != q {
        var u :| u in Handlers(Flow(net), p) && Reachable(Flow(net), Next(u), q);
        assert RefusedVia(net, u, v);
      } else {
        assert RefusedVia(net, t, v);
      }
    }
    if t :| t in Handlers(net, p) && PassThrough(net, t) && RefusedBelow(net, Next(t), v) {
      var q, u :| Reachable(Flow(net), Next(t), q) && u in Handlers(net, q) && !Takes(net, u, v);
      ReachableStep(Flow(net), p, t, q);
    }
  }

  lemma NoRelayStep(net: Net, p: Port)
    requires NoRelayBelow(net, p)
    ensures forall t :: t in Handlers(net, p) ==>
      !IntoRelay(net, t) && (PassThrough(net, t) ==> NoRelayBelow(net, Next(t)))
  {
    FlowHandlers(net, p);
    ReachableCases(Flow(net), p, p);
    forall t | t in Handlers(net, p) && PassThrough(net, t) ensures NoRelayBelow(net, Next(t)) {
      forall q, u | Reachable(Flow(net), Next(t), q) && u in Handlers(net, q) ensures !IntoRelay(net, u) {
        ReachableStep(Flow(net), p, t, q);
      }
    }
  }

  /** Hubs and lights set what they take, and it is accepted; remote components set nothing. */
  lemma TakenEffect(net: Net, t: Target, v: JsValue, current: JsValue)
    requires !IntoRelay(net, t)
    ensures EffectOf(net, t, v, current) ==
      if !Takes(net, t, v) then Throw else if PassThrough(net, t) then Set(v) else Nothing
    ensures PassThrough(net, t) && Takes(net, t, v) ==> Accepts(net, Next(t), v)
  {
    ThrowsUnlessTaken(net, t, v, current);
    AcceptsIff(net, Next(t), v);
    if Takes(net, t, v) {
      match net.kinds[t.component]
      case HubBool =>
      case Light =>
      case Remote(_) =>
    }
  }

  lemma {:induction false} HandlersThrow(net: Net, values: Values, targets: seq<Target>, v: JsValue, depth: nat)
    requires forall t :: t in targets ==> !IntoRelay(net, t)
    requires forall t :: t in targets && PassThrough(net, t) ==>
      NoRelayBelow(net, Next(t)) && !Stretches(Flow(net), Next(t), depth)
    ensures var r := AfterHandlers(net, values, targets, v, depth);
      !r.Overflow? && (r.Threw? <==> exists t :: t in targets && RefusedVia(net, t, v))
    decreases depth, 1, |targets|
  {
    if targets == [] {
    } else {
      var (t, rest) := (targets[0], targets[1..]);
      assert forall u :: u in targets <==> u == t || u in rest;
      TakenEffect(net, t, v, Current(values, Next(t)));
      if PassThrough(net, t) && Takes(net, t, v) { SetThrows(net, values, Next(t), v, depth); }
      var first := AfterAction(net, values, t, v, depth);
      assert !first.Overflow? && (first.Threw? <==> RefusedVia(net, t, v));
      FirstThenRest(net, values, targets, v, depth, "");
      if first.Done? { HandlersThrow(net, first.values, rest, v, depth); }
    }
  }

  lemma {:induction false} SetThrows(net: Net, values: Values, p: Port, v: JsValue, depth: nat)
    requires Accepts(net, p, v) && NoRelayBelow(net, p) && !Stretches(Flow(net), p, depth)
    ensures var r := AfterSet(net, values, p, v, depth);
      !r.Overflow? && (r.Threw? <==> RefusedBelow(net, p, v))
    decreases depth, 0, 0
  {
    NoRelayStep(net, p);
    RefusedStep(net, p, v);
    FlowHandlers(net, p);
    HandlersThrow(net, values[p := v], Handlers(net, p), v, depth - 1);
  }

  /** Handler i passes the value on, and no handler before it leads to a refusal. */
  ghost predicate PassesAt(net: Net, targets: seq<Target>, i: nat, v: JsValue) {
    i < |targets| && PassThrough(net, targets[i]) && Takes(net, targets[i], v) &&
    forall k :: 0 <= k < i ==> !RefusedVia(net, targets[k], v)
  }

  /** Through n links the value comes from p to q before anything is refused. */
  ghost predicate SetThrough(net: Net, p: Port, q: Port, v: JsValue, n: nat)
    decreases n
  {
    if n == 0 then p == q
    else
      exists i: nat :: PassesAt(net, Handlers(net, p), i, v) &&
        SetThrough(net, Next(Handlers(net, p)[i]), q, v, n - 1)
  }

  ghost predicate SetBelow(net: Net, p: Port, q: Port, v: JsValue) {
    exists n: nat :: SetThrough(net, p, q, v, n)
  }

  ghost predicate SetVia(net: Net, targets: seq<Target>, q: Port, v: JsValue) {
    exists i: nat :: PassesAt(net, targets, i, v) && SetBelow(net, Next(targets[i]), q, v)
  }

  lemma SetBelowCases(net: Net, p: Port, q: Port, v: JsValue)
    ensures SetBelow(net, p, q, v) <==> p == q || SetVia(net, Handlers(net, p), q, v)
  {
    var targets := Handlers(net, p);
    if p == q { assert SetThrough(net, p, q, v, 0); }
    if n: nat :| SetThrough(net, p, q, v, n) {
      if n > 0 {
        var i: nat :| PassesAt(net, targets, i, v) && SetThrough(net, Next(targets[i]), q, v, n - 1);
        assert SetBelow(net, Next(targets[i]), q, v);
      }
    }
    if i: nat :| PassesAt(net, targets, i, v) && SetBelow(net, Next(targets[i]), q, v) {
      var n: nat :| SetThrough(net, Next(targets[i]), q, v, n);
      assert SetThrough(net, p, q, v, n + 1);
    }
  }

  lemma SetViaCases(net: Net, targets: seq<Target>, q: Port, v: JsValue)
    requires targets != []
    ensures SetVia(net, targets, q, v) <==>
      || (PassThrough(net, targets[0]) && Takes(net, targets[0], v) && SetBelow(net, Next(targets[0]), q, v))
      || (!RefusedVia(net, targets[0], v) && SetVia(net, targets[1..], q, v))
  {
    var rest := targets[1..];
    if i: nat :| PassesAt(net, targets, i, v) && SetBelow(net, Next(targets[i]), q, v) {
      if i > 0 { assert PassesAt(net, rest, i - 1, v); }
    }
    if PassThrough(net, targets[0]) && Takes(net, targets[0], v) { assert PassesAt(net, targets, 0, v); }
    if i: nat :| !RefusedVia(net, targets[0], v) && PassesAt(net, rest, i, v) && SetBelow(net, Next(rest[i]), q, v) {
      assert PassesAt(net, targets, i + 1, v);
    }
  }

  lemma {:induction false} HandlersLeave(
    net: Net, values: Values, targets: seq<Target>, v: JsValue, depth: nat, q: Port)
    requires forall t :: t in targets ==> !IntoRelay(net, t)
    requires forall t :: t in targets && PassThrough(net, t) ==>
      NoRelayBelow(net, Next(t)) && !Stretches(Flow(net), Next(t), depth)
    ensures var r := AfterHandlers(net, values, targets, v, depth);
      !r.Overflow? && Current(r.values, q) == if SetVia(net, targets, q, v) then v else Current(values, q)
    decreases depth, 1, |targets|
  {
    HandlersThrow(net, values, targets, v, depth);
    if targets == [] {
    } else {
      var (t, rest) := (targets[0], targets[1..]);
      TakenEffect(net, t, v, Current(values, Next(t)));
      SetViaCases(net, targets, q, v);
      FirstThenRest(net, values, targets, v, depth, "");
      if PassThrough(net, t) && Takes(net, t, v) {
        SetThrows(net, values, Next(t), v, depth);
        SetLeaves(net, values, Next(t), v, depth, q);
      }
      var first := AfterAction(net, values, t, v, depth);
      assert first.Threw? <==> RefusedVia(net, t, v);
      if first.Done? { HandlersLeave(net, first.values, rest, v, depth, q); }
    }
  }

  lemma {:induction false} SetLeaves(net: Net, values: Values, p: Port, v: JsValue, depth: nat, q: Port)
    requires Accepts(net, p, v) && NoRelayBelow(net, p) && !Stretches(Flow(net), p, depth)
    ensures var r := AfterSet(net, values, p, v, depth);
      !r.Overflow? && Current(r.values, q) == if SetBelow(net, p, q, v) then v else Current(values, q)
    decreases depth, 0, 0
  {
    NoRelayStep(net, p);
    FlowHandlers(net, p);
    SetBelowCases(net, p, q, v);
    HandlersLeave(net, values[p := v], Handlers(net, p), v, depth - 1, q);
  }

  /**
   Without a reachable cycle and without a relay on the way, setting an attribute throws exactly when
   it does not take the value or the value meets, along hubs and lights, a link whose target is missing
   or does not take it. Otherwise it returns. Nothing is undone and nothing more is done: the attributes
   that hold the value are those it came to before the first refusal, the others are as they were.
  */
  lemma ThrowsIff(net: Net, values: Values, p: Port, v: JsValue, depth: nat)
    requires NoRelayBelow(net, p) && !CycleBelow(Flow(net), p) && depth > |net.links.Keys|
    ensures var r := AfterSet(net, values, p, v, depth);
      && (r.Threw? <==> !Holds(net, p, v) || RefusedBelow(net, p, v))
      && (r.Done? <==> Holds(net, p, v) && !RefusedBelow(net, p, v))
      && (!Holds(net, p, v) ==> r.values == values)
      && (Holds(net, p, v) ==>
            forall q :: Current(r.values, q) == if SetBelow(net, p, q, v) then v else Current(values, q))
  {
    assert Flow(net).links.Keys == net.links.Keys;
    StretchesIffCycle(Flow(net), p, depth);
    AcceptsIff(net, p, v);
    if Accepts(net, p, v) {
      SetThrows(net, values, p, v, depth);
      forall q { SetLeaves(net, values, p, v, depth, q); }
    }
  }

  /**
   Setting an attribute whose value meets no relay and is never refused: the cascade terminates exactly
   when the links into hubs and lights form no reachable cycle, and then every output reached along
   them equals the value and no other attribute changed. With a cycle no stack is deep enough.
  */
  lemma CascadeReach(net: Net, values: Values, p: Port, v: JsValue, depth: nat)
    requires Switches(v) && Holds(net, p, v) && NoRelayBelow(net, p) && !RefusedBelow(net, p, v)
    requires depth > |net.links.Keys|
    ensures var r := AfterSet(net, values, p, v, depth);
      && (r.Done? <==> !CycleBelow(Flow(net), p))
      && (r.Done? ==> forall q :: Current(r.values, q) == if Reachable(Flow(net), p, q) then v else Current(values, q))
  {
    assert Flow(net).links.Keys == net.links.Keys;
    FlowsIff(net, p, v);
    AcceptsIff(net, p, v);
    SetAttributeFloods(net, values, p, v, depth);
    StretchesIffCycle(Flow(net), p, depth);
  }

  // ---------------------------------------------------------------- cascades through any plugins

  lemma {:induction false} HandlersFrame(
    net: Net, values: Values, targets: seq<Target>, v: JsValue, depth: nat, q: Port)
    requires forall t :: t in targets ==> !Reachable(net, Next(t), q)
    ensures var r := AfterHandlers(net, values, targets, v, depth);
      !r.Overflow? ==> Current(r.values, q) == Current(values, q)
    decreases depth, 1, |targets|
  {
    if targets == [] {
    } else {
      var t := targets[0];
      var effect := EffectOf(net, t, v, Current(values, Next(t)));
      if effect.Set? { SetFrame(net, values, Next(t), effect.value, depth, q); }
      var first := AfterAction(net, values, t, v, depth);
      if first.Done? { HandlersFrame(net, first.values, targets[1..], v, depth, q); }
    }
  }

  /** Whatever the plugins do, a port that cannot be reached keeps its value. */
  lemma {:induction false} SetFrame(net: Net, values: Values, p: Port, v: JsValue, depth: nat, q: Port)
    requires !Reachable(net, p, q)
    ensures var r := AfterSet(net, values, p, v, depth); !r.Overflow? ==> Current(r.values, q) == Current(values, q)
    decreases depth, 0, 0
  {
    ReachableCases(net, p, q);
    if depth > 0 && Accepts(net, p, v) {
      HandlersFrame(net, values[p := v], Handlers(net, p), v, depth - 1, q);
    }
  }

  /** What the designer checks of a link: both members exist and the action takes the attribute's type. */
  ghost predicate Fits(net: Net, p: Port, t: Target) {
    TypeOf(net, p).Some? && t.component in net.kinds &&
    MemberOf(net.kinds[t.component], t.action) == Some(Action(t.action, [TypeOf(net, p).value]))
  }

  ghost predicate FitsBelow(net: Net, p: Port) {
    forall q, t :: Reachable(net, p, q) && t in Handlers(net, q) ==> Fits(net, q, t)
  }

  lemma FitsStep(net: Net, p: Port)
    requires FitsBelow(net, p)
    ensures forall t :: t in Handlers(net, p) ==> Fits(net, p, t) && FitsBelow(net, Next(t))
  {
    ReachableCases(net, p, p);
    forall t | t in Handlers(net, p) ensures FitsBelow(net, Next(t)) {
      forall q, u | Reachable(net, Next(t), q) && u in Handlers(net, q) ensures Fits(net, q, u) {
        ReachableStep(net, p, t, q);
      }
    }
  }

  /** Along a fitting link nothing throws, and what a plugin sets is accepted. */
  lemma FittingEffect(net: Net, p: Port, t: Target, v: JsValue, current: JsValue)
    requires Accepts(net, p, v) && Fits(net, p, t)
    ensures var effect := EffectOf(net, t, v, current);
      !effect.Throw? && (effect.Set? ==> Accepts(net, Next(t), effect.value))
  {
  }

  lemma {:induction false} HandlersReturn(
    net: Net, values: Values, p: Port, targets: seq<Target>, v: JsValue, depth: nat)
    requires Accepts(net, p, v)
    requires forall t :: t in targets ==>
      Fits(net, p, t) && FitsBelow(net, Next(t)) && !Stretches(net, Next(t), depth)
    ensures AfterHandlers(net, values, targets, v, depth).Done?
    decreases depth, 1, |targets|
  {
    if targets == [] {
    } else {
      var t := targets[0];
      var effect := EffectOf(net, t, v, Current(values, Next(t)));
      FittingEffect(net, p, t, v, Current(values, Next(t)));
      if effect.Set? { SetReturns(net, values, Next(t), effect.value, depth); }
      HandlersReturn(net, AfterAction(net, values, t, v, depth).values, p, targets[1..], v, depth);
    }
  }

  /** With fitting links a cascade returns normally when the stack is deeper than every path. */
  lemma {:induction false} SetReturns(net: Net, values: Values, p: Port, v: JsValue, depth: nat)
    requires Accepts(net, p, v) && FitsBelow(net, p) && !Stretches(net, p, depth)
    ensures AfterSet(net, values, p, v, depth).Done?
    decreases depth, 0, 0
  {
    FitsStep(net, p);
    HandlersReturn(net, values[p := v], p, Handlers(net, p), v, depth - 1);
  }

  // ---------------------------------------------------------------- step relays count paths

  /** Number of link paths of at most `depth` links from p to the relay. */
  ghost function Paths(net: Net, p: Port, relay: string, depth: nat): nat
    decreases depth, 0
  {
    if depth == 0 then 0 else PathsVia(net, Handlers(net, p), relay, depth - 1)
  }

  ghost function PathsVia(net: Net, targets: seq<Target>, relay: string, depth: nat): nat
    decreases depth, 1, |targets|
  {
    if targets == [] then 0
    else
      (if targets[0].component == relay then 1 else Paths(net, Next(targets[0]), relay, depth))
      + PathsVia(net, targets[1..], relay, depth)
  }

  // ---------------------------------------------------------------- what is counted

  /**
   A link path, as the positions of its links among the handlers it passes: it ends at the first
   link that leads to the relay.
  */
  ghost predicate IsPath(net: Net, p: Port, w: seq<nat>, relay: string)
    decreases |w|
  {
    w != [] && w[0] < |Handlers(net, p)| &&
    var t := Handlers(net, p)[w[0]];
    if t.component == relay then |w| == 1 else IsPath(net, Next(t), w[1..], relay)
  }

  /** Paths whose first link is at position i or later. */
  ghost predicate PathsFrom(net: Net, p: Port, i: nat, paths: set<seq<nat>>, relay: string, depth: nat) {
    forall w :: w in paths <==> IsPath(net, p, w, relay) && i <= w[0] && |w| <= depth
  }

  lemma {:induction false} SameSize(paths: set<seq<nat>>, i: nat) returns (longer: set<seq<nat>>)
    ensures |longer| == |paths| && forall w :: w in longer <==> w != [] && w[0] == i && w[1..] in paths
    decreases |paths|
  {
    if paths == {} {
      longer := {};
    } else {
      var w :| w in paths;
      var others := SameSize(paths - {w}, i);
      assert [i] + w !in others by { assert ([i] + w)[1..] == w; }
      longer := others + {[i] + w};
      forall x ensures x in longer <==> x != [] && x[0] == i && x[1..] in paths {
        if x != [] && x[0] == i && x[1..] == w { assert x == [i] + w; }
        assert ([i] + w)[1..] == w;
      }
    }
  }

  /** The paths that start with link i, from those that go on where it leads. */
  lemma PathsThrough(net: Net, p: Port, i: nat, beyond: set<seq<nat>>, relay: string, depth: nat)
    returns (first: set<seq<nat>>)
    requires depth > 0 && i < |Handlers(net, p)|
    requires PathsFrom(net, Next(Handlers(net, p)[i]), 0, beyond, relay, depth - 1)
    ensures |first| == if Handlers(net, p)[i].component == relay then 1 else |beyond|
    ensures forall w :: w in first <==> IsPath(net, p, w, relay) && w[0] == i && |w| <= depth
  {
    if Handlers(net, p)[i].component == relay {
      first := {[i]};
      forall w ensures w in first <==> IsPath(net, p, w, relay) && w[0] == i && |w| <= depth {
        if IsPath(net, p, w, relay) && w[0] == i { assert w == [i]; }
      }
    } else {
      first := SameSize(beyond, i);
    }
  }

  /** The number `Paths` computes is the number of paths of at most that length. */
  lemma {:induction false} PathsCount(net: Net, p: Port, relay: string, depth: nat) returns (paths: set<seq<nat>>)
    ensures |paths| == Paths(net, p, relay, depth)
    ensures PathsFrom(net, p, 0, paths, relay, depth)
    decreases depth, 0, 0
  {
    if depth == 0 {
      paths := {};
    } else {
      paths := PathsViaCount(net, p, 0, relay, depth);
      assert Handlers(net, p)[0..] == Handlers(net, p);
    }
  }

  lemma {:induction false} PathsViaCount(net: Net, p: Port, i: nat, relay: string, depth: nat)
    returns (paths: set<seq<nat>>)
    requires depth > 0 && i <= |Handlers(net, p)|
    ensures |paths| == PathsVia(net, Handlers(net, p)[i..], relay, depth - 1)
    ensures PathsFrom(net, p, i, paths, relay, depth)
    decreases depth - 1, 1, |Handlers(net, p)| - i
  {
    var targets := Handlers(net, p);
    if i == |targets| {
      paths := {};
      NoPathsFrom(net, p, relay, depth);
      assert targets[i..] == [];
    } else {
      var later := PathsViaCount(net, p, i + 1, relay, depth);
      var beyond := PathsCount(net, Next(targets[i]), relay, depth - 1);
      paths := PathsJoined(net, p, i, beyond, later, relay, depth);
      PathsViaStep(net, targets, i, relay, depth - 1);
    }
  }

  lemma NoPathsFrom(net: Net, p: Port, relay: string, depth: nat)
    ensures PathsFrom(net, p, |Handlers(net, p)|, {}, relay, depth)
  {
  }

  lemma PathsViaStep(net: Net, targets: seq<Target>, i: nat, relay: string, depth: nat)
    requires i < |targets|
    ensures PathsVia(net, targets[i..], relay, depth) ==
      (if targets[i].component == relay then 1 else Paths(net, Next(targets[i]), relay, depth)) +
      PathsVia(net, targets[i + 1..], relay, depth)
  {
    assert targets[i..][0] == targets[i] && targets[i..][1..] == targets[i + 1..];
  }

  /** The paths from link i on: those that start with it and the later ones. */
  lemma PathsJoined(
    net: Net, p: Port, i: nat, beyond: set<seq<nat>>, later: set<seq<nat>>, relay: string, depth: nat)
    returns (paths: set<seq<nat>>)
    requires depth > 0 && i < |Handlers(net, p)|
    requires PathsFrom(net, Next(Handlers(net, p)[i]), 0, beyond, relay, depth - 1)
    requires PathsFrom(net, p, i + 1, later, relay, depth)
    ensures PathsFrom(net, p, i, paths, relay, depth)
    ensures |paths| == (if Handlers(net, p)[i].component == relay then 1 else |beyond|) + |later|
  {
    var first := PathsThrough(net, p, i, beyond, relay, depth);
    assert first !! later;
    paths := first + later;
  }

  lemma {:induction false} PathsStable(net: Net, p: Port, relay: string, d: nat, e: nat)
    requires !Stretches(net, p, d) && d <= e
    ensures Paths(net, p, relay, d) == Paths(net, p, relay, e)
    decreases d, 0
  {
    PathsViaStable(net, Handlers(net, p), relay, d - 1, e - 1);
  }

  lemma {:induction false} PathsViaStable(net: Net, targets: seq<Target>, relay: string, d: nat, e: nat)
    requires d <= e && forall t :: t in targets ==> !Stretches(net, Next(t), d)
    ensures PathsVia(net, targets, relay, d) == PathsVia(net, targets, relay, e)
    decreases d, 1, |targets|
  {
    if targets == [] {
    } else {
      PathsStable(net, Next(targets[0]), relay, d, e);
      PathsViaStable(net, targets[1..], relay, d, e);
    }
  }

  /** Number of link paths from p to the relay; without a cycle none is longer than the number of linked ports. */
  ghost function AllPaths(net: Net, p: Port, relay: string): nat {
    Paths(net, p, relay, |net.links.Keys| + 1)
  }

  lemma AllPathsAtAnyDepth(net: Net, p: Port, relay: string, depth: nat)
    requires !CycleBelow(net, p) && depth > |net.links.Keys|
    ensures Paths(net, p, relay, depth) == AllPaths(net, p, relay)
  {
    StretchesIffCycle(net, p, |net.links.Keys| + 1);
    PathsStable(net, p, relay, |net.links.Keys| + 1, depth);
  }

  /** When no cycle can be reached, this is the number of all link paths to the relay. */
  lemma AllPathsCounted(net: Net, p: Port, relay: string) returns (paths: set<seq<nat>>)
    requires !CycleBelow(net, p)
    ensures |paths| == AllPaths(net, p, relay)
    ensures forall w :: w in paths <==> IsPath(net, p, w, relay)
  {
    var n := |net.links.Keys| + 1;
    paths := PathsCount(net, p, relay, n);
    StretchesIffCycle(net, p, n);
    forall w | IsPath(net, p, w, relay) ensures |w| <= n {
      if |w| > n { LongPathStretches(net, p, w, relay, n); }
    }
  }

  lemma {:induction false} LongPathStretches(net: Net, p: Port, w: seq<nat>, relay: string, n: nat)
    requires IsPath(net, p, w, relay) && n <= |w|
    ensures Stretches(net, p, n)
    decreases n
  {
    if n == 0 {
    } else {
      var t := Handlers(net, p)[w[0]];
      assert Stretches(net, Next(t), 0);
      if n > 1 { LongPathStretches(net, Next(t), w[1..], relay, n - 1); }
    }
  }

  // ---------------------------------------------------------------- step relays flip once for each path

  /**
   The relay is fed only at `input` and only through hubs and lights: from a component of another
   kind, and from the relay itself, no link leads back to the relay.
  */
  ghost predicate FedThrough(net: Net, p: Port, t: Target, relay: string) {
    && Fits(net, p, t)
    && (t.component == relay ==> t.action == "input")
    && (!PassThrough(net, t) ==> forall n: nat :: n > 0 ==> !Reaches(net, Next(t), Output(relay), n))
  }

  ghost predicate FedBelow(net: Net, p: Port, relay: string) {
    forall q, t :: Reachable(net, p, q) && t in Handlers(net, q) ==> FedThrough(net, q, t, relay)
  }

  lemma FedStep(net: Net, p: Port, relay: string)
    requires FedBelow(net, p, relay)
    ensures forall t :: t in Handlers(net, p) ==> FedThrough(net, p, t, relay) && FedBelow(net, Next(t), relay)
  {
    ReachableCases(net, p, p);
    forall t | t in Handlers(net, p) ensures FedBelow(net, Next(t), relay) {
      forall q, u | Reachable(net, Next(t), q) && u in Handlers(net, q) ensures FedThrough(net, q, u, relay) {
        ReachableStep(net, p, t, q);
      }
    }
  }

  function Flipped(v: JsValue, times: nat): JsValue {
    if times % 2 == 0 then v else Toggled(v)
  }

  /** A target that does not pass values through leaves the relay alone, unless it is the relay. */
  lemma SideEffectSpares(net: Net, values: Values, t: Target, w: JsValue, depth: nat, relay: string)
    requires forall n: nat :: n > 0 ==> !Reaches(net, Next(t), Output(relay), n)
    requires Accepts(net, Next(t), w)
    ensures var r := AfterSet(net, values, Next(t), w, depth);
      !r.Overflow? ==>
        Current(r.values, Output(relay)) == if t.component == relay then w else Current(values, Output(relay))
  {
    var q := Output(relay);
    if depth > 0 {
      forall u | u in Handlers(net, Next(t)) ensures !Reachable(net, Next(u), q) {
        if n: nat :| Reaches(net, Next(u), q, n) { assert Reaches(net, Next(t), q, n + 1); }
      }
      HandlersFrame(net, values[Next(t) := w], Handlers(net, Next(t)), w, depth - 1, q);
    }
  }

  ghost predicate IsRelay(net: Net, values: Values, relay: string) {
    relay in net.kinds && net.kinds[relay] == StepRelay && Current(values, Output(relay)) in {Str("on"), Str("off")}
  }

  lemma {:induction false} ActionFlips(
    net: Net, values: Values, p: Port, t: Target, v: JsValue, depth: nat, relay: string)
    requires Accepts(net, p, v) && IsRelay(net, values, relay)
    requires FedThrough(net, p, t, relay) && FedBelow(net, Next(t), relay)
    ensures var r := AfterAction(net, values, t, v, depth);
      var paths := if t.component == relay then 1 else Paths(net, Next(t), relay, depth);
      r.Done? ==>
        Current(r.values, Output(relay)) == Flipped(Current(values, Output(relay)), if v == ON then paths else 0)
    decreases depth, 1, 0
  {
    var effect := EffectOf(net, t, v, Current(values, Next(t)));
    FittingEffect(net, p, t, v, Current(values, Next(t)));
    if PassThrough(net, t) {
      SetFlips(net, values, Next(t), v, depth, relay);
    } else {
      PathsNone(net, Next(t), relay, depth);
      if effect.Set? { SideEffectSpares(net, values, t, effect.value, depth, relay); }
    }
  }

  lemma FlippedAgain(v: JsValue, times: nat, more: nat)
    requires v in {ON, OFF}
    ensures Flipped(v, times) in {ON, OFF}
    ensures Flipped(Flipped(v, times), more) == Flipped(v, times + more)
  {
  }

  lemma {:induction false} HandlersFlip(
    net: Net, values: Values, p: Port, targets: seq<Target>, v: JsValue, depth: nat, relay: string)
    requires Accepts(net, p, v) && IsRelay(net, values, relay)
    requires forall t :: t in targets ==> FedThrough(net, p, t, relay) && FedBelow(net, Next(t), relay)
    ensures var r := AfterHandlers(net, values, targets, v, depth); r.Done? ==>
      Current(r.values, Output(relay)) ==
        Flipped(Current(values, Output(relay)), if v == ON then PathsVia(net, targets, relay, depth) else 0)
    decreases depth, 2, |targets|
  {
    if targets == [] {
    } else {
      var (t, rest) := (targets[0], targets[1..]);
      var first := AfterAction(net, values, t, v, depth);
      ActionFlips(net, values, p, t, v, depth, relay);
      FirstThenRest(net, values, targets, v, depth, relay);
      if first.Done? {
        var before := Current(values, Output(relay));
        var paths := if t.component == relay then 1 else Paths(net, Next(t), relay, depth);
        var more := PathsVia(net, rest, relay, depth);
        FlippedAgain(before, if v == ON then paths else 0, if v == ON then more else 0);
        HandlersFlip(net, first.values, p, rest, v, depth, relay);
      }
    }
  }

  lemma FirstThenRest(net: Net, values: Values, targets: seq<Target>, v: JsValue, depth: nat, relay: string)
    requires targets != []
    ensures var first := AfterAction(net, values, targets[0], v, depth);
      AfterHandlers(net, values, targets, v, depth) ==
        if first.Done? then AfterHandlers(net, first.values, targets[1..], v, depth) else first
    ensures PathsVia(net, targets, relay, depth) ==
      (if targets[0].component == relay then 1 else Paths(net, Next(targets[0]), relay, depth)) +
      PathsVia(net, targets[1..], relay, depth)
  {
  }

  /** No path is counted from where none leads. */
  lemma {:induction false} PathsNone(net: Net, p: Port, relay: string, depth: nat)
    requires forall n: nat :: n > 0 ==> !Reaches(net, p, Output(relay), n)
    ensures Paths(net, p, relay, depth) == 0
    decreases depth, 0
  {
    if depth == 0 {
    } else {
      forall t | t in Handlers(net, p)
        ensures t.component != relay && forall n: nat :: n > 0 ==> !Reaches(net, Next(t), Output(relay), n)
      {
        if t.component == relay {
          assert Reaches(net, Next(t), Output(relay), 0);
          assert Reaches(net, p, Output(relay), 1);
        }
        forall n: nat | n > 0 ensures !Reaches(net, Next(t), Output(relay), n) {
          if Reaches(net, Next(t), Output(relay), n) { assert Reaches(net, p, Output(relay), n + 1); }
        }
      }
      PathsViaNone(net, Handlers(net, p), relay, depth - 1);
    }
  }

  lemma {:induction false} PathsViaNone(net: Net, targets: seq<Target>, relay: string, depth: nat)
    requires forall t :: t in targets ==>
      t.component != relay && forall n: nat :: n > 0 ==> !Reaches(net, Next(t), Output(relay), n)
    ensures PathsVia(net, targets, relay, depth) == 0
    decreases depth, 1, |targets|
  {
    if targets == [] {
    } else {
      PathsNone(net, Next(targets[0]), relay, depth);
      PathsViaNone(net, targets[1..], relay, depth);
    }
  }

  lemma {:induction false} SetFlips(net: Net, values: Values, p: Port, v: JsValue, depth: nat, relay: string)
    requires Accepts(net, p, v) && IsRelay(net, values, relay)
    requires p != Output(relay) && FedBelow(net, p, relay)
    ensures var r := AfterSet(net, values, p, v, depth); r.Done? ==>
      Current(r.values, Output(relay)) ==
        Flipped(Current(values, Output(relay)), if v == ON then Paths(net, p, relay, depth) else 0)
    decreases depth, 0, 0
  {
    if depth == 0 {
    } else {
      FedStep(net, p, relay);
      HandlersFlip(net, values[p := v], p, Handlers(net, p), v, depth - 1, relay);
    }
  }

  lemma FedFits(net: Net, p: Port, relay: string)
    requires FedBelow(net, p, relay)
    ensures FitsBelow(net, p)
  {
    forall q, t | Reachable(net, p, q) && t in Handlers(net, q) ensures Fits(net, q, t) {
      assert FedThrough(net, q, t, relay);
    }
  }

  /**
   A step relay fed only through hubs and lights from one source: setting the source to `on`
   returns, and leaves the relay flipped exactly when the number of link paths from the source
   to its input is odd. Any other accepted value leaves it as it was.
  */
  lemma RelayParity(net: Net, values: Values, p: Port, v: JsValue, depth: nat, relay: string)
    requires Accepts(net, p, v) && IsRelay(net, values, relay)
    requires p != Output(relay) && FedBelow(net, p, relay)
    requires !CycleBelow(net, p) && depth > |net.links.Keys|
    ensures var r := AfterSet(net, values, p, v, depth);
      && r.Done?
      && Current(r.values, Output(relay)) ==
           (if v != Str("on") || AllPaths(net, p, relay) % 2 == 0 then Current(values, Output(relay))
            else if Current(values, Output(relay)) == Str("on") then Str("off")
            else Str("on"))
  {
    StretchesIffCycle(net, p, depth);
    FedFits(net, p, relay);
    SetReturns(net, values, p, v, depth);
    SetFlips(net, values, p, v, depth, relay);
    AllPathsAtAnyDepth(net, p, relay, depth);
  }

  /**
   The relay's other two actions, when no link leads from the relay back to it: `on` leaves it on,
   `off` leaves it off, and a value other than `on`, or a state already reached, changes nothing at all.
  */
  lemma RelayCommands(net: Net, values: Values, t: Target, v: JsValue, depth: nat)
    requires Switches(v) && t.component in net.kinds && net.kinds[t.component] == StepRelay
    requires t.action in {"on", "off"}
    requires forall n: nat :: n > 0 ==> !Reaches(net, Next(t), Next(t), n)
    ensures var r := AfterAction(net, values, t, v, depth);
      && (v != Str("on") || Current(values, Next(t)) == Str(t.action) ==> r == Done(values))
      && (v == Str("on") && r.Done? ==> Current(r.values, Next(t)) == Str(t.action))
  {
    if v == ON {
      SideEffectSpares(net, values, t, if t.action == "on" then ON else OFF, depth, t.component);
    }
  }
}
