/**
 The core's registries as a value: running plugins, hardware and links, the object
 repository, the attribute listeners of links, and the persisted copy. `Step` is one
 request of the REST interface.
 */
module Core {
  import opened Configuration
  import opened Sequences

  datatype Running<T> = Running(config: Item<T>, handle: nat)
  datatype RunningLink = RunningLink(config: LinkBody, source: nat, destination: nat)
  datatype Listener = Listener(handle: nat, attribute: string, link: string)
  datatype Stored = Stored(plugins: map<string, PluginItem>, hardware: map<string, HardwareItem>,
    links: map<string, LinkBody>)

  /** Objects are named by handles; `nextObject` is the next unused one. */
  datatype State = State(
    types: set<string>,
    plugins: map<string, Running<PluginBody>>,
    hardware: map<string, Running<HardwareBody>>,
    links: map<string, RunningLink>,
    repository: map<string, nat>,
    listeners: seq<Listener>,
    nextObject: nat,
    stored: Stored)

  datatype Reason = AlreadyExists | UnknownType | InUse | NotFound | MissingEndpoint
  datatype Outcome = Done | Refused(reason: Reason)

  datatype Op =
    | AddPlugin(plugin: PluginItem)
    | RemovePlugin(id: string)
    | AddHardware(hardware: HardwareItem)
    | RemoveHardware(id: string)
    | AddLink(link: LinkItem)
    | RemoveLink(id: string)

  function Boot(types: set<string>, stored: Stored): State {
    State(types, map[], map[], map[], map[], [], 0, stored)
  }

  const NOTHING_STORED := Stored(map[], map[], map[])

  // ---------------------------------------------------------------- the registries

  function CreatePlugin(s: State, c: PluginItem): (State, Outcome) {
    if c.id in s.plugins then (s, Refused(AlreadyExists))
    else if c.body.typ !in s.types then (s, Refused(UnknownType))
    else
      (s.(plugins := s.plugins[c.id := Running(c, s.nextObject)],
          repository := s.repository[c.id := s.nextObject],
          nextObject := s.nextObject + 1), Done)
  }

  function CreateHardware(s: State, c: HardwareItem): (State, Outcome) {
    if c.id in s.hardware then (s, Refused(AlreadyExists))
    else
      (s.(hardware := s.hardware[c.id := Running(c, s.nextObject)],
          repository := s.repository[c.id := s.nextObject],
          nextObject := s.nextObject + 1), Done)
  }

  /** Binds a link to the objects the repository holds now; the id is computed, never taken from the request. */
  function CreateLink(s: State, b: LinkBody): (State, Outcome) {
    var id := MakeId(b);
    if id in s.links then (s, Refused(AlreadyExists))
    else if b.sourceComponent !in s.repository || b.destinationComponent !in s.repository
      then (s, Refused(MissingEndpoint))
    else
      var l := RunningLink(b, s.repository[b.sourceComponent], s.repository[b.destinationComponent]);
      (s.(links := s.links[id := l],
          listeners := s.listeners + [ListenerOf(l, id)]), Done)
  }

  function DestroyPlugin(s: State, id: string): (State, Outcome) {
    if id !in s.plugins then (s, Refused(NotFound))
    else (s.(plugins := s.plugins - {id}, repository := s.repository - {s.plugins[id].config.id}), Done)
  }

  function DestroyHardware(s: State, id: string): (State, Outcome) {
    if id !in s.hardware then (s, Refused(NotFound))
    else (s.(hardware := s.hardware - {id}, repository := s.repository - {s.hardware[id].config.id}), Done)
  }

  function DestroyLink(s: State, id: string): (State, Outcome) {
    if id !in s.links then (s, Refused(NotFound))
    else
      var l := s.links[id];
      (s.(links := s.links - {id},
          listeners := RemoveFirst(s.listeners, ListenerOf(l, id))), Done)
  }

  /** Whether some running link names the component. */
  predicate Used(s: State, id: string) {
    exists l :: l in s.links && s.links[l].config.Touches(id)
  }

  // ---------------------------------------------------------------- requests

  function Step(s: State, op: Op): (State, Outcome) {
    match op
    case AddPlugin(c) =>
      var (t, out) := CreatePlugin(s, c);
      if out.Done? then (t.(stored := t.stored.(plugins := t.stored.plugins[c.id := c])), Done) else (t, out)
    case AddHardware(c) =>
      var (t, out) := CreateHardware(s, c);
      if out.Done? then (t.(stored := t.stored.(hardware := t.stored.hardware[c.id := c])), Done) else (t, out)
    case AddLink(c) =>
      var (t, out) := CreateLink(s, c.body);
      if out.Done? then (t.(stored := t.stored.(links := t.stored.links[MakeId(c.body) := c.body])), Done) else (t, out)
    case RemovePlugin(id) =>
      if Used(s, id) then (s, Refused(InUse))
      else
        var (t, out) := DestroyPlugin(s, id);
        if out.Done? then (t.(stored := t.stored.(plugins := t.stored.plugins - {id})), Done) else (t, out)
    case RemoveHardware(id) =>
      if Used(s, id) then (s, Refused(InUse))
      else
        var (t, out) := DestroyHardware(s, id);
        if out.Done? then (t.(stored := t.stored.(hardware := t.stored.hardware - {id})), Done) else (t, out)
    case RemoveLink(id) =>
      var (t, out) := DestroyLink(s, id);
      if out.Done? then (t.(stored := t.stored.(links := t.stored.links - {id})), Done) else (t, out)
  }

  /** What `initialize` does with one stored configuration: create it, without saving it again. */
  function Load(s: State, op: Op): (State, Outcome)
    requires op.AddPlugin? || op.AddHardware? || op.AddLink?
  {
    match op
    case AddPlugin(c) => CreatePlugin(s, c)
    case AddHardware(c) => CreateHardware(s, c)
    case AddLink(c) => CreateLink(s, c.body)
  }

  /** Independent requests: a refusal does not stop the following ones. */
  function Run(s: State, ops: seq<Op>): State
    decreases |ops|
  {
    if ops == [] then s else Run(Step(s, ops[0]).0, ops[1..])
  }

  /** The reason with which a request is refused, if it is. */
  predicate Refuses(s: State, op: Op, reason: Reason) {
    match op
    case AddPlugin(c) =>
      if c.id in s.plugins then reason == AlreadyExists else reason == UnknownType && c.body.typ !in s.types
    case AddHardware(c) => reason == AlreadyExists && c.id in s.hardware
    case AddLink(c) =>
      if MakeId(c.body) in s.links then reason == AlreadyExists
      else reason == MissingEndpoint && !({c.body.sourceComponent, c.body.destinationComponent} <= s.repository.Keys)
    case RemovePlugin(id) =>
      if Names(s, id) then reason == InUse else reason == NotFound && id !in s.plugins
    case RemoveHardware(id) =>
      if Names(s, id) then reason == InUse else reason == NotFound && id !in s.hardware
    case RemoveLink(id) => reason == NotFound && id !in s.links
  }

  /** A running link names the component at one of its ends. */
  predicate Names(s: State, id: string) {
    exists l :: l in s.links && id in {s.links[l].config.sourceComponent, s.links[l].config.destinationComponent}
  }

  /** A refused request changes nothing, and these are the refusals. */
  lemma RefusedIff(s: State, op: Op, reason: Reason)
    ensures Step(s, op).1 == Refused(reason) <==> Refuses(s, op, reason)
    ensures Step(s, op).1 == Refused(reason) ==> Step(s, op).0 == s
  {
    forall id ensures Used(s, id) <==> Names(s, id) {
    }
  }

  // ---------------------------------------------------------------- what every state keeps

  /** Every running component of one kind is published under its own id with its own object. */
  ghost predicate KindPublished<T>(running: map<string, Running<T>>, repository: map<string, nat>) {
    forall id :: id in running ==>
      running[id].config.id == id && id in repository && repository[id] == running[id].handle
  }

  /** Handles are below the next one and no two published ids share one. */
  ghost predicate HandlesDistinct(repository: map<string, nat>, next: nat) {
    && (forall id :: id in repository ==> repository[id] < next)
    && (forall a, b :: a in repository && b in repository && repository[a] == repository[b] ==> a == b)
  }

  /** Nothing is published but the running components, and no id is used by both kinds. */
  ghost predicate KindsPublished<T, U>(
    running: map<string, Running<T>>, other: map<string, Running<U>>, repository: map<string, nat>, next: nat)
  {
    && KindPublished(running, repository)
    && KindPublished(other, repository)
    && repository.Keys == running.Keys + other.Keys
    && running.Keys !! other.Keys
    && HandlesDistinct(repository, next)
  }

  ghost predicate Published(s: State) {
    KindsPublished(s.plugins, s.hardware, s.repository, s.nextObject)
  }

  /** Both endpoints of every running link are published, and the link is bound to the published objects. */
  ghost predicate Bound(links: map<string, RunningLink>, repository: map<string, nat>) {
    forall id :: id in links ==>
      && var l := links[id];
      && MakeId(l.config) == id
      && l.config.sourceComponent in repository && repository[l.config.sourceComponent] == l.source
      && l.config.destinationComponent in repository && repository[l.config.destinationComponent] == l.destination
  }

  function ListenerOf(l: RunningLink, id: string): Listener {
    Listener(l.source, l.config.sourceAttribute, id)
  }

  /** Each running link has exactly one attribute listener, on its source object, and there is no other. */
  ghost predicate Listening(links: map<string, RunningLink>, listeners: seq<Listener>) {
    && (forall id :: id in links ==> ListenerOf(links[id], id) in listeners)
    && (forall l :: l in listeners ==> l.link in links && l == ListenerOf(links[l.link], l.link))
    && NoRepeat(listeners)
  }

  ghost predicate Wired(s: State) {
    && Published(s)
    && Bound(s.links, s.repository)
    && Listening(s.links, s.listeners)
    && forall id :: id in s.plugins ==> s.plugins[id].config.body.typ in s.types
  }

  ghost function Configs<T>(running: map<string, Running<T>>): map<string, Item<T>> {
    map id | id in running :: running[id].config
  }

  ghost function LinkConfigs(links: map<string, RunningLink>): map<string, LinkBody> {
    map id | id in links :: links[id].config
  }

  /** The persisted maps equal the running configurations. */
  ghost predicate StoredMatches(s: State) {
    s.stored == Stored(Configs(s.plugins), Configs(s.hardware), LinkConfigs(s.links))
  }

  ghost predicate Inv(s: State) {
    Wired(s) && StoredMatches(s)
  }

  /** The one request that breaks the invariant: adding a component whose id the other kind already uses. */
  predicate CrossKind(s: State, op: Op) {
    match op
    case AddPlugin(c) => c.id in s.hardware
    case AddHardware(c) => c.id in s.plugins
    case _ => false
  }

  // ---------------------------------------------------------------- one lemma for each change of a map

  lemma EitherKindFirst<T, U>(
    running: map<string, Running<T>>, other: map<string, Running<U>>, repository: map<string, nat>, next: nat)
    requires KindsPublished(running, other, repository, next)
    ensures KindsPublished(other, running, repository, next)
  {
  }

  lemma PublishOne<T, U>(
    running: map<string, Running<T>>, other: map<string, Running<U>>, repository: map<string, nat>, c: Item<T>,
    next: nat)
    requires KindsPublished(running, other, repository, next) && c.id !in running && c.id !in other
    ensures KindsPublished(running[c.id := Running(c, next)], other, repository[c.id := next], next + 1)
  {
  }

  lemma WithdrawOne<T, U>(
    running: map<string, Running<T>>, other: map<string, Running<U>>, repository: map<string, nat>, id: string,
    next: nat)
    requires KindsPublished(running, other, repository, next) && id in running
    ensures KindsPublished(running - {id}, other, repository - {id}, next)
  {
  }

  lemma BoundToMore(links: map<string, RunningLink>, repository: map<string, nat>, id: string, handle: nat)
    requires Bound(links, repository) && id !in repository
    ensures Bound(links, repository[id := handle])
  {
  }

  lemma BoundToLess(links: map<string, RunningLink>, repository: map<string, nat>, id: string)
    requires Bound(links, repository) && forall l :: l in links ==> !links[l].config.Touches(id)
    ensures Bound(links, repository - {id})
  {
  }

  lemma ListeningToMore(links: map<string, RunningLink>, listeners: seq<Listener>, id: string, l: RunningLink)
    requires Listening(links, listeners) && id !in links
    ensures Listening(links[id := l], listeners + [ListenerOf(l, id)])
  {
    var more := listeners + [ListenerOf(l, id)];
    assert more[|listeners|] == ListenerOf(l, id);
    assert forall x :: x in more <==> x in listeners || x == ListenerOf(l, id);
  }

  lemma ListeningToLess(links: map<string, RunningLink>, listeners: seq<Listener>, id: string)
    requires Listening(links, listeners) && id in links
    ensures Listening(links - {id}, RemoveFirst(listeners, ListenerOf(links[id], id)))
  {
    RemoveFirstMembers(listeners, ListenerOf(links[id], id));
  }

  lemma ConfigsFollow<T>(running: map<string, Running<T>>, c: Item<T>, handle: nat, id: string)
    ensures Configs(running[c.id := Running(c, handle)]) == Configs(running)[c.id := c]
    ensures Configs(running - {id}) == Configs(running) - {id}
  {
  }

  // ---------------------------------------------------------------- the registries keep the wiring

  lemma CreatePluginKeepsWired(s: State, c: PluginItem)
    requires Wired(s) && c.id !in s.hardware
    ensures Wired(CreatePlugin(s, c).0)
  {
    if c.id !in s.plugins {
      PublishOne(s.plugins, s.hardware, s.repository, c, s.nextObject);
      BoundToMore(s.links, s.repository, c.id, s.nextObject);
    }
  }

  lemma CreateHardwareKeepsWired(s: State, c: HardwareItem)
    requires Wired(s) && c.id !in s.plugins
    ensures Wired(CreateHardware(s, c).0)
  {
    if c.id !in s.hardware {
      EitherKindFirst(s.plugins, s.hardware, s.repository, s.nextObject);
      PublishOne(s.hardware, s.plugins, s.repository, c, s.nextObject);
      var t := CreateHardware(s, c).0;
      EitherKindFirst(t.hardware, t.plugins, t.repository, t.nextObject);
      BoundToMore(s.links, s.repository, c.id, s.nextObject);
    }
  }

  lemma CreateLinkKeepsWired(s: State, b: LinkBody)
    requires Wired(s)
    ensures Wired(CreateLink(s, b).0)
  {
    var (t, out) := CreateLink(s, b);
    if out.Done? {
      var id := MakeId(b);
      ListeningToMore(s.links, s.listeners, id, t.links[id]);
    }
  }

  lemma DestroyLinkKeepsWired(s: State, id: string)
    requires Wired(s)
    ensures Wired(DestroyLink(s, id).0)
  {
    if id in s.links { ListeningToLess(s.links, s.listeners, id); }
  }

  lemma DestroyPluginKeepsWired(s: State, id: string)
    requires Wired(s) && !Used(s, id)
    ensures Wired(DestroyPlugin(s, id).0)
  {
    BoundToLess(s.links, s.repository, id);
    if id in s.plugins { WithdrawOne(s.plugins, s.hardware, s.repository, id, s.nextObject); }
  }

  lemma DestroyHardwareKeepsWired(s: State, id: string)
    requires Wired(s) && !Used(s, id)
    ensures Wired(DestroyHardware(s, id).0)
  {
    BoundToLess(s.links, s.repository, id);
    if id in s.hardware {
      EitherKindFirst(s.plugins, s.hardware, s.repository, s.nextObject);
      WithdrawOne(s.hardware, s.plugins, s.repository, id, s.nextObject);
      var t := DestroyHardware(s, id).0;
      EitherKindFirst(t.hardware, t.plugins, t.repository, t.nextObject);
    }
  }

  // ---------------------------------------------------------------- requests keep the invariant

  lemma AddKeepsStored(s: State, op: Op)
    requires StoredMatches(s) && (op.AddPlugin? || op.AddHardware? || op.AddLink?)
    ensures StoredMatches(Step(s, op).0)
  {
    match op
    case AddPlugin(c) => ConfigsFollow(s.plugins, c, s.nextObject, "");
    case AddHardware(c) => ConfigsFollow(s.hardware, c, s.nextObject, "");
    case AddLink(c) =>
      var (t, out) := CreateLink(s, c.body);
      if out.Done? {
        assert LinkConfigs(t.links) == LinkConfigs(s.links)[MakeId(c.body) := c.body];
      }
  }

  lemma RemoveKeepsStored(s: State, op: Op)
    requires StoredMatches(s) && (op.RemovePlugin? || op.RemoveHardware? || op.RemoveLink?)
    ensures StoredMatches(Step(s, op).0)
  {
    match op
    case RemovePlugin(id) => ConfigsFollow(s.plugins, Item("", PluginBody("", "")), 0, id);
    case RemoveHardware(id) => ConfigsFollow(s.hardware, Item("", HardwareBody("", "")), 0, id);
    case RemoveLink(id) => assert LinkConfigs(s.links - {id}) == LinkConfigs(s.links) - {id};
  }

  /** A request that does not reuse an id across kinds keeps the wiring and the persisted copy. */
  lemma StepKeepsInv(s: State, op: Op)
    requires Inv(s) && !CrossKind(s, op)
    ensures Inv(Step(s, op).0)
  {
    match op
    case AddPlugin(c) => AddKeepsStored(s, op); CreatePluginKeepsWired(s, c);
    case AddHardware(c) => AddKeepsStored(s, op); CreateHardwareKeepsWired(s, c);
    case AddLink(c) => AddKeepsStored(s, op); CreateLinkKeepsWired(s, c.body);
    case RemovePlugin(id) => RemoveKeepsStored(s, op); if !Used(s, id) { DestroyPluginKeepsWired(s, id); }
    case RemoveHardware(id) => RemoveKeepsStored(s, op); if !Used(s, id) { DestroyHardwareKeepsWired(s, id); }
    case RemoveLink(id) => RemoveKeepsStored(s, op); DestroyLinkKeepsWired(s, id);
  }

  /** A refused request changes nothing. */
  lemma RefusedChangesNothing(s: State, op: Op)
    requires Step(s, op).1.Refused?
    ensures Step(s, op).0 == s
  {
  }

  // ---------------------------------------------------------------- what reusing an id breaks

  /** A new object published under an id takes the place of the component that had it. */
  lemma ReplacesPublished<T>(running: map<string, Running<T>>, repository: map<string, nat>, id: string, next: nat)
    requires KindPublished(running, repository) && HandlesDistinct(repository, next)
    ensures KindPublished(running, repository[id := next]) <==> id !in running
  {
    if id in running { assert repository[id] < next; }
  }

  /** The links to the component that had the id stay bound to its object. */
  lemma ReplacesBound(links: map<string, RunningLink>, repository: map<string, nat>, id: string, next: nat)
    requires Bound(links, repository) && HandlesDistinct(repository, next)
    ensures Bound(links, repository[id := next]) <==> !exists l :: l in links && links[l].config.Touches(id)
  {
    if l :| l in links && links[l].config.Touches(id) {
      assert repository[id] < next && (links[l].source == repository[id] || links[l].destination == repository[id]);
    }
  }

  /** A request takes the publication away from a running component exactly when it is accepted and crosses kinds. */
  lemma PublicationSurvivesIff(s: State, op: Op)
    requires Inv(s)
    ensures var (t, out) := Step(s, op);
      KindPublished(t.plugins, t.repository) && KindPublished(t.hardware, t.repository) <==>
        out.Refused? || !CrossKind(s, op)
  {
    if !CrossKind(s, op) {
      StepKeepsInv(s, op);
    } else {
      match op
      case AddPlugin(c) => ReplacesPublished(s.hardware, s.repository, c.id, s.nextObject);
      case AddHardware(c) => ReplacesPublished(s.plugins, s.repository, c.id, s.nextObject);
    }
  }

  /** The accepted request gives the id of a linked component to a component of the other kind. */
  predicate TakesLinkedId(s: State, op: Op) {
    match op
    case AddPlugin(c) => c.id in s.hardware && Used(s, c.id)
    case AddHardware(c) => c.id in s.plugins && Used(s, c.id)
    case _ => false
  }

  /** A request leaves some link bound to an object that is not the published one exactly when it takes a linked id. */
  lemma BindingSurvivesIff(s: State, op: Op)
    requires Inv(s)
    ensures var (t, out) := Step(s, op); Bound(t.links, t.repository) <==> out.Refused? || !TakesLinkedId(s, op)
  {
    if !CrossKind(s, op) {
      StepKeepsInv(s, op);
    } else {
      match op
      case AddPlugin(c) => ReplacesBound(s.links, s.repository, c.id, s.nextObject);
      case AddHardware(c) => ReplacesBound(s.links, s.repository, c.id, s.nextObject);
    }
  }

  /** The invariant survives a request exactly when the request is refused or does not reuse an id across kinds. */
  lemma InvSurvivesIff(s: State, op: Op)
    requires Inv(s)
    ensures Inv(Step(s, op).0) <==> Step(s, op).1.Refused? || !CrossKind(s, op)
  {
    PublicationSurvivesIff(s, op);
    if Step(s, op).1.Refused? {
      RefusedChangesNothing(s, op);
    } else if !CrossKind(s, op) {
      StepKeepsInv(s, op);
    }
  }

  // ---------------------------------------------------------------- every run

  /** No accepted request of the run reuses an id across kinds. */
  ghost predicate KindsKept(s: State, ops: seq<Op>)
    decreases |ops|
  {
    ops == [] ||
    ((Step(s, ops[0]).1.Refused? || !CrossKind(s, ops[0])) && KindsKept(Step(s, ops[0]).0, ops[1..]))
  }

  /** Referential integrity and the persisted copy hold after every run of requests, refused ones included. */
  lemma {:induction false} RunKeepsInv(s: State, ops: seq<Op>)
    requires Inv(s) && KindsKept(s, ops)
    ensures Inv(Run(s, ops))
    decreases |ops|
  {
    if ops == [] {
    } else {
      InvSurvivesIff(s, ops[0]);
      RunKeepsInv(Step(s, ops[0]).0, ops[1..]);
    }
  }

  /** The invariant holds after every prefix of a run exactly when no accepted request reuses an id across kinds. */
  lemma {:induction false} PrefixesKeepInvIff(s: State, ops: seq<Op>)
    requires Inv(s)
    ensures (forall k :: 0 <= k <= |ops| ==> Inv(Run(s, ops[..k]))) <==> KindsKept(s, ops)
    decreases |ops|
  {
    if ops == [] {
    } else {
      var (t, rest) := (Step(s, ops[0]).0, ops[1..]);
      InvSurvivesIff(s, ops[0]);
      forall k | 0 < k <= |ops| ensures Run(s, ops[..k]) == Run(t, rest[..k - 1]) {
        assert ops[..k][1..] == rest[..k - 1];
      }
      assert rest[..0] == [] && Run(s, ops[..1]) == t;
      if Inv(t) {
        PrefixesKeepInvIff(t, rest);
        if forall k :: 0 <= k <= |ops| ==> Inv(Run(s, ops[..k])) {
          forall k | 0 <= k <= |rest| ensures Inv(Run(t, rest[..k])) { assert Inv(Run(s, ops[..k + 1])); }
        }
      }
    }
  }

  lemma StepKeepsStored(s: State, op: Op)
    requires StoredMatches(s)
    ensures StoredMatches(Step(s, op).0)
  {
    if op.AddPlugin? || op.AddHardware? || op.AddLink? {
      AddKeepsStored(s, op);
    } else {
      RemoveKeepsStored(s, op);
    }
  }

  lemma {:induction false} RunKeepsStored(s: State, ops: seq<Op>)
    requires StoredMatches(s)
    ensures StoredMatches(Run(s, ops))
    decreases |ops|
  {
    if ops == [] {
    } else {
      StepKeepsStored(s, ops[0]);
      RunKeepsStored(Step(s, ops[0]).0, ops[1..]);
    }
  }

  /** The persisted maps equal the running configurations after every run, whatever the ids. */
  lemma AlwaysPersisted(types: set<string>, ops: seq<Op>)
    ensures StoredMatches(Run(Boot(types, NOTHING_STORED), ops))
  {
    RunKeepsStored(Boot(types, NOTHING_STORED), ops);
  }

  lemma ReachableInv(types: set<string>, ops: seq<Op>)
    requires KindsKept(Boot(types, NOTHING_STORED), ops)
    ensures Inv(Run(Boot(types, NOTHING_STORED), ops))
  {
    RunKeepsInv(Boot(types, NOTHING_STORED), ops);
  }

  /**
   Why the two kinds must not share ids: publishing a plugin over a hardware and removing
   the plugin leaves the hardware running but unpublished, so no link can reach it any more.
   */
  lemma SharedIdLosesHardware(types: set<string>, typ: string)
    requires typ in types
    ensures
      var h := Item("a", HardwareBody("", ""));
      var ops := [AddHardware(h), AddPlugin(Item("a", PluginBody(typ, ""))), RemovePlugin("a")];
      var s := Run(Boot(types, NOTHING_STORED), ops);
      && "a" in s.hardware && "a" !in s.repository && !Inv(s)
      && forall l: LinkItem :: l.body.Touches("a") ==> Step(s, AddLink(l)).1.Refused?
  {
    var s0 := Boot(types, NOTHING_STORED);
    var h := AddHardware(Item("a", HardwareBody("", "")));
    var p := AddPlugin(Item("a", PluginBody(typ, "")));
    var r := RemovePlugin("a");
    assert [h, p, r][1..] == [p, r] && [p, r][1..] == [r] && [r][1..] == [];
    var s2 := Step(Step(s0, h).0, p).0;
    var s := Step(s2, r).0;
    assert Run(s2, [r]) == Run(s, []) == s;
    assert Run(s0, [h, p, r]) == Run(Step(s0, h).0, [p, r]) == Run(s2, [r]);
    assert "a" in s.hardware.Keys && "a" !in s.repository.Keys;
  }
}
