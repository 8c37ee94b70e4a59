/**
 The core's network watcher: reference-counted channels, the remote objects it mirrors, and the
 connection. It is created by the first remote publication and discarded by a removal that leaves
 it without objects; a publication keeps the watcher it was made with. JOIN and PART are those of
 sections 4.2.1 and 4.2.2 of RFC 1459; the server is modelled by the set of channels the client
 is in.
 */
module Watching {
  import opened Text
  import opened NetStructure
  import opened Mirror
  import opened Sequences

  datatype Watched = Watched(cls: Class, attrs: Attributes)

  datatype Watcher = Watcher(
    channels: map<string, nat>, objects: map<string, Watched>, online: bool, joined: set<string>)

  /** A remote publication and the number of the watcher that was current when it was made. */
  datatype Container = Container(id: string, channels: seq<string>, watcher: nat)

  /** All watchers ever made, the number of the current one, and the live publications. */
  datatype System = System(watchers: seq<Watcher>, current: Option<nat>, containers: seq<Container>)

  const UNUSED := Watcher(map[], map[], false, {})
  const START := System([], None, [])

  // ---------------------------------------------------------------- the watcher's operations

  function WithChannel(w: Watcher, c: string): Watcher {
    if c in w.channels && w.channels[c] > 0 then w.(channels := w.channels[c := w.channels[c] + 1])
    else w.(channels := w.channels[c := 1], joined := if w.online then w.joined + {c} else w.joined)
  }

  function WithoutChannel(w: Watcher, c: string): Watcher {
    if c in w.channels && w.channels[c] > 1 then w.(channels := w.channels[c := w.channels[c] - 1])
    else w.(channels := w.channels - {c}, joined := if w.online then w.joined - {c} else w.joined)
  }

  function AddChannels(w: Watcher, cs: seq<string>): Watcher
    decreases |cs|
  {
    if cs == [] then w else WithChannel(AddChannels(w, cs[..|cs| - 1]), cs[|cs| - 1])
  }

  function RemoveChannels(w: Watcher, cs: seq<string>): Watcher
    decreases |cs|
  {
    if cs == [] then w else WithoutChannel(RemoveChannels(w, cs[..|cs| - 1]), cs[|cs| - 1])
  }

  /** The object a nick belongs to gets the pieces assigned; a nick of no watched object is ignored. */
  function Spread(objects: map<string, Watched>, nick: string, pieces: Option<seq<string>>): map<string, Watched> {
    var id := Split(nick, '|')[0];
    if id !in objects then objects
    else objects[id := objects[id].(attrs := Assigned(objects[id].cls, 0, 0, pieces, objects[id].attrs).0)]
  }

  /** `nickOffline` for every watched id, in an enumeration order of the ids. */
  function AllOffline(objects: map<string, Watched>, ids: seq<string>): map<string, Watched>
    decreases |ids|
  {
    if ids == [] then objects else AllOffline(Spread(objects, ids[0], None), ids[1..])
  }

  /** The watcher of a publication just before `checkClean` looks at it. */
  function Released(w: Watcher, c: Container): Watcher {
    RemoveChannels(w.(objects := w.objects - {c.id}), c.channels)
  }

  /** The watcher with the channels counted and the object watched. */
  function WithPublication(w: Watcher, id: string, cls: Class, cs: seq<string>): Watcher {
    var counted := AddChannels(w, cs);
    counted.(objects := counted.objects[id := Watched(cls, NewAttributes(cls))])
  }

  /** The watcher without the objects' values; a repeated report finds it offline. */
  function Disconnected(w: Watcher, order: seq<string>): Watcher {
    if !w.online then w else w.(online := false, joined := {}, objects := AllOffline(w.objects, order))
  }

  function Heard(w: Watcher, nick: string, pieces: Option<seq<string>>): Watcher {
    w.(objects := Spread(w.objects, nick, pieces))
  }

  // ---------------------------------------------------------------- the watcher as it runs

  lemma {:induction false} AddedObjects(w: Watcher, cs: seq<string>)
    ensures AddChannels(w, cs).objects == w.objects && AddChannels(w, cs).online == w.online
    decreases |cs|
  {
    if cs == [] {
    } else {
      AddedObjects(w, cs[..|cs| - 1]);
    }
  }

  lemma {:induction false} RemovedObjects(w: Watcher, cs: seq<string>)
    ensures RemoveChannels(w, cs).objects == w.objects && RemoveChannels(w, cs).online == w.online
    decreases |cs|
  {
    if cs == [] {
    } else {
      RemovedObjects(w, cs[..|cs| - 1]);
    }
  }

  /** The watcher of one connection, updated in place by publications and by the client's events. */
  class NetWatcher {
    var channels: map<string, nat>
    var objects: map<string, Watched>
    var online: bool
    var joined: set<string>

    ghost function Value(): Watcher
      reads this
    {
      Watcher(channels, objects, online, joined)
    }

    constructor ()
      ensures Value() == UNUSED
    {
      channels, objects, online, joined := map[], map[], false, {};
    }

    method AddChannel(c: string)
      modifies this
      ensures Value() == WithChannel(old(Value()), c)
    {
      if c in channels && channels[c] > 0 {
        channels := channels[c := channels[c] + 1];
        return;
      }
      channels := channels[c := 1];
      if online { joined := joined + {c}; }
    }

    method RemoveChannel(c: string)
      modifies this
      ensures Value() == WithoutChannel(old(Value()), c)
    {
      if c in channels && channels[c] > 1 {
        channels := channels[c := channels[c] - 1];
        return;
      }
      if online { joined := joined - {c}; }
      channels := channels - {c};
    }

    /** `publishRemote`: every channel is counted, then the object is watched. */
    method Watch(id: string, cls: Class, cs: seq<string>)
      modifies this
      ensures Value() == WithPublication(old(Value()), id, cls, cs)
    {
      for i := 0 to |cs|
        invariant Value() == AddChannels(old(Value()), cs[..i])
      {
        assert cs[..i + 1][..i] == cs[..i];
        AddChannel(cs[i]);
      }
      assert cs[..|cs|] == cs;
      objects := objects[id := Watched(cls, NewAttributes(cls))];
    }

    /** The `destroy` of a publication; the result tells whether `checkClean` discards the watcher. */
    method Unwatch(c: Container) returns (discard: bool)
      modifies this
      ensures Value() == Released(old(Value()), c)
      ensures discard <==> Value().objects == map[]
    {
      objects := objects - {c.id};
      ghost var start := Value();
      for i := 0 to |c.channels|
        invariant Value() == RemoveChannels(start, c.channels[..i])
      {
        assert c.channels[..i + 1][..i] == c.channels[..i];
        RemoveChannel(c.channels[i]);
      }
      assert c.channels[..|c.channels|] == c.channels;
      discard := objects == map[];
    }

    method SetAttributes(nick: string, pieces: Option<seq<string>>)
      modifies this`objects
      ensures Value() == Heard(old(Value()), nick, pieces)
    {
      var id := Split(nick, '|')[0];
      if id !in objects { return; }
      var o := objects[id];
      objects := objects[id := o.(attrs := Assigned(o.cls, 0, 0, pieces, o.attrs).0)];
    }

    /** The connection is lost: every watched object goes offline, in the order the ids are enumerated. */
    method ConnectionClosed(order: seq<string>)
      modifies this
      ensures Value() == Disconnected(old(Value()), order)
    {
      if !online { return; }
      online, joined := false, {};
      var i := 0;
      assert order[0..] == order;
      while i < |order|
        invariant 0 <= i <= |order| && !online && joined == {} && channels == old(channels)
        invariant AllOffline(objects, order[i..]) == AllOffline(old(objects), order)
      {
        assert order[i..][1..] == order[i + 1..];
        SetAttributes(order[i], None);
        i := i + 1;
      }
    }

    method Registered()
      modifies this
      ensures Value() == old(Value()).(online := true, joined := old(channels).Keys)
    {
      online := true;
      joined := {};
      var rest := channels.Keys;
      while rest != {}
        invariant rest <= channels.Keys && joined == channels.Keys - rest
        invariant online && channels == old(channels) && objects == old(objects)
        decreases rest
      {
        var c :| c in rest;
        joined := joined + {c};
        rest := rest - {c};
      }
    }
  }

  // ---------------------------------------------------------------- the system's steps

  /** Events of a connection name the watcher whose client they happen to. */
  datatype Event =
    | Publish(id: string, cls: Class, channels: seq<string>)
    | Unpublish(index: nat)
    | Registered(watcher: nat)
    | Closed(watcher: nat, order: seq<string>)
    | NickSet(watcher: nat, nick: string)
    | NickGone(watcher: nat, nick: string)

  predicate Sound(s: System) {
    && (s.current.Some? ==> s.current.value < |s.watchers|)
    && forall c :: c in s.containers ==> c.watcher < |s.watchers|
  }

  /** `loadWatcher`: the current watcher, or a new one. */
  function Loaded(s: System): (t: System)
    requires Sound(s)
    ensures Sound(t) && t.current.Some? && t.containers == s.containers
  {
    if s.current.Some? then s else s.(watchers := s.watchers + [UNUSED], current := Some(|s.watchers|))
  }

  function Step(s: System, e: Event): (t: System)
    requires Sound(s)
    ensures Sound(t)
  {
    match e
    case Publish(id, cls, cs) =>
      var t := Loaded(s);
      var g := t.current.value;
      t.(watchers := t.watchers[g := WithPublication(t.watchers[g], id, cls, cs)],
         containers := t.containers + [Container(id, cs, g)])
    case Unpublish(i) =>
      if i >= |s.containers| then s
      else
        var c := s.containers[i];
        var w := Released(s.watchers[c.watcher], c);
        // an empty watcher clears the reference to the current one, even when it is not that one
        System(s.watchers[c.watcher := w], if w.objects == map[] then None else s.current, RemoveAt(s.containers, i))
    case Registered(g) =>
      if g >= |s.watchers| then s
      else s.(watchers := s.watchers[g := s.watchers[g].(online := true, joined := s.watchers[g].channels.Keys)])
    case Closed(g, order) =>
      if g >= |s.watchers| then s else s.(watchers := s.watchers[g := Disconnected(s.watchers[g], order)])
    case NickSet(g, nick) =>
      if g >= |s.watchers| then s
      else s.(watchers := s.watchers[g := Heard(s.watchers[g], nick, Some(Split(nick, '|')[1..]))])
    case NickGone(g, nick) =>
      if g >= |s.watchers| then s else s.(watchers := s.watchers[g := Heard(s.watchers[g], nick, None)])
  }

  function Run(s: System, events: seq<Event>): (t: System)
    requires Sound(s)
    ensures Sound(t)
    decreases |events|
  {
    if events == [] then s else Run(Step(s, events[0]), events[1..])
  }

  // ---------------------------------------------------------------- what is kept

  /** The channel occurrences in the live publications a watcher serves. */
  ghost function Occurrences(cs: seq<Container>, g: nat): multiset<string>
    decreases |cs|
  {
    if cs == [] then multiset{}
    else
      var last := cs[|cs| - 1];
      Occurrences(cs[..|cs| - 1], g) + if last.watcher == g then multiset(last.channels) else multiset{}
  }

  /** The count of a channel is its number of occurrences; a channel without occurrence has no count. */
  ghost predicate Counted(channels: map<string, nat>, occurrences: multiset<string>) {
    forall c :: (c in channels <==> c in occurrences) && (c in channels ==> channels[c] == occurrences[c])
  }

  ghost predicate InStep(w: Watcher) {
    w.joined == if w.online then w.channels.Keys else {}
  }

  /** Every watcher counts the channels of its live publications, and its client is in exactly these when online. */
  ghost predicate AllCounted(s: System) {
    forall g :: 0 <= g < |s.watchers| ==>
      Counted(s.watchers[g].channels, Occurrences(s.containers, g)) && InStep(s.watchers[g])
  }

  ghost predicate Silent(o: Watched) {
    forall m :: m in o.cls && m.Attribute? ==> m.name in o.attrs && o.attrs[m.name] == Null
  }

  ghost predicate AllSilent(objects: map<string, Watched>) {
    forall id :: id in objects ==> Silent(objects[id])
  }

  ghost predicate Mirrorable(objects: map<string, Watched>) {
    forall id :: id in objects ==> '|' !in id && UniqueNames(objects[id].cls)
  }

  ghost predicate Orderly(w: Watcher) {
    Mirrorable(w.objects) && (!w.online ==> AllSilent(w.objects))
  }

  ghost predicate AllOrderly(s: System) {
    forall g :: 0 <= g < |s.watchers| ==> Orderly(s.watchers[g])
  }

  ghost function Ids(cs: seq<Container>): seq<string> {
    seq(|cs|, i requires 0 <= i < |cs| => cs[i].id)
  }

  ghost function WatchedIds(s: System): set<string>
    requires Sound(s)
  {
    if s.current.Some? then s.watchers[s.current.value].objects.Keys else {}
  }

  /** What holds for any ids, published once or more often, as long as nothing is stranded. */
  ghost predicate Tended(s: System) {
    && Sound(s)
    && (s.current.None? <==> s.containers == [])
    && (forall c :: c in s.containers ==> s.current == Some(c.watcher))
    && WatchedIds(s) <= (set id | id in Ids(s.containers))
    && (s.current.Some? ==> WatchedIds(s) != {})
  }

  /** Every live publication has an id of its own, and its object is watched. */
  ghost predicate OneEach(s: System)
    requires Sound(s)
  {
    NoRepeat(Ids(s.containers)) && WatchedIds(s) == (set id | id in Ids(s.containers))
  }

  ghost predicate OthersEmpty(s: System) {
    forall g :: 0 <= g < |s.watchers| && s.current != Some(g) ==> s.watchers[g].objects == map[]
  }

  ghost predicate Inv(s: System) {
    Tended(s) && OneEach(s) && OthersEmpty(s) && AllCounted(s) && AllOrderly(s)
  }

  /** Bar-free ids, classes with distinct names, complete enumerations, and nicks heard by registered clients only. */
  ghost predicate Heedful(s: System, e: Event) {
    match e
    case Publish(id, cls, _) => '|' !in id && UniqueNames(cls)
    case Closed(g, order) => g < |s.watchers| ==> forall id :: id in order <==> id in s.watchers[g].objects
    case NickSet(g, _) => g < |s.watchers| ==> s.watchers[g].online
    case _ => true
  }

  /** In addition, no id is published twice. */
  ghost predicate Regular(s: System, e: Event) {
    Heedful(s, e) && (e.Publish? ==> e.id !in Ids(s.containers))
  }

  ghost predicate AllHeedful(s: System, events: seq<Event>)
    requires Sound(s)
    decreases |events|
  {
    events == [] || (Heedful(s, events[0]) && AllHeedful(Step(s, events[0]), events[1..]))
  }

  ghost predicate AllRegular(s: System, events: seq<Event>)
    requires Sound(s)
    decreases |events|
  {
    events == [] || (Regular(s, events[0]) && AllRegular(Step(s, events[0]), events[1..]))
  }

  // ---------------------------------------------------------------- counting channels

  lemma CountAdd(w: Watcher, c: string, occurrences: multiset<string>)
    requires Counted(w.channels, occurrences)
    ensures Counted(WithChannel(w, c).channels, occurrences + multiset{c})
    ensures InStep(w) ==> InStep(WithChannel(w, c))
  {
    assert forall d :: d in occurrences + multiset{c} <==> d in occurrences || d == c;
    assert InStep(w) ==> WithChannel(w, c).channels.Keys == w.channels.Keys + {c};
  }

  lemma CountRemove(w: Watcher, c: string, occurrences: multiset<string>)
    requires Counted(w.channels, occurrences) && c in occurrences
    ensures Counted(WithoutChannel(w, c).channels, occurrences - multiset{c})
    ensures InStep(w) ==> InStep(WithoutChannel(w, c))
  {
    assert forall d :: (occurrences - multiset{c})[d] == if d == c then occurrences[d] - 1 else occurrences[d];
    if w.channels[c] > 1 {
      assert WithoutChannel(w, c).channels.Keys == w.channels.Keys;
    } else {
      assert WithoutChannel(w, c).channels.Keys == w.channels.Keys - {c};
    }
  }

  lemma {:induction false} CountAddAll(w: Watcher, cs: seq<string>, occurrences: multiset<string>)
    requires Counted(w.channels, occurrences) && InStep(w)
    ensures var r := AddChannels(w, cs);
      && Counted(r.channels, occurrences + multiset(cs)) && InStep(r)
      && r.objects == w.objects && r.online == w.online
    decreases |cs|
  {
    if cs == [] {
      assert occurrences + multiset(cs) == occurrences;
    } else {
      var front, last := cs[..|cs| - 1], cs[|cs| - 1];
      CountAddAll(w, front, occurrences);
      CountAdd(AddChannels(w, front), last, occurrences + multiset(front));
      assert cs == front + [last];
      assert occurrences + multiset(front) + multiset{last} == occurrences + multiset(cs);
    }
  }

  lemma {:induction false} CountRemoveAll(w: Watcher, cs: seq<string>, occurrences: multiset<string>)
    requires Counted(w.channels, occurrences + multiset(cs)) && InStep(w)
    ensures var r := RemoveChannels(w, cs);
      && Counted(r.channels, occurrences) && InStep(r)
      && r.objects == w.objects && r.online == w.online
    decreases |cs|
  {
    if cs == [] {
      assert occurrences + multiset(cs) == occurrences;
    } else {
      var front, last := cs[..|cs| - 1], cs[|cs| - 1];
      assert cs == front + [last];
      var more := occurrences + multiset{last};
      assert more + multiset(front) == occurrences + multiset(cs);
      CountRemoveAll(w, front, more);
      CountRemove(RemoveChannels(w, front), last, more);
      assert more - multiset{last} == occurrences;
    }
  }

  lemma {:induction false} OccurrencesAppend(a: seq<Container>, b: seq<Container>, g: nat)
    ensures Occurrences(a + b, g) == Occurrences(a, g) + Occurrences(b, g)
    decreases |b|
  {
    if b == [] {
      assert a + b == a;
    } else {
      var front := b[..|b| - 1];
      assert (a + b)[..|a + b| - 1] == a + front;
      OccurrencesAppend(a, front, g);
    }
  }

  lemma OneOccurrence(c: Container, g: nat)
    ensures Occurrences([c], g) == if c.watcher == g then multiset(c.channels) else multiset{}
  {
    assert [c][..0] == [];
  }

  lemma OccurrencesWithout(cs: seq<Container>, i: nat, g: nat)
    requires i < |cs|
    ensures Occurrences(cs, g) ==
      Occurrences(RemoveAt(cs, i), g) + if cs[i].watcher == g then multiset(cs[i].channels) else multiset{}
  {
    var (a, c, b) := (cs[..i], cs[i], cs[i + 1..]);
    OccurrencesAppend(a + [c], b, g);
    OccurrencesAppend(a, [c], g);
    OccurrencesAppend(a, b, g);
    OneOccurrence(c, g);
    SplitAt(cs, i);
  }

  lemma SplitAt(cs: seq<Container>, i: nat)
    requires i < |cs|
    ensures cs[..i] + [cs[i]] + cs[i + 1..] == cs
  {
  }

  lemma OccurrencesWith(cs: seq<Container>, c: Container, g: nat)
    ensures Occurrences(cs + [c], g) ==
      Occurrences(cs, g) + if c.watcher == g then multiset(c.channels) else multiset{}
  {
    OccurrencesAppend(cs, [c], g);
    OneOccurrence(c, g);
  }

  /** A watcher no publication keeps has nothing to count. */
  lemma {:induction false} NoOccurrences(cs: seq<Container>, g: nat)
    requires forall c :: c in cs ==> c.watcher != g
    ensures Occurrences(cs, g) == multiset{}
    decreases |cs|
  {
    if cs == [] {
    } else {
      NoOccurrences(cs[..|cs| - 1], g);
    }
  }

  lemma LoadedCounts(s: System)
    requires Sound(s) && AllCounted(s)
    ensures AllCounted(Loaded(s))
  {
    if s.current.None? { NoOccurrences(s.containers, |s.watchers|); }
  }

  lemma PublishCounts(s: System, id: string, cls: Class, cs: seq<string>)
    requires Sound(s) && AllCounted(s)
    ensures AllCounted(Step(s, Publish(id, cls, cs)))
  {
    var (t, u) := (Loaded(s), Step(s, Publish(id, cls, cs)));
    LoadedCounts(s);
    CountAddAll(t.watchers[t.current.value], cs, Occurrences(t.containers, t.current.value));
    forall g | 0 <= g < |u.watchers| ensures Counted(u.watchers[g].channels, Occurrences(u.containers, g)) {
      OccurrencesWith(t.containers, Container(id, cs, t.current.value), g);
    }
  }

  lemma UnpublishCounts(s: System, i: nat)
    requires Sound(s) && AllCounted(s) && i < |s.containers|
    ensures AllCounted(Step(s, Unpublish(i)))
  {
    var (c, t) := (s.containers[i], Step(s, Unpublish(i)));
    assert c in s.containers;
    var w := s.watchers[c.watcher];
    OccurrencesWithout(s.containers, i, c.watcher);
    CountRemoveAll(w.(objects := w.objects - {c.id}), c.channels, Occurrences(t.containers, c.watcher));
    forall g | 0 <= g < |t.watchers| ensures Counted(t.watchers[g].channels, Occurrences(t.containers, g)) {
      OccurrencesWithout(s.containers, i, g);
    }
  }

  lemma ReplacedCounts(s: System, g: nat, w: Watcher)
    requires Sound(s) && AllCounted(s) && g < |s.watchers| && InStep(w) && w.channels == s.watchers[g].channels
    ensures AllCounted(s.(watchers := s.watchers[g := w]))
  {
  }

  lemma ConnectionCounts(s: System, e: Event)
    requires Sound(s) && AllCounted(s) && !e.Publish? && !e.Unpublish?
    ensures AllCounted(Step(s, e))
  {
    if e.watcher < |s.watchers| {
      var w := s.watchers[e.watcher];
      match e
      case Registered(g) => ReplacedCounts(s, g, w.(online := true, joined := w.channels.Keys));
      case Closed(g, order) => ReplacedCounts(s, g, Disconnected(w, order));
      case NickSet(g, nick) => ReplacedCounts(s, g, Heard(w, nick, Some(Split(nick, '|')[1..])));
      case NickGone(g, nick) => ReplacedCounts(s, g, Heard(w, nick, None));
    }
  }

  lemma StepCounts(s: System, e: Event)
    requires Sound(s) && AllCounted(s)
    ensures AllCounted(Step(s, e))
  {
    match e
    case Publish(id, cls, cs) => PublishCounts(s, id, cls, cs);
    case Unpublish(i) => if i < |s.containers| { UnpublishCounts(s, i); }
    case _ => ConnectionCounts(s, e);
  }

  lemma {:induction false} RunCounts(s: System, events: seq<Event>)
    requires Sound(s) && AllCounted(s)
    ensures AllCounted(Run(s, events))
    decreases |events|
  {
    if events == [] {
    } else {
      StepCounts(s, events[0]);
      RunCounts(Step(s, events[0]), events[1..]);
    }
  }

  // ---------------------------------------------------------------- silence

  lemma SilentOneMore(cls: Class, i: nat, attrs: Attributes)
    requires i < |cls| && UniqueNames(cls) && Silent(Watched(cls[..i], attrs))
    ensures cls[i].Action? ==> Silent(Watched(cls[..i + 1], attrs))
    ensures Silent(Watched(cls[..i + 1], attrs[cls[i].name := Null]))
  {
    assert cls[..i + 1] == cls[..i] + [cls[i]];
  }

  /** Assigning null to every attribute cannot throw and silences the object. */
  lemma {:induction false} NullsAreAccepted(cls: Class, i: nat, ai: nat, attrs: Attributes)
    requires UniqueNames(cls) && i <= |cls| && Silent(Watched(cls[..i], attrs))
    ensures var r := Assigned(cls, i, ai, None, attrs); r.1 && Silent(Watched(cls, r.0))
    decreases |cls| - i
  {
    if i == |cls| {
      assert cls[..i] == cls;
    } else {
      SilentOneMore(cls, i, attrs);
      if cls[i].Action? {
        NullsAreAccepted(cls, i + 1, ai, attrs);
      } else {
        FindsItself(cls, cls[i]);
        NullsAreAccepted(cls, i + 1, ai + 1, attrs[cls[i].name := Null]);
      }
    }
  }

  lemma BarFreeIsItself(id: string)
    requires '|' !in id
    ensures Split(id, '|')[0] == id
  {
    SplitHead(id, "", '|');
  }

  lemma {:induction false} OfflineSilences(objects: map<string, Watched>, ids: seq<string>)
    requires Mirrorable(objects) && forall id :: id in ids ==> id in objects
    ensures var r := AllOffline(objects, ids);
      && r.Keys == objects.Keys && Mirrorable(r)
      && forall id :: id in r && (id in ids || Silent(objects[id])) ==> Silent(r[id])
    decreases |ids|
  {
    if ids == [] {
    } else {
      var id := ids[0];
      BarFreeIsItself(id);
      NullsAreAccepted(objects[id].cls, 0, 0, objects[id].attrs);
      var after := Spread(objects, id, None);
      assert after.Keys == objects.Keys;
      OfflineSilences(after, ids[1..]);
    }
  }

  lemma SpreadKeeps(objects: map<string, Watched>, nick: string, pieces: Option<seq<string>>)
    ensures Spread(objects, nick, pieces).Keys == objects.Keys
    ensures Mirrorable(objects) ==> Mirrorable(Spread(objects, nick, pieces))
  {
  }

  lemma GoneKeepsSilence(objects: map<string, Watched>, nick: string)
    requires Mirrorable(objects) && AllSilent(objects)
    ensures AllSilent(Spread(objects, nick, None))
  {
    var id := Split(nick, '|')[0];
    if id in objects { NullsAreAccepted(objects[id].cls, 0, 0, objects[id].attrs); }
  }

  lemma {:induction false} OfflineKeys(objects: map<string, Watched>, ids: seq<string>)
    ensures AllOffline(objects, ids).Keys == objects.Keys
    decreases |ids|
  {
    if ids == [] {
    } else {
      SpreadKeeps(objects, ids[0], None);
      OfflineKeys(Spread(objects, ids[0], None), ids[1..]);
    }
  }

  lemma ReleasedKeys(w: Watcher, c: Container)
    ensures Released(w, c).objects == w.objects - {c.id} && Released(w, c).online == w.online
  {
    RemovedObjects(w.(objects := w.objects - {c.id}), c.channels);
  }

  lemma ReplacedKeepsOrder(s: System, g: nat, w: Watcher)
    requires Sound(s) && AllOrderly(s) && g < |s.watchers| && Orderly(w)
    ensures AllOrderly(s.(watchers := s.watchers[g := w]))
  {
  }

  lemma PublishKeepsOrder(s: System, id: string, cls: Class, cs: seq<string>)
    requires Sound(s) && AllOrderly(s) && '|' !in id && UniqueNames(cls)
    ensures AllOrderly(Step(s, Publish(id, cls, cs)))
  {
    var t := Loaded(s);
    AddedObjects(t.watchers[t.current.value], cs);
    ReplacedKeepsOrder(t, t.current.value, WithPublication(t.watchers[t.current.value], id, cls, cs));
  }

  lemma UnpublishKeepsOrder(s: System, i: nat)
    requires Sound(s) && AllOrderly(s) && i < |s.containers|
    ensures AllOrderly(Step(s, Unpublish(i)))
  {
    var c := s.containers[i];
    assert c in s.containers;
    ReleasedKeys(s.watchers[c.watcher], c);
    ReplacedKeepsOrder(s, c.watcher, Released(s.watchers[c.watcher], c));
  }

  lemma HeardKeepsOrder(w: Watcher, nick: string, pieces: Option<seq<string>>)
    requires Orderly(w) && (pieces.Some? ==> w.online)
    ensures Orderly(Heard(w, nick, pieces))
  {
    SpreadKeeps(w.objects, nick, pieces);
    if !w.online { GoneKeepsSilence(w.objects, nick); }
  }

  lemma StepKeepsOrder(s: System, e: Event)
    requires Sound(s) && AllOrderly(s) && Heedful(s, e)
    ensures AllOrderly(Step(s, e))
  {
    match e
    case Publish(id, cls, cs) => PublishKeepsOrder(s, id, cls, cs);
    case Unpublish(i) => if i < |s.containers| { UnpublishKeepsOrder(s, i); }
    case Registered(g) =>
    case Closed(g, order) => if g < |s.watchers| { OfflineSilences(s.watchers[g].objects, order); }
    case NickSet(g, nick) => if g < |s.watchers| { HeardKeepsOrder(s.watchers[g], nick, Some(Split(nick, '|')[1..])); }
    case NickGone(g, nick) => if g < |s.watchers| { HeardKeepsOrder(s.watchers[g], nick, None); }
  }

  lemma {:induction false} RunKeepsOrder(s: System, events: seq<Event>)
    requires Sound(s) && AllOrderly(s) && AllHeedful(s, events)
    ensures AllOrderly(Run(s, events))
    decreases |events|
  {
    if events == [] {
    } else {
      StepKeepsOrder(s, events[0]);
      RunKeepsOrder(Step(s, events[0]), events[1..]);
    }
  }

  // ---------------------------------------------------------------- ids

  lemma IdsWith(cs: seq<Container>, c: Container)
    ensures Ids(cs + [c]) == Ids(cs) + [c.id]
    ensures forall d :: d in cs + [c] <==> d in cs || d == c
    ensures forall id :: id in Ids(cs + [c]) <==> id in Ids(cs) || id == c.id
    ensures NoRepeat(Ids(cs)) && c.id !in Ids(cs) ==> NoRepeat(Ids(cs + [c]))
  {
  }

  lemma IdsWithout(cs: seq<Container>, i: nat)
    requires i < |cs|
    ensures Ids(RemoveAt(cs, i)) == RemoveAt(Ids(cs), i)
    ensures forall d :: d in RemoveAt(cs, i) ==> d in cs
  {
  }

  /** Publications are left and no watcher is current: their channels and objects are no longer looked after. */
  ghost predicate Stranded(s: System) {
    s.current.None? && s.containers != []
  }

  /** Removing publications one after another, by their positions. */
  function Removals(positions: seq<nat>): seq<Event> {
    seq(|positions|, i requires 0 <= i < |positions| => Unpublish(positions[i]))
  }

  ghost predicate CanStrand(s: System)
    requires Sound(s)
  {
    exists positions: seq<nat> :: Stranded(Run(s, Removals(positions)))
  }

  /** What a removal does to the ids of the live publications and to the watched ones. */
  lemma RemovalOnIds(s: System, i: nat)
    requires Tended(s) && i < |s.containers|
    ensures var t := Step(s, Unpublish(i)); var left := WatchedIds(s) - {s.containers[i].id};
      && Ids(t.containers) == RemoveAt(Ids(s.containers), i)
      && WatchedIds(t) == left
      && t.current == (if left == {} then None else s.current)
      && (forall c :: c in t.containers ==> c in s.containers)
  {
    var c := s.containers[i];
    assert c in s.containers;
    ReleasedKeys(s.watchers[c.watcher], c);
    IdsWithout(s.containers, i);
    var objects := s.watchers[c.watcher].objects;
    assert (objects - {c.id}).Keys == objects.Keys - {c.id};
    assert objects - {c.id} == map[] <==> (objects - {c.id}).Keys == {};
  }

  lemma OneEachWithout(ids: seq<string>, watched: set<string>, i: nat)
    requires i < |ids| && watched <= (set id | id in ids)
    ensures var (rest, left) := (RemoveAt(ids, i), watched - {ids[i]});
      && left <= (set id | id in rest)
      && (NoRepeat(ids) && watched == (set id | id in ids) ==>
            NoRepeat(rest) && left == (set id | id in rest) && (left == {} <==> rest == []))
  {
    RemoveAtKeepsOthers(ids, i);
    if NoRepeat(ids) && watched == (set id | id in ids) {
      RemoveAtMembers(ids, i);
      var (rest, left) := (RemoveAt(ids, i), watched - {ids[i]});
      assert forall id :: id in left <==> id in rest;
      if rest != [] { assert rest[0] in left; }
    }
  }

  lemma RemovalTends(s: System, i: nat)
    requires Tended(s) && i < |s.containers|
    ensures var t := Step(s, Unpublish(i));
      && (Tended(t) || Stranded(t))
      && (OneEach(s) ==> Tended(t) && OneEach(t))
  {
    RemovalOnIds(s, i);
    OneEachWithout(Ids(s.containers), WatchedIds(s), i);
    var t := Step(s, Unpublish(i));
    assert t.containers == [] <==> Ids(t.containers) == [];
  }

  /** An event of a connection changes none of the ids. */
  lemma ConnectionTends(s: System, e: Event)
    requires Tended(s) && !e.Publish? && !e.Unpublish?
    ensures Tended(Step(s, e)) && Step(s, e).current == s.current && Step(s, e).containers == s.containers
    ensures WatchedIds(Step(s, e)) == WatchedIds(s)
  {
    if e.watcher < |s.watchers| {
      var w := s.watchers[e.watcher];
      match e
      case Registered(g) =>
      case Closed(g, order) => OfflineKeys(w.objects, order);
      case NickSet(g, nick) => SpreadKeeps(w.objects, nick, Some(Split(nick, '|')[1..]));
      case NickGone(g, nick) => SpreadKeeps(w.objects, nick, None);
    }
  }

  lemma PublishTends(s: System, id: string, cls: Class, cs: seq<string>)
    requires Tended(s)
    ensures var t := Step(s, Publish(id, cls, cs));
      && Tended(t)
      && WatchedIds(t) == WatchedIds(s) + {id}
      && Ids(t.containers) == Ids(s.containers) + [id]
  {
    var g := Loaded(s).current.value;
    AddedObjects(Loaded(s).watchers[g], cs);
    IdsWith(s.containers, Container(id, cs, g));
  }

  /** Whatever happens, with any ids, a tended system stays tended or a removal strands publications. */
  lemma StepTends(s: System, e: Event)
    requires Tended(s)
    ensures Tended(Step(s, e)) || (e.Unpublish? && Stranded(Step(s, e)))
  {
    match e
    case Publish(id, cls, cs) => PublishTends(s, id, cls, cs);
    case Unpublish(i) => if i < |s.containers| { RemovalTends(s, i); }
    case _ => ConnectionTends(s, e);
  }

  // ---------------------------------------------------------------- every regular step keeps all of it

  lemma EmptyStaysEmpty(s: System, e: Event)
    requires Tended(s) && OthersEmpty(s)
    ensures OthersEmpty(Step(s, e))
  {
    match e
    case Publish(id, cls, cs) =>
    case Unpublish(i) =>
      if i < |s.containers| {
        var c := s.containers[i];
        assert c in s.containers;
      }
    case Registered(g) =>
    case Closed(g, order) => if g < |s.watchers| { OfflineKeys(s.watchers[g].objects, order); KeysTell(s, e, g); }
    case NickSet(g, nick) =>
      if g < |s.watchers| { SpreadKeeps(s.watchers[g].objects, nick, Some(Split(nick, '|')[1..])); KeysTell(s, e, g); }
    case NickGone(g, nick) =>
      if g < |s.watchers| { SpreadKeeps(s.watchers[g].objects, nick, None); KeysTell(s, e, g); }
  }

  lemma KeysTell(s: System, e: Event, g: nat)
    requires Sound(s) && g < |s.watchers| && g < |Step(s, e).watchers|
    requires Step(s, e).watchers[g].objects.Keys == s.watchers[g].objects.Keys
    ensures s.watchers[g].objects == map[] ==> Step(s, e).watchers[g].objects == map[]
  {
    if s.watchers[g].objects == map[] { assert Step(s, e).watchers[g].objects.Keys == {}; }
  }

  lemma RegularKeepsIds(s: System, e: Event)
    requires Tended(s) && OneEach(s) && Regular(s, e)
    ensures Tended(Step(s, e)) && OneEach(Step(s, e))
  {
    match e
    case Publish(id, cls, cs) => PublishTends(s, id, cls, cs);
    case Unpublish(i) => if i < |s.containers| { RemovalTends(s, i); }
    case _ => ConnectionTends(s, e);
  }

  lemma StepKeepsInv(s: System, e: Event)
    requires Inv(s) && Regular(s, e)
    ensures Inv(Step(s, e))
  {
    RegularKeepsIds(s, e);
    EmptyStaysEmpty(s, e);
    StepCounts(s, e);
    StepKeepsOrder(s, e);
  }

  lemma {:induction false} RunKeepsInv(s: System, events: seq<Event>)
    requires Inv(s) && AllRegular(s, events)
    ensures Inv(Run(s, events))
    decreases |events|
  {
    if events == [] {
    } else {
      StepKeepsInv(s, events[0]);
      RunKeepsInv(Step(s, events[0]), events[1..]);
    }
  }

  // ---------------------------------------------------------------- the guarantees, spelled out for runs

  /**
   In every run at all, each watcher's count of a channel is its number of occurrences in the live
   publications it serves, and its client is in exactly these channels while online.
  */
  lemma ChannelCounts(events: seq<Event>, g: nat)
    requires g < |Run(START, events).watchers|
    ensures var s := Run(START, events); var w := s.watchers[g];
      && (forall c :: (if c in w.channels then w.channels[c] else 0) == Occurrences(s.containers, g)[c])
      && (w.online ==> forall c :: c in w.joined <==> c in Occurrences(s.containers, g))
      && (!w.online ==> w.joined == {})
  {
    RunCounts(START, events);
    var s := Run(START, events);
    assert Counted(s.watchers[g].channels, Occurrences(s.containers, g)) && InStep(s.watchers[g]);
  }

  /** In every regular run a watcher that is not the current one serves no publication. */
  lemma OldWatchersServeNothing(events: seq<Event>, g: nat)
    requires AllRegular(START, events)
    ensures var s := Run(START, events);
      (s.current.None? ==> s.containers == []) && (s.current != Some(g) ==> Occurrences(s.containers, g) == multiset{})
  {
    RunKeepsInv(START, events);
    var s := Run(START, events);
    if s.current != Some(g) { NoOccurrences(s.containers, g); }
  }

  /** While a watcher is offline every attribute of every object it watches is null, ids repeated or not. */
  lemma OfflineMirror(events: seq<Event>, g: nat)
    requires AllHeedful(START, events) && g < |Run(START, events).watchers|
    ensures var w := Run(START, events).watchers[g]; !w.online ==> AllSilent(w.objects)
  {
    RunKeepsOrder(START, events);
    assert Orderly(Run(START, events).watchers[g]);
  }

  // ---------------------------------------------------------------- nicks heard offline

  /** The attribute that gets the first piece of a nick. */
  function FirstAttribute(cls: Class): (r: Option<Member>)
    ensures r.Some? ==> r.value in cls && r.value.Attribute?
  {
    if cls == [] then None else if cls[0].Attribute? then Some(cls[0]) else FirstAttribute(cls[1..])
  }

  /** Reading a nick leaves a silent object silent exactly when no attribute takes the first piece. */
  lemma {:induction false} FirstPieceDecides(cls: Class, i: nat, pieces: seq<string>, attrs: Attributes)
    requires UniqueNames(cls) && i <= |cls| && Silent(Watched(cls, attrs))
    ensures var r := Assigned(cls, i, 0, Some(pieces), attrs).0; var first := FirstAttribute(cls[i..]);
      Silent(Watched(cls, r)) <==> first.None? || !CheckArg(PieceAt(Some(pieces), 0), first.value.typ)
    decreases |cls| - i
  {
    if i == |cls| {
    } else {
      assert cls[i..][0] == cls[i] && cls[i..][1..] == cls[i + 1..];
      if cls[i].Action? {
        FirstPieceDecides(cls, i + 1, pieces, attrs);
      } else {
        FindsItself(cls, cls[i]);
        var v := PieceAt(Some(pieces), 0);
        if CheckArg(v, cls[i].typ) {
          AssignedFrame(cls, i + 1, 1, Some(pieces), attrs[cls[i].name := v], cls[i].name);
        }
      }
    }
  }

  /** A nick that changes the object it names: the first attribute exists and accepts the first piece. */
  ghost predicate Takes(objects: map<string, Watched>, nick: string) {
    var parts := Split(nick, '|');
    parts[0] in objects &&
    var first := FirstAttribute(objects[parts[0]].cls);
    first.Some? && CheckArg(PieceAt(Some(parts[1..]), 0), first.value.typ)
  }

  /**
   Why nicks must reach registered clients only: the handlers do not look at the connection, so a
   nick heard offline ends the silence exactly when the object it names takes its first piece.
  */
  lemma OfflineNickIff(s: System, g: nat, nick: string)
    requires Sound(s) && g < |s.watchers| && Orderly(s.watchers[g]) && !s.watchers[g].online
    ensures AllSilent(Step(s, NickSet(g, nick)).watchers[g].objects) <==> !Takes(s.watchers[g].objects, nick)
  {
    var w := s.watchers[g];
    var parts := Split(nick, '|');
    if parts[0] in w.objects {
      var o := w.objects[parts[0]];
      assert o.cls[0..] == o.cls;
      FirstPieceDecides(o.cls, 0, parts[1..], o.attrs);
      var after := Spread(w.objects, nick, Some(parts[1..]));
      assert forall id :: id in w.objects && id != parts[0] ==> after[id] == w.objects[id];
      assert AllSilent(after) <==> Silent(after[parts[0]]);
    }
  }

  // ---------------------------------------------------------------- nicks heard online

  /** A nick changes the object it belongs to the way that object reads it, and no other object. */
  lemma SpreadReads(objects: map<string, Watched>, nick: string, id: string)
    requires id in objects
    ensures Spread(objects, nick, Some(Split(nick, '|')[1..]))[id].attrs ==
      Read(id, objects[id].cls, nick, objects[id].attrs).0
  {
  }

  lemma NickStartsWithId(id: string, cls: Class, values: Values)
    requires '|' !in id && AllSet(cls, values)
    ensures Split(NickOf(id, cls, values), '|')[0] == id
  {
    TextsAreBarFree(cls, values);
    SplitJoin([id] + AttributeTexts(cls, values), '|');
  }

  /** The nick of a published object is mirrored, and its departure silences the mirror. */
  lemma OnlineMirror(s: System, g: nat, id: string, values: Values)
    requires Sound(s) && g < |s.watchers| && Orderly(s.watchers[g]) && id in s.watchers[g].objects
    requires AllSet(s.watchers[g].objects[id].cls, values)
    ensures var cls := s.watchers[g].objects[id].cls; var nick := NickOf(id, cls, values);
      && Mirrors(cls, values, Step(s, NickSet(g, nick)).watchers[g].objects[id].attrs)
      && Silent(Step(s, NickGone(g, nick)).watchers[g].objects[id])
  {
    NickIsMirrored(s.watchers[g].objects, id, values);
  }

  lemma NickIsMirrored(objects: map<string, Watched>, id: string, values: Values)
    requires Mirrorable(objects) && id in objects && AllSet(objects[id].cls, values)
    ensures var cls := objects[id].cls; var nick := NickOf(id, cls, values);
      && Mirrors(cls, values, Spread(objects, nick, Some(Split(nick, '|')[1..]))[id].attrs)
      && Silent(Spread(objects, nick, None)[id])
  {
    var o := objects[id];
    var nick := NickOf(id, o.cls, values);
    NickRoundTrip(id, o.cls, values, o.attrs);
    SpreadReads(objects, nick, id);
    NickStartsWithId(id, o.cls, values);
    NullsAreAccepted(o.cls, 0, 0, o.attrs);
  }

  // ---------------------------------------------------------------- the end of a watcher

  lemma NothingCounted(channels: map<string, nat>)
    requires Counted(channels, multiset{})
    ensures channels == map[]
  {
    assert channels.Keys == {};
  }

  /** A watcher that is not the current one has nothing left. */
  lemma DiscardedIsEmpty(s: System, g: nat)
    requires Inv(s) && g < |s.watchers| && s.current.None?
    ensures var w := s.watchers[g]; w.objects == map[] && w.channels == map[] && w.joined == {}
  {
    NoOccurrences(s.containers, g);
    assert Counted(s.watchers[g].channels, Occurrences(s.containers, g)) && InStep(s.watchers[g]);
    NothingCounted(s.watchers[g].channels);
  }

  /** When an object's removal discards the watcher, no object, no channel and no publication is left. */
  lemma DiscardedWhenUnused(events: seq<Event>, i: nat)
    requires AllRegular(START, events)
    ensures var s := Run(START, events); var t := Step(s, Unpublish(i));
      s.current.Some? && t.current.None? ==>
        && t.containers == []
        && var w := t.watchers[s.current.value]; w.objects == map[] && w.channels == map[] && w.joined == {}
  {
    RunKeepsInv(START, events);
    DiscardStep(Run(START, events), i);
  }

  lemma DiscardStep(s: System, i: nat)
    requires Inv(s)
    ensures var t := Step(s, Unpublish(i));
      s.current.Some? && t.current.None? ==>
        && t.containers == []
        && var w := t.watchers[s.current.value]; w.objects == map[] && w.channels == map[] && w.joined == {}
  {
    var t := Step(s, Unpublish(i));
    StepKeepsInv(s, Unpublish(i));
    if s.current.Some? && t.current.None? { DiscardedIsEmpty(t, s.current.value); }
  }

  /** No step of the run strands a publication. */
  ghost predicate NeverStrands(s: System, events: seq<Event>)
    requires Sound(s)
    decreases |events|
  {
    events == [] || (!Stranded(Step(s, events[0])) && NeverStrands(Step(s, events[0]), events[1..]))
  }

  lemma {:induction false} RunTends(s: System, events: seq<Event>)
    requires Tended(s) && NeverStrands(s, events)
    ensures Tended(Run(s, events))
    decreases |events|
  {
    if events == [] {
    } else {
      StepTends(s, events[0]);
      RunTends(Step(s, events[0]), events[1..]);
    }
  }

  lemma {:induction false} OneEachIsSafe(s: System, positions: seq<nat>)
    requires Tended(s) && OneEach(s)
    ensures !Stranded(Run(s, Removals(positions)))
    decreases |positions|
  {
    if positions == [] {
    } else {
      assert Removals(positions)[1..] == Removals(positions[1..]);
      if positions[0] < |s.containers| { RemovalTends(s, positions[0]); }
      OneEachIsSafe(Step(s, Unpublish(positions[0])), positions[1..]);
    }
  }

  /** Each watched id is the id of some other publication than number j. */
  ghost predicate Spare(ids: seq<string>, watched: set<string>, j: nat) {
    j < |ids| && forall id :: id in watched ==> id in RemoveAt(ids, j)
  }

  /** On the ids alone: the removals end with nothing watched and something published. */
  ghost predicate Strands(ids: seq<string>, watched: set<string>, positions: seq<nat>)
    decreases |positions|
  {
    positions != [] && positions[0] < |ids| &&
    var (rest, left) := (RemoveAt(ids, positions[0]), watched - {ids[positions[0]]});
    if left == {} then rest != [] && |positions| == 1 else Strands(rest, left, positions[1..])
  }

  lemma NotOneEachSpares(ids: seq<string>, watched: set<string>) returns (j: nat)
    requires watched <= (set id | id in ids)
    requires !(NoRepeat(ids) && watched == (set id | id in ids))
    ensures Spare(ids, watched, j)
  {
    if NoRepeat(ids) {
      var id :| id in ids && id !in watched;
      j :| 0 <= j < |ids| && ids[j] == id;
    } else {
      var twin;
      twin, j :| 0 <= twin < j < |ids| && ids[twin] == ids[j];
      assert RemoveAt(ids, j)[twin] == ids[j];
    }
    RemoveAtKeepsOthers(ids, j);
  }

  /** Removing an other publication of a watched id keeps the spare one spare. */
  lemma StillSpare(ids: seq<string>, watched: set<string>, j: nat, i: nat)
    requires Spare(ids, watched, j) && i < |ids| && i != j
    ensures Spare(RemoveAt(ids, i), watched - {ids[i]}, if j < i then j else j - 1)
  {
    var l := if i < j then i else i - 1;
    if i < j { RemoveAtSwaps(ids, i, j); } else { RemoveAtSwaps(ids, j, i); }
    RemoveAtIndex(ids, j, l);
    RemoveAtKeepsOthers(RemoveAt(ids, j), l);
  }

  /** Removing the other publications of the watched ids strands a spare one. */
  lemma {:induction false} StrandSpare(ids: seq<string>, watched: set<string>, j: nat) returns (positions: seq<nat>)
    requires watched != {} && Spare(ids, watched, j)
    ensures Strands(ids, watched, positions)
    decreases |ids|
  {
    var id :| id in watched;
    var l :| 0 <= l < |ids| - 1 && RemoveAt(ids, j)[l] == id;
    var i := if l < j then l else l + 1;
    StillSpare(ids, watched, j, i);
    positions := [];
    if watched - {id} != {} {
      positions := StrandSpare(RemoveAt(ids, i), watched - {id}, if j < i then j else j - 1);
    }
    positions := [i] + positions;
  }

  lemma {:induction false} StrandsInRun(s: System, positions: seq<nat>)
    requires Tended(s) && Strands(Ids(s.containers), WatchedIds(s), positions)
    ensures Stranded(Run(s, Removals(positions)))
    decreases |positions|
  {
    var t := Step(s, Unpublish(positions[0]));
    RemovalOnIds(s, positions[0]);
    assert Removals(positions)[1..] == Removals(positions[1..]);
    if WatchedIds(t) == {} {
      assert Ids(t.containers) != [] && Removals(positions[1..]) == [];
    } else {
      RemovalTends(s, positions[0]);
      StrandsInRun(t, positions[1..]);
    }
  }

  /**
   After any run that stranded nothing, with ids published once or more often: some order of
   removals strands a publication exactly when two live publications share an id or the object of
   one is not watched.
  */
  lemma StrandsIff(events: seq<Event>)
    requires NeverStrands(START, events)
    ensures Tended(Run(START, events))
    ensures CanStrand(Run(START, events)) <==> !OneEach(Run(START, events))
  {
    RunTends(START, events);
    CanStrandIff(Run(START, events));
  }

  lemma CanStrandIff(s: System)
    requires Tended(s)
    ensures CanStrand(s) <==> !OneEach(s)
  {
    if OneEach(s) {
      forall positions: seq<nat> ensures !Stranded(Run(s, Removals(positions))) { OneEachIsSafe(s, positions); }
    } else {
      var j := NotOneEachSpares(Ids(s.containers), WatchedIds(s));
      var positions := StrandSpare(Ids(s.containers), WatchedIds(s), j);
      StrandsInRun(s, positions);
    }
  }

  /** From a regular state, publishing an id makes a stranding possible exactly when the id is already published. */
  lemma RepublishStrandsIff(s: System, id: string, cls: Class, cs: seq<string>)
    requires Inv(s)
    ensures CanStrand(Step(s, Publish(id, cls, cs))) <==> id in Ids(s.containers)
  {
    PublishTends(s, id, cls, cs);
    CanStrandIff(Step(s, Publish(id, cls, cs)));
    var ids := Ids(s.containers);
    if id in ids {
      var i :| 0 <= i < |ids| && ids[i] == id;
      assert (ids + [id])[i] == (ids + [id])[|ids|];
    }
  }

  /**
   A publication is served by the current watcher, or by a new one that becomes current; there the
   object is watched anew, with the given class and all its attributes null, and nothing else changes.
  */
  lemma PublishMeaning(s: System, id: string, cls: Class, cs: seq<string>)
    requires Sound(s)
    ensures var t := Step(s, Publish(id, cls, cs));
      && t.current == Some(if s.current.Some? then s.current.value else |s.watchers|)
      && t.containers == s.containers + [Container(id, cs, t.current.value)]
      && var before := if s.current.Some? then s.watchers[s.current.value].objects else map[];
         var after := t.watchers[t.current.value].objects;
         && id in after && after[id].cls == cls && Silent(after[id])
         && (forall other :: other != id ==>
               (other in after <==> other in before) && (other in before ==> after[other] == before[other]))
  {
    AddedObjects(Loaded(s).watchers[Loaded(s).current.value], cs);
  }

  /**
   A removal takes the object from the publication's own watcher. The current watcher stays unless that
   watcher has no other object; then none is current, whichever was.
  */
  lemma RemovalMeaning(s: System, i: nat)
    requires Sound(s) && i < |s.containers|
    ensures var c := s.containers[i]; var t := Step(s, Unpublish(i));
      var before := s.watchers[c.watcher].objects;
      && t.watchers[c.watcher].objects == before - {c.id}
      && (forall g :: 0 <= g < |s.watchers| && g != c.watcher ==> t.watchers[g] == s.watchers[g])
      && t.current == (if exists id :: id in before && id != c.id then s.current else None)
  {
    var c := s.containers[i];
    var w := s.watchers[c.watcher];
    RemovedObjects(w.(objects := w.objects - {c.id}), c.channels);
    if id :| id in w.objects && id != c.id { assert id in w.objects - {c.id}; }
  }

  /**
   So a publication left behind on an old watcher can strand a newer one: its removal leaves no
   current watcher, while the newer one still watches its object.
  */
  lemma OldRemovalStrandsNew(a: string, b: string, cls: Class)
    ensures var twice := Step(Step(START, Publish(a, cls, [])), Publish(a, cls, []));
      var s := Step(Step(twice, Unpublish(0)), Publish(b, cls, []));
      var t := Step(s, Unpublish(0));
      && s.current == Some(1) && t.current == None
      && |t.containers| == 1 && t.containers[0].id == b && t.containers[0].watcher == 1
      && |t.watchers| == 2 && b in t.watchers[1].objects
  {
    var one := Step(START, Publish(a, cls, []));
    var twice := Step(one, Publish(a, cls, []));
    var left := Step(twice, Unpublish(0));
    PublishMeaning(START, a, cls, []);
    PublishMeaning(one, a, cls, []);
    RemovalMeaning(twice, 0);
    PublishMeaning(left, b, cls, []);
    RemovalMeaning(Step(left, Publish(b, cls, [])), 0);
  }

  /** A second report of a lost connection changes nothing, whatever order it would take. */
  lemma SecondReport(w: Watcher, first: seq<string>, second: seq<string>)
    ensures Disconnected(Disconnected(w, first), second) == Disconnected(w, first)
    ensures !Disconnected(w, first).online
  {
  }

  /** Publishing one id twice and removing the first publication discards the watcher the second still counts on. */
  lemma SharedIdStrands(id: string, cls: Class, cs: seq<string>)
    ensures Stranded(Run(START, [Publish(id, cls, cs), Publish(id, cls, cs), Unpublish(0)]))
  {
    var p := Publish(id, cls, cs);
    var events := [p, p, Unpublish(0)];
    assert events[1..] == [p, Unpublish(0)] && events[1..][1..] == [Unpublish(0)] && events[1..][1..][1..] == [];
    PublishTends(START, id, cls, cs);
    var s := Step(START, p);
    PublishTends(s, id, cls, cs);
    var t := Step(s, p);
    assert Ids(t.containers) == [id, id];
    RemovalOnIds(t, 0);
    assert Run(START, events) == Run(t, [Unpublish(0)]) == Run(Step(t, Unpublish(0)), []);
  }
}
