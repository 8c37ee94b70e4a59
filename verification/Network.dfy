/**
 Several publishers and the core's watcher together. Each publisher's nicks travel first in, first
 out; nicks of different publishers may overtake each other. The connection may be lost and made
 again, objects may be published, withdrawn and published again at any time.
 */
module Network {
  import opened Text
  import opened NetStructure
  import opened Mirror
  import opened Sequences
  import opened Watching

  /** The values a publisher announced, and its nicks the watcher's client has not received yet. */
  datatype Publisher = Publisher(cls: Class, history: seq<Values>, wire: seq<string>)

  /** `heard` are the watched ids a nick was delivered for, since they are watched and online. */
  datatype Network = Network(publishers: map<string, Publisher>, system: System, heard: set<string>)

  datatype Happening =
    | Announce(id: string)
    | Change(id: string, setting: Setting)
    | Deliver(id: string)
    | Depart(id: string)
    | Core(event: Event)

  // ---------------------------------------------------------------- the current watcher

  function Objects(s: System): map<string, Watched>
    requires Sound(s)
  {
    if s.current.Some? then s.watchers[s.current.value].objects else map[]
  }

  predicate Online(s: System)
    requires Sound(s)
  {
    s.current.Some? && s.watchers[s.current.value].online
  }

  function Latest(p: Publisher): Values
    requires p.history != []
  {
    p.history[|p.history| - 1]
  }

  /** The values behind the last nick that was delivered. */
  function Delivered(p: Publisher): Values
    requires |p.wire| < |p.history|
  {
    p.history[|p.history| - |p.wire| - 1]
  }

  // ---------------------------------------------------------------- steps

  /** The publisher has new values; its nick goes to the client when there is a connection. */
  function Announced(id: string, p: Publisher, values: Values, online: bool): Publisher {
    Publisher(p.cls, p.history + [values], if online then p.wire + [NickOf(id, p.cls, values)] else p.wire)
  }

  function Dropped(publishers: map<string, Publisher>): map<string, Publisher> {
    map id | id in publishers :: publishers[id].(wire := [])
  }

  function Next(n: Network, h: Happening): (m: Network)
    requires Sound(n.system) && forall id :: id in n.publishers ==> n.publishers[id].history != []
    ensures Sound(m.system) && forall id :: id in m.publishers ==> m.publishers[id].history != []
  {
    var s := n.system;
    match h
    case Announce(id) =>
      if id !in n.publishers then n
      else
        var p := n.publishers[id];
        n.(publishers := n.publishers[id := Announced(id, p, Latest(p), Online(s))])
    case Change(id, c) =>
      if id !in n.publishers then n
      else
        var p := n.publishers[id];
        n.(publishers := n.publishers[id := Announced(id, p, Latest(p)[c.name := c.value], Online(s))])
    case Deliver(id) =>
      if id !in n.publishers || n.publishers[id].wire == [] || s.current.None? then n
      else
        var p := n.publishers[id];
        Network(n.publishers[id := p.(wire := p.wire[1..])], Step(s, NickSet(s.current.value, p.wire[0])),
                if id in Objects(s) then n.heard + {id} else n.heard)
    case Depart(id) =>
      // the departure is heard after all nicks of the publisher
      if id !in n.publishers || n.publishers[id].wire != [] || s.current.None? then n
      else
        var p := n.publishers[id];
        Network(n.publishers, Step(s, NickGone(s.current.value, NickOf(id, p.cls, Latest(p)))), n.heard - {id})
    case Core(e) =>
      var t := Step(s, e);
      Network(if Online(t) then n.publishers else Dropped(n.publishers), t,
              if Online(t) then n.heard * Objects(t).Keys else {})
  }

  function After(n: Network, happenings: seq<Happening>): (m: Network)
    requires Sound(n.system) && forall id :: id in n.publishers ==> n.publishers[id].history != []
    ensures Sound(m.system) && forall id :: id in m.publishers ==> m.publishers[id].history != []
    decreases |happenings|
  {
    if happenings == [] then n else After(Next(n, happenings[0]), happenings[1..])
  }

  // ---------------------------------------------------------------- the invariant

  ghost predicate Legitimate(id: string, p: Publisher) {
    && '|' !in id && UniqueNames(p.cls)
    && |p.wire| < |p.history|
    && (forall k :: 0 <= k < |p.history| ==> AllSet(p.cls, p.history[k]))
    && (forall k :: 0 <= k < |p.wire| ==> p.wire[k] == NickOf(id, p.cls, p.history[|p.history| - |p.wire| + k]))
  }

  /** A heard object mirrors the values last delivered, any other object is silent. */
  ghost predicate Follows(o: Watched, p: Publisher, heard: bool)
    requires |p.wire| < |p.history|
  {
    && o.cls == p.cls
    && if heard then Mirrors(p.cls, Delivered(p), o.attrs) else Silent(o)
  }

  ghost predicate AllLegitimate(publishers: map<string, Publisher>) {
    forall id :: id in publishers ==> Legitimate(id, publishers[id])
  }

  ghost predicate AllFollow(objects: map<string, Watched>, publishers: map<string, Publisher>, heard: set<string>)
    requires AllLegitimate(publishers)
  {
    && heard <= publishers.Keys * objects.Keys
    && (forall id :: id in objects && id in publishers ==> Follows(objects[id], publishers[id], id in heard))
    && (forall id :: id in objects && id !in publishers ==> Silent(objects[id]))
  }

  ghost predicate Consistent(n: Network) {
    && Watching.Inv(n.system)
    && AllLegitimate(n.publishers)
    && AllFollow(Objects(n.system), n.publishers, n.heard)
    && (!Online(n.system) ==> n.heard == {} && forall id :: id in n.publishers ==> n.publishers[id].wire == [])
  }

  /** Settings are legal, the core publishes objects with their publishers' classes, and it sends no nicks itself. */
  ghost predicate Allowed(n: Network, h: Happening) {
    match h
    case Change(id, c) => id in n.publishers ==> Legal(n.publishers[id].cls, c)
    case Core(e) =>
      && Regular(n.system, e) && !e.NickSet? && !e.NickGone?
      && (e.Publish? && e.id in n.publishers ==> e.cls == n.publishers[e.id].cls)
    case _ => true
  }

  ghost predicate AllAllowed(n: Network, happenings: seq<Happening>)
    requires Sound(n.system) && forall id :: id in n.publishers ==> n.publishers[id].history != []
    decreases |happenings|
  {
    happenings == [] || (Allowed(n, happenings[0]) && AllAllowed(Next(n, happenings[0]), happenings[1..]))
  }

  // ---------------------------------------------------------------- publishers

  lemma AnnouncedWire(id: string, p: Publisher, values: Values, k: nat)
    requires Legitimate(id, p) && k <= |p.wire|
    ensures var q := Announced(id, p, values, true);
      q.wire[k] == NickOf(id, p.cls, q.history[|p.history| - |p.wire| + k])
  {
    if k < |p.wire| {
      assert p.wire[k] == NickOf(id, p.cls, p.history[|p.history| - |p.wire| + k]);
    }
  }

  lemma AnnouncedIsLegitimate(id: string, p: Publisher, values: Values, online: bool)
    requires Legitimate(id, p) && AllSet(p.cls, values) && (!online ==> p.wire == [])
    ensures var q := Announced(id, p, values, online);
      Legitimate(id, q) && (online ==> Delivered(q) == Delivered(p)) && (!online ==> q.wire == [])
  {
    var q := Announced(id, p, values, online);
    assert forall k :: 0 <= k < |q.history| ==> q.history[k] == if k < |p.history| then p.history[k] else values;
    if online {
      assert |q.history| - |q.wire| == |p.history| - |p.wire|;
      forall k | 0 <= k < |q.wire|
        ensures q.wire[k] == NickOf(id, q.cls, q.history[|q.history| - |q.wire| + k])
      {
        AnnouncedWire(id, p, values, k);
      }
    }
  }

  lemma AnnounceKeepsConsistent(n: Network, id: string, values: Values)
    requires Consistent(n) && id in n.publishers && AllSet(n.publishers[id].cls, values)
    ensures Consistent(n.(publishers := n.publishers[id := Announced(id, n.publishers[id], values, Online(n.system))]))
  {
    AnnouncedIsLegitimate(id, n.publishers[id], values, Online(n.system));
  }

  // ---------------------------------------------------------------- nicks

  lemma DeliveredIsLegitimate(id: string, p: Publisher)
    requires Legitimate(id, p) && p.wire != []
    ensures var q := p.(wire := p.wire[1..]); var values := p.history[|p.history| - |p.wire|];
      && Legitimate(id, q) && Delivered(q) == values
      && p.wire[0] == NickOf(id, p.cls, values) && AllSet(p.cls, values)
  {
    assert p.wire[0] == NickOf(id, p.cls, p.history[|p.history| - |p.wire| + 0]);
  }

  lemma DeliverKeepsFollowing(
    objects: map<string, Watched>, publishers: map<string, Publisher>, heard: set<string>, id: string)
    requires AllLegitimate(publishers) && AllFollow(objects, publishers, heard) && Mirrorable(objects)
    requires id in publishers && publishers[id].wire != []
    ensures var p := publishers[id]; var after := publishers[id := p.(wire := p.wire[1..])];
      && AllLegitimate(after)
      && AllFollow(Spread(objects, p.wire[0], Some(Split(p.wire[0], '|')[1..])), after,
                   if id in objects then heard + {id} else heard)
  {
    var p := publishers[id];
    var values := p.history[|p.history| - |p.wire|];
    DeliveredIsLegitimate(id, p);
    NickStartsWithId(id, p.cls, values);
    if id in objects { NickIsMirrored(objects, id, values); }
    SpreadKeeps(objects, p.wire[0], Some(Split(p.wire[0], '|')[1..]));
  }

  lemma DepartKeepsFollowing(
    objects: map<string, Watched>, publishers: map<string, Publisher>, heard: set<string>, id: string)
    requires AllLegitimate(publishers) && AllFollow(objects, publishers, heard) && Mirrorable(objects)
    requires id in publishers
    ensures var p := publishers[id];
      AllFollow(Spread(objects, NickOf(id, p.cls, Latest(p)), None), publishers, heard - {id})
  {
    var p := publishers[id];
    NickStartsWithId(id, p.cls, Latest(p));
    if id in objects { NickIsMirrored(objects, id, Latest(p)); }
  }

  // ---------------------------------------------------------------- the core's own events

  lemma {:induction false} OfflineClasses(objects: map<string, Watched>, ids: seq<string>)
    ensures var r := AllOffline(objects, ids);
      r.Keys == objects.Keys && forall id :: id in objects ==> r[id].cls == objects[id].cls
    decreases |ids|
  {
    if ids == [] {
    } else {
      OfflineClasses(Spread(objects, ids[0], None), ids[1..]);
    }
  }

  /** What an event of the core does to the objects of the current watcher. */
  lemma CoreEvent(s: System, e: Event)
    requires Sound(s) && OneEach(s) && Regular(s, e) && !e.NickSet? && !e.NickGone?
    ensures var (before, after) := (Objects(s), Objects(Step(s, e)));
      && (e.Publish? ==> e.id !in before)
      && (forall id :: id in after && e.Publish? && id == e.id ==> after[id] == Watched(e.cls, NewAttributes(e.cls)))
      && (forall id :: id in after && !(e.Publish? && id == e.id) ==>
            && id in before && after[id].cls == before[id].cls
            && (Online(Step(s, e)) && Online(s) ==> after[id] == before[id]))
  {
    match e
    case Publish(id, cls, cs) => AddedObjects(Loaded(s).watchers[Loaded(s).current.value], cs);
    case Unpublish(i) =>
      if i < |s.containers| {
        assert s.containers[i] in s.containers;
        ReleasedKeys(s.watchers[s.containers[i].watcher], s.containers[i]);
      }
    case Registered(g) =>
    case Closed(g, order) => if g < |s.watchers| { OfflineClasses(s.watchers[g].objects, order); }
  }

  lemma OfflineIsSilent(s: System)
    requires Watching.Inv(s) && !Online(s)
    ensures AllSilent(Objects(s))
  {
    if s.current.Some? { assert Orderly(s.watchers[s.current.value]); }
  }

  lemma RegisteredIsSilent(s: System, e: Event)
    requires Watching.Inv(s) && Regular(s, e) && !Online(s) && !e.NickSet? && !e.NickGone?
    ensures AllSilent(Objects(Step(s, e)))
  {
    OfflineIsSilent(s);
    if e.Registered? {
    } else {
      Watching.StepKeepsInv(s, e);
      StaysOffline(s, e);
      OfflineIsSilent(Step(s, e));
    }
  }

  lemma StaysOffline(s: System, e: Event)
    requires Watching.Inv(s) && !Online(s) && !e.Registered? && !e.NickSet? && !e.NickGone?
    ensures !Online(Step(s, e))
  {
    match e
    case Publish(id, cls, cs) => AddedObjects(Loaded(s).watchers[Loaded(s).current.value], cs);
    case Unpublish(i) =>
      if i < |s.containers| {
        var c := s.containers[i];
        assert c in s.containers;
        ReleasedKeys(s.watchers[c.watcher], c);
      }
    case Closed(g, order) =>
  }

  lemma SilentFollow(objects: map<string, Watched>, publishers: map<string, Publisher>)
    requires AllLegitimate(publishers) && AllSilent(objects)
    requires forall id :: id in objects && id in publishers ==> objects[id].cls == publishers[id].cls
    ensures AllFollow(objects, publishers, {})
  {
  }

  lemma DroppedIsLegitimate(publishers: map<string, Publisher>)
    requires AllLegitimate(publishers)
    ensures AllLegitimate(Dropped(publishers))
  {
  }

  /** While online, objects come and go, and the others are not touched. */
  lemma OnlineFollow(
    before: map<string, Watched>, after: map<string, Watched>, publishers: map<string, Publisher>, heard: set<string>)
    requires AllLegitimate(publishers) && AllFollow(before, publishers, heard)
    requires forall id :: id in after && id in before ==> after[id] == before[id]
    requires forall id :: id in after && id !in before ==>
      Silent(after[id]) && (id in publishers ==> after[id].cls == publishers[id].cls)
    ensures AllFollow(after, publishers, heard * after.Keys)
  {
  }

  lemma ClassesStay(n: Network, e: Event)
    requires Consistent(n) && Allowed(n, Core(e))
    ensures var after := Objects(Step(n.system, e));
      forall id :: id in after && id in n.publishers ==> after[id].cls == n.publishers[id].cls
  {
    CoreEvent(n.system, e);
    var (before, after) := (Objects(n.system), Objects(Step(n.system, e)));
    forall id | id in after && id in n.publishers ensures after[id].cls == n.publishers[id].cls {
      if e.Publish? && id == e.id {
        assert after[id] == Watched(e.cls, NewAttributes(e.cls));
      } else {
        assert id in before && Follows(before[id], n.publishers[id], id in n.heard);
      }
    }
  }

  lemma FollowsWhileOnline(n: Network, e: Event)
    requires Consistent(n) && Allowed(n, Core(e)) && Online(Step(n.system, e))
    ensures var after := Objects(Step(n.system, e)); AllFollow(after, n.publishers, n.heard * after.Keys)
  {
    var (s, t) := (n.system, Step(n.system, e));
    CoreEvent(s, e);
    ClassesStay(n, e);
    if Online(s) {
      var (before, after) := (Objects(s), Objects(t));
      forall id | id in after
        ensures if id in before then after[id] == before[id] else Silent(after[id])
      {
        if e.Publish? && id == e.id {
          assert after[id] == Watched(e.cls, NewAttributes(e.cls));
        } else {
          assert id in before;
        }
      }
      OnlineFollow(before, after, n.publishers, n.heard);
    } else {
      RegisteredIsSilent(s, e);
      SilentFollow(Objects(t), n.publishers);
      assert n.heard * Objects(t).Keys == {};
    }
  }

  lemma FollowsOffline(n: Network, e: Event)
    requires Consistent(n) && Allowed(n, Core(e)) && !Online(Step(n.system, e))
    ensures AllLegitimate(Dropped(n.publishers))
    ensures AllFollow(Objects(Step(n.system, e)), Dropped(n.publishers), {})
  {
    Watching.StepKeepsInv(n.system, e);
    OfflineIsSilent(Step(n.system, e));
    ClassesStay(n, e);
    DroppedIsLegitimate(n.publishers);
    SilentFollow(Objects(Step(n.system, e)), Dropped(n.publishers));
  }

  lemma CoreKeepsConsistent(n: Network, e: Event)
    requires Consistent(n) && Allowed(n, Core(e))
    ensures Consistent(Next(n, Core(e)))
  {
    Watching.StepKeepsInv(n.system, e);
    if Online(Step(n.system, e)) { FollowsWhileOnline(n, e); } else { FollowsOffline(n, e); }
  }

  // ---------------------------------------------------------------- every run

  /** A nick reaches the objects of the current watcher, and changes nothing else. */
  lemma HeardObjects(s: System, nick: string, e: Event)
    requires Sound(s) && s.current.Some? && e in {NickGone(s.current.value, nick), NickSet(s.current.value, nick)}
    ensures var t := Step(s, e);
      && Online(t) == Online(s)
      && Objects(t) == Spread(Objects(s), nick, if e.NickSet? then Some(Split(nick, '|')[1..]) else None)
  {
  }

  lemma CurrentIsMirrorable(s: System)
    requires Watching.Inv(s)
    ensures Mirrorable(Objects(s))
  {
    if s.current.Some? { assert Orderly(s.watchers[s.current.value]); }
  }

  lemma DeliverKeepsConsistent(n: Network, id: string)
    requires Consistent(n)
    ensures Consistent(Next(n, Deliver(id)))
  {
    var s := n.system;
    if id in n.publishers && n.publishers[id].wire != [] && s.current.Some? {
      var nick := n.publishers[id].wire[0];
      Watching.StepKeepsInv(s, NickSet(s.current.value, nick));
      HeardObjects(s, nick, NickSet(s.current.value, nick));
      CurrentIsMirrorable(s);
      DeliverKeepsFollowing(Objects(s), n.publishers, n.heard, id);
    }
  }

  lemma DepartKeepsConsistent(n: Network, id: string)
    requires Consistent(n)
    ensures Consistent(Next(n, Depart(id)))
  {
    var s := n.system;
    if id in n.publishers && n.publishers[id].wire == [] && s.current.Some? {
      var nick := NickOf(id, n.publishers[id].cls, Latest(n.publishers[id]));
      Watching.StepKeepsInv(s, NickGone(s.current.value, nick));
      HeardObjects(s, nick, NickGone(s.current.value, nick));
      CurrentIsMirrorable(s);
      DepartKeepsFollowing(Objects(s), n.publishers, n.heard, id);
    }
  }

  lemma NextKeepsConsistent(n: Network, h: Happening)
    requires Consistent(n) && Allowed(n, h)
    ensures Consistent(Next(n, h))
  {
    match h
    case Announce(id) =>
      if id in n.publishers {
        AnnounceKeepsConsistent(n, id, Latest(n.publishers[id]));
      }
    case Change(id, c) =>
      if id in n.publishers {
        var p := n.publishers[id];
        ChangeKeepsAllSet(p.cls, Latest(p), c);
        AnnounceKeepsConsistent(n, id, Latest(p)[c.name := c.value]);
      }
    case Deliver(id) => DeliverKeepsConsistent(n, id);
    case Depart(id) => DepartKeepsConsistent(n, id);
    case Core(e) => CoreKeepsConsistent(n, e);
  }

  lemma {:induction false} RunKeepsConsistent(n: Network, happenings: seq<Happening>)
    requires Consistent(n) && AllAllowed(n, happenings)
    ensures Consistent(After(n, happenings))
    decreases |happenings|
  {
    if happenings == [] {
    } else {
      NextKeepsConsistent(n, happenings[0]);
      RunKeepsConsistent(Next(n, happenings[0]), happenings[1..]);
    }
  }

  /** Publishers with set values, and a core that watches nothing. */
  ghost predicate Initial(n: Network) {
    && n.system == START && n.heard == {}
    && forall id :: id in n.publishers ==>
      Legitimate(id, n.publishers[id]) && n.publishers[id].wire == []
  }

  lemma HeardMirrors(
    objects: map<string, Watched>, publishers: map<string, Publisher>, heard: set<string>, id: string)
    requires AllLegitimate(publishers) && AllFollow(objects, publishers, heard) && id in heard
    ensures id in publishers && id in objects
    ensures var p := publishers[id];
      && |p.wire| < |p.history| && Mirrors(p.cls, Delivered(p), objects[id].attrs)
      && (p.wire == [] ==> Mirrors(p.cls, Latest(p), objects[id].attrs))
  {
    assert Follows(objects[id], publishers[id], true);
  }

  /**
   In every run, whatever the order in which nicks arrive and whatever happens to the connection and
   the publications: an object a nick was delivered for mirrors the values its publisher had before
   the nicks still on the way, every other watched object is null, and offline all are.
  */
  lemma EveryMirrorLags(n: Network, happenings: seq<Happening>, id: string)
    requires Initial(n) && AllAllowed(n, happenings) && id in Objects(After(n, happenings).system)
    ensures var m := After(n, happenings); var o := Objects(m.system)[id];
      && (id in m.heard ==>
            && Online(m.system) && id in m.publishers && |m.publishers[id].wire| < |m.publishers[id].history|
            && Mirrors(m.publishers[id].cls, Delivered(m.publishers[id]), o.attrs))
      && (id !in m.heard ==> Silent(o))
  {
    RunKeepsConsistent(n, happenings);
    var m := After(n, happenings);
    if id in m.heard { HeardMirrors(Objects(m.system), m.publishers, m.heard, id); }
  }

  /** An object that was heard, of a publisher with nothing left on its wire, mirrors the current values. */
  ghost predicate IsCurrent(m: Network, id: string)
    requires Sound(m.system) && forall id :: id in m.publishers ==> m.publishers[id].history != []
  {
    id in m.heard ==>
      && id in m.publishers && id in Objects(m.system)
      && var p := m.publishers[id];
         p.wire == [] ==> Mirrors(p.cls, Latest(p), Objects(m.system)[id].attrs)
  }

  /** Once a publisher's wire is drained, an object that was heard mirrors the publisher's current values. */
  lemma DrainedMirrorIsCurrent(n: Network, happenings: seq<Happening>, id: string)
    requires Initial(n) && AllAllowed(n, happenings)
    ensures IsCurrent(After(n, happenings), id)
  {
    RunKeepsConsistent(n, happenings);
    var m := After(n, happenings);
    if id in m.heard { HeardMirrors(Objects(m.system), m.publishers, m.heard, id); }
  }
}
