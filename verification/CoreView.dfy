/**
 What a client of the core sees: the three listings. `After` is one request on the
 listings alone; the registries refine it, so a series of requests can be reasoned
 about without objects, repository and listeners.
 */
module CoreView {
  import opened Text
  import opened Configuration
  import opened Core

  datatype View = View(
    types: set<string>, plugins: map<string, PluginItem>, hardware: map<string, HardwareItem>,
    links: map<string, LinkItem>)

  ghost function LinkItems(links: map<string, RunningLink>): map<string, LinkItem> {
    map id | id in links :: Item(id, links[id].config)
  }

  ghost function ViewOf(s: State): View {
    View(s.types, Configs(s.plugins), Configs(s.hardware), LinkItems(s.links))
  }

  ghost predicate Linked(v: View, id: string) {
    exists l :: l in v.links && v.links[l].body.Touches(id)
  }

  predicate Known(v: View, id: string) {
    id in v.plugins || id in v.hardware
  }

  /** The listings after a request, or None when it is refused. */
  ghost function After(v: View, op: Op): Option<View> {
    match op
    case AddPlugin(c) =>
      if c.id in v.plugins || c.body.typ !in v.types then None else Some(v.(plugins := v.plugins[c.id := c]))
    case AddHardware(c) =>
      if c.id in v.hardware then None else Some(v.(hardware := v.hardware[c.id := c]))
    case AddLink(c) =>
      var id := MakeId(c.body);
      if id in v.links || !Known(v, c.body.sourceComponent) || !Known(v, c.body.destinationComponent) then None
      else Some(v.(links := v.links[id := Item(id, c.body)]))
    case RemovePlugin(id) =>
      if Linked(v, id) || id !in v.plugins then None else Some(v.(plugins := v.plugins - {id}))
    case RemoveHardware(id) =>
      if Linked(v, id) || id !in v.hardware then None else Some(v.(hardware := v.hardware - {id}))
    case RemoveLink(id) =>
      if id !in v.links then None else Some(v.(links := v.links - {id}))
  }

  predicate ReusesId(v: View, op: Op) {
    match op
    case AddPlugin(c) => c.id in v.hardware
    case AddHardware(c) => c.id in v.plugins
    case _ => false
  }

  // ---------------------------------------------------------------- the registries refine the listings

  lemma LoadComponentRefines(s: State, op: Op)
    requires op.AddPlugin? || op.AddHardware?
    ensures Load(s, op).1.Done? <==> After(ViewOf(s), op).Some?
    ensures Load(s, op).1.Done? ==> ViewOf(Load(s, op).0) == After(ViewOf(s), op).value
  {
    match op
    case AddPlugin(c) => ConfigsFollow(s.plugins, c, s.nextObject, "");
    case AddHardware(c) => ConfigsFollow(s.hardware, c, s.nextObject, "");
  }

  lemma LinkItemsFollow(links: map<string, RunningLink>, id: string, l: RunningLink)
    ensures LinkItems(links[id := l]) == LinkItems(links)[id := Item(id, l.config)]
    ensures LinkItems(links - {id}) == LinkItems(links) - {id}
  {
  }

  lemma LoadLinkRefines(s: State, c: LinkItem)
    requires s.repository.Keys == s.plugins.Keys + s.hardware.Keys
    ensures CreateLink(s, c.body).1.Done? <==> After(ViewOf(s), AddLink(c)).Some?
    ensures CreateLink(s, c.body).1.Done? ==> ViewOf(CreateLink(s, c.body).0) == After(ViewOf(s), AddLink(c)).value
  {
    assert forall id :: id in s.repository.Keys <==> Known(ViewOf(s), id);
    var (t, out) := CreateLink(s, c.body);
    var id := MakeId(c.body);
    if out.Done? { LinkItemsFollow(s.links, id, t.links[id]); }
  }

  lemma LoadRefines(s: State, op: Op)
    requires Wired(s) && (op.AddPlugin? || op.AddHardware? || op.AddLink?) && !CrossKind(s, op)
    ensures Load(s, op).1.Done? <==> After(ViewOf(s), op).Some?
    ensures Load(s, op).1.Done? ==> ViewOf(Load(s, op).0) == After(ViewOf(s), op).value
    ensures Wired(Load(s, op).0)
  {
    match op
    case AddPlugin(c) => LoadComponentRefines(s, op); CreatePluginKeepsWired(s, c);
    case AddHardware(c) => LoadComponentRefines(s, op); CreateHardwareKeepsWired(s, c);
    case AddLink(c) => LoadLinkRefines(s, c); CreateLinkKeepsWired(s, c.body);
  }

  lemma UsedIsLinked(s: State, id: string)
    ensures Used(s, id) <==> Linked(ViewOf(s), id)
  {
    var v := ViewOf(s);
    if Used(s, id) {
      var l :| l in s.links && s.links[l].config.Touches(id);
      assert v.links[l].body.Touches(id);
    }
  }

  lemma RemoveRefines(s: State, op: Op)
    requires op.RemovePlugin? || op.RemoveHardware? || op.RemoveLink?
    ensures Step(s, op).1.Done? <==> After(ViewOf(s), op).Some?
    ensures Step(s, op).1.Done? ==> ViewOf(Step(s, op).0) == After(ViewOf(s), op).value
  {
    match op
    case RemovePlugin(id) => UsedIsLinked(s, id); ConfigsFollow(s.plugins, Item("", PluginBody("", "")), 0, id);
    case RemoveHardware(id) => UsedIsLinked(s, id); ConfigsFollow(s.hardware, Item("", HardwareBody("", "")), 0, id);
    case RemoveLink(id) => assert LinkItems(s.links - {id}) == LinkItems(s.links) - {id};
  }

  lemma StepRefines(s: State, op: Op)
    requires Inv(s) && !CrossKind(s, op)
    ensures Step(s, op).1.Done? <==> After(ViewOf(s), op).Some?
    ensures Step(s, op).1.Done? ==> ViewOf(Step(s, op).0) == After(ViewOf(s), op).value
  {
    if op.AddPlugin? || op.AddHardware? || op.AddLink? {
      LoadRefines(s, op);
    } else {
      RemoveRefines(s, op);
    }
  }

  // ---------------------------------------------------------------- series of requests

  /** A series stops at its first refusal; the flag tells whether it went through. */
  function Series(s: State, ops: seq<Op>): (State, bool)
    decreases |ops|
  {
    if ops == [] then (s, true)
    else
      var (t, out) := Step(s, ops[0]);
      if out.Refused? then (t, false) else Series(t, ops[1..])
  }

  function LoadSeries(s: State, ops: seq<Op>): (State, bool)
    requires forall op :: op in ops ==> op.AddPlugin? || op.AddHardware? || op.AddLink?
    decreases |ops|
  {
    if ops == [] then (s, true)
    else
      var (t, out) := Load(s, ops[0]);
      if out.Refused? then (t, false) else LoadSeries(t, ops[1..])
  }

  ghost function AfterAll(v: View, ops: seq<Op>): Option<View>
    decreases |ops|
  {
    if ops == [] then Some(v)
    else match After(v, ops[0]) case None => None case Some(w) => AfterAll(w, ops[1..])
  }

  /** The listings where a series stops: at its first refusal, or at its end. */
  ghost function Stopped(v: View, ops: seq<Op>): View
    decreases |ops|
  {
    if ops == [] then v else match After(v, ops[0]) case None => v case Some(w) => Stopped(w, ops[1..])
  }

  /** No request of the series reuses an id across kinds, up to its first refusal. */
  ghost predicate KindsApart(v: View, ops: seq<Op>)
    decreases |ops|
  {
    ops == [] ||
    (!ReusesId(v, ops[0]) && match After(v, ops[0]) case None => true case Some(w) => KindsApart(w, ops[1..]))
  }

  lemma {:induction false} SeriesRefines(s: State, ops: seq<Op>)
    requires Inv(s) && KindsApart(ViewOf(s), ops)
    ensures Inv(Series(s, ops).0)
    ensures Series(s, ops).1 <==> AfterAll(ViewOf(s), ops).Some?
    ensures ViewOf(Series(s, ops).0) == Stopped(ViewOf(s), ops)
    decreases |ops|
  {
    if ops == [] {
    } else {
      var op := ops[0];
      StepRefines(s, op);
      StepKeepsInv(s, op);
      if Step(s, op).1.Done? {
        SeriesRefines(Step(s, op).0, ops[1..]);
      } else {
        RefusedChangesNothing(s, op);
      }
    }
  }

  lemma {:induction false} LoadSeriesRefines(s: State, ops: seq<Op>)
    requires forall op :: op in ops ==> op.AddPlugin? || op.AddHardware? || op.AddLink?
    requires Wired(s) && KindsApart(ViewOf(s), ops)
    ensures LoadSeries(s, ops).1 <==> AfterAll(ViewOf(s), ops).Some?
    ensures LoadSeries(s, ops).1 ==> Wired(LoadSeries(s, ops).0)
    ensures LoadSeries(s, ops).1 ==> ViewOf(LoadSeries(s, ops).0) == AfterAll(ViewOf(s), ops).value
    ensures LoadSeries(s, ops).0.stored == s.stored
    decreases |ops|
  {
    if ops == [] {
    } else {
      LoadRefines(s, ops[0]);
      if Load(s, ops[0]).1.Done? {
        LoadSeriesRefines(Load(s, ops[0]).0, ops[1..]);
      }
    }
  }

  lemma {:induction false} AfterAllConcat(v: View, a: seq<Op>, b: seq<Op>)
    ensures AfterAll(v, a + b) == match AfterAll(v, a) case None => None case Some(w) => AfterAll(w, b)
    ensures Stopped(v, a + b) == match AfterAll(v, a) case None => Stopped(v, a) case Some(w) => Stopped(w, b)
    ensures KindsApart(v, a) && (AfterAll(v, a).Some? ==> KindsApart(AfterAll(v, a).value, b)) ==> KindsApart(v, a + b)
    decreases |a|
  {
    if a == [] {
      assert a + b == b;
    } else {
      assert (a + b)[1..] == a[1..] + b;
      if After(v, a[0]).Some? {
        AfterAllConcat(After(v, a[0]).value, a[1..], b);
      }
    }
  }

  lemma {:induction false} StoppedAtEnd(v: View, ops: seq<Op>)
    requires AfterAll(v, ops).Some?
    ensures Stopped(v, ops) == AfterAll(v, ops).value
    decreases |ops|
  {
    if ops == [] {
    } else {
      StoppedAtEnd(After(v, ops[0]).value, ops[1..]);
    }
  }

  // ---------------------------------------------------------------- one kind of request after another

  ghost function AddAll<T>(m: map<string, Item<T>>, items: seq<Item<T>>): map<string, Item<T>>
    decreases |items|
  {
    if items == [] then m else AddAll(m[items[0].id := items[0]], items[1..])
  }

  ghost function RemoveAll<T>(m: map<string, Item<T>>, items: seq<Item<T>>): map<string, Item<T>>
    decreases |items|
  {
    if items == [] then m else RemoveAll(m - {items[0].id}, items[1..])
  }

  function AddPlugins(items: seq<PluginItem>): seq<Op> {
    seq(|items|, i requires 0 <= i < |items| => AddPlugin(items[i]))
  }

  function AddHardwares(items: seq<HardwareItem>): seq<Op> {
    seq(|items|, i requires 0 <= i < |items| => AddHardware(items[i]))
  }

  function AddLinks(items: seq<LinkItem>): seq<Op> {
    seq(|items|, i requires 0 <= i < |items| => AddLink(items[i]))
  }

  function RemovePlugins(items: seq<PluginItem>): seq<Op> {
    seq(|items|, i requires 0 <= i < |items| => RemovePlugin(items[i].id))
  }

  function RemoveHardwares(items: seq<HardwareItem>): seq<Op> {
    seq(|items|, i requires 0 <= i < |items| => RemoveHardware(items[i].id))
  }

  function RemoveLinks(items: seq<LinkItem>): seq<Op> {
    seq(|items|, i requires 0 <= i < |items| => RemoveLink(items[i].id))
  }

  /** Adding plugins with new ids goes through exactly when their types are known. */
  lemma {:induction false} AddPluginsIff(v: View, items: seq<PluginItem>)
    requires DistinctIds(items) && forall x :: x in items ==> x.id !in v.plugins && x.id !in v.hardware
    ensures KindsApart(v, AddPlugins(items))
    ensures AfterAll(v, AddPlugins(items)) ==
      if forall x :: x in items ==> x.body.typ in v.types then Some(v.(plugins := AddAll(v.plugins, items))) else None
    decreases |items|
  {
    if items == [] {
    } else {
      assert AddPlugins(items)[1..] == AddPlugins(items[1..]);
      assert items[0] in items;
      if items[0].body.typ in v.types {
        AddPluginsIff(v.(plugins := v.plugins[items[0].id := items[0]]), items[1..]);
        assert forall x :: x in items <==> x == items[0] || x in items[1..];
      }
    }
  }

  lemma {:induction false} AddHardwaresSucceeds(v: View, items: seq<HardwareItem>)
    requires DistinctIds(items)
    requires forall x :: x in items ==> x.id !in v.plugins && x.id !in v.hardware
    ensures KindsApart(v, AddHardwares(items))
    ensures AfterAll(v, AddHardwares(items)) == Some(v.(hardware := AddAll(v.hardware, items)))
    decreases |items|
  {
    if items == [] {
    } else {
      assert AddHardwares(items)[1..] == AddHardwares(items[1..]);
      AddHardwaresSucceeds(v.(hardware := v.hardware[items[0].id := items[0]]), items[1..]);
    }
  }

  predicate EndsIn(v: View, l: LinkItem) {
    Known(v, l.body.sourceComponent) && Known(v, l.body.destinationComponent)
  }

  ghost predicate AllEndsIn(v: View, items: seq<LinkItem>) {
    forall x :: x in items ==> EndsIn(v, x)
  }

  lemma FirstEnds(v: View, w: View, items: seq<LinkItem>)
    requires items != [] && w == v.(links := w.links)
    ensures AllEndsIn(v, items) <==> EndsIn(v, items[0]) && AllEndsIn(w, items[1..])
  {
    assert forall x :: x in items <==> x == items[0] || x in items[1..];
    assert forall x :: EndsIn(w, x) <==> EndsIn(v, x);
  }

  /** Adding links with new ids goes through exactly when both ends of each are known. */
  lemma {:induction false} AddLinksIff(v: View, items: seq<LinkItem>)
    requires DistinctIds(items) && forall x :: x in items ==> x.id == MakeId(x.body) && x.id !in v.links
    ensures KindsApart(v, AddLinks(items))
    ensures AfterAll(v, AddLinks(items)) ==
      if AllEndsIn(v, items) then Some(v.(links := AddAll(v.links, items))) else None
    decreases |items|
  {
    if items == [] {
    } else {
      assert AddLinks(items)[1..] == AddLinks(items[1..]);
      var w := v.(links := v.links[items[0].id := items[0]]);
      FirstEnds(v, w, items);
      if EndsIn(v, items[0]) { AddLinksIff(w, items[1..]); }
    }
  }

  lemma {:induction false} RemoveLinksSucceeds(v: View, items: seq<LinkItem>)
    requires DistinctIds(items) && forall x :: x in items ==> x.id in v.links
    ensures KindsApart(v, RemoveLinks(items))
    ensures AfterAll(v, RemoveLinks(items)) == Some(v.(links := RemoveAll(v.links, items)))
    decreases |items|
  {
    if items == [] {
    } else {
      assert RemoveLinks(items)[1..] == RemoveLinks(items[1..]);
      RemoveLinksSucceeds(v.(links := v.links - {items[0].id}), items[1..]);
    }
  }

  /** Removing plugins goes through exactly when no link names one of them. */
  lemma {:induction false} RemovePluginsIff(v: View, items: seq<PluginItem>)
    requires DistinctIds(items) && forall x :: x in items ==> x.id in v.plugins
    ensures KindsApart(v, RemovePlugins(items))
    ensures AfterAll(v, RemovePlugins(items)) ==
      if exists x :: x in items && Linked(v, x.id) then None else Some(v.(plugins := RemoveAll(v.plugins, items)))
    decreases |items|
  {
    if items == [] {
    } else {
      assert RemovePlugins(items)[1..] == RemovePlugins(items[1..]);
      if !Linked(v, items[0].id) {
        var w := v.(plugins := v.plugins - {items[0].id});
        RemovePluginsIff(w, items[1..]);
        assert forall x: PluginItem :: Linked(w, x.id) <==> Linked(v, x.id);
      }
    }
  }

  /** Removing hardware goes through exactly when no link names one of them. */
  lemma {:induction false} RemoveHardwaresIff(v: View, items: seq<HardwareItem>)
    requires DistinctIds(items) && forall x :: x in items ==> x.id in v.hardware
    ensures KindsApart(v, RemoveHardwares(items))
    ensures AfterAll(v, RemoveHardwares(items)) ==
      if exists x :: x in items && Linked(v, x.id) then None else Some(v.(hardware := RemoveAll(v.hardware, items)))
    decreases |items|
  {
    if items == [] {
    } else {
      assert RemoveHardwares(items)[1..] == RemoveHardwares(items[1..]);
      if !Linked(v, items[0].id) {
        var w := v.(hardware := v.hardware - {items[0].id});
        RemoveHardwaresIff(w, items[1..]);
        assert forall x: HardwareItem :: Linked(w, x.id) <==> Linked(v, x.id);
      }
    }
  }

  /** Where a series of removals of plugins stops, only some of these plugins are gone. */
  lemma {:induction false} StoppedRemovingPlugins(v: View, items: seq<PluginItem>)
    requires Keyed(v.plugins)
    ensures var t := Stopped(v, RemovePlugins(items));
      && t == v.(plugins := t.plugins)
      && (forall x: PluginItem :: Has(t.plugins, x) ==> Has(v.plugins, x))
      && (forall x: PluginItem :: Has(v.plugins, x) && (forall y :: y in items ==> y.id != x.id) ==> Has(t.plugins, x))
    decreases |items|
  {
    if items == [] {
    } else {
      assert RemovePlugins(items)[1..] == RemovePlugins(items[1..]);
      StoppedRemovingPlugins(v.(plugins := v.plugins - {items[0].id}), items[1..]);
    }
  }

  /** Where a series of removals of hardware stops, only some of this hardware is gone. */
  lemma {:induction false} StoppedRemovingHardwares(v: View, items: seq<HardwareItem>)
    requires Keyed(v.hardware)
    ensures var t := Stopped(v, RemoveHardwares(items));
      && t == v.(hardware := t.hardware)
      && (forall x: HardwareItem :: Has(t.hardware, x) ==> Has(v.hardware, x))
      && (forall x: HardwareItem ::
            Has(v.hardware, x) && (forall y :: y in items ==> y.id != x.id) ==> Has(t.hardware, x))
    decreases |items|
  {
    if items == [] {
    } else {
      assert RemoveHardwares(items)[1..] == RemoveHardwares(items[1..]);
      StoppedRemovingHardwares(v.(hardware := v.hardware - {items[0].id}), items[1..]);
    }
  }

  /** Where a series of additions of plugins stops, only some of these plugins are new. */
  lemma {:induction false} StoppedAddingPlugins(v: View, items: seq<PluginItem>)
    ensures var t := Stopped(v, AddPlugins(items));
      && t == v.(plugins := t.plugins)
      && (forall x: PluginItem :: Has(v.plugins, x) ==> Has(t.plugins, x))
      && (forall x: PluginItem :: Has(t.plugins, x) ==> Has(v.plugins, x) || x in items)
    decreases |items|
  {
    if items == [] {
    } else {
      assert AddPlugins(items)[1..] == AddPlugins(items[1..]);
      StoppedAddingPlugins(v.(plugins := v.plugins[items[0].id := items[0]]), items[1..]);
    }
  }

  /** Where a series of additions of links stops, only some of these links are new. */
  lemma {:induction false} StoppedAddingLinks(v: View, items: seq<LinkItem>)
    requires forall x :: x in items ==> x.id == MakeId(x.body)
    ensures var t := Stopped(v, AddLinks(items));
      && t == v.(links := t.links)
      && (forall x: LinkItem :: Has(v.links, x) ==> Has(t.links, x))
      && (forall x: LinkItem :: Has(t.links, x) ==> Has(v.links, x) || x in items)
    decreases |items|
  {
    if items == [] {
    } else {
      assert AddLinks(items)[1..] == AddLinks(items[1..]);
      StoppedAddingLinks(v.(links := v.links[items[0].id := items[0]]), items[1..]);
    }
  }

  /** What a map holds after adding items with new ids. */
  lemma {:induction false} HasAddAll<T(!new)>(m: map<string, Item<T>>, items: seq<Item<T>>)
    requires Keyed(m) && DistinctIds(items) && forall x :: x in items ==> x.id !in m
    ensures Keyed(AddAll(m, items))
    ensures forall x: Item<T> :: Has(AddAll(m, items), x) <==> Has(m, x) || x in items
    decreases |items|
  {
    if items == [] {
    } else {
      var m' := m[items[0].id := items[0]];
      HasAddAll(m', items[1..]);
      assert forall x: Item<T> :: Has(m', x) <==> Has(m, x) || x == items[0];
    }
  }

  /** What a map holds after removing some of its items. */
  lemma {:induction false} HasRemoveAll<T(!new)>(m: map<string, Item<T>>, items: seq<Item<T>>)
    requires Keyed(m) && DistinctIds(items) && forall x :: x in items ==> Has(m, x)
    ensures Keyed(RemoveAll(m, items))
    ensures forall x: Item<T> :: Has(RemoveAll(m, items), x) <==> Has(m, x) && x !in items
    decreases |items|
  {
    if items == [] {
    } else {
      var m' := m - {items[0].id};
      assert items[0] in items && Has(m, items[0]);
      assert forall x: Item<T> :: Has(m', x) <==> Has(m, x) && x != items[0];
      HasRemoveAll(m', items[1..]);
    }
  }

  lemma SameItemsSameMap<T(!new)>(a: map<string, Item<T>>, b: map<string, Item<T>>)
    requires Keyed(a) && Keyed(b) && forall x: Item<T> :: Has(a, x) <==> Has(b, x)
    ensures a == b
  {
    forall id | id in a ensures id in b && b[id] == a[id] { assert Has(a, a[id]); assert Has(b, a[id]); }
    forall id | id in b ensures id in a { assert Has(b, b[id]); assert Has(a, b[id]); }
  }
}
