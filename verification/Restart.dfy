/** Restarting the core: `initialize` replays the persisted maps, hardware first, then plugins, then links. */
module Restart {
  import opened Text
  import opened Configuration
  import opened Core
  import opened CoreView
  import opened Sequences

  /** An enumeration of a map's keys: each key once, in any order. */
  ghost predicate Enumerates<T>(keys: seq<string>, m: map<string, T>) {
    (forall k :: k in keys <==> k in m) && NoRepeat(keys)
  }

  function Pick<T>(keys: seq<string>, m: map<string, T>): seq<T>
    requires forall k :: k in keys ==> k in m
  {
    seq(|keys|, i requires 0 <= i < |keys| => m[keys[i]])
  }

  function PickLinks(keys: seq<string>, m: map<string, LinkBody>): seq<LinkItem>
    requires forall k :: k in keys ==> k in m
  {
    seq(|keys|, i requires 0 <= i < |keys| => Item(keys[i], m[keys[i]]))
  }

  /** The creations `initialize` performs, for the order in which the three maps are enumerated. */
  function InitOps(stored: Stored, hs: seq<string>, ps: seq<string>, ls: seq<string>): seq<Op>
    requires forall k :: k in hs ==> k in stored.hardware
    requires forall k :: k in ps ==> k in stored.plugins
    requires forall k :: k in ls ==> k in stored.links
  {
    AddHardwares(Pick(hs, stored.hardware)) + AddPlugins(Pick(ps, stored.plugins)) +
      AddLinks(PickLinks(ls, stored.links))
  }

  lemma InitOpsAdd(stored: Stored, hs: seq<string>, ps: seq<string>, ls: seq<string>)
    requires forall k :: k in hs ==> k in stored.hardware
    requires forall k :: k in ps ==> k in stored.plugins
    requires forall k :: k in ls ==> k in stored.links
    ensures forall op :: op in InitOps(stored, hs, ps, ls) ==> op.AddPlugin? || op.AddHardware? || op.AddLink?
  {
  }

  /** Adding every item of a map to the empty map, in any order, rebuilds the map. */
  lemma RebuildMap<T(!new)>(m: map<string, Item<T>>, items: seq<Item<T>>)
    requires Keyed(m) && DistinctIds(items) && forall x: Item<T> :: x in items <==> Has(m, x)
    ensures AddAll(map[], items) == m
  {
    var nothing: map<string, Item<T>> := map[];
    HasAddAll(nothing, items);
    SameItemsSameMap(AddAll(nothing, items), m);
  }

  lemma PickedItems<T(!new)>(keys: seq<string>, m: map<string, Item<T>>)
    requires Keyed(m) && Enumerates(keys, m)
    ensures DistinctIds(Pick(keys, m))
    ensures forall x: Item<T> :: x in Pick(keys, m) <==> Has(m, x)
  {
    var items := Pick(keys, m);
    forall x: Item<T> | Has(m, x) ensures x in items {
      var i :| 0 <= i < |keys| && keys[i] == x.id;
      assert items[i] == x;
    }
  }

  lemma PickedLinks(keys: seq<string>, stored: map<string, LinkBody>, m: map<string, LinkItem>)
    requires Keyed(m) && Enumerates(keys, stored)
    requires forall id :: id in m <==> id in stored
    requires forall id :: id in stored ==> m[id].body == stored[id]
    ensures DistinctIds(PickLinks(keys, stored))
    ensures forall x: LinkItem :: x in PickLinks(keys, stored) <==> Has(m, x)
  {
    var items := PickLinks(keys, stored);
    forall x: LinkItem | Has(m, x) ensures x in items {
      var i :| 0 <= i < |keys| && keys[i] == x.id;
      assert items[i] == x;
    }
  }

  lemma RestartComponents(v: View, hs: seq<HardwareItem>, ps: seq<PluginItem>)
    requires Keyed(v.plugins) && Keyed(v.hardware) && v.plugins.Keys !! v.hardware.Keys
    requires forall id :: id in v.plugins ==> v.plugins[id].body.typ in v.types
    requires DistinctIds(hs) && DistinctIds(ps)
    requires forall x: HardwareItem :: x in hs <==> Has(v.hardware, x)
    requires forall x: PluginItem :: x in ps <==> Has(v.plugins, x)
    ensures var boot := View(v.types, map[], map[], map[]); var ops := AddHardwares(hs) + AddPlugins(ps);
      KindsApart(boot, ops) && AfterAll(boot, ops) == Some(v.(links := map[]))
  {
    var boot := View(v.types, map[], map[], map[]);
    RebuildMap(v.hardware, hs);
    RebuildMap(v.plugins, ps);
    AddHardwaresSucceeds(boot, hs);
    forall x | x in ps ensures x.id !in v.hardware && x.body.typ in v.types {
      assert x.id in v.plugins.Keys;
    }
    AddPluginsIff(boot.(hardware := v.hardware), ps);
    AfterAllConcat(boot, AddHardwares(hs), AddPlugins(ps));
  }

  lemma RestartLinks(s: State, li: seq<LinkItem>)
    requires Inv(s) && DistinctIds(li) && forall x: LinkItem :: x in li <==> Has(ViewOf(s).links, x)
    ensures var v := ViewOf(s).(links := map[]);
      KindsApart(v, AddLinks(li)) && AfterAll(v, AddLinks(li)) == Some(ViewOf(s))
  {
    var v := ViewOf(s);
    var bare := v.(links := map[]);
    RebuildMap(v.links, li);
    forall x | x in li ensures x.id == MakeId(x.body) && EndsIn(bare, x) {
      assert Has(v.links, x);
      assert x.body.sourceComponent in s.repository.Keys && x.body.destinationComponent in s.repository.Keys;
    }
    AddLinksIff(bare, li);
    assert bare.(links := AddAll(bare.links, li)) == v;
  }

  lemma StoredFollowsView(s: State, t: State)
    requires StoredMatches(s) && t.stored == s.stored && ViewOf(t) == ViewOf(s)
    ensures StoredMatches(t)
  {
    forall id | id in s.links ensures id in t.links && t.links[id].config == s.links[id].config {
      assert LinkItems(t.links)[id] == LinkItems(s.links)[id];
    }
    assert LinkConfigs(t.links).Keys == LinkItems(t.links).Keys == LinkItems(s.links).Keys;
    assert LinkConfigs(t.links) == LinkConfigs(s.links);
  }

  lemma RestartSeries(s: State, hs: seq<string>, ps: seq<string>, ls: seq<string>)
    requires Inv(s)
    requires Enumerates(hs, s.stored.hardware) && Enumerates(ps, s.stored.plugins) && Enumerates(ls, s.stored.links)
    ensures var boot := View(s.types, map[], map[], map[]); var ops := InitOps(s.stored, hs, ps, ls);
      KindsApart(boot, ops) && AfterAll(boot, ops) == Some(ViewOf(s))
  {
    var v := ViewOf(s);
    var (hw, pl, li) := (Pick(hs, s.stored.hardware), Pick(ps, s.stored.plugins), PickLinks(ls, s.stored.links));
    PickedItems(hs, v.hardware);
    PickedItems(ps, v.plugins);
    PickedLinks(ls, s.stored.links, v.links);
    RestartComponents(v, hw, pl);
    RestartLinks(s, li);
    AfterAllConcat(View(s.types, map[], map[], map[]), AddHardwares(hw) + AddPlugins(pl), AddLinks(li));
  }

  /**
   From every state that keeps the invariant, restarting from its persisted maps succeeds in
   every enumeration order, rebuilds the same listings and keeps the invariant.
  */
  lemma RestartReplay(s: State, hs: seq<string>, ps: seq<string>, ls: seq<string>)
    requires Inv(s)
    requires Enumerates(hs, s.stored.hardware) && Enumerates(ps, s.stored.plugins) && Enumerates(ls, s.stored.links)
    ensures forall op :: op in InitOps(s.stored, hs, ps, ls) ==> op.AddPlugin? || op.AddHardware? || op.AddLink?
    ensures var (t, ok) := LoadSeries(Boot(s.types, s.stored), InitOps(s.stored, hs, ps, ls));
      ok && ViewOf(t) == ViewOf(s) && Inv(t)
  {
    var boot := Boot(s.types, s.stored);
    InitOpsAdd(s.stored, hs, ps, ls);
    RestartSeries(s, hs, ps, ls);
    BootView(s);
    LoadSeriesRefines(boot, InitOps(s.stored, hs, ps, ls));
    StoredFollowsView(s, LoadSeries(boot, InitOps(s.stored, hs, ps, ls)).0);
  }

  lemma BootView(s: State)
    ensures ViewOf(Boot(s.types, s.stored)) == View(s.types, map[], map[], map[])
    ensures Wired(Boot(s.types, s.stored))
  {
  }

  /** After any run of requests that does not reuse an id across kinds, a restart brings the same configuration back. */
  lemma RestartAfterAnyRun(types: set<string>, ops: seq<Op>, hs: seq<string>, ps: seq<string>, ls: seq<string>)
    requires KindsKept(Boot(types, NOTHING_STORED), ops)
    requires var s := Run(Boot(types, NOTHING_STORED), ops);
      Enumerates(hs, s.stored.hardware) && Enumerates(ps, s.stored.plugins) && Enumerates(ls, s.stored.links)
    ensures var s := Run(Boot(types, NOTHING_STORED), ops);
      && (forall op :: op in InitOps(s.stored, hs, ps, ls) ==> op.AddPlugin? || op.AddHardware? || op.AddLink?)
      && var (t, ok) := LoadSeries(Boot(s.types, s.stored), InitOps(s.stored, hs, ps, ls));
         ok && ViewOf(t) == ViewOf(s) && Inv(t)
  {
    ReachableInv(types, ops);
    RestartReplay(Run(Boot(types, NOTHING_STORED), ops), hs, ps, ls);
  }
}
