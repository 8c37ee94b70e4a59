/**
 The core as it runs: registries, repository, listeners and persisted maps are fields
 changed in place. Every method is proved against the value-level step it performs.
 */
module CoreManager {
  import opened Text
  import opened Sequences
  import opened Configuration
  import opened Core
  import opened CoreView
  import opened Restart
  import opened Deployment

  class Manager {
    const types: set<string>
    var pluginContainers: map<string, Running<PluginBody>>
    var hardware: map<string, Running<HardwareBody>>
    var links: map<string, RunningLink>
    var netRepository: map<string, nat>
    var listeners: seq<Listener>
    var nextObject: nat
    var data: Stored

    ghost function Value(): State
      reads this
    {
      State(types, pluginContainers, hardware, links, netRepository, listeners, nextObject, data)
    }

    constructor (types: set<string>, data: Stored)
      ensures Value() == Boot(types, data)
    {
      this.types := types;
      this.data := data;
      pluginContainers, hardware, links, netRepository, listeners, nextObject := map[], map[], map[], map[], [], 0;
    }

    // -------------------------------------------------------------- netobject.js

    /** Publishes a new object under the id, replacing whatever was there. */
    method Publish(id: string) returns (handle: nat)
      modifies this`netRepository, this`nextObject
      ensures handle == old(nextObject) && nextObject == old(nextObject) + 1
      ensures netRepository == old(netRepository)[id := handle]
    {
      handle := nextObject;
      nextObject := nextObject + 1;
      netRepository := netRepository[id := handle];
    }

    method Unpublish(id: string)
      modifies this`netRepository
      ensures netRepository == old(netRepository) - {id}
    {
      netRepository := netRepository - {id};
    }

    // -------------------------------------------------------------- plugins.js, hardware.js, links.js

    method CreatePlugin(c: PluginItem) returns (out: Outcome)
      modifies this
      ensures (Value(), out) == Core.CreatePlugin(old(Value()), c)
    {
      if c.id in pluginContainers {
        return Refused(AlreadyExists);
      }
      if c.body.typ !in types {
        return Refused(UnknownType);
      }
      var handle := Publish(c.id);
      pluginContainers := pluginContainers[c.id := Running(c, handle)];
      return Done;
    }

    method DestroyPlugin(id: string) returns (out: Outcome)
      modifies this
      ensures (Value(), out) == Core.DestroyPlugin(old(Value()), id)
    {
      if id !in pluginContainers {
        return Refused(NotFound);
      }
      Unpublish(pluginContainers[id].config.id);
      pluginContainers := pluginContainers - {id};
      return Done;
    }

    method CreateHardware(c: HardwareItem) returns (out: Outcome)
      modifies this
      ensures (Value(), out) == Core.CreateHardware(old(Value()), c)
    {
      if c.id in hardware {
        return Refused(AlreadyExists);
      }
      var handle := Publish(c.id);
      hardware := hardware[c.id := Running(c, handle)];
      return Done;
    }

    method DestroyHardware(id: string) returns (out: Outcome)
      modifies this
      ensures (Value(), out) == Core.DestroyHardware(old(Value()), id)
    {
      if id !in hardware {
        return Refused(NotFound);
      }
      Unpublish(hardware[id].config.id);
      hardware := hardware - {id};
      return Done;
    }

    method CreateLink(b: LinkBody) returns (out: Outcome)
      modifies this
      ensures (Value(), out) == Core.CreateLink(old(Value()), b)
    {
      var id := MakeId(b);
      if id in links {
        return Refused(AlreadyExists);
      }
      if b.sourceComponent !in netRepository || b.destinationComponent !in netRepository {
        return Refused(MissingEndpoint);
      }
      var link := RunningLink(b, netRepository[b.sourceComponent], netRepository[b.destinationComponent]);
      listeners := listeners + [ListenerOf(link, id)];
      links := links[id := link];
      return Done;
    }

    method DestroyLink(id: string) returns (out: Outcome)
      modifies this
      ensures (Value(), out) == Core.DestroyLink(old(Value()), id)
    {
      if id !in links {
        return Refused(NotFound);
      }
      listeners := RemoveFirst(listeners, ListenerOf(links[id], id));
      links := links - {id};
      return Done;
    }

    // -------------------------------------------------------------- manager.js

    /** Looks for a running link that names the component, in any enumeration order of the links. */
    method CheckLink(id: string) returns (used: bool)
      ensures used <==> Used(Value(), id)
    {
      var rest := links.Keys;
      while rest != {}
        invariant rest <= links.Keys
        invariant forall l :: l in links && l !in rest ==> !links[l].config.Touches(id)
        decreases rest
      {
        var l :| l in rest;
        if links[l].config.Touches(id) {
          return true;
        }
        rest := rest - {l};
      }
      return false;
    }

    /** One request of the REST interface. */
    method Request(op: Op) returns (out: Outcome)
      modifies this
      ensures (Value(), out) == Step(old(Value()), op)
    {
      match op {
        case AddPlugin(c) =>
          out := CreatePlugin(c);
          if out.Done? { data := data.(plugins := data.plugins[c.id := c]); }
        case AddHardware(c) =>
          out := CreateHardware(c);
          if out.Done? { data := data.(hardware := data.hardware[c.id := c]); }
        case AddLink(c) =>
          out := CreateLink(c.body);
          if out.Done? { data := data.(links := data.links[MakeId(c.body) := c.body]); }
        case RemovePlugin(id) =>
          var used := CheckLink(id);
          if used { return Refused(InUse); }
          out := DestroyPlugin(id);
          if out.Done? { data := data.(plugins := data.plugins - {id}); }
        case RemoveHardware(id) =>
          var used := CheckLink(id);
          if used { return Refused(InUse); }
          out := DestroyHardware(id);
          if out.Done? { data := data.(hardware := data.hardware - {id}); }
        case RemoveLink(id) =>
          out := DestroyLink(id);
          if out.Done? { data := data.(links := data.links - {id}); }
      }
    }

    /** Sends tasks one after another and stops at the first refusal. */
    method Serve(tasks: seq<Op>) returns (ok: bool)
      modifies this
      ensures (Value(), ok) == Series(old(Value()), tasks)
    {
      var i := 0;
      assert tasks[0..] == tasks;
      while i < |tasks|
        invariant 0 <= i <= |tasks|
        invariant Series(Value(), tasks[i..]) == Series(old(Value()), tasks)
      {
        var out := Request(tasks[i]);
        assert tasks[i..][1..] == tasks[i + 1..];
        if out.Refused? {
          return false;
        }
        i := i + 1;
      }
      return true;
    }

    /** One creation of `initialize`: registered, but not saved again. */
    method LoadOne(op: Op) returns (out: Outcome)
      requires op.AddPlugin? || op.AddHardware? || op.AddLink?
      modifies this
      ensures (Value(), out) == Load(old(Value()), op)
    {
      match op {
        case AddHardware(c) => out := CreateHardware(c);
        case AddPlugin(c) => out := CreatePlugin(c);
        case AddLink(c) => out := CreateLink(c.body);
      }
    }

    /**
     `initialize`, for the orders in which the three persisted maps are enumerated.
     An exception in a creation ends it.
    */
    method Initialize(hs: seq<string>, ps: seq<string>, ls: seq<string>) returns (ok: bool)
      requires Enumerates(hs, data.hardware) && Enumerates(ps, data.plugins) && Enumerates(ls, data.links)
      modifies this
      ensures var ops := InitOps(old(data), hs, ps, ls);
        && (forall op :: op in ops ==> op.AddPlugin? || op.AddHardware? || op.AddLink?)
        && (Value(), ok) == LoadSeries(old(Value()), ops)
    {
      var ops := InitOps(data, hs, ps, ls);
      InitOpsAdd(data, hs, ps, ls);
      var i := 0;
      assert ops[0..] == ops;
      while i < |ops|
        invariant 0 <= i <= |ops|
        invariant LoadSeries(Value(), ops[i..]) == LoadSeries(old(Value()), ops)
      {
        var out := LoadOne(ops[i]);
        assert ops[i..][1..] == ops[i + 1..];
        if out.Refused? {
          return false;
        }
        i := i + 1;
      }
      return true;
    }

    // -------------------------------------------------------------- the designer's side

    method GetPlugins() returns (items: seq<PluginItem>)
      requires KindPublished(pluginContainers, netRepository)
      ensures DistinctIds(items) && Holds(Configs(pluginContainers), items)
    {
      items := [];
      var rest := pluginContainers.Keys;
      while rest != {}
        invariant rest <= pluginContainers.Keys && DistinctIds(items)
        invariant forall x :: x in items <==> Has(Configs(pluginContainers), x) && x.id !in rest
        decreases rest
      {
        var id :| id in rest;
        items := items + [pluginContainers[id].config];
        rest := rest - {id};
      }
    }

    method GetHardware() returns (items: seq<HardwareItem>)
      requires KindPublished(hardware, netRepository)
      ensures DistinctIds(items) && Holds(Configs(hardware), items)
    {
      items := [];
      var rest := hardware.Keys;
      while rest != {}
        invariant rest <= hardware.Keys && DistinctIds(items)
        invariant forall x :: x in items <==> Has(Configs(hardware), x) && x.id !in rest
        decreases rest
      {
        var id :| id in rest;
        items := items + [hardware[id].config];
        rest := rest - {id};
      }
    }

    method GetLinks() returns (items: seq<LinkItem>)
      ensures DistinctIds(items) && Holds(LinkItems(links), items)
    {
      items := [];
      var rest := links.Keys;
      while rest != {}
        invariant rest <= links.Keys && DistinctIds(items)
        invariant forall x :: x in items <==> Has(LinkItems(links), x) && x.id !in rest
        decreases rest
      {
        var id :| id in rest;
        items := items + [Item(id, links[id].config)];
        rest := rest - {id};
      }
    }

    /** Fetches the listings, merges the edited configuration and applies the plan. */
    method Deploy(news: Config) returns (olds: Config, ok: bool)
      requires Inv(Value()) && WellFormed(news)
      requires forall id :: id in netRepository ==> '|' !in id
      modifies this
      ensures Inv(Value())
      ensures Represents(old(ViewOf(Value())), olds)
      ensures ok <==> Accepted(olds, news, types)
      ensures if ok then Represents(ViewOf(Value()), news) else Leftover(ViewOf(Value()), olds, news)
    {
      var plugins := GetPlugins();
      var hw := GetHardware();
      var ls := GetLinks();
      olds := Config(plugins, hw, ls);
      ListingOf(Value(), olds);
      var plan := DoMerge(olds, news);
      ListingIsWellFormed(Value(), olds);
      PlanKeysDistinct(olds, news);
      var tasks := TaskList(plan);
      DeployIff(Value(), olds, news);
      if !Accepted(olds, news, types) { RefusedDeploymentLeaves(Value(), olds, news); }
      ok := Serve(tasks);
    }
  }

  lemma ListingOf(s: State, c: Config)
    requires Inv(s) && forall id :: id in s.repository ==> '|' !in id
    requires Represents(ViewOf(s), c) && DistinctIds(c.plugins) && DistinctIds(c.hardware) && DistinctIds(c.links)
    ensures Listing(ViewOf(s), c)
  {
    forall id | Component(c, id) ensures '|' !in id {
      HeldIds(ViewOf(s).plugins, c.plugins, id);
      HeldIds(ViewOf(s).hardware, c.hardware, id);
      assert id in s.repository.Keys;
    }
  }
}
