/**
 The designer's schema: components with typed members and links between them. Reloading a
 hardware description replaces components and creates their links again where the types still fit.
 */
module Schema {
  import opened Text
  import opened Configuration
  import opened NetStructure
  import opened Sequences

  datatype PluginType = PluginType(id: string, cls: Class)
  type Plugin = Item<PluginType>
  type Hardware = Item<Class>

  datatype Data = Data(pluginTypes: seq<PluginType>, plugins: seq<Plugin>, hardware: seq<Hardware>,
    links: seq<LinkItem>)

  // ---------------------------------------------------------------- lookups

  function HardwareClass(hardware: seq<Hardware>, id: string): Option<Class> {
    match Find(hardware, id)
    case Some(h) => Some(h.body)
    case None => None
  }

  function PluginClass(plugins: seq<Plugin>, id: string): Option<Class> {
    match Find(plugins, id)
    case Some(p) => Some(p.body.cls)
    case None => None
  }

  /** The class of a component: hardware is searched before plugins. */
  function ClassOf(d: Data, id: string): Option<Class> {
    match HardwareClass(d.hardware, id)
    case Some(cls) => Some(cls)
    case None => PluginClass(d.plugins, id)
  }

  function MemberIn(cls: Option<Class>, name: string): Option<Member> {
    match cls
    case None => None
    case Some(c) => MemberByName(c, name)
  }

  function GetMember(d: Data, component: string, name: string): Option<Member> {
    MemberIn(ClassOf(d, component), name)
  }

  function Source(d: Data, b: LinkBody): Option<Member> { GetMember(d, b.sourceComponent, b.sourceAttribute) }

  function Destination(d: Data, b: LinkBody): Option<Member> {
    GetMember(d, b.destinationComponent, b.destinationAction)
  }

  // ---------------------------------------------------------------- types

  /** Element by element, as the designer compares two types. */
  method TypeEquals(a: NetType, b: NetType) returns (equal: bool)
    ensures equal <==> a == b
  {
    match (a, b) {
      case (Range(_, _), Range(_, _)) => return a.min == b.min && a.max == b.max;
      case (Enum(_), Enum(_)) =>
        if |a.values| != |b.values| { return false; }
        for i := 0 to |a.values|
          invariant forall k :: 0 <= k < i ==> a.values[k] == b.values[k]
        {
          if a.values[i] != b.values[i] { return false; }
        }
        return true;
      case _ => return false;
    }
  }

  /** Checking an action in place of an attribute, or the other way round, raises an exception. */
  datatype Verdict = Compatible | Incompatible | Raises

  function LinkTypes(source: Option<Member>, target: Option<Member>): Verdict {
    if target.None? || target.value.Attribute? then Raises
    else if |target.value.arguments| == 0 then Compatible
    else if |target.value.arguments| > 1 then Incompatible
    else if source.None? || source.value.Action? then Raises
    else if target.value.arguments[0] == source.value.typ then Compatible
    else Incompatible
  }

  /** The members themselves: an action that takes nothing, or exactly a value of the attribute's type. */
  predicate Matches(source: Option<Member>, target: Option<Member>) {
    && target.Some? && target.value.Action?
    && (|| target.value.arguments == []
        || (source.Some? && source.value.Attribute? && target.value.arguments == [source.value.typ]))
  }

  /** A member of the wrong kind where the check looks for a type. */
  predicate WrongKind(source: Option<Member>, target: Option<Member>) {
    || target.None? || target.value.Attribute?
    || (|target.value.arguments| == 1 && (source.None? || source.value.Action?))
  }

  /** What the check's three answers mean for the members. */
  lemma LinkTypesMeaning(source: Option<Member>, target: Option<Member>)
    ensures LinkTypes(source, target) == Compatible <==> Matches(source, target)
    ensures LinkTypes(source, target) == Raises <==> WrongKind(source, target)
  {
    if target.Some? && target.value.Action? && |target.value.arguments| == 1 {
      assert target.value.arguments == [target.value.arguments[0]];
    }
  }

  method CheckLinkTypes(source: Option<Member>, target: Option<Member>) returns (v: Verdict)
    ensures v == LinkTypes(source, target)
    ensures v == Compatible <==> Matches(source, target)
    ensures v == Raises <==> WrongKind(source, target)
  {
    LinkTypesMeaning(source, target);
    if target.None? || target.value.Attribute? { return Raises; }
    if |target.value.arguments| == 0 { return Compatible; }
    if |target.value.arguments| > 1 { return Incompatible; }
    if source.None? || source.value.Action? { return Raises; }
    var equal := TypeEquals(target.value.arguments[0], source.value.typ);
    v := if equal then Compatible else Incompatible;
  }

  // ---------------------------------------------------------------- links of a component

  function Touching(links: seq<LinkItem>, id: string): seq<LinkItem> {
    if links == [] then [] else (if links[0].body.Touches(id) then [links[0]] else []) + Touching(links[1..], id)
  }

  function Apart(links: seq<LinkItem>, id: string): seq<LinkItem> {
    if links == [] then [] else (if links[0].body.Touches(id) then [] else [links[0]]) + Apart(links[1..], id)
  }

  /** `removeFromArray` for one link after another. */
  function RemoveEach(links: seq<LinkItem>, gone: seq<LinkItem>): seq<LinkItem>
    decreases |gone|
  {
    if gone == [] then links else RemoveEach(RemoveFirst(links, gone[0]), gone[1..])
  }

  lemma {:induction false} RemoveEachSkips(x: LinkItem, links: seq<LinkItem>, gone: seq<LinkItem>)
    requires x !in gone
    ensures RemoveEach([x] + links, gone) == [x] + RemoveEach(links, gone)
    decreases |gone|
  {
    if gone == [] {
    } else {
      assert ([x] + links)[1..] == links;
      RemoveEachSkips(x, RemoveFirst(links, gone[0]), gone[1..]);
    }
  }

  lemma {:induction false} TouchingTouches(links: seq<LinkItem>, id: string)
    ensures forall l :: l in Touching(links, id) <==> l in links && l.body.Touches(id)
    ensures forall l :: l in Apart(links, id) <==> l in links && !l.body.Touches(id)
    ensures multiset(Touching(links, id)) + multiset(Apart(links, id)) == multiset(links)
  {
    if links == [] {
    } else {
      TouchingTouches(links[1..], id);
      assert links == [links[0]] + links[1..];
    }
  }

  lemma {:induction false} TouchingConcat(before: seq<LinkItem>, behind: seq<LinkItem>, id: string)
    ensures Touching(before + behind, id) == Touching(before, id) + Touching(behind, id)
  {
    if before == [] {
      assert before + behind == behind;
    } else {
      assert (before + behind)[1..] == before[1..] + behind;
      TouchingConcat(before[1..], behind, id);
    }
  }

  /** Of two links of the component the earlier one is found first. */
  lemma TouchingInOrder(links: seq<LinkItem>, id: string, i: nat, j: nat)
    requires i < j < |links| && links[i].body.Touches(id) && links[j].body.Touches(id)
    ensures Precedes(Touching(links, id), links[i], links[j])
  {
    assert links == links[..j] + links[j..] && links[..j] == links[..i] + links[i..j];
    TouchingConcat(links[..j], links[j..], id);
    TouchingConcat(links[..i], links[i..j], id);
    var (found, a, b) := (Touching(links, id), |Touching(links[..i], id)|, |Touching(links[..j], id)|);
    assert found[a] == Touching(links[i..j], id)[0] == links[i];
    assert found[b] == Touching(links[j..], id)[0] == links[j];
  }

  /** Removing the touching links one after another leaves the others, in order. */
  lemma {:induction false} RemovingTouching(links: seq<LinkItem>, id: string)
    ensures RemoveEach(links, Touching(links, id)) == Apart(links, id)
  {
    if links == [] {
    } else {
      var rest := links[1..];
      assert links == [links[0]] + rest;
      RemovingTouching(rest, id);
      if links[0].body.Touches(id) {
        var gone := Touching(links, id);
        assert gone[0] == links[0] && gone[1..] == Touching(rest, id);
      } else {
        TouchingTouches(rest, id);
        assert Touching(links, id) == Touching(rest, id);
        RemoveEachSkips(links[0], rest, Touching(rest, id));
        assert Apart(links, id) == [links[0]] + Apart(rest, id);
      }
    }
  }

  // ---------------------------------------------------------------- operations on the schema

  /** The component with its links; plugins and hardware are told apart by the caller's object. */
  function WithoutPlugin(d: Data, p: Plugin): Data {
    d.(links := Apart(d.links, p.id), plugins := RemoveFirst(d.plugins, p))
  }

  function WithoutHardware(d: Data, h: Hardware): Data {
    d.(links := Apart(d.links, h.id), hardware := RemoveFirst(d.hardware, h))
  }

  datatype Loading = Loading(data: Data, failed: seq<LinkItem>, raised: bool)

  /** One saved link is created again when both members still exist and their types fit. */
  function RecreateLink(d: Data, failed: seq<LinkItem>, l: LinkItem): Loading {
    var (source, target) := (Source(d, l.body), Destination(d, l.body));
    if source.None? || target.None? then Loading(d, failed + [l], false)
    else match LinkTypes(source, target)
      case Raises => Loading(d, failed, true)
      case Incompatible => Loading(d, failed + [l], false)
      case Compatible => Loading(d.(links := d.links + [l]), failed, false)
  }

  /** Links are created again in order; an exception ends everything. */
  function Recreate(d: Data, failed: seq<LinkItem>, saved: seq<LinkItem>): Loading
    decreases |saved|
  {
    if saved == [] then Loading(d, failed, false)
    else
      var r := RecreateLink(d, failed, saved[0]);
      if r.raised then r else Recreate(r.data, r.failed, saved[1..])
  }

  /** The schema just before the saved links of a reloaded item are created again. */
  function Replaced(d: Data, item: Hardware): Data {
    var without := match Find(d.hardware, item.id) case Some(h) => WithoutHardware(d, h) case None => d;
    without.(hardware := without.hardware + [item])
  }

  function Saved(d: Data, item: Hardware): seq<LinkItem> {
    if Find(d.hardware, item.id).Some? then Touching(d.links, item.id) else []
  }

  function LoadItem(d: Data, failed: seq<LinkItem>, item: Hardware): Loading {
    Recreate(Replaced(d, item), failed, Saved(d, item))
  }

  function LoadItems(d: Data, failed: seq<LinkItem>, items: seq<Hardware>): Loading
    decreases |items|
  {
    if items == [] then Loading(d, failed, false)
    else
      var r := LoadItem(d, failed, items[0]);
      if r.raised then r else LoadItems(r.data, r.failed, items[1..])
  }

  function SourceId(b: LinkBody): string { "attribute" + ":" + (b.sourceComponent + ":" + b.sourceAttribute) }

  function TargetId(b: LinkBody): string { "action" + ":" + (b.destinationComponent + ":" + b.destinationAction) }

  predicate Connected(links: seq<LinkItem>, sourceId: string, targetId: string) {
    exists l :: l in links && SourceId(l.body) == sourceId && TargetId(l.body) == targetId
  }

  /** The member an element id names; the id is split at its colons. */
  function MemberOfId(d: Data, id: string): Option<Member> {
    var parts := Split(id, ':');
    if |parts| < 3 then None else GetMember(d, parts[1], parts[2])
  }

  /** The link between two elements, from the pieces of their ids. */
  function LinkBetween(sourceId: string, targetId: string): LinkItem
    requires |Split(sourceId, ':')| >= 3 && |Split(targetId, ':')| >= 3
  {
    var (s, t) := (Split(sourceId, ':'), Split(targetId, ':'));
    var b := LinkBody(s[1], s[2], t[1], t[2]);
    Item(MakeId(b), b)
  }

  /** Drawing a connection: refused when it exists or the types differ, else a link is added. */
  function Draw(d: Data, sourceId: string, targetId: string): Data
    requires |Split(sourceId, ':')| >= 3 && |Split(targetId, ':')| >= 3
  {
    if Connected(d.links, sourceId, targetId) then d
    else if LinkTypes(MemberOfId(d, sourceId), MemberOfId(d, targetId)) != Compatible then d
    else d.(links := d.links + [LinkBetween(sourceId, targetId)])
  }

  // ---------------------------------------------------------------- the operations in place

  class Designer {
    const pluginTypes: seq<PluginType>
    var plugins: seq<Plugin>
    var hardware: seq<Hardware>
    var links: seq<LinkItem>

    ghost function Value(): Data
      reads this
    {
      Data(pluginTypes, plugins, hardware, links)
    }

    constructor (pluginTypes: seq<PluginType>)
      ensures Value() == Data(pluginTypes, [], [], [])
    {
      this.pluginTypes := pluginTypes;
      plugins, hardware, links := [], [], [];
    }

    method CreatePlugin(typ: PluginType, id: string)
      modifies this`plugins
      ensures plugins == old(plugins) + [Item(id, typ)]
    {
      plugins := plugins + [Item(id, typ)];
    }

    method FindLinksFromComponent(id: string) returns (found: seq<LinkItem>)
      ensures found == Touching(links, id)
    {
      found := [];
      var i := 0;
      assert links[0..] == links;
      while i < |links|
        invariant 0 <= i <= |links| && found + Touching(links[i..], id) == Touching(links, id)
      {
        assert links[i..][1..] == links[i + 1..];
        if links[i].body.Touches(id) { found := found + [links[i]]; }
        i := i + 1;
      }
    }

    method DeleteLinks(id: string)
      modifies this`links
      ensures links == Apart(old(links), id)
    {
      var gone := FindLinksFromComponent(id);
      RemovingTouching(links, id);
      var i := 0;
      assert gone[0..] == gone;
      while i < |gone|
        invariant 0 <= i <= |gone| && RemoveEach(links, gone[i..]) == Apart(old(links), id)
      {
        assert gone[i..][1..] == gone[i + 1..];
        links := RemoveFirst(links, gone[i]);
        i := i + 1;
      }
    }

    method DeletePlugin(p: Plugin)
      modifies this
      ensures Value() == WithoutPlugin(old(Value()), p)
    {
      DeleteLinks(p.id);
      plugins := RemoveFirst(plugins, p);
    }

    method DeleteHardware(h: Hardware)
      modifies this
      ensures Value() == WithoutHardware(old(Value()), h)
    {
      DeleteLinks(h.id);
      hardware := RemoveFirst(hardware, h);
    }

    /** A double click on a connection. */
    method RemoveLink(l: LinkItem)
      modifies this`links
      ensures links == RemoveFirst(old(links), l)
    {
      links := RemoveFirst(links, l);
    }

    method RecreateOne(l: LinkItem, failed: seq<LinkItem>) returns (failed': seq<LinkItem>, raised: bool)
      modifies this`links
      ensures Loading(Value(), failed', raised) == RecreateLink(old(Value()), failed, l)
    {
      var d := Data(pluginTypes, plugins, hardware, links);
      var source, target := Source(d, l.body), Destination(d, l.body);
      if source.None? || target.None? { return failed + [l], false; }
      var v := CheckLinkTypes(source, target);
      if v == Raises { return failed, true; }
      if v == Incompatible { return failed + [l], false; }
      links := links + [l];
      return failed, false;
    }

    method RecreateLinks(saved: seq<LinkItem>, failed: seq<LinkItem>) returns (failed': seq<LinkItem>, raised: bool)
      modifies this`links
      ensures Loading(Value(), failed', raised) == Recreate(old(Value()), failed, saved)
    {
      failed', raised := failed, false;
      var i := 0;
      assert saved[0..] == saved;
      while i < |saved|
        invariant 0 <= i <= |saved| && !raised
        invariant Recreate(Value(), failed', saved[i..]) == Recreate(old(Value()), failed, saved)
      {
        assert saved[i..][1..] == saved[i + 1..];
        failed', raised := RecreateOne(saved[i], failed');
        if raised { return; }
        i := i + 1;
      }
    }

    method LoadOne(item: Hardware, failed: seq<LinkItem>) returns (failed': seq<LinkItem>, raised: bool)
      modifies this
      ensures Loading(Value(), failed', raised) == LoadItem(old(Value()), failed, item)
    {
      var existing := Find(hardware, item.id);
      var saved := [];
      if existing.Some? {
        saved := FindLinksFromComponent(existing.value.id);
        DeleteHardware(existing.value);
      }
      hardware := hardware + [item];
      failed', raised := RecreateLinks(saved, failed);
    }

    method LoadHardware(items: seq<Hardware>) returns (failed: seq<LinkItem>, raised: bool)
      modifies this
      ensures Loading(Value(), failed, raised) == LoadItems(old(Value()), [], items)
    {
      failed, raised := [], false;
      var i := 0;
      assert items[0..] == items;
      while i < |items|
        invariant 0 <= i <= |items| && !raised
        invariant LoadItems(Value(), failed, items[i..]) == LoadItems(old(Value()), [], items)
      {
        assert items[i..][1..] == items[i + 1..];
        failed, raised := LoadOne(items[i], failed);
        if raised { return; }
        i := i + 1;
      }
    }

    method OnConnectionCreated(sourceId: string, targetId: string)
      requires |Split(sourceId, ':')| >= 3 && |Split(targetId, ':')| >= 3
      modifies this`links
      ensures Value() == Draw(old(Value()), sourceId, targetId)
    {
      for i := 0 to |links|
        invariant forall l :: l in links[..i] ==> !(SourceId(l.body) == sourceId && TargetId(l.body) == targetId)
      {
        if SourceId(links[i].body) == sourceId && TargetId(links[i].body) == targetId { return; }
      }
      assert links[..|links|] == links;
      var d := Data(pluginTypes, plugins, hardware, links);
      var v := CheckLinkTypes(MemberOfId(d, sourceId), MemberOfId(d, targetId));
      if v == Compatible { links := links + [LinkBetween(sourceId, targetId)]; }
    }
  }

  // ---------------------------------------------------------------- conservation of links

  ghost function Stock(links: seq<LinkItem>, failed: seq<LinkItem>): multiset<LinkItem> {
    multiset(links) + multiset(failed)
  }

  lemma {:induction false} RecreateConserves(d: Data, failed: seq<LinkItem>, saved: seq<LinkItem>)
    ensures var r := Recreate(d, failed, saved);
      && (r.raised ==> Stock(r.data.links, r.failed) < Stock(d.links, failed) + multiset(saved))
      && (!r.raised ==> Stock(r.data.links, r.failed) == Stock(d.links, failed) + multiset(saved))
    decreases |saved|
  {
    if saved == [] {
    } else {
      var (l, rest) := (saved[0], saved[1..]);
      assert saved == [l] + rest;
      assert multiset(saved) == multiset{l} + multiset(rest);
      var (source, target) := (Source(d, l.body), Destination(d, l.body));
      if source.None? || target.None? || LinkTypes(source, target) == Incompatible {
        assert Stock(d.links, failed + [l]) == Stock(d.links, failed) + multiset{l};
        RecreateConserves(d, failed + [l], rest);
      } else if LinkTypes(source, target) == Compatible {
        assert Stock(d.links + [l], failed) == Stock(d.links, failed) + multiset{l};
        RecreateConserves(d.(links := d.links + [l]), failed, rest);
      }
    }
  }

  lemma ItemConserves(d: Data, failed: seq<LinkItem>, item: Hardware)
    ensures var r := LoadItem(d, failed, item);
      && (r.raised ==> Stock(r.data.links, r.failed) < Stock(d.links, failed))
      && (!r.raised ==> Stock(r.data.links, r.failed) == Stock(d.links, failed))
  {
    TouchingTouches(d.links, item.id);
    RecreateConserves(Replaced(d, item), failed, Saved(d, item));
  }

  /** Without an exception every link is kept, with one some link is lost. */
  lemma {:induction false} ReloadConserves(d: Data, failed: seq<LinkItem>, items: seq<Hardware>)
    ensures var r := LoadItems(d, failed, items);
      && (r.raised ==> Stock(r.data.links, r.failed) < Stock(d.links, failed))
      && (!r.raised ==> Stock(r.data.links, r.failed) == Stock(d.links, failed))
    decreases |items|
  {
    if items == [] {
    } else {
      ItemConserves(d, failed, items[0]);
      var r := LoadItem(d, failed, items[0]);
      if !r.raised { ReloadConserves(r.data, r.failed, items[1..]); }
    }
  }

  // ---------------------------------------------------------------- when a reload loses a link

  /** A link one end of which is gone, or whose types no longer fit: its re-creation fails. */
  predicate Drops(source: Option<Member>, target: Option<Member>) {
    source.None? || target.None? || (!Matches(source, target) && !WrongKind(source, target))
  }

  /** A link both ends of which exist, but whose check raises. */
  predicate Clashes(source: Option<Member>, target: Option<Member>) {
    source.Some? && target.Some? && WrongKind(source, target)
  }

  lemma {:induction false} RecreateMeaning(d: Data, failed: seq<LinkItem>, saved: seq<LinkItem>)
    ensures var r := Recreate(d, failed, saved);
      && r.data == d.(links := r.data.links)
      && (r.raised <==> exists l :: l in saved && Clashes(Source(d, l.body), Destination(d, l.body)))
      && (!r.raised ==> forall l :: l in r.data.links <==>
            l in d.links || (l in saved && !Drops(Source(d, l.body), Destination(d, l.body))))
      && (!r.raised ==> forall l :: l in r.failed <==>
            l in failed || (l in saved && Drops(Source(d, l.body), Destination(d, l.body))))
    decreases |saved|
  {
    if saved == [] {
    } else {
      var (l, rest) := (saved[0], saved[1..]);
      var (source, target) := (Source(d, l.body), Destination(d, l.body));
      LinkTypesMeaning(source, target);
      assert forall x :: x in saved <==> x == l || x in rest;
      if Drops(source, target) {
        RecreateMeaning(d, failed + [l], rest);
      } else if !Clashes(source, target) {
        var e := d.(links := d.links + [l]);
        assert forall b: LinkBody :: Source(e, b) == Source(d, b) && Destination(e, b) == Destination(d, b);
        RecreateMeaning(e, failed, rest);
      }
    }
  }

  /** The saved links that are dropped, or those that are not, in order. */
  function Sorted(d: Data, saved: seq<LinkItem>, dropped: bool): seq<LinkItem> {
    if saved == [] then []
    else
      (if Drops(Source(d, saved[0].body), Destination(d, saved[0].body)) == dropped then [saved[0]] else [])
      + Sorted(d, saved[1..], dropped)
  }

  lemma OneRecreated(d: Data, links: seq<LinkItem>, failed: seq<LinkItem>, l: LinkItem)
    ensures RecreateLink(d.(links := links), failed, l) ==
      var (source, target) := (Source(d, l.body), Destination(d, l.body));
      if Drops(source, target) then Loading(d.(links := links), failed + [l], false)
      else if Clashes(source, target) then Loading(d.(links := links), failed, true)
      else Loading(d.(links := links + [l]), failed, false)
  {
    var e := d.(links := links);
    assert Source(e, l.body) == Source(d, l.body) && Destination(e, l.body) == Destination(d, l.body);
    LinkTypesMeaning(Source(d, l.body), Destination(d, l.body));
  }

  lemma RecreateStep(d: Data, links: seq<LinkItem>, failed: seq<LinkItem>, saved: seq<LinkItem>)
    requires saved != []
    ensures Recreate(d.(links := links), failed, saved) ==
      var (source, target) := (Source(d, saved[0].body), Destination(d, saved[0].body));
      if Drops(source, target) then Recreate(d.(links := links), failed + [saved[0]], saved[1..])
      else if Clashes(source, target) then Loading(d.(links := links), failed, true)
      else Recreate(d.(links := links + [saved[0]]), failed, saved[1..])
  {
    OneRecreated(d, links, failed, saved[0]);
  }

  lemma SortedStep(d: Data, saved: seq<LinkItem>, behind: seq<LinkItem>)
    requires saved != []
    ensures var drops := Drops(Source(d, saved[0].body), Destination(d, saved[0].body));
      && behind + Sorted(d, saved, drops) == behind + [saved[0]] + Sorted(d, saved[1..], drops)
      && Sorted(d, saved, !drops) == Sorted(d, saved[1..], !drops)
  {
  }

  /** In the order in which they were saved, links are created behind the others or fail behind earlier ones. */
  lemma {:induction false} RecreateOrder(d: Data, links: seq<LinkItem>, failed: seq<LinkItem>, saved: seq<LinkItem>)
    requires !Recreate(d.(links := links), failed, saved).raised
    ensures Recreate(d.(links := links), failed, saved) ==
      Loading(d.(links := links + Sorted(d, saved, false)), failed + Sorted(d, saved, true), false)
    decreases |saved|
  {
    if saved == [] {
    } else {
      RecreateStep(d, links, failed, saved);
      if Drops(Source(d, saved[0].body), Destination(d, saved[0].body)) {
        RecreateOrder(d, links, failed + [saved[0]], saved[1..]);
        SortedStep(d, saved, failed);
      } else {
        RecreateOrder(d, links + [saved[0]], failed, saved[1..]);
        SortedStep(d, saved, links);
      }
    }
  }

  /** The class a hardware id has once the first k items are loaded. */
  function HardwareAfter(hardware: seq<Hardware>, items: seq<Hardware>, k: nat, id: string): Option<Class>
    requires k <= |items|
  {
    if k == 0 then HardwareClass(hardware, id)
    else if items[k - 1].id == id then Some(items[k - 1].body)
    else HardwareAfter(hardware, items, k - 1, id)
  }

  /** The member a component has once the first k items are loaded. */
  function MemberAfter(d: Data, items: seq<Hardware>, k: nat, component: string, name: string): Option<Member>
    requires k <= |items|
  {
    var cls := HardwareAfter(d.hardware, items, k, component);
    MemberIn(if cls.Some? then cls else PluginClass(d.plugins, component), name)
  }

  function SourceAfter(d: Data, items: seq<Hardware>, k: nat, b: LinkBody): Option<Member>
    requires k <= |items|
  {
    MemberAfter(d, items, k, b.sourceComponent, b.sourceAttribute)
  }

  function DestinationAfter(d: Data, items: seq<Hardware>, k: nat, b: LinkBody): Option<Member>
    requires k <= |items|
  {
    MemberAfter(d, items, k, b.destinationComponent, b.destinationAction)
  }

  /** Item k replaces hardware that the link touches. */
  predicate Retried(d: Data, items: seq<Hardware>, k: nat, b: LinkBody)
    requires k < |items|
  {
    b.Touches(items[k].id) && HardwareAfter(d.hardware, items, k, items[k].id).Some?
  }

  predicate DropsAt(d: Data, items: seq<Hardware>, k: nat, b: LinkBody)
    requires k < |items|
  {
    Retried(d, items, k, b) && Drops(SourceAfter(d, items, k + 1, b), DestinationAfter(d, items, k + 1, b))
  }

  predicate ClashesAt(d: Data, items: seq<Hardware>, k: nat, b: LinkBody)
    requires k < |items|
  {
    Retried(d, items, k, b) && Clashes(SourceAfter(d, items, k + 1, b), DestinationAfter(d, items, k + 1, b))
  }

  /** Item k makes the check of a link raise that no earlier item made fail. */
  ghost predicate ClashesFirst(d: Data, items: seq<Hardware>, k: nat, b: LinkBody) {
    k < |items| && ClashesAt(d, items, k, b) && forall j :: 0 <= j < k ==> !DropsAt(d, items, j, b)
  }

  /** What a caller can tell from the schema and the items. */
  ghost predicate Loses(d: Data, items: seq<Hardware>) {
    exists k: nat, l :: l in d.links && ClashesFirst(d, items, k, l.body)
  }

  /** Loading an item gives its id its class and changes no other hardware. */
  lemma ReplacedHardware(d: Data, item: Hardware)
    requires DistinctIds(d.hardware)
    ensures var e := Replaced(d, item);
      && DistinctIds(e.hardware) && e.plugins == d.plugins
      && forall id :: HardwareClass(e.hardware, id) ==
           if id == item.id then Some(item.body) else HardwareClass(d.hardware, id)
  {
    var e := Replaced(d, item);
    var existing := Find(d.hardware, item.id);
    var hs := if existing.Some? then RemoveFirst(d.hardware, existing.value) else d.hardware;
    if existing.Some? { RemovedDistinct(d.hardware, existing.value); }
    forall id ensures HardwareClass(e.hardware, id) ==
      if id == item.id then Some(item.body) else HardwareClass(d.hardware, id)
    {
      if existing.Some? { FindRemoved(d.hardware, existing.value, id); }
      FindAppended(hs, item, id);
    }
  }

  /** Loading the first item and counting from there is counting from the start. */
  lemma {:induction false} HardwareShifts(d: Data, items: seq<Hardware>, k: nat, id: string)
    requires DistinctIds(d.hardware) && items != [] && k < |items|
    ensures HardwareAfter(Replaced(d, items[0]).hardware, items[1..], k, id) ==
      HardwareAfter(d.hardware, items, k + 1, id)
    decreases k
  {
    if k == 0 {
      ReplacedHardware(d, items[0]);
      assert HardwareAfter(d.hardware, items, 0, id) == HardwareClass(d.hardware, id);
    } else {
      HardwareShifts(d, items, k - 1, id);
      assert items[1..][k - 1] == items[k];
    }
  }

  lemma MembersShift(d: Data, e: Data, items: seq<Hardware>, k: nat, b: LinkBody)
    requires DistinctIds(d.hardware) && items != [] && k < |items|
    requires e.plugins == d.plugins && e.hardware == Replaced(d, items[0]).hardware
    ensures SourceAfter(e, items[1..], k, b) == SourceAfter(d, items, k + 1, b)
    ensures DestinationAfter(e, items[1..], k, b) == DestinationAfter(d, items, k + 1, b)
  {
    HardwareShifts(d, items, k, b.sourceComponent);
    HardwareShifts(d, items, k, b.destinationComponent);
  }

  lemma ClashesShift(d: Data, e: Data, items: seq<Hardware>, k: nat, b: LinkBody)
    requires DistinctIds(d.hardware) && k + 1 < |items|
    requires e.plugins == d.plugins && e.hardware == Replaced(d, items[0]).hardware
    ensures DropsAt(e, items[1..], k, b) <==> DropsAt(d, items, k + 1, b)
    ensures ClashesAt(e, items[1..], k, b) <==> ClashesAt(d, items, k + 1, b)
  {
    assert items[1..][k] == items[k + 1];
    MembersShift(d, e, items, k + 1, b);
    HardwareShifts(d, items, k, items[k + 1].id);
  }

  /** The first item, in terms of the schema it is loaded into. */
  lemma FirstItem(d: Data, items: seq<Hardware>, b: LinkBody)
    requires DistinctIds(d.hardware) && items != []
    ensures var e := Replaced(d, items[0]);
      var retried := b.Touches(items[0].id) && Find(d.hardware, items[0].id).Some?;
      && (DropsAt(d, items, 0, b) <==> retried && Drops(Source(e, b), Destination(e, b)))
      && (ClashesAt(d, items, 0, b) <==> retried && Clashes(Source(e, b), Destination(e, b)))
  {
    var e := Replaced(d, items[0]);
    ReplacedHardware(d, items[0]);
    MembersShift(d, e, items, 0, b);
    assert SourceAfter(e, items[1..], 0, b) == Source(e, b);
    assert DestinationAfter(e, items[1..], 0, b) == Destination(e, b);
  }

  /** One item raises exactly when it clashes with a link, and otherwise takes away exactly the links that fail. */
  lemma ItemMeaning(d: Data, failed: seq<LinkItem>, items: seq<Hardware>)
    requires DistinctIds(d.hardware) && items != []
    ensures var (r, e) := (LoadItem(d, failed, items[0]), Replaced(d, items[0]));
      && r.data.hardware == e.hardware && r.data.plugins == d.plugins && DistinctIds(e.hardware)
      && (r.raised <==> exists l :: l in d.links && ClashesAt(d, items, 0, l.body))
      && (!r.raised ==> forall l :: l in r.data.links <==> l in d.links && !DropsAt(d, items, 0, l.body))
      && (!r.raised ==> forall l :: l in r.failed <==> l in failed || (l in d.links && DropsAt(d, items, 0, l.body)))
  {
    var e := Replaced(d, items[0]);
    ReplacedHardware(d, items[0]);
    TouchingTouches(d.links, items[0].id);
    RecreateMeaning(e, failed, Saved(d, items[0]));
    forall l | l in d.links
      ensures ClashesAt(d, items, 0, l.body) <==>
        l in Saved(d, items[0]) && Clashes(Source(e, l.body), Destination(e, l.body))
      ensures DropsAt(d, items, 0, l.body) <==>
        l in Saved(d, items[0]) && Drops(Source(e, l.body), Destination(e, l.body))
    {
      FirstItem(d, items, l.body);
    }
  }

  lemma ClashesFirstShifts(d: Data, e: Data, items: seq<Hardware>, k: nat, b: LinkBody)
    requires DistinctIds(d.hardware) && items != [] && !DropsAt(d, items, 0, b)
    requires e.plugins == d.plugins && e.hardware == Replaced(d, items[0]).hardware
    ensures ClashesFirst(e, items[1..], k, b) <==> ClashesFirst(d, items, k + 1, b)
  {
    if k + 1 < |items| {
      forall j: nat | j <= k ensures DropsAt(e, items[1..], j, b) <==> DropsAt(d, items, j + 1, b) {
        ClashesShift(d, e, items, j, b);
      }
      ClashesShift(d, e, items, k, b);
      if ClashesFirst(e, items[1..], k, b) {
        forall j | 0 <= j < k + 1 ensures !DropsAt(d, items, j, b) {
          assert j > 0 ==> !DropsAt(e, items[1..], j - 1, b);
        }
      }
    }
  }

  /** Past an item that clashes with nothing, what is lost is lost to the remaining items. */
  lemma LossShifts(d: Data, e: Data, items: seq<Hardware>)
    requires DistinctIds(d.hardware) && items != []
    requires e.plugins == d.plugins && e.hardware == Replaced(d, items[0]).hardware
    requires forall l :: l in d.links ==> !ClashesAt(d, items, 0, l.body)
    requires forall l :: l in e.links <==> l in d.links && !DropsAt(d, items, 0, l.body)
    ensures Loses(e, items[1..]) <==> Loses(d, items)
  {
    if k: nat, l :| l in e.links && ClashesFirst(e, items[1..], k, l.body) {
      ClashesFirstShifts(d, e, items, k, l.body);
      assert ClashesFirst(d, items, k + 1, l.body);
    }
    if k: nat, l :| l in d.links && ClashesFirst(d, items, k, l.body) {
      assert k > 0;
      ClashesFirstShifts(d, e, items, k - 1, l.body);
      assert l in e.links && ClashesFirst(e, items[1..], k - 1, l.body);
    }
  }

  /** A reload ends with an exception exactly when the schema and the items clash. */
  lemma {:induction false} ReloadRaisesIff(d: Data, failed: seq<LinkItem>, items: seq<Hardware>)
    requires DistinctIds(d.hardware)
    ensures LoadItems(d, failed, items).raised <==> Loses(d, items)
    decreases |items|
  {
    if items == [] {
    } else {
      var r := LoadItem(d, failed, items[0]);
      ItemMeaning(d, failed, items);
      if r.raised {
        var l :| l in d.links && ClashesAt(d, items, 0, l.body);
        assert ClashesFirst(d, items, 0, l.body);
      } else {
        ReloadRaisesIff(r.data, r.failed, items[1..]);
        LossShifts(d, r.data, items);
      }
    }
  }

  /**
   A reload keeps every link exactly once, in the schema or among the failed ones, unless some item
   gives the two ends of a link, not failed before, an attribute where an action is needed or the
   other way round; then some link is lost.
  */
  lemma ReloadConservesIff(d: Data, failed: seq<LinkItem>, items: seq<Hardware>)
    requires DistinctIds(d.hardware)
    ensures var r := LoadItems(d, failed, items);
      && (Stock(r.data.links, r.failed) == Stock(d.links, failed) <==> !Loses(d, items))
      && Stock(r.data.links, r.failed) <= Stock(d.links, failed)
  {
    ReloadConserves(d, failed, items);
    ReloadRaisesIff(d, failed, items);
  }

  /** Some item of the reload makes the link's re-creation fail. */
  ghost predicate Dropped(d: Data, items: seq<Hardware>, b: LinkBody) {
    exists k :: 0 <= k < |items| && DropsAt(d, items, k, b)
  }

  lemma DroppedShifts(d: Data, e: Data, items: seq<Hardware>, b: LinkBody)
    requires DistinctIds(d.hardware) && items != []
    requires e.plugins == d.plugins && e.hardware == Replaced(d, items[0]).hardware
    ensures Dropped(d, items, b) <==> DropsAt(d, items, 0, b) || Dropped(e, items[1..], b)
  {
    if k :| 0 <= k < |items| && DropsAt(d, items, k, b) {
      if k > 0 { ClashesShift(d, e, items, k - 1, b); }
    }
    if k :| 0 <= k < |items| - 1 && DropsAt(e, items[1..], k, b) {
      ClashesShift(d, e, items, k, b);
      assert DropsAt(d, items, k + 1, b);
    }
  }

  /** A reload that loses nothing keeps exactly the links no item drops, and drops exactly the others. */
  lemma {:induction false} ReloadKeepsIff(d: Data, failed: seq<LinkItem>, items: seq<Hardware>)
    requires DistinctIds(d.hardware) && !Loses(d, items)
    ensures var r := LoadItems(d, failed, items);
      && (forall l :: l in r.data.links <==> l in d.links && !Dropped(d, items, l.body))
      && (forall l :: l in r.failed <==> l in failed || (l in d.links && Dropped(d, items, l.body)))
    decreases |items|
  {
    ReloadRaisesIff(d, failed, items);
    if items == [] {
    } else {
      var r := LoadItem(d, failed, items[0]);
      ItemMeaning(d, failed, items);
      ReloadRaisesIff(r.data, r.failed, items[1..]);
      ReloadKeepsIff(r.data, r.failed, items[1..]);
      forall b: LinkBody ensures Dropped(d, items, b) <==> DropsAt(d, items, 0, b) || Dropped(r.data, items[1..], b) {
        DroppedShifts(d, r.data, items, b);
      }
    }
  }

  /** Reloading one item loses a link exactly when a saved link clashes with the item's members. */
  lemma ItemConservesIff(d: Data, failed: seq<LinkItem>, item: Hardware)
    ensures var r := LoadItem(d, failed, item); var e := Replaced(d, item);
      Stock(r.data.links, r.failed) == Stock(d.links, failed) <==>
        !exists l :: l in Saved(d, item) && Clashes(Source(e, l.body), Destination(e, l.body))
  {
    ItemConserves(d, failed, item);
    RecreateMeaning(Replaced(d, item), failed, Saved(d, item));
  }

  // ---------------------------------------------------------------- which components are left

  /** Deleting a component takes out that component and the links that name it, and nothing else. */
  lemma DeletionMeaning(d: Data, before: seq<Plugin>, p: Plugin, behind: seq<Plugin>)
    requires d.plugins == before + [p] + behind && p !in before
    ensures var e := WithoutPlugin(d, p);
      && e.plugins == before + behind && e.hardware == d.hardware && e.pluginTypes == d.pluginTypes
      && forall l :: l in e.links <==>
           l in d.links && p.id != l.body.sourceComponent && p.id != l.body.destinationComponent
  {
    RemoveFirstMeaning(before, p, behind);
    TouchingTouches(d.links, p.id);
  }

  /** The components with none of the ids, in order. */
  function Unlisted(hardware: seq<Hardware>, ids: set<string>): seq<Hardware> {
    if hardware == [] then []
    else (if hardware[0].id in ids then [] else [hardware[0]]) + Unlisted(hardware[1..], ids)
  }

  lemma {:induction false} UnlistedRemoved(hardware: seq<Hardware>, id: string, ids: set<string>)
    requires DistinctIds(hardware)
    ensures var found := Find(hardware, id);
      var hs := if found.Some? then RemoveFirst(hardware, found.value) else hardware;
      Unlisted(hs, ids) == Unlisted(hardware, ids + {id})
  {
    if hardware == [] {
    } else {
      UnlistedRemoved(hardware[1..], id, ids);
      if hardware[0].id == id { UnlistedTwice(hardware[1..], id, ids); }
    }
  }

  lemma {:induction false} UnlistedTwice(hardware: seq<Hardware>, id: string, ids: set<string>)
    requires forall h :: h in hardware ==> h.id != id
    ensures Unlisted(hardware, ids) == Unlisted(hardware, ids + {id})
  {
    if hardware == [] {
    } else {
      UnlistedTwice(hardware[1..], id, ids);
    }
  }

  lemma UnlistedOne(item: Hardware, ids: set<string>)
    ensures Unlisted([item], ids) == if item.id in ids then [] else [item]
  {
    assert [item][1..] == [];
  }

  lemma {:induction false} UnlistedSnoc(hardware: seq<Hardware>, item: Hardware, ids: set<string>)
    ensures Unlisted(hardware + [item], ids) == Unlisted(hardware, ids) + Unlisted([item], ids)
  {
    if hardware == [] {
      assert hardware + [item] == [item];
    } else {
      assert (hardware + [item])[1..] == hardware[1..] + [item];
      UnlistedSnoc(hardware[1..], item, ids);
    }
  }

  ghost function IdsOf(items: seq<Hardware>): set<string> {
    set h | h in items :: h.id
  }

  lemma UnlistedReplaced(d: Data, item: Hardware, ids: set<string>)
    requires DistinctIds(d.hardware) && item.id !in ids
    ensures Unlisted(Replaced(d, item).hardware, ids) == Unlisted(d.hardware, ids + {item.id}) + [item]
  {
    var found := Find(d.hardware, item.id);
    UnlistedRemoved(d.hardware, item.id, ids);
    UnlistedSnoc(if found.Some? then RemoveFirst(d.hardware, found.value) else d.hardware, item, ids);
    UnlistedOne(item, ids);
  }

  lemma IdsOfMore(items: seq<Hardware>)
    requires items != [] && DistinctIds(items)
    ensures DistinctIds(items[1..]) && items[0].id !in IdsOf(items[1..])
    ensures IdsOf(items) == IdsOf(items[1..]) + {items[0].id}
  {
    assert items == [items[0]] + items[1..];
  }

  lemma LoadedItem(d: Data, failed: seq<LinkItem>, item: Hardware)
    requires DistinctIds(d.hardware)
    ensures var r := LoadItem(d, failed, item).data;
      && r.hardware == Replaced(d, item).hardware && DistinctIds(r.hardware)
      && r.plugins == d.plugins && r.pluginTypes == d.pluginTypes
  {
    ReplacedHardware(d, item);
    RecreateMeaning(Replaced(d, item), failed, Saved(d, item));
  }

  /** A reload that raises nothing leaves the components it does not list, in order, and behind them its items. */
  lemma {:induction false} ReloadedHardware(d: Data, failed: seq<LinkItem>, items: seq<Hardware>)
    requires DistinctIds(d.hardware) && DistinctIds(items) && !LoadItems(d, failed, items).raised
    ensures var r := LoadItems(d, failed, items).data;
      && r.plugins == d.plugins && r.pluginTypes == d.pluginTypes
      && r.hardware == Unlisted(d.hardware, IdsOf(items)) + items
    decreases |items|
  {
    if items == [] {
      AllUnlisted(d.hardware);
      assert IdsOf(items) == {};
    } else {
      var r := LoadItem(d, failed, items[0]);
      LoadedItem(d, failed, items[0]);
      IdsOfMore(items);
      ReloadedHardware(r.data, r.failed, items[1..]);
      UnlistedItems(d, items);
    }
  }

  lemma UnlistedItems(d: Data, items: seq<Hardware>)
    requires DistinctIds(d.hardware) && DistinctIds(items) && items != []
    ensures Unlisted(Replaced(d, items[0]).hardware, IdsOf(items[1..])) + items[1..] ==
      Unlisted(d.hardware, IdsOf(items)) + items
  {
    IdsOfMore(items);
    UnlistedReplaced(d, items[0], IdsOf(items[1..]));
    assert [items[0]] + items[1..] == items;
  }

  lemma {:induction false} AllUnlisted(hardware: seq<Hardware>)
    ensures Unlisted(hardware, {}) == hardware
  {
    if hardware == [] {
    } else {
      AllUnlisted(hardware[1..]);
    }
  }

  // ---------------------------------------------------------------- links of other components stay as they are

  predicate Elsewhere(l: LinkItem, ids: set<string>) {
    l.body.sourceComponent !in ids && l.body.destinationComponent !in ids
  }

  function LinksElsewhere(links: seq<LinkItem>, ids: set<string>): seq<LinkItem> {
    if links == [] then []
    else (if Elsewhere(links[0], ids) then [links[0]] else []) + LinksElsewhere(links[1..], ids)
  }

  lemma {:induction false} ElsewhereAppend(links: seq<LinkItem>, l: LinkItem, ids: set<string>)
    ensures LinksElsewhere(links + [l], ids) == LinksElsewhere(links, ids) + if Elsewhere(l, ids) then [l] else []
  {
    var all := links + [l];
    if links == [] {
      assert all == [l] && all[1..] == [];
    } else {
      var head := if Elsewhere(links[0], ids) then [links[0]] else [];
      var rest := LinksElsewhere(links[1..], ids);
      assert all[0] == links[0] && all[1..] == links[1..] + [l];
      ElsewhereAppend(links[1..], l, ids);
      assert LinksElsewhere(all, ids) == head + (rest + if Elsewhere(l, ids) then [l] else []);
    }
  }

  lemma {:induction false} ElsewhereApart(links: seq<LinkItem>, id: string, ids: set<string>)
    requires id in ids
    ensures LinksElsewhere(Apart(links, id), ids) == LinksElsewhere(links, ids)
  {
    if links == [] {
    } else {
      ElsewhereApart(links[1..], id, ids);
      var rest := Apart(links[1..], id);
      if links[0].body.Touches(id) {
        assert Apart(links, id) == rest;
      } else {
        assert Apart(links, id)[1..] == rest;
      }
    }
  }

  lemma {:induction false} RecreateElsewhere(d: Data, failed: seq<LinkItem>, saved: seq<LinkItem>, ids: set<string>)
    requires forall l :: l in saved ==> !Elsewhere(l, ids)
    ensures LinksElsewhere(Recreate(d, failed, saved).data.links, ids) == LinksElsewhere(d.links, ids)
    decreases |saved|
  {
    if saved == [] {
    } else {
      RecreateElsewhere(d, failed + [saved[0]], saved[1..], ids);
      RecreateElsewhere(d.(links := d.links + [saved[0]]), failed, saved[1..], ids);
      ElsewhereAppend(d.links, saved[0], ids);
    }
  }

  /** The links that touch no reloaded component stay the same, in order, even when an exception ends the reload. */
  lemma {:induction false} ReloadLeavesOthers(d: Data, failed: seq<LinkItem>, items: seq<Hardware>, ids: set<string>)
    requires forall h :: h in items ==> h.id in ids
    ensures LinksElsewhere(LoadItems(d, failed, items).data.links, ids) == LinksElsewhere(d.links, ids)
    decreases |items|
  {
    if items == [] {
    } else {
      var item := items[0];
      TouchingTouches(d.links, item.id);
      RecreateElsewhere(Replaced(d, item), failed, Saved(d, item), ids);
      ElsewhereApart(d.links, item.id, ids);
      var r := LoadItem(d, failed, item);
      if !r.raised { ReloadLeavesOthers(r.data, r.failed, items[1..], ids); }
    }
  }

  // ---------------------------------------------------------------- well-typed schemas

  ghost predicate DistinctComponents(d: Data) {
    && DistinctIds(d.hardware) && DistinctIds(d.plugins)
    && (forall h, p :: h in d.hardware && p in d.plugins ==> h.id != p.id)
  }

  predicate Colonless(b: LinkBody) {
    ':' !in b.sourceComponent && ':' !in b.sourceAttribute && ':' !in b.destinationComponent &&
      ':' !in b.destinationAction
  }

  /** Both ends exist, an attribute leads to an action, and the action takes nothing or the attribute's type. */
  ghost predicate Fits(d: Data, b: LinkBody) {
    && Source(d, b).Some? && Source(d, b).value.Attribute?
    && Destination(d, b).Some? && Destination(d, b).value.Action?
    && (Destination(d, b).value.arguments == [] || Destination(d, b).value.arguments == [Source(d, b).value.typ])
  }

  ghost predicate NoDuplicate(links: seq<LinkItem>) {
    forall l :: multiset(links)[l] <= 1
  }

  ghost predicate WellTyped(d: Data) {
    && DistinctComponents(d)
    && (forall l :: l in d.links ==> l.id == MakeId(l.body) && Colonless(l.body) && Fits(d, l.body))
    && NoDuplicate(d.links)
  }

  /** Two entries of the link list never join the same attribute and action. */
  lemma NoTwoAlike(d: Data, i: nat, j: nat)
    requires WellTyped(d) && i < j < |d.links|
    ensures d.links[i].body != d.links[j].body && d.links[i] != d.links[j]
  {
    var links := d.links;
    assert links == links[..j] + [links[j]] + links[j + 1..];
    assert links[i] in links[..j];
    assert multiset(links) == multiset(links[..j]) + multiset{links[j]} + multiset(links[j + 1..]);
    assert multiset(links)[links[j]] <= 1;
    assert links[i] in links && links[j] in links;
  }

  // ---------------------------------------------------------------- how operations change lookups

  lemma {:induction false} FindAppended<T>(items: seq<Item<T>>, x: Item<T>, id: string)
    ensures Find(items + [x], id) ==
      if Find(items, id).Some? then Find(items, id) else if x.id == id then Some(x) else None
  {
    if items == [] {
      assert items + [x] == [x];
    } else {
      assert (items + [x])[1..] == items[1..] + [x];
      FindAppended(items[1..], x, id);
    }
  }

  lemma {:induction false} FindRemoved<T>(items: seq<Item<T>>, x: Item<T>, id: string)
    requires DistinctIds(items) && x in items
    ensures Find(RemoveFirst(items, x), id) == if x.id == id then None else Find(items, id)
  {
    if items[0] == x {
      assert forall y :: y in items[1..] ==> y.id != x.id;
    } else {
      FindRemoved(items[1..], x, id);
      assert items[0].id != x.id;
    }
  }

  lemma {:induction false} RemovedDistinct<T>(items: seq<Item<T>>, x: Item<T>)
    requires DistinctIds(items)
    ensures DistinctIds(RemoveFirst(items, x))
    ensures forall y :: y in RemoveFirst(items, x) ==> y in items
    ensures x in items ==> forall y :: y in RemoveFirst(items, x) ==> y.id != x.id
  {
    if items == [] || items[0] == x {
    } else {
      RemovedDistinct(items[1..], x);
      var rest := RemoveFirst(items[1..], x);
      forall k | 0 <= k < |rest| ensures rest[k].id != items[0].id {
        assert rest[k] in rest;
      }
    }
  }

  // ---------------------------------------------------------------- what keeps a schema well typed

  lemma FitsFrame(d: Data, e: Data, b: LinkBody)
    requires Fits(d, b)
    requires ClassOf(e, b.sourceComponent) == ClassOf(d, b.sourceComponent)
    requires ClassOf(e, b.destinationComponent) == ClassOf(d, b.destinationComponent)
    ensures Fits(e, b)
  {
  }

  lemma {:induction false} MultisetAppend(links: seq<LinkItem>, l: LinkItem)
    ensures multiset(links + [l]) == multiset(links) + multiset{l}
    ensures l !in links ==> (NoDuplicate(links) ==> NoDuplicate(links + [l]))
  {
  }

  lemma FewerNoDuplicate(links: seq<LinkItem>, more: seq<LinkItem>)
    requires NoDuplicate(more) && multiset(links) <= multiset(more)
    ensures NoDuplicate(links) && forall l :: l in links ==> l in more
  {
    forall l | l in links ensures l in more {
      assert multiset(links)[l] > 0;
      assert l in multiset(more);
    }
  }

  lemma ThreePieces(x: string, y: string, z: string)
    requires ':' !in x && ':' !in y && ':' !in z
    ensures Split(x + ":" + (y + ":" + z), ':') == [x, y, z]
  {
    SplitHead(x, y + [':'] + z, ':');
    SplitHead(y, z, ':');
    SplitHead(z, "", ':');
  }

  lemma SourceIdSplits(b: LinkBody)
    requires Colonless(b)
    ensures Split(SourceId(b), ':') == ["attribute", b.sourceComponent, b.sourceAttribute]
    ensures Split(TargetId(b), ':') == ["action", b.destinationComponent, b.destinationAction]
  {
    ThreePieces("attribute", b.sourceComponent, b.sourceAttribute);
    ThreePieces("action", b.destinationComponent, b.destinationAction);
  }

  /** Drawing between an attribute and an action adds that link exactly when it is new and the types fit. */
  lemma DrawMeaning(d: Data, b: LinkBody)
    requires Colonless(b) && forall l :: l in d.links ==> Colonless(l.body)
    ensures |Split(SourceId(b), ':')| >= 3 && |Split(TargetId(b), ':')| >= 3
    ensures Draw(d, SourceId(b), TargetId(b)) ==
      if (exists l :: l in d.links && l.body == b) || !Matches(Source(d, b), Destination(d, b)) then d
      else d.(links := d.links + [Item(MakeId(b), b)])
  {
    SourceIdSplits(b);
    LinkTypesMeaning(Source(d, b), Destination(d, b));
    if Connected(d.links, SourceId(b), TargetId(b)) {
      var l :| l in d.links && SourceId(l.body) == SourceId(b) && TargetId(l.body) == TargetId(b);
      SourceIdSplits(l.body);
      assert Split(SourceId(l.body), ':')[1] == b.sourceComponent &&
        Split(SourceId(l.body), ':')[2] == b.sourceAttribute;
      assert Split(TargetId(l.body), ':')[1] == b.destinationComponent &&
        Split(TargetId(l.body), ':')[2] == b.destinationAction;
      assert l.body == b;
    }
  }

  lemma DrawKeepsTyped(d: Data, b: LinkBody)
    requires WellTyped(d) && Colonless(b)
    requires Source(d, b).Some? && Source(d, b).value.Attribute?
    requires Destination(d, b).Some? && Destination(d, b).value.Action?
    ensures |Split(SourceId(b), ':')| >= 3 && |Split(TargetId(b), ':')| >= 3
    ensures WellTyped(Draw(d, SourceId(b), TargetId(b)))
  {
    DrawMeaning(d, b);
    var e := Draw(d, SourceId(b), TargetId(b));
    if e != d {
      var link := Item(MakeId(b), b);
      MultisetAppend(d.links, link);
      forall l | l in e.links ensures l.id == MakeId(l.body) && Colonless(l.body) && Fits(e, l.body) {
        if l in d.links { FitsFrame(d, e, l.body); }
      }
    }
  }

  lemma NewPluginKeepsTyped(d: Data, typ: PluginType, id: string)
    requires WellTyped(d) && Find(d.plugins, id).None? && Find(d.hardware, id).None?
    ensures WellTyped(d.(plugins := d.plugins + [Item(id, typ)]))
  {
    var e := d.(plugins := d.plugins + [Item(id, typ)]);
    forall l | l in e.links ensures Fits(e, l.body) {
      FindAppended(d.plugins, Item(id, typ), l.body.sourceComponent);
      FindAppended(d.plugins, Item(id, typ), l.body.destinationComponent);
      FitsFrame(d, e, l.body);
    }
  }

  /** Removing a component and its links, when other components are found as before. */
  lemma DropKeepsTyped(d: Data, e: Data, id: string)
    requires WellTyped(d) && DistinctComponents(e) && e.links == Apart(d.links, id)
    requires forall other :: other != id ==> ClassOf(e, other) == ClassOf(d, other)
    ensures WellTyped(e)
  {
    TouchingTouches(d.links, id);
    FewerNoDuplicate(e.links, d.links);
    forall l | l in e.links ensures Fits(e, l.body) {
      FitsFrame(d, e, l.body);
    }
  }

  lemma DropPluginKeepsTyped(d: Data, p: Plugin)
    requires WellTyped(d) && p in d.plugins
    ensures WellTyped(WithoutPlugin(d, p))
  {
    var e := WithoutPlugin(d, p);
    RemovedDistinct(d.plugins, p);
    forall other | other != p.id ensures ClassOf(e, other) == ClassOf(d, other) {
      FindRemoved(d.plugins, p, other);
    }
    DropKeepsTyped(d, e, p.id);
  }

  lemma DropHardwareKeepsTyped(d: Data, h: Hardware)
    requires WellTyped(d) && h in d.hardware
    ensures WellTyped(WithoutHardware(d, h))
  {
    var e := WithoutHardware(d, h);
    RemovedDistinct(d.hardware, h);
    forall other | other != h.id ensures ClassOf(e, other) == ClassOf(d, other) {
      FindRemoved(d.hardware, h, other);
    }
    DropKeepsTyped(d, e, h.id);
  }

  lemma {:induction false} RemoveFirstFewer(links: seq<LinkItem>, l: LinkItem)
    ensures multiset(RemoveFirst(links, l)) <= multiset(links)
  {
    if links == [] {
    } else {
      assert links == [links[0]] + links[1..];
      if links[0] != l { RemoveFirstFewer(links[1..], l); }
    }
  }

  lemma DropLinkKeepsTyped(d: Data, l: LinkItem)
    requires WellTyped(d)
    ensures WellTyped(d.(links := RemoveFirst(d.links, l)))
  {
    var e := d.(links := RemoveFirst(d.links, l));
    RemoveFirstFewer(d.links, l);
    FewerNoDuplicate(e.links, d.links);
    forall k | k in e.links ensures Fits(e, k.body) { FitsFrame(d, e, k.body); }
  }

  // ---------------------------------------------------------------- reloading keeps a schema well typed

  /** Members of the same name are attributes in both classes or actions in both. */
  ghost predicate SameKinds(a: Class, b: Class) {
    forall name :: MemberByName(a, name).Some? && MemberByName(b, name).Some? ==>
      (MemberByName(a, name).value.Attribute? <==> MemberByName(b, name).value.Attribute?)
  }

  /** The item does not take a plugin's id, and keeps the kinds of the hardware it replaces. */
  ghost predicate Acceptable(plugins: seq<Plugin>, replaced: Option<Class>, item: Hardware) {
    && Find(plugins, item.id).None?
    && (replaced.Some? ==> SameKinds(replaced.value, item.body))
  }

  lemma ReplacedLookups(d: Data, item: Hardware)
    requires DistinctComponents(d) && Find(d.plugins, item.id).None?
    ensures var e := Replaced(d, item);
      && DistinctComponents(e)
      && forall id :: ClassOf(e, id) == if id == item.id then Some(item.body) else ClassOf(d, id)
  {
    var e := Replaced(d, item);
    ReplacedHardware(d, item);
    forall h, p | h in e.hardware && p in e.plugins ensures h.id != p.id {
      if Find(d.hardware, item.id).Some? { RemovedDistinct(d.hardware, Find(d.hardware, item.id).value); }
      assert h == item || h in d.hardware;
    }
  }

  /** What is known about the saved links: whichever of their members still exist are of the right kind. */
  ghost predicate Kinded(d: Data, b: LinkBody) {
    && (Source(d, b).Some? ==> Source(d, b).value.Attribute?)
    && (Destination(d, b).Some? ==> Destination(d, b).value.Action?)
  }

  lemma SavedAreKinded(d: Data, item: Hardware, l: LinkItem)
    requires WellTyped(d) && Acceptable(d.plugins, HardwareClass(d.hardware, item.id), item)
    requires l in d.links && Find(d.hardware, item.id).Some?
    ensures Kinded(Replaced(d, item), l.body)
  {
    ReplacedLookups(d, item);
    var e := Replaced(d, item);
    var before := Find(d.hardware, item.id).value.body;
    assert ClassOf(d, item.id) == Some(before) && ClassOf(e, item.id) == Some(item.body);
    assert Fits(d, l.body);
    if l.body.sourceComponent == item.id {
      assert Source(d, l.body) == MemberByName(before, l.body.sourceAttribute);
      assert Source(e, l.body) == MemberByName(item.body, l.body.sourceAttribute);
    }
    if l.body.destinationComponent == item.id {
      assert Destination(d, l.body) == MemberByName(before, l.body.destinationAction);
      assert Destination(e, l.body) == MemberByName(item.body, l.body.destinationAction);
    }
  }

  ghost predicate AllTyped(d: Data, links: seq<LinkItem>) {
    forall l :: l in links ==> l.id == MakeId(l.body) && Colonless(l.body) && Fits(d, l.body)
  }

  /** Creating kinded links again raises no exception and keeps only fitting ones. */
  lemma {:induction false} RecreateTypes(d: Data, failed: seq<LinkItem>, saved: seq<LinkItem>)
    requires AllTyped(d, d.links)
    requires forall l :: l in saved ==> l.id == MakeId(l.body) && Colonless(l.body) && Kinded(d, l.body)
    ensures var r := Recreate(d, failed, saved);
      && !r.raised && r.data == d.(links := r.data.links) && AllTyped(d, r.data.links)
    decreases |saved|
  {
    if saved == [] {
    } else {
      var l := saved[0];
      var (source, target) := (Source(d, l.body), Destination(d, l.body));
      LinkTypesMeaning(source, target);
      if source.Some? && target.Some? && Matches(source, target) {
        var e := d.(links := d.links + [l]);
        SameLookups(d, e);
        RecreateTypes(e, failed, saved[1..]);
        SameLookups(e, d);
      } else {
        RecreateTypes(d, failed + [l], saved[1..]);
      }
    }
  }

  lemma SameLookups(d: Data, e: Data)
    requires e == d.(links := e.links)
    ensures forall b: LinkBody :: Source(e, b) == Source(d, b) && Destination(e, b) == Destination(d, b)
    ensures forall links: seq<LinkItem> :: AllTyped(d, links) ==> AllTyped(e, links)
    ensures forall b :: Kinded(d, b) ==> Kinded(e, b)
  {
    forall links: seq<LinkItem> | AllTyped(d, links) ensures AllTyped(e, links) {
      forall l | l in links ensures Fits(e, l.body) { FitsFrame(d, e, l.body); }
    }
  }

  /** Before the saved links are created again, the remaining links fit and the saved ones are kinded. */
  lemma ReplacedIsReady(d: Data, item: Hardware)
    requires WellTyped(d) && Acceptable(d.plugins, HardwareClass(d.hardware, item.id), item)
    ensures var e := Replaced(d, item);
      && DistinctComponents(e) && AllTyped(e, e.links)
      && (forall l :: l in Saved(d, item) ==> l.id == MakeId(l.body) && Colonless(l.body) && Kinded(e, l.body))
      && multiset(e.links) + multiset(Saved(d, item)) == multiset(d.links)
  {
    var e := Replaced(d, item);
    TouchingTouches(d.links, item.id);
    ReplacedLookups(d, item);
    forall l | l in e.links ensures Fits(e, l.body) {
      if Find(d.hardware, item.id).None? { NotTouched(d, item.id, l); }
      FitsFrame(d, e, l.body);
    }
    forall l | l in Saved(d, item) ensures Kinded(e, l.body) { SavedAreKinded(d, item, l); }
  }

  lemma RecreateAddsSaved(d: Data, failed: seq<LinkItem>, saved: seq<LinkItem>)
    ensures multiset(Recreate(d, failed, saved).data.links) <= multiset(d.links) + multiset(saved)
  {
    RecreateIgnoresFailed(d, failed, [], saved);
    RecreateConserves(d, [], saved);
    var r := Recreate(d, [], saved);
    assert Stock(d.links, []) == multiset(d.links);
    assert multiset(r.data.links) <= Stock(r.data.links, r.failed);
  }

  /** Reloading an item whose members keep their kinds raises nothing and keeps the schema well typed. */
  lemma LoadItemKeepsTyped(d: Data, failed: seq<LinkItem>, item: Hardware)
    requires WellTyped(d) && Acceptable(d.plugins, HardwareClass(d.hardware, item.id), item)
    ensures var r := LoadItem(d, failed, item); !r.raised && WellTyped(r.data)
  {
    var e := Replaced(d, item);
    var saved := Saved(d, item);
    ReplacedIsReady(d, item);
    RecreateTypes(e, failed, saved);
    var r := Recreate(e, failed, saved);
    SameLookups(e, r.data);
    RecreateAddsSaved(e, failed, saved);
    FewerNoDuplicate(r.data.links, d.links);
  }

  /** No link touches an id that belongs to no component. */
  lemma NotTouched(d: Data, id: string, l: LinkItem)
    requires WellTyped(d) && l in d.links && ClassOf(d, id).None?
    ensures !l.body.Touches(id)
  {
    assert Fits(d, l.body);
  }

  lemma {:induction false} RecreateIgnoresFailed(d: Data, failed: seq<LinkItem>, other: seq<LinkItem>,
    saved: seq<LinkItem>)
    ensures Recreate(d, failed, saved).data == Recreate(d, other, saved).data
    decreases |saved|
  {
    if saved == [] {
    } else {
      RecreateIgnoresFailed(d, failed + [saved[0]], other + [saved[0]], saved[1..]);
      RecreateIgnoresFailed(d.(links := d.links + [saved[0]]), failed, other, saved[1..]);
    }
  }

  /** Every item keeps the kinds of what it replaces; the links of the schema do not matter. */
  ghost predicate AllAcceptable(plugins: seq<Plugin>, hardware: seq<Hardware>, items: seq<Hardware>) {
    forall k :: 0 <= k < |items| ==>
      Acceptable(plugins, HardwareAfter(hardware, items, k, items[k].id), items[k])
  }

  lemma AcceptableShifts(d: Data, items: seq<Hardware>)
    requires DistinctIds(d.hardware) && items != [] && AllAcceptable(d.plugins, d.hardware, items)
    ensures Acceptable(d.plugins, HardwareClass(d.hardware, items[0].id), items[0])
    ensures AllAcceptable(d.plugins, Replaced(d, items[0]).hardware, items[1..])
  {
    assert HardwareAfter(d.hardware, items, 0, items[0].id) == HardwareClass(d.hardware, items[0].id);
    forall k | 0 <= k < |items| - 1
      ensures Acceptable(d.plugins, HardwareAfter(Replaced(d, items[0]).hardware, items[1..], k, items[1..][k].id),
                         items[1..][k])
    {
      assert items[1..][k] == items[k + 1];
      HardwareShifts(d, items, k, items[k + 1].id);
    }
  }

  /**
   Reloading any list of items whose same-named members keep their kinds: no exception, a well-typed
   schema, every prior link exactly once in the schema or among the failed ones.
  */
  lemma {:induction false} ReloadKeepsTyped(d: Data, failed: seq<LinkItem>, items: seq<Hardware>)
    requires WellTyped(d) && AllAcceptable(d.plugins, d.hardware, items)
    ensures var r := LoadItems(d, failed, items);
      && !r.raised && WellTyped(r.data)
      && multiset(r.data.links) + multiset(r.failed) == multiset(d.links) + multiset(failed)
    decreases |items|
  {
    ReloadConserves(d, failed, items);
    if items == [] {
    } else {
      AcceptableShifts(d, items);
      ItemMeaning(d, failed, items);
      LoadItemKeepsTyped(d, failed, items[0]);
      var r := LoadItem(d, failed, items[0]);
      ReloadKeepsTyped(r.data, r.failed, items[1..]);
    }
  }

  /** A link from one hardware to another, and the reload that turns its source into an action. */
  function Sample(b: LinkBody, typ: NetType): Data {
    Data([], [],
         [Item(b.sourceComponent, [Attribute(b.sourceAttribute, typ)]),
          Item(b.destinationComponent, [Action(b.destinationAction, [typ])])],
         [Item(MakeId(b), b)])
  }

  function Changed(b: LinkBody): Hardware {
    Item(b.sourceComponent, [Action(b.sourceAttribute, [])])
  }

  lemma SampleReplaced(b: LinkBody, typ: NetType)
    requires b.sourceComponent != b.destinationComponent
    ensures Fits(Sample(b, typ), b)
    ensures Saved(Sample(b, typ), Changed(b)) == [Item(MakeId(b), b)]
    ensures Replaced(Sample(b, typ), Changed(b)).links == []
    ensures var e := Replaced(Sample(b, typ), Changed(b)); Clashes(Source(e, b), Destination(e, b))
  {
    var d := Sample(b, typ);
    var target := d.hardware[1];
    assert d.hardware[1..] == [target] && d.links[1..] == [];
    assert Touching(d.links, b.sourceComponent) == d.links + Touching([], b.sourceComponent) == d.links;
    assert Apart(d.links, b.sourceComponent) == [] + Apart([], b.sourceComponent) == [];
    assert RemoveFirst(d.hardware, d.hardware[0]) == [target];
    assert Replaced(d, Changed(b)).hardware == [target, Changed(b)];
    assert [target, Changed(b)][1..] == [Changed(b)];
  }

  /** Turning the attribute a link starts from into an action loses the link, when its action takes one argument. */
  lemma ChangedKindLosesLink(b: LinkBody, typ: NetType)
    requires b.sourceComponent != b.destinationComponent
    ensures Fits(Sample(b, typ), b)
    ensures var r := LoadItem(Sample(b, typ), [], Changed(b)); r.raised && r.data.links == [] && r.failed == []
  {
    SampleReplaced(b, typ);
  }

  // ---------------------------------------------------------------- every schema the designer reaches

  datatype Edit =
    | DrawLink(body: LinkBody)
    | NewPlugin(typ: PluginType, id: string)
    | DropPlugin(plugin: Plugin)
    | DropHardware(item: Hardware)
    | DropLink(link: LinkItem)
    | Reload(items: seq<Hardware>)

  /** Connections start at drawn attributes and end at drawn actions; components are picked from the schema. */
  ghost predicate Possible(d: Data, e: Edit) {
    match e
    case DrawLink(b) =>
      && Colonless(b)
      && Source(d, b).Some? && Source(d, b).value.Attribute?
      && Destination(d, b).Some? && Destination(d, b).value.Action?
    case NewPlugin(_, id) => Find(d.plugins, id).None? && Find(d.hardware, id).None?
    case DropPlugin(p) => p in d.plugins
    case DropHardware(h) => h in d.hardware
    case DropLink(l) => l in d.links
    case Reload(items) => AllAcceptable(d.plugins, d.hardware, items)
  }

  ghost function Edited(d: Data, e: Edit): Data {
    match e
    case DrawLink(b) =>
      if |Split(SourceId(b), ':')| >= 3 && |Split(TargetId(b), ':')| >= 3 then Draw(d, SourceId(b), TargetId(b)) else d
    case NewPlugin(typ, id) => d.(plugins := d.plugins + [Item(id, typ)])
    case DropPlugin(p) => WithoutPlugin(d, p)
    case DropHardware(h) => WithoutHardware(d, h)
    case DropLink(l) => d.(links := RemoveFirst(d.links, l))
    case Reload(items) => LoadItems(d, [], items).data
  }

  ghost function EditedBy(d: Data, edits: seq<Edit>): Data
    decreases |edits|
  {
    if edits == [] then d else EditedBy(Edited(d, edits[0]), edits[1..])
  }

  ghost predicate AllPossible(d: Data, edits: seq<Edit>)
    decreases |edits|
  {
    edits == [] || (Possible(d, edits[0]) && AllPossible(Edited(d, edits[0]), edits[1..]))
  }

  lemma EditKeepsTyped(d: Data, e: Edit)
    requires WellTyped(d) && Possible(d, e)
    ensures WellTyped(Edited(d, e))
  {
    match e
    case DrawLink(b) => DrawKeepsTyped(d, b);
    case NewPlugin(typ, id) => NewPluginKeepsTyped(d, typ, id);
    case DropPlugin(p) => DropPluginKeepsTyped(d, p);
    case DropHardware(h) => DropHardwareKeepsTyped(d, h);
    case DropLink(l) => DropLinkKeepsTyped(d, l);
    case Reload(items) => ReloadKeepsTyped(d, [], items);
  }

  /** Every edit in place does what it does to the value, so the designer's own schema stays well typed. */
  method Apply(designer: Designer, e: Edit)
    modifies designer
    ensures designer.Value() == Edited(old(designer.Value()), e)
    ensures WellTyped(old(designer.Value())) && Possible(old(designer.Value()), e) ==> WellTyped(designer.Value())
  {
    ghost var d := designer.Value();
    match e {
      case DrawLink(b) =>
        if |Split(SourceId(b), ':')| >= 3 && |Split(TargetId(b), ':')| >= 3 {
          designer.OnConnectionCreated(SourceId(b), TargetId(b));
        }
      case NewPlugin(typ, id) => designer.CreatePlugin(typ, id);
      case DropPlugin(p) => designer.DeletePlugin(p);
      case DropHardware(h) => designer.DeleteHardware(h);
      case DropLink(l) => designer.RemoveLink(l);
      case Reload(items) => var _, _ := designer.LoadHardware(items);
    }
    if WellTyped(d) && Possible(d, e) { EditKeepsTyped(d, e); }
  }

  lemma {:induction false} EditsKeepTyped(d: Data, edits: seq<Edit>)
    requires WellTyped(d) && AllPossible(d, edits)
    ensures WellTyped(EditedBy(d, edits))
    decreases |edits|
  {
    if edits == [] {
    } else {
      EditKeepsTyped(d, edits[0]);
      EditsKeepTyped(Edited(d, edits[0]), edits[1..]);
    }
  }

  /** Every schema reached from an empty one is well typed, and no two of its links join the same members. */
  lemma ReachableSchemas(pluginTypes: seq<PluginType>, edits: seq<Edit>)
    requires AllPossible(Data(pluginTypes, [], [], []), edits)
    ensures var d := EditedBy(Data(pluginTypes, [], [], []), edits);
      && WellTyped(d)
      && forall i, j :: 0 <= i < j < |d.links| ==> d.links[i].body != d.links[j].body
  {
    EditsKeepTyped(Data(pluginTypes, [], [], []), edits);
    var d := EditedBy(Data(pluginTypes, [], [], []), edits);
    forall i, j | 0 <= i < j < |d.links| ensures d.links[i].body != d.links[j].body { NoTwoAlike(d, i, j); }
  }
}
