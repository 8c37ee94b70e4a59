/**
 The designer's deployment: `doMerge` computes what to destroy and create between the
 configuration the core runs and the edited one, `apply` turns the plan into a task
 list and the core executes it request by request, stopping at the first refusal.
 */
module Deployment {
  import opened Text
  import opened Configuration
  import opened Core
  import opened CoreView
  import opened OrderedMap
  import Sequences

  datatype Merge<T> = Merge(destroy: seq<Item<T>>, create: seq<Item<T>>)
  datatype Plan = Plan(plugins: Merge<PluginBody>, hardware: Merge<HardwareBody>, links: Merge<LinkBody>)

  // ---------------------------------------------------------------- specification of the merge

  function Without<T(==)>(items: seq<T>, without: seq<T>): seq<T>
    decreases |items|
  {
    if items == [] then []
    else
      var last := items[|items| - 1];
      Without(items[..|items| - 1], without) + (if last in without then [] else [last])
  }

  function MergeOf<T(==)>(olds: seq<Item<T>>, news: seq<Item<T>>): Merge<T> {
    Merge(Without(olds, news), Without(news, olds))
  }

  predicate HasId<T>(items: seq<Item<T>>, id: string) {
    exists i :: 0 <= i < |items| && items[i].id == id
  }

  /** The re-creation test: the source is a destroyed hardware or the destination a destroyed plugin. */
  predicate Forced(plugins: seq<PluginItem>, hardware: seq<HardwareItem>, b: LinkBody) {
    HasId(hardware, b.sourceComponent) || HasId(plugins, b.destinationComponent)
  }

  /** The link merge after visiting the old links in order. */
  function WithForced(
    links: seq<LinkItem>, m: Merge<LinkBody>, plugins: seq<PluginItem>, hardware: seq<HardwareItem>): Merge<LinkBody>
    decreases |links|
  {
    if links == [] then m
    else
      var l := links[|links| - 1];
      var k := WithForced(links[..|links| - 1], m, plugins, hardware);
      if !HasId(k.destroy, l.id) && Forced(plugins, hardware, l.body) then Merge(k.destroy + [l], k.create + [l]) else k
  }

  function MergePlan(olds: Config, news: Config): Plan {
    var plugins := MergeOf(olds.plugins, news.plugins);
    var hardware := MergeOf(olds.hardware, news.hardware);
    Plan(plugins, hardware, WithForced(olds.links, MergeOf(olds.links, news.links), plugins.destroy, hardware.destroy))
  }

  // ---------------------------------------------------------------- the merge as the designer computes it

  method FindById<T>(items: seq<Item<T>>, id: string) returns (found: Option<Item<T>>)
    ensures found.Some? <==> HasId(items, id)
    ensures found.Some? ==> found.value in items && found.value.id == id
  {
    for i := 0 to |items|
      invariant forall j :: 0 <= j < i ==> items[j].id != id
    {
      if items[i].id == id {
        return Some(items[i]);
      }
    }
    return None;
  }

  method DeepExists<T(==)>(items: seq<T>, item: T) returns (found: bool)
    ensures found <==> item in items
  {
    for i := 0 to |items|
      invariant item !in items[..i]
    {
      if items[i] == item {
        return true;
      }
    }
    return false;
  }

  method DeepWithout<T(==)>(items: seq<T>, without: seq<T>) returns (ret: seq<T>)
    ensures ret == Without(items, without)
  {
    ret := [];
    for i := 0 to |items|
      invariant ret == Without(items[..i], without)
    {
      assert items[..i + 1][..i] == items[..i];
      var found := DeepExists(without, items[i]);
      if !found {
        ret := ret + [items[i]];
      }
    }
    assert items[..|items|] == items;
  }

  method MergeData<T(==)>(olds: seq<Item<T>>, news: seq<Item<T>>) returns (m: Merge<T>)
    ensures m == MergeOf(olds, news)
  {
    var destroy := DeepWithout(olds, news);
    var create := DeepWithout(news, olds);
    m := Merge(destroy, create);
  }

  method DoMerge(olds: Config, news: Config) returns (plan: Plan)
    ensures plan == MergePlan(olds, news)
  {
    var plugins := MergeData(olds.plugins, news.plugins);
    var hardware := MergeData(olds.hardware, news.hardware);
    var links := MergeData(olds.links, news.links);
    ghost var start := links;

    for i := 0 to |olds.links|
      invariant links == WithForced(olds.links[..i], start, plugins.destroy, hardware.destroy)
    {
      var link := olds.links[i];
      assert olds.links[..i + 1][..i] == olds.links[..i];
      var present := FindById(links.destroy, link.id);
      if present.None? {
        // the source tests the same two conditions a second time; the repetition cannot fire
        var source := FindById(hardware.destroy, link.body.sourceComponent);
        var destination := FindById(plugins.destroy, link.body.destinationComponent);
        if source.Some? {
          links := Merge(links.destroy + [link], links.create + [link]);
        } else if destination.Some? {
          links := Merge(links.destroy + [link], links.create + [link]);
        }
      }
    }
    assert olds.links[..|olds.links|] == olds.links;
    plan := Plan(plugins, hardware, links);
  }

  // ---------------------------------------------------------------- the list of tasks

  /** Tasks are stored under a key made of the kind of request and the item's id. */
  function TaskKey(op: Op): string {
    match op
    case AddPlugin(c) => "create:" + c.id
    case AddHardware(c) => "create:" + c.id
    case AddLink(c) => "create:" + c.id
    case RemovePlugin(id) => "destroy:" + id
    case RemoveHardware(id) => "destroy:" + id
    case RemoveLink(id) => "destroy:" + id
  }

  function Removals(p: Plan): seq<Op> {
    RemoveLinks(p.links.destroy) + RemovePlugins(p.plugins.destroy) + RemoveHardwares(p.hardware.destroy)
  }

  function Additions(p: Plan): seq<Op> {
    AddPlugins(p.plugins.create) + AddHardwares(p.hardware.create) + AddLinks(p.links.create)
  }

  /** The order in which `apply` registers the tasks. */
  function PlanOps(p: Plan): seq<Op> {
    Removals(p) + Additions(p)
  }

  /**
   `apply`: every operation is assigned to its key. Nothing is lost exactly when the keys are
   distinct; otherwise the last operation under a key takes the place of the first.
  */
  method TaskList(p: Plan) returns (tasks: seq<Op>)
    ensures tasks == Assigned(TaskKey, PlanOps(p))
    ensures tasks == PlanOps(p) <==> KeysDistinct(TaskKey, PlanOps(p))
    ensures KeysDistinct(TaskKey, tasks) && InOrder(TaskKey, PlanOps(p), tasks)
    ensures forall op :: op in tasks <==> IsLast(TaskKey, PlanOps(p), op)
  {
    var ops := PlanOps(p);
    tasks := [];
    for i := 0 to |ops|
      invariant tasks == Assigned(TaskKey, ops[..i])
    {
      assert ops[..i + 1][..i] == ops[..i];
      tasks := Assign(TaskKey, tasks, ops[i]);
    }
    assert ops[..|ops|] == ops;
    AssignedMeaning(TaskKey, ops);
    AllAssignedIff(TaskKey, ops);
  }

  // ---------------------------------------------------------------- well-formed configurations

  ghost predicate Component(c: Config, id: string) {
    HasId(c.plugins, id) || HasId(c.hardware, id)
  }

  /** Each id used once, components apart from each other and without bars, links under the ids of their fields. */
  ghost predicate WellFormed(c: Config) {
    && DistinctIds(c.plugins) && DistinctIds(c.hardware) && DistinctIds(c.links)
    && (forall id :: HasId(c.plugins, id) ==> !HasId(c.hardware, id) && '|' !in id)
    && (forall id :: HasId(c.hardware, id) ==> '|' !in id)
    && (forall l :: l in c.links ==> l.id == MakeId(l.body))
  }

  ghost predicate Ended(c: Config, l: LinkItem) {
    Component(c, l.body.sourceComponent) && Component(c, l.body.destinationComponent)
  }

  /** Every link joins components of the configuration. */
  ghost predicate EndsKnown(c: Config) {
    forall l :: l in c.links ==> Ended(c, l)
  }

  ghost predicate TypesKnown(c: Config, types: set<string>) {
    forall p :: p in c.plugins ==> p.body.typ in types
  }

  /** The listings are exactly the configuration. */
  ghost predicate Represents(v: View, c: Config) {
    Holds(v.plugins, c.plugins) && Holds(v.hardware, c.hardware) && Holds(v.links, c.links)
  }

  // ---------------------------------------------------------------- what the plan contains

  lemma {:induction false} WithoutContents<T>(items: seq<T>, without: seq<T>)
    ensures forall x :: x in Without(items, without) ==> x in items && x !in without
    ensures forall x :: x in items && x !in without ==> x in Without(items, without)
    decreases |items|
  {
    if items == [] {
    } else {
      var front := items[..|items| - 1];
      WithoutContents(front, without);
      assert forall x :: x in items <==> x in front || x == items[|items| - 1];
    }
  }

  lemma {:induction false} WithoutConcat<T>(before: seq<T>, behind: seq<T>, without: seq<T>)
    ensures Without(before + behind, without) == Without(before, without) + Without(behind, without)
    decreases |behind|
  {
    if behind == [] {
      assert before + behind == before;
    } else {
      var items := before + behind;
      assert items[..|items| - 1] == before + behind[..|behind| - 1];
      WithoutConcat(before, behind[..|behind| - 1], without);
    }
  }

  /** An item the other list lacks stands behind what is left of the items before it. */
  lemma WithoutAt<T>(items: seq<T>, without: seq<T>, i: nat)
    requires i < |items| && items[i] !in without
    ensures Without(items[..i], without) + [items[i]] <= Without(items, without)
  {
    assert items == items[..i + 1] + items[i + 1..] && items[..i + 1][..i] == items[..i];
    WithoutConcat(items[..i + 1], items[i + 1..], without);
  }

  /** Of the items at two places that the other list lacks, the earlier comes first in the difference. */
  lemma WithoutInOrder<T>(items: seq<T>, without: seq<T>, i: nat, j: nat)
    requires i < j < |items| && items[i] !in without && items[j] !in without
    ensures Sequences.Precedes(Without(items, without), items[i], items[j])
  {
    WithoutAt(items, without, j);
    WithoutAt(items[..j], without, i);
    assert items[..j][..i] == items[..i];
    var (kept, a, b) := (Without(items, without), |Without(items[..i], without)|, |Without(items[..j], without)|);
    assert kept[a] == Without(items[..j], without)[a] == items[i] && kept[b] == items[j];
  }

  lemma {:induction false} WithoutDistinct<T>(items: seq<Item<T>>, without: seq<Item<T>>)
    requires DistinctIds(items)
    ensures DistinctIds(Without(items, without))
    decreases |items|
  {
    if items == [] {
    } else {
      var front := items[..|items| - 1];
      var kept := Without(front, without);
      WithoutDistinct(front, without);
      WithoutContents(front, without);
      forall i | 0 <= i < |kept| ensures kept[i].id != items[|items| - 1].id {
        var x := kept[i];
        assert x in kept;
        assert x in front;
      }
    }
  }

  lemma SameIdSameItem<T>(items: seq<Item<T>>, x: Item<T>, y: Item<T>)
    requires DistinctIds(items) && x in items && y in items && x.id == y.id
    ensures x == y
  {
  }

  /** The old links that the plan destroys and creates again. */
  ghost predicate Redone(m: Merge<LinkBody>, plugins: seq<PluginItem>, hardware: seq<HardwareItem>, l: LinkItem) {
    !HasId(m.destroy, l.id) && Forced(plugins, hardware, l.body)
  }

  lemma SameIdKnown<T>(k: seq<Item<T>>, m: seq<Item<T>>, front: seq<Item<T>>, id: string)
    requires forall x :: x in k ==> x in m || x in front
    requires forall x :: x in m ==> x in k
    requires forall x :: x in front ==> x.id != id
    ensures HasId(k, id) <==> HasId(m, id)
  {
    if HasId(k, id) {
      var i :| 0 <= i < |k| && k[i].id == id;
      assert k[i] in k;
      assert k[i] in m;
    }
    if HasId(m, id) {
      var i :| 0 <= i < |m| && m[i].id == id;
      assert m[i] in m;
      assert m[i] in k;
    }
  }

  lemma DistinctSnoc<T>(items: seq<Item<T>>, x: Item<T>)
    requires DistinctIds(items) && !HasId(items, x.id)
    ensures DistinctIds(items + [x])
    ensures forall y :: y in items + [x] <==> y in items || y == x
  {
  }

  lemma {:induction false} WithForcedContents(
    links: seq<LinkItem>, m: Merge<LinkBody>, plugins: seq<PluginItem>, hardware: seq<HardwareItem>)
    requires DistinctIds(links) && DistinctIds(m.destroy) && DistinctIds(m.create)
    requires forall l :: l in links && HasId(m.create, l.id) ==> HasId(m.destroy, l.id)
    ensures var r := WithForced(links, m, plugins, hardware);
      && DistinctIds(r.destroy) && DistinctIds(r.create)
      && (forall l :: l in r.destroy <==> l in m.destroy || (l in links && Redone(m, plugins, hardware, l)))
      && (forall l :: l in r.create <==> l in m.create || (l in links && Redone(m, plugins, hardware, l)))
    decreases |links|
  {
    if links == [] {
    } else {
      var front := links[..|links| - 1];
      var last := links[|links| - 1];
      var k := WithForced(front, m, plugins, hardware);
      assert forall l :: l in links <==> l in front || l == last;
      assert forall l :: l in front ==> l.id != last.id;
      WithForcedContents(front, m, plugins, hardware);
      SameIdKnown(k.destroy, m.destroy, front, last.id);
      SameIdKnown(k.create, m.create, front, last.id);
      if Redone(m, plugins, hardware, last) {
        DistinctSnoc(k.destroy, last);
        DistinctSnoc(k.create, last);
      }
    }
  }

  /** The links done again stand behind both lists, in the order of the old links. */
  lemma {:induction false} ForcedBehind(
    links: seq<LinkItem>, m: Merge<LinkBody>, plugins: seq<PluginItem>, hardware: seq<HardwareItem>)
    returns (redone: seq<LinkItem>)
    ensures WithForced(links, m, plugins, hardware) == Merge(m.destroy + redone, m.create + redone)
    ensures forall l :: l in redone ==> l in links
    ensures forall i, j :: 0 <= i < j < |redone| ==> Sequences.Precedes(links, redone[i], redone[j])
    decreases |links|
  {
    redone := [];
    if links == [] {
    } else {
      var (front, last) := (links[..|links| - 1], links[|links| - 1]);
      var before := ForcedBehind(front, m, plugins, hardware);
      forall i, j | 0 <= i < j < |before| ensures Sequences.Precedes(links, before[i], before[j]) {
        assert Sequences.Precedes(front, before[i], before[j]);
        var a, b :| 0 <= a < b < |front| && front[a] == before[i] && front[b] == before[j];
        assert links[a] == before[i] && links[b] == before[j];
      }
      forall i | 0 <= i < |before| ensures Sequences.Precedes(links, before[i], last) {
        assert before[i] in before;
        var a :| 0 <= a < |front| && front[a] == before[i];
        assert links[a] == before[i] && links[|links| - 1] == last;
      }
      var done := WithForced(links, m, plugins, hardware).destroy == m.destroy + before;
      redone := if done then before else before + [last];
      assert m.destroy + before + [last] == m.destroy + (before + [last]);
      assert m.create + before + [last] == m.create + (before + [last]);
    }
  }

  // ---------------------------------------------------------------- which plans go through

  ghost predicate PluginGone(olds: Config, news: Config, id: string) {
    HasId(Without(olds.plugins, news.plugins), id)
  }

  ghost predicate HardwareGone(olds: Config, news: Config, id: string) {
    HasId(Without(olds.hardware, news.hardware), id)
  }

  ghost predicate Redo(olds: Config, news: Config, b: LinkBody) {
    Forced(Without(olds.plugins, news.plugins), Without(olds.hardware, news.hardware), b)
  }

  /** An unchanged link the plan neither removes nor may leave in place. */
  ghost predicate Hangs(olds: Config, news: Config, b: LinkBody) {
    && (PluginGone(olds, news, b.sourceComponent) || HardwareGone(olds, news, b.destinationComponent))
    && !HardwareGone(olds, news, b.sourceComponent)
    && !PluginGone(olds, news, b.destinationComponent)
  }

  /** The links the plan leaves untouched. */
  ghost predicate Kept(olds: Config, news: Config, l: LinkItem) {
    l in olds.links && l in news.links && !Redo(olds, news, l.body)
  }

  ghost predicate Deployable(olds: Config, news: Config) {
    forall l :: l in olds.links && l in news.links ==> !Hangs(olds, news, l.body)
  }

  lemma LinkPlanContents(olds: Config, news: Config)
    requires WellFormed(olds) && WellFormed(news)
    ensures var m := MergePlan(olds, news).links;
      && DistinctIds(m.destroy) && DistinctIds(m.create)
      && (forall l :: l in m.destroy <==> l in olds.links && (l !in news.links || Redo(olds, news, l.body)))
      && (forall l :: l in m.create <==> l in news.links && (l !in olds.links || Redo(olds, news, l.body)))
  {
    var m := MergeOf(olds.links, news.links);
    WithoutContents(olds.links, news.links);
    WithoutContents(news.links, olds.links);
    WithoutDistinct(olds.links, news.links);
    WithoutDistinct(news.links, olds.links);
    forall l | l in olds.links ensures HasId(m.destroy, l.id) <==> l !in news.links {
      if HasId(m.destroy, l.id) {
        var i :| 0 <= i < |m.destroy| && m.destroy[i].id == l.id;
        assert m.destroy[i] in m.destroy;
        SameIdSameItem(olds.links, l, m.destroy[i]);
      }
    }
    forall l | l in olds.links && HasId(m.create, l.id) ensures HasId(m.destroy, l.id) {
      var i :| 0 <= i < |m.create| && m.create[i].id == l.id;
      assert m.create[i] in m.create;
      if l in news.links { SameIdSameItem(news.links, l, m.create[i]); }
    }
    WithForcedContents(olds.links, m, Without(olds.plugins, news.plugins), Without(olds.hardware, news.hardware));
  }

  lemma HasIdIn<T>(items: seq<Item<T>>, id: string)
    ensures HasId(items, id) <==> exists x :: x in items && x.id == id
  {
    if HasId(items, id) {
      var i :| 0 <= i < |items| && items[i].id == id;
      assert items[i] in items;
    }
  }

  /** Some item to be removed is linked, as a statement about the remaining links. */
  lemma AnyLinked<T(!new)>(v: View, gone: seq<Item<T>>)
    requires Keyed(v.links)
    ensures (exists x :: x in gone && Linked(v, x.id)) <==>
      exists l: LinkItem :: Has(v.links, l) &&
        (HasId(gone, l.body.sourceComponent) || HasId(gone, l.body.destinationComponent))
  {
    if exists x :: x in gone && Linked(v, x.id) {
      var x :| x in gone && Linked(v, x.id);
      var k :| k in v.links && v.links[k].body.Touches(x.id);
      HasIdIn(gone, x.id);
      assert Has(v.links, v.links[k]);
    }
    if l: LinkItem :|
      Has(v.links, l) && (HasId(gone, l.body.sourceComponent) || HasId(gone, l.body.destinationComponent))
    {
      HasIdIn(gone, l.body.sourceComponent);
      HasIdIn(gone, l.body.destinationComponent);
      var x :| x in gone && (x.id == l.body.sourceComponent || x.id == l.body.destinationComponent);
      assert v.links[l.id].body.Touches(x.id);
    }
  }

  /** What is left once the plan's removals went through. */
  ghost predicate Remaining(w: View, olds: Config, news: Config) {
    && Keyed(w.plugins) && Keyed(w.hardware) && Keyed(w.links)
    && (forall x: PluginItem :: Has(w.plugins, x) <==> x in olds.plugins && x in news.plugins)
    && (forall x: HardwareItem :: Has(w.hardware, x) <==> x in olds.hardware && x in news.hardware)
    && (forall l: LinkItem :: Has(w.links, l) <==> Kept(olds, news, l))
  }

  lemma RemoveLinkPhase(v: View, olds: Config, news: Config)
    requires WellFormed(olds) && WellFormed(news) && Represents(v, olds)
    ensures var gone := MergePlan(olds, news).links.destroy; var w := v.(links := RemoveAll(v.links, gone));
      && KindsApart(v, RemoveLinks(gone)) && AfterAll(v, RemoveLinks(gone)) == Some(w)
      && Keyed(w.links)
      && forall l: LinkItem :: Has(w.links, l) <==> Kept(olds, news, l)
  {
    var gone := MergePlan(olds, news).links.destroy;
    LinkPlanContents(olds, news);
    assert forall l :: l in gone ==> Has(v.links, l);
    RemoveLinksSucceeds(v, gone);
    HasRemoveAll(v.links, gone);
  }

  lemma PluginRemovals(v: View, olds: Config, news: Config)
    requires WellFormed(olds) && Keyed(v.links) && Holds(v.plugins, olds.plugins)
    requires forall l: LinkItem :: Has(v.links, l) <==> Kept(olds, news, l)
    ensures var gone := Without(olds.plugins, news.plugins); var w := v.(plugins := RemoveAll(v.plugins, gone));
      && KindsApart(v, RemovePlugins(gone))
      && (AfterAll(v, RemovePlugins(gone)) == None || AfterAll(v, RemovePlugins(gone)) == Some(w))
      && (AfterAll(v, RemovePlugins(gone)).Some? <==> (forall l :: Kept(olds, news, l) ==>
        !PluginGone(olds, news, l.body.sourceComponent)))
      && Keyed(w.plugins)
      && (forall x: PluginItem :: Has(w.plugins, x) <==> x in olds.plugins && x in news.plugins)
  {
    var gone := Without(olds.plugins, news.plugins);
    WithoutContents(olds.plugins, news.plugins);
    WithoutDistinct(olds.plugins, news.plugins);
    assert forall x :: x in gone ==> Has(v.plugins, x);
    RemovePluginsIff(v, gone);
    HasRemoveAll(v.plugins, gone);
    AnyLinked(v, gone);
  }

  lemma HardwareRemovals(v: View, olds: Config, news: Config)
    requires WellFormed(olds) && Keyed(v.links) && Holds(v.hardware, olds.hardware)
    requires forall l: LinkItem :: Has(v.links, l) <==> Kept(olds, news, l)
    ensures var gone := Without(olds.hardware, news.hardware); var w := v.(hardware := RemoveAll(v.hardware, gone));
      && KindsApart(v, RemoveHardwares(gone))
      && (AfterAll(v, RemoveHardwares(gone)) == None || AfterAll(v, RemoveHardwares(gone)) == Some(w))
      && (AfterAll(v, RemoveHardwares(gone)).Some? <==> (forall l :: Kept(olds, news, l) ==>
        !HardwareGone(olds, news, l.body.destinationComponent)))
      && Keyed(w.hardware)
      && (forall x: HardwareItem :: Has(w.hardware, x) <==> x in olds.hardware && x in news.hardware)
  {
    var gone := Without(olds.hardware, news.hardware);
    WithoutContents(olds.hardware, news.hardware);
    WithoutDistinct(olds.hardware, news.hardware);
    assert forall x :: x in gone ==> Has(v.hardware, x);
    RemoveHardwaresIff(v, gone);
    HasRemoveAll(v.hardware, gone);
    AnyLinked(v, gone);
  }

  lemma DeployableByEnds(olds: Config, news: Config)
    ensures Deployable(olds, news) <==>
      && (forall l :: Kept(olds, news, l) ==> !PluginGone(olds, news, l.body.sourceComponent))
      && (forall l :: Kept(olds, news, l) ==> !HardwareGone(olds, news, l.body.destinationComponent))
  {
    if Deployable(olds, news) {
      forall l | Kept(olds, news, l)
        ensures !PluginGone(olds, news, l.body.sourceComponent) &&
          !HardwareGone(olds, news, l.body.destinationComponent)
      {
        assert !Hangs(olds, news, l.body);
      }
    }
    if !Deployable(olds, news) {
      var l :| l in olds.links && l in news.links && Hangs(olds, news, l.body);
      assert Kept(olds, news, l);
    }
  }

  /** The plan's removals, and the exact condition under which all of them are accepted. */
  lemma RemovalPhase(v: View, olds: Config, news: Config)
    requires WellFormed(olds) && WellFormed(news) && Represents(v, olds)
    ensures var ops := Removals(MergePlan(olds, news));
      && KindsApart(v, ops)
      && (AfterAll(v, ops).Some? <==> Deployable(olds, news))
      && (AfterAll(v, ops).Some? ==>
        Remaining(AfterAll(v, ops).value, olds, news) && AfterAll(v, ops).value.types == v.types)
  {
    var p := MergePlan(olds, news);
    var (rl, rp, rh) := (RemoveLinks(p.links.destroy), RemovePlugins(p.plugins.destroy),
      RemoveHardwares(p.hardware.destroy));
    RemoveLinkPhase(v, olds, news);
    var v1 := v.(links := RemoveAll(v.links, p.links.destroy));
    PluginRemovals(v1, olds, news);
    var v2 := v1.(plugins := RemoveAll(v1.plugins, p.plugins.destroy));
    HardwareRemovals(v2, olds, news);
    DeployableByEnds(olds, news);
    AfterAllConcat(v, rl, rp);
    AfterAllConcat(v, rl + rp, rh);
  }

  lemma NewIds<T(!new)>(m: map<string, Item<T>>, olds: seq<Item<T>>, news: seq<Item<T>>)
    requires DistinctIds(news) && Keyed(m) && forall x: Item<T> :: Has(m, x) ==> x in olds && x in news
    ensures forall x :: x in news && x !in olds ==> x.id !in m
  {
    forall x | x in news && x !in olds ensures x.id !in m {
      if x.id in m {
        assert Has(m, m[x.id]);
        SameIdSameItem(news, x, m[x.id]);
      }
    }
  }

  lemma HeldIds<T(!new)>(m: map<string, Item<T>>, news: seq<Item<T>>, id: string)
    requires Keyed(m)
    ensures (forall x: Item<T> :: Has(m, x) ==> x in news) && id in m ==> HasId(news, id)
    ensures (forall x: Item<T> :: x in news ==> Has(m, x)) && HasId(news, id) ==> id in m
  {
    HasIdIn(news, id);
    if id in m { assert Has(m, m[id]); }
  }

  /** Adding what is new to what is common leaves exactly the new items. */
  lemma CompleteOne<T(!new)>(m: map<string, Item<T>>, olds: seq<Item<T>>, news: seq<Item<T>>)
    requires DistinctIds(news) && Keyed(m) && forall x: Item<T> :: Has(m, x) <==> x in olds && x in news
    ensures var more := Without(news, olds);
      DistinctIds(more) && (forall x :: x in more ==> x in news && x.id !in m) && Holds(AddAll(m, more), news)
  {
    WithoutContents(news, olds);
    WithoutDistinct(news, olds);
    NewIds(m, olds, news);
    HasAddAll(m, Without(news, olds));
  }

  /** The plugins the plan adds have known types exactly when the new configuration does. */
  lemma NewTypesKnown(olds: Config, news: Config, types: set<string>)
    requires TypesKnown(olds, types)
    ensures (forall x :: x in Without(news.plugins, olds.plugins) ==> x.body.typ in types) <==> TypesKnown(news, types)
  {
    WithoutContents(news.plugins, olds.plugins);
  }

  lemma PluginAdditions(w: View, olds: Config, news: Config)
    requires WellFormed(news) && Remaining(w, olds, news) && TypesKnown(olds, w.types)
    ensures var cp := Without(news.plugins, olds.plugins); var u := w.(plugins := AddAll(w.plugins, cp));
      && KindsApart(w, AddPlugins(cp))
      && AfterAll(w, AddPlugins(cp)) == (if TypesKnown(news, w.types) then Some(u) else None)
      && Holds(u.plugins, news.plugins)
  {
    var cp := Without(news.plugins, olds.plugins);
    CompleteOne(w.plugins, olds.plugins, news.plugins);
    NewTypesKnown(olds, news, w.types);
    forall x | x in cp ensures x.id !in w.hardware {
      HasIdIn(news.plugins, x.id);
      HeldIds(w.hardware, news.hardware, x.id);
    }
    AddPluginsIff(w, cp);
  }

  lemma HardwareAdditions(u: View, olds: Config, news: Config)
    requires WellFormed(news) && Keyed(u.hardware) && Holds(u.plugins, news.plugins)
    requires forall x: HardwareItem :: Has(u.hardware, x) <==> x in olds.hardware && x in news.hardware
    ensures var ch := Without(news.hardware, olds.hardware); var t := u.(hardware := AddAll(u.hardware, ch));
      && KindsApart(u, AddHardwares(ch)) && AfterAll(u, AddHardwares(ch)) == Some(t)
      && Holds(t.hardware, news.hardware)
  {
    var ch := Without(news.hardware, olds.hardware);
    CompleteOne(u.hardware, olds.hardware, news.hardware);
    forall x | x in ch ensures x.id !in u.plugins {
      HasIdIn(news.hardware, x.id);
      HeldIds(u.plugins, news.plugins, x.id);
    }
    AddHardwaresSucceeds(u, ch);
  }

  lemma LinkAdditions(u: View, olds: Config, news: Config)
    requires WellFormed(olds) && WellFormed(news) && EndsKnown(olds) && Deployable(olds, news)
    requires Holds(u.plugins, news.plugins) && Holds(u.hardware, news.hardware)
    requires Keyed(u.links) && forall l: LinkItem :: Has(u.links, l) <==> Kept(olds, news, l)
    ensures var cl := MergePlan(olds, news).links.create; var t := u.(links := AddAll(u.links, cl));
      && KindsApart(u, AddLinks(cl))
      && AfterAll(u, AddLinks(cl)) == (if EndsKnown(news) then Some(t) else None)
      && Holds(t.links, news.links)
  {
    var cl := MergePlan(olds, news).links.create;
    LinkPlanContents(olds, news);
    forall l | l in cl ensures l.id !in u.links {
      if l.id in u.links {
        assert Has(u.links, u.links[l.id]);
        SameIdSameItem(news.links, l, u.links[l.id]);
      }
    }
    forall l: LinkItem ensures EndsIn(u, l) <==> Ended(news, l) { HeldEnds(u, news, l); }
    assert EndsKnown(news) <==> forall l :: l in cl ==> EndsIn(u, l) by {
      forall l | l in news.links && l !in cl ensures Ended(news, l) { KeptIsEnded(olds, news, l); }
    }
    AddLinksIff(u, cl);
    HasAddAll(u.links, cl);
  }

  lemma HeldEnds(u: View, c: Config, l: LinkItem)
    requires Holds(u.plugins, c.plugins) && Holds(u.hardware, c.hardware)
    ensures EndsIn(u, l) <==> Ended(c, l)
  {
    HeldIds(u.plugins, c.plugins, l.body.sourceComponent);
    HeldIds(u.hardware, c.hardware, l.body.sourceComponent);
    HeldIds(u.plugins, c.plugins, l.body.destinationComponent);
    HeldIds(u.hardware, c.hardware, l.body.destinationComponent);
  }

  /** A component that does not go is in the new configuration. */
  lemma StayingComponent<T>(olds: seq<Item<T>>, news: seq<Item<T>>, id: string)
    requires HasId(olds, id) && !HasId(Without(olds, news), id)
    ensures HasId(news, id)
  {
    WithoutContents(olds, news);
    HasIdIn(olds, id);
    HasIdIn(Without(olds, news), id);
    HasIdIn(news, id);
  }

  /** The links that stay when nothing hangs lose neither end. */
  lemma KeptIsEnded(olds: Config, news: Config, l: LinkItem)
    requires Deployable(olds, news) && EndsKnown(olds) && Kept(olds, news, l)
    ensures Ended(news, l)
  {
    assert !Hangs(olds, news, l.body) && Ended(olds, l);
    var (a, b) := (l.body.sourceComponent, l.body.destinationComponent);
    if HasId(olds.plugins, a) { StayingComponent(olds.plugins, news.plugins, a); }
    if HasId(olds.hardware, a) { StayingComponent(olds.hardware, news.hardware, a); }
    if HasId(olds.plugins, b) { StayingComponent(olds.plugins, news.plugins, b); }
    if HasId(olds.hardware, b) { StayingComponent(olds.hardware, news.hardware, b); }
  }

  /** What makes a deployment go through. */
  ghost predicate Accepted(olds: Config, news: Config, types: set<string>) {
    Deployable(olds, news) && TypesKnown(news, types) && EndsKnown(news)
  }

  // ---------------------------------------------------------------- what a refused plan leaves

  /**
   Nothing the new configuration shares with the old one is gone. When a link hangs nothing was
   created. Otherwise, when a type is unknown, everything that had to go is gone and at most plugins
   were created. Otherwise a link has no end: all components are in place and some links were added.
  */
  ghost predicate Leftover(t: View, olds: Config, news: Config) {
    && (forall x :: x in olds.plugins && x in news.plugins ==> Has(t.plugins, x))
    && (forall x :: x in olds.hardware && x in news.hardware ==> Has(t.hardware, x))
    && (forall l: LinkItem :: Kept(olds, news, l) ==> Has(t.links, l))
    && if !Deployable(olds, news) then
         && (forall l: LinkItem :: Has(t.links, l) ==> Kept(olds, news, l))
         && (forall x: PluginItem :: Has(t.plugins, x) ==> x in olds.plugins)
         && (forall x: HardwareItem :: Has(t.hardware, x) ==> x in olds.hardware)
       else if !TypesKnown(news, t.types) then
         && (forall l: LinkItem :: Has(t.links, l) ==> Kept(olds, news, l))
         && (forall x: PluginItem :: Has(t.plugins, x) ==> x in news.plugins)
         && (forall x: HardwareItem :: Has(t.hardware, x) ==> x in olds.hardware && x in news.hardware)
       else
         && Holds(t.plugins, news.plugins) && Holds(t.hardware, news.hardware)
         && (forall l: LinkItem :: Has(t.links, l) ==> l in news.links)
  }

  /** Nothing that stays has the id of something that goes. */
  lemma StayingIds<T>(olds: seq<Item<T>>, news: seq<Item<T>>)
    requires DistinctIds(olds)
    ensures forall x, y :: x in olds && x in news && y in Without(olds, news) ==> y.id != x.id
  {
    WithoutContents(olds, news);
    forall x, y | x in olds && x in news && y in Without(olds, news) ensures y.id != x.id {
      if y.id == x.id { SameIdSameItem(olds, x, y); }
    }
  }

  lemma RefusedRemovals(v: View, olds: Config, news: Config)
    requires WellFormed(olds) && WellFormed(news) && Represents(v, olds) && !Deployable(olds, news)
    ensures AfterAll(v, Removals(MergePlan(olds, news))).None?
    ensures Leftover(Stopped(v, Removals(MergePlan(olds, news))), olds, news)
  {
    var p := MergePlan(olds, news);
    var (rl, rp, rh) := (RemoveLinks(p.links.destroy), RemovePlugins(p.plugins.destroy),
      RemoveHardwares(p.hardware.destroy));
    RemovalPhase(v, olds, news);
    RemoveLinkPhase(v, olds, news);
    var v1 := v.(links := RemoveAll(v.links, p.links.destroy));
    PluginRemovals(v1, olds, news);
    StoppedRemovingPlugins(v1, p.plugins.destroy);
    StayingIds(olds.plugins, news.plugins);
    StayingIds(olds.hardware, news.hardware);
    AfterAllConcat(v, rl, rp);
    AfterAllConcat(v, rl + rp, rh);
    if AfterAll(v1, rp).Some? {
      StoppedAtEnd(v1, rp);
      var v2 := AfterAll(v1, rp).value;
      StoppedRemovingHardwares(v2, p.hardware.destroy);
    }
  }

  lemma RefusedPlugins(w: View, olds: Config, news: Config)
    requires WellFormed(news) && Remaining(w, olds, news) && Deployable(olds, news) && !TypesKnown(news, w.types)
    ensures Leftover(Stopped(w, AddPlugins(MergePlan(olds, news).plugins.create)), olds, news)
  {
    WithoutContents(news.plugins, olds.plugins);
    StoppedAddingPlugins(w, Without(news.plugins, olds.plugins));
  }

  lemma RefusedLinks(u: View, olds: Config, news: Config)
    requires WellFormed(olds) && WellFormed(news) && Deployable(olds, news) && TypesKnown(news, u.types)
    requires Holds(u.plugins, news.plugins) && Holds(u.hardware, news.hardware)
    requires forall l: LinkItem :: Has(u.links, l) <==> Kept(olds, news, l)
    ensures Leftover(Stopped(u, AddLinks(MergePlan(olds, news).links.create)), olds, news)
  {
    LinkPlanContents(olds, news);
    StoppedAddingLinks(u, MergePlan(olds, news).links.create);
  }

  /**
   The plan's additions go through exactly when all types and all ends of links are known, and then
   complete the configuration.
  */
  lemma AdditionPhase(w: View, olds: Config, news: Config)
    requires WellFormed(olds) && WellFormed(news) && EndsKnown(olds) && TypesKnown(olds, w.types)
    requires Remaining(w, olds, news) && Deployable(olds, news)
    ensures var ops := Additions(MergePlan(olds, news));
      && KindsApart(w, ops)
      && (AfterAll(w, ops).Some? <==> TypesKnown(news, w.types) && EndsKnown(news))
      && (AfterAll(w, ops).Some? ==> Represents(AfterAll(w, ops).value, news))
      && (AfterAll(w, ops).None? ==> Leftover(Stopped(w, ops), olds, news))
  {
    var p := MergePlan(olds, news);
    var (ap, ah, al) := (AddPlugins(p.plugins.create), AddHardwares(p.hardware.create), AddLinks(p.links.create));
    PluginAdditions(w, olds, news);
    AfterAllConcat(w, ap, ah);
    AfterAllConcat(w, ap + ah, al);
    if TypesKnown(news, w.types) {
      var u := AfterAll(w, ap).value;
      HardwareAdditions(u, olds, news);
      LinkAdditions(AfterAll(u, ah).value, olds, news);
      RefusedLinks(AfterAll(u, ah).value, olds, news);
    } else {
      RefusedPlugins(w, olds, news);
    }
  }

  /**
   On the listings: the plan goes through exactly when no unchanged link hangs and all types and
   ends of links are known, and then yields the new configuration.
  */
  lemma PlanIff(v: View, olds: Config, news: Config)
    requires WellFormed(olds) && WellFormed(news) && EndsKnown(olds)
    requires Represents(v, olds) && TypesKnown(olds, v.types)
    ensures var ops := PlanOps(MergePlan(olds, news));
      && KindsApart(v, ops)
      && (AfterAll(v, ops).Some? <==> Accepted(olds, news, v.types))
      && (AfterAll(v, ops).Some? ==> Represents(AfterAll(v, ops).value, news))
      && (AfterAll(v, ops).None? ==> Leftover(Stopped(v, ops), olds, news))
  {
    var p := MergePlan(olds, news);
    RemovalPhase(v, olds, news);
    AfterAllConcat(v, Removals(p), Additions(p));
    if Deployable(olds, news) {
      AdditionPhase(AfterAll(v, Removals(p)).value, olds, news);
    } else {
      RefusedRemovals(v, olds, news);
    }
  }

  // ---------------------------------------------------------------- the deployment theorem

  /** The three listings of the core, each component once, with the ids the designer uses. */
  ghost predicate Listing(v: View, c: Config) {
    && Represents(v, c)
    && DistinctIds(c.plugins) && DistinctIds(c.hardware) && DistinctIds(c.links)
    && forall id :: Component(c, id) ==> '|' !in id
  }

  lemma ListingIsWellFormed(s: State, c: Config)
    requires Inv(s) && Listing(ViewOf(s), c)
    ensures WellFormed(c) && EndsKnown(c)
  {
    var v := ViewOf(s);
    forall id | HasId(c.plugins, id) ensures !HasId(c.hardware, id) {
      HeldIds(v.plugins, c.plugins, id);
      HeldIds(v.hardware, c.hardware, id);
    }
    forall l | l in c.links ensures l.id == MakeId(l.body) && Ended(c, l) {
      assert Has(v.links, l);
      assert l.id in s.links && s.links[l.id].config == l.body;
      assert l.body.sourceComponent in s.repository.Keys && l.body.destinationComponent in s.repository.Keys;
      HeldEnds(v, c, l);
    }
  }

  /** What runs has a known type. */
  lemma RunningTypesKnown(s: State, c: Config)
    requires Inv(s) && Represents(ViewOf(s), c)
    ensures TypesKnown(c, s.types)
  {
    forall p | p in c.plugins ensures p.body.typ in s.types { assert Has(ViewOf(s).plugins, p); }
  }

  /**
   Deploying an edited configuration on the core that runs the old one goes through exactly when
   no unchanged link hangs, the core knows every plugin type and no link is without an end; then the
   core runs exactly the new configuration. Either way the core's invariant holds afterwards.
  */
  lemma DeployIff(s: State, olds: Config, news: Config)
    requires Inv(s) && Listing(ViewOf(s), olds) && WellFormed(news)
    ensures var (t, ok) := Series(s, PlanOps(MergePlan(olds, news)));
      && Inv(t)
      && (ok <==> Accepted(olds, news, s.types))
      && (ok ==> Represents(ViewOf(t), news))
  {
    var ops := PlanOps(MergePlan(olds, news));
    ListingIsWellFormed(s, olds);
    RunningTypesKnown(s, olds);
    PlanIff(ViewOf(s), olds, news);
    SeriesRefines(s, ops);
    if AfterAll(ViewOf(s), ops).Some? { StoppedAtEnd(ViewOf(s), ops); }
  }

  /** What the core runs after a deployment that was refused. */
  lemma RefusedDeploymentLeaves(s: State, olds: Config, news: Config)
    requires Inv(s) && Listing(ViewOf(s), olds) && WellFormed(news)
    requires !Series(s, PlanOps(MergePlan(olds, news))).1
    ensures Leftover(ViewOf(Series(s, PlanOps(MergePlan(olds, news))).0), olds, news)
  {
    ListingIsWellFormed(s, olds);
    RunningTypesKnown(s, olds);
    PlanIff(ViewOf(s), olds, news);
    SeriesRefines(s, PlanOps(MergePlan(olds, news)));
  }

  /** What goes from a part of the old components would go from all of them. */
  lemma PartGoes<T>(part: seq<Item<T>>, olds: seq<Item<T>>, news: seq<Item<T>>, id: string)
    requires forall x :: x in part ==> x in olds
    ensures HasId(Without(part, news), id) ==> HasId(Without(olds, news), id)
    ensures (exists x :: x in part && x.id == id && x !in news) ==> HasId(Without(part, news), id)
  {
    WithoutContents(part, news);
    WithoutContents(olds, news);
    HasIdIn(Without(part, news), id);
    HasIdIn(Without(olds, news), id);
  }

  /** A component that has to go and still has a link is still the old one. */
  lemma StillThere<T(!new), U(!new)>(
    running: map<string, Item<T>>, other: map<string, Item<U>>, olds: seq<Item<T>>, others: seq<Item<U>>,
    news: seq<Item<T>>, id: string)
    requires Keyed(running) && Keyed(other) && (id in running || id in other)
    requires forall x: Item<T> :: Has(running, x) ==> x in olds
    requires forall x: Item<U> :: Has(other, x) ==> x in others
    requires DistinctIds(olds) && !HasId(others, id) && HasId(Without(olds, news), id)
    ensures exists x :: Has(running, x) && x.id == id && x !in news
  {
    HasIdIn(others, id);
    HasIdIn(Without(olds, news), id);
    WithoutContents(olds, news);
    if id in other { assert Has(other, other[id]); }
    var x := running[id];
    assert Has(running, x);
    var y :| y in olds && y !in news && y.id == id;
    SameIdSameItem(olds, x, y);
  }

  /** A link that hangs keeps the components it holds on to, so it hangs the next time. */
  lemma HangsAgain(t: State, olds: Config, news: Config, left: Config, l: LinkItem)
    requires Inv(t) && WellFormed(olds) && Represents(ViewOf(t), left) && Has(ViewOf(t).links, l)
    requires forall x: PluginItem :: Has(ViewOf(t).plugins, x) ==> x in olds.plugins
    requires forall x: HardwareItem :: Has(ViewOf(t).hardware, x) ==> x in olds.hardware
    requires Hangs(olds, news, l.body)
    ensures Hangs(left, news, l.body)
  {
    var v := ViewOf(t);
    var (a, b) := (l.body.sourceComponent, l.body.destinationComponent);
    assert t.links[l.id].config == l.body;
    assert a in t.repository.Keys && b in t.repository.Keys;
    HasIdIn(olds.plugins, a);
    HasIdIn(olds.hardware, b);
    PartGoes(left.plugins, olds.plugins, news.plugins, a);
    PartGoes(left.plugins, olds.plugins, news.plugins, b);
    PartGoes(left.hardware, olds.hardware, news.hardware, a);
    PartGoes(left.hardware, olds.hardware, news.hardware, b);
    WithoutContents(olds.plugins, news.plugins);
    WithoutContents(olds.hardware, news.hardware);
    HasIdIn(Without(olds.plugins, news.plugins), a);
    HasIdIn(Without(olds.hardware, news.hardware), b);
    if PluginGone(olds, news, a) {
      StillThere(v.plugins, v.hardware, olds.plugins, olds.hardware, news.plugins, a);
    } else {
      StillThere(v.hardware, v.plugins, olds.hardware, olds.plugins, news.hardware, b);
    }
  }

  lemma StepKeepsTypes(s: State, op: Op)
    ensures Step(s, op).0.types == s.types
  {
  }

  lemma {:induction false} SeriesKeepsTypes(s: State, ops: seq<Op>)
    ensures Series(s, ops).0.types == s.types
    decreases |ops|
  {
    if ops == [] {
    } else {
      StepKeepsTypes(s, ops[0]);
      SeriesKeepsTypes(Step(s, ops[0]).0, ops[1..]);
    }
  }

  /** Repeating a refused deployment on what it left is refused again. */
  lemma RefusedAgain(s: State, olds: Config, news: Config, left: Config)
    requires Inv(s) && Listing(ViewOf(s), olds) && WellFormed(news)
    requires !Series(s, PlanOps(MergePlan(olds, news))).1
    requires Listing(ViewOf(Series(s, PlanOps(MergePlan(olds, news))).0), left)
    ensures !Series(Series(s, PlanOps(MergePlan(olds, news))).0, PlanOps(MergePlan(left, news))).1
  {
    var t := Series(s, PlanOps(MergePlan(olds, news))).0;
    DeployIff(s, olds, news);
    DeployIff(t, left, news);
    SeriesKeepsTypes(s, PlanOps(MergePlan(olds, news)));
    if !Deployable(olds, news) {
      RefusedDeploymentLeaves(s, olds, news);
      ListingIsWellFormed(s, olds);
      var l :| l in olds.links && l in news.links && Hangs(olds, news, l.body);
      assert Kept(olds, news, l) && Has(ViewOf(t).links, l);
      HangsAgain(t, olds, news, left, l);
      assert l in left.links;
    }
  }

  const NOTHING := Config([], [], [])

  /**
   A well-formed configuration can be deployed on an empty core exactly when the core knows its
   plugin types and both ends of its links are in it. Ids must not be names every JavaScript object
   inherits, such as `constructor`: the registries are plain objects and would take them for running
   components.
  */
  lemma FirstDeployment(types: set<string>, news: Config)
    requires WellFormed(news)
    ensures var (t, ok) := Series(Boot(types, NOTHING_STORED), PlanOps(MergePlan(NOTHING, news)));
      && (ok <==> TypesKnown(news, types) && EndsKnown(news))
      && Inv(t)
      && (ok ==> Represents(ViewOf(t), news))
  {
    DeployIff(Boot(types, NOTHING_STORED), NOTHING, news);
  }

  lemma NothingIsAccepted(olds: Config, types: set<string>)
    ensures WellFormed(NOTHING) && Accepted(olds, NOTHING, types)
  {
    assert NOTHING.links == [] && NOTHING.plugins == [] && NOTHING.hardware == [];
  }

  /** From every running configuration everything can be removed. */
  lemma RemoveEverything(s: State, olds: Config)
    requires Inv(s) && Listing(ViewOf(s), olds)
    ensures var (t, ok) := Series(s, PlanOps(MergePlan(olds, NOTHING)));
      ok && Inv(t) && Represents(ViewOf(t), NOTHING)
  {
    NothingIsAccepted(olds, s.types);
    DeployIff(s, olds, NOTHING);
  }

  lemma {:induction false} PrefixKindsApart(v: View, ops: seq<Op>, k: nat)
    requires KindsApart(v, ops) && k <= |ops|
    ensures KindsApart(v, ops[..k])
    decreases k
  {
    if k == 0 || After(v, ops[0]).None? {
    } else {
      assert ops[..k][1..] == ops[1..][..k - 1];
      PrefixKindsApart(After(v, ops[0]).value, ops[1..], k - 1);
    }
  }

  /** The invariant also holds after every prefix of a deployment. */
  lemma DeployPrefixInv(s: State, olds: Config, news: Config, k: nat)
    requires Inv(s) && Listing(ViewOf(s), olds) && WellFormed(news)
    requires k <= |PlanOps(MergePlan(olds, news))|
    ensures Inv(Series(s, PlanOps(MergePlan(olds, news))[..k]).0)
  {
    ListingIsWellFormed(s, olds);
    RunningTypesKnown(s, olds);
    PlanIff(ViewOf(s), olds, news);
    PrefixKindsApart(ViewOf(s), PlanOps(MergePlan(olds, news)), k);
    SeriesRefines(s, PlanOps(MergePlan(olds, news))[..k]);
  }

  /** Prefixing keeps ids apart, and the two prefixes never collide. */
  lemma PrefixedKeys(a: string, b: string)
    ensures "create:" + a == "create:" + b ==> a == b
    ensures "destroy:" + a == "destroy:" + b ==> a == b
    ensures "create:" + a != "destroy:" + b
  {
    assert ("create:" + a)[7..] == a && ("create:" + b)[7..] == b;
    assert ("destroy:" + a)[8..] == a && ("destroy:" + b)[8..] == b;
    assert ("create:" + a)[0] == 'c' && ("destroy:" + b)[0] == 'd';
  }

  lemma JoinKeysDistinct(a: seq<Op>, b: seq<Op>)
    requires KeysDistinct(TaskKey, a) && KeysDistinct(TaskKey, b)
    requires forall x, y :: x in a && y in b ==> TaskKey(x) != TaskKey(y)
    ensures KeysDistinct(TaskKey, a + b)
  {
  }

  ghost predicate IdsApart<T(!new), U(!new)>(a: seq<Item<T>>, b: seq<Item<U>>) {
    forall x, y :: x in a && y in b ==> x.id != y.id
  }

  lemma RemovalKeysDistinct(links: seq<LinkItem>, plugins: seq<PluginItem>, hardware: seq<HardwareItem>)
    requires DistinctIds(links) && DistinctIds(plugins) && DistinctIds(hardware)
    requires IdsApart(plugins, hardware) && IdsApart(links, plugins) && IdsApart(links, hardware)
    ensures KeysDistinct(TaskKey, RemoveLinks(links) + RemovePlugins(plugins) + RemoveHardwares(hardware))
  {
    forall a, b ensures "destroy:" + a == "destroy:" + b ==> a == b { PrefixedKeys(a, b); }
    JoinKeysDistinct(RemoveLinks(links), RemovePlugins(plugins));
    JoinKeysDistinct(RemoveLinks(links) + RemovePlugins(plugins), RemoveHardwares(hardware));
  }

  lemma AdditionKeysDistinct(links: seq<LinkItem>, plugins: seq<PluginItem>, hardware: seq<HardwareItem>)
    requires DistinctIds(links) && DistinctIds(plugins) && DistinctIds(hardware)
    requires IdsApart(plugins, hardware) && IdsApart(links, plugins) && IdsApart(links, hardware)
    ensures KeysDistinct(TaskKey, AddPlugins(plugins) + AddHardwares(hardware) + AddLinks(links))
  {
    forall a, b ensures "create:" + a == "create:" + b ==> a == b { PrefixedKeys(a, b); }
    JoinKeysDistinct(AddPlugins(plugins), AddHardwares(hardware));
    JoinKeysDistinct(AddPlugins(plugins) + AddHardwares(hardware), AddLinks(links));
  }

  /** Component ids hold no bar and link ids do. */
  lemma IdsAreApart(c: Config)
    requires WellFormed(c)
    ensures IdsApart(c.plugins, c.hardware) && IdsApart(c.links, c.plugins) && IdsApart(c.links, c.hardware)
  {
    forall x | x in c.plugins ensures HasId(c.plugins, x.id) { HasIdIn(c.plugins, x.id); }
    forall x | x in c.hardware ensures HasId(c.hardware, x.id) { HasIdIn(c.hardware, x.id); }
    forall l | l in c.links ensures '|' in l.id {
      assert l.id[|l.body.sourceComponent|] == '|';
    }
  }

  lemma IdsApartParts<T(!new), U(!new)>(a: seq<Item<T>>, b: seq<Item<U>>, c: seq<Item<T>>, d: seq<Item<U>>)
    requires IdsApart(a, b) && (forall x :: x in c ==> x in a) && (forall y :: y in d ==> y in b)
    ensures IdsApart(c, d)
  {
  }

  lemma {:induction false} RemovalsAreDistinct(olds: Config, news: Config)
    requires WellFormed(olds) && WellFormed(news)
    ensures KeysDistinct(TaskKey, Removals(MergePlan(olds, news)))
  {
    var p := MergePlan(olds, news);
    var (l, c, h) := (p.links.destroy, p.plugins.destroy, p.hardware.destroy);
    LinkPlanContents(olds, news);
    WithoutContents(olds.plugins, news.plugins);
    WithoutContents(olds.hardware, news.hardware);
    WithoutDistinct(olds.plugins, news.plugins);
    WithoutDistinct(olds.hardware, news.hardware);
    IdsAreApart(olds);
    IdsApartParts(olds.plugins, olds.hardware, c, h);
    IdsApartParts(olds.links, olds.plugins, l, c);
    IdsApartParts(olds.links, olds.hardware, l, h);
    RemovalKeysDistinct(l, c, h);
  }

  lemma {:induction false} AdditionsAreDistinct(olds: Config, news: Config)
    requires WellFormed(olds) && WellFormed(news)
    ensures KeysDistinct(TaskKey, Additions(MergePlan(olds, news)))
  {
    var p := MergePlan(olds, news);
    var (l, c, h) := (p.links.create, p.plugins.create, p.hardware.create);
    LinkPlanContents(olds, news);
    WithoutContents(news.plugins, olds.plugins);
    WithoutContents(news.hardware, olds.hardware);
    WithoutDistinct(news.plugins, olds.plugins);
    WithoutDistinct(news.hardware, olds.hardware);
    IdsAreApart(news);
    IdsApartParts(news.plugins, news.hardware, c, h);
    IdsApartParts(news.links, news.plugins, l, c);
    IdsApartParts(news.links, news.hardware, l, h);
    AdditionKeysDistinct(l, c, h);
  }

  lemma RemovalsMakeDestroyKeys(p: Plan)
    ensures forall op :: op in Removals(p) ==> TaskKey(op)[0] == 'd'
    ensures forall op :: op in Additions(p) ==> TaskKey(op)[0] == 'c'
  {
  }

  /** Two tasks share a key exactly when both add or both remove, and name one id. */
  lemma SharedKeyIff(a: Op, b: Op)
    ensures TaskKey(a) == TaskKey(b) <==> (Adds(a) <==> Adds(b)) && OpId(a) == OpId(b)
  {
    var (x, y) := (TaskKey(a), TaskKey(b));
    if x == y { assert x[0] == y[0]; }
    assert !Adds(a) ==> x[0] == 'd' && x[|"destroy:"|..] == OpId(a);
    assert !Adds(b) ==> y[0] == 'd' && y[|"destroy:"|..] == OpId(b);
    assert Adds(a) ==> x[0] == 'c' && x[|"create:"|..] == OpId(a);
    assert Adds(b) ==> y[0] == 'c' && y[|"create:"|..] == OpId(b);
  }

  function OpId(op: Op): string {
    match op
    case AddPlugin(c) => c.id
    case AddHardware(c) => c.id
    case AddLink(c) => c.id
    case RemovePlugin(id) => id
    case RemoveHardware(id) => id
    case RemoveLink(id) => id
  }

  predicate Adds(op: Op) {
    op.AddPlugin? || op.AddHardware? || op.AddLink?
  }

  /** The requests of the plan stand in six blocks, each in the order of its list. */
  lemma PlanBlocks(p: Plan)
    ensures var ops := PlanOps(p);
      var (l, m, n) := (|p.links.destroy|, |p.plugins.destroy|, |p.hardware.destroy|);
      var (i, j, k) := (|p.plugins.create|, |p.hardware.create|, |p.links.create|);
      && |ops| == l + m + n + i + j + k
      && (forall x :: 0 <= x < l ==> ops[x] == RemoveLink(p.links.destroy[x].id))
      && (forall x :: 0 <= x < m ==> ops[l + x] == RemovePlugin(p.plugins.destroy[x].id))
      && (forall x :: 0 <= x < n ==> ops[l + m + x] == RemoveHardware(p.hardware.destroy[x].id))
      && (forall x :: 0 <= x < i ==> ops[l + m + n + x] == AddPlugin(p.plugins.create[x]))
      && (forall x :: 0 <= x < j ==> ops[l + m + n + i + x] == AddHardware(p.hardware.create[x]))
      && (forall x :: 0 <= x < k ==> ops[l + m + n + i + j + x] == AddLink(p.links.create[x]))
  {
  }

  /** In the plan between two well-formed configurations every task has its own key. */
  lemma PlanKeysDistinct(olds: Config, news: Config)
    requires WellFormed(olds) && WellFormed(news)
    ensures KeysDistinct(TaskKey, PlanOps(MergePlan(olds, news)))
  {
    var p := MergePlan(olds, news);
    RemovalsAreDistinct(olds, news);
    AdditionsAreDistinct(olds, news);
    RemovalsMakeDestroyKeys(p);
    JoinKeysDistinct(Removals(p), Additions(p));
  }

  /** A plugin and a hardware with one id. */
  function SharedId(id: string, typ: string): Config {
    Config([Item(id, PluginBody(typ, ""))], [Item(id, HardwareBody("", ""))], [])
  }

  lemma SharedIdTasks(id: string, typ: string)
    ensures Assigned(TaskKey, PlanOps(MergePlan(NOTHING, SharedId(id, typ)))) ==
      [AddHardware(SharedId(id, typ).hardware[0])]
  {
    var news := SharedId(id, typ);
    var (add, more) := (AddPlugin(news.plugins[0]), AddHardware(news.hardware[0]));
    var ops := PlanOps(MergePlan(NOTHING, news));
    assert NOTHING.plugins == [] && NOTHING.hardware == [] && NOTHING.links == [];
    assert Without(news.plugins, []) == news.plugins && Without(news.hardware, []) == news.hardware by {
      assert news.plugins[..0] == [] && news.hardware[..0] == [];
    }
    assert ops == [add, more];
    assert ops[..1] == [add] && ops[..1][..0] == [];
    assert Assigned(TaskKey, [add]) == [add];
  }

  /**
   Why components must not share ids: the hardware's task takes the place of the plugin's, so the
   deployment reports success and the plugin is missing.
  */
  lemma SharedIdDropsTask(types: set<string>, id: string, typ: string)
    ensures var news := SharedId(id, typ);
      var (t, ok) := Series(Boot(types, NOTHING_STORED), Assigned(TaskKey, PlanOps(MergePlan(NOTHING, news))));
      && ok && Inv(t) && Has(ViewOf(t).hardware, news.hardware[0])
      && id !in t.plugins && !Represents(ViewOf(t), news)
  {
    var (s, h) := (Boot(types, NOTHING_STORED), SharedId(id, typ).hardware[0]);
    SharedIdTasks(id, typ);
    StepKeepsInv(s, AddHardware(h));
    var t := Step(s, AddHardware(h)).0;
    assert [AddHardware(h)][1..] == [] && Series(s, [AddHardware(h)]) == (t, true);
    assert Has(ViewOf(t).hardware, h);
    assert !Has(ViewOf(t).plugins, SharedId(id, typ).plugins[0]);
  }

  const SAMPLE_LINK := LinkBody("p", "output", "h", "setvalue")

  /** One plugin linked to one hardware. */
  function Sample(settings: string): Config {
    Config([Item("p", PluginBody("hubBool", settings))], [Item("h", HardwareBody("gpioout", ""))],
           [Item(MakeId(SAMPLE_LINK), SAMPLE_LINK)])
  }

  lemma SampleIsWellFormed(settings: string)
    ensures WellFormed(Sample(settings)) && EndsKnown(Sample(settings))
  {
    var c := Sample(settings);
    assert c.plugins[0].id == "p" && c.hardware[0].id == "h" && "p" != "h";
    assert HasId(c.plugins, "p") && HasId(c.hardware, "h");
  }

  lemma EditedSourcePluginHangs()
    ensures !Deployable(Sample("left"), Sample("right"))
  {
    var (olds, news) := (Sample("left"), Sample("right"));
    WithoutContents(olds.plugins, news.plugins);
    WithoutContents(olds.hardware, news.hardware);
    assert "left"[0] != "right"[0];
    assert olds.plugins[0] !in news.plugins;
    assert olds.plugins[0] in Without(olds.plugins, news.plugins);
    HasIdIn(Without(olds.plugins, news.plugins), "p");
    HasIdIn(Without(olds.hardware, news.hardware), "p");
    HasIdIn(Without(olds.plugins, news.plugins), "h");
    assert Hangs(olds, news, SAMPLE_LINK);
    assert olds.links[0] in news.links;
  }

  /**
   Editing the settings of a plugin that is only the source of a link to hardware: the core that runs
   the old settings refuses the deployment, and goes on running the old plugin with its link.
  */
  lemma EditedSourcePluginIsRefused(types: set<string>)
    requires "hubBool" in types
    ensures var (s, deployed) := Series(Boot(types, NOTHING_STORED), PlanOps(MergePlan(NOTHING, Sample("left"))));
      var (t, ok) := Series(s, PlanOps(MergePlan(Sample("left"), Sample("right"))));
      && deployed && !ok
      && Has(ViewOf(t).links, Sample("left").links[0]) && Has(ViewOf(t).plugins, Sample("left").plugins[0])
  {
    SampleIsWellFormed("left");
    SampleIsWellFormed("right");
    FirstDeployment(types, Sample("left"));
    var s := Series(Boot(types, NOTHING_STORED), PlanOps(MergePlan(NOTHING, Sample("left")))).0;
    EditedSourcePluginHangs();
    DeployIff(s, Sample("left"), Sample("right"));
    RefusedDeploymentLeaves(s, Sample("left"), Sample("right"));
    SampleLinkIsKept();
    var t := Series(s, PlanOps(MergePlan(Sample("left"), Sample("right")))).0;
    SourceStaysRunning(t, Sample("left"));
  }

  lemma SampleLinkIsKept()
    ensures Kept(Sample("left"), Sample("right"), Sample("left").links[0])
  {
    var (olds, news) := (Sample("left"), Sample("right"));
    EditedSourcePluginHangs();
    var l :| l in olds.links && l in news.links && Hangs(olds, news, l.body);
    assert l == olds.links[0];
  }

  /** The link's source is published, and only the old plugin has its id. */
  lemma SourceStaysRunning(t: State, c: Config)
    requires Inv(t) && c == Sample("left") && Has(ViewOf(t).links, c.links[0])
    requires forall x: PluginItem :: Has(ViewOf(t).plugins, x) ==> x in c.plugins
    requires forall x: HardwareItem :: Has(ViewOf(t).hardware, x) ==> x in c.hardware
    ensures Has(ViewOf(t).plugins, c.plugins[0])
  {
    var v := ViewOf(t);
    assert t.links[MakeId(SAMPLE_LINK)].config == SAMPLE_LINK;
    assert "p" in t.repository.Keys;
    if "p" in v.hardware { assert Has(v.hardware, v.hardware["p"]); }
    assert "p" in v.plugins.Keys;
    assert Has(v.plugins, v.plugins["p"]);
  }
}
