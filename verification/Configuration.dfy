/**
 The configuration values the designer edits and the core runs. An item is an id
 and everything else; two items are the same when they are deep-equal.
 */
module Configuration {
  import opened Text

  datatype Item<T> = Item(id: string, body: T)

  datatype PluginBody = PluginBody(typ: string, settings: string)
  datatype HardwareBody = HardwareBody(clazz: string, settings: string)
  datatype LinkBody = LinkBody(
    sourceComponent: string, sourceAttribute: string, destinationComponent: string, destinationAction: string)
  {
    predicate Touches(id: string) {
      sourceComponent == id || destinationComponent == id
    }
  }

  type PluginItem = Item<PluginBody>
  type HardwareItem = Item<HardwareBody>
  type LinkItem = Item<LinkBody>

  datatype Config = Config(plugins: seq<PluginItem>, hardware: seq<HardwareItem>, links: seq<LinkItem>)

  /** The link id: its four fields separated by bars. */
  function MakeId(b: LinkBody): string {
    b.sourceComponent + "|" + (b.sourceAttribute + "|" + (b.destinationComponent + "|" + b.destinationAction))
  }

  predicate BarFree(b: LinkBody) {
    '|' !in b.sourceComponent && '|' !in b.sourceAttribute && '|' !in b.destinationComponent &&
      '|' !in b.destinationAction
  }

  /** Bar-free fields can be read back from the link id. */
  lemma MakeIdSplits(b: LinkBody)
    requires BarFree(b)
    ensures Split(MakeId(b), '|') == [b.sourceComponent, b.sourceAttribute, b.destinationComponent, b.destinationAction]
  {
    var tail := b.destinationComponent + "|" + b.destinationAction;
    SplitHead(b.sourceComponent, b.sourceAttribute + "|" + tail, '|');
    SplitHead(b.sourceAttribute, tail, '|');
    SplitHead(b.destinationComponent, b.destinationAction, '|');
    SplitHead(b.destinationAction, "", '|');
  }

  /** A link id has as many pieces as its fields together. */
  lemma IdPieces(b: LinkBody)
    ensures |Split(MakeId(b), '|')| == |Split(b.sourceComponent, '|')| + |Split(b.sourceAttribute, '|')| +
      |Split(b.destinationComponent, '|')| + |Split(b.destinationAction, '|')|
    ensures |Split(MakeId(b), '|')| == 4 <==> BarFree(b)
  {
    var tail := b.destinationComponent + "|" + b.destinationAction;
    SplitConcat(b.sourceComponent, b.sourceAttribute + "|" + tail, '|');
    SplitConcat(b.sourceAttribute, tail, '|');
    SplitConcat(b.destinationComponent, b.destinationAction, '|');
    OnePieceIff(b.sourceComponent, '|');
    OnePieceIff(b.sourceAttribute, '|');
    OnePieceIff(b.destinationComponent, '|');
    OnePieceIff(b.destinationAction, '|');
  }

  /** Distinct bar-free links have distinct ids. */
  lemma MakeIdInjective(a: LinkBody, b: LinkBody)
    requires BarFree(a) && BarFree(b) && MakeId(a) == MakeId(b)
    ensures a == b
  {
    MakeIdSplits(a);
    MakeIdSplits(b);
    var parts := Split(MakeId(a), '|');
    assert parts[0] == a.sourceComponent == b.sourceComponent;
    assert parts[1] == a.sourceAttribute == b.sourceAttribute;
    assert parts[2] == a.destinationComponent == b.destinationComponent;
    assert parts[3] == a.destinationAction == b.destinationAction;
  }

  lemma BarAt(s: string) returns (x: string, y: string)
    requires '|' in s
    ensures s == x + "|" + y
  {
    var k :| 0 <= k < |s| && s[k] == '|';
    x, y := s[..k], s[k + 1..];
  }

  /** Moving a bar from inside a field to its edge gives another link with the same id. */
  lemma BarsShareIds(b: LinkBody) returns (c: LinkBody)
    requires !BarFree(b)
    ensures c != b && MakeId(c) == MakeId(b)
  {
    var (a1, a2, a3, a4) := (b.sourceComponent, b.sourceAttribute, b.destinationComponent, b.destinationAction);
    if '|' in a1 {
      var x, y := BarAt(a1);
      c := LinkBody(x, y + "|" + a2, a3, a4);
      assert a1 + "|" + (a2 + "|" + (a3 + "|" + a4)) == x + "|" + (y + "|" + a2 + "|" + (a3 + "|" + a4));
    } else if '|' in a2 {
      var x, y := BarAt(a2);
      c := LinkBody(a1 + "|" + x, y, a3, a4);
      assert a1 + "|" + (a2 + "|" + (a3 + "|" + a4)) == a1 + "|" + x + "|" + (y + "|" + (a3 + "|" + a4));
    } else if '|' in a3 {
      var x, y := BarAt(a3);
      c := LinkBody(a1, a2 + "|" + x, y, a4);
      assert a2 + "|" + (a3 + "|" + a4) == a2 + "|" + x + "|" + (y + "|" + a4);
    } else {
      var x, y := BarAt(a4);
      c := LinkBody(a1, a2, a3 + "|" + x, y);
      assert a3 + "|" + a4 == a3 + "|" + x + "|" + y;
    }
  }

  /** A link shares its id with no other link exactly when its fields hold no bar. */
  lemma OwnIdIff(b: LinkBody)
    ensures (forall c :: MakeId(c) == MakeId(b) ==> c == b) <==> BarFree(b)
  {
    if BarFree(b) {
      forall c | MakeId(c) == MakeId(b) ensures c == b {
        IdPieces(b);
        IdPieces(c);
        MakeIdInjective(c, b);
      }
    } else {
      var c := BarsShareIds(b);
    }
  }

  // ---------------------------------------------------------------- items held in a map by id

  predicate DistinctIds<T>(items: seq<Item<T>>) {
    forall i, j :: 0 <= i < j < |items| ==> items[i].id != items[j].id
  }

  /** First item with the id. */
  function Find<T>(items: seq<Item<T>>, id: string): (r: Option<Item<T>>)
    ensures r.Some? ==> r.value in items && r.value.id == id
    ensures r.None? ==> forall x :: x in items ==> x.id != id
  {
    if items == [] then None else if items[0].id == id then Some(items[0]) else Find(items[1..], id)
  }

  ghost predicate Keyed<T>(m: map<string, Item<T>>) {
    forall id :: id in m ==> m[id].id == id
  }

  ghost predicate Has<T>(m: map<string, Item<T>>, x: Item<T>) {
    x.id in m && m[x.id] == x
  }

  /** The map holds exactly the listed items, each under its id. */
  ghost predicate Holds<T(!new)>(m: map<string, Item<T>>, items: seq<Item<T>>) {
    && Keyed(m)
    && forall x: Item<T> :: Has(m, x) <==> x in items
  }
}
