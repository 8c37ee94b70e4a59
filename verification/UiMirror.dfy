/**
 The user interface reads attributes by position: the structure service compiles an attribute
 name into an index, the page keeps the pieces of each nick and looks the index up.
 */
module UiMirror {
  import opened Text
  import opened NetStructure
  import opened Configuration
  import Mirror

  datatype UiType = UiType(ui: bool, cls: Class)

  type PluginType = Item<UiType>

  /** A plugin, by the id of its type. */
  type Plugin = Item<string>

  // ---------------------------------------------------------------- compiling the index (structure.js)

  /** `arrayKeepIf`: the items that pass, in order. */
  function Kept<T>(items: seq<T>, keep: T -> bool): seq<T> {
    if items == [] then [] else (if keep(items[0]) then [items[0]] else []) + Kept(items[1..], keep)
  }

  predicate IsUi(t: PluginType) {
    t.body.ui
  }

  predicate OfUiType(types: seq<PluginType>, p: Plugin) {
    exists j :: 0 <= j < |types| && types[j].id == p.body && types[j].body.ui
  }

  /** The class whose members a component's index counts; only interface types and their plugins are kept. */
  function UiClass(plugins: seq<Plugin>, types: seq<PluginType>, id: string): Option<Class> {
    match Find(Kept(plugins, (p: Plugin) => OfUiType(types, p)), id)
    case None => None
    case Some(p) =>
      match Find(Kept(types, IsUi), p.body)
      case None => None
      case Some(t) => Some(t.body.cls)
  }

  /** The first item with the id among those that are kept. */
  ghost predicate FirstKept<T>(items: seq<Item<T>>, keep: Item<T> -> bool, id: string, i: nat) {
    i < |items| && items[i].id == id && keep(items[i]) &&
    forall k :: 0 <= k < i && items[k].id == id ==> !keep(items[k])
  }

  lemma FindKeptStep<T>(items: seq<Item<T>>, keep: Item<T> -> bool, id: string)
    requires items != []
    ensures Find(Kept(items, keep), id) ==
      if keep(items[0]) && items[0].id == id then Some(items[0]) else Find(Kept(items[1..], keep), id)
  {
    if keep(items[0]) {
      assert Kept(items, keep)[1..] == Kept(items[1..], keep);
    } else {
      assert Kept(items, keep) == Kept(items[1..], keep);
    }
  }

  lemma {:induction false} FindKept<T>(items: seq<Item<T>>, keep: Item<T> -> bool, id: string)
    ensures Find(Kept(items, keep), id).None? ==>
      forall i :: 0 <= i < |items| && items[i].id == id ==> !keep(items[i])
    ensures Find(Kept(items, keep), id).Some? ==>
      exists i: nat :: FirstKept(items, keep, id, i) && items[i] == Find(Kept(items, keep), id).value
  {
    if items == [] {
    } else {
      FindKeptStep(items, keep, id);
      if keep(items[0]) && items[0].id == id {
        assert FirstKept(items, keep, id, 0);
      } else {
        FindKept(items[1..], keep, id);
        if i: nat :| FirstKept(items[1..], keep, id, i) && items[1..][i] == Find(Kept(items[1..], keep), id).value {
          assert FirstKept(items, keep, id, i + 1);
        }
      }
    }
  }

  /** The first interface type with the name. */
  ghost predicate UiTypeAt(types: seq<PluginType>, name: string, j: nat) {
    j < |types| && types[j].id == name && types[j].body.ui &&
    forall k :: 0 <= k < j ==> types[k].id != name || !types[k].body.ui
  }

  /** The first plugin with the id that has an interface type. */
  ghost predicate UiPluginAt(plugins: seq<Plugin>, types: seq<PluginType>, id: string, i: nat) {
    i < |plugins| && plugins[i].id == id && (exists j: nat :: UiTypeAt(types, plugins[i].body, j)) &&
    forall k :: 0 <= k < i && plugins[k].id == id ==> !exists j: nat :: UiTypeAt(types, plugins[k].body, j)
  }

  lemma UiTypeFound(types: seq<PluginType>, p: Plugin)
    ensures OfUiType(types, p) <==> Find(Kept(types, IsUi), p.body).Some?
    ensures OfUiType(types, p) <==> exists j: nat :: UiTypeAt(types, p.body, j)
    ensures OfUiType(types, p) ==>
      exists j: nat :: UiTypeAt(types, p.body, j) && types[j] == Find(Kept(types, IsUi), p.body).value
  {
    FindKept(types, IsUi, p.body);
    if j: nat :| FirstKept(types, IsUi, p.body, j) && types[j] == Find(Kept(types, IsUi), p.body).value {
      assert UiTypeAt(types, p.body, j);
    }
  }

  lemma UiPluginFound(plugins: seq<Plugin>, types: seq<PluginType>, id: string)
    ensures var r := Find(Kept(plugins, (p: Plugin) => OfUiType(types, p)), id);
      && (r.None? ==> forall i: nat :: !UiPluginAt(plugins, types, id, i))
      && (r.Some? ==> exists i: nat :: UiPluginAt(plugins, types, id, i) && plugins[i] == r.value)
  {
    var ofUi := (p: Plugin) => OfUiType(types, p);
    FindKept(plugins, ofUi, id);
    forall p: Plugin ensures ofUi(p) <==> exists j: nat :: UiTypeAt(types, p.body, j) { UiTypeFound(types, p); }
    if i: nat :| FirstKept(plugins, ofUi, id, i) && plugins[i] == Find(Kept(plugins, ofUi), id).value {
      assert UiPluginAt(plugins, types, id, i);
    }
  }

  /** A component has the class of its interface type, and none when it is no plugin of an interface type. */
  lemma UiClassMeaning(plugins: seq<Plugin>, types: seq<PluginType>, id: string, cls: Class)
    ensures UiClass(plugins, types, id) == Some(cls) <==>
      exists i: nat, j: nat ::
        UiPluginAt(plugins, types, id, i) && UiTypeAt(types, plugins[i].body, j) && types[j].body.cls == cls
  {
    UiPluginFound(plugins, types, id);
    if i: nat :| UiPluginAt(plugins, types, id, i) { UiTypeFound(types, plugins[i]); }
  }

  /** Position of the first member with the name. */
  function MemberIndex(cls: Class, name: string): (r: Option<nat>)
    ensures r.Some? ==> r.value < |cls| && cls[r.value].name == name
    ensures r.Some? ==> forall k :: 0 <= k < r.value ==> cls[k].name != name
    ensures r.None? ==> forall m :: m in cls ==> m.name != name
  {
    if cls == [] then None
    else if cls[0].name == name then Some(0)
    else
      match MemberIndex(cls[1..], name)
      case None => None
      case Some(i) => Some(i + 1)
  }

  /** The number of attributes before the first member with the name, whether that member is an attribute or not. */
  function AttributeIndex(cls: Class, name: string): Option<nat> {
    match MemberIndex(cls, name)
    case None => None
    case Some(i) => Some(AttributeCount(cls[..i]))
  }

  lemma {:induction false} MemberIndexAt(cls: Class, name: string, i: nat)
    requires i < |cls| && cls[i].name == name && forall k :: 0 <= k < i ==> cls[k].name != name
    ensures MemberIndex(cls, name) == Some(i)
  {
    if i == 0 {
    } else {
      MemberIndexAt(cls[1..], name, i - 1);
    }
  }

  lemma {:induction false} NoMemberIndex(cls: Class, name: string)
    requires forall k :: 0 <= k < |cls| ==> cls[k].name != name
    ensures MemberIndex(cls, name) == None
  {
    if cls == [] {
    } else {
      NoMemberIndex(cls[1..], name);
    }
  }

  /** `getAttributeIndex`: None without component, interface type or member. */
  method GetAttributeIndex(plugins: seq<Plugin>, types: seq<PluginType>, id: string, name: string)
    returns (index: Option<nat>)
    ensures index ==
      if UiClass(plugins, types, id).None? then None else AttributeIndex(UiClass(plugins, types, id).value, name)
  {
    var cls := UiClass(plugins, types, id);
    if cls.None? { return None; }
    var members := cls.value;
    var count := 0;
    for i := 0 to |members|
      invariant count == AttributeCount(members[..i])
      invariant forall k :: 0 <= k < i ==> members[k].name != name
    {
      if members[i].name == name {
        MemberIndexAt(members, name, i);
        return Some(count);
      }
      assert members[..i + 1] == members[..i] + [members[i]];
      AttributeCountSnoc(members[..i], members[i]);
      if members[i].Attribute? { count := count + 1; }
    }
    NoMemberIndex(members, name);
    return None;
  }

  // ---------------------------------------------------------------- the nick of a core plugin (netobject.js)

  /** JavaScript's text form of an attribute value. */
  function JsText(v: JsValue): string {
    match v
    case Null => "null"
    case Undefined => "undefined"
    case Str(s) => s
  }

  function ValueOf(attrs: Mirror.Attributes, name: string): JsValue {
    if name in attrs then attrs[name] else Undefined
  }

  function Pieces(cls: Class, attrs: Mirror.Attributes): seq<string> {
    if cls == [] then []
    else (if cls[0].Attribute? then [JsText(ValueOf(attrs, cls[0].name))] else []) + Pieces(cls[1..], attrs)
  }

  function PluginNick(id: string, cls: Class, attrs: Mirror.Attributes): string {
    Join([id] + Pieces(cls, attrs), '|')
  }

  // ---------------------------------------------------------------- the page's mirror (net.js)

  function Joined(net: map<string, seq<string>>, nick: string): map<string, seq<string>> {
    var parts := Split(nick, '|');
    net[parts[0] := parts[1..]]
  }

  /** What the page receives about a component; `changed` for one that never joined raises and changes nothing. */
  datatype Message = Entered(nick: string) | Renamed(nick: string) | Departed(nick: string)

  function Received(net: map<string, seq<string>>, m: Message): map<string, seq<string>> {
    match m
    case Entered(nick) => Joined(net, nick)
    case Renamed(nick) => if Split(nick, '|')[0] in net then Joined(net, nick) else net
    case Departed(nick) => net - {Split(nick, '|')[0]}
  }

  /** Attribute pieces by component id. */
  class Net {
    var net: map<string, seq<string>>
    var connected: bool

    constructor ()
      ensures net == map[] && !connected
    {
      net, connected := map[], false;
    }

    method Join(nick: string)
      modifies this
      ensures net == Received(old(net), Entered(nick)) && connected
    {
      var parts := Split(nick, '|');
      net := net[parts[0] := parts[1..]];
      connected := true;
    }

    /** A change of a component that never joined raises an exception. */
    method Changed(nick: string) returns (ok: bool)
      modifies this`net
      ensures ok <==> Split(nick, '|')[0] in old(net)
      ensures net == Received(old(net), Renamed(nick))
    {
      var parts := Split(nick, '|');
      ok := parts[0] in net;
      if ok { net := net[parts[0] := parts[1..]]; }
    }

    method Part(nick: string)
      modifies this`net
      ensures net == Received(old(net), Departed(nick))
    {
      net := net - {Split(nick, '|')[0]};
    }

    method PartAll()
      modifies this
      ensures net == map[] && !connected
    {
      var rest := net.Keys;
      while rest != {}
        invariant net.Keys == rest
        decreases rest
      {
        var id :| id in rest;
        net := net - {id};
        rest := rest - {id};
      }
      connected := false;
    }

    method ComponentAttribute(id: string, index: Option<nat>) returns (r: Option<string>)
      ensures r == ReadAttribute(net, id, index)
    {
      if id !in net || index.None? || |net[id]| <= index.value { return None; }
      return Some(net[id][index.value]);
    }
  }

  function ReadAttribute(net: map<string, seq<string>>, id: string, index: Option<nat>): Option<string> {
    if id !in net || index.None? || |net[id]| <= index.value then None else Some(net[id][index.value])
  }

  // ---------------------------------------------------------------- the compiled index reads the right attribute

  lemma {:induction false} PiecesAppend(a: Class, b: Class, attrs: Mirror.Attributes)
    ensures Pieces(a + b, attrs) == Pieces(a, attrs) + Pieces(b, attrs)
    ensures |Pieces(a, attrs)| == AttributeCount(a)
  {
    if a == [] {
      assert a + b == b;
    } else {
      assert (a + b)[1..] == a[1..] + b;
      PiecesAppend(a[1..], b, attrs);
    }
  }

  lemma {:induction false} PiecesBarFree(cls: Class, attrs: Mirror.Attributes)
    requires forall m :: m in cls && m.Attribute? ==> '|' !in JsText(ValueOf(attrs, m.name))
    ensures AllFree(Pieces(cls, attrs), '|')
  {
    if cls == [] {
    } else {
      PiecesBarFree(cls[1..], attrs);
    }
  }

  /** The piece at an attribute's compiled index is that attribute's text. */
  lemma IndexedPiece(cls: Class, attrs: Mirror.Attributes, m: Member)
    requires UniqueNames(cls) && m in cls && m.Attribute?
    ensures AttributeIndex(cls, m.name).Some?
    ensures var k := AttributeIndex(cls, m.name).value;
      k < |Pieces(cls, attrs)| && Pieces(cls, attrs)[k] == JsText(ValueOf(attrs, m.name))
  {
    var i :| 0 <= i < |cls| && cls[i] == m;
    MemberIndexAt(cls, m.name, i);
    assert cls == cls[..i] + cls[i..];
    PiecesAppend(cls[..i], cls[i..], attrs);
    assert cls[i..][0] == m;
    assert Pieces(cls[i..], attrs)[0] == JsText(ValueOf(attrs, m.name));
  }

  lemma IndexedRead(
    net: map<string, seq<string>>, id: string, cls: Class, attrs: Mirror.Attributes, m: Member)
    requires id in net && net[id] == Pieces(cls, attrs) && UniqueNames(cls) && m in cls && m.Attribute?
    ensures ReadAttribute(net, id, AttributeIndex(cls, m.name)) == Some(JsText(ValueOf(attrs, m.name)))
  {
    IndexedPiece(cls, attrs, m);
  }

  /**
   After the page heard the component's nick, reading its mirror at the compiled index of an
   attribute gives the text of that attribute's value, whatever the mirror held before.
  */
  lemma CompiledRead(
    plugins: seq<Plugin>, types: seq<PluginType>, net: map<string, seq<string>>,
    id: string, cls: Class, attrs: Mirror.Attributes, m: Member)
    requires UiClass(plugins, types, id) == Some(cls) && '|' !in id
    requires UniqueNames(cls) && m in cls && m.Attribute?
    requires forall a :: a in cls && a.Attribute? ==> '|' !in JsText(ValueOf(attrs, a.name))
    ensures ReadAttribute(Joined(net, PluginNick(id, cls, attrs)), id, AttributeIndex(cls, m.name))
      == Some(JsText(ValueOf(attrs, m.name)))
  {
    PiecesBarFree(cls, attrs);
    SplitJoin([id] + Pieces(cls, attrs), '|');
    assert ([id] + Pieces(cls, attrs))[1..] == Pieces(cls, attrs);
    IndexedRead(Joined(net, PluginNick(id, cls, attrs)), id, cls, attrs, m);
  }

  // ---------------------------------------------------------------- every run of joins, changes and parts

  datatype Kind = Joins | Changes | Parts

  function MessageOf(kind: Kind, nick: string): Message {
    match kind
    case Joins => Entered(nick)
    case Changes => Renamed(nick)
    case Parts => Departed(nick)
  }

  /** A component: its attributes at each announcement, and the announcements on their way to the page. */
  datatype Source = Source(cls: Class, history: seq<Mirror.Attributes>, wire: seq<Kind>)

  /** What arrived at the page: announcements of components, and ends of the connection. */
  datatype Arrival = Got(id: string, kind: Kind) | Cut

  datatype Page = Page(sources: map<string, Source>, net: map<string, seq<string>>, log: seq<Arrival>)

  /** With the connection everything on its way is lost, and the page forgets what it knew. */
  datatype Happening =
    | Announce(id: string, kind: Kind, attrs: Mirror.Attributes)
    | Deliver(id: string)
    | Lose

  function Next(page: Page, h: Happening): Page
    requires forall id :: id in page.sources ==> |page.sources[id].wire| < |page.sources[id].history|
  {
    match h
    case Announce(id, kind, attrs) =>
      if id !in page.sources then page
      else
        var s := page.sources[id];
        page.(sources := page.sources[id := Source(s.cls, s.history + [attrs], s.wire + [kind])])
    case Deliver(id) =>
      if id !in page.sources || page.sources[id].wire == [] then page
      else
        var s := page.sources[id];
        var t := s.(wire := s.wire[1..]);
        var m := MessageOf(s.wire[0], PluginNick(id, s.cls, Delivered(t)));
        Page(page.sources[id := t], Received(page.net, m), page.log + [Got(id, s.wire[0])])
    case Lose =>
      Page(map id | id in page.sources :: page.sources[id].(wire := []), map[], page.log + [Cut])
  }

  function After(page: Page, happenings: seq<Happening>): Page
    requires forall id :: id in page.sources ==> |page.sources[id].wire| < |page.sources[id].history|
    decreases |happenings|
  {
    if happenings == [] then page else After(Next(page, happenings[0]), happenings[1..])
  }

  /** The attributes behind the last announcement that arrived. */
  function Delivered(s: Source): Mirror.Attributes
    requires |s.wire| < |s.history|
  {
    s.history[|s.history| - |s.wire| - 1]
  }

  predicate BarFreeTexts(cls: Class, attrs: Mirror.Attributes) {
    forall m :: m in cls && m.Attribute? ==> '|' !in JsText(ValueOf(attrs, m.name))
  }

  ghost predicate Legitimate(id: string, s: Source) {
    && '|' !in id && UniqueNames(s.cls) && |s.wire| < |s.history|
    && forall k :: 0 <= k < |s.history| ==> BarFreeTexts(s.cls, s.history[k])
  }

  ghost predicate AllLegitimate(sources: map<string, Source>) {
    forall id :: id in sources ==> Legitimate(id, sources[id])
  }

  /** A join arrived at place k and nothing that ends it came later. */
  ghost predicate JoinedAt(log: seq<Arrival>, id: string, k: nat) {
    k < |log| && log[k] == Got(id, Joins) && forall j :: k < j < |log| ==> log[j] != Cut && log[j] != Got(id, Parts)
  }

  /** Of the joins, the parts and the ends of the connection that arrived, the last is a join. */
  ghost predicate Inside(log: seq<Arrival>, id: string) {
    exists k: nat :: JoinedAt(log, id, k)
  }

  ghost predicate Consistent(page: Page) {
    && AllLegitimate(page.sources)
    && (forall id :: id in page.net <==> Inside(page.log, id))
    && (forall id :: id in page.net ==>
          id in page.sources && page.net[id] == Pieces(page.sources[id].cls, Delivered(page.sources[id])))
  }

  /** Announced attributes hold no bar. */
  ghost predicate Allowed(page: Page, h: Happening) {
    h.Announce? && h.id in page.sources ==> BarFreeTexts(page.sources[h.id].cls, h.attrs)
  }

  ghost predicate AllAllowed(page: Page, happenings: seq<Happening>)
    requires forall id :: id in page.sources ==> |page.sources[id].wire| < |page.sources[id].history|
    decreases |happenings|
  {
    happenings == [] || (Allowed(page, happenings[0]) && AllAllowed(Next(page, happenings[0]), happenings[1..]))
  }

  lemma NickPieces(id: string, cls: Class, attrs: Mirror.Attributes)
    requires '|' !in id && BarFreeTexts(cls, attrs)
    ensures Split(PluginNick(id, cls, attrs), '|')[0] == id
    ensures Split(PluginNick(id, cls, attrs), '|')[1..] == Pieces(cls, attrs)
  {
    PiecesBarFree(cls, attrs);
    SplitJoin([id] + Pieces(cls, attrs), '|');
    assert ([id] + Pieces(cls, attrs))[1..] == Pieces(cls, attrs);
  }

  /** One more arrival decides whether a component is inside, or leaves it as it was. */
  lemma InsideSnoc(log: seq<Arrival>, a: Arrival, id: string)
    ensures Inside(log + [a], id) <==>
      a == Got(id, Joins) || (Inside(log, id) && a != Cut && a != Got(id, Parts))
  {
    var more := log + [a];
    assert more[|log|] == a;
    if a == Got(id, Joins) { assert JoinedAt(more, id, |log|); }
    if k: nat :| JoinedAt(log, id, k) {
      if a != Cut && a != Got(id, Parts) { assert JoinedAt(more, id, k); }
    }
    if k: nat :| JoinedAt(more, id, k) {
      if k < |log| {
        forall j | k < j < |log| ensures log[j] != Cut && log[j] != Got(id, Parts) { assert more[j] == log[j]; }
        assert more[k] == log[k] && JoinedAt(log, id, k);
      }
    }
  }

  lemma AnnounceKeepsConsistent(page: Page, id: string, kind: Kind, attrs: Mirror.Attributes)
    requires Consistent(page) && id in page.sources && BarFreeTexts(page.sources[id].cls, attrs)
    ensures Consistent(Next(page, Announce(id, kind, attrs)))
  {
    var s := page.sources[id];
    var t := Source(s.cls, s.history + [attrs], s.wire + [kind]);
    assert Legitimate(id, s);
    forall k | 0 <= k < |t.history| ensures BarFreeTexts(t.cls, t.history[k]) {
      assert k < |s.history| ==> t.history[k] == s.history[k];
    }
    assert Delivered(t) == Delivered(s);
  }

  /** What a message about a component does to what the page knows. */
  lemma ReceivedMeaning(net: map<string, seq<string>>, kind: Kind, id: string, cls: Class, attrs: Mirror.Attributes)
    requires '|' !in id && BarFreeTexts(cls, attrs)
    ensures var after := Received(net, MessageOf(kind, PluginNick(id, cls, attrs)));
      && (forall other :: other != id ==>
            (other in after <==> other in net) && (other in net ==> after[other] == net[other]))
      && (id in after <==> kind == Joins || (id in net && kind == Changes))
      && (id in after ==> after[id] == Pieces(cls, attrs))
  {
    NickPieces(id, cls, attrs);
  }

  lemma DeliverKeepsConsistent(page: Page, id: string)
    requires Consistent(page) && id in page.sources && page.sources[id].wire != []
    ensures Consistent(Next(page, Deliver(id)))
  {
    var s := page.sources[id];
    var t := s.(wire := s.wire[1..]);
    var after := Next(page, Deliver(id));
    assert Legitimate(id, s) && Legitimate(id, t);
    ReceivedMeaning(page.net, s.wire[0], id, s.cls, Delivered(t));
    assert after.sources == page.sources[id := t];
    forall other ensures other in after.net <==> Inside(after.log, other) {
      InsideSnoc(page.log, Got(id, s.wire[0]), other);
      assert other in page.net <==> Inside(page.log, other);
    }
    forall other | other in after.net
      ensures other in after.sources
      ensures after.net[other] == Pieces(after.sources[other].cls, Delivered(after.sources[other]))
    {
    }
    assert AllLegitimate(after.sources);
  }

  lemma NextKeepsConsistent(page: Page, h: Happening)
    requires Consistent(page) && Allowed(page, h)
    ensures Consistent(Next(page, h))
  {
    match h
    case Announce(id, kind, attrs) => if id in page.sources { AnnounceKeepsConsistent(page, id, kind, attrs); }
    case Deliver(id) =>
      if id in page.sources && page.sources[id].wire != [] { DeliverKeepsConsistent(page, id); }
    case Lose => forall id { InsideSnoc(page.log, Cut, id); }
  }

  lemma {:induction false} RunKeepsConsistent(page: Page, happenings: seq<Happening>)
    requires Consistent(page) && AllAllowed(page, happenings)
    ensures Consistent(After(page, happenings))
    decreases |happenings|
  {
    if happenings == [] {
    } else {
      NextKeepsConsistent(page, happenings[0]);
      RunKeepsConsistent(Next(page, happenings[0]), happenings[1..]);
    }
  }

  /** What a page shows of a value. */
  predicate Shows(v: JsValue, text: string) {
    match v
    case Null => text == "null"
    case Undefined => text == "undefined"
    case Str(s) => text == s
  }

  /** What reading an attribute by its compiled index must give. */
  ghost predicate ReadsRight(page: Page, plugins: seq<Plugin>, types: seq<PluginType>, id: string, m: Member) {
    id in page.sources && |page.sources[id].wire| < |page.sources[id].history| &&
    var s := page.sources[id];
    UiClass(plugins, types, id) == Some(s.cls) && m in s.cls && m.Attribute? ==>
      var r := ReadAttribute(page.net, id, AttributeIndex(s.cls, m.name));
      && r.Some? && Shows(ValueOf(Delivered(s), m.name), r.value)
      && (s.wire == [] ==> Shows(ValueOf(s.history[|s.history| - 1], m.name), r.value))
  }

  /** A page on which nothing has arrived yet. */
  ghost predicate Blank(page: Page) {
    page.net == map[] && page.log == [] && AllLegitimate(page.sources)
  }

  /**
   In every run of several components that join, change and part, with connections lost in between:
   the page knows exactly the components for which a join was the last word that arrived, and reads
   each of their attributes right at its compiled index, as of the last announcement that arrived, so
   with nothing on its way as of now.
  */
  lemma EveryReadIsRight(
    page: Page, happenings: seq<Happening>, plugins: seq<Plugin>, types: seq<PluginType>, id: string, m: Member)
    requires Blank(page) && AllAllowed(page, happenings)
    ensures var p := After(page, happenings);
      && (id in p.net <==> Inside(p.log, id))
      && (Inside(p.log, id) ==> ReadsRight(p, plugins, types, id, m))
  {
    RunKeepsConsistent(page, happenings);
    var p := After(page, happenings);
    if id in p.net {
      var s := p.sources[id];
      assert Legitimate(id, s);
      if m in s.cls && m.Attribute? { IndexedRead(p.net, id, s.cls, Delivered(s), m); }
    }
  }
}
