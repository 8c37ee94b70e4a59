/**
 Attribute replication over nicknames (NICK, section 4.1.2 of RFC 1459): the publisher renames
 itself to its id and attribute values separated by bars, the watcher splits the new name and
 assigns the pieces to the attributes in class order.
 */
module Mirror {
  import opened Text
  import opened NetStructure
  import opened Replication

  type Values = map<string, NetValue>
  type Attributes = map<string, JsValue>

  // ---------------------------------------------------------------- the publisher (C)

  /** The texts of the attributes in class order; an unset attribute is written `null`. */
  function AttributeTexts(cls: Class, values: Values): seq<string> {
    if cls == [] then []
    else if cls[0].Action? then AttributeTexts(cls[1..], values)
    else [if cls[0].name in values then TextOf(values[cls[0].name]) else "null"] + AttributeTexts(cls[1..], values)
  }

  function NickOf(id: string, cls: Class, values: Values): string {
    Join([id] + AttributeTexts(cls, values), '|')
  }

  lemma {:induction false} AttributeTextsSnoc(cls: Class, m: Member, values: Values)
    ensures AttributeTexts(cls + [m], values) ==
      AttributeTexts(cls, values) +
        if m.Action? then [] else [if m.name in values then TextOf(values[m.name]) else "null"]
  {
    if cls == [] {
      assert [m][1..] == [];
    } else {
      assert (cls + [m])[1..] == cls[1..] + [m];
      AttributeTextsSnoc(cls[1..], m, values);
    }
  }

  /** The text of each attribute stands at its place among the attributes, and there is no other text. */
  lemma {:induction false} NickSpells(cls: Class, values: Values, i: nat)
    requires i < |cls| && cls[i].Attribute?
    ensures |AttributeTexts(cls, values)| == AttributeCount(cls)
    ensures AttributeCount(cls[..i]) < AttributeCount(cls)
    ensures var text := AttributeTexts(cls, values)[AttributeCount(cls[..i])];
      if cls[i].name in values then Written(values[cls[i].name], text) else text == "null"
  {
    TextsPerAttribute(cls, values);
    var rest := cls[1..];
    if i == 0 {
      assert cls[..0] == [];
      if cls[0].name in values { TextOfIff(values[cls[0].name], TextOf(values[cls[0].name])); }
    } else {
      assert cls[..i][1..] == rest[..i - 1] && cls[..i][0] == cls[0];
      NickSpells(rest, values, i - 1);
    }
  }

  lemma {:induction false} TextsPerAttribute(cls: Class, values: Values)
    ensures |AttributeTexts(cls, values)| == AttributeCount(cls)
  {
    if cls == [] {
    } else {
      TextsPerAttribute(cls[1..], values);
    }
  }

  /** A published object: an attribute change stores the value, makes the nick and, once connected, sends it. */
  class LocalObject {
    const id: string
    const cls: Class
    var values: Values
    var nick: string
    var connected: bool
    var sent: seq<string>

    constructor (id: string, cls: Class)
      ensures this.id == id && this.cls == cls && values == map[] && sent == [] && !connected
      ensures nick == NickOf(id, cls, values)
    {
      this.id, this.cls, values, sent, connected := id, cls, map[], [], false;
      nick := "";
      new;
      nick := MakeNick();
    }

    /** The nick is built by appending to the id, member after member. */
    method MakeNick() returns (nick: string)
      ensures nick == NickOf(id, cls, values)
    {
      nick := id;
      for i := 0 to |cls|
        invariant nick == NickOf(id, cls[..i], values)
      {
        var m := cls[i];
        assert cls[..i + 1] == cls[..i] + [m];
        AttributeTextsSnoc(cls[..i], m, values);
        var parts := [id] + AttributeTexts(cls[..i], values);
        if m.Attribute? {
          var text := if m.name in values then TextOf(values[m.name]) else "null";
          JoinSnoc(parts, text, '|');
          assert parts + [text] == [id] + AttributeTexts(cls[..i + 1], values);
          nick := nick + "|" + text;
        } else {
          assert AttributeTexts(cls[..i + 1], values) == AttributeTexts(cls[..i], values);
        }
      }
      assert cls[..|cls|] == cls;
    }

    /** The daemon asserts that the attribute exists. */
    method AttributeChange(name: string, value: NetValue)
      requires MemberByName(cls, name).Some? && MemberByName(cls, name).value.Attribute?
      modifies this`values, this`nick, this`sent
      ensures values == old(values)[name := value] && nick == NickOf(id, cls, values)
      ensures sent == if connected then old(sent) + [nick] else old(sent)
    {
      values := values[name := value];
      nick := MakeNick();
      if connected { sent := sent + [nick]; }
    }
  }

  // ---------------------------------------------------------------- the watched object (JavaScript)

  /** `setAttribute`: the member must be an attribute and the value acceptable, else it throws. */
  predicate Settable(cls: Class, name: string, v: JsValue) {
    var m := MemberByName(cls, name);
    m.Some? && m.value.Attribute? && CheckArg(v, m.value.typ)
  }

  function PieceAt(pieces: Option<seq<string>>, i: nat): JsValue {
    if pieces.None? then Null else if i < |pieces.value| then Str(pieces.value[i]) else Undefined
  }

  /**
   The attributes after assigning the pieces to the members from index i on, the next piece
   being number ai; the flag is false when an assignment throws and the rest is skipped.
  */
  function Assigned(cls: Class, i: nat, ai: nat, pieces: Option<seq<string>>, attrs: Attributes): (Attributes, bool)
    requires i <= |cls|
    decreases |cls| - i
  {
    if i == |cls| then (attrs, true)
    else if cls[i].Action? then Assigned(cls, i + 1, ai, pieces, attrs)
    else
      var v := PieceAt(pieces, ai);
      if !Settable(cls, cls[i].name, v) then (attrs, false)
      else Assigned(cls, i + 1, ai + 1, pieces, attrs[cls[i].name := v])
  }

  /** A new object's attributes are all null. */
  function NewAttributes(cls: Class): Attributes {
    map m | m in cls && m.Attribute? :: m.name := Null
  }

  class RemoteObject {
    const id: string
    const cls: Class
    var attributeValues: Attributes

    constructor (id: string, cls: Class)
      ensures this.id == id && this.cls == cls
      ensures attributeValues == NewAttributes(cls)
    {
      this.id, this.cls := id, cls;
      attributeValues := NewAttributes(cls);
    }

    /** `setAttributes`: one loop over the members with its own index into the pieces. */
    method SetAttributes(pieces: Option<seq<string>>) returns (ok: bool)
      modifies this`attributeValues
      ensures (attributeValues, ok) == Assigned(cls, 0, 0, pieces, old(attributeValues))
    {
      var i, ai := 0, 0;
      while i < |cls|
        invariant 0 <= i <= |cls| && 0 <= ai
        invariant Assigned(cls, i, ai, pieces, attributeValues) == Assigned(cls, 0, 0, pieces, old(attributeValues))
      {
        if cls[i].Attribute? {
          var v := PieceAt(pieces, ai);
          if !Settable(cls, cls[i].name, v) { return false; }
          attributeValues := attributeValues[cls[i].name := v];
          ai := ai + 1;
        }
        i := i + 1;
      }
      return true;
    }

    /** `nickChanged` and `nickOnline` for this object; a nick of another object is ignored. */
    method NickChanged(nick: string) returns (ok: bool)
      modifies this`attributeValues
      ensures (attributeValues, ok) == Read(id, cls, nick, old(attributeValues))
    {
      var parts := Split(nick, '|');
      if parts[0] != id { return true; }
      ok := SetAttributes(Some(parts[1..]));
    }
  }

  function Read(id: string, cls: Class, nick: string, attrs: Attributes): (Attributes, bool) {
    var parts := Split(nick, '|');
    if parts[0] != id then (attrs, true) else Assigned(cls, 0, 0, Some(parts[1..]), attrs)
  }

  // ---------------------------------------------------------------- the codec round trip

  /** Every attribute is set to a value its type admits. */
  predicate AllSet(cls: Class, values: Values) {
    forall m :: m in cls && m.Attribute? ==> m.name in values && Admits(m.typ, values[m.name])
  }

  /** The mirror holds, for each attribute of the class, the text of the published value. */
  predicate Mirrors(cls: Class, values: Values, attrs: Attributes) {
    forall m :: m in cls && m.Attribute? ==>
      m.name in values && m.name in attrs && attrs[m.name] == Str(TextOf(values[m.name]))
  }

  lemma {:induction false} TextsAreBarFree(cls: Class, values: Values)
    requires AllSet(cls, values)
    ensures AllFree(AttributeTexts(cls, values), '|')
  {
    if cls == [] {
    } else {
      TextsAreBarFree(cls[1..], values);
      if cls[0].Attribute? { AdmittedPassesCheck(cls[0].typ, values[cls[0].name]); }
    }
  }

  lemma MirrorsOneMore(cls: Class, i: nat, values: Values, attrs: Attributes)
    requires i < |cls| && UniqueNames(cls) && Mirrors(cls[..i], values, attrs)
    requires cls[i].Attribute? ==>
      cls[i].name in values && cls[i].name in attrs && attrs[cls[i].name] == Str(TextOf(values[cls[i].name]))
    ensures Mirrors(cls[..i + 1], values, attrs)
  {
    assert cls[..i + 1] == cls[..i] + [cls[i]];
  }

  lemma MirrorsFrame(cls: Class, i: nat, values: Values, attrs: Attributes, v: JsValue)
    requires i < |cls| && UniqueNames(cls) && Mirrors(cls[..i], values, attrs)
    ensures Mirrors(cls[..i], values, attrs[cls[i].name := v])
  {
  }

  lemma TextsFrom(cls: Class, i: nat, values: Values, pieces: seq<string>, ai: nat)
    requires i < |cls| && ai <= |pieces| && pieces[ai..] == AttributeTexts(cls[i..], values)
    ensures cls[i].Action? ==> pieces[ai..] == AttributeTexts(cls[i + 1..], values)
    ensures cls[i].Attribute? ==> ai < |pieces| && pieces[ai + 1..] == AttributeTexts(cls[i + 1..], values)
    ensures cls[i].Attribute? && cls[i].name in values ==> pieces[ai] == TextOf(values[cls[i].name])
  {
    assert cls[i..][1..] == cls[i + 1..] && cls[i..][0] == cls[i];
    if cls[i].Attribute? {
      assert pieces[ai] == pieces[ai..][0];
      assert pieces[ai + 1..] == pieces[ai..][1..];
    }
  }

  lemma OneAssigned(cls: Class, i: nat, values: Values, attrs: Attributes)
    requires UniqueNames(cls) && AllSet(cls, values) && i < |cls| && cls[i].Attribute? &&
      Mirrors(cls[..i], values, attrs)
    ensures cls[i].name in values
    ensures var v := Str(TextOf(values[cls[i].name]));
      Settable(cls, cls[i].name, v) && Mirrors(cls[..i + 1], values, attrs[cls[i].name := v])
  {
    var m := cls[i];
    var v := Str(TextOf(values[m.name]));
    FindsItself(cls, m);
    AdmittedPassesCheck(m.typ, values[m.name]);
    MirrorsFrame(cls, i, values, attrs, v);
    MirrorsOneMore(cls, i, values, attrs[m.name := v]);
  }

  /** Assigning the texts of the remaining attributes mirrors them, and keeps what was mirrored before. */
  lemma {:induction false} AssignedMirrors(cls: Class, i: nat, ai: nat, pieces: seq<string>, values: Values,
    attrs: Attributes)
    requires UniqueNames(cls) && AllSet(cls, values) && i <= |cls| && ai <= |pieces|
    requires pieces[ai..] == AttributeTexts(cls[i..], values)
    requires Mirrors(cls[..i], values, attrs)
    ensures var r := Assigned(cls, i, ai, Some(pieces), attrs); r.1 && Mirrors(cls, values, r.0)
    decreases |cls| - i
  {
    if i == |cls| {
      assert cls[..i] == cls;
    } else {
      TextsFrom(cls, i, values, pieces, ai);
      if cls[i].Action? {
        MirrorsOneMore(cls, i, values, attrs);
        AssignedMirrors(cls, i + 1, ai, pieces, values, attrs);
      } else {
        OneAssigned(cls, i, values, attrs);
        AssignedMirrors(cls, i + 1, ai + 1, pieces, values, attrs[cls[i].name := Str(pieces[ai])]);
      }
    }
  }

  /** Reading a published nick mirrors exactly the published values, whatever the mirror held. */
  lemma NickRoundTrip(id: string, cls: Class, values: Values, attrs: Attributes)
    requires '|' !in id && UniqueNames(cls) && AllSet(cls, values)
    ensures var r := Read(id, cls, NickOf(id, cls, values), attrs); r.1 && Mirrors(cls, values, r.0)
  {
    var texts := AttributeTexts(cls, values);
    TextsAreBarFree(cls, values);
    SplitJoin([id] + texts, '|');
    assert ([id] + texts)[1..] == texts;
    assert cls[0..] == cls && cls[..0] == [] && texts[0..] == texts;
    AssignedMirrors(cls, 0, 0, texts, values, attrs);
  }

  // ---------------------------------------------------------------- what the codec needs

  /** An id with a bar is never recognized: no nick of the object reaches its mirror. */
  lemma BarredIdIsNotHeard(id: string, cls: Class, nick: string, attrs: Attributes)
    requires '|' in id
    ensures Read(id, cls, nick, attrs) == (attrs, true)
  {
    assert Split(nick, '|')[0] in Split(nick, '|');
  }

  /** Every attribute is set to a value of its type, whatever characters it holds. */
  predicate AllTyped(cls: Class, values: Values) {
    forall m :: m in cls && m.Attribute? ==> m.name in values && HasType(m.typ, values[m.name])
  }

  /** Assigning leaves alone what the remaining members do not name. */
  lemma {:induction false} AssignedFrame(
    cls: Class, i: nat, ai: nat, pieces: Option<seq<string>>, attrs: Attributes, name: string)
    requires i <= |cls| && name in attrs && forall k :: i <= k < |cls| ==> cls[k].name != name
    ensures var r := Assigned(cls, i, ai, pieces, attrs).0; name in r && r[name] == attrs[name]
    decreases |cls| - i
  {
    if i == |cls| {
    } else if cls[i].Action? {
      AssignedFrame(cls, i + 1, ai, pieces, attrs, name);
    } else {
      AssignedFrame(cls, i + 1, ai + 1, pieces, attrs[cls[i].name := PieceAt(pieces, ai)], name);
    }
  }

  /** The first piece of a text with a bar is not the text. */
  lemma BarredPiece(text: string)
    requires '|' in text
    ensures Split(text, '|')[0] != text
  {
    assert Split(text, '|')[0] in Split(text, '|');
  }

  /** The attribute with the first barred text gets a piece of it, or nothing. */
  lemma {:induction false} BarredIsNotMirrored(
    cls: Class, i: nat, ai: nat, pieces: seq<string>, values: Values, attrs: Attributes)
    requires UniqueNames(cls) && AllTyped(cls, values) && i <= |cls| && ai <= |pieces|
    requires pieces[ai..] == SplitEach(AttributeTexts(cls[i..], values), '|')
    requires !AllFree(AttributeTexts(cls[i..], values), '|')
    ensures var r := Assigned(cls, i, ai, Some(pieces), attrs); !(r.1 && Mirrors(cls, values, r.0))
    decreases |cls| - i
  {
    var texts := AttributeTexts(cls[i..], values);
    assert i < |cls| && cls[i..][0] == cls[i] && cls[i..][1..] == cls[i + 1..];
    if cls[i].Action? {
      BarredIsNotMirrored(cls, i + 1, ai, pieces, values, attrs);
    } else {
      var (name, text) := (cls[i].name, texts[0]);
      assert cls[i] in cls && text == TextOf(values[name]);
      assert texts[1..] == AttributeTexts(cls[i + 1..], values);
      assert pieces[ai] == pieces[ai..][0] == Split(text, '|')[0];
      var after := attrs[name := Str(pieces[ai])];
      if '|' in text {
        BarredPiece(text);
        if Settable(cls, name, Str(pieces[ai])) {
          AssignedFrame(cls, i + 1, ai + 1, Some(pieces), after, name);
        }
      } else {
        OnePieceIff(text, '|');
        assert pieces[ai + 1..] == pieces[ai..][1..] == SplitEach(texts[1..], '|');
        BarredIsNotMirrored(cls, i + 1, ai + 1, pieces, values, after);
      }
    }
  }

  lemma {:induction false} FreeTextsAreAdmitted(cls: Class, values: Values)
    requires AllTyped(cls, values) && AllFree(AttributeTexts(cls, values), '|')
    ensures AllSet(cls, values)
  {
    if cls == [] {
    } else {
      var texts := AttributeTexts(cls, values);
      if cls[0].Attribute? {
        AdmittedPassesCheck(cls[0].typ, values[cls[0].name]);
        assert texts[0] in texts && texts[1..] == AttributeTexts(cls[1..], values);
      }
      assert AllFree(AttributeTexts(cls[1..], values), '|');
      FreeTextsAreAdmitted(cls[1..], values);
      assert forall m :: m in cls <==> m == cls[0] || m in cls[1..];
    }
  }

  /**
   For values of their types, every mirror reads the nick without an exception and exactly, if and
   only if no attribute's text holds a bar.
  */
  lemma ReadsExactlyIff(id: string, cls: Class, values: Values, attrs: Attributes)
    requires '|' !in id && UniqueNames(cls) && AllTyped(cls, values)
    ensures var r := Read(id, cls, NickOf(id, cls, values), attrs);
      r.1 && Mirrors(cls, values, r.0) <==> AllFree(AttributeTexts(cls, values), '|')
  {
    var texts := AttributeTexts(cls, values);
    if AllFree(texts, '|') {
      FreeTextsAreAdmitted(cls, values);
      NickRoundTrip(id, cls, values, attrs);
    } else {
      SplitJoinEach([id] + texts, '|');
      SplitHead(id, "", '|');
      assert ([id] + texts)[1..] == texts && cls[0..] == cls;
      var pieces := Split(NickOf(id, cls, values), '|')[1..];
      assert pieces[0..] == pieces == SplitEach(texts, '|');
      BarredIsNotMirrored(cls, 0, 0, pieces, values, attrs);
    }
  }

  /** An attribute behind an action of the same name: every assignment of pieces throws. */
  lemma {:induction false} ShadowedAttributeThrows(
    cls: Class, i: nat, ai: nat, pieces: Option<seq<string>>, attrs: Attributes, k: nat)
    requires i <= k < |cls| && cls[k].Attribute?
    requires MemberByName(cls, cls[k].name).Some? && MemberByName(cls, cls[k].name).value.Action?
    ensures !Assigned(cls, i, ai, pieces, attrs).1
    decreases |cls| - i
  {
    if i == k {
    } else if cls[i].Action? {
      ShadowedAttributeThrows(cls, i + 1, ai, pieces, attrs, k);
    } else if Settable(cls, cls[i].name, PieceAt(pieces, ai)) {
      ShadowedAttributeThrows(cls, i + 1, ai + 1, pieces, attrs[cls[i].name := PieceAt(pieces, ai)], k);
    }
  }

  // ---------------------------------------------------------------- runs

  datatype Setting = Setting(name: string, value: NetValue)

  /** Attribute changes announced by nicks, which the server delivers first in, first out. */
  function NickProtocol(id: string, cls: Class): Protocol<Values, Setting, Attributes> {
    Protocol(
      (values: Values, c: Setting) => values[c.name := c.value],
      (values: Values) => NickOf(id, cls, values),
      (nick: string, attrs: Attributes) => Read(id, cls, nick, attrs).0)
  }

  /** The change is to an attribute of the class, with a value it admits. */
  predicate Legal(cls: Class, c: Setting) {
    match MemberByName(cls, c.name)
    case None => false
    case Some(m) => m.Attribute? && Admits(m.typ, c.value)
  }

  /** The watcher joined when the publisher held these values. */
  predicate Joined(cls: Class, values: Values, r: Replica<Values, Attributes>) {
    r.history == [values] && r.wire == [] && Mirrors(cls, values, r.mirror)
  }

  lemma ChangeKeepsAllSet(cls: Class, values: Values, c: Setting)
    requires UniqueNames(cls) && AllSet(cls, values) && Legal(cls, c)
    ensures AllSet(cls, values[c.name := c.value])
  {
    forall m | m in cls && m.Attribute?
      ensures Admits(m.typ, values[c.name := c.value][m.name])
    {
      FindsItself(cls, m);
    }
  }

  function LegalValues(cls: Class): Values -> bool { (values: Values) => AllSet(cls, values) }

  function LegalSetting(cls: Class): Setting -> bool { (c: Setting) => Legal(cls, c) }

  function Agreement(cls: Class): (Values, Attributes) -> bool {
    (values: Values, attrs: Attributes) => Mirrors(cls, values, attrs)
  }

  lemma CodecIsSound(id: string, cls: Class)
    requires '|' !in id && UniqueNames(cls)
    ensures var p := NickProtocol(id, cls);
      && (forall values, c :: LegalValues(cls)(values) && LegalSetting(cls)(c) ==>
        LegalValues(cls)(p.change(values, c)))
      && (forall values, attrs :: LegalValues(cls)(values) ==>
        Agreement(cls)(values, p.decode(p.encode(values), attrs)))
  {
    var p := NickProtocol(id, cls);
    forall values, c | LegalValues(cls)(values) && LegalSetting(cls)(c) ensures LegalValues(cls)(p.change(values, c)) {
      ChangeKeepsAllSet(cls, values, c);
    }
    forall values, attrs | LegalValues(cls)(values) ensures Agreement(cls)(values, p.decode(p.encode(values), attrs)) {
      NickRoundTrip(id, cls, values, attrs);
    }
  }

  lemma MirrorRun(
    id: string, cls: Class, values: Values, r: Replica<Values, Attributes>, events: seq<Event<Setting>>)
    requires '|' !in id && UniqueNames(cls) && LegalValues(cls)(values)
    requires r.history == [values] && r.wire == [] && Agreement(cls)(values, r.mirror)
    requires forall e :: e in events && e.Change? ==> LegalSetting(cls)(e.change)
    ensures var t := After(NickProtocol(id, cls), r, events);
      && |t.wire| < |t.history|
      && Agreement(cls)(t.history[|t.history| - |t.wire| - 1], t.mirror)
      && (t.wire == [] ==> Agreement(cls)(t.history[|t.history| - 1], t.mirror))
  {
    CodecIsSound(id, cls);
    var (legal, step, agree) := (LegalValues(cls), LegalSetting(cls), Agreement(cls));
    var p := NickProtocol(id, cls);
    RunAgrees(p, legal, step, agree, values, r, events);
  }

  /**
   In every run of attribute changes and deliveries the mirror equals the values the publisher
   held before the changes still on the wire, so once the wire is drained it equals the current
   values.
  */
  lemma MirrorConsistency(
    id: string, cls: Class, values: Values, r: Replica<Values, Attributes>, events: seq<Event<Setting>>)
    requires '|' !in id && UniqueNames(cls) && AllSet(cls, values) && Joined(cls, values, r)
    requires forall e :: e in events && e.Change? ==> Legal(cls, e.change)
    ensures var t := After(NickProtocol(id, cls), r, events);
      && |t.wire| < |t.history|
      && Mirrors(cls, t.history[|t.history| - |t.wire| - 1], t.mirror)
      && (t.wire == [] ==> Mirrors(cls, t.history[|t.history| - 1], t.mirror))
  {
    MirrorRun(id, cls, values, r, events);
  }
}
