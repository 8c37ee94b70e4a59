/** Types, members and classes, as both implementations know them, and the values objects hold. */
module NetStructure {
  import opened Text

  datatype NetType = Range(min: int, max: int) | Enum(values: seq<string>)

  datatype Member =
    | Attribute(name: string, typ: NetType)
    | Action(name: string, arguments: seq<NetType>)

  type Class = seq<Member>

  /** First member with the name. */
  function MemberByName(cls: Class, name: string): (r: Option<Member>)
    ensures r.Some? ==> r.value in cls && r.value.name == name
    ensures r.None? ==> forall m :: m in cls ==> m.name != name
  {
    if cls == [] then None else if cls[0].name == name then Some(cls[0]) else MemberByName(cls[1..], name)
  }

  function AttributeCount(cls: Class): nat {
    if cls == [] then 0 else (if cls[0].Attribute? then 1 else 0) + AttributeCount(cls[1..])
  }

  lemma {:induction false} AttributeCountSnoc(cls: Class, m: Member)
    ensures AttributeCount(cls + [m]) == AttributeCount(cls) + if m.Attribute? then 1 else 0
  {
    if cls == [] {
      assert [m][1..] == [];
    } else {
      assert (cls + [m])[1..] == cls[1..] + [m];
      AttributeCountSnoc(cls[1..], m);
    }
  }

  /** `net_class_create_attribute` and `net_class_create_action` refuse a name that is taken. */
  predicate UniqueNames(cls: Class) {
    forall i, j :: 0 <= i < j < |cls| ==> cls[i].name != cls[j].name
  }

  lemma {:induction false} FindsItself(cls: Class, m: Member)
    requires UniqueNames(cls) && m in cls
    ensures MemberByName(cls, m.name) == Some(m)
  {
    if cls[0].name != m.name {
      FindsItself(cls[1..], m);
    } else {
      assert cls[0] == m;
    }
  }

  /** A value on the C side. */
  datatype NetValue = EnumValue(s: string) | RangeValue(n: int)

  function TextOf(v: NetValue): string {
    match v
    case EnumValue(s) => s
    case RangeValue(n) => IntText(n)
  }

  /** What stands for a value on the wire: an enumeration's word as it is, a number as it is written. */
  predicate Written(v: NetValue, text: string) {
    match v
    case EnumValue(s) => text == s
    case RangeValue(n) => Writes(text, n)
  }

  lemma TextOfIff(v: NetValue, text: string)
    ensures text == TextOf(v) <==> Written(v, text)
  {
    if v.RangeValue? { IntTextIff(text, v.n); }
  }

  predicate HasType(typ: NetType, v: NetValue) {
    match typ
    case Enum(values) => v.EnumValue? && v.s in values
    case Range(min, max) => v.RangeValue? && min <= v.n <= max
  }

  /** A value of the type that the wire can carry. */
  predicate Admits(typ: NetType, v: NetValue) {
    HasType(typ, v) && (v.EnumValue? ==> '|' !in v.s)
  }

  /** A value on the JavaScript side. */
  datatype JsValue = Null | Undefined | Str(s: string)

  /** `checkArg`: falsy values pass; integers may carry trailing text. */
  predicate CheckArg(v: JsValue, typ: NetType) {
    !v.Str? || v.s == "" ||
    match typ
    case Enum(values) => v.s in values
    case Range(min, max) =>
      var scan := ScanInt(v.s);
      scan.value.Some? && min <= scan.value.value <= max
  }

  lemma AdmittedPassesCheck(typ: NetType, v: NetValue)
    requires HasType(typ, v)
    ensures CheckArg(Str(TextOf(v)), typ)
    ensures Admits(typ, v) <==> '|' !in TextOf(v)
  {
    match v
    case EnumValue(s) =>
    case RangeValue(n) => ScanIntText(n); IntTextIsPlain(n);
  }
}
