/**
 Commands travel as channel messages (PRIVMSG, section 4.4.1 of RFC 1459): id, action and
 arguments separated by spaces. The core renders them, the C daemon tokenizes and checks them,
 and the core's own plugins parse the same text by splitting it.
 */
module Command {
  import opened Text
  import opened NetStructure

  /** The message a remote object sends when one of its actions is executed. */
  function Render(id: string, name: string, args: seq<string>): string {
    Join([id, name] + args, ' ')
  }

  /** The same, as the core builds it: appending argument after argument. */
  method BuildMessage(id: string, name: string, args: seq<string>) returns (msg: string)
    ensures msg == Render(id, name, args)
  {
    msg := id + " " + name;
    assert [id, name] + args[..0] == [id, name] && [id, name][1..] == [name];
    for i := 0 to |args|
      invariant msg == Join([id, name] + args[..i], ' ')
    {
      JoinSnoc([id, name] + args[..i], args[i], ' ');
      assert [id, name] + args[..i + 1] == [id, name] + args[..i] + [args[i]];
      msg := msg + " " + args[i];
    }
    assert args[..|args|] == args;
  }

  // ---------------------------------------------------------------- whom a message addresses

  /** The text before the first bar, as `strchr` and the length comparison find it. */
  function BeforeBar(nick: string): (s: string)
    ensures '|' !in s && s <= nick
  {
    if nick == "" || nick[0] == '|' then "" else [nick[0]] + BeforeBar(nick[1..])
  }

  /** `irc_id_equals` */
  predicate IrcIdEquals(a: string, b: string) {
    BeforeBar(a) == BeforeBar(b)
  }

  /** `isMyNick` */
  predicate IsMyNick(nick: string, id: string) {
    Split(nick, '|')[0] == id
  }

  lemma {:induction false} BeforeBarIsFirstPiece(nick: string)
    ensures Split(nick, '|')[0] == BeforeBar(nick)
  {
    if nick == "" || nick[0] == '|' {
    } else {
      BeforeBarIsFirstPiece(nick[1..]);
    }
  }

  lemma {:induction false} BeforeBarOfPlain(id: string)
    requires '|' !in id
    ensures BeforeBar(id) == id
  {
    if id == "" {
    } else {
      BeforeBarOfPlain(id[1..]);
    }
  }

  /** Both sides recognize an object by the same nicks. */
  lemma SidesAgreeOnAddress(nick: string, id: string)
    requires '|' !in id
    ensures IrcIdEquals(nick, id) <==> IsMyNick(nick, id)
  {
    BeforeBarIsFirstPiece(nick);
    BeforeBarOfPlain(id);
  }

  // ---------------------------------------------------------------- arguments on the C side

  /** `local_call_param` on one token: None when it is refused. */
  function CallParam(typ: NetType, token: string): Option<NetValue> {
    match typ
    case Enum(values) => if token in values then Some(EnumValue(token)) else None
    case Range(min, max) =>
      var scan := ScanInt(token);
      if scan.tail != "" || scan.value.None? || scan.value.value < min || scan.value.value > max then None
      else Some(RangeValue(scan.value.value))
  }

  /** One value for each type, or None at the first missing or refused token; further tokens are not looked at. */
  function ParseArgs(types: seq<NetType>, rest: string): Option<seq<NetValue>>
    decreases |types|
  {
    if types == [] then Some([])
    else
      match NextToken(rest)
      case (None, _) => None
      case (Some(token), tail) =>
        match CallParam(types[0], token)
        case None => None
        case Some(v) =>
          match ParseArgs(types[1..], tail)
          case None => None
          case Some(vs) => Some([v] + vs)
  }

  /** `Crashed` is a null word given to `strchr` or `strcmp`. */
  datatype Reaction =
    | Crashed
    | Ignored
    | UnknownAction
    | BadArguments
    | Executed(name: string, values: seq<NetValue>)

  /** The tokens a message starts with: the target, unless the message was sent to the object itself, and the action. */
  function Header(to: string, text: string): (Option<string>, Option<string>, string) {
    if to != "" && to[0] == '#' then
      var (target, rest) := NextToken(text);
      var (cmd, tail) := NextToken(rest);
      (target, cmd, tail)
    else
      var (cmd, tail) := NextToken(text);
      (Some(to), cmd, tail)
  }

  /**
   What the daemon's object does with a message: the target is compared before the action is looked at,
   and a class without members compares nothing with it.
  */
  function React(id: string, cls: Class, to: string, text: string): Reaction {
    var (target, cmd, tail) := Header(to, text);
    if target.None? then Crashed
    else if !IrcIdEquals(target.value, id) then Ignored
    else if cmd.None? then (if cls == [] then UnknownAction else Crashed)
    else
      match MemberByName(cls, cmd.value)
      case None => UnknownAction
      case Some(Attribute(_, _)) => UnknownAction
      case Some(Action(name, types)) =>
        match ParseArgs(types, tail)
        case None => BadArguments
        case Some(values) => Executed(name, values)
  }

  function Filled(values: seq<Option<NetValue>>, n: nat): seq<NetValue>
    requires n <= |values| && forall k :: 0 <= k < n ==> values[k].Some?
  {
    seq(n, k requires 0 <= k < n => values[k].value)
  }

  function Prepend(vs: seq<NetValue>, r: Option<seq<NetValue>>): Option<seq<NetValue>> {
    if r.None? then None else Some(vs + r.value)
  }

  lemma PrependTwice(a: seq<NetValue>, b: seq<NetValue>, r: Option<seq<NetValue>>)
    ensures Prepend(a, Prepend(b, r)) == Prepend(a + b, r)
    ensures Prepend([], r) == r
  {
    if r.Some? { assert a + (b + r.value) == a + b + r.value && [] + r.value == r.value; }
  }

  /** Parsing from argument i on, one token further. */
  lemma ParseStep(types: seq<NetType>, i: nat, cursor: string)
    requires i < |types|
    ensures var (token, tail) := NextToken(cursor);
      var v := if token.Some? then CallParam(types[i], token.value) else None;
      ParseArgs(types[i..], cursor) == if v.None? then None else Prepend([v.value], ParseArgs(types[i + 1..], tail))
  {
    assert types[i..][1..] == types[i + 1..];
  }

  lemma FilledSnoc(values: seq<Option<NetValue>>, n: nat, v: NetValue)
    requires n < |values| && forall k :: 0 <= k < n ==> values[k].Some?
    ensures Filled(values[n := Some(v)], n + 1) == Filled(values, n) + [v]
  {
  }

  /** The argument table: it starts empty and is filled from the left until a token is missing or refused. */
  method FillArguments(types: seq<NetType>, text: string) returns (values: seq<Option<NetValue>>)
    ensures |values| == |types|
    ensures (forall k :: 0 <= k < |values| ==> values[k].Some?) <==> ParseArgs(types, text).Some?
    ensures ParseArgs(types, text).Some? ==> Filled(values, |values|) == ParseArgs(types, text).value
  {
    values := seq(|types|, _ => None);
    var filled, cursor := 0, text;
    assert types[0..] == types;
    PrependTwice([], [], ParseArgs(types, text));
    assert Filled(values, 0) == [];
    while filled < |types|
      invariant 0 <= filled <= |types| && |values| == |types|
      invariant forall k :: 0 <= k < filled ==> values[k].Some?
      invariant forall k :: filled <= k < |types| ==> values[k] == None
      invariant ParseArgs(types, text) == Prepend(Filled(values, filled), ParseArgs(types[filled..], cursor))
    {
      ParseStep(types, filled, cursor);
      var (token, tail) := NextToken(cursor);
      var v := if token.Some? then CallParam(types[filled], token.value) else None;
      if v.None? {
        assert values[filled].None?;
        return;
      }
      FilledSnoc(values, filled, v.value);
      PrependTwice(Filled(values, filled), [v.value], ParseArgs(types[filled + 1..], tail));
      values := values[filled := v];
      cursor, filled := tail, filled + 1;
    }
    assert types[filled..] == [];
    assert Filled(values, filled) + [] == Filled(values, filled);
  }

  /** `local_event_message`: a second pass over the argument table looks for holes. */
  method EventMessage(id: string, cls: Class, to: string, text: string) returns (r: Reaction)
    ensures r == React(id, cls, to, text)
  {
    var (target, cmd, cursor) := Header(to, text);
    if target.None? { return Crashed; }
    if !IrcIdEquals(target.value, id) { return Ignored; }
    if cmd.None? { return if cls == [] then UnknownAction else Crashed; }
    var action := MemberByName(cls, cmd.value);
    if action.None? || action.value.Attribute? { return UnknownAction; }
    var values := FillArguments(action.value.arguments, cursor);
    for i := 0 to |values|
      invariant forall k :: 0 <= k < i ==> values[k].Some?
    {
      if values[i].None? { return BadArguments; }
    }
    r := Executed(action.value.name, Filled(values, |values|));
  }

  // ---------------------------------------------------------------- messages that are too short

  /** The words of a text: its pieces between spaces, the empty ones left out. */
  function Words(s: string): seq<string> {
    NonEmpty(Split(s, ' '))
  }

  function NonEmpty(pieces: seq<string>): seq<string> {
    if pieces == [] then [] else (if pieces[0] == "" then [] else [pieces[0]]) + NonEmpty(pieces[1..])
  }

  lemma WordsOf(word: string, rest: string)
    requires ' ' !in word
    ensures Words(word) == if word == "" then [] else [word]
    ensures Words(word + " " + rest) == (if word == "" then [] else [word]) + Words(rest)
  {
    SplitHead(word, rest, ' ');
    assert [word][1..] == [] && NonEmpty([word][1..]) == [];
    assert ([word] + Split(rest, ' '))[1..] == Split(rest, ' ');
  }

  /** Tokens are words, one after the other. */
  lemma {:induction false} TokensAreWords(s: string)
    ensures var (token, rest) := NextToken(s);
      if Words(s) == [] then token.None? && Words(rest) == []
      else token == Some(Words(s)[0]) && Words(rest) == Words(s)[1..]
    decreases |s|
  {
    if s == "" {
      WordsOf("", "");
    } else if s[0] == ' ' {
      TokensAreWords(s[1..]);
      assert s == "" + " " + s[1..];
      WordsOf("", s[1..]);
    } else {
      var n := TokenLength(s);
      if n < |s| {
        assert s == s[..n] + " " + s[n + 1..];
        WordsOf(s[..n], s[n + 1..]);
      } else {
        assert s == s[..n];
        WordsOf(s, "");
        WordsOf("", "");
      }
    }
  }

  /**
   The daemon crashes exactly on a channel message without any word, and on a message addressed to
   an object with members that has no word for the action.
  */
  lemma CrashIff(id: string, cls: Class, to: string, text: string)
    ensures React(id, cls, to, text).Crashed? <==>
      var words := Words(text);
      if to != "" && to[0] == '#' then words == [] || (|words| == 1 && IrcIdEquals(words[0], id) && cls != [])
      else words == [] && IrcIdEquals(to, id) && cls != []
  {
    TokensAreWords(text);
    TokensAreWords(NextToken(text).1);
  }

  // ---------------------------------------------------------------- what any message does

  /** The daemon takes the word for a value of the type. */
  predicate Taken(typ: NetType, word: string, v: NetValue) {
    match typ
    case Enum(values) => word in values && v == EnumValue(word)
    case Range(min, max) =>
      v.RangeValue? && ScanInt(word) == Scan(Some(v.n), "") && min <= v.n <= max
  }

  lemma TakenIff(typ: NetType, word: string)
    ensures forall v :: CallParam(typ, word) == Some(v) <==> Taken(typ, word, v)
  {
  }

  predicate Acceptable(typ: NetType, word: string) {
    match typ
    case Enum(values) => word in values
    case Range(min, max) =>
      var scan := ScanInt(word);
      scan.tail == "" && scan.value.Some? && min <= scan.value.value <= max
  }

  /** There are enough words, and each of the first ones is acceptable for its type. */
  predicate AllAcceptable(types: seq<NetType>, words: seq<string>) {
    |types| <= |words| && forall i :: 0 <= i < |types| ==> Acceptable(types[i], words[i])
  }

  /** Arguments parse exactly when the words of the text are acceptable, and each value is what its word stands for. */
  lemma {:induction false} ParseMeaning(types: seq<NetType>, text: string)
    ensures ParseArgs(types, text).Some? <==> AllAcceptable(types, Words(text))
    ensures var r := ParseArgs(types, text); r.Some? ==>
      && |r.value| == |types|
      && forall i :: 0 <= i < |types| ==> Taken(types[i], Words(text)[i], r.value[i])
    decreases |types|
  {
    if types == [] {
    } else {
      var (token, tail) := NextToken(text);
      var words := Words(text);
      TokensAreWords(text);
      if words != [] {
        TakenIff(types[0], words[0]);
        ParseMeaning(types[1..], tail);
        assert Words(tail) == words[1..];
        assert CallParam(types[0], words[0]).Some? <==> Acceptable(types[0], words[0]);
        AcceptableStep(types, words);
      }
    }
  }

  lemma AcceptableStep(types: seq<NetType>, words: seq<string>)
    requires types != [] && words != []
    ensures AllAcceptable(types, words) <==> Acceptable(types[0], words[0]) && AllAcceptable(types[1..], words[1..])
  {
    if Acceptable(types[0], words[0]) && AllAcceptable(types[1..], words[1..]) {
      forall i | 0 <= i < |types| ensures Acceptable(types[i], words[i]) {
        if i > 0 { assert types[i] == types[1..][i - 1] && words[i] == words[1..][i - 1]; }
      }
    }
  }

  /** Whom a message names: the first word of a channel message, or the one it was sent to. */
  function Named(to: string, words: seq<string>): Option<string> {
    if to != "" && to[0] == '#' then (if words == [] then None else Some(words[0])) else Some(to)
  }

  /** The words after the name: the action and its arguments. */
  function Spoken(to: string, words: seq<string>): seq<string> {
    if to != "" && to[0] == '#' && words != [] then words[1..] else words
  }

  ghost predicate Addressed(id: string, to: string, words: seq<string>) {
    Named(to, words).Some? && Split(Named(to, words).value, '|')[0] == Split(id, '|')[0]
  }

  /** The message's action, when it names one of the class. */
  function ActionNamed(cls: Class, spoken: seq<string>): Option<Member> {
    if spoken == [] then None
    else match MemberByName(cls, spoken[0])
      case Some(Action(name, types)) => Some(Action(name, types))
      case _ => None
  }

  lemma HeaderWords(to: string, text: string)
    ensures var (words, (target, cmd, tail)) := (Words(text), Header(to, text));
      && target == Named(to, words)
      && cmd == (if Spoken(to, words) == [] then None else Some(Spoken(to, words)[0]))
      && (cmd.Some? ==> Words(tail) == Spoken(to, words)[1..])
  {
    TokensAreWords(text);
    TokensAreWords(NextToken(text).1);
  }

  /**
   What a message does, told from its words. It executes exactly when it is addressed to the object,
   names an action, and gives an acceptable word for each parameter; the values are what these words
   stand for. An action with fewer or other words is refused as badly called, any other word as
   unknown; a message for somebody else is ignored.
  */
  lemma MessageMeaning(id: string, cls: Class, to: string, text: string)
    ensures var words := Words(text); var spoken := Spoken(to, words);
      var (r, action) := (React(id, cls, to, text), ActionNamed(cls, spoken));
      && (r.Ignored? <==> Named(to, words).Some? && !Addressed(id, to, words))
      && (r.Executed? <==>
            Addressed(id, to, words) && action.Some? && AllAcceptable(action.value.arguments, spoken[1..]))
      && (r.BadArguments? <==>
            Addressed(id, to, words) && action.Some? && !AllAcceptable(action.value.arguments, spoken[1..]))
      && (r.UnknownAction? <==> Addressed(id, to, words) && action.None? && (spoken != [] || cls == []))
      && (r.Executed? ==>
            && r.name == spoken[0] && |r.values| == |action.value.arguments|
            && forall i :: 0 <= i < |r.values| ==> Taken(action.value.arguments[i], spoken[1 + i], r.values[i]))
  {
    var words := Words(text);
    var (target, cmd, tail) := Header(to, text);
    HeaderWords(to, text);
    if target.Some? {
      BeforeBarIsFirstPiece(target.value);
      BeforeBarIsFirstPiece(id);
    }
    var action := ActionNamed(cls, Spoken(to, words));
    if action.Some? { ParseMeaning(action.value.arguments, tail); }
  }

  /** A one-word message to a channel: the object it names crashes if it has members, any other ignores it. */
  lemma OneWord(id: string, cls: Class, other: string)
    requires Plain(id) && Plain(other)
    ensures React(id, cls, "#c", other) ==
      if other != id then Ignored else if cls == [] then UnknownAction else Crashed
  {
    BeforeBarOfPlain(id);
    BeforeBarOfPlain(other);
    WordsOf(other, "");
    TokensAreWords(other);
    TokensAreWords(NextToken(other).1);
  }

  // ---------------------------------------------------------------- messages on the core's side

  /** `message` of a published plugin: the action and its arguments, or None when the message is not for it. */
  function JsMessage(id: string, to: string, text: string): Option<(string, seq<string>)> {
    var args := Split(text, ' ');
    if to != "" && to[0] == '#' then
      if |args| < 2 || !IsMyNick(args[0], id) then None else Some((args[1], args[2..]))
    else Some((args[0], args[1..]))
  }

  // ---------------------------------------------------------------- round trips

  /** Not empty, and free of what separates commands and nicks. */
  predicate Plain(s: string) {
    s != "" && ' ' !in s && '|' !in s
  }

  predicate Word(s: string) {
    s != "" && ' ' !in s
  }

  /** `executeAction` accepts the arguments. */
  predicate ArgsChecked(types: seq<NetType>, args: seq<string>) {
    |args| == |types| && forall i :: 0 <= i < |args| ==> CheckArg(Str(args[i]), types[i])
  }

  /** Every integer argument is written the way an integer is rendered. */
  ghost predicate ArgsCanonical(types: seq<NetType>, args: seq<string>) {
    && |args| == |types|
    && (forall i :: 0 <= i < |args| ==> Word(args[i]))
    && (forall i :: 0 <= i < |args| && types[i].Range? ==> exists n :: Writes(args[i], n))
  }

  function Texts(values: seq<NetValue>): seq<string> {
    seq(|values|, i requires 0 <= i < |values| => TextOf(values[i]))
  }

  /**
   The daemon accepts a token exactly when the core's check does and, for an integer, nothing
   follows the digits.
  */
  lemma ParamAcceptedIff(typ: NetType, token: string)
    requires Word(token)
    ensures CallParam(typ, token).Some? <==>
      CheckArg(Str(token), typ) && (typ.Range? ==> ScanInt(token).tail == "")
  {
  }

  /** The core's check lets `12abc` pass as an integer; the daemon refuses it. */
  lemma TrailingTextSplitsTheSides()
    ensures CheckArg(Str("12abc"), Range(0, 100)) && CallParam(Range(0, 100), "12abc") == None
  {
    var s := "12abc";
    assert s[1..][1..] == "abc" && s[2..] == "abc";
    assert DigitCount(s[1..][1..]) == 0;
    assert DigitCount(s[1..]) == 1;
    assert DigitCount(s) == 2;
    assert s[..2] == "12";
    assert "12"[..1] == "1" && "1"[..0] == "";
    assert NatValue("1") == 1;
    assert NatValue("12") == 12;
    assert SkipBlanks(s) == s;
    assert ScanInt(s) == Scan(Some(12), "abc");
  }

  lemma ParamRoundTrip(typ: NetType, arg: string)
    requires Word(arg) && CheckArg(Str(arg), typ) && (typ.Range? ==> exists n :: Writes(arg, n))
    ensures CallParam(typ, arg).Some? && TextOf(CallParam(typ, arg).value) == arg
  {
    if typ.Range? {
      var n :| Writes(arg, n);
      IntTextIff(arg, n);
      ScanIntText(n);
    }
  }

  lemma TextsPrepend(v: NetValue, vs: seq<NetValue>)
    ensures Texts([v] + vs) == [TextOf(v)] + Texts(vs)
  {
  }

  lemma ArgsHeadAndTail(types: seq<NetType>, args: seq<string>)
    requires types != [] && ArgsChecked(types, args) && ArgsCanonical(types, args)
    ensures AllFree(args, ' ') && args[0] != ""
    ensures CallParam(types[0], args[0]).Some? && TextOf(CallParam(types[0], args[0]).value) == args[0]
    ensures ArgsChecked(types[1..], args[1..]) && ArgsCanonical(types[1..], args[1..])
  {
    ParamRoundTrip(types[0], args[0]);
  }

  lemma {:induction false} ArgsRoundTrip(types: seq<NetType>, args: seq<string>)
    requires ArgsChecked(types, args) && ArgsCanonical(types, args)
    ensures var r := ParseArgs(types, Join(args, ' ')); r.Some? && Texts(r.value) == args
    decreases |types|
  {
    if types == [] {
    } else {
      ArgsHeadAndTail(types, args);
      ArgsRoundTrip(types[1..], args[1..]);
      NextTokenOfJoin(args);
      assert types[0..] == types;
      ParseStep(types, 0, Join(args, ' '));
      TextsPrepend(CallParam(types[0], args[0]).value, ParseArgs(types[1..], Join(args[1..], ' ')).value);
    }
  }

  lemma RenderedHeader(id: string, name: string, args: seq<string>, to: string)
    requires Word(id) && Word(name) && forall a :: a in args ==> Word(a)
    requires to != "" && to[0] == '#'
    ensures Header(to, Render(id, name, args)) == (Some(id), Some(name), Join(args, ' '))
  {
    var words := [id, name] + args;
    assert words[1..] == [name] + args && words[1..][1..] == args;
    NextTokenOfJoin(words);
    NextTokenOfJoin(words[1..]);
  }

  /**
   A checked, canonical command sent to a channel makes exactly the object with the addressed id
   execute exactly that action with those arguments, and every other object ignore it. The
   address may be the object's id or any of its nicks.
  */
  lemma CommandRoundTrip(address: string, name: string, types: seq<NetType>, args: seq<string>, to: string,
    id: string, cls: Class)
    requires Word(address) && Word(name) && Plain(id) && to != "" && to[0] == '#'
    requires ArgsChecked(types, args) && ArgsCanonical(types, args)
    requires BeforeBar(address) == id ==> MemberByName(cls, name) == Some(Action(name, types))
    ensures var text := Render(address, name, args);
      && (BeforeBar(address) != id ==> React(id, cls, to, text) == Ignored)
      && (BeforeBar(address) == id ==>
            var r := React(id, cls, to, text); r.Executed? && r.name == name && Texts(r.values) == args)
  {
    RenderedHeader(address, name, args, to);
    BeforeBarOfPlain(id);
    ArgsRoundTrip(types, args);
  }

  /** Core plugins read a rendered command the same way: same addressee, same action, same arguments. */
  lemma JsRoundTrip(address: string, name: string, args: seq<string>, to: string, id: string)
    requires Word(address) && Word(name) && Plain(id) && to != "" && to[0] == '#'
    requires forall a :: a in args ==> Word(a)
    ensures JsMessage(id, to, Render(address, name, args)) ==
      if BeforeBar(address) == id then Some((name, args)) else None
  {
    var words := [address, name] + args;
    SplitJoin(words, ' ');
    assert words[2..] == args;
    BeforeBarIsFirstPiece(address);
  }

  /**
   The core's plugin hears exactly the renderings: on a channel, of a command for a nick of its own,
   and sent to itself, of an action and its arguments, with any pieces between the spaces.
  */
  lemma JsHearsIff(id: string, to: string, text: string, name: string, args: seq<string>)
    requires '|' !in id
    ensures JsMessage(id, to, text) == Some((name, args)) <==>
      if to != "" && to[0] == '#' then
        exists address :: BeforeBar(address) == id && AllFree([address, name] + args, ' ') &&
          text == Render(address, name, args)
      else AllFree([name] + args, ' ') && text == Join([name] + args, ' ')
  {
    var pieces := Split(text, ' ');
    if to != "" && to[0] == '#' {
      if |pieces| >= 2 {
        assert pieces == [pieces[0], pieces[1]] + pieces[2..];
        BeforeBarIsFirstPiece(pieces[0]);
      }
      forall address | AllFree([address, name] + args, ' ') && text == Render(address, name, args)
        ensures pieces == [address, name] + args && pieces[2..] == args
      {
        SplitJoin([address, name] + args, ' ');
      }
    } else {
      assert pieces == [pieces[0]] + pieces[1..];
      if AllFree([name] + args, ' ') && text == Join([name] + args, ' ') { SplitJoin([name] + args, ' '); }
    }
  }

  /** A message sent to the plugin itself is the action and its arguments, without an address. */
  lemma JsDirectRoundTrip(name: string, args: seq<string>, to: string, id: string)
    requires Word(name) && (to == "" || to[0] != '#') && forall a :: a in args ==> Word(a)
    ensures JsMessage(id, to, Join([name] + args, ' ')) == Some((name, args))
  {
    var words := [name] + args;
    SplitJoin(words, ' ');
    assert words[1..] == args;
  }
}
