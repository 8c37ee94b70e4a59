/**
 The text primitives both sides of the network share: JavaScript's `split` on a
 one-character separator, C's `strtok_r` on spaces, and the decimal integer
 scanner common to `parseInt(s, 10)` and `strtol(s, &tail, 10)`.
 */
module Text {

  datatype Option<+T> = None | Some(value: T)

  // ---------------------------------------------------------------- split / join

  function Join(parts: seq<string>, sep: char): string {
    if |parts| == 0 then ""
    else if |parts| == 1 then parts[0]
    else parts[0] + [sep] + Join(parts[1..], sep)
  }

  /** `s.split(sep)`: never empty, separator-free pieces, and joining them gives `s` back. */
  function Split(s: string, sep: char): (parts: seq<string>)
    ensures |parts| >= 1
    ensures forall p :: p in parts ==> sep !in p
    ensures Join(parts, sep) == s
  {
    if s == "" then [""]
    else
      var rest := Split(s[1..], sep);
      if s[0] == sep then
        assert Join([""] + rest, sep) == "" + [sep] + Join(rest, sep) by { assert ([""] + rest)[1..] == rest; }
        [""] + rest
      else
        var parts := [[s[0]] + rest[0]] + rest[1..];
        assert parts[1..] == rest[1..];
        assert Join(parts, sep) == [s[0]] + Join(rest, sep);
        parts
  }

  predicate AllFree(parts: seq<string>, sep: char) {
    forall p :: p in parts ==> sep !in p
  }

  /** A head free of the separator is split off first. */
  lemma {:induction false} SplitHead(head: string, tail: string, sep: char)
    requires sep !in head
    ensures Split(head + [sep] + tail, sep) == [head] + Split(tail, sep)
    ensures Split(head, sep) == [head]
    decreases |head|
  {
    var s := head + [sep] + tail;
    if head == "" {
      assert s[1..] == tail;
    } else {
      assert s[1..] == head[1..] + [sep] + tail;
      assert [s[0]] + head[1..] == head;
      SplitHead(head[1..], tail, sep);
    }
  }

  /** Splitting undoes joining, as long as no piece contains the separator. */
  lemma {:induction false} SplitJoin(parts: seq<string>, sep: char)
    requires |parts| >= 1 && AllFree(parts, sep)
    ensures Split(Join(parts, sep), sep) == parts
    decreases |parts|
  {
    if |parts| == 1 {
      SplitHead(parts[0], "", sep);
    } else {
      SplitJoin(parts[1..], sep);
      SplitHead(parts[0], Join(parts[1..], sep), sep);
      assert [parts[0]] + parts[1..] == parts;
    }
  }

  /** The pieces of two texts around a separator are the pieces of both. */
  lemma {:induction false} SplitConcat(x: string, y: string, sep: char)
    ensures Split(x + [sep] + y, sep) == Split(x, sep) + Split(y, sep)
    decreases |x|
  {
    var s := x + [sep] + y;
    if x == "" {
      assert s[1..] == y;
    } else {
      assert s[0] == x[0] && s[1..] == x[1..] + [sep] + y;
      SplitConcat(x[1..], y, sep);
    }
  }

  /** The pieces of all parts, in order. */
  function SplitEach(parts: seq<string>, sep: char): seq<string> {
    if parts == [] then [] else Split(parts[0], sep) + SplitEach(parts[1..], sep)
  }

  /** Joining any parts and splitting again gives the pieces of all parts. */
  lemma {:induction false} SplitJoinEach(parts: seq<string>, sep: char)
    requires |parts| >= 1
    ensures Split(Join(parts, sep), sep) == SplitEach(parts, sep)
    decreases |parts|
  {
    if |parts| == 1 {
      assert parts[1..] == [];
    } else {
      SplitJoinEach(parts[1..], sep);
      SplitConcat(parts[0], Join(parts[1..], sep), sep);
    }
  }

  lemma OnePieceIff(s: string, sep: char)
    ensures |Split(s, sep)| == 1 <==> sep !in s
  {
    var parts := Split(s, sep);
    if |parts| == 1 { assert parts[0] in parts && parts[0] == Join(parts, sep); }
    if sep !in s { SplitHead(s, "", sep); }
  }

  lemma {:induction false} JoinSnoc(parts: seq<string>, last: string, sep: char)
    requires |parts| >= 1
    ensures Join(parts + [last], sep) == Join(parts, sep) + [sep] + last
    decreases |parts|
  {
    var all := parts + [last];
    if |parts| == 1 {
      assert all[1..] == [last];
    } else {
      assert all[1..] == parts[1..] + [last];
      JoinSnoc(parts[1..], last, sep);
    }
  }

  // ---------------------------------------------------------------- strtok_r

  /** Number of characters before the first space. */
  function TokenLength(s: string): (n: nat)
    ensures n <= |s|
    ensures ' ' !in s[..n]
    ensures n < |s| ==> s[n] == ' '
  {
    if s == "" || s[0] == ' ' then 0
    else
      var m := TokenLength(s[1..]);
      assert s[..m + 1] == [s[0]] + s[1..][..m];
      m + 1
  }

  /** One `strtok_r(NULL, " ", &rest)`: skip spaces, cut at the next one, leave the rest. */
  function NextToken(s: string): (r: (Option<string>, string))
    ensures r.0.Some? ==> r.0.value != "" && ' ' !in r.0.value
  {
    if s == "" then (None, "")
    else if s[0] == ' ' then NextToken(s[1..])
    else
      var n := TokenLength(s);
      (Some(s[..n]), if n < |s| then s[n + 1..] else "")
  }

  lemma {:induction false} TokenLengthOf(word: string, rest: string)
    requires ' ' !in word
    ensures TokenLength(word) == |word|
    ensures TokenLength(word + " " + rest) == |word|
  {
    if word == "" {
    } else {
      var s := word + " " + rest;
      assert s[1..] == word[1..] + " " + rest;
      TokenLengthOf(word[1..], rest);
    }
  }

  /** Reading one token of joined words takes the first word and leaves the join of the others. */
  lemma NextTokenOfJoin(words: seq<string>)
    requires |words| >= 1 && AllFree(words, ' ') && words[0] != ""
    ensures NextToken(Join(words, ' ')) == (Some(words[0]), Join(words[1..], ' '))
  {
    var s := Join(words, ' ');
    TokenLengthOf(words[0], Join(words[1..], ' '));
    if |words| == 1 {
      assert s == words[0];
      assert s[..|s|] == s;
    } else {
      assert s == words[0] + " " + Join(words[1..], ' ');
      assert s[..|words[0]|] == words[0];
      assert s[|words[0]| + 1..] == Join(words[1..], ' ');
    }
  }

  // ---------------------------------------------------------------- integers

  predicate IsDigit(c: char) { '0' <= c <= '9' }

  function DigitValue(c: char): int
    requires IsDigit(c)
  {
    c as int - '0' as int
  }

  predicate AllDigits(s: string) {
    forall c :: c in s ==> IsDigit(c)
  }

  function NatValue(s: string): nat
    requires AllDigits(s)
  {
    if s == "" then 0 else 10 * NatValue(s[..|s| - 1]) + DigitValue(s[|s| - 1])
  }

  function NatText(n: nat): string {
    if n < 10 then [('0' as int + n) as char] else NatText(n / 10) + [('0' as int + n % 10) as char]
  }

  /** The decimal digits of a number denote that number. */
  lemma {:induction false} NatTextValue(n: nat)
    ensures NatText(n) != "" && AllDigits(NatText(n)) && NatValue(NatText(n)) == n
  {
    var s := NatText(n);
    if n < 10 {
      assert s[..0] == "";
    } else {
      NatTextValue(n / 10);
      assert s[..|s| - 1] == NatText(n / 10);
    }
  }

  /** `sprintf("%d", n)`, and JavaScript's conversion of an integer to text. */
  function IntText(n: int): string {
    if n < 0 then "-" + NatText(-n) else NatText(n)
  }

  /** Digits without a needless zero in front. */
  predicate PlainDigits(s: string) {
    s != "" && AllDigits(s) && (s[0] == '0' ==> |s| == 1)
  }

  /** How a number is written: its digits, after a minus sign exactly when it is negative. */
  predicate Writes(s: string, n: int) {
    if n < 0 then s != "" && s[0] == '-' && PlainDigits(s[1..]) && NatValue(s[1..]) == -n
    else PlainDigits(s) && NatValue(s) == n
  }

  lemma {:induction false} NatTextIsPlain(n: nat)
    ensures PlainDigits(NatText(n)) && NatValue(NatText(n)) == n
    ensures n > 0 ==> NatText(n)[0] != '0'
  {
    NatTextValue(n);
    var s := NatText(n);
    if n < 10 {
      assert s[..0] == "";
    } else {
      NatTextIsPlain(n / 10);
      assert s[0] == NatText(n / 10)[0];
    }
  }

  /** Digits that denote less than ten without a needless zero are one digit. */
  lemma {:induction false} PlainValue(s: string)
    requires PlainDigits(s)
    ensures |s| > 1 ==> NatValue(s) >= 10
    decreases |s|
  {
    if |s| == 1 {
    } else {
      var front := s[..|s| - 1];
      assert front[0] == s[0] && s[0] in s;
      assert PlainDigits(front);
      if |front| == 1 {
        assert front[..0] == "" && NatValue("") == 0;
        assert front[0] in front && front[0] != '0';
        assert NatValue(front) == DigitValue(front[0]) >= 1;
        assert NatValue(s) == 10 * NatValue(front) + DigitValue(s[|s| - 1]);
      } else {
        PlainValue(front);
      }
    }
  }

  lemma {:induction false} PlainIsNatText(s: string)
    requires PlainDigits(s)
    ensures s == NatText(NatValue(s))
    decreases |s|
  {
    var (front, last) := (s[..|s| - 1], s[|s| - 1]);
    assert last in s && s == front + [last];
    PlainValue(s);
    if |s| == 1 {
      assert front == "" && NatValue(s) == DigitValue(last);
    } else {
      assert front[0] == s[0];
      PlainIsNatText(front);
      assert NatValue(s) / 10 == NatValue(front) && NatValue(s) % 10 == DigitValue(last);
    }
  }

  /** A rendered integer is the only way to write it. */
  lemma IntTextIff(s: string, n: int)
    ensures s == IntText(n) <==> Writes(s, n)
  {
    NatTextIsPlain(if n < 0 then -n else n);
    if n < 0 {
      assert ("-" + NatText(-n))[1..] == NatText(-n);
      if Writes(s, n) {
        PlainIsNatText(s[1..]);
        assert s == "-" + s[1..];
      }
    } else if Writes(s, n) {
      PlainIsNatText(s);
    }
  }

  function DigitCount(s: string): (n: nat)
    ensures n <= |s| && AllDigits(s[..n])
    ensures n < |s| ==> !IsDigit(s[n])
  {
    if s == "" || !IsDigit(s[0]) then 0
    else
      var m := DigitCount(s[1..]);
      assert s[..m + 1] == [s[0]] + s[1..][..m];
      m + 1
  }

  predicate IsBlank(c: char) { c == ' ' || 9 <= c as int <= 13 }

  function SkipBlanks(s: string): string {
    if s != "" && IsBlank(s[0]) then SkipBlanks(s[1..]) else s
  }

  datatype Scan = Scan(value: Option<int>, tail: string)

  /** An optional sign and the longest run of digits. */
  function ScanSigned(t: string): Scan {
    var signed := t != "" && (t[0] == '-' || t[0] == '+');
    var u := if signed then t[1..] else t;
    var n := DigitCount(u);
    if n == 0 then Scan(None, t)
    else
      var magnitude: int := NatValue(u[..n]);
      Scan(Some(if signed && t[0] == '-' then -magnitude else magnitude), u[n..])
  }

  /**
   The scanner behind both `parseInt(s, 10)` and `strtol(s, &tail, 10)`: blanks, an
   optional sign, then the longest run of digits. Without a digit there is no value
   (NaN on one side, tail == s on the other).
   */
  function ScanInt(s: string): Scan {
    var scan := ScanSigned(SkipBlanks(s));
    if scan.value.None? then Scan(None, s) else scan
  }

  lemma {:induction false} DigitCountOf(digits: string, tail: string)
    requires AllDigits(digits) && (tail == "" || !IsDigit(tail[0]))
    ensures DigitCount(digits + tail) == |digits|
  {
    if digits == "" {
      assert digits + tail == tail;
    } else {
      assert (digits + tail)[1..] == digits[1..] + tail && digits[0] in digits;
      DigitCountOf(digits[1..], tail);
    }
  }

  lemma {:induction false} SkipBlanksOf(blanks: string, rest: string)
    requires (forall c :: c in blanks ==> IsBlank(c)) && (rest == "" || !IsBlank(rest[0]))
    ensures SkipBlanks(blanks + rest) == rest
  {
    if blanks == "" {
      assert blanks + rest == rest;
    } else {
      assert (blanks + rest)[1..] == blanks[1..] + rest && blanks[0] in blanks;
      SkipBlanksOf(blanks[1..], rest);
    }
  }

  predicate IsSign(sign: string) {
    sign != "" ==> |sign| == 1 && (sign[0] == '-' || sign[0] == '+')
  }

  /** The value of digits behind a sign. */
  function Signed(sign: string, digits: string): int
    requires AllDigits(digits)
  {
    if sign != "" && sign[0] == '-' then -(NatValue(digits) as int) else NatValue(digits)
  }

  lemma UnsignedMeaning(digits: string, tail: string)
    requires AllDigits(digits) && (tail == "" || !IsDigit(tail[0]))
    requires digits == "" && tail != "" ==> tail[0] != '-' && tail[0] != '+'
    ensures ScanSigned(digits + tail) ==
      if digits == "" then Scan(None, digits + tail) else Scan(Some(Signed("", digits)), tail)
  {
    var u := digits + tail;
    DigitCountOf(digits, tail);
    assert u[..|digits|] == digits && u[|digits|..] == tail;
    if digits != "" { assert u[0] == digits[0] && digits[0] in digits; }
  }

  lemma SignedMeaning(sign: string, digits: string, tail: string)
    requires IsSign(sign) && sign != "" && AllDigits(digits) && (tail == "" || !IsDigit(tail[0]))
    ensures ScanSigned(sign + (digits + tail)) ==
      if digits == "" then Scan(None, sign + (digits + tail)) else Scan(Some(Signed(sign, digits)), tail)
  {
    var (t, u) := (sign + (digits + tail), digits + tail);
    DigitCountOf(digits, tail);
    assert u[..|digits|] == digits && u[|digits|..] == tail;
    assert t[0] == sign[0] && t[1..] == u;
  }

  lemma BlanksAreSkipped(blanks: string, t: string)
    requires (forall c :: c in blanks ==> IsBlank(c)) && (t == "" || !IsBlank(t[0]))
    ensures ScanInt(blanks + t) == if ScanSigned(t).value.None? then Scan(None, blanks + t) else ScanSigned(t)
  {
    SkipBlanksOf(blanks, t);
  }

  /**
   What the scanner reads: any spaces, tabs and line ends, at most one sign, all digits
   that follow, and the rest is the tail. Without a digit at that place it reads nothing.
  */
  lemma ScanMeaning(blanks: string, sign: string, digits: string, tail: string)
    requires (forall c :: c in blanks ==> c as int in {9, 10, 11, 12, 13, 32}) && IsSign(sign) && AllDigits(digits)
    requires tail == "" || !IsDigit(tail[0])
    requires sign == "" && digits == "" && tail != "" ==>
      tail[0] as int !in {9, 10, 11, 12, 13, 32} && tail[0] !in {'-', '+'}
    ensures var s := blanks + (sign + (digits + tail));
      ScanInt(s) == if digits == "" then Scan(None, s) else Scan(Some(Signed(sign, digits)), tail)
  {
    var t := sign + (digits + tail);
    if sign == "" {
      assert t == digits + tail;
      if digits != "" { assert t[0] == digits[0] && digits[0] in digits; }
      UnsignedMeaning(digits, tail);
    } else {
      assert t[0] == sign[0];
      SignedMeaning(sign, digits, tail);
    }
    BlanksAreSkipped(blanks, t);
  }

  lemma ScanDigits(digits: string)
    requires digits != "" && AllDigits(digits)
    ensures DigitCount(digits) == |digits| && digits[..|digits|] == digits && digits[|digits|..] == ""
    ensures !IsBlank(digits[0]) && digits[0] != '-' && digits[0] != '+'
  {
    assert digits[0] in digits;
  }

  /** The scanner reads a rendered integer completely and gets it back. */
  lemma ScanIntText(n: int)
    ensures ScanInt(IntText(n)) == Scan(Some(n), "")
  {
    var digits := NatText(if n < 0 then -n else n);
    NatTextValue(if n < 0 then -n else n);
    ScanDigits(digits);
    var s := IntText(n);
    if n < 0 {
      assert s == "-" + digits && s[1..] == digits && !IsBlank(s[0]);
    }
    assert SkipBlanks(s) == s;
  }

  /** A rendered integer is not empty and holds digits and at most a minus sign. */
  lemma IntTextIsPlain(n: int)
    ensures IntText(n) != ""
    ensures ' ' !in IntText(n) && '|' !in IntText(n) && ':' !in IntText(n)
  {
    NatTextValue(if n < 0 then -n else n);
  }
}
