/**
 * The canonical printer behind payload hashing, and an independent reader (sections 4, 5 and 7 of
 * RFC 8259, no insignificant whitespace) that recovers the decoded value from its output.
 */
module Json {
  import opened Common

  predicate Digit(c: char) {
    '0' <= c <= '9'
  }

  predicate NumeralChar(c: char) {
    Digit(c) || c == '-' || c == '+' || c == '.' || c == 'e' || c == 'E'
  }

  predicate IsNumeral(s: string) {
    s != [] && (Digit(s[0]) || s[0] == '-') && forall c <- s :: NumeralChar(c)
  }

  /** A number as `json.Marshal` writes it. */
  type Numeral = s: string | IsNumeral(s) witness "0"

  /** What `json.Unmarshal` into an empty interface yields. */
  datatype Value =
    | Null
    | Bool(b: bool)
    | Number(text: Numeral)
    | Str(s: string)
    | Array(items: seq<Value>)
    | Object(fields: map<string, Value>)

  // ---- Strings ----

  function HexChar(d: nat): char
    requires d < 16
  {
    if d < 10 then ('0' as int + d) as char else ('a' as int + d - 10) as char
  }

  function Hex4(n: nat): string
    requires n < 0x10000
  {
    var a := n / 0x10;
    var b := a / 0x10;
    [HexChar(b / 0x10), HexChar(b % 0x10), HexChar(a % 0x10), HexChar(n % 0x10)]
  }

  predicate NeedsHex(c: char) {
    c < ' ' || c in {'<', '>', '&', '\U{2028}', '\U{2029}'}
  }

  /** One character of a string literal as `json.Marshal` writes it. */
  function Escape(c: char): (e: string)
    ensures e != []
  {
    match c
    case '"' => "\\\""
    case '\\' => "\\\\"
    case '\U{8}' => "\\b"
    case '\U{c}' => "\\f"
    case '\n' => "\\n"
    case '\r' => "\\r"
    case '\t' => "\\t"
    case _ => if NeedsHex(c) then "\\u" + Hex4(c as int) else [c]
  }

  function EscapeAll(s: string): string {
    if s == [] then [] else Escape(s[0]) + EscapeAll(s[1..])
  }

  function Quote(s: string): string {
    "\"" + EscapeAll(s) + "\""
  }

  function HexDigit(c: char): Option<nat> {
    if '0' <= c <= '9' then Some(c as int - '0' as int)
    else if 'a' <= c <= 'f' then Some(c as int - 'a' as int + 10)
    else if 'A' <= c <= 'F' then Some(c as int - 'A' as int + 10)
    else None
  }

  /** A code unit written as four hex digits; surrogate halves are not single characters. */
  function ReadHex(b: string): Option<char> {
    if |b| < 4 then None
    else
      var w, x, y, z := HexDigit(b[0]), HexDigit(b[1]), HexDigit(b[2]), HexDigit(b[3]);
      if w.None? || x.None? || y.None? || z.None? then None
      else
        var n := 0x1000 * w.value + 0x100 * x.value + 0x10 * y.value + z.value;
        if n < 0xD800 then Some(n as char) else None
  }

  /** The character an escape sequence stands for and how much input it takes. */
  function ReadEscape(b: string): Option<(char, nat)> {
    if |b| < 2 then None
    else
      match b[1]
      case '"' => Some(('"', 2))
      case '\\' => Some(('\\', 2))
      case '/' => Some(('/', 2))
      case 'b' => Some(('\U{8}', 2))
      case 'f' => Some(('\U{c}', 2))
      case 'n' => Some(('\n', 2))
      case 'r' => Some(('\r', 2))
      case 't' => Some(('\t', 2))
      case 'u' => var c := ReadHex(b[2..]); if c.None? then None else Some((c.value, 6))
      case _ => None
  }

  datatype Read<+T> = Bad | Good(value: T, rest: string)

  /** The characters up to the closing quote. */
  function ReadChars(b: string): (r: Read<string>)
    ensures r.Good? ==> |r.rest| < |b|
    decreases |b|
  {
    if b == [] then Bad
    else if b[0] == '"' then Good([], b[1..])
    else
      var one := if b[0] == '\\' then ReadEscape(b) else Some((b[0], 1));
      if one.None? || |b| < one.value.1 then Bad
      else
        var more := ReadChars(b[one.value.1..]);
        if more.Bad? then Bad else Good([one.value.0] + more.value, more.rest)
  }

  lemma HexRoundTrip(c: char, rest: string)
    requires NeedsHex(c)
    ensures c as int < 0xD800 && ReadHex(Hex4(c as int) + rest) == Some(c)
  {
    var n := c as int;
    var a := n / 0x10;
    var b := a / 0x10;
    HexDigitRoundTrip(b / 0x10);
    HexDigitRoundTrip(b % 0x10);
    HexDigitRoundTrip(a % 0x10);
    HexDigitRoundTrip(n % 0x10);
  }

  lemma HexDigitRoundTrip(d: nat)
    requires d < 16
    ensures HexDigit(HexChar(d)) == Some(d)
  {
  }

  lemma HexEscapeRoundTrip(c: char, rest: string)
    requires NeedsHex(c)
    ensures ReadEscape("\\u" + Hex4(c as int) + rest) == Some((c, 6))
  {
    HexRoundTrip(c, rest);
    assert ("\\u" + Hex4(c as int) + rest)[2..] == Hex4(c as int) + rest;
  }

  lemma EscapeRoundTrip(c: char, rest: string)
    ensures var b := Escape(c) + rest;
      && b[0] != '"'
      && (if b[0] == '\\' then ReadEscape(b) else Some((b[0], 1))) == Some((c, |Escape(c)|))
      && b[|Escape(c)|..] == rest
  {
    if NeedsHex(c) && Escape(c) == "\\u" + Hex4(c as int) {
      HexEscapeRoundTrip(c, rest);
    }
  }

  lemma {:induction false} CharsRoundTrip(s: string, rest: string)
    ensures ReadChars(EscapeAll(s) + "\"" + rest) == Good(s, rest)
    decreases |s|
  {
    if s == [] {
      assert EscapeAll(s) + "\"" + rest == "\"" + rest;
    } else {
      var tail := EscapeAll(s[1..]) + "\"" + rest;
      assert EscapeAll(s) + "\"" + rest == Escape(s[0]) + tail;
      EscapeRoundTrip(s[0], tail);
      CharsRoundTrip(s[1..], rest);
      assert [s[0]] + s[1..] == s;
    }
  }

  // ---- Key order ----

  /** `sort.Strings` order; code-point order agrees with the byte order of UTF-8. */
  predicate Less(a: string, b: string) {
    b != [] && (a == [] || a[0] < b[0] || (a[0] == b[0] && Less(a[1..], b[1..])))
  }

  lemma {:induction false} LessTotal(a: string, b: string)
    ensures Less(a, b) || Less(b, a) || a == b
    ensures !(Less(a, b) && Less(b, a))
    decreases |a|
  {
    if a != [] && b != [] {
      LessTotal(a[1..], b[1..]);
      assert a == [a[0]] + a[1..] && b == [b[0]] + b[1..];
    }
  }

  lemma {:induction false} LessTransitive(a: string, b: string, c: string)
    requires Less(a, b) && Less(b, c)
    ensures Less(a, c)
    decreases |a|
  {
    if a != [] && a[0] == b[0] == c[0] {
      LessTransitive(a[1..], b[1..], c[1..]);
    }
  }

  ghost predicate Ascending(ks: seq<string>) {
    forall i, j :: 0 <= i < j < |ks| ==> Less(ks[i], ks[j])
  }

  /** Two ascending listings of the same keys are the same listing. */
  lemma {:induction false} AscendingUnique(a: seq<string>, b: seq<string>)
    requires Ascending(a) && Ascending(b) && Elems(a) == Elems(b)
    ensures a == b
    decreases |a|
  {
    SomeElem(a);
    SomeElem(b);
    if a != [] {
      HeadsAgree(a, b);
      AscendingTail(a);
      AscendingTail(b);
      AscendingUnique(a[1..], b[1..]);
      assert a == [a[0]] + a[1..] && b == [b[0]] + b[1..];
    }
  }

  lemma SomeElem(a: seq<string>)
    ensures a == [] <==> Elems(a) == {}
  {
    assert a != [] ==> a[0] in Elems(a);
  }

  lemma HeadsAgree(a: seq<string>, b: seq<string>)
    requires Ascending(a) && Ascending(b) && Elems(a) == Elems(b) && a != [] && b != []
    ensures a[0] == b[0]
  {
    assert a[0] in Elems(b) && b[0] in Elems(a);
    LessTotal(a[0], b[0]);
  }

  lemma AscendingTail(a: seq<string>)
    requires Ascending(a) && a != []
    ensures Ascending(a[1..]) && Elems(a[1..]) == Elems(a) - {a[0]}
  {
    forall k | k in a[1..]
      ensures k != a[0]
    {
      LessTotal(k, a[0]);
    }
  }

  /** Place a new key into an ascending listing. */
  function Place(ks: seq<string>, k: string): seq<string> {
    if ks == [] then [k]
    else if Less(k, ks[0]) then [k] + ks
    else [ks[0]] + Place(ks[1..], k)
  }

  lemma {:induction false} PlaceAscends(ks: seq<string>, k: string)
    requires Ascending(ks) && k !in ks
    ensures Ascending(Place(ks, k)) && Elems(Place(ks, k)) == Elems(ks) + {k}
    decreases |ks|
  {
    if ks == [] {
    } else if Less(k, ks[0]) {
      forall j | 0 <= j < |ks|
        ensures Less(k, ks[j])
      {
        if j > 0 {
          LessTransitive(k, ks[0], ks[j]);
        }
      }
    } else {
      LessTotal(k, ks[0]);
      AscendingTail(ks);
      PlaceAscends(ks[1..], k);
      var tail := Place(ks[1..], k);
      forall j | 0 <= j < |tail|
        ensures Less(ks[0], tail[j])
      {
        assert tail[j] in Elems(tail);
        if tail[j] != k {
          assert tail[j] in ks[1..];
        }
      }
      assert ks == [ks[0]] + ks[1..];
    }
  }

  lemma {:induction false} AscendingExists(s: set<string>) returns (ks: seq<string>)
    ensures Ascending(ks) && Elems(ks) == s
    decreases |s|
  {
    if s == {} {
      ks := [];
    } else {
      var k :| k in s;
      var rest := AscendingExists(s - {k});
      assert k !in Elems(rest);
      PlaceAscends(rest, k);
      ks := Place(rest, k);
    }
  }

  ghost function SortedKeys(s: set<string>): (ks: seq<string>)
    ensures Ascending(ks) && Elems(ks) == s
  {
    assert exists ks :: Ascending(ks) && Elems(ks) == s by {
      var ks := AscendingExists(s);
    }
    var ks :| Ascending(ks) && Elems(ks) == s;
    ks
  }

  // ---- The canonical form ----

  ghost function Print(v: Value): string
    decreases v, 1, 0
  {
    match v
    case Null => "null"
    case Bool(b) => if b then "true" else "false"
    case Number(text) => text
    case Str(s) => Quote(s)
    case Array(items) => "[" + PrintItems(items) + "]"
    case Object(fields) => "{" + PrintFields(v, SortedKeys(fields.Keys)) + "}"
  }

  ghost function PrintItems(items: seq<Value>): string
    decreases items, 0, 0
  {
    if items == [] then []
    else if |items| == 1 then Print(items[0])
    else Print(items[0]) + "," + PrintItems(items[1..])
  }

  ghost function PrintField(v: Value, k: string): string
    requires v.Object? && k in v.fields
    decreases v, 0, 0
  {
    Quote(k) + ":" + Print(v.fields[k])
  }

  ghost function PrintFields(v: Value, keys: seq<string>): string
    requires v.Object? && forall k <- keys :: k in v.fields
    decreases v, 0, |keys|
  {
    if keys == [] then []
    else if |keys| == 1 then PrintField(v, keys[0])
    else PrintField(v, keys[0]) + "," + PrintFields(v, keys[1..])
  }

  // ---- The reader ----

  function ReadWord(b: string, word: string, v: Value): (r: Read<Value>)
    ensures r.Good? && word != [] ==> |r.rest| < |b|
  {
    if |word| <= |b| && b[..|word|] == word then Good(v, b[|word|..]) else Bad
  }

  function NumeralPrefix(b: string): (n: nat)
    ensures n <= |b| && forall i :: 0 <= i < n ==> NumeralChar(b[i])
    ensures n < |b| ==> !NumeralChar(b[n])
  {
    if b == [] || !NumeralChar(b[0]) then 0 else 1 + NumeralPrefix(b[1..])
  }

  function ReadValue(b: string): (r: Read<Value>)
    ensures r.Good? ==> |r.rest| < |b|
    decreases |b|, 1
  {
    if b == [] then Bad
    else if b[0] == 'n' then ReadWord(b, "null", Null)
    else if b[0] == 't' then ReadWord(b, "true", Bool(true))
    else if b[0] == 'f' then ReadWord(b, "false", Bool(false))
    else if b[0] == '"' then
      var s := ReadChars(b[1..]);
      if s.Bad? then Bad else Good(Str(s.value), s.rest)
    else if b[0] == '[' then
      if |b| > 1 && b[1] == ']' then Good(Array([]), b[2..])
      else
        var items := ReadItems(b[1..]);
        if items.Bad? then Bad else Good(Array(items.value), items.rest)
    else if b[0] == '{' then
      if |b| > 1 && b[1] == '}' then Good(Object(map[]), b[2..])
      else
        var fields := ReadFields(b[1..]);
        if fields.Bad? then Bad else Good(Object(fields.value), fields.rest)
    else if Digit(b[0]) || b[0] == '-' then
      var n := NumeralPrefix(b);
      Good(Number(b[..n]), b[n..])
    else Bad
  }

  /** One or more comma-separated values up to the closing bracket. */
  function ReadItems(b: string): (r: Read<seq<Value>>)
    ensures r.Good? ==> |r.rest| < |b|
    decreases |b|, 2
  {
    var first := ReadValue(b);
    if first.Bad? || first.rest == [] then Bad
    else if first.rest[0] == ']' then Good([first.value], first.rest[1..])
    else if first.rest[0] == ',' then
      var more := ReadItems(first.rest[1..]);
      if more.Bad? then Bad else Good([first.value] + more.value, more.rest)
    else Bad
  }

  /** One or more comma-separated members up to the closing brace; a repeated name keeps its last value. */
  function ReadFields(b: string): (r: Read<map<string, Value>>)
    ensures r.Good? ==> |r.rest| < |b|
    decreases |b|, 2
  {
    if b == [] || b[0] != '"' then Bad
    else
      var name := ReadChars(b[1..]);
      if name.Bad? || name.rest == [] || name.rest[0] != ':' then Bad
      else
        var first := ReadValue(name.rest[1..]);
        if first.Bad? || first.rest == [] then Bad
        else if first.rest[0] == '}' then Good(map[name.value := first.value], first.rest[1..])
        else if first.rest[0] == ',' then
          var more := ReadFields(first.rest[1..]);
          if more.Bad? then Bad else Good(map[name.value := first.value] + more.value, more.rest)
        else Bad
  }

  // ---- Round trip ----

  /** What may follow a value: nothing that could extend a numeral. */
  predicate Ends(rest: string) {
    rest == [] || !NumeralChar(rest[0])
  }

  lemma {:induction false} NumeralPrefixIs(text: string, rest: string)
    requires Ends(rest) && forall c <- text :: NumeralChar(c)
    ensures NumeralPrefix(text + rest) == |text|
    decreases |text|
  {
    if text == [] {
      assert text + rest == rest;
    } else {
      assert (text + rest)[1..] == text[1..] + rest;
      NumeralPrefixIs(text[1..], rest);
    }
  }

  lemma WordRoundTrip(x: bool, rest: string)
    ensures ReadValue(Print(Bool(x)) + rest) == Good(Bool(x), rest)
  {
    var b := Print(Bool(x)) + rest;
    if x {
      assert b[..4] == "true" && b[4..] == rest;
    } else {
      assert b[..5] == "false" && b[5..] == rest;
    }
  }

  lemma NumberRoundTrip(text: Numeral, rest: string)
    requires Ends(rest)
    ensures ReadValue(text + rest) == Good(Number(text), rest)
  {
    NumeralPrefixIs(text, rest);
    assert (text + rest)[0] == text[0] && (text + rest)[..|text|] == text && (text + rest)[|text|..] == rest;
  }

  lemma ReadStr(body: string, s: string, rest: string)
    requires ReadChars(body) == Good(s, rest)
    ensures ReadValue("\"" + body) == Good(Str(s), rest)
  {
    assert ("\"" + body)[1..] == body;
  }

  lemma StrRoundTrip(s: string, rest: string)
    ensures ReadValue(Quote(s) + rest) == Good(Str(s), rest)
  {
    CharsRoundTrip(s, rest);
    ReadStr(EscapeAll(s) + "\"" + rest, s, rest);
    QuoteSplit(s, rest);
  }

  lemma QuoteSplit(s: string, rest: string)
    ensures Quote(s) + rest == "\"" + (EscapeAll(s) + "\"" + rest)
  {
  }

  lemma {:induction false} PrintStarts(v: Value)
    ensures Print(v) != [] && Print(v)[0] != ']'
  {
  }

  // Single steps of the reader, so that the recursion below need not unfold it.

  lemma ReadArray(body: string, items: seq<Value>, rest: string)
    requires ReadItems(body) == Good(items, rest) && body != [] && body[0] != ']'
    ensures ReadValue("[" + body) == Good(Array(items), rest)
  {
    var b := "[" + body;
    assert b[0] == '[' && b[1] == body[0] && b[1..] == body;
  }

  lemma ReadObject(body: string, fields: map<string, Value>, rest: string)
    requires ReadFields(body) == Good(fields, rest) && body != [] && body[0] == '"'
    ensures ReadValue("{" + body) == Good(Object(fields), rest)
  {
    var b := "{" + body;
    assert b[0] == '{' && b[1] == body[0] && b[1..] == body;
  }

  lemma ReadItemsLast(b: string, v: Value, rest: string)
    requires ReadValue(b) == Good(v, "]" + rest)
    ensures ReadItems(b) == Good([v], rest)
  {
    assert ("]" + rest)[1..] == rest;
  }

  lemma ReadItemsMore(b: string, v: Value, tail: string, vs: seq<Value>, rest: string)
    requires ReadValue(b) == Good(v, "," + tail) && ReadItems(tail) == Good(vs, rest)
    ensures ReadItems(b) == Good([v] + vs, rest)
  {
    assert ("," + tail)[1..] == tail;
  }

  /** A member's name and value, whatever follows them. */
  ghost predicate ReadsMember(b: string, k: string, v: Value, rest: string) {
    && b != [] && b[0] == '"'
    && var name := ReadChars(b[1..]);
    && name.Good? && name.value == k && name.rest != [] && name.rest[0] == ':'
    && ReadValue(name.rest[1..]) == Good(v, rest)
  }

  lemma ReadFieldsLast(b: string, k: string, v: Value, rest: string)
    requires ReadsMember(b, k, v, "}" + rest)
    ensures ReadFields(b) == Good(map[k := v], rest)
  {
    assert ("}" + rest)[1..] == rest;
  }

  lemma ReadFieldsMore(b: string, k: string, v: Value, tail: string, more: map<string, Value>, rest: string)
    requires ReadsMember(b, k, v, "," + tail) && ReadFields(tail) == Good(more, rest)
    ensures ReadFields(b) == Good(map[k := v] + more, rest)
  {
    assert ("," + tail)[1..] == tail;
  }

  lemma ReadEmpty(rest: string)
    ensures ReadValue("[]" + rest) == Good(Array([]), rest)
    ensures ReadValue("{}" + rest) == Good(Object(map[]), rest)
  {
    assert ("[]" + rest)[2..] == rest && ("{}" + rest)[2..] == rest;
  }

  lemma NullRoundTrip(rest: string)
    ensures ReadValue(Print(Null) + rest) == Good(Null, rest)
  {
    var b := Print(Null) + rest;
    assert b[..4] == "null" && b[4..] == rest;
  }

  /** The reader recovers every value, and exactly its bytes. */
  lemma {:induction false} RoundTrip(v: Value, rest: string)
    requires Ends(rest)
    ensures ReadValue(Print(v) + rest) == Good(v, rest)
    decreases v, 1, 0
  {
    match v
    case Null => NullRoundTrip(rest);
    case Bool(x) => WordRoundTrip(x, rest);
    case Number(text) => NumberRoundTrip(text, rest);
    case Str(s) => StrRoundTrip(s, rest);
    case Array(items) =>
      if items != [] {
        ItemsRoundTrip(items, rest);
      }
      ArrayRoundTrip(items, rest);
    case Object(fields) =>
      var keys := SortedKeys(fields.Keys);
      if keys != [] {
        FieldsRoundTrip(v, keys, rest);
      }
      ObjectRoundTrip(v, keys, rest);
  }

  lemma ArrayRoundTrip(items: seq<Value>, rest: string)
    requires items != [] ==> ReadItems(PrintItems(items) + "]" + rest) == Good(items, rest)
    ensures ReadValue(Print(Array(items)) + rest) == Good(Array(items), rest)
  {
    if items == [] {
      assert Print(Array(items)) == "[]";
      ReadEmpty(rest);
    } else {
      var body := PrintItems(items) + "]" + rest;
      ItemsStart(items);
      ReadArray(body, items, rest);
      assert Print(Array(items)) + rest == "[" + body;
    }
  }

  lemma ObjectRoundTrip(v: Value, keys: seq<string>, rest: string)
    requires v.Object? && keys == SortedKeys(v.fields.Keys)
    requires keys != [] ==> ReadFields(PrintFields(v, keys) + "}" + rest) == Good(Picked(v.fields, keys), rest)
    ensures ReadValue(Print(v) + rest) == Good(v, rest)
  {
    PickedAll(v, keys);
    if keys == [] {
      ReadEmpty(rest);
    } else {
      FieldsStart(v, keys);
      ReadObject(PrintFields(v, keys) + "}" + rest, v.fields, rest);
      ObjectSplit(v, rest);
    }
  }

  lemma PickedAll(v: Value, keys: seq<string>)
    requires v.Object? && keys == SortedKeys(v.fields.Keys)
    ensures Picked(v.fields, keys) == v.fields
    ensures keys == [] ==> v == Object(map[]) && Print(v) == "{}"
  {
    SomeElem(keys);
  }

  lemma ObjectSplit(v: Value, rest: string)
    requires v.Object?
    ensures Print(v) + rest == "{" + (PrintFields(v, SortedKeys(v.fields.Keys)) + "}" + rest)
  {
  }

  lemma ItemsStart(items: seq<Value>)
    requires items != []
    ensures PrintItems(items) != [] && PrintItems(items)[0] != ']'
  {
    PrintStarts(items[0]);
  }

  lemma FieldsStart(v: Value, keys: seq<string>)
    requires v.Object? && keys != [] && forall k <- keys :: k in v.fields
    ensures PrintFields(v, keys) != [] && PrintFields(v, keys)[0] == '"'
  {
  }

  lemma ItemsSplit(items: seq<Value>, rest: string)
    requires items != []
    ensures |items| == 1 ==> PrintItems(items) + "]" + rest == Print(items[0]) + ("]" + rest)
    ensures |items| > 1 ==>
      PrintItems(items) + "]" + rest == Print(items[0]) + ("," + (PrintItems(items[1..]) + "]" + rest))
  {
    if |items| > 1 {
      Regroup(Print(items[0]), ",", PrintItems(items[1..]), "]", rest);
    }
  }

  lemma FieldsSplit(v: Value, keys: seq<string>, rest: string)
    requires v.Object? && keys != [] && forall k <- keys :: k in v.fields
    ensures |keys| == 1 ==> PrintFields(v, keys) + "}" + rest == PrintField(v, keys[0]) + ("}" + rest)
    ensures |keys| > 1 ==>
      PrintFields(v, keys) + "}" + rest == PrintField(v, keys[0]) + ("," + (PrintFields(v, keys[1..]) + "}" + rest))
  {
    if |keys| > 1 {
      Regroup(PrintField(v, keys[0]), ",", PrintFields(v, keys[1..]), "}", rest);
    }
  }

  lemma Regroup(a: string, b: string, c: string, d: string, e: string)
    ensures a + b + c + d + e == a + (b + (c + d + e))
  {
  }

  lemma FieldSplit(v: Value, k: string, rest: string)
    requires v.Object? && k in v.fields
    ensures PrintField(v, k) + rest == "\"" + (EscapeAll(k) + "\"" + (":" + (Print(v.fields[k]) + rest)))
  {
  }

  lemma {:induction false} ItemsRoundTrip(items: seq<Value>, rest: string)
    requires items != []
    ensures ReadItems(PrintItems(items) + "]" + rest) == Good(items, rest)
    decreases items, 0, 0
  {
    var b := PrintItems(items) + "]" + rest;
    if |items| == 1 {
      RoundTrip(items[0], "]" + rest);
      ItemsSplit(items, rest);
      ReadItemsLast(b, items[0], rest);
      assert items == [items[0]];
    } else {
      var tail := PrintItems(items[1..]) + "]" + rest;
      ItemsRoundTrip(items[1..], rest);
      RoundTrip(items[0], "," + tail);
      ItemsSplit(items, rest);
      ReadItemsMore(b, items[0], tail, items[1..], rest);
      assert [items[0]] + items[1..] == items;
    }
  }

  lemma {:induction false} FieldRoundTrip(v: Value, k: string, rest: string)
    requires v.Object? && k in v.fields && Ends(rest)
    ensures ReadsMember(PrintField(v, k) + rest, k, v.fields[k], rest)
    decreases v, 0, 0
  {
    var value := Print(v.fields[k]) + rest;
    RoundTrip(v.fields[k], rest);
    CharsRoundTrip(k, ":" + value);
    FieldSplit(v, k, rest);
    MemberFrom(EscapeAll(k) + "\"" + (":" + value), k, value, v.fields[k], rest);
  }

  lemma MemberFrom(b: string, k: string, value: string, v: Value, rest: string)
    requires ReadChars(b) == Good(k, ":" + value) && ReadValue(value) == Good(v, rest)
    ensures ReadsMember("\"" + b, k, v, rest)
  {
    assert ("\"" + b)[1..] == b && (":" + value)[1..] == value;
  }

  function Picked(fields: map<string, Value>, keys: seq<string>): map<string, Value> {
    map k | k in fields && k in keys :: fields[k]
  }

  lemma {:induction false} FieldsRoundTrip(v: Value, keys: seq<string>, rest: string)
    requires v.Object? && keys != [] && forall k <- keys :: k in v.fields
    ensures ReadFields(PrintFields(v, keys) + "}" + rest) == Good(Picked(v.fields, keys), rest)
    decreases v, 0, |keys|
  {
    var b := PrintFields(v, keys) + "}" + rest;
    var k := keys[0];
    if |keys| == 1 {
      FieldRoundTrip(v, k, "}" + rest);
      FieldsSplit(v, keys, rest);
      ReadFieldsLast(b, k, v.fields[k], rest);
      PickedOne(v.fields, keys);
    } else {
      var tail := PrintFields(v, keys[1..]) + "}" + rest;
      FieldsRoundTrip(v, keys[1..], rest);
      FieldRoundTrip(v, k, "," + tail);
      FieldsSplit(v, keys, rest);
      ReadFieldsMore(b, k, v.fields[k], tail, Picked(v.fields, keys[1..]), rest);
      PickedCons(v.fields, keys);
    }
  }

  lemma PickedOne(fields: map<string, Value>, keys: seq<string>)
    requires |keys| == 1 && keys[0] in fields
    ensures Picked(fields, keys) == map[keys[0] := fields[keys[0]]]
  {
    assert forall k <- keys :: k == keys[0];
  }

  lemma PickedCons(fields: map<string, Value>, keys: seq<string>)
    requires keys != [] && keys[0] in fields
    ensures Picked(fields, keys) == map[keys[0] := fields[keys[0]]] + Picked(fields, keys[1..])
  {
    assert keys == [keys[0]] + keys[1..];
  }

  /** Canonical bytes agree exactly when the decoded values do. */
  lemma CanonicalIff(v: Value, w: Value)
    ensures Print(v) == Print(w) <==> v == w
  {
    RoundTrip(v, []);
    RoundTrip(w, []);
    assert Print(v) + [] == Print(v) && Print(w) + [] == Print(w);
  }

  // ---- The implementation ----

  /** `sort.Strings` on the collected keys. */
  method SortStrings(keys: seq<string>) returns (sorted: seq<string>)
    requires Distinct(keys)
    ensures Ascending(sorted) && Elems(sorted) == Elems(keys)
  {
    sorted := [];
    for i := 0 to |keys|
      invariant Ascending(sorted) && Elems(sorted) == Elems(keys[..i])
    {
      assert keys[i] !in Elems(keys[..i]);
      PlaceAscends(sorted, keys[i]);
      sorted := Place(sorted, keys[i]);
      assert keys[..i + 1] == keys[..i] + [keys[i]];
    }
    assert keys[..|keys|] == keys;
  }

  /** Range over a map: every key once, in whatever order the runtime yields them. */
  method RangeKeys(fields: map<string, Value>) returns (keys: seq<string>)
    ensures Distinct(keys) && Elems(keys) == fields.Keys
  {
    keys := [];
    var left := fields.Keys;
    while left != {}
      invariant Distinct(keys) && Elems(keys) + left == fields.Keys && Elems(keys) !! left
      decreases left
    {
      var k :| k in left;
      keys := keys + [k];
      left := left - {k};
    }
  }

  /** The buffer-writing printer: the same bytes whatever order the map yields. */
  method Canonicalize(v: Value) returns (out: string)
    ensures out == Print(v)
    decreases v, 1
  {
    match v
    case Null => out := "null";
    case Bool(b) => out := if b then "true" else "false";
    case Number(text) => out := text;
    case Str(s) => out := Quote(s);
    case Array(items) => out := CanonicalizeItems(v);
    case Object(fields) => out := CanonicalizeFields(v);
  }

  method CanonicalizeItems(v: Value) returns (out: string)
    requires v.Array?
    ensures out == Print(v)
    decreases v, 0
  {
    var items := v.items;
    out := "[";
    for i := 0 to |items|
      invariant out + RestItems(items, i) == "[" + PrintItems(items)
    {
      ghost var before := out;
      if i > 0 {
        out := out + ",";
      }
      var child := Canonicalize(items[i]);
      out := out + child;
      RestItemsStep(items, i);
      assert out + RestItems(items, i + 1) == before + RestItems(items, i);
    }
    out := out + "]";
  }

  method CanonicalizeFields(v: Value) returns (out: string)
    requires v.Object?
    ensures out == Print(v)
    decreases v, 0, 1
  {
    var keys := RangeKeys(v.fields);
    keys := SortStrings(keys);
    AscendingUnique(keys, SortedKeys(v.fields.Keys));
    out := WriteFields(v, keys);
  }

  method WriteFields(v: Value, keys: seq<string>) returns (out: string)
    requires v.Object? && forall k <- keys :: k in v.fields
    ensures out == "{" + PrintFields(v, keys) + "}"
    decreases v, 0, 0
  {
    out := "{";
    for i := 0 to |keys|
      invariant out + RestFields(v, keys, i) == "{" + PrintFields(v, keys)
    {
      ghost var before := out;
      if i > 0 {
        out := out + ",";
      }
      out := out + Quote(keys[i]);
      out := out + ":";
      var child := Canonicalize(v.fields[keys[i]]);
      out := out + child;
      FieldWritten(before, v, keys, i);
    }
    out := out + "}";
  }

  /** What is still to be written when `i` items have been. */
  ghost function RestItems(items: seq<Value>, i: nat): string
    requires i <= |items|
  {
    if i == |items| then [] else (if i > 0 then "," else "") + PrintItems(items[i..])
  }

  ghost function RestFields(v: Value, keys: seq<string>, i: nat): string
    requires v.Object? && (forall k <- keys :: k in v.fields) && i <= |keys|
  {
    if i == |keys| then [] else (if i > 0 then "," else "") + PrintFields(v, keys[i..])
  }

  lemma RestItemsStep(items: seq<Value>, i: nat)
    requires i < |items|
    ensures RestItems(items, i) == (if i > 0 then "," else "") + Print(items[i]) + RestItems(items, i + 1)
  {
    assert items[i..][1..] == items[i + 1..];
  }

  lemma RestFieldsStep(v: Value, keys: seq<string>, i: nat)
    requires v.Object? && (forall k <- keys :: k in v.fields) && i < |keys|
    ensures RestFields(v, keys, i) ==
      (if i > 0 then "," else "") + PrintField(v, keys[i]) + RestFields(v, keys, i + 1)
  {
    assert keys[i..][1..] == keys[i + 1..];
  }

  /** Writing one member moves its bytes from what is left to what is written. */
  lemma FieldWritten(before: string, v: Value, keys: seq<string>, i: nat)
    requires v.Object? && (forall k <- keys :: k in v.fields) && i < |keys|
    ensures var out := (if i > 0 then before + "," else before) + Quote(keys[i]) + ":" + Print(v.fields[keys[i]]);
      out + RestFields(v, keys, i + 1) == before + RestFields(v, keys, i)
  {
    RestFieldsStep(v, keys, i);
    var sep := if i > 0 then "," else "";
    assert (if i > 0 then before + "," else before) == before + sep;
    Reassociate(before, sep, Quote(keys[i]), ":", Print(v.fields[keys[i]]), RestFields(v, keys, i + 1));
  }

  lemma Reassociate(a: string, b: string, c: string, d: string, e: string, f: string)
    ensures a + b + c + d + e + f == a + (b + (c + d + e) + f)
  {
  }

  // ---- Payload hashes ----

  ghost predicate Injective(hash: string -> string) {
    forall a, b :: hash(a) == hash(b) ==> a == b
  }

  method HashPayload(payload: Value, sha256: string -> string) returns (h: string)
    ensures h == sha256(Print(payload))
  {
    var canonical := Canonicalize(payload);
    h := sha256(canonical);
  }

  /** With a collision-free digest, equal hashes mean equal decoded payloads. */
  lemma HashIff(v: Value, w: Value, sha256: string -> string)
    requires Injective(sha256)
    ensures sha256(Print(v)) == sha256(Print(w)) <==> v == w
  {
    CanonicalIff(v, w);
  }
}
