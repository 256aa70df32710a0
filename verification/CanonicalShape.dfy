/** How canonical bytes look: members in byte order of their names, and each character in its one spelling. */
module CanonicalShape {
  import opened Common
  import opened Json

  // ---- Member order ----

  /** A proper prefix, or smaller at the first difference. */
  ghost predicate ByteOrder(a: string, b: string) {
    exists n: nat :: DiffersAt(a, b, n)
  }

  predicate DiffersAt(a: string, b: string, n: nat) {
    n <= |a| && n < |b| && a[..n] == b[..n] && (n == |a| || a[n] < b[n])
  }

  lemma {:induction false} LessIsByteOrder(a: string, b: string)
    ensures Less(a, b) <==> ByteOrder(a, b)
    decreases |a|
  {
    if a != [] && b != [] && a[0] == b[0] {
      LessIsByteOrder(a[1..], b[1..]);
      if n: nat :| DiffersAt(a[1..], b[1..], n) {
        assert a == [a[0]] + a[1..] && b == [b[0]] + b[1..];
        assert a[..n + 1] == [a[0]] + a[1..][..n] && b[..n + 1] == [b[0]] + b[1..][..n];
        assert DiffersAt(a, b, n + 1);
      }
      if n: nat :| DiffersAt(a, b, n) {
        assert n > 0 && a[1..][..n - 1] == a[..n][1..] && b[1..][..n - 1] == b[..n][1..];
        assert DiffersAt(a[1..], b[1..], n - 1);
      }
    } else if Less(a, b) {
      assert DiffersAt(a, b, 0);
    }
  }

  /** The names of an object's members in the order they are written. */
  function ReadNames(b: string): (r: Read<seq<string>>)
    decreases |b|
  {
    if b == [] || b[0] != '"' then Bad
    else
      var name := ReadChars(b[1..]);
      if name.Bad? || name.rest == [] || name.rest[0] != ':' then Bad
      else
        var first := ReadValue(name.rest[1..]);
        if first.Bad? || first.rest == [] then Bad
        else if first.rest[0] == '}' then Good([name.value], first.rest[1..])
        else if first.rest[0] == ',' then
          var more := ReadNames(first.rest[1..]);
          if more.Bad? then Bad else Good([name.value] + more.value, more.rest)
        else Bad
  }

  lemma NamesLast(b: string, k: string, v: Value, rest: string)
    requires ReadsMember(b, k, v, "}" + rest)
    ensures ReadNames(b) == Good([k], rest)
  {
    assert ("}" + rest)[1..] == rest;
  }

  lemma NamesMore(b: string, k: string, v: Value, tail: string, more: seq<string>, rest: string)
    requires ReadsMember(b, k, v, "," + tail) && ReadNames(tail) == Good(more, rest)
    ensures ReadNames(b) == Good([k] + more, rest)
  {
    assert ("," + tail)[1..] == tail;
  }

  lemma {:induction false} NamesRoundTrip(v: Value, keys: seq<string>, rest: string)
    requires v.Object? && keys != [] && forall k <- keys :: k in v.fields
    ensures ReadNames(PrintFields(v, keys) + "}" + rest) == Good(keys, rest)
    decreases |keys|
  {
    var b := PrintFields(v, keys) + "}" + rest;
    var k := keys[0];
    FieldsSplit(v, keys, rest);
    if |keys| == 1 {
      FieldRoundTrip(v, k, "}" + rest);
      NamesLast(b, k, v.fields[k], rest);
      assert keys == [k];
    } else {
      var tail := PrintFields(v, keys[1..]) + "}" + rest;
      NamesRoundTrip(v, keys[1..], rest);
      FieldRoundTrip(v, k, "," + tail);
      NamesMore(b, k, v.fields[k], tail, keys[1..], rest);
      assert keys == [k] + keys[1..];
    }
  }

  ghost predicate InByteOrder(names: seq<string>) {
    forall i, j :: 0 <= i < j < |names| ==> ByteOrder(names[i], names[j])
  }

  lemma AscendingIsByteOrder(names: seq<string>)
    requires Ascending(names)
    ensures InByteOrder(names)
  {
    forall i, j | 0 <= i < j < |names|
      ensures ByteOrder(names[i], names[j])
    {
      LessIsByteOrder(names[i], names[j]);
    }
  }

  /** Every member of a canonical object is written once, in byte order of the names. */
  lemma MembersInByteOrder(v: Value, rest: string) returns (names: seq<string>, body: string)
    requires v.Object? && v.fields != map[]
    ensures Print(v) + rest == "{" + body && ReadNames(body) == Good(names, rest)
    ensures Distinct(names) && Elems(names) == v.fields.Keys && InByteOrder(names)
  {
    names := SortedKeys(v.fields.Keys);
    SomeName(v, names);
    AscendingIsByteOrder(names);
    AscendingDistinct(names);
    body := PrintFields(v, names) + "}" + rest;
    NamesRoundTrip(v, names, rest);
    ObjectSplit(v, rest);
  }

  lemma AscendingDistinct(names: seq<string>)
    requires Ascending(names)
    ensures Distinct(names)
  {
    forall i, j | 0 <= i < j < |names|
      ensures names[i] != names[j]
    {
      LessTotal(names[i], names[j]);
    }
  }

  lemma SomeName(v: Value, names: seq<string>)
    requires v.Object? && v.fields != map[] && Elems(names) == v.fields.Keys
    ensures names != []
  {
    var k :| k in v.fields;
    assert k in Elems(names);
  }

  // ---- Characters ----

  /** Characters that may stand in a string literal as themselves. */
  predicate Plain(c: char) {
    c >= ' ' && c !in {'"', '\\', '<', '>', '&', '\U{2028}', '\U{2029}'}
  }

  /** Characters with a two-character escape. */
  predicate Short(c: char) {
    c in {'"', '\\', '\U{8}', '\U{c}', '\n', '\r', '\t'}
  }

  /** The spelling of a character: itself, a backslash and one more, or `\u` and four lower-case digits. */
  lemma Spelling(c: char)
    ensures |Escape(c)| == if Plain(c) then 1 else if Short(c) then 2 else 6
    ensures Plain(c) ==> Escape(c) == [c]
    ensures !Plain(c) ==> Escape(c)[0] == '\\'
    ensures !Plain(c) && !Short(c) ==>
      Escape(c)[1] == 'u' && forall i :: 2 <= i < 6 ==> Digit(Escape(c)[i]) || 'a' <= Escape(c)[i] <= 'f'
  {
    if NeedsHex(c) {
      HexRoundTrip(c, []);
    }
  }

  predicate Safe(c: char) {
    c >= ' ' && c !in {'<', '>', '&', '\U{2028}', '\U{2029}'}
  }

  /** No string puts a control character, a markup character or a line separator into the output. */
  lemma {:induction false} LiteralsAreSafe(s: string)
    ensures forall c <- EscapeAll(s) :: Safe(c)
  {
    if s != [] {
      LiteralsAreSafe(s[1..]);
      Spelling(s[0]);
      EscapeIsSafe(s[0]);
    }
  }

  lemma EscapeIsSafe(c: char)
    ensures forall x <- Escape(c) :: Safe(x)
  {
    Spelling(c);
    if NeedsHex(c) && !Short(c) {
      assert forall i :: 0 <= i < 6 ==> Safe(Escape(c)[i]);
    }
  }
}
