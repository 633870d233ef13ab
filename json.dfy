/**
 * `JSON.stringify` and `JSON.parse` restricted to what the extension stores and
 * sends: a flat object whose property values are strings. An object is the
 * sequence of its (name, value) entries in property order.
 */
module Json {
  import opened Wrappers

  type Entry = (string, string)

  /** The characters `JSON.stringify` escapes: the quote, the backslash and U+0000 to U+001F. */
  predicate NeedsEscape(c: char) {
    c == '"' || c == '\\' || c < ' '
  }

  /** A lower-case hex digit, as `JSON.stringify` writes them in `\u00XX`. */
  function HexDigit(d: nat): char
    requires d < 16
  {
    if d < 10 then ('0' as int + d) as char else ('a' as int + d - 10) as char
  }

  /** The value of a hex digit of either case; `None` for any other character. */
  function HexValue(c: char): (r: Option<nat>)
    ensures r.Some? ==> r.value < 16
  {
    if '0' <= c <= '9' then Some(c as int - '0' as int)
    else if 'a' <= c <= 'f' then Some(c as int - 'a' as int + 10)
    else if 'A' <= c <= 'F' then Some(c as int - 'A' as int + 10)
    else None
  }

  /** The UTF-16 code unit that four hex digits name. */
  function CodeUnit(a: nat, b: nat, c: nat, d: nat): (r: nat)
    requires a < 16 && b < 16 && c < 16 && d < 16
    ensures r < 0x10000
  {
    var ab := a * 16 + b;
    assert ab < 256;
    var abc := ab * 16 + c;
    assert abc < 4096;
    abc * 16 + d
  }

  /**
   * One character as `JSON.stringify` writes it inside a string: `\"`, `\\`, the
   * short forms `\b`, `\t`, `\n`, `\f`, `\r`, `\u00XX` for the other control
   * characters, and every other character as it is.
   */
  function EscapeChar(c: char): (r: string)
    ensures |r| > 0 && (NeedsEscape(c) <==> r[0] == '\\')
  {
    if c == '"' || c == '\\' then ['\\', c]
    else if c == 8 as char then "\\b"
    else if c == 9 as char then "\\t"
    else if c == 10 as char then "\\n"
    else if c == 12 as char then "\\f"
    else if c == 13 as char then "\\r"
    else if c < ' ' then "\\u00" + [HexDigit(c as int / 16), HexDigit(c as int % 16)]
    else [c]
  }

  /** String escaping, one character at a time. */
  function Escape(s: string): (r: string)
    ensures |r| >= |s|
  {
    if s == [] then [] else EscapeChar(s[0]) + Escape(s[1..])
  }

  function Quote(s: string): string {
    "\"" + Escape(s) + "\""
  }

  function Member(e: Entry): string {
    Quote(e.0) + ":" + Quote(e.1)
  }

  function Members(es: seq<Entry>): string
    requires |es| > 0
    decreases |es|
  {
    if |es| == 1 then Member(es[0]) else Member(es[0]) + "," + Members(es[1..])
  }

  /** `JSON.stringify` of a flat object with string values: no whitespace, properties in order. */
  function Stringify(es: seq<Entry>): (r: string)
    ensures |r| >= 2 && r[0] == '{' && r[|r| - 1] == '}'
  {
    if es == [] then "{}" else "{" + Members(es) + "}"
  }

  /**
   * The escape after a backslash: one of `"`, `\\`, `/`, `b`, `f`, `n`, `r`, `t`,
   * or `u` and four hex digits naming a character. `None` for any other text.
   */
  function ParseEscape(t: string): (r: Option<(char, string)>)
    ensures r.Some? ==> |r.value.1| < |t|
  {
    if t == [] then None
    else if t[0] == '"' || t[0] == '\\' || t[0] == '/' then Some((t[0], t[1..]))
    else if t[0] == 'b' then Some((8 as char, t[1..]))
    else if t[0] == 't' then Some((9 as char, t[1..]))
    else if t[0] == 'n' then Some((10 as char, t[1..]))
    else if t[0] == 'f' then Some((12 as char, t[1..]))
    else if t[0] == 'r' then Some((13 as char, t[1..]))
    else if t[0] == 'u' && |t| >= 5 then
      match (HexValue(t[1]), HexValue(t[2]), HexValue(t[3]), HexValue(t[4]))
      case (Some(a), Some(b), Some(c), Some(d)) =>
        var code := CodeUnit(a, b, c, d);
        if code < 0xD800 || 0xE000 <= code then Some((code as char, t[5..])) else None
      case _ => None
    else None
  }

  /**
   * The characters of a string literal after its opening quote, up to its closing
   * quote. A raw control character ends the parse, as `JSON.parse` rejects it.
   */
  function ParseChars(t: string): (r: Option<(string, string)>)
    ensures r.Some? ==> |r.value.1| < |t|
    decreases |t|
  {
    if t == [] then None
    else if t[0] == '"' then Some(([], t[1..]))
    else if t[0] == '\\' then
      match ParseEscape(t[1..])
      case None => None
      case Some((c, after)) =>
        match ParseChars(after)
        case None => None
        case Some((s, rest)) => Some(([c] + s, rest))
    else if t[0] < ' ' then None
    else
      match ParseChars(t[1..])
      case None => None
      case Some((s, rest)) => Some(([t[0]] + s, rest))
  }

  function ParseString(t: string): (r: Option<(string, string)>)
    ensures r.Some? ==> |r.value.1| < |t|
  {
    if |t| > 0 && t[0] == '"' then ParseChars(t[1..]) else None
  }

  function ParseMember(t: string): (r: Option<(Entry, string)>)
    ensures r.Some? ==> |r.value.1| < |t|
  {
    match ParseString(t)
    case None => None
    case Some((name, rest)) =>
      if |rest| > 0 && rest[0] == ':' then
        match ParseString(rest[1..])
        case None => None
        case Some((value, rest')) => Some(((name, value), rest'))
      else None
  }

  /** One or more members separated by commas, then the closing brace. */
  function ParseMembers(t: string): (r: Option<(seq<Entry>, string)>)
    ensures r.Some? ==> |r.value.1| < |t| && |r.value.0| > 0
    decreases |t|
  {
    match ParseMember(t)
    case None => None
    case Some((e, rest)) =>
      if |rest| > 0 && rest[0] == ',' then
        match ParseMembers(rest[1..])
        case None => None
        case Some((es, rest')) => Some(([e] + es, rest'))
      else if |rest| > 0 && rest[0] == '}' then Some(([e], rest[1..]))
      else None
  }

  /**
   * `JSON.parse` on the flat, string-valued objects `JSON.stringify` writes here;
   * `None` when `JSON.parse` throws or the text is outside that subset.
   */
  function Parse(s: string): Option<seq<Entry>> {
    if s == "{}" then Some([])
    else if |s| > 0 && s[0] == '{' then
      match ParseMembers(s[1..])
      case None => None
      case Some((es, rest)) => if rest == [] then Some(es) else None
    else None
  }

  lemma {:induction false} ParseEscaped(s: string, rest: string)
    ensures ParseChars(Escape(s) + "\"" + rest) == Some((s, rest))
  {
    if s == [] {
      assert Escape(s) + "\"" + rest == "\"" + rest;
    } else {
      var c, tail := s[0], s[1..];
      assert s == [c] + tail;
      var u := Escape(tail) + "\"" + rest;
      ParseEscaped(tail, rest);
      assert Escape(s) + "\"" + rest == EscapeChar(c) + u;
      if NeedsEscape(c) {
        ParseEscapedChar(c, u, tail, rest);
      } else {
        ParsePlainChar(c, u, tail, rest);
      }
    }
  }

  lemma ParsePlainChar(c: char, u: string, s: string, rest: string)
    requires !NeedsEscape(c)
    requires ParseChars(u) == Some((s, rest))
    ensures ParseChars(EscapeChar(c) + u) == Some(([c] + s, rest))
  {
    assert ([c] + u)[1..] == u;
  }

  lemma ParseEscapedChar(c: char, u: string, s: string, rest: string)
    requires NeedsEscape(c)
    requires ParseChars(u) == Some((s, rest))
    ensures ParseChars(EscapeChar(c) + u) == Some(([c] + s, rest))
  {
    var e := EscapeChar(c);
    assert (e + u)[0] == '\\';
    assert (e + u)[1..] == e[1..] + u;
    ParseEscapeOf(c, u);
  }

  /** What follows the backslash that `EscapeChar` writes is read back as the character. */
  lemma ParseEscapeOf(c: char, u: string)
    requires NeedsEscape(c)
    ensures ParseEscape(EscapeChar(c)[1..] + u) == Some((c, u))
  {
    var t := EscapeChar(c)[1..] + u;
    if c == '"' || c == '\\' || c == 8 as char || c == 9 as char || c == 10 as char ||
       c == 12 as char || c == 13 as char {
      assert t[1..] == u;
    } else {
      var n := c as int;
      var hi, lo := HexDigit(n / 16), HexDigit(n % 16);
      assert t[..5] == ['u', '0', '0', hi, lo];
      assert t[5..] == u;
      HexDigitValue(n / 16);
      HexDigitValue(n % 16);
    }
  }

  /**
   * `JSON.parse` throws on a raw control character inside a string: after any
   * run of well-formed characters, such a character fails the whole string.
   */
  lemma {:induction false} RawControlRejected(s: string, c: char, rest: string)
    requires c < ' '
    ensures ParseChars(Escape(s) + [c] + rest) == None
  {
    if s == [] {
      assert Escape(s) + [c] + rest == [c] + rest;
    } else {
      var tail := s[1..];
      var u := Escape(tail) + [c] + rest;
      RawControlRejected(tail, c, rest);
      assert Escape(s) + [c] + rest == EscapeChar(s[0]) + u;
      ParseCharFails(s[0], u);
    }
  }

  lemma ParseCharFails(c: char, u: string)
    requires ParseChars(u) == None
    ensures ParseChars(EscapeChar(c) + u) == None
  {
    var e := EscapeChar(c);
    if NeedsEscape(c) {
      assert (e + u)[0] == '\\';
      assert (e + u)[1..] == e[1..] + u;
      ParseEscapeOf(c, u);
    } else {
      assert ([c] + u)[1..] == u;
    }
  }

  /** Text without raw control characters, as `JSON.parse` requires inside strings. */
  predicate NoControl(s: string) {
    forall i :: 0 <= i < |s| ==> s[i] >= ' '
  }

  lemma {:induction false} EscapeNoControl(s: string)
    ensures NoControl(Escape(s))
  {
    if s != [] {
      EscapeNoControl(s[1..]);
      var e := EscapeChar(s[0]);
      assert NoControl(e);
      assert Escape(s) == e + Escape(s[1..]);
    }
  }

  lemma MemberNoControl(e: Entry)
    ensures NoControl(Member(e))
  {
    EscapeNoControl(e.0);
    EscapeNoControl(e.1);
  }

  lemma {:induction false} MembersNoControl(es: seq<Entry>)
    requires |es| > 0
    ensures NoControl(Members(es))
    decreases |es|
  {
    MemberNoControl(es[0]);
    if |es| > 1 {
      MembersNoControl(es[1..]);
    }
  }

  /** `JSON.stringify` writes no raw control character: each one is escaped. */
  lemma StringifyNoControl(es: seq<Entry>)
    ensures NoControl(Stringify(es))
  {
    if es != [] {
      MembersNoControl(es);
    }
  }

  lemma HexDigitValue(d: nat)
    requires d < 16
    ensures HexValue(HexDigit(d)) == Some(d)
  {
  }

  lemma ParseQuoted(s: string, rest: string)
    ensures ParseString(Quote(s) + rest) == Some((s, rest))
  {
    assert (Quote(s) + rest)[1..] == Escape(s) + "\"" + rest;
    ParseEscaped(s, rest);
  }

  lemma ParseMemberOf(e: Entry, rest: string)
    ensures ParseMember(Member(e) + rest) == Some((e, rest))
  {
    var after := ":" + (Quote(e.1) + rest);
    assert Member(e) + rest == Quote(e.0) + after;
    ParseQuoted(e.0, after);
    assert ParseString(Member(e) + rest) == Some((e.0, after));
    assert after[0] == ':' && after[1..] == Quote(e.1) + rest;
    ParseQuoted(e.1, rest);
  }

  lemma ParseLastMember(e: Entry, rest: string)
    ensures ParseMembers(Member(e) + "}" + rest) == Some(([e], rest))
  {
    assert Member(e) + "}" + rest == Member(e) + ("}" + rest);
    ParseMemberOf(e, "}" + rest);
  }

  lemma ParseNextMember(e: Entry, u: string, es: seq<Entry>, rest: string)
    requires ParseMembers(u) == Some((es, rest))
    ensures ParseMembers(Member(e) + ("," + u)) == Some(([e] + es, rest))
  {
    ParseMemberOf(e, "," + u);
    assert ("," + u)[1..] == u;
  }

  lemma Regroup(m: string, ms: string, rest: string)
    ensures m + "," + ms + "}" + rest == m + ("," + (ms + "}" + rest))
  {
  }

  lemma {:induction false} ParseMembersOf(es: seq<Entry>, rest: string)
    requires |es| > 0
    ensures ParseMembers(Members(es) + "}" + rest) == Some((es, rest))
    decreases |es|
  {
    if |es| == 1 {
      ParseLastMember(es[0], rest);
      assert [es[0]] == es;
    } else {
      var u := Members(es[1..]) + "}" + rest;
      ParseMembersOf(es[1..], rest);
      ParseNextMember(es[0], u, es[1..], rest);
      Regroup(Member(es[0]), Members(es[1..]), rest);
      assert [es[0]] + es[1..] == es;
    }
  }

  /** Reading back what was written gives the same object, entry for entry. */
  lemma ParseBraced(inner: string, es: seq<Entry>)
    requires |inner| > 0 && inner[0] == '"'
    requires ParseMembers(inner) == Some((es, []))
    ensures Parse("{" + inner) == Some(es)
  {
    var s := "{" + inner;
    assert s[1..] == inner;
    assert s[1] == '"';
  }

  lemma MembersStartWithQuote(es: seq<Entry>)
    requires |es| > 0
    ensures |Members(es)| > 0 && Members(es)[0] == '"'
  {
    assert Member(es[0])[0] == '"';
  }

  lemma RoundTrip(es: seq<Entry>)
    ensures Parse(Stringify(es)) == Some(es)
  {
    if es != [] {
      var inner := Members(es) + "}";
      MembersStartWithQuote(es);
      ParseMembersOf(es, []);
      assert inner + [] == inner;
      assert Stringify(es) == "{" + inner;
      ParseBraced(inner, es);
    }
  }

  /** The object `JSON.parse` builds: a repeated property keeps its last value. */
  function ToMap(es: seq<Entry>): map<string, string>
    decreases |es|
  {
    if es == [] then map[] else ToMap(es[..|es| - 1])[es[|es| - 1].0 := es[|es| - 1].1]
  }

  lemma {:induction false} ToMapKeys(es: seq<Entry>)
    ensures ToMap(es).Keys == set i | 0 <= i < |es| :: es[i].0
    decreases |es|
  {
    if es != [] {
      var init := es[..|es| - 1];
      ToMapKeys(init);
      assert forall i :: 0 <= i < |init| ==> init[i] == es[i];
      var a := set i | 0 <= i < |es| :: es[i].0;
      var b := (set i | 0 <= i < |init| :: init[i].0) + {es[|es| - 1].0};
      forall n | n in a ensures n in b {
        var i :| 0 <= i < |es| && es[i].0 == n;
        if i < |init| { assert init[i].0 == n; }
      }
    }
  }

  /** A property's value is the value of its last occurrence. */
  lemma {:induction false} ToMapLast(es: seq<Entry>, i: nat)
    requires i < |es|
    requires forall j :: i < j < |es| ==> es[j].0 != es[i].0
    ensures es[i].0 in ToMap(es) && ToMap(es)[es[i].0] == es[i].1
    decreases |es|
  {
    if i < |es| - 1 {
      var init := es[..|es| - 1];
      assert init[i] == es[i];
      ToMapLast(init, i);
    }
  }

  /** The property names of the parsed object, each once, in the order they first occur. */
  function PropertyNames(es: seq<Entry>): (names: seq<string>)
    ensures forall n :: n in names <==> n in ToMap(es)
    ensures forall i, j :: 0 <= i < j < |names| ==> names[i] != names[j]
    decreases |es|
  {
    if es == [] then []
    else
      var init := PropertyNames(es[..|es| - 1]);
      if es[|es| - 1].0 in init then init else init + [es[|es| - 1].0]
  }

  /**
   * `Object.entries(JSON.parse(text))`: each property once, at the position where
   * it first occurs, with the value of its last occurrence.
   */
  function ObjectEntries(es: seq<Entry>): seq<Entry> {
    var names := PropertyNames(es);
    seq(|names|, i requires 0 <= i < |names| => (names[i], ToMap(es)[names[i]]))
  }

  /** The entries describe the same object, and name each property once. */
  lemma ObjectEntriesOfObject(es: seq<Entry>)
    ensures ToMap(ObjectEntries(es)) == ToMap(es)
    ensures forall i, j :: 0 <= i < j < |ObjectEntries(es)| ==> ObjectEntries(es)[i].0 != ObjectEntries(es)[j].0
  {
    var r := ObjectEntries(es);
    ObjectEntriesKeys(es);
    forall n | n in ToMap(es) ensures n in ToMap(r) && ToMap(r)[n] == ToMap(es)[n] {
      ObjectEntriesValue(es, n);
    }
  }

  lemma ObjectEntriesKeys(es: seq<Entry>)
    ensures ToMap(ObjectEntries(es)).Keys == ToMap(es).Keys
  {
    var r, names := ObjectEntries(es), PropertyNames(es);
    ToMapKeys(r);
    forall n | n in ToMap(es) ensures n in ToMap(r) {
      var i :| 0 <= i < |names| && names[i] == n;
      assert r[i].0 == n;
    }
  }

  lemma ObjectEntriesValue(es: seq<Entry>, n: string)
    requires n in ToMap(es)
    ensures n in ToMap(ObjectEntries(es)) && ToMap(ObjectEntries(es))[n] == ToMap(es)[n]
  {
    var r, names := ObjectEntries(es), PropertyNames(es);
    var i :| 0 <= i < |names| && names[i] == n;
    assert r[i] == (n, ToMap(es)[n]);
    ToMapLast(r, i);
  }

  /** An object whose properties are already named once is listed as it is. */
  lemma {:induction false} ObjectEntriesDistinct(es: seq<Entry>)
    requires forall i, j :: 0 <= i < j < |es| ==> es[i].0 != es[j].0
    ensures ObjectEntries(es) == es
  {
    NamesInOrder(es);
    forall i | 0 <= i < |es| ensures ObjectEntries(es)[i] == es[i] {
      ToMapLast(es, i);
    }
  }

  lemma {:induction false} NamesInOrder(es: seq<Entry>)
    requires forall i, j :: 0 <= i < j < |es| ==> es[i].0 != es[j].0
    ensures PropertyNames(es) == seq(|es|, i requires 0 <= i < |es| => es[i].0)
    decreases |es|
  {
    if es != [] {
      var init := es[..|es| - 1];
      NamesInOrder(init);
      var last := es[|es| - 1].0;
      assert last !in PropertyNames(init) by {
        ToMapKeys(init);
      }
    }
  }
}
