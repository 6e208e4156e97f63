/**
 * The JSON text `json.dumps` writes for the two shapes the UDF builder
 * serialises (a list of strings, and a list of objects whose values are
 * strings), with Python's defaults: `ensure_ascii=True` and the separators
 * ", " between items and ": " after a key; objects are written with their
 * keys sorted (`sort_keys=True`). Beside the encoder stands a decoder for
 * the same shapes, following RFC 8259 (section 4 objects, section 5
 * arrays, section 7 strings, whitespace as in section 2), and the lemmas
 * that decoding an encoder's text gives back what was encoded.
 */
module Json {
  import opened Wrappers
  import opened Text

  // ---------------------------------------------------------------------
  // Encoding
  // ---------------------------------------------------------------------

  const HexDigits: string := "0123456789abcdef"

  /** The four lower-case hexadecimal digits of a UTF-16 code unit (Python's `'{0:04x}'`). */
  function Hex4(u: nat): (r: string)
    requires u < 0x10000
    ensures |r| == 4
  {
    [HexDigits[u / 0x1000], HexDigits[u / 0x100 % 0x10], HexDigits[u / 0x10 % 0x10], HexDigits[u % 0x10]]
  }

  /** The escape `\uXXXX` of one UTF-16 code unit. */
  function UnitEscape(u: nat): (r: string)
    requires u < 0x10000
    ensures |r| == 6
  {
    "\\u" + Hex4(u)
  }

  /**
   * How the ASCII-only string encoder writes one character: a backslash
   * before `"` and `\`, the short escapes for backspace, form feed, newline,
   * carriage return and tab, printable ASCII as it is, any other character
   * below U+10000 as `\uXXXX`, and a character above as the `\uXXXX\uXXXX`
   * escapes of its UTF-16 surrogate pair.
   */
  function EscapeChar(c: char): string
  {
    var n := c as int;
    if c == '"' then "\\\""
    else if c == '\\' then "\\\\"
    else if c == '\n' then "\\n"
    else if c == '\r' then "\\r"
    else if c == '\t' then "\\t"
    else if n == 0x08 then "\\b"
    else if n == 0x0C then "\\f"
    else if 0x20 <= n < 0x7F then [c]
    else if n < 0x10000 then UnitEscape(n)
    else UnitEscape(0xD800 + (n - 0x10000) / 0x400) + UnitEscape(0xDC00 + (n - 0x10000) % 0x400)
  }

  /** The contents of a string literal: every character escaped in turn. */
  function EscapeString(s: string): string
  {
    if s == [] then "" else EscapeChar(s[0]) + EscapeString(s[1..])
  }

  /** `json.dumps(s)` for a string `s`. */
  function DumpString(s: string): string
  {
    "\"" + EscapeString(s) + "\""
  }

  /** The string literals of `xs`, in order. */
  function DumpStrings(xs: seq<string>): (r: seq<string>)
    ensures |r| == |xs| && forall i :: 0 <= i < |xs| ==> r[i] == DumpString(xs[i])
  {
    if xs == [] then [] else [DumpString(xs[0])] + DumpStrings(xs[1..])
  }

  /** `json.dumps(xs)` for a list of strings `xs`. */
  function DumpStringList(xs: seq<string>): string
  {
    "[" + Join(", ", DumpStrings(xs)) + "]"
  }

  /** One key/value pair of a dictionary whose values are strings. */
  type Member = (string, string)

  /** One `"key": "value"` member. */
  function DumpMember(m: Member): string
  {
    DumpString(m.0) + ": " + DumpString(m.1)
  }

  /** The members of `ms`, in order. */
  function DumpMembers(ms: seq<Member>): (r: seq<string>)
    ensures |r| == |ms| && forall i :: 0 <= i < |ms| ==> r[i] == DumpMember(ms[i])
  {
    if ms == [] then [] else [DumpMember(ms[0])] + DumpMembers(ms[1..])
  }

  /**
   * `json.dumps(d, sort_keys=True)` for a dictionary `d`, given as its
   * members in insertion order.
   */
  function DumpObject(ms: seq<Member>): string
  {
    "{" + Join(", ", DumpMembers(SortByKey(ms))) + "}"
  }

  /** The objects of `os`, in order. */
  function DumpObjects(os: seq<seq<Member>>): (r: seq<string>)
    ensures |r| == |os| && forall i :: 0 <= i < |os| ==> r[i] == DumpObject(os[i])
  {
    if os == [] then [] else [DumpObject(os[0])] + DumpObjects(os[1..])
  }

  /** `json.dumps(ds, sort_keys=True)` for a list of dictionaries `ds`. */
  function DumpObjectList(os: seq<seq<Member>>): string
  {
    "[" + Join(", ", DumpObjects(os)) + "]"
  }

  // ---------------------------------------------------------------------
  // sort_keys: Python orders strings by code point, lexicographically
  // ---------------------------------------------------------------------

  /** `a <= b` on Python strings. */
  predicate StrLe(a: string, b: string)
    decreases |a|
  {
    a == [] || (b != [] && (a[0] < b[0] || (a[0] == b[0] && StrLe(a[1..], b[1..]))))
  }

  lemma {:induction false} StrLeTotal(a: string, b: string)
    ensures StrLe(a, b) || StrLe(b, a)
    decreases |a|
  {
    if a != [] && b != [] && a[0] == b[0] {
      StrLeTotal(a[1..], b[1..]);
    }
  }

  /** Adjacent members are in key order. */
  predicate SortedByKey(ms: seq<Member>)
  {
    forall i :: 0 < i < |ms| ==> StrLe(ms[i - 1].0, ms[i].0)
  }

  /** Inserts `m` before the first member whose key is not below its own. */
  function InsertByKey(m: Member, ms: seq<Member>): (r: seq<Member>)
    requires SortedByKey(ms)
    ensures SortedByKey(r)
    ensures multiset(r) == multiset(ms) + multiset{m}
    ensures |r| > 0 && (r[0] == m || (|ms| > 0 && r[0] == ms[0]))
  {
    if ms == [] then [m]
    else if StrLe(m.0, ms[0].0) then [m] + ms
    else
      StrLeTotal(m.0, ms[0].0);
      var tail := InsertByKey(m, ms[1..]);
      assert ms == [ms[0]] + ms[1..];
      [ms[0]] + tail
  }

  /** The members in key order, as `sorted(d.items())` lists them (keys of a dictionary are distinct). */
  function SortByKey(ms: seq<Member>): (r: seq<Member>)
    ensures SortedByKey(r)
    ensures multiset(r) == multiset(ms)
  {
    if ms == [] then []
    else
      assert ms == [ms[0]] + ms[1..];
      InsertByKey(ms[0], SortByKey(ms[1..]))
  }

  // ---------------------------------------------------------------------
  // Decoding (RFC 8259)
  // ---------------------------------------------------------------------

  /** Insignificant whitespace: space, horizontal tab, line feed, carriage return. */
  predicate IsWs(c: char)
  {
    c == ' ' || c == '\t' || c == '\n' || c == '\r'
  }

  function SkipWs(s: string): (r: string)
    ensures |r| <= |s|
    ensures r == [] || !IsWs(r[0])
  {
    if |s| > 0 && IsWs(s[0]) then SkipWs(s[1..]) else s
  }

  /** The value of one hexadecimal digit, in either case. */
  function HexValue(c: char): (r: Option<nat>)
    ensures r.Some? ==> r.value < 16
  {
    if '0' <= c <= '9' then Some(c as int - '0' as int)
    else if 'a' <= c <= 'f' then Some(c as int - 'a' as int + 10)
    else if 'A' <= c <= 'F' then Some(c as int - 'A' as int + 10)
    else None
  }

  /** The code unit written by four hexadecimal digits at the start of `s`, and the text after them. */
  function ParseHex4(s: string): (r: Option<(nat, string)>)
    ensures r.Some? ==> r.value.0 < 0x10000 && |s| >= 4 && r.value.1 == s[4..]
  {
    if |s| < 4 then None
    else
      match (HexValue(s[0]), HexValue(s[1]), HexValue(s[2]), HexValue(s[3]))
      case (Some(a), Some(b), Some(c), Some(d)) => Some((a * 0x1000 + b * 0x100 + c * 0x10 + d, s[4..]))
      case _ => None
  }

  /**
   * The character an escape stands for, given the text after its backslash,
   * and the text after the escape. A `\uXXXX` escape of a high surrogate must
   * be followed by one of a low surrogate; a lone surrogate is no character.
   */
  function ParseEscape(s: string): (r: Option<(char, string)>)
    ensures r.Some? ==> |r.value.1| < |s|
  {
    if |s| == 0 then None
    else if s[0] == '"' then Some(('"', s[1..]))
    else if s[0] == '\\' then Some(('\\', s[1..]))
    else if s[0] == '/' then Some(('/', s[1..]))
    else if s[0] == 'b' then Some((0x08 as char, s[1..]))
    else if s[0] == 'f' then Some((0x0C as char, s[1..]))
    else if s[0] == 'n' then Some(('\n', s[1..]))
    else if s[0] == 'r' then Some(('\r', s[1..]))
    else if s[0] == 't' then Some(('\t', s[1..]))
    else if s[0] == 'u' then
      match ParseHex4(s[1..])
      case None => None
      case Some((hi, rest)) =>
        if hi < 0xD800 || 0xE000 <= hi then Some((hi as char, rest))
        else if hi < 0xDC00 && |rest| >= 2 && rest[0] == '\\' && rest[1] == 'u' then
          match ParseHex4(rest[2..])
          case None => None
          case Some((lo, rest')) =>
            if 0xDC00 <= lo < 0xE000 then Some(((0x10000 + (hi - 0xD800) * 0x400 + (lo - 0xDC00)) as char, rest'))
            else None
        else None
    else None
  }

  /** The contents of a string literal up to its closing quote, and the text after that quote. */
  function ParseStringBody(s: string): (r: Option<(string, string)>)
    ensures r.Some? ==> |r.value.1| < |s|
    decreases |s|
  {
    if |s| == 0 then None
    else if s[0] == '"' then Some(("", s[1..]))
    else if s[0] == '\\' then
      match ParseEscape(s[1..])
      case None => None
      case Some((c, rest)) =>
        match ParseStringBody(rest)
        case None => None
        case Some((t, rest')) => Some(([c] + t, rest'))
    else if s[0] as int < 0x20 then None
    else
      match ParseStringBody(s[1..])
      case None => None
      case Some((t, rest)) => Some(([s[0]] + t, rest))
  }

  /** A string literal at the very start of `s`. */
  function ParseString(s: string): (r: Option<(string, string)>)
    ensures r.Some? ==> |r.value.1| < |s|
  {
    if |s| > 0 && s[0] == '"' then ParseStringBody(s[1..]) else None
  }

  /** The items of a non-empty array of strings, from its first item through the closing bracket. */
  function ParseStringItems(s: string): (r: Option<(seq<string>, string)>)
    ensures r.Some? ==> |r.value.1| < |s|
    decreases |s|
  {
    match ParseString(s)
    case None => None
    case Some((x, rest)) =>
      var t := SkipWs(rest);
      if |t| > 0 && t[0] == ']' then Some(([x], t[1..]))
      else if |t| > 0 && t[0] == ',' then
        match ParseStringItems(SkipWs(t[1..]))
        case None => None
        case Some((xs, rest')) => Some(([x] + xs, rest'))
      else None
  }

  /** An array of strings, after optional whitespace. */
  function ParseStringList(s: string): (r: Option<(seq<string>, string)>)
    ensures r.Some? ==> |r.value.1| < |s|
  {
    var t := SkipWs(s);
    if |t| > 0 && t[0] == '[' then
      var u := SkipWs(t[1..]);
      if |u| > 0 && u[0] == ']' then Some(([], u[1..])) else ParseStringItems(u)
    else None
  }

  /** A whole JSON text that is an array of strings. */
  function DecodeStringList(s: string): Option<seq<string>>
  {
    match ParseStringList(s)
    case Some((xs, rest)) => if SkipWs(rest) == "" then Some(xs) else None
    case None => None
  }

  /** One `"key": "value"` member at the start of `s`. */
  function ParseMember(s: string): (r: Option<(Member, string)>)
    ensures r.Some? ==> |r.value.1| < |s|
  {
    match ParseString(s)
    case None => None
    case Some((k, rest)) =>
      var t := SkipWs(rest);
      if |t| > 0 && t[0] == ':' then
        match ParseString(SkipWs(t[1..]))
        case None => None
        case Some((v, rest')) => Some(((k, v), rest'))
      else None
  }

  /** The members of a non-empty object, from its first member through the closing brace. */
  function ParseMembers(s: string): (r: Option<(seq<Member>, string)>)
    ensures r.Some? ==> |r.value.1| < |s|
    decreases |s|
  {
    match ParseMember(s)
    case None => None
    case Some((m, rest)) =>
      var t := SkipWs(rest);
      if |t| > 0 && t[0] == '}' then Some(([m], t[1..]))
      else if |t| > 0 && t[0] == ',' then
        match ParseMembers(SkipWs(t[1..]))
        case None => None
        case Some((ms, rest')) => Some(([m] + ms, rest'))
      else None
  }

  /** An object whose values are strings, after optional whitespace; its members in written order. */
  function ParseObject(s: string): (r: Option<(seq<Member>, string)>)
    ensures r.Some? ==> |r.value.1| < |s|
  {
    var t := SkipWs(s);
    if |t| > 0 && t[0] == '{' then
      var u := SkipWs(t[1..]);
      if |u| > 0 && u[0] == '}' then Some(([], u[1..])) else ParseMembers(u)
    else None
  }

  /** The items of a non-empty array of objects, from its first item through the closing bracket. */
  function ParseObjectItems(s: string): (r: Option<(seq<seq<Member>>, string)>)
    ensures r.Some? ==> |r.value.1| < |s|
    decreases |s|
  {
    match ParseObject(s)
    case None => None
    case Some((o, rest)) =>
      var t := SkipWs(rest);
      if |t| > 0 && t[0] == ']' then Some(([o], t[1..]))
      else if |t| > 0 && t[0] == ',' then
        match ParseObjectItems(SkipWs(t[1..]))
        case None => None
        case Some((os, rest')) => Some(([o] + os, rest'))
      else None
  }

  /** An array of objects, after optional whitespace. */
  function ParseObjectList(s: string): (r: Option<(seq<seq<Member>>, string)>)
    ensures r.Some? ==> |r.value.1| < |s|
  {
    var t := SkipWs(s);
    if |t| > 0 && t[0] == '[' then
      var u := SkipWs(t[1..]);
      if |u| > 0 && u[0] == ']' then Some(([], u[1..])) else ParseObjectItems(u)
    else None
  }

  /** A whole JSON text that is an array of objects whose values are strings. */
  function DecodeObjectList(s: string): Option<seq<seq<Member>>>
  {
    match ParseObjectList(s)
    case Some((os, rest)) => if SkipWs(rest) == "" then Some(os) else None
    case None => None
  }

  // ---------------------------------------------------------------------
  // What the encoder's text decodes to
  // ---------------------------------------------------------------------

  lemma HexDigitValue(d: nat)
    requires d < 16
    ensures HexValue(HexDigits[d]) == Some(d)
  {
  }

  /** A code unit is the sum of its four hexadecimal digits' place values. */
  lemma Hex4Digits(u: nat)
    requires u < 0x10000
    ensures u == u / 0x1000 * 0x1000 + u / 0x100 % 0x10 * 0x100 + u / 0x10 % 0x10 * 0x10 + u % 0x10
  {
    var q1, q2, q3 := u / 0x10, u / 0x100, u / 0x1000;
    assert u == q1 * 0x10 + u % 0x10;
    assert q1 == q2 * 0x10 + q1 % 0x10;
    assert q2 == q3 * 0x10 + q2 % 0x10;
    assert q1 % 0x10 == u / 0x10 % 0x10;
    assert q2 % 0x10 == u / 0x100 % 0x10;
  }

  /** The four digits of a code unit and their place values. */
  lemma Hex4Split(u: nat) returns (a: nat, b: nat, c: nat, d: nat)
    requires u < 0x10000
    ensures a < 16 && b < 16 && c < 16 && d < 16
    ensures Hex4(u) == [HexDigits[a], HexDigits[b], HexDigits[c], HexDigits[d]]
    ensures u == a * 0x1000 + b * 0x100 + c * 0x10 + d
  {
    a, b, c, d := u / 0x1000, u / 0x100 % 0x10, u / 0x10 % 0x10, u % 0x10;
    Hex4Digits(u);
  }

  /** How `ParseHex4` reads four digits, stated for any text. */
  lemma Hex4Step(s: string, a: nat, b: nat, c: nat, d: nat, tail: string)
    requires |s| >= 4 && s[4..] == tail
    requires HexValue(s[0]) == Some(a) && HexValue(s[1]) == Some(b)
    requires HexValue(s[2]) == Some(c) && HexValue(s[3]) == Some(d)
    ensures ParseHex4(s) == Some((a * 0x1000 + b * 0x100 + c * 0x10 + d, tail))
  {
  }

  /** Four digits written by `Hex4` read back as the code unit they came from. */
  lemma Hex4RoundTrip(u: nat, tail: string)
    requires u < 0x10000
    ensures ParseHex4(Hex4(u) + tail) == Some((u, tail))
  {
    var a, b, c, d := Hex4Split(u);
    var s := Hex4(u) + tail;
    assert s[0] == HexDigits[a] && s[1] == HexDigits[b] && s[2] == HexDigits[c] && s[3] == HexDigits[d];
    assert s[4..] == tail;
    HexDigitValue(a);
    HexDigitValue(b);
    HexDigitValue(c);
    HexDigitValue(d);
    Hex4Step(s, a, b, c, d, tail);
  }

  /** Text with no quote, no backslash and nothing outside printable ASCII is written as it is. */
  lemma {:induction false} PlainTextUnescaped(s: string)
    requires forall i :: 0 <= i < |s| ==> 0x20 <= s[i] as int < 0x7F && s[i] != '"' && s[i] != '\\'
    ensures EscapeString(s) == s
    decreases |s|
  {
    if s != [] {
      PlainTextUnescaped(s[1..]);
      assert [s[0]] + s[1..] == s;
    }
  }

  /** Prepends a character to the contents a string body decodes to. */
  function Prepend(c: char, r: Option<(string, string)>): Option<(string, string)>
  {
    match r
    case None => None
    case Some((t, rest)) => Some(([c] + t, rest))
  }

  /** A string body that starts with a backslash escape decodes through that escape. */
  lemma EscapedStep(t: string, c: char, s: string)
    requires |t| > 1 && t[0] == '\\'
    requires ParseEscape(t[1..]) == Some((c, s))
    ensures ParseStringBody(t) == Prepend(c, ParseStringBody(s))
  {
  }

  /** A `\uXXXX` escape of a code unit that is no surrogate stands for that character. */
  lemma UnitEscapeRoundTrip(c: char, s: string)
    requires c as int < 0x10000
    ensures ParseEscape(UnitEscape(c as int)[1..] + s) == Some((c, s))
  {
    var n := c as int;
    var t := UnitEscape(n)[1..] + s;
    assert t == (UnitEscape(n) + s)[1..];
    UnitEscapeLayout(n, s);
    assert t[0] == 'u' && t[1..] == Hex4(n) + s;
    Hex4RoundTrip(n, s);
  }

  /** The surrogate pair of a character above U+FFFF: both halves in range, and they combine back to it. */
  lemma SurrogateHalves(n: int) returns (hi: nat, lo: nat)
    requires 0x10000 <= n < 0x110000
    ensures hi == 0xD800 + (n - 0x10000) / 0x400 && lo == 0xDC00 + (n - 0x10000) % 0x400
    ensures 0xD800 <= hi < 0xDC00 && 0xDC00 <= lo < 0xE000
    ensures 0x10000 + (hi - 0xD800) * 0x400 + (lo - 0xDC00) == n
  {
    hi, lo := 0xD800 + (n - 0x10000) / 0x400, 0xDC00 + (n - 0x10000) % 0x400;
  }

  /** How `ParseEscape` reads a high surrogate escape followed by a low one, stated for any text. */
  lemma PairEscapeStep(t: string, hi: nat, rest: string, lo: nat, c: char, s: string)
    requires |t| > 0 && t[0] == 'u' && ParseHex4(t[1..]) == Some((hi, rest))
    requires 0xD800 <= hi < 0xDC00 && 0xDC00 <= lo < 0xE000
    requires |rest| >= 2 && rest[0] == '\\' && rest[1] == 'u' && ParseHex4(rest[2..]) == Some((lo, s))
    requires c as int == 0x10000 + (hi - 0xD800) * 0x400 + (lo - 0xDC00)
    ensures ParseEscape(t) == Some((c, s))
  {
  }

  /** The layout of a `\uXXXX` escape followed by any text. */
  lemma UnitEscapeLayout(u: nat, rest: string)
    requires u < 0x10000
    ensures var t := UnitEscape(u) + rest; |t| > 2 && t[0] == '\\' && t[1] == 'u' && t[2..] == Hex4(u) + rest
  {
  }

  /** The escapes of a high and a low surrogate read back as the character they combine to. */
  lemma PairRoundTrip(hi: nat, lo: nat, c: char, s: string)
    requires 0xD800 <= hi < 0xDC00 && 0xDC00 <= lo < 0xE000
    requires c as int == 0x10000 + (hi - 0xD800) * 0x400 + (lo - 0xDC00)
    ensures ParseEscape((UnitEscape(hi) + UnitEscape(lo))[1..] + s) == Some((c, s))
  {
    var rest := UnitEscape(lo) + s;
    var t := (UnitEscape(hi) + UnitEscape(lo))[1..] + s;
    assert t == (UnitEscape(hi) + rest)[1..];
    UnitEscapeLayout(hi, rest);
    assert t[0] == 'u' && t[1..] == Hex4(hi) + rest;
    Hex4RoundTrip(hi, rest);
    UnitEscapeLayout(lo, s);
    Hex4RoundTrip(lo, s);
    PairEscapeStep(t, hi, rest, lo, c, s);
  }

  /** The two escapes of a surrogate pair stand for the character above U+FFFF they encode. */
  lemma SurrogatePairRoundTrip(c: char, s: string)
    requires c as int >= 0x10000
    ensures var v := c as int - 0x10000;
      ParseEscape((UnitEscape(0xD800 + v / 0x400) + UnitEscape(0xDC00 + v % 0x400))[1..] + s) == Some((c, s))
  {
    var hi, lo := SurrogateHalves(c as int);
    PairRoundTrip(hi, lo, c, s);
  }

  /** Every character the encoder escapes is written as a backslash and an escape that stands for it. */
  lemma EscapeStandsFor(c: char, s: string)
    requires !(0x20 <= c as int < 0x7F) || c == '"' || c == '\\'
    ensures var e := EscapeChar(c); |e| > 1 && e[0] == '\\' && ParseEscape(e[1..] + s) == Some((c, s))
  {
    var n := c as int;
    var e := EscapeChar(c);
    if c == '"' || c == '\\' || c == '\n' || c == '\r' || c == '\t' || n == 0x08 || n == 0x0C {
      assert |e| == 2 && e[0] == '\\';
      assert e[1..] + s == [e[1]] + s;
    } else if n < 0x10000 {
      UnitEscapeRoundTrip(c, s);
    } else {
      SurrogatePairRoundTrip(c, s);
    }
  }

  /** A backslash escape that stands for `c`, followed by any text, decodes to `c` and then that text. */
  lemma BackslashStep(e: string, c: char, s: string)
    requires |e| > 1 && e[0] == '\\' && ParseEscape(e[1..] + s) == Some((c, s))
    ensures ParseStringBody(e + s) == Prepend(c, ParseStringBody(s))
  {
    DropFirst(e, s);
    EscapedStep(e + s, c, s);
  }

  /** A printable character other than a quote or a backslash decodes to itself. */
  lemma PlainStep(t: string, s: string)
    requires |t| > 0 && 0x20 <= t[0] as int < 0x7F && t[0] != '"' && t[0] != '\\' && t[1..] == s
    ensures ParseStringBody(t) == Prepend(t[0], ParseStringBody(s))
  {
  }

  /** The escape of one character decodes to that character, whatever follows it. */
  lemma EscapeCharRoundTrip(c: char, s: string)
    ensures ParseStringBody(EscapeChar(c) + s) == Prepend(c, ParseStringBody(s))
  {
    var n := c as int;
    if 0x20 <= n < 0x7F && c != '"' && c != '\\' {
      var t := EscapeChar(c) + s;
      assert EscapeChar(c) == [c];
      assert t[0] == c && t[1..] == s;
      PlainStep(t, s);
    } else {
      EscapeStandsFor(c, s);
      BackslashStep(EscapeChar(c), c, s);
    }
  }

  /** The escaped contents and a closing quote decode to the original string; the text after the quote is left. */
  lemma {:induction false} EscapeStringRoundTrip(s: string, tail: string)
    ensures ParseStringBody(EscapeString(s) + "\"" + tail) == Some((s, tail))
    decreases |s|
  {
    if s == [] {
      assert EscapeString(s) + "\"" + tail == "\"" + tail;
    } else {
      assert [s[0]] + s[1..] == s;
      var after := EscapeString(s[1..]) + "\"" + tail;
      assert EscapeString(s) + "\"" + tail == EscapeChar(s[0]) + after;
      EscapeCharRoundTrip(s[0], after);
      EscapeStringRoundTrip(s[1..], tail);
    }
  }

  /** `json.dumps` of a string decodes to that string. */
  lemma StringRoundTrip(s: string, tail: string)
    ensures ParseString(DumpString(s) + tail) == Some((s, tail))
  {
    assert (DumpString(s) + tail)[1..] == EscapeString(s) + "\"" + tail;
    EscapeStringRoundTrip(s, tail);
  }

  /** A join whose first item starts with `c` starts with `c`. */
  lemma JoinHead(sep: string, xs: seq<string>, c: char)
    requires |xs| > 0 && |xs[0]| > 0 && xs[0][0] == c
    ensures |Join(sep, xs)| > 0 && Join(sep, xs)[0] == c
  {
  }

  /** Dropping the opening bracket of an enclosed text leaves its items and the rest. */
  lemma Enclosed(open: char, items: string, rest: string)
    requires |items| > 0
    ensures var t := [open] + items + rest; |t| > 1 && t[0] == open && t[1] == items[0] && t[1..] == items + rest
  {
  }

  /** Whitespace after a separator is skipped up to the next item, which starts with no whitespace. */
  lemma SkipSpace(rest: string)
    requires |rest| > 0 && !IsWs(rest[0])
    ensures SkipWs(" " + rest) == rest
  {
    assert (" " + rest)[1..] == rest;
  }

  // How the item parsers step over one item, stated for any text.

  lemma StringItemsLast(s: string, x: string, tail: string)
    requires ParseString(s) == Some((x, "]" + tail))
    ensures ParseStringItems(s) == Some(([x], tail))
  {
    assert ("]" + tail)[1..] == tail;
  }

  lemma StringItemsNext(s: string, x: string, more: string, xs: seq<string>, tail: string)
    requires |more| > 0 && !IsWs(more[0])
    requires ParseString(s) == Some((x, ", " + more))
    requires ParseStringItems(more) == Some((xs, tail))
    ensures ParseStringItems(s) == Some(([x] + xs, tail))
  {
    assert (", " + more)[1..] == " " + more;
    SkipSpace(more);
  }

  lemma MembersLast(s: string, m: Member, tail: string)
    requires ParseMember(s) == Some((m, "}" + tail))
    ensures ParseMembers(s) == Some(([m], tail))
  {
    assert ("}" + tail)[1..] == tail;
  }

  lemma MembersNext(s: string, m: Member, more: string, ms: seq<Member>, tail: string)
    requires |more| > 0 && !IsWs(more[0])
    requires ParseMember(s) == Some((m, ", " + more))
    requires ParseMembers(more) == Some((ms, tail))
    ensures ParseMembers(s) == Some(([m] + ms, tail))
  {
    assert (", " + more)[1..] == " " + more;
    SkipSpace(more);
  }

  lemma ObjectItemsLast(s: string, o: seq<Member>, tail: string)
    requires ParseObject(s) == Some((o, "]" + tail))
    ensures ParseObjectItems(s) == Some(([o], tail))
  {
    assert ("]" + tail)[1..] == tail;
  }

  lemma ObjectItemsNext(s: string, o: seq<Member>, more: string, os: seq<seq<Member>>, tail: string)
    requires |more| > 0 && !IsWs(more[0])
    requires ParseObject(s) == Some((o, ", " + more))
    requires ParseObjectItems(more) == Some((os, tail))
    ensures ParseObjectItems(s) == Some(([o] + os, tail))
  {
    assert (", " + more)[1..] == " " + more;
    SkipSpace(more);
  }

  /** The text of a join of two or more items, split after its first item. */
  lemma JoinFirst(sep: string, xs: seq<string>, tail: string)
    requires |xs| > 1
    ensures Join(sep, xs) + tail == xs[0] + (sep + (Join(sep, xs[1..]) + tail))
  {
  }

  lemma {:induction false} StringItemsRoundTrip(xs: seq<string>, tail: string)
    requires |xs| > 0
    ensures ParseStringItems(Join(", ", DumpStrings(xs)) + ("]" + tail)) == Some((xs, tail))
    decreases |xs|
  {
    var dumps := DumpStrings(xs);
    if |xs| == 1 {
      assert xs == [xs[0]];
      assert Join(", ", dumps) == DumpString(xs[0]);
      StringRoundTrip(xs[0], "]" + tail);
      StringItemsLast(Join(", ", dumps) + ("]" + tail), xs[0], tail);
    } else {
      assert [xs[0]] + xs[1..] == xs;
      var more := Join(", ", dumps[1..]) + ("]" + tail);
      assert dumps[1..] == DumpStrings(xs[1..]);
      JoinFirst(", ", dumps, "]" + tail);
      StringRoundTrip(xs[0], ", " + more);
      JoinHead(", ", dumps[1..], '"');
      StringItemsRoundTrip(xs[1..], tail);
      StringItemsNext(Join(", ", dumps) + ("]" + tail), xs[0], more, xs[1..], tail);
    }
  }

  /** `json.dumps` of a list of strings decodes to the same strings, in the same order. */
  lemma DecodeDumpStringList(xs: seq<string>)
    ensures DecodeStringList(DumpStringList(xs)) == Some(xs)
  {
    if xs == [] {
      assert DumpStringList(xs) == "[]";
      ListEmpty();
    } else {
      var items := Join(", ", DumpStrings(xs));
      JoinHead(", ", DumpStrings(xs), '"');
      Enclosed('[', items, "]" + "");
      var text := ['['] + items + ("]" + "");
      assert DumpStringList(xs) == text;
      StringItemsRoundTrip(xs, "");
      StringListOpen(text, xs);
    }
  }

  /** How `ParseMember` reads a key, a colon and a space, and a value, stated for any text. */
  lemma MemberStep(s: string, k: string, after: string, value: string, v: string, tail: string)
    requires ParseString(s) == Some((k, after))
    requires |after| > 1 && after[0] == ':' && after[1..] == " " + value
    requires |value| > 0 && !IsWs(value[0]) && ParseString(value) == Some((v, tail))
    ensures ParseMember(s) == Some(((k, v), tail))
  {
    SkipSpace(value);
  }

  lemma MemberRoundTrip(m: Member, tail: string)
    ensures ParseMember(DumpMember(m) + tail) == Some((m, tail))
  {
    var value := DumpString(m.1) + tail;
    var after := ": " + value;
    assert DumpMember(m) + tail == DumpString(m.0) + after;
    StringRoundTrip(m.0, after);
    assert after[1..] == " " + value;
    assert value[0] == '"';
    StringRoundTrip(m.1, tail);
    MemberStep(DumpMember(m) + tail, m.0, after, value, m.1, tail);
  }

  /** A member is written starting with the quote of its key. */
  lemma MemberHead(m: Member)
    ensures |DumpMember(m)| > 0 && DumpMember(m)[0] == '"'
  {
  }

  /** The text of two or more members is the first member, a separator, and the text of the others. */
  lemma MembersText(ms: seq<Member>, tail: string)
    requires |ms| > 1
    ensures var more := Join(", ", DumpMembers(ms[1..])) + ("}" + tail);
      Join(", ", DumpMembers(ms)) + ("}" + tail) == DumpMember(ms[0]) + (", " + more)
      && |more| > 0 && more[0] == '"'
  {
    var dumps := DumpMembers(ms);
    assert dumps[1..] == DumpMembers(ms[1..]);
    JoinFirst(", ", dumps, "}" + tail);
    MemberHead(ms[1]);
    JoinHead(", ", dumps[1..], '"');
  }

  lemma {:induction false} MembersRoundTrip(ms: seq<Member>, tail: string)
    requires |ms| > 0
    ensures ParseMembers(Join(", ", DumpMembers(ms)) + ("}" + tail)) == Some((ms, tail))
    decreases |ms|
  {
    var s := Join(", ", DumpMembers(ms)) + ("}" + tail);
    if |ms| == 1 {
      assert ms == [ms[0]];
      assert s == DumpMember(ms[0]) + ("}" + tail);
      MemberRoundTrip(ms[0], "}" + tail);
      MembersLast(s, ms[0], tail);
    } else {
      assert [ms[0]] + ms[1..] == ms;
      var more := Join(", ", DumpMembers(ms[1..])) + ("}" + tail);
      MembersText(ms, tail);
      MemberRoundTrip(ms[0], ", " + more);
      MembersRoundTrip(ms[1..], tail);
      MembersNext(s, ms[0], more, ms[1..], tail);
    }
  }

  // How the object and array parsers open and close, stated for any text.

  lemma ObjectEmpty(tail: string)
    ensures ParseObject("{}" + tail) == Some(([], tail))
  {
    var text := "{}" + tail;
    assert text[1..] == "}" + tail;
    assert ("}" + tail)[1..] == tail;
  }

  lemma ObjectOpen(text: string, ms: seq<Member>, tail: string)
    requires |text| > 1 && text[0] == '{' && text[1] == '"'
    requires ParseMembers(text[1..]) == Some((ms, tail))
    ensures ParseObject(text) == Some((ms, tail))
  {
    assert SkipWs(text) == text;
    assert SkipWs(text[1..]) == text[1..];
  }

  lemma ListEmpty()
    ensures ParseStringList("[]") == Some(([], ""))
    ensures ParseObjectList("[]") == Some(([], ""))
  {
    assert "[]"[1..] == "]";
  }

  lemma StringListOpen(text: string, xs: seq<string>)
    requires |text| > 1 && text[0] == '[' && text[1] == '"'
    requires ParseStringItems(text[1..]) == Some((xs, ""))
    ensures ParseStringList(text) == Some((xs, ""))
  {
    assert SkipWs(text) == text;
    assert SkipWs(text[1..]) == text[1..];
  }

  lemma ObjectListOpen(text: string, os: seq<seq<Member>>)
    requires |text| > 1 && text[0] == '[' && text[1] == '{'
    requires ParseObjectItems(text[1..]) == Some((os, ""))
    ensures ParseObjectList(text) == Some((os, ""))
  {
    assert SkipWs(text) == text;
    assert SkipWs(text[1..]) == text[1..];
  }

  /** `json.dumps(d, sort_keys=True)` decodes to the members of `d` in key order. */
  lemma ObjectRoundTrip(ms: seq<Member>, tail: string)
    ensures ParseObject(DumpObject(ms) + tail) == Some((SortByKey(ms), tail))
  {
    var sorted := SortByKey(ms);
    if ms == [] {
      assert DumpObject(ms) + tail == "{}" + tail;
      ObjectEmpty(tail);
    } else {
      assert |multiset(sorted)| == |multiset(ms)|;
      var items := Join(", ", DumpMembers(sorted));
      JoinHead(", ", DumpMembers(sorted), '"');
      Enclosed('{', items, "}" + tail);
      var text := ['{'] + items + ("}" + tail);
      assert DumpObject(ms) + tail == text;
      MembersRoundTrip(sorted, tail);
      ObjectOpen(text, sorted, tail);
    }
  }

  /** Each object sorted by key, in the order of the list. */
  function SortEach(os: seq<seq<Member>>): (r: seq<seq<Member>>)
    ensures |r| == |os| && forall i :: 0 <= i < |os| ==> r[i] == SortByKey(os[i])
  {
    if os == [] then [] else [SortByKey(os[0])] + SortEach(os[1..])
  }

  lemma {:induction false} ObjectItemsRoundTrip(os: seq<seq<Member>>, tail: string)
    requires |os| > 0
    ensures ParseObjectItems(Join(", ", DumpObjects(os)) + ("]" + tail)) == Some((SortEach(os), tail))
    decreases |os|
  {
    var dumps := DumpObjects(os);
    if |os| == 1 {
      assert Join(", ", dumps) == DumpObject(os[0]);
      ObjectRoundTrip(os[0], "]" + tail);
      ObjectItemsLast(Join(", ", dumps) + ("]" + tail), SortByKey(os[0]), tail);
      assert SortEach(os) == [SortByKey(os[0])];
    } else {
      var more := Join(", ", dumps[1..]) + ("]" + tail);
      assert dumps[1..] == DumpObjects(os[1..]);
      JoinFirst(", ", dumps, "]" + tail);
      ObjectRoundTrip(os[0], ", " + more);
      JoinHead(", ", dumps[1..], '{');
      ObjectItemsRoundTrip(os[1..], tail);
      ObjectItemsNext(Join(", ", dumps) + ("]" + tail), SortByKey(os[0]), more, SortEach(os[1..]), tail);
    }
  }

  /**
   * `json.dumps(ds, sort_keys=True)` of a list of dictionaries decodes to one
   * object per dictionary, in list order, each holding the dictionary's
   * members in key order.
   */
  lemma DecodeDumpObjectList(os: seq<seq<Member>>)
    ensures DecodeObjectList(DumpObjectList(os)) == Some(SortEach(os))
  {
    var text := DumpObjectList(os);
    if os == [] {
      assert text == "[]";
      ListEmpty();
    } else {
      var items := Join(", ", DumpObjects(os));
      JoinHead(", ", DumpObjects(os), '{');
      Enclosed('[', items, "]" + "");
      assert text == ['['] + items + ("]" + "");
      ObjectItemsRoundTrip(os, "");
      ObjectListOpen(text, SortEach(os));
    }
    ObjectListWhole(text, SortEach(os));
  }

  /** A text that parses as an array of objects with nothing left over decodes to that array. */
  lemma ObjectListWhole(text: string, os: seq<seq<Member>>)
    requires ParseObjectList(text) == Some((os, ""))
    ensures DecodeObjectList(text) == Some(os)
  {
  }

  // ---------------------------------------------------------------------
  // ensure_ascii: the encoder writes printable ASCII only
  // ---------------------------------------------------------------------

  predicate PrintableAscii(s: string)
  {
    forall i :: 0 <= i < |s| ==> 0x20 <= s[i] as int < 0x7F
  }

  lemma ConcatPrintable(a: string, b: string)
    requires PrintableAscii(a) && PrintableAscii(b)
    ensures PrintableAscii(a + b)
  {
    forall i | 0 <= i < |a + b|
      ensures 0x20 <= (a + b)[i] as int < 0x7F
    {
      if i >= |a| {
        assert (a + b)[i] == b[i - |a|];
      }
    }
  }

  lemma UnitEscapePrintable(u: nat)
    requires u < 0x10000
    ensures PrintableAscii(UnitEscape(u))
  {
    var h := Hex4(u);
    assert forall d :: 0 <= d < 16 ==> 0x30 <= HexDigits[d] as int < 0x67;
    ConcatPrintable("\\u", h);
  }

  /** Whatever the character, its escape is printable ASCII. */
  lemma EscapeCharPrintable(c: char)
    ensures PrintableAscii(EscapeChar(c))
  {
    var n := c as int;
    if n >= 0x10000 {
      var hi, lo := SurrogateHalves(n);
      UnitEscapePrintable(hi);
      UnitEscapePrintable(lo);
      ConcatPrintable(UnitEscape(hi), UnitEscape(lo));
      assert EscapeChar(c) == UnitEscape(hi) + UnitEscape(lo);
    } else if 0x20 <= n < 0x7F || c == '\n' || c == '\r' || c == '\t' || n == 0x08 || n == 0x0C {
    } else {
      UnitEscapePrintable(n);
      assert EscapeChar(c) == UnitEscape(n);
    }
  }

  lemma {:induction false} EscapeStringPrintable(s: string)
    ensures PrintableAscii(EscapeString(s))
    decreases |s|
  {
    if s != [] {
      EscapeCharPrintable(s[0]);
      EscapeStringPrintable(s[1..]);
      ConcatPrintable(EscapeChar(s[0]), EscapeString(s[1..]));
    }
  }

  /** `json.dumps` of any string is printable ASCII: no raw control character and nothing beyond U+007E. */
  lemma DumpStringPrintable(s: string)
    ensures PrintableAscii(DumpString(s))
  {
    EscapeStringPrintable(s);
    ConcatPrintable("\"", EscapeString(s));
    ConcatPrintable("\"" + EscapeString(s), "\"");
  }

  lemma {:induction false} JoinPrintable(sep: string, xs: seq<string>)
    requires PrintableAscii(sep) && forall i :: 0 <= i < |xs| ==> PrintableAscii(xs[i])
    ensures PrintableAscii(Join(sep, xs))
    decreases |xs|
  {
    if |xs| > 1 {
      JoinPrintable(sep, xs[1..]);
      ConcatPrintable(xs[0], sep);
      ConcatPrintable(xs[0] + sep, Join(sep, xs[1..]));
    }
  }

  lemma {:induction false} DumpStringsPrintable(xs: seq<string>)
    ensures |DumpStrings(xs)| == |xs| && forall i :: 0 <= i < |xs| ==> PrintableAscii(DumpStrings(xs)[i])
    decreases |xs|
  {
    if xs != [] {
      DumpStringPrintable(xs[0]);
      DumpStringsPrintable(xs[1..]);
    }
  }

  /** `json.dumps` of a list of strings is printable ASCII. */
  lemma DumpStringListPrintable(xs: seq<string>)
    ensures PrintableAscii(DumpStringList(xs))
  {
    DumpStringsPrintable(xs);
    JoinPrintable(", ", DumpStrings(xs));
    ConcatPrintable("[", Join(", ", DumpStrings(xs)));
    ConcatPrintable("[" + Join(", ", DumpStrings(xs)), "]");
  }

  lemma {:induction false} DumpMembersPrintable(ms: seq<Member>)
    ensures |DumpMembers(ms)| == |ms| && forall i :: 0 <= i < |ms| ==> PrintableAscii(DumpMembers(ms)[i])
    decreases |ms|
  {
    if ms != [] {
      DumpStringPrintable(ms[0].0);
      DumpStringPrintable(ms[0].1);
      ConcatPrintable(DumpString(ms[0].0), ": ");
      ConcatPrintable(DumpString(ms[0].0) + ": ", DumpString(ms[0].1));
      DumpMembersPrintable(ms[1..]);
    }
  }

  lemma DumpObjectPrintable(ms: seq<Member>)
    ensures PrintableAscii(DumpObject(ms))
  {
    var items := DumpMembers(SortByKey(ms));
    DumpMembersPrintable(SortByKey(ms));
    JoinPrintable(", ", items);
    ConcatPrintable("{", Join(", ", items));
    ConcatPrintable("{" + Join(", ", items), "}");
  }

  lemma {:induction false} DumpObjectsPrintable(os: seq<seq<Member>>)
    ensures |DumpObjects(os)| == |os| && forall i :: 0 <= i < |os| ==> PrintableAscii(DumpObjects(os)[i])
    decreases |os|
  {
    if os != [] {
      DumpObjectPrintable(os[0]);
      DumpObjectsPrintable(os[1..]);
    }
  }

  /** `json.dumps` of a list of dictionaries is printable ASCII. */
  lemma DumpObjectListPrintable(os: seq<seq<Member>>)
    ensures PrintableAscii(DumpObjectList(os))
  {
    DumpObjectsPrintable(os);
    JoinPrintable(", ", DumpObjects(os));
    ConcatPrintable("[", Join(", ", DumpObjects(os)));
    ConcatPrintable("[" + Join(", ", DumpObjects(os)), "]");
  }

  /** The members after the first of a sorted sequence are sorted too. */
  lemma SortedTail(ms: seq<Member>)
    requires |ms| > 0 && SortedByKey(ms)
    ensures SortedByKey(ms[1..])
  {
    var rest := ms[1..];
    forall i | 0 < i < |rest|
      ensures StrLe(rest[i - 1].0, rest[i].0)
    {
      assert rest[i - 1] == ms[i] && rest[i] == ms[i + 1];
    }
  }

  /** A member whose key is not above the first key of a sorted sequence goes to the front. */
  lemma InsertFirst(m: Member, ms: seq<Member>)
    requires SortedByKey(ms)
    requires ms == [] || StrLe(m.0, ms[0].0)
    ensures InsertByKey(m, ms) == [m] + ms
  {
  }

  /** Sorting members that are already in key order changes nothing. */
  lemma {:induction false} SortSortedIsIdentity(ms: seq<Member>)
    requires SortedByKey(ms)
    ensures SortByKey(ms) == ms
    decreases |ms|
  {
    if ms != [] {
      assert [ms[0]] + ms[1..] == ms;
      SortedTail(ms);
      SortSortedIsIdentity(ms[1..]);
      if |ms| > 1 {
        assert StrLe(ms[0].0, ms[1].0);
      }
      InsertFirst(ms[0], ms[1..]);
    }
  }
}
