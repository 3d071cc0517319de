/** Go's `%q` verb, and the keys that app/cache/cache.go, app/store/store.go and app/proxy.go
    build with it. Every result holds for any choice of which runes count as printable. */
module Quoting {
  import opened Basics

  type HighByte = x: int | 128 <= x < 256 witness 128

  /** A Go string decodes uniquely into runes and bytes that belong to no rune. */
  datatype Glyph = Rune(c: char) | Raw(b: HighByte)

  type GoString = seq<Glyph>

  function HexChar(n: Nibble): char { HexDigit(n) as char }

  function Power16(w: nat): (r: nat)
    ensures r >= 1
  {
    if w == 0 then 1 else 16 * Power16(w - 1)
  }

  /** `v` in exactly `w` hexadecimal digits. */
  function HexDigits(v: nat, w: nat): (r: string)
    ensures |r| == w
  {
    if w == 0 then [] else HexDigits(v / 16, w - 1) + [HexChar(v % 16)]
  }

  function ParseHex(s: string): Option<nat>
  {
    if s == [] then Some(0)
    else match (ParseHex(s[..|s| - 1]), HexValue(s[|s| - 1] as int))
      case (Some(high), Some(low)) => Some(16 * high + low)
      case _ => None
  }

  lemma {:induction false} ParseHexDigits(v: nat, w: nat)
    requires v < Power16(w)
    ensures ParseHex(HexDigits(v, w)) == Some(v)
  {
    if w > 0 {
      ParseHexDigits(v / 16, w - 1);
      var s := HexDigits(v, w);
      assert s[..|s| - 1] == HexDigits(v / 16, w - 1);
      assert s[|s| - 1] == HexChar(v % 16);
    }
  }

  /** The letters of the one-letter escapes, and what they stand for. */
  function ShortEscape(c: char): Option<char>
  {
    match c as int
    case 7 => Some('a')
    case 8 => Some('b')
    case 12 => Some('f')
    case 10 => Some('n')
    case 13 => Some('r')
    case 9 => Some('t')
    case 11 => Some('v')
    case 34 => Some('\"')
    case 92 => Some('\\')
    case _ => None
  }

  function ShortUnescape(e: char): Option<char>
  {
    match e
    case 'a' => Some(7 as char)
    case 'b' => Some(8 as char)
    case 'f' => Some(12 as char)
    case 'n' => Some(10 as char)
    case 'r' => Some(13 as char)
    case 't' => Some(9 as char)
    case 'v' => Some(11 as char)
    case '\"' => Some('\"')
    case '\\' => Some('\\')
    case _ => None
  }

  /** How one glyph appears between the quotes. */
  function Escape(printable: char -> bool, g: Glyph): (r: string)
    ensures |r| > 0
  {
    match g
    case Raw(b) => "\\x" + HexDigits(b, 2)
    case Rune(c) =>
      if c == '\"' || c == '\\' then ['\\', c]
      else if printable(c) then [c]
      else if ShortEscape(c).Some? then ['\\', ShortEscape(c).value]
      else if c < ' ' || c as int == 0x7f then "\\x" + HexDigits(c as int, 2)
      else if c as int < 0x10000 then "\\u" + HexDigits(c as int, 4)
      else "\\U" + HexDigits(c as int, 8)
  }

  function EscapeAll(printable: char -> bool, s: GoString): string
  {
    if s == [] then [] else Escape(printable, s[0]) + EscapeAll(printable, s[1..])
  }

  /** `fmt.Sprintf("%q", s)`. */
  function Quote(printable: char -> bool, s: GoString): string
  {
    "\"" + EscapeAll(printable, s) + "\""
  }

  // ---------------------------------------------------------------- reading it back

  predicate IsScalar(v: nat) { v < 0xD800 || 0xE000 <= v < 0x11_0000 }

  function NumericGlyph(digits: string): Option<Glyph>
  {
    match ParseHex(digits)
    case Some(v) =>
      if |digits| == 2 && 128 <= v < 256 then Some(Raw(v))
      else if IsScalar(v) then Some(Rune(v as char))
      else None
    case None => None
  }

  /** Reads one glyph: the number of characters it took, and the glyph. */
  function Unescape(s: string): Option<(nat, Glyph)>
  {
    if s == [] then None
    else if s[0] != '\\' then Some((1, Rune(s[0])))
    else if |s| < 2 then None
    else
      var width := match s[1] case 'x' => 2 case 'u' => 4 case 'U' => 8 case _ => 0;
      if width == 0 then
        match ShortUnescape(s[1]) { case Some(c) => Some((2, Rune(c))) case None => None }
      else if |s| < 2 + width then None
      else match NumericGlyph(s[2..2 + width]) { case Some(g) => Some((2 + width, g)) case None => None }
  }

  lemma UnescapeEscape(printable: char -> bool, g: Glyph, rest: string)
    ensures Unescape(Escape(printable, g) + rest) == Some((|Escape(printable, g)|, g))
    ensures Escape(printable, g)[0] != '\"'
  {
    var e := Escape(printable, g);
    match g
    case Raw(b) => NumericEscape("\\x", b, 2, rest);
    case Rune(c) =>
      if c == '\"' || c == '\\' || printable(c) || ShortEscape(c).Some? {
      } else if c < ' ' || c as int == 0x7f {
        NumericEscape("\\x", c as int, 2, rest);
      } else if c as int < 0x10000 {
        NumericEscape("\\u", c as int, 4, rest);
      } else {
        NumericEscape("\\U", c as int, 8, rest);
      }
  }

  lemma NumericEscape(mark: string, v: nat, w: nat, rest: string)
    requires |mark| == 2 && (w == 2 || w == 4 || w == 8)
    requires if w == 2 then v < 256 else if w == 4 then v < 0x10000 else v < 0x1_0000_0000
    ensures
      var s := mark + HexDigits(v, w) + rest;
      s[0] == mark[0] && s[1] == mark[1] && |s| >= 2 + w && s[2..2 + w] == HexDigits(v, w)
      && ParseHex(HexDigits(v, w)) == Some(v)
  {
    assert Power16(2) == 256 && Power16(4) == 0x10000;
    assert Power16(8) == 65536 * Power16(4);
    ParseHexDigits(v, w);
  }

  /** Where a quoted string that starts at the front of `s` ends, what it was, and what follows. */
  function Unquote(s: string): Option<(GoString, string)>
    decreases |s|
  {
    if s == [] then None
    else if s[0] == '\"' then Some(([], s[1..]))
    else match Unescape(s)
      case None => None
      case Some((n, g)) =>
        if n == 0 || n > |s| then None
        else match Unquote(s[n..])
          case Some((gs, rest)) => Some(([g] + gs, rest))
          case None => None
  }

  /** What stands after the opening quote determines the quoted string and the remainder. */
  lemma {:induction false} UnquoteQuoted(printable: char -> bool, s: GoString, rest: string)
    ensures Unquote(EscapeAll(printable, s) + "\"" + rest) == Some((s, rest))
    decreases |s|
  {
    var text := EscapeAll(printable, s) + "\"" + rest;
    if s == [] {
      assert text[1..] == rest;
    } else {
      var e := Escape(printable, s[0]);
      var tail := EscapeAll(printable, s[1..]) + "\"" + rest;
      assert text == e + tail;
      UnescapeEscape(printable, s[0], tail);
      UnquoteQuoted(printable, s[1..], rest);
      assert text[|e|..] == tail;
      assert [s[0]] + s[1..] == s;
    }
  }

  lemma DropOpeningQuote(printable: char -> bool, a: GoString, rest: string)
    ensures (Quote(printable, a) + rest)[1..] == EscapeAll(printable, a) + "\"" + rest
  {
  }

  /** No quoted string is a proper prefix of another, so what follows can be told apart. */
  lemma QuotedPrefixInjective(printable: char -> bool, a: GoString, restA: string, c: GoString, restC: string)
    requires Quote(printable, a) + restA == Quote(printable, c) + restC
    ensures a == c && restA == restC
  {
    DropOpeningQuote(printable, a, restA);
    DropOpeningQuote(printable, c, restC);
    UnquoteQuoted(printable, a, restA);
    UnquoteQuoted(printable, c, restC);
  }

  lemma QuoteInjective(printable: char -> bool, a: GoString, b: GoString)
    requires Quote(printable, a) == Quote(printable, b)
    ensures a == b
  {
    QuotedPrefixInjective(printable, a, [], b, []);
  }

  /** The text that `%q:%q` makes of a pair. */
  function QuotedPair(printable: char -> bool, a: GoString, b: GoString): string {
    Quote(printable, a) + (":" + Quote(printable, b))
  }

  lemma SameAfterMark(mark: string, a: string, b: string)
    requires mark + a == mark + b
    ensures a == b
  {
    assert (mark + a)[|mark|..] == a && (mark + b)[|mark|..] == b;
  }

  lemma QuotedPairInjective(printable: char -> bool, a: GoString, b: GoString, c: GoString, d: GoString)
    requires QuotedPair(printable, a, b) == QuotedPair(printable, c, d)
    ensures a == c && b == d
  {
    QuotedPrefixInjective(printable, a, ":" + Quote(printable, b), c, ":" + Quote(printable, d));
    SameAfterMark(":", Quote(printable, b), Quote(printable, d));
    QuoteInjective(printable, b, d);
  }

  // ---------------------------------------------------------------- the keys

  /** `memcacheRequestKey`. */
  function RequestKey(printable: char -> bool, backend: GoString, id: GoString): string {
    "r:" + QuotedPair(printable, backend, id)
  }

  /** `memcacheResponseKey`. */
  function ResponseKey(printable: char -> bool, backend: GoString, id: GoString): string {
    "resp:" + QuotedPair(printable, backend, id)
  }

  /** The key under which `proxyHandler` keeps whole pages. */
  function PageKey(printable: char -> bool, user: GoString, url: GoString): string {
    "cache:" + QuotedPair(printable, user, url)
  }

  /** `requestKind`. */
  function RequestKind(printable: char -> bool, backend: GoString): string {
    "req:" + Quote(printable, backend)
  }

  const RESPONSE_KIND := "response"

  lemma RequestKeyInjective(printable: char -> bool, a: GoString, b: GoString, c: GoString, d: GoString)
    ensures RequestKey(printable, a, b) == RequestKey(printable, c, d) <==> a == c && b == d
  {
    if RequestKey(printable, a, b) == RequestKey(printable, c, d) {
      SameAfterMark("r:", QuotedPair(printable, a, b), QuotedPair(printable, c, d));
      QuotedPairInjective(printable, a, b, c, d);
    }
  }

  lemma ResponseKeyInjective(printable: char -> bool, a: GoString, b: GoString, c: GoString, d: GoString)
    ensures ResponseKey(printable, a, b) == ResponseKey(printable, c, d) <==> a == c && b == d
  {
    if ResponseKey(printable, a, b) == ResponseKey(printable, c, d) {
      SameAfterMark("resp:", QuotedPair(printable, a, b), QuotedPair(printable, c, d));
      QuotedPairInjective(printable, a, b, c, d);
    }
  }

  /** The three uses of the one memcache never meet. */
  lemma KeySpacesDisjoint(printable: char -> bool, a: GoString, b: GoString, c: GoString, d: GoString)
    ensures RequestKey(printable, a, b) != ResponseKey(printable, c, d)
    ensures RequestKey(printable, a, b) != PageKey(printable, c, d)
    ensures ResponseKey(printable, a, b) != PageKey(printable, c, d)
  {
    assert RequestKey(printable, a, b)[1] == ':' && ResponseKey(printable, c, d)[1] == 'e';
    assert PageKey(printable, c, d)[0] == 'c' && RequestKey(printable, a, b)[0] == 'r';
    assert ResponseKey(printable, a, b)[0] == 'r';
  }

  lemma RequestKindInjective(printable: char -> bool, a: GoString, b: GoString)
    ensures RequestKind(printable, a) == RequestKind(printable, b) <==> a == b
    ensures RequestKind(printable, a) != RESPONSE_KIND
  {
    assert RequestKind(printable, a)[2] == 'q' && RESPONSE_KIND[2] == 's';
    if RequestKind(printable, a) == RequestKind(printable, b) {
      SameAfterMark("req:", Quote(printable, a), Quote(printable, b));
      QuoteInjective(printable, a, b);
    }
  }

  // ---------------------------------------------------------------- what keys look like

  predicate IsPlain(printable: char -> bool, s: GoString) {
    forall i :: 0 <= i < |s| ==> s[i].Rune? && printable(s[i].c) && s[i].c != '\"' && s[i].c != '\\'
  }

  function Chars(s: GoString): string
  {
    if s == [] then [] else [if s[0].Rune? then s[0].c else '?'] + Chars(s[1..])
  }

  /** Text that needs no escapes stands between the quotes as it is. */
  lemma {:induction false} PlainIsKept(printable: char -> bool, s: GoString)
    requires IsPlain(printable, s)
    ensures EscapeAll(printable, s) == Chars(s)
  {
    if s != [] {
      assert IsPlain(printable, s[1..]) by {
        assert forall i :: 0 <= i < |s[1..]| ==> s[1..][i] == s[i + 1];
      }
      PlainIsKept(printable, s[1..]);
    }
  }

  /** The keys and the kind as the format strings make them. */
  lemma KeysLookLike(printable: char -> bool, a: GoString, b: GoString)
    requires IsPlain(printable, a) && IsPlain(printable, b)
    ensures RequestKey(printable, a, b) == "r:" + "\"" + Chars(a) + "\":\"" + Chars(b) + "\""
    ensures ResponseKey(printable, a, b) == "resp:" + "\"" + Chars(a) + "\":\"" + Chars(b) + "\""
    ensures PageKey(printable, a, b) == "cache:" + "\"" + Chars(a) + "\":\"" + Chars(b) + "\""
    ensures RequestKind(printable, a) == "req:" + ("\"" + Chars(a) + "\"")
  {
    QuotedPlain(printable, a);
    QuotedPlain(printable, b);
    PairText("r:", Chars(a), Chars(b));
    PairText("resp:", Chars(a), Chars(b));
    PairText("cache:", Chars(a), Chars(b));
  }

  lemma QuotedPlain(printable: char -> bool, s: GoString)
    requires IsPlain(printable, s)
    ensures Quote(printable, s) == "\"" + Chars(s) + "\""
  {
    PlainIsKept(printable, s);
  }

  lemma PairText(mark: string, x: string, y: string)
    ensures mark + ("\"" + x + "\"" + (":" + ("\"" + y + "\""))) == mark + "\"" + x + "\":\"" + y + "\""
  {
  }
}
