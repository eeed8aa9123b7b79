/**
 * The two halves of the invoice encoding. The merchant writes each value with
 * the query-component escaping of Go's net/url package (`url.QueryEscape`,
 * applied by `url.Values.Encode`). The paying page maps `+` to `%20` and
 * applies ECMAScript's `decodeURIComponent` (the Decode operation of section
 * 19.2.6 of ECMA-262), which turns `%XX` runs back into the characters whose
 * UTF-8 encoding they spell and rejects anything else.
 *
 * Text is `string` (a sequence of Unicode scalar values); the bytes Go
 * escapes are the UTF-8 encoding of that text.
 */
module FormEncoding {
  import opened Wrappers

  // ---------------------------------------------------------------------------
  // UTF-8
  // ---------------------------------------------------------------------------

  predicate IsByte(b: int) { 0 <= b < 256 }

  /** The UTF-8 encoding of one scalar value, as Go stores it in a string. */
  function Utf8(c: char): (r: seq<int>)
    ensures 1 <= |r| <= 4
    ensures forall i :: 0 <= i < |r| ==> IsByte(r[i])
    ensures |r| == 1 <==> c as int < 0x80
    ensures |r| == 1 ==> r[0] == c as int
    ensures |r| > 1 ==> forall i :: 0 <= i < |r| ==> r[i] >= 0x80
  {
    var v := c as int;
    if v < 0x80 then [v]
    else if v < 0x800 then [0xC0 + v / 64, 0x80 + v % 64]
    else if v < 0x10000 then [0xE0 + v / 64 / 64, 0x80 + v / 64 % 64, 0x80 + v % 64]
    else [0xF0 + v / 64 / 64 / 64, 0x80 + v / 64 / 64 % 64, 0x80 + v / 64 % 64, 0x80 + v % 64]
  }

  // ---------------------------------------------------------------------------
  // Go: url.QueryEscape and url.Values.Encode
  // ---------------------------------------------------------------------------

  const UpperHex: string := "0123456789ABCDEF"

  /** The bytes `shouldEscape(c, encodeQueryComponent)` lets through: letters, digits and `-_.~`. */
  predicate Unreserved(b: int)
  {
    || ('a' as int <= b <= 'z' as int)
    || ('A' as int <= b <= 'Z' as int)
    || ('0' as int <= b <= '9' as int)
    || b == '-' as int || b == '_' as int || b == '.' as int || b == '~' as int
  }

  /** `%` and two upper-case hexadecimal digits. */
  function Percent(b: int): string
    requires IsByte(b)
  {
    ['%', UpperHex[b / 16], UpperHex[b % 16]]
  }

  /** One byte of `QueryEscape`: kept when unreserved, a space becomes `+`, anything else `%XX`. */
  function EscapeByte(b: int): string
    requires IsByte(b)
  {
    if Unreserved(b) then [b as char]
    else if b == ' ' as int then "+"
    else Percent(b)
  }

  function EscapeBytes(bs: seq<int>): string
    requires forall i :: 0 <= i < |bs| ==> IsByte(bs[i])
  {
    if bs == [] then [] else EscapeByte(bs[0]) + EscapeBytes(bs[1..])
  }

  function EscapeChar(c: char): string
  {
    EscapeBytes(Utf8(c))
  }

  /** `url.QueryEscape(s)`: every byte of the UTF-8 encoding of `s`, escaped. */
  function QueryEscape(s: string): string
  {
    if s == [] then [] else EscapeChar(s[0]) + QueryEscape(s[1..])
  }

  /** Strict lexicographic order on text (the order `sort.Strings` puts keys in). */
  predicate Before(a: string, b: string)
  {
    if a == [] then b != []
    else if b == [] then false
    else if a[0] != b[0] then a[0] < b[0]
    else Before(a[1..], b[1..])
  }

  /** Inserts the field `f` in front of the first field whose key is not before its own. */
  function InsertField(f: (string, string), fields: seq<(string, string)>): seq<(string, string)>
  {
    if fields == [] || !Before(fields[0].0, f.0) then [f] + fields
    else [fields[0]] + InsertField(f, fields[1..])
  }

  function SortFields(fields: seq<(string, string)>): seq<(string, string)>
  {
    if fields == [] then [] else InsertField(fields[0], SortFields(fields[1..]))
  }

  /** One `key=value` pair, both halves escaped. */
  function Field(f: (string, string)): string
  {
    QueryEscape(f.0) + "=" + QueryEscape(f.1)
  }

  function JoinFields(fields: seq<(string, string)>): string
  {
    if fields == [] then []
    else if |fields| == 1 then Field(fields[0])
    else Field(fields[0]) + "&" + JoinFields(fields[1..])
  }

  /**
   * `url.Values.Encode` of a value set holding one value per key, given in the
   * order the keys were set: the fields sorted by key, each `key=value` with
   * both halves escaped, joined by `&`.
   */
  function Encode(fields: seq<(string, string)>): string
  {
    JoinFields(SortFields(fields))
  }

  // ---------------------------------------------------------------------------
  // ECMAScript: the value decoding of the paying page
  // ---------------------------------------------------------------------------

  function HexValue(ch: char): Option<int>
  {
    if '0' <= ch <= '9' then Some(ch as int - '0' as int)
    else if 'A' <= ch <= 'F' then Some(ch as int - 'A' as int + 10)
    else if 'a' <= ch <= 'f' then Some(ch as int - 'a' as int + 10)
    else None
  }

  /** The byte spelled `%XX` at position `k` of `s`, if one is there. */
  function Octet(s: string, k: nat): (r: Option<int>)
    ensures r.Some? ==> IsByte(r.value)
  {
    if k + 3 <= |s| && s[k] == '%' && HexValue(s[k + 1]).Some? && HexValue(s[k + 2]).Some? then
      Some(16 * HexValue(s[k + 1]).value + HexValue(s[k + 2]).value)
    else None
  }

  /** The six payload bits of a continuation byte `10xxxxxx` spelled `%XX` at position `k`. */
  function Continuation(s: string, k: nat): (r: Option<int>)
    ensures r.Some? ==> 0 <= r.value < 64
  {
    match Octet(s, k)
    case Some(b) => if 0x80 <= b < 0xC0 then Some(b - 0x80) else None
    case None => None
  }

  /**
   * One step of `decodeURIComponent` at the front of `s`: the character it
   * yields and how much of `s` it consumes, or `None` where the function
   * throws `URIError` (a `%` without two hexadecimal digits, a lead byte
   * that starts no UTF-8 sequence, a missing or malformed continuation, an
   * overlong form, a surrogate or a value above U+10FFFF).
   */
  function DecodeStep(s: string): (r: Option<(char, nat)>)
    requires s != []
    ensures r.Some? ==> 1 <= r.value.1 <= |s|
  {
    if s[0] != '%' then Some((s[0], 1))
    else
      match Octet(s, 0)
      case None => None
      case Some(b) =>
        if b < 0x80 then Some((b as char, 3))
        else if b < 0xC0 || 0xF8 <= b then None
        else if b < 0xE0 then
          match Continuation(s, 3)
          case Some(c1) =>
            var v := (b - 0xC0) * 64 + c1;
            if v < 0x80 then None else Some((v as char, 6))
          case None => None
        else if b < 0xF0 then
          match (Continuation(s, 3), Continuation(s, 6))
          case (Some(c1), Some(c2)) =>
            var v := ((b - 0xE0) * 64 + c1) * 64 + c2;
            if v < 0x800 || (0xD800 <= v < 0xE000) then None else Some((v as char, 9))
          case _ => None
        else
          match (Continuation(s, 3), Continuation(s, 6), Continuation(s, 9))
          case (Some(c1), Some(c2), Some(c3)) =>
            var v := (((b - 0xF0) * 64 + c1) * 64 + c2) * 64 + c3;
            if v < 0x10000 || 0x10FFFF < v then None else Some((v as char, 12))
          case _ => None
  }

  /** `decodeURIComponent(s)`, `None` where it throws. */
  function Decode(s: string): Option<string>
    decreases |s|
  {
    if s == [] then Some([])
    else
      match DecodeStep(s)
      case None => None
      case Some((c, n)) =>
        match Decode(s[n..])
        case None => None
        case Some(t) => Some([c] + t)
  }

  /** `s.replace(/\+/ig, "%20")`. */
  function ReplacePlus(s: string): string
  {
    if s == [] then []
    else (if s[0] == '+' then "%20" else [s[0]]) + ReplacePlus(s[1..])
  }

  /** The decoding of one query value on the paying page. */
  function FormValue(s: string): Option<string>
  {
    Decode(ReplacePlus(s))
  }

  // ---------------------------------------------------------------------------
  // Properties
  // ---------------------------------------------------------------------------

  /** The characters `QueryEscape` can emit: unreserved characters, `+`, `%` and upper-case hex digits. */
  predicate EscapedChar(ch: char)
  {
    Unreserved(ch as int) || ch == '+' || ch == '%'
  }

  /** `%XX` spells a byte with `%` and two unreserved hexadecimal digits, never `+`. */
  lemma PercentAlphabet(b: int)
    requires IsByte(b)
    ensures |Percent(b)| == 3 && Percent(b)[0] == '%'
    ensures Unreserved(Percent(b)[1] as int) && Unreserved(Percent(b)[2] as int)
    ensures '+' !in Percent(b)
  {
    HexDigitUnreserved(b / 16);
    HexDigitUnreserved(b % 16);
  }

  lemma HexDigitUnreserved(x: int)
    requires 0 <= x < 16
    ensures Unreserved(UpperHex[x] as int)
  {
  }

  /** Every character one escaped byte becomes is in the escaped alphabet. */
  lemma EscapeByteAlphabet(b: int)
    requires IsByte(b)
    ensures forall i :: 0 <= i < |EscapeByte(b)| ==> EscapedChar(EscapeByte(b)[i])
  {
    if !Unreserved(b) && b != ' ' as int {
      PercentAlphabet(b);
    }
  }

  lemma {:induction false} EscapeBytesAlphabet(bs: seq<int>)
    requires forall i :: 0 <= i < |bs| ==> IsByte(bs[i])
    ensures forall i :: 0 <= i < |EscapeBytes(bs)| ==> EscapedChar(EscapeBytes(bs)[i])
  {
    if bs != [] {
      EscapeBytesAlphabet(bs[1..]);
      EscapeByteAlphabet(bs[0]);
      var h, t := EscapeByte(bs[0]), EscapeBytes(bs[1..]);
      assert EscapeBytes(bs) == h + t;
      forall i | 0 <= i < |h + t| ensures EscapedChar((h + t)[i]) {
        if i < |h| { assert (h + t)[i] == h[i]; } else { assert (h + t)[i] == t[i - |h|]; }
      }
    }
  }

  /**
   * An escaped text holds none of the delimiters of the invoice: no `?`,
   * no `&` and no `=`, so splitting the invoice on them never cuts a value.
   */
  lemma {:induction false} QueryEscapeAlphabet(s: string)
    ensures forall i :: 0 <= i < |QueryEscape(s)| ==> EscapedChar(QueryEscape(s)[i])
    ensures '?' !in QueryEscape(s) && '&' !in QueryEscape(s) && '=' !in QueryEscape(s)
  {
    if s != [] {
      EscapeBytesAlphabet(Utf8(s[0]));
      QueryEscapeAlphabet(s[1..]);
      var e := QueryEscape(s);
      assert forall i :: 0 <= i < |e| ==> EscapedChar(e[i]) by {
        forall i | 0 <= i < |e| ensures EscapedChar(e[i]) {
          if i < |EscapeChar(s[0])| {
            assert e[i] == EscapeChar(s[0])[i];
          } else {
            assert e[i] == QueryEscape(s[1..])[i - |EscapeChar(s[0])|];
          }
        }
      }
    }
  }

  /** A text made of unreserved characters escapes to itself (the keys `addr`, `asset`, `name`, `price`). */
  lemma {:induction false} QueryEscapePlain(s: string)
    requires forall i :: 0 <= i < |s| ==> Unreserved(s[i] as int)
    ensures QueryEscape(s) == s
  {
    if s != [] {
      QueryEscapePlain(s[1..]);
      assert s == [s[0]] + s[1..];
    }
  }

  lemma {:induction false} ReplacePlusAppend(a: string, b: string)
    ensures ReplacePlus(a + b) == ReplacePlus(a) + ReplacePlus(b)
  {
    if a != [] {
      assert (a + b)[0] == a[0] && (a + b)[1..] == a[1..] + b;
      ReplacePlusAppend(a[1..], b);
    } else {
      assert a + b == b;
    }
  }

  lemma {:induction false} ReplacePlusWithoutPlus(s: string)
    requires '+' !in s
    ensures ReplacePlus(s) == s
  {
    if s != [] {
      ReplacePlusWithoutPlus(s[1..]);
      assert s == [s[0]] + s[1..];
    }
  }

  lemma HexRoundTrip(x: int)
    requires 0 <= x < 16
    ensures HexValue(UpperHex[x]) == Some(x)
  {
  }

  /** `%XX` written by Go reads back as the byte it escapes. */
  lemma PercentRoundTrip(b: int, rest: string)
    requires IsByte(b)
    ensures Octet(Percent(b) + rest, 0) == Some(b)
  {
    HexRoundTrip(b / 16);
    HexRoundTrip(b % 16);
  }

  /** The escaping of the UTF-8 bytes of a non-ASCII character: only `%XX` runs. */
  lemma {:induction false} EscapeHighBytes(bs: seq<int>)
    requires forall i :: 0 <= i < |bs| ==> IsByte(bs[i]) && bs[i] >= 0x80
    ensures EscapeBytes(bs) == if bs == [] then [] else Percent(bs[0]) + EscapeBytes(bs[1..])
    ensures |EscapeBytes(bs)| == 3 * |bs|
    ensures '+' !in EscapeBytes(bs)
  {
    if bs != [] {
      EscapeHighBytes(bs[1..]);
      PercentAlphabet(bs[0]);
      assert EscapeByte(bs[0]) == Percent(bs[0]);
    }
  }

  /** `Octet` at position `|prefix| + k` only looks at the text after `prefix`. */
  lemma OctetShift(prefix: string, s: string, k: nat)
    ensures Octet(prefix + s, |prefix| + k) == Octet(s, k)
  {
    if k + 3 <= |s| {
      assert (prefix + s)[|prefix| + k] == s[k];
      assert (prefix + s)[|prefix| + k + 1] == s[k + 1];
      assert (prefix + s)[|prefix| + k + 2] == s[k + 2];
    }
  }

  /** `Octet` at a position whose three characters lie within `s` does not look past `s`. */
  lemma OctetPrefix(s: string, rest: string, k: nat)
    requires k + 3 <= |s|
    ensures Octet(s + rest, k) == Octet(s, k)
  {
    assert (s + rest)[k] == s[k] && (s + rest)[k + 1] == s[k + 1] && (s + rest)[k + 2] == s[k + 2];
  }

  /** In the escaped run of high bytes `bs`, the `j`-th `%XX` spells `bs[j]`. */
  lemma {:induction false} PercentAt(bs: seq<int>, j: nat)
    requires forall i :: 0 <= i < |bs| ==> IsByte(bs[i]) && bs[i] >= 0x80
    requires j < |bs|
    ensures Octet(EscapeBytes(bs), 3 * j) == Some(bs[j])
    decreases j
  {
    EscapeHighBytes(bs);
    var tail := EscapeBytes(bs[1..]);
    assert EscapeBytes(bs) == Percent(bs[0]) + tail;
    if j == 0 {
      PercentRoundTrip(bs[0], tail);
    } else {
      PercentAt(bs[1..], j - 1);
      OctetShift(Percent(bs[0]), tail, 3 * (j - 1));
      assert |Percent(bs[0])| + 3 * (j - 1) == 3 * j;
      assert bs[1..][j - 1] == bs[j];
    }
  }

  /** An ASCII character's escaped form decodes back to it. */
  lemma AsciiCharDecodes(c: char, rest: string)
    requires c as int < 0x80
    ensures var e := ReplacePlus(EscapeChar(c));
      e != [] && DecodeStep(e + rest) == Some((c, |e|))
  {
    var v := c as int;
    assert Utf8(c) == [v] && Utf8(c)[1..] == [];
    assert EscapeChar(c) == EscapeByte(v) + EscapeBytes([]);
    if Unreserved(v) {
      assert EscapeChar(c) == [c];
      assert ReplacePlus([c]) == [c];
    } else if v == ' ' as int {
      SpaceDecodes(rest);
    } else {
      assert EscapeChar(c) == Percent(v);
      EscapedAsciiDecodes(c, rest);
    }
  }

  /** A space, escaped to `+` and read as `%20`, decodes back to a space. */
  lemma SpaceDecodes(rest: string)
    ensures ReplacePlus("+") == "%20" && DecodeStep("%20" + rest) == Some((' ', 3))
  {
    assert ReplacePlus("+") == "%20";
    assert Percent(0x20) == "%20";
    PercentRoundTrip(0x20, rest);
  }

  /** An ASCII character escaped as `%XX` decodes back to it. */
  lemma EscapedAsciiDecodes(c: char, rest: string)
    requires c as int < 0x80
    ensures ReplacePlus(Percent(c as int)) == Percent(c as int)
    ensures DecodeStep(Percent(c as int) + rest) == Some((c, 3))
  {
    ReplacePlusWithoutPlus(Percent(c as int));
    PercentRoundTrip(c as int, rest);
  }


  /** A two-byte encoding: its lead byte, its continuation byte, and the value they combine to. */
  lemma Utf8Combine2(c: char)
    requires 0x80 <= c as int < 0x800
    ensures 0xC0 <= Utf8(c)[0] < 0xE0 && 0x80 <= Utf8(c)[1] < 0xC0
    ensures (Utf8(c)[0] - 0xC0) * 64 + (Utf8(c)[1] - 0x80) == c as int
  {
  }

  /** A three-byte encoding: its lead byte, its continuation bytes, and the value they combine to. */
  lemma Utf8Combine3(c: char)
    requires 0x800 <= c as int < 0x10000
    ensures 0xE0 <= Utf8(c)[0] < 0xF0 && 0x80 <= Utf8(c)[1] < 0xC0 && 0x80 <= Utf8(c)[2] < 0xC0
    ensures ((Utf8(c)[0] - 0xE0) * 64 + (Utf8(c)[1] - 0x80)) * 64 + (Utf8(c)[2] - 0x80) == c as int
  {
  }

  /** A four-byte encoding: its lead byte, its continuation bytes, and the value they combine to. */
  lemma Utf8Combine4(c: char)
    requires 0x10000 <= c as int
    ensures 0xF0 <= Utf8(c)[0] < 0xF8 && 0x80 <= Utf8(c)[1] < 0xC0
    ensures 0x80 <= Utf8(c)[2] < 0xC0 && 0x80 <= Utf8(c)[3] < 0xC0
    ensures (((Utf8(c)[0] - 0xF0) * 64 + (Utf8(c)[1] - 0x80)) * 64 + (Utf8(c)[2] - 0x80)) * 64 + (Utf8(c)[3] - 0x80) == c as int
  {
  }

  /** The escaped form of a non-ASCII character: no `+`, and its `j`-th `%XX` spells the `j`-th UTF-8 byte. */
  lemma HighCharEscape(c: char, rest: string)
    requires 0x80 <= c as int
    ensures ReplacePlus(EscapeChar(c)) == EscapeChar(c)
    ensures |EscapeChar(c)| == 3 * |Utf8(c)|
    ensures forall j :: 0 <= j < |Utf8(c)| ==> Octet(EscapeChar(c) + rest, 3 * j) == Some(Utf8(c)[j])
  {
    var bs := Utf8(c);
    EscapeHighBytes(bs);
    ReplacePlusWithoutPlus(EscapeChar(c));
    forall j | 0 <= j < |bs| ensures Octet(EscapeChar(c) + rest, 3 * j) == Some(bs[j]) {
      PercentAt(bs, j);
      OctetPrefix(EscapeChar(c), rest, 3 * j);
    }
  }

  /** A two-byte sequence `%XX%XX` with lead byte `b0` and continuation `b1` decodes to the character `v` it spells. */
  lemma DecodeTwo(s: string, b0: int, b1: int, v: int)
    requires Octet(s, 0) == Some(b0) && 0xC0 <= b0 < 0xE0
    requires Octet(s, 3) == Some(b1) && 0x80 <= b1 < 0xC0
    requires (b0 - 0xC0) * 64 + (b1 - 0x80) == v && 0x80 <= v < 0x800
    ensures s != [] && DecodeStep(s) == Some((v as char, 6))
  {
  }

  /** A three-byte sequence with lead byte `b0` and continuations `b1`, `b2` decodes to the character `v` it spells. */
  lemma DecodeThree(s: string, b0: int, b1: int, b2: int, v: int)
    requires Octet(s, 0) == Some(b0) && 0xE0 <= b0 < 0xF0
    requires Octet(s, 3) == Some(b1) && 0x80 <= b1 < 0xC0 && Octet(s, 6) == Some(b2) && 0x80 <= b2 < 0xC0
    requires ((b0 - 0xE0) * 64 + (b1 - 0x80)) * 64 + (b2 - 0x80) == v
    requires 0x800 <= v < 0x10000 && !(0xD800 <= v < 0xE000)
    ensures s != [] && DecodeStep(s) == Some((v as char, 9))
  {
  }

  /** A four-byte sequence with lead byte `b0` and continuations `b1`, `b2`, `b3` decodes to the character `v` it spells. */
  lemma DecodeFour(s: string, b0: int, b1: int, b2: int, b3: int, v: int)
    requires Octet(s, 0) == Some(b0) && 0xF0 <= b0 < 0xF8
    requires Octet(s, 3) == Some(b1) && 0x80 <= b1 < 0xC0 && Octet(s, 6) == Some(b2) && 0x80 <= b2 < 0xC0
    requires Octet(s, 9) == Some(b3) && 0x80 <= b3 < 0xC0
    requires (((b0 - 0xF0) * 64 + (b1 - 0x80)) * 64 + (b2 - 0x80)) * 64 + (b3 - 0x80) == v
    requires 0x10000 <= v <= 0x10FFFF
    ensures s != [] && DecodeStep(s) == Some((v as char, 12))
  {
  }

  lemma TwoByteCharDecodes(c: char, rest: string)
    requires 0x80 <= c as int < 0x800
    ensures DecodeStep(EscapeChar(c) + rest) == Some((c, 6))
  {
    var s := EscapeChar(c) + rest;
    var bs := Utf8(c);
    HighCharEscape(c, rest);
    Utf8Combine2(c);
    assert Octet(s, 0) == Some(bs[0]) && Octet(s, 3) == Some(bs[1]);
    DecodeTwo(s, bs[0], bs[1], c as int);
  }

  lemma ThreeByteCharDecodes(c: char, rest: string)
    requires 0x800 <= c as int < 0x10000
    ensures DecodeStep(EscapeChar(c) + rest) == Some((c, 9))
  {
    var s := EscapeChar(c) + rest;
    var bs := Utf8(c);
    HighCharEscape(c, rest);
    Utf8Combine3(c);
    assert Octet(s, 0) == Some(bs[0]) && Octet(s, 3) == Some(bs[1]) && Octet(s, 6) == Some(bs[2]);
    DecodeThree(s, bs[0], bs[1], bs[2], c as int);
  }

  lemma FourByteCharDecodes(c: char, rest: string)
    requires 0x10000 <= c as int
    ensures DecodeStep(EscapeChar(c) + rest) == Some((c, 12))
  {
    var s := EscapeChar(c) + rest;
    var bs := Utf8(c);
    HighCharEscape(c, rest);
    Utf8Combine4(c);
    assert Octet(s, 0) == Some(bs[0]) && Octet(s, 3) == Some(bs[1]);
    assert Octet(s, 6) == Some(bs[2]) && Octet(s, 9) == Some(bs[3]);
    DecodeFour(s, bs[0], bs[1], bs[2], bs[3], c as int);
  }

  /** A non-ASCII character's escaped form, free of `+`, decodes back to it in one step. */
  lemma HighCharDecodes(c: char, rest: string)
    requires 0x80 <= c as int
    ensures ReplacePlus(EscapeChar(c)) == EscapeChar(c)
    ensures DecodeStep(EscapeChar(c) + rest) == Some((c, |EscapeChar(c)|))
  {
    HighCharEscape(c, rest);
    if c as int < 0x800 {
      assert |Utf8(c)| == 2;
      TwoByteCharDecodes(c, rest);
    } else if c as int < 0x10000 {
      assert |Utf8(c)| == 3;
      ThreeByteCharDecodes(c, rest);
    } else {
      assert |Utf8(c)| == 4;
      FourByteCharDecodes(c, rest);
    }
  }

  /**
   * Decoding the escaped form of one character, followed by anything, yields
   * that character and consumes exactly its escaped form.
   */
  lemma EscapeCharDecodes(c: char, rest: string)
    ensures var e := ReplacePlus(EscapeChar(c));
      e != [] && DecodeStep(e + rest) == Some((c, |e|))
  {
    if c as int < 0x80 {
      AsciiCharDecodes(c, rest);
    } else {
      HighCharDecodes(c, rest);
    }
  }

  /**
   * The page decodes every value Go escapes back to the original text:
   * `decodeURIComponent(QueryEscape(s).replace(/\+/g, "%20")) == s`.
   */
  lemma {:induction false} QueryEscapeRoundTrip(s: string)
    ensures FormValue(QueryEscape(s)) == Some(s)
  {
    if s != [] {
      var e := ReplacePlus(EscapeChar(s[0]));
      var rest := ReplacePlus(QueryEscape(s[1..]));
      ReplacePlusAppend(EscapeChar(s[0]), QueryEscape(s[1..]));
      assert ReplacePlus(QueryEscape(s)) == e + rest;
      EscapeCharDecodes(s[0], rest);
      assert (e + rest)[|e|..] == rest;
      QueryEscapeRoundTrip(s[1..]);
      assert s == [s[0]] + s[1..];
    }
  }
}
