/** Query strings: encodeURIComponent on names and values, and reading them back. */
module UrlQuery {
  import opened Domain

  datatype Param = Param(name: string, value: string)

  type Byte = n: int | 0 <= n < 256

  /** A text encoding and its decoder: any pair that gives every string back. */
  ghost predicate Inverse(encode: string -> seq<Byte>, decode: seq<Byte> -> string) {
    forall s :: decode(encode(s)) == s
  }

  // ----- percent encoding -----

  /** The characters encodeURIComponent leaves alone. */
  predicate Unreserved(c: char) {
    'A' <= c <= 'Z' || 'a' <= c <= 'z' || '0' <= c <= '9' || c in "-_.!~*'()"
  }

  function Hex(n: nat): char
    requires n < 16
  {
    if n < 10 then '0' + n as char else 'A' + (n - 10) as char
  }

  function HexValue(c: char): int {
    if '0' <= c <= '9' then c as int - '0' as int
    else if 'A' <= c <= 'F' then c as int - 'A' as int + 10
    else if 'a' <= c <= 'f' then c as int - 'a' as int + 10
    else -1
  }

  function PercentByte(b: Byte): string {
    if Unreserved(b as char) then [b as char] else ['%', Hex(b / 16), Hex(b % 16)]
  }

  function Percent(bytes: seq<Byte>): string {
    if |bytes| == 0 then "" else PercentByte(bytes[0]) + Percent(bytes[1..])
  }

  /** Reading percent-encoded text the way query parsers do; a plus sign stands for a space. */
  function Unpercent(s: string): seq<Byte> {
    if |s| == 0 then []
    else if s[0] == '%' && 3 <= |s| && 0 <= HexValue(s[1]) && 0 <= HexValue(s[2]) then
      [16 * HexValue(s[1]) + HexValue(s[2])] + Unpercent(s[3..])
    else [if s[0] == '+' then 32 else s[0] as int % 256] + Unpercent(s[1..])
  }

  /** Neither separators nor plus signs survive encoding. */
  predicate Plain(s: string) {
    '&' !in s && '=' !in s && '+' !in s
  }

  lemma HexIs(n: nat)
    requires n < 16
    ensures HexValue(Hex(n)) == n && Plain([Hex(n)])
  {
  }

  lemma PercentByteIs(b: Byte, rest: string)
    ensures Plain(PercentByte(b)) && Unpercent(PercentByte(b) + rest) == [b] + Unpercent(rest)
  {
    var s := PercentByte(b) + rest;
    if Unreserved(b as char) {
      assert s[0] == b as char && s[1..] == rest;
    } else {
      HexIs(b / 16);
      HexIs(b % 16);
      hide Hex, HexValue, Unreserved;
      assert s == ['%', Hex(b / 16), Hex(b % 16)] + rest;
      assert s[3..] == rest;
      assert Hex(b / 16) in [Hex(b / 16)] && Hex(b % 16) in [Hex(b % 16)];
    }
  }

  lemma {:induction false} PercentIs(bytes: seq<Byte>)
    ensures Plain(Percent(bytes)) && Unpercent(Percent(bytes)) == bytes
  {
    if |bytes| > 0 {
      PercentByteIs(bytes[0], Percent(bytes[1..]));
      PercentIs(bytes[1..]);
      hide PercentByte, Unpercent;
    }
  }

  // ----- splitting -----

  function Before(s: string, c: char): string {
    if |s| == 0 || s[0] == c then "" else [s[0]] + Before(s[1..], c)
  }

  /** What follows the first c, if there is one. */
  function After(s: string, c: char): (r: Option<string>)
    ensures r.Some? <==> c in s
    ensures r.Some? ==> |r.value| < |s|
  {
    if |s| == 0 then None else if s[0] == c then Some(s[1..]) else After(s[1..], c)
  }

  lemma {:induction false} SplitAt(a: string, c: char, b: string)
    requires c !in a
    ensures Before(a + [c] + b, c) == a && After(a + [c] + b, c) == Some(b)
    ensures Before(a, c) == a && After(a, c) == None
  {
    if |a| > 0 {
      SplitAt(a[1..], c, b);
      assert (a + [c] + b)[1..] == a[1..] + [c] + b;
    }
  }

  // ----- queries -----

  function Pair(encode: string -> seq<Byte>, p: Param): string {
    Percent(encode(p.name)) + "=" + Percent(encode(p.value))
  }

  /** Object.entries(params).map(...).join('&') */
  function Query(encode: string -> seq<Byte>, params: seq<Param>): string {
    if |params| == 0 then ""
    else if |params| == 1 then Pair(encode, params[0])
    else Pair(encode, params[0]) + "&" + Query(encode, params[1..])
  }

  function ParsePair(decode: seq<Byte> -> string, s: string): Param {
    var value := After(s, '=');
    Param(decode(Unpercent(Before(s, '='))), decode(Unpercent(if value.Some? then value.value else "")))
  }

  function Parse(decode: seq<Byte> -> string, s: string): seq<Param>
    decreases |s|
  {
    var rest := After(s, '&');
    if s == "" then []
    else [ParsePair(decode, Before(s, '&'))] + if rest.Some? then Parse(decode, rest.value) else []
  }

  lemma PairRoundTrip(encode: string -> seq<Byte>, decode: seq<Byte> -> string, p: Param)
    requires Inverse(encode, decode)
    ensures '&' !in Pair(encode, p) && Pair(encode, p) != "" && ParsePair(decode, Pair(encode, p)) == p
  {
    PercentIs(encode(p.name));
    PercentIs(encode(p.value));
    hide Percent, Unpercent;
    SplitAt(Percent(encode(p.name)), '=', Percent(encode(p.value)));
    assert decode(encode(p.name)) == p.name && decode(encode(p.value)) == p.value;
  }

  lemma ParseNext(decode: seq<Byte> -> string, first: string, rest: string)
    requires '&' !in first && first != ""
    ensures Parse(decode, first) == [ParsePair(decode, first)]
    ensures Parse(decode, first + "&" + rest) == [ParsePair(decode, first)] + Parse(decode, rest)
  {
    SplitAt(first, '&', rest);
    hide ParsePair, Before, After;
  }

  /** Whatever the names and values contain, the query string reads back as the parameters it was made of. */
  lemma {:induction false} QueryRoundTrip(encode: string -> seq<Byte>, decode: seq<Byte> -> string, params: seq<Param>)
    requires Inverse(encode, decode)
    ensures Parse(decode, Query(encode, params)) == params
    decreases |params|
  {
    if |params| > 0 {
      PairRoundTrip(encode, decode, params[0]);
      ParseNext(decode, Pair(encode, params[0]), Query(encode, params[1..]));
      QueryRoundTrip(encode, decode, params[1..]);
      assert params == [params[0]] + params[1..];
      hide Pair, Parse, ParsePair;
    }
  }
}
