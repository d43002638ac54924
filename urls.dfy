/**
 * The part of the WHATWG URL standard that `URLSearchParams` brings to the
 * core: `set`, and serialisation as application/x-www-form-urlencoded,
 * with the matching parser for ASCII text.
 */
module Urls {
  import opened Wrappers
  import opened Strings

  /** The UTF-8 encoding of one Unicode scalar value. */
  function Utf8(c: char): (r: seq<Byte>)
    ensures 1 <= |r| <= 4
    ensures c as int < 0x80 ==> r == [c as int]
    ensures c as int >= 0x80 ==> forall i :: 0 <= i < |r| ==> r[i] >= 0x80
  {
    var n := c as int;
    if n < 0x80 then [n]
    else if n < 0x800 then [0xC0 + n / 64, 0x80 + n % 64]
    else if n < 0x10000 then [0xE0 + n / 4096, 0x80 + (n / 64) % 64, 0x80 + n % 64]
    else [0xF0 + n / 262144, 0x80 + (n / 4096) % 64, 0x80 + (n / 64) % 64, 0x80 + n % 64]
  }

  /** The bytes the form-urlencoded serialiser leaves as they are: ASCII alphanumerics and `*-._`. */
  predicate Unreserved(b: Byte) {
    || 0x30 <= b <= 0x39 || 0x41 <= b <= 0x5A || 0x61 <= b <= 0x7A
    || b == 0x2A || b == 0x2D || b == 0x2E || b == 0x5F
  }

  /** An upper-case hexadecimal digit. */
  function HexDigit(d: int): (c: char)
    requires 0 <= d < 16
    ensures IsHex(c) && HexValue(c) == d
  {
    if d < 10 then ('0' as int + d) as char else ('A' as int + d - 10) as char
  }

  predicate IsHex(c: char) {
    '0' <= c <= '9' || 'A' <= c <= 'F' || 'a' <= c <= 'f'
  }

  function HexValue(c: char): (d: int)
    requires IsHex(c)
    ensures 0 <= d < 16
  {
    if '0' <= c <= '9' then c as int - '0' as int
    else if 'A' <= c <= 'F' then c as int - 'A' as int + 10
    else c as int - 'a' as int + 10
  }

  /** One byte of a serialised name or value: space as `+`, unreserved as itself, anything else as `%XX`. */
  function EncodeByte(b: Byte): (r: string)
    ensures '&' !in r && '=' !in r
  {
    if b == 0x20 then "+"
    else if Unreserved(b) then [b as char]
    else ['%', HexDigit(b / 16), HexDigit(b % 16)]
  }

  function EncodeBytes(bs: seq<Byte>): (r: string)
    ensures '&' !in r && '=' !in r
  {
    if bs == [] then "" else EncodeByte(bs[0]) + EncodeBytes(bs[1..])
  }

  /** The form-urlencoded serialisation of a name or a value. */
  function Encode(s: string): (r: string)
    ensures '&' !in r && '=' !in r
  {
    if s == [] then "" else EncodeBytes(Utf8(s[0])) + Encode(s[1..])
  }

  /** Reading a serialised name or value back, for ASCII text: `+` is a space and `%XX` a byte. */
  function DecodeAscii(s: string): string {
    if s == [] then ""
    else if s[0] == '+' then " " + DecodeAscii(s[1..])
    else if s[0] == '%' && |s| >= 3 && IsHex(s[1]) && IsHex(s[2]) && HexValue(s[1]) * 16 + HexValue(s[2]) < 128
    then [(HexValue(s[1]) * 16 + HexValue(s[2])) as char] + DecodeAscii(s[3..])
    else [s[0]] + DecodeAscii(s[1..])
  }

  lemma DecodeEncodedChar(c: char, rest: string)
    requires c as int < 128
    ensures DecodeAscii(EncodeBytes(Utf8(c)) + rest) == [c] + DecodeAscii(rest)
  {
    var b: Byte := c as int;
    assert Utf8(c) == [b];
    assert EncodeBytes(Utf8(c)) == EncodeByte(b) + "";
    var e := EncodeByte(b);
    assert e + "" == e;
    if b == 0x20 {
      assert (e + rest)[0] == '+' && (e + rest)[1..] == rest;
    } else if Unreserved(b) {
      assert (e + rest)[0] == b as char && (e + rest)[1..] == rest;
    } else {
      var s := e + rest;
      assert s[0] == '%' && s[1] == HexDigit(b / 16) && s[2] == HexDigit(b % 16) && s[3..] == rest;
      assert HexValue(s[1]) * 16 + HexValue(s[2]) == b;
    }
  }

  /** For ASCII text, reading back a serialised name or value gives it unchanged. */
  lemma {:induction false} DecodeEncode(s: string)
    requires IsAscii(s)
    ensures DecodeAscii(Encode(s)) == s
  {
    if s != [] {
      assert IsAscii(s[1..]) by { forall i | 0 <= i < |s[1..]| ensures s[1..][i] as int < 128 { assert s[1..][i] == s[i + 1]; } }
      DecodeEncode(s[1..]);
      DecodeEncodedChar(s[0], Encode(s[1..]));
      assert s == [s[0]] + s[1..];
    }
  }

  type Params = seq<(string, string)>

  /** The pairs `name=value` of a parameter list, each name and value serialised. */
  function Pairs(ps: Params): (r: seq<string>)
    ensures |r| == |ps|
    ensures forall i :: 0 <= i < |ps| ==> r[i] == Encode(ps[i].0) + "=" + Encode(ps[i].1)
  {
    if ps == [] then [] else [Encode(ps[0].0) + "=" + Encode(ps[0].1)] + Pairs(ps[1..])
  }

  /** `URLSearchParams.prototype.toString`: the serialised pairs joined by `&`. */
  function Serialize(ps: Params): string {
    Join(Pairs(ps), '&')
  }

  /** One `name=value` piece; everything after the first `=` is the value. */
  function ParsePair(piece: string): (string, string) {
    var parts := Split(piece, '=');
    (DecodeAscii(parts[0]), if |parts| > 1 then DecodeAscii(Join(parts[1..], '=')) else "")
  }

  function ParsePieces(pieces: seq<string>): (r: Params)
    ensures |r| == |pieces|
    ensures forall i :: 0 <= i < |pieces| ==> r[i] == ParsePair(pieces[i])
  {
    if pieces == [] then [] else [ParsePair(pieces[0])] + ParsePieces(pieces[1..])
  }

  /** Reading a query string of ASCII text back into its parameter list. */
  function ParseQuery(q: string): Params {
    if q == "" then [] else ParsePieces(Split(q, '&'))
  }

  predicate AsciiParams(ps: Params) {
    forall i :: 0 <= i < |ps| ==> IsAscii(ps[i].0) && IsAscii(ps[i].1)
  }

  /** One encoded `name=value` piece reads back as its pair. */
  lemma ParsePairEncoded(name: string, value: string)
    requires IsAscii(name) && IsAscii(value)
    ensures ParsePair(Encode(name) + "=" + Encode(value)) == (name, value)
  {
    var k, v := Encode(name), Encode(value);
    assert Join([v], '=') == v;
    assert k + "=" + v == Join([k, v], '=');
    SplitJoin([k, v], '=');
    var parts := Split(k + "=" + v, '=');
    assert parts[1..] == [v];
    DecodeEncode(name);
    DecodeEncode(value);
  }

  /** A serialised parameter list of ASCII text reads back as the same list. */
  lemma ParseSerialize(ps: Params)
    requires AsciiParams(ps)
    ensures ParseQuery(Serialize(ps)) == ps
  {
    var pairs := Pairs(ps);
    if ps == [] {
      return;
    }
    forall i | 0 <= i < |pairs| ensures '&' !in pairs[i] {
      assert pairs[i] == Encode(ps[i].0) + ("=" + Encode(ps[i].1));
    }
    SplitJoin(pairs, '&');
    assert Serialize(ps) != "" by {
      assert |pairs[0]| > 0;
      assert |pairs| == 1 || Serialize(ps) == pairs[0] + ['&'] + Join(pairs[1..], '&');
    }
    assert Split(Serialize(ps), '&') == pairs;
    forall i | 0 <= i < |ps| ensures ParsePair(pairs[i]) == ps[i] {
      ParsePairEncoded(ps[i].0, ps[i].1);
    }
  }

  /** A parameter of ASCII text keeps its value across serialisation and parsing. */
  lemma SerializedLookup(ps: Params, k: string)
    requires AsciiParams(ps)
    ensures Lookup(ParseQuery(Serialize(ps)), k) == Lookup(ps, k)
  {
    ParseSerialize(ps);
  }

  /** Whether some pair has the given name. */
  predicate HasName(ps: Params, k: string) {
    exists i :: 0 <= i < |ps| && ps[i].0 == k
  }

  /** `URLSearchParams.prototype.get`: the value of the first pair with that name. */
  function Lookup(ps: Params, k: string): Option<string> {
    if ps == [] then None else if ps[0].0 == k then Some(ps[0].1) else Lookup(ps[1..], k)
  }

  /** A pair whose name no earlier pair carries is the one `get` finds. */
  lemma {:induction false} LookupAt(ps: Params, i: nat)
    requires i < |ps|
    requires forall j :: 0 <= j < i ==> ps[j].0 != ps[i].0
    ensures Lookup(ps, ps[i].0) == Some(ps[i].1)
  {
    if i > 0 {
      assert ps[1..][i - 1] == ps[i];
      LookupAt(ps[1..], i - 1);
    }
  }

  function RemoveName(ps: Params, k: string): (r: Params)
    ensures !HasName(r, k)
    ensures forall k' :: k' != k ==> Lookup(r, k') == Lookup(ps, k')
  {
    if ps == [] then []
    else if ps[0].0 == k then RemoveName(ps[1..], k)
    else [ps[0]] + RemoveName(ps[1..], k)
  }

  /**
   * `URLSearchParams.prototype.set`: the first pair with that name takes the
   * value and the other pairs with that name go; without one, the pair is appended.
   */
  function SetParam(ps: Params, k: string, v: string): (r: Params)
    ensures Lookup(r, k) == Some(v)
    ensures forall k' :: k' != k ==> Lookup(r, k') == Lookup(ps, k')
    ensures !HasName(ps, k) ==> r == ps + [(k, v)]
  {
    if ps == [] then [(k, v)]
    else if ps[0].0 == k then [(k, v)] + RemoveName(ps[1..], k)
    else
      assert !HasName(ps, k) ==> !HasName(ps[1..], k) by {
        if HasName(ps[1..], k) { var i :| 0 <= i < |ps[1..]| && ps[1..][i].0 == k; assert ps[i + 1].0 == k; }
      }
      assert ps == [ps[0]] + ps[1..];
      [ps[0]] + SetParam(ps[1..], k, v)
  }

  /** A `URLSearchParams` object: its list of name-value pairs, updated in place. */
  class SearchParams {
    var list: Params

    constructor ()
      ensures list == []
    {
      list := [];
    }

    method Set(k: string, v: string)
      modifies this
      ensures HasName(old(list), k) ==> list == SetParam(old(list), k, v)
      ensures !HasName(old(list), k) ==> list == old(list) + [(k, v)]
    {
      list := SetParam(list, k, v);
    }

    function ToString(): string
      reads this
    {
      Serialize(list)
    }
  }
}
