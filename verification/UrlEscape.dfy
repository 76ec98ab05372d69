/** Percent-encoding of query components, path segments and whole paths, byte by byte. */
module UrlEscape {
  import opened KeyBytes

  /** `url.QueryEscape`, `url.PathEscape`, and `url.PathEscape` applied between slashes. */
  datatype Mode = Query | Segment | Path

  predicate Unreserved(c: Byte) {
    'a' <= c <= 'z' || 'A' <= c <= 'Z' || '0' <= c <= '9' || c == '-' || c == '_' || c == '.' || c == '~'
  }

  predicate Keeps(m: Mode, c: Byte) {
    || Unreserved(c)
    || (!m.Query? && (c == '$' || c == '&' || c == '+' || c == ':' || c == '=' || c == '@'))
    || (m.Path? && c == '/')
  }

  function HexDigit(n: nat): Byte
    requires n < 16
  {
    if n < 10 then '0' + n as char else 'A' + (n - 10) as char
  }

  function HexValue(c: Byte): (r: int)
    ensures -1 <= r < 16
  {
    if '0' <= c <= '9' then c as int - '0' as int
    else if 'a' <= c <= 'f' then c as int - 'a' as int + 10
    else if 'A' <= c <= 'F' then c as int - 'A' as int + 10
    else -1
  }

  function EscByte(m: Mode, c: Byte): (r: Bytes)
    ensures r != []
  {
    if m.Query? && c == ' ' then ['+']
    else if Keeps(m, c) then [c]
    else ['%', HexDigit(c as int / 16), HexDigit(c as int % 16)]
  }

  function Esc(m: Mode, s: Bytes): Bytes {
    if s == [] then [] else EscByte(m, s[0]) + Esc(m, s[1..])
  }

  /** `url.QueryUnescape`: `%XX` and `+`, or an error. */
  datatype Decoded = Ok(s: Bytes) | Bad

  function Unescape(s: Bytes): Decoded {
    if s == [] then Ok([])
    else if s[0] == '%' then
      if |s| < 3 || HexValue(s[1]) < 0 || HexValue(s[2]) < 0 then Bad
      else
        match Unescape(s[3..])
        case Bad => Bad
        case Ok(r) => Ok([(HexValue(s[1]) * 16 + HexValue(s[2])) as char] + r)
    else
      match Unescape(s[1..])
      case Bad => Bad
      case Ok(r) => Ok([if s[0] == '+' then ' ' else s[0]] + r)
  }

  lemma HexRoundTrip(n: nat)
    requires n < 16
    ensures HexValue(HexDigit(n)) == n && HexDigit(n) != '%'
  {
  }

  /** Escaped query components decode to themselves. */
  lemma {:induction false} UnescapeEsc(s: Bytes)
    ensures Unescape(Esc(Query, s)) == Ok(s)
  {
    if s != [] {
      var c, e, tail := s[0], EscByte(Query, s[0]), Esc(Query, s[1..]);
      UnescapeEsc(s[1..]);
      assert (e + tail)[|e|..] == tail;
      if |e| == 3 {
        HexRoundTrip(c as int / 16);
        HexRoundTrip(c as int % 16);
        assert (e + tail)[1] == e[1] && (e + tail)[2] == e[2];
        assert HexValue(e[1]) * 16 + HexValue(e[2]) == c as int;
      }
      assert s == [c] + s[1..];
    }
  }

  /** The code of one byte is read off the front of any text that starts with it. */
  lemma HeadDetermined(m: Mode, c: Byte, d: Byte, x: Bytes, y: Bytes)
    requires EscByte(m, c) + x == EscByte(m, d) + y
    ensures c == d && x == y
  {
    var e, f := EscByte(m, c), EscByte(m, d);
    assert (e + x)[0] == e[0] && (f + y)[0] == f[0];
    if |e| == 3 && |f| == 3 {
      assert (e + x)[1] == e[1] && (f + y)[1] == f[1] && (e + x)[2] == e[2] && (f + y)[2] == f[2];
      HexRoundTrip(c as int / 16);
      HexRoundTrip(c as int % 16);
      HexRoundTrip(d as int / 16);
      HexRoundTrip(d as int % 16);
    }
    assert |e| == |f|;
    assert x == (e + x)[|e|..] && y == (f + y)[|f|..];
  }

  lemma {:induction false} EscReflectsPrefix(m: Mode, a: Bytes, b: Bytes, rest: Bytes)
    requires Esc(m, a) + rest == Esc(m, b)
    ensures a <= b
  {
    hide EscByte;
    if a != [] {
      var x := Esc(m, a[1..]);
      assert b != [];
      var y := Esc(m, b[1..]);
      assert EscByte(m, a[0]) + (x + rest) == EscByte(m, b[0]) + y;
      HeadDetermined(m, a[0], b[0], x + rest, y);
      EscReflectsPrefix(m, a[1..], b[1..], rest);
      assert a == [a[0]] + a[1..] && b == [b[0]] + b[1..];
    }
  }

  /** Escaping keeps and reflects prefixes, so it is injective. */
  lemma EscPrefix(m: Mode, a: Bytes, b: Bytes)
    ensures Esc(m, a) <= Esc(m, b) <==> a <= b
  {
    hide Esc;
    var x, y := Esc(m, a), Esc(m, b);
    if x <= y {
      assert x + y[|x|..] == y;
      EscReflectsPrefix(m, a, b, y[|x|..]);
    }
    if a <= b {
      assert b == a + b[|a|..];
      EscConcat(m, a, b[|a|..]);
    }
  }

  lemma EscInjective(m: Mode, a: Bytes, b: Bytes)
    requires Esc(m, a) == Esc(m, b)
    ensures a == b
  {
    EscPrefix(m, a, b);
    EscPrefix(m, b, a);
  }

  /** A byte that is neither kept nor part of an escape does not occur in escaped text. */
  lemma {:induction false} EscFree(m: Mode, s: Bytes, c: Byte)
    requires !Keeps(m, c) && c != '%' && c != '+'
    ensures Free(Esc(m, s), c)
  {
    if s != [] { EscFree(m, s[1..], c); }
  }

  /** A kept byte that is no hex digit occurs in escaped text only where it was in the plain text. */
  lemma {:induction false} EscFreeOf(m: Mode, s: Bytes, c: Byte)
    requires Free(s, c) && HexValue(c) < 0 && c != '%' && c != '+'
    ensures Free(Esc(m, s), c)
  {
    if s != [] { EscFreeOf(m, s[1..], c); }
  }

  lemma {:induction false} EscConcat(m: Mode, a: Bytes, b: Bytes)
    ensures Esc(m, a + b) == Esc(m, a) + Esc(m, b)
  {
    if a == [] {
      assert a + b == b;
    } else {
      assert (a + b)[1..] == a[1..] + b;
      EscConcat(m, a[1..], b);
    }
  }
}
