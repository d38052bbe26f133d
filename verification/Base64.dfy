/** Base64 as section 4 of RFC 4648 defines it: three bytes to four symbols, a short last group padded. */
module Base64 {
  import opened Structures

  type Byte = x: int | 0 <= x < 256
  type Sextet = x: int | 0 <= x < 64

  function Symbol(v: Sextet): (c: char)
    ensures c != '='
  {
    if v < 26 then ('A' as int + v) as char
    else if v < 52 then ('a' as int + (v - 26)) as char
    else if v < 62 then ('0' as int + (v - 52)) as char
    else if v == 62 then '+'
    else '/'
  }

  function SymbolValue(c: char): Option<Sextet> {
    if 'A' <= c <= 'Z' then Some(c as int - 'A' as int)
    else if 'a' <= c <= 'z' then Some(c as int - 'a' as int + 26)
    else if '0' <= c <= '9' then Some(c as int - '0' as int + 52)
    else if c == '+' then Some(62)
    else if c == '/' then Some(63)
    else None
  }

  // Table 1 of the standard: five runs of consecutive letters.
  lemma SymbolsAreStandard(v: Sextet)
    ensures Symbol(0) == 'A' && Symbol(25) == 'Z' && Symbol(26) == 'a' && Symbol(51) == 'z'
    ensures Symbol(52) == '0' && Symbol(61) == '9' && Symbol(62) == '+' && Symbol(63) == '/'
    ensures v !in {25, 51, 61, 62, 63} ==> Symbol(v + 1) as int == Symbol(v) as int + 1
  {
  }

  lemma SymbolsInvert(v: Sextet, c: char)
    ensures SymbolValue(c) == Some(v) <==> Symbol(v) == c
  {
  }

  // Three bytes a, b, c as four sextets, and back.
  function Sextet0(a: Byte): Sextet { a / 4 }
  function Sextet1(a: Byte, b: Byte): Sextet { a % 4 * 16 + b / 16 }
  function Sextet2(b: Byte, c: Byte): Sextet { b % 16 * 4 + c / 64 }
  function Sextet3(c: Byte): Sextet { c % 64 }

  function Byte0(v: Sextet, w: Sextet): Byte { var x: int, y: int := v, w; x * 4 + y / 16 }
  function Byte1(w: Sextet, x: Sextet): Byte { var y: int, z: int := w, x; y % 16 * 16 + z / 4 }
  function Byte2(x: Sextet, y: Sextet): Byte { var z: int, t: int := x, y; z % 4 * 64 + t }

  lemma BytesInvert(a: Byte, b: Byte, c: Byte, v: Sextet, w: Sextet, x: Sextet, y: Sextet)
    ensures Byte0(v, w) == a && Byte1(w, x) == b && Byte2(x, y) == c <==>
            v == Sextet0(a) && w == Sextet1(a, b) && x == Sextet2(b, c) && y == Sextet3(c)
  {
  }

  // A group of one or two bytes is filled up with zero bits, and its text with '='.
  function EncodeGroup(g: seq<Byte>): (t: string)
    requires 1 <= |g| <= 3
    ensures |t| == 4
    ensures forall i :: 0 <= i < 4 ==> (t[i] == '=' <==> |g| < i)
  {
    if |g| == 1 then
      [Symbol(Sextet0(g[0])), Symbol(Sextet1(g[0], 0)), '=', '=']
    else if |g| == 2 then
      [Symbol(Sextet0(g[0])), Symbol(Sextet1(g[0], g[1])), Symbol(Sextet2(g[1], 0)), '=']
    else
      [Symbol(Sextet0(g[0])), Symbol(Sextet1(g[0], g[1])), Symbol(Sextet2(g[1], g[2])), Symbol(Sextet3(g[2]))]
  }

  function Encode(b: seq<Byte>): string {
    if b == [] then "" else if |b| < 3 then EncodeGroup(b) else EncodeGroup(b[..3]) + Encode(b[3..])
  }

  // One group of four symbols. Only the last group may be padded, and the bits a padded group leaves
  // over must be zero.
  function DecodeGroup(t: string, last: bool): (r: Option<seq<Byte>>)
    requires |t| == 4
    ensures r.Some? ==> 1 <= |r.value| <= 3 && (|r.value| == 3 || last)
  {
    match (SymbolValue(t[0]), SymbolValue(t[1]), SymbolValue(t[2]), SymbolValue(t[3]))
    case (Some(v), Some(w), Some(x), Some(y)) =>
      Some([Byte0(v, w), Byte1(w, x), Byte2(x, y)])
    case (Some(v), Some(w), Some(x), None) =>
      if last && t[3] == '=' && Byte2(x, 0) == 0 then Some([Byte0(v, w), Byte1(w, x)]) else None
    case (Some(v), Some(w), None, None) =>
      if last && t[2] == '=' && t[3] == '=' && Byte1(w, 0) == 0 then Some([Byte0(v, w)]) else None
    case _ => None
  }

  function Decode(t: string): Option<seq<Byte>> {
    if |t| == 0 then Some([])
    else if |t| < 4 then None
    else
      match (DecodeGroup(t[..4], |t| == 4), Decode(t[4..]))
      case (Some(x), Some(y)) => Some(x + y)
      case _ => None
  }

  lemma {:induction false} EncodedLength(b: seq<Byte>)
    ensures |Encode(b)| == 4 * ((|b| + 2) / 3)
  {
    if |b| < 3 {
    } else {
      EncodedLength(b[3..]);
      assert |Encode(b)| == 4 + |Encode(b[3..])|;
      OneGroupMore(|b|);
    }
  }

  lemma OneGroupMore(n: nat)
    requires n >= 3
    ensures 4 * ((n + 2) / 3) == 4 + 4 * ((n - 3 + 2) / 3)
  {
    assert (n + 2) / 3 == (n - 3 + 2) / 3 + 1;
  }

  // How many '=' end the text of n bytes.
  function Padding(n: nat): (pad: nat)
    ensures n >= 3 ==> Padding(n - 3) == pad && pad + 4 <= 4 * ((n + 2) / 3)
  {
    (3 - n % 3) % 3
  }

  lemma {:induction false} EncodedPadding(b: seq<Byte>, i: nat)
    requires i < |Encode(b)|
    ensures Encode(b)[i] == '=' <==> |Encode(b)| - Padding(|b|) <= i
    decreases |b|
  {
    if |b| < 3 {
    } else {
      EncodedLength(b);
      var group, rest := EncodeGroup(b[..3]), Encode(b[3..]);
      assert Encode(b) == group + rest;
      if i >= 4 {
        assert Encode(b)[i] == rest[i - 4];
        EncodedPadding(b[3..], i - 4);
      }
    }
  }

  // The length is 4 for every group begun; the padding is what the last group lacks.
  lemma EncodedShape(b: seq<Byte>)
    ensures |Encode(b)| == 4 * ((|b| + 2) / 3)
    ensures forall i :: 0 <= i < |Encode(b)| ==>
              (Encode(b)[i] == '=' <==> |Encode(b)| - (3 - |b| % 3) % 3 <= i)
  {
    EncodedLength(b);
    forall i | 0 <= i < |Encode(b)|
      ensures Encode(b)[i] == '=' <==> |Encode(b)| - Padding(|b|) <= i
    {
      EncodedPadding(b, i);
    }
  }

  // The padding counts the sextets by which whole bytes fall short of whole groups.
  lemma PaddingFillsTheGroup(n: nat)
    ensures (8 * n + 5) / 6 + (3 - n % 3) % 3 == 4 * ((n + 2) / 3)
  {
    assert n == 3 * (n / 3) + n % 3;
  }

  lemma FullGroup(g: seq<Byte>, rest: seq<Byte>)
    requires |g| == 3
    ensures Encode(g + rest) == EncodeGroup(g) + Encode(rest)
  {
    assert (g + rest)[..3] == g && (g + rest)[3..] == rest;
  }

  lemma ConcatGroup(g: seq<Byte>, rest: seq<Byte>, b: seq<Byte>)
    requires |g| == 3 && Encode(rest + b) == Encode(rest) + Encode(b)
    ensures Encode(g + (rest + b)) == Encode(g + rest) + Encode(b)
  {
    FullGroup(g, rest);
    FullGroup(g, rest + b);
    Assoc(EncodeGroup(g), Encode(rest), Encode(b));
  }

  lemma {:induction false} EncodeConcat(a: seq<Byte>, b: seq<Byte>)
    requires |a| % 3 == 0
    ensures Encode(a + b) == Encode(a) + Encode(b)
  {
    if a == [] {
      assert a + b == b;
    } else {
      var g, rest := a[..3], a[3..];
      assert a == g + rest && a + b == g + (rest + b);
      EncodeConcat(rest, b);
      ConcatGroup(g, rest, b);
    }
  }

  // How a group of symbols decodes, whatever sextets they stand for.
  lemma DecodeSymbols(v: Sextet, w: Sextet, x: Sextet, y: Sextet, last: bool)
    ensures DecodeGroup([Symbol(v), Symbol(w), Symbol(x), Symbol(y)], last)
            == Some([Byte0(v, w), Byte1(w, x), Byte2(x, y)])
    ensures Byte2(x, 0) == 0 ==>
              DecodeGroup([Symbol(v), Symbol(w), Symbol(x), '='], true) == Some([Byte0(v, w), Byte1(w, x)])
    ensures Byte1(w, 0) == 0 ==> DecodeGroup([Symbol(v), Symbol(w), '=', '='], true) == Some([Byte0(v, w)])
  {
    SymbolsInvert(v, Symbol(v));
    SymbolsInvert(w, Symbol(w));
    SymbolsInvert(x, Symbol(x));
    SymbolsInvert(y, Symbol(y));
  }

  lemma SextetsInvert(a: Byte, b: Byte, c: Byte)
    ensures Byte0(Sextet0(a), Sextet1(a, b)) == a
    ensures Byte1(Sextet1(a, b), Sextet2(b, c)) == b
    ensures Byte2(Sextet2(b, c), Sextet3(c)) == c
    ensures Sextet2(0, 0) == 0 && Sextet3(0) == 0
  {
    BytesInvert(a, b, c, Sextet0(a), Sextet1(a, b), Sextet2(b, c), Sextet3(c));
  }

  lemma RoundTrip1(a: Byte)
    ensures DecodeGroup(EncodeGroup([a]), true) == Some([a])
  {
    var v, w := Sextet0(a), Sextet1(a, 0);
    assert Byte0(v, w) == a && Byte1(w, 0) == 0 by { SextetsInvert(a, 0, 0); }
    DecodeSymbols(v, w, 0, 0, true);
  }

  lemma RoundTrip2(a: Byte, b: Byte)
    ensures DecodeGroup(EncodeGroup([a, b]), true) == Some([a, b])
  {
    var v, w, x := Sextet0(a), Sextet1(a, b), Sextet2(b, 0);
    assert Byte0(v, w) == a && Byte1(w, x) == b && Byte2(x, 0) == 0 by { SextetsInvert(a, b, 0); }
    DecodeSymbols(v, w, x, 0, true);
  }

  lemma RoundTrip3(a: Byte, b: Byte, c: Byte, last: bool)
    ensures DecodeGroup(EncodeGroup([a, b, c]), last) == Some([a, b, c])
  {
    var v, w, x, y := Sextet0(a), Sextet1(a, b), Sextet2(b, c), Sextet3(c);
    assert Byte0(v, w) == a && Byte1(w, x) == b && Byte2(x, y) == c by { SextetsInvert(a, b, c); }
    DecodeSymbols(v, w, x, y, last);
  }

  lemma GroupRoundTrip(g: seq<Byte>, last: bool)
    requires 1 <= |g| <= 3 && (|g| == 3 || last)
    ensures DecodeGroup(EncodeGroup(g), last) == Some(g)
  {
    if |g| == 1 {
      RoundTrip1(g[0]);
      assert g == [g[0]];
    } else if |g| == 2 {
      RoundTrip2(g[0], g[1]);
      assert g == [g[0], g[1]];
    } else {
      RoundTrip3(g[0], g[1], g[2], last);
      assert g == [g[0], g[1], g[2]];
    }
  }

  // The sextets a decodable group stands for: all of its symbols, with zeros for the padding.
  lemma GroupSymbols(t: string, last: bool) returns (v: Sextet, w: Sextet, x: Sextet, y: Sextet)
    requires |t| == 4 && DecodeGroup(t, last).Some?
    ensures var g := DecodeGroup(t, last).value;
            match |g|
            case 1 => t == [Symbol(v), Symbol(w), '=', '='] && g == [Byte0(v, w)]
                      && Byte1(w, 0) == 0 && x == 0 && y == 0
            case 2 => t == [Symbol(v), Symbol(w), Symbol(x), '='] && g == [Byte0(v, w), Byte1(w, x)]
                      && Byte2(x, 0) == 0 && y == 0
            case _ => t == [Symbol(v), Symbol(w), Symbol(x), Symbol(y)] && g == [Byte0(v, w), Byte1(w, x), Byte2(x, y)]
  {
    v, w := SymbolValue(t[0]).value, SymbolValue(t[1]).value;
    x := if SymbolValue(t[2]).Some? then SymbolValue(t[2]).value else 0;
    y := if SymbolValue(t[3]).Some? then SymbolValue(t[3]).value else 0;
    SymbolsInvert(v, t[0]);
    SymbolsInvert(w, t[1]);
    SymbolsInvert(x, t[2]);
    SymbolsInvert(y, t[3]);
  }

  lemma GroupBack(t: string, last: bool)
    requires |t| == 4 && DecodeGroup(t, last).Some?
    ensures EncodeGroup(DecodeGroup(t, last).value) == t
  {
    var v, w, x, y := GroupSymbols(t, last);
    BytesInvert(Byte0(v, w), Byte1(w, x), Byte2(x, y), v, w, x, y);
  }

  // Decoding a group and then the rest.
  lemma DecodeFirst(head: string, rest: string, g: seq<Byte>, b: seq<Byte>)
    requires |head| == 4 && DecodeGroup(head, rest == "") == Some(g) && Decode(rest) == Some(b)
    ensures Decode(head + rest) == Some(g + b)
  {
    var t := head + rest;
    assert t[..4] == head && t[4..] == rest;
    assert |t| == 4 <==> rest == "";
  }

  // The decoder recovers the bytes.
  lemma {:induction false} DecodeEncode(b: seq<Byte>)
    ensures Decode(Encode(b)) == Some(b)
  {
    if |b| >= 3 {
      GroupRoundTrip(b[..3], Encode(b[3..]) == "");
      DecodeEncode(b[3..]);
      DecodeFirst(EncodeGroup(b[..3]), Encode(b[3..]), b[..3], b[3..]);
      assert b == b[..3] + b[3..];
    } else if b != [] {
      GroupRoundTrip(b, true);
      DecodeFirst(EncodeGroup(b), "", b, []);
      assert EncodeGroup(b) + "" == EncodeGroup(b);
      assert b + [] == b;
    }
  }

  lemma {:induction false} EncodeDecode(t: string)
    requires Decode(t).Some?
    ensures Encode(Decode(t).value) == t
  {
    if t == "" {
    } else {
      var g, rest := DecodeGroup(t[..4], |t| == 4).value, Decode(t[4..]).value;
      GroupBack(t[..4], |t| == 4);
      EncodeDecode(t[4..]);
      assert t == t[..4] + t[4..];
      if |g| == 3 {
        assert (g + rest)[..3] == g && (g + rest)[3..] == rest;
      } else {
        assert rest == [] && g + rest == g;
      }
    }
  }

  // Encoding is a bijection between byte strings and the texts the decoder accepts.
  lemma EncodeInverts(b: seq<Byte>, t: string)
    ensures Encode(b) == t <==> Decode(t) == Some(b)
  {
    DecodeEncode(b);
    if Decode(t) == Some(b) {
      EncodeDecode(t);
    }
  }

  // The examples of section 10 of the standard, whose bytes spell foobar.
  lemma StandardVectors()
    ensures Encode([]) == ""
    ensures Encode([102]) == "Zg=="
    ensures Encode([102, 111]) == "Zm8="
    ensures Encode([102, 111, 111]) == "Zm9v"
    ensures Encode([102, 111, 111, 98]) == "Zm9vYg=="
    ensures Encode([102, 111, 111, 98, 97]) == "Zm9vYmE="
    ensures Encode([102, 111, 111, 98, 97, 114]) == "Zm9vYmFy"
  {
    var foo: seq<Byte> := [102, 111, 111];
    FullGroup(foo, []);
    FullGroup(foo, [98]);
    FullGroup(foo, [98, 97]);
    FullGroup([98, 97, 114], []);
    FullGroup(foo, [98, 97, 114]);
    assert EncodeGroup(foo) == "Zm9v";
    assert EncodeGroup([98, 97, 114]) == "YmFy";
    assert Encode([98]) == "Yg==" && Encode([98, 97]) == "YmE=";
    assert foo + [] == foo && [98, 97, 114] + [] == [98, 97, 114 as Byte];
  }
}
