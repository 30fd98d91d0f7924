/** base64url (section 5 of RFC 4648) without padding, decoded by the lenient quad-by-quad scanner of
    the platform's base64 routine after the padding is put back. */
module Base64Url {
  import opened Wrappers

  type byte = b: int | 0 <= b < 256

  type sextet = v: int | 0 <= v < 64

  function Symbol(v: sextet): char {
    if v < 26 then (65 + v) as char
    else if v < 52 then (97 + v - 26) as char
    else if v < 62 then (48 + v - 52) as char
    else if v == 62 then '-' else '_'
  }

  /** The value of a symbol once '-' and '_' have been translated to '+' and '/'. */
  function Value(c: char): Option<sextet> {
    if 'A' <= c <= 'Z' then Some(c as int - 65)
    else if 'a' <= c <= 'z' then Some(c as int - 97 + 26)
    else if '0' <= c <= '9' then Some(c as int - 48 + 52)
    else if c == '-' || c == '+' then Some(62)
    else if c == '_' || c == '/' then Some(63)
    else None
  }

  /** base64.urlsafe_b64encode */
  function EncodePadded(data: seq<byte>): string {
    if |data| == 0 then ""
    else if |data| == 1 then Pair(data[0]) + "=="
    else if |data| == 2 then Triple(data[0], data[1]) + "="
    else Quad(data[0], data[1], data[2]) + EncodePadded(data[3..])
  }

  function Pair(a: byte): string { [Symbol(a / 4), Symbol(a % 4 * 16)] }

  function Triple(a: byte, b: byte): string {
    [Symbol(a / 4), Symbol(a % 4 * 16 + b / 16), Symbol(b % 16 * 4)]
  }

  function Quad(a: byte, b: byte, c: byte): string {
    [Symbol(a / 4), Symbol(a % 4 * 16 + b / 16), Symbol(b % 16 * 4 + c / 64), Symbol(c % 64)]
  }

  function StripPadding(s: string): string {
    if s != "" && s[|s| - 1] == '=' then StripPadding(s[..|s| - 1]) else s
  }

  function Encode(data: seq<byte>): string { StripPadding(EncodePadded(data)) }

  /** The scanner: position in the quad, the bits carried over, and the padding seen in a row. */
  function Scan(s: string, quadPos: nat, left: nat, pads: nat, out: seq<byte>): Option<seq<byte>>
    requires quadPos < 4
    requires quadPos == 1 ==> left < 64
    requires quadPos == 2 ==> left < 16
    requires quadPos == 3 ==> left < 4
  {
    if s == "" then
      if quadPos != 0 then None else Some(out)
    else if s[0] == '=' then
      if quadPos < 2 then Scan(s[1..], quadPos, left, pads, out)
      else if quadPos + pads + 1 >= 4 then Some(out)
      else Scan(s[1..], quadPos, left, pads + 1, out)
    else
      match Value(s[0])
      case None => Scan(s[1..], quadPos, left, pads, out)
      case Some(v) =>
        if quadPos == 0 then Scan(s[1..], 1, v, 0, out)
        else if quadPos == 1 then Scan(s[1..], 2, v % 16, 0, out + [left * 4 + v / 16])
        else if quadPos == 2 then Scan(s[1..], 3, v % 4, 0, out + [left * 16 + v / 4])
        else Scan(s[1..], 0, 0, 0, out + [left * 64 + v])
  }

  predicate Ascii(s: string) { forall i :: 0 <= i < |s| ==> s[i] as int < 128 }

  function Padding(n: nat): string {
    var missing := 4 - n % 4;
    if missing == 4 then "" else seq(missing, _ => '=')
  }

  /** None stands for the decoder's exception. */
  function Decode(s: string): Option<seq<byte>> {
    if !Ascii(s) then None else Scan(s + Padding(|s|), 0, 0, 0, [])
  }

  // ---------- the round trip ----------

  lemma SymbolValue(v: sextet)
    ensures Value(Symbol(v)) == Some(v)
    ensures Symbol(v) != '=' && Symbol(v) != '.' && Symbol(v) as int < 128
  {
  }

  /** What remains of the padded form once its padding is gone. */
  function Unpadded(data: seq<byte>): string {
    if |data| == 0 then ""
    else if |data| == 1 then Pair(data[0])
    else if |data| == 2 then Triple(data[0], data[1])
    else Quad(data[0], data[1], data[2]) + Unpadded(data[3..])
  }

  /** Every encoded character is a symbol of the alphabet. */
  ghost predicate AllSymbols(s: string) {
    forall i :: 0 <= i < |s| ==> Value(s[i]).Some? && s[i] != '=' && s[i] != '.' && s[i] as int < 128
  }

  lemma GroupSymbols(a: byte, b: byte, c: byte)
    ensures AllSymbols(Pair(a)) && |Pair(a)| == 2
    ensures AllSymbols(Triple(a, b)) && |Triple(a, b)| == 3
    ensures AllSymbols(Quad(a, b, c)) && |Quad(a, b, c)| == 4
  {
    SymbolValue(a / 4);
    SymbolValue(a % 4 * 16);
    SymbolValue(a % 4 * 16 + b / 16);
    SymbolValue(b % 16 * 4);
    SymbolValue(b % 16 * 4 + c / 64);
    SymbolValue(c % 64);
  }

  lemma PaddingPeriod(n: nat)
    ensures Padding(n + 4) == Padding(n)
    ensures Padding(0) == "" && Padding(2) == "==" && Padding(3) == "="
    ensures forall i :: 0 <= i < |Padding(n)| ==> Padding(n)[i] == '='
  {
  }

  lemma {:induction false} UnpaddedShape(data: seq<byte>)
    ensures AllSymbols(Unpadded(data))
    ensures EncodePadded(data) == Unpadded(data) + Padding(|Unpadded(data)|)
  {
    hide Pair, Triple, Quad, Padding, Value, Symbol;
    PaddingPeriod(0);
    if |data| == 1 {
      GroupSymbols(data[0], 0, 0);
    } else if |data| == 2 {
      GroupSymbols(data[0], data[1], 0);
    } else if |data| >= 3 {
      var rest := Unpadded(data[3..]);
      UnpaddedShape(data[3..]);
      GroupSymbols(data[0], data[1], data[2]);
      PaddingPeriod(|rest|);
      var quad := Quad(data[0], data[1], data[2]);
      assert quad + (rest + Padding(|rest|)) == (quad + rest) + Padding(|rest|);
    }
  }

  lemma {:induction false} StripPads(s: string, pads: string)
    requires s == "" || s[|s| - 1] != '='
    requires forall i :: 0 <= i < |pads| ==> pads[i] == '='
    ensures StripPadding(s + pads) == s
  {
    if pads == "" {
      assert s + pads == s;
    } else {
      StripPads(s, pads[..|pads| - 1]);
      assert (s + pads)[..|s + pads| - 1] == s + pads[..|pads| - 1];
    }
  }

  lemma EncodeIsUnpadded(data: seq<byte>)
    ensures Encode(data) == Unpadded(data)
  {
    UnpaddedShape(data);
    PaddingPeriod(|Unpadded(data)|);
    StripPads(Unpadded(data), Padding(|Unpadded(data)|));
  }

  lemma ScanStep(c: char, rest: string, quadPos: nat, left: nat, pads: nat, out: seq<byte>, v: sextet)
    requires quadPos < 4 && Value(c) == Some(v) && c != '='
    requires (quadPos == 1 ==> left < 64) && (quadPos == 2 ==> left < 16) && (quadPos == 3 ==> left < 4)
    ensures Scan([c] + rest, quadPos, left, pads, out) ==
      (if quadPos == 0 then Scan(rest, 1, v, 0, out)
       else if quadPos == 1 then Scan(rest, 2, v % 16, 0, out + [left * 4 + v / 16])
       else if quadPos == 2 then Scan(rest, 3, v % 4, 0, out + [left * 16 + v / 4])
       else Scan(rest, 0, 0, 0, out + [left * 64 + v]))
  {
    assert ([c] + rest)[1..] == rest;
  }

  /** Four symbols give back their three bytes. */
  lemma ScanQuad(a: byte, b: byte, c: byte, rest: string, out: seq<byte>)
    ensures Scan(Quad(a, b, c) + rest, 0, 0, 0, out) == Scan(rest, 0, 0, 0, out + [a, b, c])
  {
    hide Scan, Symbol, Value;
    var v0, v1, v2, v3 := a / 4, a % 4 * 16 + b / 16, b % 16 * 4 + c / 64, c % 64;
    SymbolValue(v0);
    SymbolValue(v1);
    SymbolValue(v2);
    SymbolValue(v3);
    var s3 := [Symbol(v3)] + rest;
    var s2 := [Symbol(v2)] + s3;
    var s1 := [Symbol(v1)] + s2;
    assert Quad(a, b, c) + rest == [Symbol(v0)] + s1;
    ScanStep(Symbol(v0), s1, 0, 0, 0, out, v0);
    ScanStep(Symbol(v1), s2, 1, v0, 0, out, v1);
    var o1 := out + [v0 * 4 + v1 / 16];
    ScanStep(Symbol(v2), s3, 2, v1 % 16, 0, o1, v2);
    var o2 := o1 + [v1 % 16 * 16 + v2 / 4];
    ScanStep(Symbol(v3), rest, 3, v2 % 4, 0, o2, v3);
    assert o2 + [v2 % 4 * 64 + v3] == out + [a, b, c];
  }

  lemma {:induction false} ScanUnpadded(data: seq<byte>, out: seq<byte>)
    ensures Scan(Unpadded(data) + Padding(|Unpadded(data)|), 0, 0, 0, out) == Some(out + data)
  {
    hide Scan, Pair, Triple, Quad, Padding;
    PaddingPeriod(0);
    if |data| == 0 {
      ScanNothing(out);
      assert out + data == out;
    } else if |data| == 1 {
      GroupSymbols(data[0], 0, 0);
      ScanTailOne(data[0], out);
      assert data == [data[0]];
    } else if |data| == 2 {
      GroupSymbols(data[0], data[1], 0);
      ScanTailTwo(data[0], data[1], out);
      assert data == [data[0], data[1]];
    } else {
      var rest := Unpadded(data[3..]);
      var quad := Quad(data[0], data[1], data[2]);
      GroupSymbols(data[0], data[1], data[2]);
      PaddingPeriod(|rest|);
      ScanQuad(data[0], data[1], data[2], rest + Padding(|rest|), out);
      ScanUnpadded(data[3..], out + [data[0], data[1], data[2]]);
      assert (quad + rest) + Padding(|rest|) == quad + (rest + Padding(|rest|));
      assert out + [data[0], data[1], data[2]] + data[3..] == out + data;
    }
  }

  lemma ScanNothing(out: seq<byte>)
    ensures Scan("" + Padding(0), 0, 0, 0, out) == Some(out)
  {
  }

  lemma ScanPads(left: nat, out: seq<byte>)
    ensures left < 16 ==> Scan("==", 2, left, 0, out) == Some(out)
    ensures left < 4 ==> Scan("=", 3, left, 0, out) == Some(out)
  {
    assert "=="[1..] == "=";
  }

  lemma ScanTailOne(a: byte, out: seq<byte>)
    ensures Scan(Pair(a) + "==", 0, 0, 0, out) == Some(out + [a])
  {
    hide Scan, Symbol, Value;
    var v0, v1 := a / 4, a % 4 * 16;
    SymbolValue(v0);
    SymbolValue(v1);
    var s1 := [Symbol(v1)] + "==";
    assert Pair(a) + "==" == [Symbol(v0)] + s1;
    ScanStep(Symbol(v0), s1, 0, 0, 0, out, v0);
    ScanStep(Symbol(v1), "==", 1, v0, 0, out, v1);
    ScanPads(v1 % 16, out + [v0 * 4 + v1 / 16]);
    assert v0 * 4 + v1 / 16 == a;
  }

  lemma ScanTailTwo(a: byte, b: byte, out: seq<byte>)
    ensures Scan(Triple(a, b) + "=", 0, 0, 0, out) == Some(out + [a, b])
  {
    hide Scan, Symbol, Value;
    var v0, v1, v2 := a / 4, a % 4 * 16 + b / 16, b % 16 * 4;
    SymbolValue(v0);
    SymbolValue(v1);
    SymbolValue(v2);
    var s2 := [Symbol(v2)] + "=";
    var s1 := [Symbol(v1)] + s2;
    assert Triple(a, b) + "=" == [Symbol(v0)] + s1;
    ScanStep(Symbol(v0), s1, 0, 0, 0, out, v0);
    ScanStep(Symbol(v1), s2, 1, v0, 0, out, v1);
    var o1 := out + [v0 * 4 + v1 / 16];
    ScanStep(Symbol(v2), "=", 2, v1 % 16, 0, o1, v2);
    var o2 := o1 + [v1 % 16 * 16 + v2 / 4];
    ScanPads(v2 % 4, o2);
    assert o2 == out + [a, b];
  }

  /** The test vectors of section 10 of RFC 4648, unpadded, and one that uses both URL-safe symbols. */
  lemma StandardVectors()
    ensures Encode([]) == "" && Encode([102]) == "Zg" && Encode([102, 111]) == "Zm8"
    ensures Encode([102, 111, 111]) == "Zm9v" && Encode([102, 111, 111, 98]) == "Zm9vYg"
    ensures Encode([102, 111, 111, 98, 97, 114]) == "Zm9vYmFy"
    ensures Encode([251, 255]) == "-_8"
  {
    hide Encode, Quad, Unpadded;
    ShortVectors();
    FirstGroup();
    SecondGroup();
    assert [102, 111, 111] + [] == [102, 111, 111];
    assert [102, 111, 111] + [98] == [102, 111, 111, 98];
    assert [102, 111, 111] + [98, 97, 114] == [102, 111, 111, 98, 97, 114];
    assert [98, 97, 114] + [] == [98, 97, 114];
    ThreeMore(102, 111, 111, []);
    ThreeMore(102, 111, 111, [98]);
    ThreeMore(102, 111, 111, [98, 97, 114]);
    ThreeMore(98, 97, 114, []);
    EncodeIsUnpadded([98, 97, 114]);
  }

  lemma ShortVectors()
    ensures Unpadded([]) == "" && Unpadded([98]) == "Yg"
    ensures Encode([]) == "" && Encode([102]) == "Zg" && Encode([102, 111]) == "Zm8"
    ensures Encode([251, 255]) == "-_8"
  {
    hide Encode;
    EncodeIsUnpadded([]);
    EncodeIsUnpadded([102]);
    EncodeIsUnpadded([102, 111]);
    EncodeIsUnpadded([251, 255]);
  }

  lemma FirstGroup()
    ensures Quad(102, 111, 111) == "Zm9v"
  {
  }

  lemma SecondGroup()
    ensures Quad(98, 97, 114) == "YmFy"
  {
  }

  lemma ThreeMore(a: byte, b: byte, c: byte, rest: seq<byte>)
    ensures Encode([a, b, c] + rest) == Quad(a, b, c) + Unpadded(rest)
  {
    EncodeIsUnpadded([a, b, c] + rest);
    assert ([a, b, c] + rest)[3..] == rest;
  }

  /** The decoder's leniency: '+' and '/' stand for '-' and '_', any other ASCII character is passed over,
      and text that is not ASCII is refused. */
  lemma LenientExactly(c: char, rest: string)
    ensures Value('+') == Value('-') == Some(62) && Value('/') == Value('_') == Some(63)
    ensures !(c in {'-', '_', '+', '/', '='} || 'A' <= c <= 'Z' || 'a' <= c <= 'z' || '0' <= c <= '9') ==>
      forall out :: Scan([c] + rest, 0, 0, 0, out) == Scan(rest, 0, 0, 0, out)
    ensures c as int >= 128 ==> Decode([c] + rest) == None
  {
    assert ([c] + rest)[1..] == rest && ([c] + rest)[0] == c;
  }

  /** Decoding an encoding gives the bytes back, for every length. */
  lemma RoundTrip(data: seq<byte>)
    ensures Decode(Encode(data)) == Some(data)
    ensures AllSymbols(Encode(data))
  {
    EncodeIsUnpadded(data);
    UnpaddedShape(data);
    ScanUnpadded(data, []);
    assert [] + data == data;
  }
}
