/** Signed feedback tokens: base64url(payload) '.' base64url(truncated MAC). The MAC is left open. */
module FeedbackToken {
  import opened Base64Url
  import opened Wrappers

  const SIG_BYTES := 16

  /** mac(key, message) */
  type Mac = (seq<byte>, seq<byte>) -> seq<byte>

  // ---------- text and bytes ----------

  function ToBytes(s: string): (r: seq<byte>)
    requires Ascii(s)
    ensures |r| == |s|
  {
    seq(|s|, i requires 0 <= i < |s| => s[i] as int)
  }

  predicate AsciiBytes(b: seq<byte>) { forall i :: 0 <= i < |b| ==> b[i] < 128 }

  function ToText(b: seq<byte>): (s: string)
    requires AsciiBytes(b)
    ensures |s| == |b| && Ascii(s)
  {
    seq(|b|, i requires 0 <= i < |b| => b[i] as char)
  }

  lemma TextBytes(s: string)
    requires Ascii(s)
    ensures AsciiBytes(ToBytes(s)) && ToText(ToBytes(s)) == s
  {
  }

  // ---------- decimal numbers ----------

  function Digit(d: nat): char
    requires d < 10
  {
    (48 + d) as char
  }

  predicate IsDigit(c: char) { '0' <= c <= '9' }

  function Digits(n: nat): string {
    if n < 10 then [Digit(n)] else Digits(n / 10) + [Digit(n % 10)]
  }

  function Decimal(n: int): string { if n < 0 then "-" + Digits(-n) else Digits(n) }

  function ReadDigits(s: string, acc: nat): (nat, string) {
    if s != "" && IsDigit(s[0]) then ReadDigits(s[1..], acc * 10 + (s[0] as int - 48)) else (acc, s)
  }

  /** A number without superfluous zeros in front, as JSON has it. */
  function ReadNat(s: string): Option<(nat, string)> {
    if s == "" || !IsDigit(s[0]) then None
    else if s[0] == '0' then Some((0, s[1..]))
    else Some(ReadDigits(s, 0))
  }

  function ReadInt(s: string): Option<(int, string)> {
    if s != "" && s[0] == '-' then
      match ReadNat(s[1..])
      case None => None
      case Some((n, rest)) => Some((0 - n as int, rest))
    else
      match ReadNat(s)
      case None => None
      case Some((n, rest)) => Some((n, rest))
  }

  lemma ReadDigit(d: nat, rest: string, acc: nat)
    requires d < 10
    ensures ReadDigits([Digit(d)] + rest, acc) == ReadDigits(rest, acc * 10 + d)
  {
    assert ([Digit(d)] + rest)[1..] == rest;
  }

  lemma {:induction false} ReadPrinted(n: nat, rest: string)
    ensures ReadDigits(Digits(n) + rest, 0) == ReadDigits(rest, n)
  {
    if n < 10 {
      ReadDigit(n, rest, 0);
    } else {
      ReadPrinted(n / 10, [Digit(n % 10)] + rest);
      ReadDigit(n % 10, rest, n / 10);
      assert Digits(n) + rest == Digits(n / 10) + ([Digit(n % 10)] + rest);
    }
  }

  lemma {:induction false} DigitsShape(n: nat)
    ensures Digits(n) != "" && IsDigit(Digits(n)[0]) && Ascii(Digits(n))
    ensures n > 0 ==> Digits(n)[0] != '0'
  {
    if n >= 10 { DigitsShape(n / 10); }
  }

  lemma ReadStops(n: nat, rest: string)
    requires rest == "" || !IsDigit(rest[0])
    ensures ReadDigits(rest, n) == (n, rest)
  {
  }

  lemma ReadNatPrinted(n: nat, rest: string)
    requires rest == "" || !IsDigit(rest[0])
    ensures ReadNat(Digits(n) + rest) == Some((n, rest))
  {
    if n == 0 {
      assert Digits(0) == "0" && ("0" + rest)[1..] == rest;
    } else {
      hide Digits, ReadDigits;
      DigitsShape(n);
      ReadPrinted(n, rest);
      ReadStops(n, rest);
      assert (Digits(n) + rest)[0] == Digits(n)[0];
    }
  }

  /** Reading back a printed integer, whatever non-digit follows it. */
  lemma ReadDecimal(n: int, rest: string)
    requires rest == "" || !IsDigit(rest[0])
    ensures ReadInt(Decimal(n) + rest) == Some((n, rest))
    ensures Ascii(Decimal(n))
  {
    hide Digits, ReadNat;
    var m := if n < 0 then -n else n;
    DigitsShape(m);
    ReadNatPrinted(m, rest);
    var printed := Digits(m) + rest;
    assert printed[0] == Digits(m)[0];
    if n < 0 {
      assert Decimal(n) + rest == "-" + printed;
      assert ("-" + printed)[1..] == printed && ("-" + printed)[0] == '-';
    }
  }

  // ---------- the payload ----------

  datatype Claims = Claims(alertId: int, verdict: string, exp: int)

  /** Text that JSON writes without escapes; "up" and "down" are. */
  predicate Plain(s: string) {
    forall i :: 0 <= i < |s| ==> 32 <= s[i] as int < 127 && s[i] != '"' && s[i] != '\\'
  }

  const OPEN := "{\"a\":"
  const MIDDLE := ",\"v\":\""
  const CLOSE := "\",\"e\":"

  /** json.dumps with compact separators */
  function Dump(c: Claims): string {
    OPEN + (Decimal(c.alertId) + (MIDDLE + (c.verdict + (CLOSE + (Decimal(c.exp) + "}")))))
  }

  function Expect(s: string, literal: string): Option<string> {
    if literal <= s then Some(s[|literal|..]) else None
  }

  function UntilQuote(s: string): (string, string) {
    if s == "" || s[0] == '"' then ("", s)
    else var (head, rest) := UntilQuote(s[1..]); ([s[0]] + head, rest)
  }

  function LoadExp(id: int, verdict: string, s: string): Option<Claims> {
    match Expect(s, CLOSE)
    case None => None
    case Some(rest) =>
      match ReadInt(rest)
      case None => None
      case Some((exp, tail)) => if tail == "}" && Plain(verdict) then Some(Claims(id, verdict, exp)) else None
  }

  function LoadVerdict(id: int, s: string): Option<Claims> {
    match Expect(s, MIDDLE)
    case None => None
    case Some(rest) => var (verdict, tail) := UntilQuote(rest); LoadExp(id, verdict, tail)
  }

  /** The inverse reading of that layout. */
  function Load(s: string): Option<Claims> {
    match Expect(s, OPEN)
    case None => None
    case Some(rest) =>
      match ReadInt(rest)
      case None => None
      case Some((id, tail)) => LoadVerdict(id, tail)
  }

  lemma ExpectAppend(literal: string, rest: string)
    ensures Expect(literal + rest, literal) == Some(rest)
  {
    assert (literal + rest)[|literal|..] == rest;
  }

  lemma {:induction false} UntilQuotePlain(v: string, rest: string)
    requires Plain(v) && rest != "" && rest[0] == '"'
    ensures UntilQuote(v + rest) == (v, rest)
  {
    if v == "" {
      assert v + rest == rest;
    } else {
      assert (v + rest)[1..] == v[1..] + rest;
      assert (v + rest)[0] == v[0];
      UntilQuotePlain(v[1..], rest);
      assert [v[0]] + v[1..] == v;
    }
  }

  lemma LoadTail(c: Claims)
    requires Plain(c.verdict)
    ensures LoadExp(c.alertId, c.verdict, CLOSE + (Decimal(c.exp) + "}")) == Some(c)
  {
    hide Expect, ReadInt, Decimal;
    ReadDecimal(c.exp, "}");
    ExpectAppend(CLOSE, Decimal(c.exp) + "}");
  }

  lemma LoadMiddle(c: Claims, tail: string)
    requires Plain(c.verdict) && tail != "" && tail[0] == '"'
    ensures LoadVerdict(c.alertId, MIDDLE + (c.verdict + tail)) == LoadExp(c.alertId, c.verdict, tail)
  {
    hide Expect, UntilQuote, LoadExp;
    UntilQuotePlain(c.verdict, tail);
    ExpectAppend(MIDDLE, c.verdict + tail);
  }

  lemma LoadFront(c: Claims, rest: string)
    requires rest != "" && !IsDigit(rest[0])
    ensures Load(OPEN + (Decimal(c.alertId) + rest)) == LoadVerdict(c.alertId, rest)
  {
    hide Expect, ReadInt, Decimal, LoadVerdict;
    ReadDecimal(c.alertId, rest);
    ExpectAppend(OPEN, Decimal(c.alertId) + rest);
  }

  /** Reading a written payload gives back its claims. */
  lemma LoadDump(c: Claims)
    requires Plain(c.verdict)
    ensures Load(Dump(c)) == Some(c)
  {
    hide Load, LoadVerdict, LoadExp, Decimal;
    var tail := CLOSE + (Decimal(c.exp) + "}");
    assert tail[0] == '"';
    var rest := MIDDLE + (c.verdict + tail);
    assert rest[0] == ',';
    LoadTail(c);
    LoadMiddle(c, tail);
    LoadFront(c, rest);
  }

  /** The payload's layout, and what its numbers look like. */
  lemma LayoutExactly(c: Claims)
    ensures Dump(c) ==
      "{\"a\":" + Decimal(c.alertId) + ",\"v\":\"" + c.verdict + "\",\"e\":" + Decimal(c.exp) + "}"
    ensures Decimal(1203) == "1203" && Decimal(-45) == "-45" && Decimal(0) == "0"
  {
    hide Decimal;
    Numerals();
  }

  lemma Numerals()
    ensures Decimal(1203) == "1203" && Decimal(-45) == "-45" && Decimal(0) == "0"
  {
    assert Digits(12) == "12" && Digits(120) == "120" && Digits(1203) == "1203";
    assert Digits(45) == "45";
  }

  lemma AsciiJoin(a: string, b: string)
    requires Ascii(a) && Ascii(b)
    ensures Ascii(a + b)
  {
  }

  lemma DumpAscii(c: Claims)
    requires Plain(c.verdict)
    ensures Ascii(Dump(c))
  {
    hide Decimal;
    ReadDecimal(c.alertId, "");
    ReadDecimal(c.exp, "");
    var e := Decimal(c.exp) + "}";
    assert Ascii("}") && Ascii(OPEN) && Ascii(MIDDLE) && Ascii(CLOSE) && Ascii(c.verdict);
    hide Ascii;
    AsciiJoin(Decimal(c.exp), "}");
    AsciiJoin(CLOSE, e);
    AsciiJoin(c.verdict, CLOSE + e);
    AsciiJoin(MIDDLE, c.verdict + (CLOSE + e));
    AsciiJoin(Decimal(c.alertId), MIDDLE + (c.verdict + (CLOSE + e)));
    AsciiJoin(OPEN, Decimal(c.alertId) + (MIDDLE + (c.verdict + (CLOSE + e))));
  }

  // ---------- signing and verifying ----------

  /** The second case is the comparison's own exception for a signature that is not ASCII. */
  datatype Verified = Accepted(claims: Claims) | Uncaught | Invalid | Expired

  function Truncated(sig: seq<byte>): seq<byte> { if |sig| <= SIG_BYTES then sig else sig[..SIG_BYTES] }

  function DeriveKey(mac: Mac, secret: seq<byte>): seq<byte> { mac(secret, ToBytes("feedback")) }

  function Signature(mac: Mac, secret: seq<byte>, payload: seq<byte>): string {
    Encode(Truncated(mac(DeriveKey(mac, secret), payload)))
  }

  function Payload(c: Claims): seq<byte>
    requires Plain(c.verdict)
  {
    DumpAscii(c);
    ToBytes(Dump(c))
  }

  /** int(x): truncation toward zero. */
  function Int(x: real): int { if x >= 0.0 then x.Floor else -((-x).Floor) }

  function Sign(mac: Mac, secret: seq<byte>, alertId: int, verdict: string, ttl: int, now: real): string
    requires Plain(verdict)
  {
    var payload := Payload(Claims(alertId, verdict, Int(now) + ttl));
    Encode(payload) + "." + Signature(mac, secret, payload)
  }

  function Split(s: string): (parts: seq<string>)
    ensures |parts| >= 1
  {
    if s == "" then [""]
    else
      var parts := Split(s[1..]);
      if s[0] == '.' then [""] + parts else [[s[0]] + parts[0]] + parts[1..]
  }

  function Verify(mac: Mac, secret: seq<byte>, token: string, now: real): Verified {
    if token == "" then Invalid
    else
      var parts := Split(token);
      if |parts| != 2 then Invalid
      else
        match Decode(parts[0])
        case None => Invalid
        case Some(payload) =>
          if !Ascii(parts[1]) then Uncaught
          else if Signature(mac, secret, payload) != parts[1] then Invalid
          else if !AsciiBytes(payload) then Invalid
          else
            match Load(ToText(payload))
            case None => Invalid
            case Some(claims) => if now > claims.exp as real then Expired else Accepted(claims)
  }

  lemma {:induction false} SplitPlain(s: string)
    requires '.' !in s
    ensures Split(s) == [s]
  {
    if s != "" {
      SplitPlain(s[1..]);
      assert [s[0]] + s[1..] == s;
    }
  }

  lemma {:induction false} SplitAtDot(a: string, b: string)
    requires '.' !in a && '.' !in b
    ensures Split(a + "." + b) == [a, b]
  {
    if a == "" {
      SplitPlain(b);
      assert ("" + "." + b)[1..] == b;
    } else {
      SplitAtDot(a[1..], b);
      assert (a + "." + b)[1..] == a[1..] + "." + b;
      assert [a[0]] + a[1..] == a;
    }
  }

  /** A signed token verifies to exactly what was signed until it expires, and as expired after. */
  lemma SignThenVerify(mac: Mac, secret: seq<byte>, alertId: int, verdict: string, ttl: int, signedAt: real, now: real)
    requires Plain(verdict)
    ensures var exp := Int(signedAt) + ttl;
      Verify(mac, secret, Sign(mac, secret, alertId, verdict, ttl, signedAt), now) ==
      if now > exp as real then Expired else Accepted(Claims(alertId, verdict, exp))
  {
    hide Dump, Load, Decode, Encode, Split, Value;
    var claims := Claims(alertId, verdict, Int(signedAt) + ttl);
    var payload := Payload(claims);
    var sig := Signature(mac, secret, payload);
    RoundTrip(payload);
    RoundTrip(Truncated(mac(DeriveKey(mac, secret), payload)));
    SplitAtDot(Encode(payload), sig);
    DumpAscii(claims);
    TextBytes(Dump(claims));
    LoadDump(claims);
  }

  // ---------- exactly which tokens verify ----------

  /** The token is two dot-free parts around a dot. */
  ghost predicate TwoParts(token: string, a: string, b: string) {
    '.' !in a && '.' !in b && token == a + "." + b
  }

  lemma {:induction false} SplitRejoins(s: string)
    ensures |Split(s)| == 1 ==> '.' !in s && Split(s) == [s]
    ensures |Split(s)| == 2 ==> TwoParts(s, Split(s)[0], Split(s)[1])
  {
    if s != "" {
      SplitRejoins(s[1..]);
      var parts := Split(s[1..]);
      assert s == [s[0]] + s[1..];
      if s[0] == '.' {
        if |parts| == 1 { assert s == "" + "." + s[1..]; }
      } else if |parts| == 2 {
        assert s == ([s[0]] + parts[0]) + "." + parts[1];
      }
    }
  }

  function First16(sig: seq<byte>): seq<byte> { if |sig| < 16 then sig else sig[..16] }

  const FEEDBACK: seq<byte> := [102, 101, 101, 100, 98, 97, 99, 107]

  /** The token's first part decodes to a payload that reads as c, and its second part is that payload's MAC
      under the key derived from the secret, its first 16 bytes encoded. */
  ghost predicate Carries(mac: Mac, secret: seq<byte>, token: string, a: string, b: string, c: Claims) {
    && TwoParts(token, a, b)
    && Decode(a).Some? && AsciiBytes(Decode(a).value) && Load(ToText(Decode(a).value)) == Some(c)
    && b == Encode(First16(mac(mac(secret, FEEDBACK), Decode(a).value)))
  }

  lemma SignatureExactly(mac: Mac, secret: seq<byte>, payload: seq<byte>)
    ensures Signature(mac, secret, payload) == Encode(First16(mac(mac(secret, FEEDBACK), payload)))
    ensures Ascii(Signature(mac, secret, payload))
  {
    assert ToBytes("feedback") == FEEDBACK;
    var full := mac(mac(secret, FEEDBACK), payload);
    assert Truncated(full) == First16(full);
    RoundTrip(First16(full));
    hide Encode, Value;
  }

  lemma CarriedVerifies(mac: Mac, secret: seq<byte>, token: string, now: real, a: string, b: string, c: Claims)
    requires Carries(mac, secret, token, a, b, c)
    ensures Verify(mac, secret, token, now) == if now > c.exp as real then Expired else Accepted(c)
  {
    SplitAtDot(a, b);
    SignatureExactly(mac, secret, Decode(a).value);
    hide Decode, Split, Encode, Load, Signature;
  }

  lemma VerifiedCarries(mac: Mac, secret: seq<byte>, token: string, now: real) returns (a: string, b: string, c: Claims)
    requires Verify(mac, secret, token, now).Accepted? || Verify(mac, secret, token, now) == Expired
    ensures Carries(mac, secret, token, a, b, c)
  {
    SplitRejoins(token);
    a, b := Split(token)[0], Split(token)[1];
    SignatureExactly(mac, secret, Decode(a).value);
    hide Decode, Split, Encode, Signature, Load;
    c := Load(ToText(Decode(a).value)).value;
  }

  /** A token is accepted as c exactly when it carries c and c has not expired, and is expired exactly when
      it carries claims that have. */
  lemma VerifiesExactly(mac: Mac, secret: seq<byte>, token: string, now: real, c: Claims)
    ensures Verify(mac, secret, token, now) == Accepted(c) <==>
      now <= c.exp as real && exists a, b :: Carries(mac, secret, token, a, b, c)
    ensures Verify(mac, secret, token, now) == Expired <==>
      exists a, b, d :: Carries(mac, secret, token, a, b, d) && now > d.exp as real
  {
    hide Verify, Carries;
    if Verify(mac, secret, token, now) == Accepted(c) || Verify(mac, secret, token, now) == Expired {
      var a, b, d := VerifiedCarries(mac, secret, token, now);
      CarriedVerifies(mac, secret, token, now, a, b, d);
    }
    if a, b :| Carries(mac, secret, token, a, b, c) { CarriedVerifies(mac, secret, token, now, a, b, c); }
    if a, b, d :| Carries(mac, secret, token, a, b, d) && now > d.exp as real {
      CarriedVerifies(mac, secret, token, now, a, b, d);
    }
  }

  // ---------- the comparison's own exception ----------

  /** Verification raises the comparison's error, which is not the documented one, exactly for a token of
      two parts of which the first decodes and the second has a non-ASCII character; so never for an ASCII
      token. */
  lemma UncaughtExactly(mac: Mac, secret: seq<byte>, token: string, now: real)
    ensures Verify(mac, secret, token, now) == Uncaught <==>
      exists a, b :: TwoParts(token, a, b) && Decode(a).Some? && !Ascii(b)
    ensures Ascii(token) ==> Verify(mac, secret, token, now) != Uncaught
  {
    hide Decode, Split, Signature, Load;
    SplitRejoins(token);
    if a, b :| TwoParts(token, a, b) && Decode(a).Some? && !Ascii(b) {
      SplitAtDot(a, b);
    }
    var parts := Split(token);
    if Verify(mac, secret, token, now) == Uncaught {
      assert TwoParts(token, parts[0], parts[1]) && Decode(parts[0]).Some? && !Ascii(parts[1]);
      if Ascii(token) { TailOf(parts[0] + ".", parts[1]); }
    }
  }

  lemma TailOf(a: string, b: string)
    ensures Ascii(a + b) ==> Ascii(b)
  {
    forall i | 0 <= i < |b| ensures b[i] == (a + b)[|a| + i] {
    }
  }

  /** It happens whatever the secret: an empty first part decodes to no bytes. */
  lemma UncaughtWitness(mac: Mac, secret: seq<byte>, now: real)
    ensures Verify(mac, secret, ".\U{00e9}", now) == Uncaught
  {
    var b := "\U{00e9}";
    assert TwoParts(".\U{00e9}", "", b);
    assert Decode("") == Some([]);
    assert !Ascii(b) by { assert b[0] as int >= 128; }
    UncaughtExactly(mac, secret, ".\U{00e9}", now);
  }
}
