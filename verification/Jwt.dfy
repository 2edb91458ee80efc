/**
 Token encoding of `api/auth.py`: `_b64`/`_unb64` (base64url without padding,
 section 5 of RFC 4648) and the compact JWS built and checked by `_encode` and
 `_decode` (section 7.1 of RFC 7515).
 */
module Jwt {
  import opened Wrappers
  import opened Text

  newtype byte = x: int | 0 <= x < 256

  // ---------------------------------------------------------------- alphabet

  type sextet = x: int | 0 <= x < 64

  function CharOf(v: sextet): char {
    if v < 26 then 'A' + v as char
    else if v < 52 then 'a' + (v - 26) as char
    else if v < 62 then '0' + (v - 52) as char
    else if v == 62 then '-' else '_'
  }

  /** The decoder's table: `-`/`_` are first mapped to `+`/`/`, which are accepted too. */
  function ValueOf(c: char): Option<sextet> {
    if 'A' <= c <= 'Z' then Some((c - 'A') as int)
    else if 'a' <= c <= 'z' then Some((c - 'a') as int + 26)
    else if '0' <= c <= '9' then Some((c - '0') as int + 52)
    else if c == '-' || c == '+' then Some(62)
    else if c == '_' || c == '/' then Some(63)
    else None
  }

  lemma CharRoundTrip(v: sextet)
    ensures ValueOf(CharOf(v)) == Some(v)
    ensures CharOf(v) != '.' && CharOf(v) != '='
  {
  }

  // ---------------------------------------------------------------- encoder

  /** The four six-bit groups of three bytes. */
  function Group(a: byte, b: byte, c: byte): (vs: seq<sextet>)
    ensures |vs| == 4
  {
    var (x, y, z) := (a as int, b as int, c as int);
    [x / 4, x % 4 * 16 + y / 16, y % 16 * 4 + z / 64, z % 64]
  }

  /** The six-bit groups of `data`, the last one filled up with zero bits. */
  function Sextets(data: seq<byte>): seq<sextet> {
    if |data| == 0 then []
    else if |data| == 1 then Group(data[0], 0, 0)[..2]
    else if |data| == 2 then Group(data[0], data[1], 0)[..3]
    else Group(data[0], data[1], data[2]) + Sextets(data[3..])
  }

  function Chars(vs: seq<sextet>): string { seq(|vs|, i requires 0 <= i < |vs| => CharOf(vs[i])) }

  /** `_b64`: base64url with the trailing `=` stripped. */
  function B64(data: seq<byte>): string { Chars(Sextets(data)) }

  // ---------------------------------------------------------------- decoder

  /** The decoder's registers: characters in the current quad, leftover bits, pads seen. */
  datatype Scan = Scan(quad: nat, left: nat, pads: nat, out: seq<byte>, done: bool)

  ghost predicate ScanOk(k: Scan) {
    && k.quad < 4
    && (k.quad == 0 ==> k.left == 0)
    && (k.quad == 1 ==> k.left < 64)
    && (k.quad == 2 ==> k.left < 16)
    && (k.quad == 3 ==> k.left < 4)
  }

  /** A data character: the first of a quad is kept, the others complete a byte. */
  function Push(k: Scan, v: sextet): (k': Scan)
    requires ScanOk(k)
    ensures ScanOk(k') && k'.done == k.done
  {
    if k.quad == 0 then Scan(1, v, 0, k.out, k.done)
    else if k.quad == 1 then Scan(2, v % 16, 0, k.out + [(k.left * 4 + v / 16) as byte], k.done)
    else if k.quad == 2 then Scan(3, v % 4, 0, k.out + [(k.left * 16 + v / 4) as byte], k.done)
    else Scan(0, 0, 0, k.out + [(k.left * 64 + v) as byte], k.done)
  }

  /** One character: padding may end the input, unknown characters are skipped. */
  function ScanChar(k: Scan, c: char): (k': Scan)
    requires ScanOk(k)
    ensures ScanOk(k')
  {
    if k.done then k
    else if c == '=' then
      if k.quad < 2 then k
      else if k.quad + k.pads + 1 >= 4 then k.(pads := k.pads + 1, done := true)
      else k.(pads := k.pads + 1)
    else
      match ValueOf(c)
      case None => k
      case Some(v) => Push(k, v)
  }

  function ScanAll(k: Scan, s: string): (k': Scan)
    requires ScanOk(k)
    ensures ScanOk(k')
    decreases |s|
  {
    if s == "" then k else ScanAll(ScanChar(k, s[0]), s[1..])
  }

  function Pads(n: nat): string {
    seq((4 - n % 4) % 4, _ => '=')
  }

  /** `_unb64`: re-pad to a multiple of four, then decode; None is a raised ValueError. */
  function Unb64(s: string): Option<seq<byte>> {
    var k := ScanAll(Scan(0, 0, 0, [], false), s + Pads(|s|));
    if !(forall i :: 0 <= i < |s| ==> s[i] < 128 as char) then None
    else if k.done || k.quad == 0 then Some(k.out) else None
  }

  // ---------------------------------------------------------------- round trip

  function PushAll(k: Scan, vs: seq<sextet>): (k': Scan)
    requires ScanOk(k)
    ensures ScanOk(k') && k'.done == k.done
    decreases |vs|
  {
    if vs == [] then k else PushAll(Push(k, vs[0]), vs[1..])
  }

  /** Reading encoded characters pushes the sextets they stand for. */
  lemma {:induction false} ScanChars(k: Scan, vs: seq<sextet>, t: string)
    requires ScanOk(k) && !k.done
    ensures ScanAll(k, Chars(vs) + t) == ScanAll(PushAll(k, vs), t)
    decreases |vs|
  {
    var s := Chars(vs) + t;
    if vs == [] {
      assert s == t;
    } else {
      CharRoundTrip(vs[0]);
      assert s[0] == CharOf(vs[0]);
      assert s[1..] == Chars(vs[1..]) + t;
      ScanChars(Push(k, vs[0]), vs[1..], t);
    }
  }

  lemma PushCons(k: Scan, v: sextet, vs: seq<sextet>)
    requires ScanOk(k)
    ensures PushAll(k, [v] + vs) == PushAll(Push(k, v), vs)
  {
  }

  lemma Push3(k: Scan, v0: sextet, v1: sextet, v2: sextet, vs: seq<sextet>)
    requires ScanOk(k)
    ensures PushAll(k, [v0, v1, v2] + vs) == PushAll(Push(Push(Push(k, v0), v1), v2), vs)
  {
    hide PushAll, Push;
    assert [v0, v1, v2] + vs == [v0] + ([v1] + ([v2] + vs));
    PushCons(k, v0, [v1] + ([v2] + vs));
    PushCons(Push(k, v0), v1, [v2] + vs);
    PushCons(Push(Push(k, v0), v1), v2, vs);
  }

  /** The sextets of a group put its bytes back one by one. */
  lemma PushGroup(out: seq<byte>, a: byte, b: byte, c: byte)
    ensures var vs := Group(a, b, c);
            var k2 := Push(Push(Scan(0, 0, 0, out, false), vs[0]), vs[1]);
            var k3 := Push(k2, vs[2]);
            && k2.quad == 2 && k2.pads == 0 && k2.out == out + [a]
            && k3.quad == 3 && k3.pads == 0 && k3.out == out + [a, b]
            && Push(k3, vs[3]) == Scan(0, 0, 0, out + [a, b, c], false)
  {
  }

  lemma PushWholeGroup(out: seq<byte>, a: byte, b: byte, c: byte, ws: seq<sextet>)
    ensures PushAll(Scan(0, 0, 0, out, false), Group(a, b, c) + ws)
            == PushAll(Scan(0, 0, 0, out + [a, b, c], false), ws)
  {
    var vs := Group(a, b, c);
    var k0 := Scan(0, 0, 0, out, false);
    PushGroup(out, a, b, c);
    assert vs + ws == [vs[0], vs[1], vs[2]] + ([vs[3]] + ws);
    Push3(k0, vs[0], vs[1], vs[2], [vs[3]] + ws);
    PushCons(Push(Push(Push(k0, vs[0]), vs[1]), vs[2]), vs[3], ws);
  }

  /** Sextets and bytes left over after full groups of four and three. */
  function Open(n: nat): (r: nat)
    ensures r < 4 && r != 1
  {
    if n >= 3 then Open(n - 3) else if n == 0 then 0 else n + 1
  }

  function Rem4(n: nat): (r: nat)
    ensures r < 4
  {
    if n >= 4 then Rem4(n - 4) else n
  }

  lemma {:induction false} Rem4Quotient(n: nat) returns (q: nat)
    ensures n == 4 * q + Rem4(n)
  {
    q := 0;
    if n >= 4 {
      q := Rem4Quotient(n - 4);
      q := q + 1;
    }
  }

  lemma Rem4IsMod(n: nat)
    ensures Rem4(n) == n % 4
  {
    var q := Rem4Quotient(n);
  }

  /** Where the decoder stands after the sextets of `data`: every byte is out. */
  lemma {:induction false} PushSextets(out: seq<byte>, data: seq<byte>)
    ensures var k := PushAll(Scan(0, 0, 0, out, false), Sextets(data));
            k.out == out + data && k.pads == 0 && k.quad == Open(|data|)
    ensures Rem4(|Sextets(data)|) == Open(|data|)
    decreases |data|
  {
    if |data| == 0 {
    } else if |data| == 1 {
      PushOne(out, data[0]);
      assert data == [data[0]];
    } else if |data| == 2 {
      PushTwo(out, data[0], data[1]);
      assert data == [data[0], data[1]];
    } else {
      PushWholeGroup(out, data[0], data[1], data[2], Sextets(data[3..]));
      PushSextets(out + [data[0], data[1], data[2]], data[3..]);
      assert out + [data[0], data[1], data[2]] + data[3..] == out + data;
    }
  }

  lemma PushOne(out: seq<byte>, a: byte)
    ensures var k := PushAll(Scan(0, 0, 0, out, false), Group(a, 0, 0)[..2]);
            k.out == out + [a] && k.pads == 0 && k.quad == 2
  {
    var vs := Group(a, 0, 0);
    var k0 := Scan(0, 0, 0, out, false);
    PushGroup(out, a, 0, 0);
    assert vs[..2] == [vs[0]] + ([vs[1]] + []);
    PushCons(k0, vs[0], [vs[1]] + []);
    PushCons(Push(k0, vs[0]), vs[1], []);
  }

  lemma PushTwo(out: seq<byte>, a: byte, b: byte)
    ensures var k := PushAll(Scan(0, 0, 0, out, false), Group(a, b, 0)[..3]);
            k.out == out + [a, b] && k.pads == 0 && k.quad == 3
  {
    var vs := Group(a, b, 0);
    PushGroup(out, a, b, 0);
    assert vs[..3] == [vs[0], vs[1], vs[2]] + [];
    Push3(Scan(0, 0, 0, out, false), vs[0], vs[1], vs[2], []);
  }

  /** The padding closes an open quad. */
  lemma PadsClose(k: Scan, n: nat)
    requires ScanOk(k) && !k.done && k.pads == 0 && k.quad != 1 && n % 4 == k.quad
    ensures var k' := ScanAll(k, Pads(n)); k'.out == k.out && (k'.done || k'.quad == 0)
  {
    var p := Pads(n);
    if k.quad == 0 {
      assert p == "";
    } else {
      var k1 := ScanChar(k, p[0]);
      assert ScanAll(k, p) == ScanAll(k1, p[1..]);
      if k.quad == 3 {
        assert p[1..] == "";
      } else {
        assert ScanAll(k1, p[1..]) == ScanAll(ScanChar(k1, p[1]), p[1..][1..]);
        assert p[1..][1..] == "";
      }
    }
  }

  /** Decoding undoes encoding for every byte string. */
  lemma B64RoundTrip(data: seq<byte>)
    ensures Unb64(B64(data)) == Some(data)
  {
    var k0 := Scan(0, 0, 0, [], false);
    var vs := Sextets(data);
    PushSextets([], data);
    assert [] + data == data;
    ScanChars(k0, vs, Pads(|vs|));
    Rem4IsMod(|vs|);
    PadsClose(PushAll(k0, vs), |vs|);
    B64Alphabet(data);
  }

  /** Encoded segments use only the alphabet: in particular they contain no dot. */
  lemma B64Alphabet(data: seq<byte>)
    ensures forall i :: 0 <= i < |B64(data)| ==> B64(data)[i] != '.' && B64(data)[i] < 128 as char
  {
  }

  // ---------------------------------------------------------------- tokens

  datatype Value = Str(s: string) | Num(n: int)

  type Claims = map<string, Value>

  /** json.dumps, json.loads (None: not a JSON object), HMAC-SHA256 under the key. */
  datatype Codec = Codec(dumps: Claims -> seq<byte>, loads: seq<byte> -> Option<Claims>,
                         hmac: string -> seq<byte>, issuer: string)
  {
    ghost predicate Valid() { forall c :: loads(dumps(c)) == Some(c) }
  }

  datatype TokenError =
    | MalformedToken | InvalidSignature | UnsupportedAlgorithm | WrongType | InvalidIssuer | Expired
    | Uncaught  // comparing a non-numeric exp raises TypeError

  const HEADER: Claims := map["alg" := Str("HS256"), "typ" := Str("JWT")]

  function Encode(k: Codec, claims: Claims): string {
    var header := B64(k.dumps(HEADER));
    var payload := B64(k.dumps(claims));
    header + "." + payload + "." + B64(k.hmac(header + "." + payload))
  }

  predicate Has(claims: Claims, key: string, v: Value) { key in claims && claims[key] == v }

  /** The checks made on the claims of a correctly signed token. */
  function CheckClaims(k: Codec, claims: Claims, typ: string, now: real): Result<Claims, TokenError> {
    if !Has(claims, "typ", Str(typ)) then Err(WrongType)
    else if !Has(claims, "iss", Str(k.issuer)) then Err(InvalidIssuer)
    else
      var exp := if "exp" in claims then claims["exp"] else Num(0);
      if exp.Str? then Err(Uncaught)
      else if exp.n as real <= now then Err(Expired)
      else Ok(claims)
  }

  function DecodeJson(k: Codec, segment: string): Result<Claims, TokenError> {
    match Unb64(segment)
    case None => Err(MalformedToken)
    case Some(bytes) => if k.loads(bytes).Some? then Ok(k.loads(bytes).value) else Err(MalformedToken)
  }

  function Decode(k: Codec, token: string, typ: string, now: real): Result<Claims, TokenError> {
    var parts := Split(token, '.');
    if |parts| != 3 then Err(MalformedToken)
    else
      var (header, payload, sig) := (parts[0], parts[1], parts[2]);
      if Unb64(sig).None? then Err(MalformedToken)
      else if Unb64(sig).value != k.hmac(header + "." + payload) then Err(InvalidSignature)
      else
        match DecodeJson(k, header)
        case Err(e) => Err(e)
        case Ok(h) =>
          if !Has(h, "alg", Str("HS256")) then Err(UnsupportedAlgorithm)
          else
            match DecodeJson(k, payload)
            case Err(e) => Err(e)
            case Ok(claims) => CheckClaims(k, claims, typ, now)
  }

  lemma Join3(a: string, b: string, c: string)
    ensures Join([a, b, c], '.') == a + "." + b + "." + c
  {
    assert [a, b, c][1..] == [b, c] && [b, c][1..] == [c];
    assert Join([b, c], '.') == b + "." + c;
    assert a + "." + (b + "." + c) == a + "." + b + "." + c;
  }

  lemma EncodeSplits(k: Codec, claims: Claims)
    ensures var header := B64(k.dumps(HEADER));
            var payload := B64(k.dumps(claims));
            Split(Encode(k, claims), '.') == [header, payload, B64(k.hmac(header + "." + payload))]
  {
    var header := B64(k.dumps(HEADER));
    var payload := B64(k.dumps(claims));
    var sig := B64(k.hmac(header + "." + payload));
    B64Alphabet(k.dumps(HEADER));
    B64Alphabet(k.dumps(claims));
    B64Alphabet(k.hmac(header + "." + payload));
    var parts := [header, payload, sig];
    Join3(header, payload, sig);
    SplitInvertsJoin(parts, '.');
  }

  lemma JsonRoundTrip(k: Codec, claims: Claims)
    requires k.Valid()
    ensures DecodeJson(k, B64(k.dumps(claims))) == Ok(claims)
  {
    B64RoundTrip(k.dumps(claims));
  }

  /**
   A token this service encoded decodes to its own claims exactly when the
   type, issuer and expiry checks pass; it never fails in any other way.
   */
  lemma DecodeInvertsEncode(k: Codec, claims: Claims, typ: string, now: real)
    requires k.Valid()
    ensures Decode(k, Encode(k, claims), typ, now) == CheckClaims(k, claims, typ, now)
    ensures Decode(k, Encode(k, claims), typ, now) == Ok(claims) <==>
      && Has(claims, "typ", Str(typ))
      && Has(claims, "iss", Str(k.issuer))
      && (if "exp" in claims then claims["exp"].Num? && now < claims["exp"].n as real else now < 0.0)
  {
    var header := B64(k.dumps(HEADER));
    var payload := B64(k.dumps(claims));
    EncodeSplits(k, claims);
    B64RoundTrip(k.hmac(header + "." + payload));
    JsonRoundTrip(k, HEADER);
    JsonRoundTrip(k, claims);
  }

  /** Whatever is accepted names the one algorithm and carries the MAC of its own header and payload. */
  lemma AcceptedIsSigned(k: Codec, token: string, typ: string, now: real, claims: Claims)
    requires Decode(k, token, typ, now) == Ok(claims)
    ensures exists header, payload, sig ::
      && token == header + "." + payload + "." + sig
      && Lacks(header, '.') && Lacks(payload, '.') && Lacks(sig, '.')
      && Unb64(sig) == Some(k.hmac(header + "." + payload))
      && DecodeJson(k, header).Ok? && Has(DecodeJson(k, header).value, "alg", Str("HS256"))
      && DecodeJson(k, payload) == Ok(claims)
    ensures CheckClaims(k, claims, typ, now) == Ok(claims)
  {
    var parts := Split(token, '.');
    JoinInvertsSplit(token, '.');
    var (header, payload, sig) := (parts[0], parts[1], parts[2]);
    assert parts == [header, payload, sig];
    Join3(header, payload, sig);
    assert token == header + "." + payload + "." + sig;
    hide Split, Unb64, Join;
    assert Unb64(sig) == Some(k.hmac(header + "." + payload)) && DecodeJson(k, payload) == Ok(claims);
  }
}
