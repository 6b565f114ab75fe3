/** The signed tokens of operator/server/handler/auth.go: a compact serialization of three
    base64url parts (section 7.1 of RFC 7515) carrying claims with an expiry (RFC 7519). The
    keyed hash and the JSON form of the claims are parameters. */
module Jwt {
  import opened GoTypes
  import opened Base64Url
  import Text

  datatype Claims = Claims(sub: string, exp: int, iat: int)

  datatype Crypto = Crypto(mac: (string, string) -> seq<Byte>,
                           marshal: Claims -> Result<seq<Byte>>,
                           unmarshal: seq<Byte> -> Result<Claims>)

  function Ascii(text: string): (b: seq<Byte>)
    ensures |b| == |text|
  {
    seq(|text|, i requires 0 <= i < |text| => if text[i] as int < 256 then text[i] as int else 63)
  }

  const HEADER := Encode(Ascii("{\"alg\":\"HS256\",\"typ\":\"JWT\"}"))

  /* ---- Signing and verifying ---- */

  function Sign(y: Crypto, claims: Claims, secret: string): Result<string> {
    match y.marshal(claims)
    case Err(e) => Err("marshal claims: " + e)
    case Ok(payload) =>
      var signingInput := HEADER + "." + Encode(payload);
      Ok(signingInput + "." + Encode(y.mac(secret, signingInput)))
  }

  datatype Parts = Parts(header: string, payload: string, signature: string)

  /** Splits at the first two dots; whatever follows them is the third part. */
  function SplitToken(token: string): (r: Option<Parts>)
    ensures r.Some? ==> token == r.value.header + "." + r.value.payload + "." + r.value.signature
  {
    var i := Text.Index(token, ".");
    if i < 0 then None
    else
      assert token[i..i + 1] == ".";
      var rest := token[i + 1..];
      var j := Text.Index(rest, ".");
      if j < 0 then None
      else
        assert rest[j..j + 1] == ".";
        Some(Parts(token[..i], rest[..j], rest[j + 1..]))
  }

  function Verify(y: Crypto, token: string, secret: string, now: int): Result<Claims> {
    match SplitToken(token)
    case None => Err("malformed token")
    case Some(parts) =>
      match Decode(parts.signature)
      case Err(e) => Err("decode signature: " + e)
      case Ok(actual) =>
        if y.mac(secret, parts.header + "." + parts.payload) != actual then Err("invalid signature")
        else
          match Decode(parts.payload)
          case Err(e) => Err("decode payload: " + e)
          case Ok(payload) =>
            match y.unmarshal(payload)
            case Err(e) => Err("unmarshal claims: " + e)
            case Ok(claims) => if now > claims.exp then Err("token expired") else Ok(claims)
  }

  /* ---- The split is exact ---- */

  lemma FirstDot(before: string, after: string)
    requires '.' !in before
    ensures Text.Index(before + "." + after, ".") == |before|
  {
    var t := before + "." + after;
    var i := Text.Index(t, ".");
    assert t[|before|..|before| + 1] == ".";
    assert Text.OccursAt(t, ".", |before|);
    assert t[i..i + 1] == "." && t[i] == '.';
  }

  /** Three parts, the first two without a dot, are read back from the text that joins them. */
  lemma SplitIsExact(p: Parts)
    requires '.' !in p.header && '.' !in p.payload
    ensures SplitToken(p.header + "." + p.payload + "." + p.signature) == Some(p)
  {
    var token := p.header + "." + p.payload + "." + p.signature;
    var rest := p.payload + "." + p.signature;
    assert token == p.header + "." + rest;
    FirstDot(p.header, rest);
    FirstDot(p.payload, p.signature);
    assert token[..|p.header|] == p.header && token[|p.header| + 1..] == rest;
    assert rest == p.payload + "." + p.signature;
    assert rest[..|p.payload|] == p.payload && rest[|p.payload| + 1..] == p.signature;
  }

  lemma SignedParts(y: Crypto, claims: Claims, secret: string)
    requires y.marshal(claims).Ok?
    ensures Sign(y, claims, secret).Ok?
    ensures var payload := Encode(y.marshal(claims).value);
            SplitToken(Sign(y, claims, secret).value)
            == Some(Parts(HEADER, payload, Encode(y.mac(secret, HEADER + "." + payload))))
  {
    var payload := Encode(y.marshal(claims).value);
    RoundTrip(Ascii("{\"alg\":\"HS256\",\"typ\":\"JWT\"}"));
    RoundTrip(y.marshal(claims).value);
    SplitIsExact(Parts(HEADER, payload, Encode(y.mac(secret, HEADER + "." + payload))));
  }

  /* ---- The round trip ---- */

  ghost predicate JsonRoundTrips(y: Crypto, claims: Claims) {
    y.marshal(claims).Ok? && y.unmarshal(y.marshal(claims).value) == Ok(claims)
  }

  /** A signed token verified under any secret: with the secret it was signed with, or one whose
      hash agrees, it gives its claims back exactly until they expire; under any other secret it
      is rejected. */
  lemma SignVerify(y: Crypto, claims: Claims, secret: string, other: string, now: int)
    requires JsonRoundTrips(y, claims)
    ensures Sign(y, claims, secret).Ok?
    ensures var token := Sign(y, claims, secret).value;
            var input := HEADER + "." + Encode(y.marshal(claims).value);
            Verify(y, token, other, now) ==
              if y.mac(other, input) != y.mac(secret, input) then Err("invalid signature")
              else if now <= claims.exp then Ok(claims)
              else Err("token expired")
  {
    SignedParts(y, claims, secret);
    var payload := Encode(y.marshal(claims).value);
    RoundTrip(y.marshal(claims).value);
    RoundTrip(y.mac(secret, HEADER + "." + payload));
  }

  /** The parts make up the token, the third decodes to the hash of the first two as they stand,
      and the second to claims that have not expired. */
  predicate Accepts(y: Crypto, p: Parts, token: string, secret: string, now: int, claims: Claims) {
    && '.' !in p.header && '.' !in p.payload && token == p.header + "." + p.payload + "." + p.signature
    && Decode(p.signature) == Ok(y.mac(secret, p.header + "." + p.payload))
    && Decode(p.payload).Ok? && y.unmarshal(Decode(p.payload).value) == Ok(claims)
    && now <= claims.exp
  }

  /** What is accepted at all: exactly the three-part texts whose third part decodes to the hash
      of the first two as they stand, and whose second decodes to claims not yet expired. The
      first part is never looked into. */
  lemma AcceptedTokens(y: Crypto, token: string, secret: string, now: int, claims: Claims)
    ensures Verify(y, token, secret, now) == Ok(claims) <==> exists p: Parts :: Accepts(y, p, token, secret, now, claims)
  {
    if Verify(y, token, secret, now) == Ok(claims) {
      SplitHasNoDots(token);
      assert Accepts(y, SplitToken(token).value, token, secret, now, claims);
    }
    if p: Parts :| Accepts(y, p, token, secret, now, claims) {
      SplitIsExact(p);
    }
  }

  lemma SplitHasNoDots(token: string)
    requires SplitToken(token).Some?
    ensures '.' !in SplitToken(token).value.header && '.' !in SplitToken(token).value.payload
  {
    NoDotBefore(token);
    NoDotBefore(token[Text.Index(token, ".") + 1..]);
  }

  lemma NoDotBefore(t: string)
    requires Text.Index(t, ".") >= 0
    ensures '.' !in t[..Text.Index(t, ".")]
  {
    var i := Text.Index(t, ".");
    if '.' in t[..i] {
      var k :| 0 <= k < i && t[k] == '.';
      assert t[k..k + 1] == ".";
      assert Text.OccursAt(t, ".", k);
    }
  }

  /* ---- Logging in, and what a token admits ---- */

  const SECOND: int := 1_000_000_000
  const DAY: int := 24 * 3600 * SECOND

  /** Whole seconds since the epoch of a time in nanoseconds. */
  function Unix(t: Time): int {
    t / SECOND
  }

  datatype Credentials = Credentials(user: string, password: string)

  datatype Reply = Token(token: string) | Status(code: nat)

  function Login(y: Crypto, expected: Credentials, body: Option<Credentials>, now: Time): Reply {
    match body
    case None => Status(400)
    case Some(given) =>
      if given != expected then Status(401)
      else
        match Sign(y, Claims(given.user, Unix(now + DAY), Unix(now)), expected.password)
        case Err(_) => Status(500)
        case Ok(token) => Token(token)
  }

  const BEARER := "Bearer "

  /** Whether the server's gate lets a request through. */
  function Admits(y: Crypto, expected: Credentials, path: string, authorization: string, now: Time): bool {
    || (expected.user == "" && expected.password == "")
    || path == "/healthz" || path == "/api/v1/login" || !Text.HasPrefix(path, "/api/")
    || (Text.HasPrefix(authorization, BEARER)
        && Verify(y, authorization[|BEARER|..], expected.password, Unix(now)).Ok?)
  }

  lemma ADayLater(t: Time)
    ensures Unix(t + DAY) == Unix(t) + 86400
  {
  }

  lemma LoginGives(y: Crypto, expected: Credentials, given: Credentials, issued: Time, claims: Claims)
    requires JsonRoundTrips(y, claims) && claims == Claims(given.user, Unix(issued + DAY), Unix(issued))
    ensures var signed := Sign(y, claims, expected.password);
            && signed.Ok?
            && Login(y, expected, Some(given), issued) == if given == expected then Token(signed.value) else Status(401)
  {
    SignedParts(y, claims, expected.password);
  }

  /** A bearer token opens what is open anyway, and what its verification opens. */
  lemma BearerAdmits(y: Crypto, expected: Credentials, path: string, token: string, now: Time)
    ensures Admits(y, expected, path, BEARER + token, now)
            <==> Admits(y, expected, path, "", now) || Verify(y, token, expected.password, Unix(now)).Ok?
  {
    assert (BEARER + token)[|BEARER|..] == token && Text.HasPrefix(BEARER + token, BEARER);
    assert !Text.HasPrefix("", BEARER);
  }

  /** Who gets through: everybody if no credentials are configured; anyone to the health check, to
      the login and to whatever is not under /api/; else whoever brings a token that verifies. */
  lemma GateOpensFor(y: Crypto, expected: Credentials, path: string, authorization: string, now: Time)
    ensures Admits(y, expected, path, authorization, now) <==>
              || expected == Credentials("", "")
              || path == "/healthz" || path == "/api/v1/login"
              || |path| < 5 || path[..5] != "/api/"
              || exists token :: authorization == "Bearer " + token
                                 && Verify(y, token, expected.password, now / 1_000_000_000).Ok?
  {
    if Text.HasPrefix(authorization, "Bearer ") {
      var token := authorization[7..];
      assert authorization == "Bearer " + token;
    }
    if token :| authorization == "Bearer " + token
                && Verify(y, token, expected.password, now / 1_000_000_000).Ok? {
      assert authorization[7..] == token && authorization[..7] == "Bearer ";
    }
  }

  /** Logging in works exactly with the configured credentials, and the token it gives opens every
      path for exactly 86400 seconds after the second of issue, and no guarded path any longer. A
      body that cannot be read is a bad request. */
  lemma LoginLastsADay(y: Crypto, expected: Credentials, given: Credentials, issued: Time, path: string, later: Time)
    requires var second := issued / 1_000_000_000;
             JsonRoundTrips(y, Claims(given.user, second + 86400, second))
    ensures var second, now := issued / 1_000_000_000, later / 1_000_000_000;
            var reply, claims := Login(y, expected, Some(given), issued), Claims(given.user, second + 86400, second);
            && (reply.Token? <==> given == expected)
            && (reply.Status? ==> reply.code == 401)
            && Login(y, expected, None, issued) == Status(400)
            && (reply.Token? ==>
                  && (Verify(y, reply.token, expected.password, now) == Ok(claims) <==> now <= second + 86400)
                  && (Admits(y, expected, path, "Bearer " + reply.token, later)
                      <==> now <= second + 86400 || Admits(y, expected, path, "", later)))
  {
    var claims := Claims(given.user, Unix(issued) + 86400, Unix(issued));
    ADayLater(issued);
    LoginGives(y, expected, given, issued, claims);
    if given == expected {
      SignVerify(y, claims, expected.password, expected.password, Unix(later));
      BearerAdmits(y, expected, path, Sign(y, claims, expected.password).value, later);
    }
  }

  /** The first part of every token made here says HS256 and JWT. */
  lemma HeaderSays(y: Crypto, claims: Claims, secret: string)
    requires y.marshal(claims).Ok?
    ensures Sign(y, claims, secret).Ok?
    ensures var parts := SplitToken(Sign(y, claims, secret).value);
            && parts.Some?
            && Decode(parts.value.header) == Ok(Ascii("{\"alg\":\"HS256\",\"typ\":\"JWT\"}"))
            && Decode(parts.value.payload) == Ok(y.marshal(claims).value)
            && Decode(parts.value.signature) == Ok(y.mac(secret, parts.value.header + "." + parts.value.payload))
  {
    SignedParts(y, claims, secret);
    RoundTrip(Ascii("{\"alg\":\"HS256\",\"typ\":\"JWT\"}"));
    var payload := Encode(y.marshal(claims).value);
    RoundTrip(y.marshal(claims).value);
    RoundTrip(y.mac(secret, HEADER + "." + payload));
  }
}
