/**
 * The bearer-token layer of the finance API: issuing an access token
 * (create_access_token, signed by python-jose as a JWS in HS256 form, section 3.2
 * of RFC 7518) and the hand-written verification of get_current_user.
 *
 * The cryptographic and codec primitives are not modelled: HMAC-SHA256 (RFC 2104),
 * base64url (section 5 of RFC 4648), UTF-8 and JSON are fields of a `Primitives`
 * value, so every statement below holds for whatever functions fill them; the
 * laws the round trip needs are spelled out in `WellBehaved`. The clock is the
 * parameter `now`; the user table is a map from the text of a user id to the user.
 */
module Auth {
  import opened Results
  import opened PyStrings

  newtype byte = x: int | 0 <= x < 256

  type Bytes = seq<byte>

  /** Instants and durations in microseconds, the resolution of datetime/timedelta. */
  const MicrosPerSecond: int := 1_000_000
  const LifetimeInMinutes: int := 30
  const DefaultLifetime: int := LifetimeInMinutes * 60 * MicrosPerSecond

  /** The claim names python-jose turns from datetime into NumericDate. */
  const TimeClaims: set<string> := {"exp", "iat", "nbf"}

  /** The protected header python-jose writes for HS256 (sorted keys, compact separators). */
  const HeaderJson: string := "{\"alg\":\"HS256\",\"typ\":\"JWT\"}"

  /** A claim value: a JSON scalar, a datetime (before encoding), or a nested list or
      object whose contents the model does not follow. */
  datatype Value = Null | Bool(b: bool) | Number(n: int) | Text(s: string) | Instant(micros: int) | Composite

  type Claims = map<string, Value>

  /** What json.loads can return: an object, or any other JSON document. */
  datatype Document = Object(fields: Claims) | NotObject

  datatype Primitives = Primitives(
    hmacSha256: (Bytes, Bytes) -> Bytes,      // key, message -> digest
    b64Encode: Bytes -> string,               // base64url without '=' padding
    b64Decode: string -> Option<Bytes>,       // base64.urlsafe_b64decode; None: binascii.Error
    utf8Encode: string -> Bytes,
    utf8Decode: Bytes -> Option<string>,      // None: UnicodeDecodeError
    jsonDumps: Claims -> string,
    jsonLoads: string -> Option<Document>)    // None: JSONDecodeError

  /** The laws of the real primitives that the issue/verify round trip relies on. */
  ghost predicate WellBehaved(p: Primitives) {
    && (forall b :: p.b64Decode(Pad(p.b64Encode(b))) == Some(b))
    && (forall b :: IsAscii(p.b64Encode(b)) && '.' !in p.b64Encode(b))
    && (forall s :: p.utf8Decode(p.utf8Encode(s)) == Some(s))
    && (forall c :: JsonOnly(c) ==> p.jsonLoads(p.jsonDumps(c)) == Some(Object(c)))
  }

  predicate JsonOnly(c: Claims) {
    forall k :: k in c ==> !c[k].Instant?
  }

  predicate IsAscii(s: string) {
    forall k :: 0 <= k < |s| ==> s[k] as int < 128
  }

  /** The low byte of every character: the ASCII encoding of an ASCII string. */
  function AsciiBytes(s: string): Bytes {
    seq(|s|, k requires 0 <= k < |s| => (s[k] as int % 256) as byte)
  }

  /** str.encode("ascii"); None is the UnicodeEncodeError. */
  function AsciiEncode(s: string): (r: Option<Bytes>)
    ensures r.Some? <==> IsAscii(s)
    ensures r.Some? ==> |r.value| == |s| && forall k :: 0 <= k < |s| ==> r.value[k] as int == s[k] as int
  {
    if IsAscii(s) then Some(AsciiBytes(s)) else None
  }

  // ---------------------------------------------------------------------------
  // Issuing

  /** datetime.utcnow() + (expires_delta or timedelta(minutes=30)): a missing delta and
      a zero delta (the only falsy timedelta) both give the default lifetime. */
  function Expiry(now: int, expiresDelta: Option<int>): (expire: int)
    ensures expiresDelta.None? || expiresDelta == Some(0) ==> expire == now + DefaultLifetime
    ensures expiresDelta.Some? && expiresDelta.value != 0 ==> expire == now + expiresDelta.value
  {
    match expiresDelta
    case Some(delta) => if delta != 0 then now + delta else now + DefaultLifetime
    case None => now + DefaultLifetime
  }

  /** to_encode = data.copy(); to_encode.update({"exp": expire}): the caller's claims
      plus "exp", an existing "exp" overwritten, nothing else touched. */
  function ClaimsToEncode(data: Claims, expire: int): (r: Claims)
    ensures r.Keys == data.Keys + {"exp"}
    ensures r["exp"] == Instant(expire)
    ensures forall k :: k in data && k != "exp" ==> r[k] == data[k]
  {
    data["exp" := Instant(expire)]
  }

  /** timegm(dt.utctimetuple()): whole seconds, the microseconds dropped (floor). */
  function NumericDate(micros: int): (seconds: int)
    ensures seconds * MicrosPerSecond <= micros < (seconds + 1) * MicrosPerSecond
  {
    micros / MicrosPerSecond
  }

  /** python-jose's conversion of datetime-valued time claims before serialising. */
  function WithNumericDates(c: Claims): (r: Claims)
    ensures r.Keys == c.Keys
    ensures forall k :: k in c && k in TimeClaims && c[k].Instant? ==> r[k] == Number(NumericDate(c[k].micros))
    ensures forall k :: k in c && !(k in TimeClaims && c[k].Instant?) ==> r[k] == c[k]
  {
    map k | k in c :: if k in TimeClaims && c[k].Instant? then Number(NumericDate(c[k].micros)) else c[k]
  }

  /** The signing input: the encoded header, one '.', the encoded payload. */
  function SigningInput(header: string, payload: string): (r: string)
    ensures |r| == |header| + 1 + |payload|
    ensures r[..|header|] == header && r[|header|] == '.' && r[|header| + 1..] == payload
  {
    header + "." + payload
  }

  /** Header and payload can be read back from the signing input when the header has
      no '.' (base64url never produces one). */
  lemma SigningInputInjective(h1: string, p1: string, h2: string, p2: string)
    requires '.' !in h1 && '.' !in h2
    requires SigningInput(h1, p1) == SigningInput(h2, p2)
    ensures h1 == h2 && p1 == p2
  {
  }

  /** jwt.encode(claims, key, algorithm="HS256"): the compact serialisation
      header.payload.signature, each part base64url-encoded without padding. */
  function JwtEncode(claims: Claims, secret: string, p: Primitives): string {
    var header := p.b64Encode(p.utf8Encode(HeaderJson));
    var payload := p.b64Encode(p.utf8Encode(p.jsonDumps(WithNumericDates(claims))));
    var signature := p.b64Encode(p.hmacSha256(p.utf8Encode(secret), AsciiBytes(SigningInput(header, payload))));
    header + "." + payload + "." + signature
  }

  /** With well-behaved primitives an encoded token has three parts: the header, the
      serialised claims, and the HMAC of the first two parts under the secret. */
  predicate SignedToken(token: string, claims: Claims, secret: string, p: Primitives) {
    var parts := Split(token, ".");
    && |parts| == 3
    && B64UrlDecode(parts[0], p) == Some(p.utf8Encode(HeaderJson))
    && B64UrlDecode(parts[1], p) == Some(p.utf8Encode(p.jsonDumps(WithNumericDates(claims))))
    && B64UrlDecode(parts[2], p) == Some(p.hmacSha256(p.utf8Encode(secret), AsciiBytes(SigningInput(parts[0], parts[1]))))
  }

  lemma JwtEncodeParts(claims: Claims, secret: string, p: Primitives)
    ensures WellBehaved(p) ==> SignedToken(JwtEncode(claims, secret, p), claims, secret, p)
  {
    if WellBehaved(p) {
      var header := p.b64Encode(p.utf8Encode(HeaderJson));
      var payload := p.b64Encode(p.utf8Encode(p.jsonDumps(WithNumericDates(claims))));
      var digest := p.hmacSha256(p.utf8Encode(secret), AsciiBytes(SigningInput(header, payload)));
      var signature := p.b64Encode(digest);
      SplitThree(header, payload, signature, '.');
      assert JwtEncode(claims, secret, p) == header + "." + payload + "." + signature;
      assert B64UrlDecode(signature, p) == Some(digest);
    }
  }

  /** create_access_token(data, expires_delta) issued at `now`: a token signed over
      the caller's claims with "exp" set to the expiry. */
  function CreateAccessToken(data: Claims, now: int, expiresDelta: Option<int>, secret: string, p: Primitives): (token: string)
    ensures WellBehaved(p) ==> SignedToken(token, ClaimsToEncode(data, Expiry(now, expiresDelta)), secret, p)
  {
    JwtEncodeParts(ClaimsToEncode(data, Expiry(now, expiresDelta)), secret, p);
    JwtEncode(ClaimsToEncode(data, Expiry(now, expiresDelta)), secret, p)
  }

  // ---------------------------------------------------------------------------
  // Verifying

  /** `len(data) % 4` is never negative; the padding appended is 4 - that, unless it is 4. */
  function Pad(s: string): (r: string)
    ensures |r| - |s| == (4 - |s| % 4) % 4 && |r| - |s| < 4
    ensures |r| % 4 == 0
    ensures r[..|s|] == s
    ensures forall k :: |s| <= k < |r| ==> r[k] == '='
  {
    var padding := 4 - |s| % 4;
    if padding < 4 then s + seq(padding, _ => '=') else s
  }

  /** _b64url_decode: with a well-behaved decoder, it gives back whatever the unpadded
      encoder produced the text from. */
  function B64UrlDecode(s: string, p: Primitives): (r: Option<Bytes>)
    ensures forall b :: WellBehaved(p) && s == p.b64Encode(b) ==> r == Some(b)
  {
    p.b64Decode(Pad(s))
  }

  /** How get_current_user fails. The two HTTPExceptions answer 401 with their detail;
      the others are exceptions the handler does not catch. */
  datatype AuthError =
    | Unpacking            // ValueError: the token is not exactly three '.'-separated parts
    | Undecodable          // binascii.Error, UnicodeDecodeError or UnicodeEncodeError
    | InvalidSignature     // 401 "Invalid token signature"
    | MalformedPayload     // JSONDecodeError, or AttributeError on a payload that is not an object
    | UserNotFound         // 401 "User not found"

  function StatusCode(e: AuthError): (code: int)
    ensures code == 401 <==> e == InvalidSignature || e == UserNotFound
  {
    match e
    case InvalidSignature => 401
    case UserNotFound => 401
    case _ => 500
  }

  /** What the signature of a token must decode to: HMAC-SHA256 under the secret over
      the ASCII bytes of header.payload. */
  function ExpectedSignature(header: string, payload: string, secret: string, p: Primitives): Option<Bytes> {
    match AsciiEncode(SigningInput(header, payload))
    case None => None
    case Some(input) => Some(p.hmacSha256(p.utf8Encode(secret), input))
  }

  /** The payload segment of a three-part token, base64url- then UTF-8-decoded. */
  function PayloadText(token: string, p: Primitives): Option<string>
    requires |Split(token, ".")| == 3
  {
    match B64UrlDecode(Split(token, ".")[1], p)
    case None => None
    case Some(payloadBytes) => p.utf8Decode(payloadBytes)
  }

  /** Every step before the comparison succeeds: three parts, a payload that decodes to
      text, an ASCII signing input and a signature that decodes to bytes. */
  predicate SignatureReadable(token: string, secret: string, p: Primitives) {
    var parts := Split(token, ".");
    && |parts| == 3
    && PayloadText(token, p).Some?
    && ExpectedSignature(parts[0], parts[1], secret, p).Some?
    && B64UrlDecode(parts[2], p).Some?
  }

  /** The signature of `token` is readable and matches: the precondition for anything
      in the payload to be read. */
  predicate SignatureMatches(token: string, secret: string, p: Primitives) {
    && SignatureReadable(token, secret, p)
    && var parts := Split(token, ".");
       B64UrlDecode(parts[2], p) == ExpectedSignature(parts[0], parts[1], secret, p)
  }

  /** Lines 54-71 of get_current_user: split, decode the payload, compute and compare the
      signature. On success, the decoded payload text. */
  function CheckSignature(token: string, secret: string, p: Primitives): (r: Result<string, AuthError>)
    ensures r == Err(Unpacking) <==> |Split(token, ".")| != 3
    ensures r == Err(Undecodable) <==> (|Split(token, ".")| == 3 && !SignatureReadable(token, secret, p))
    ensures r == Err(InvalidSignature) <==> (SignatureReadable(token, secret, p) && !SignatureMatches(token, secret, p))
    ensures r.Ok? <==> SignatureMatches(token, secret, p)
    ensures r.Ok? ==> r.value == PayloadText(token, p).value
  {
    var parts := Split(token, ".");
    if |parts| != 3 then Err(Unpacking)
    else
      var header, payload, signature := parts[0], parts[1], parts[2];
      match B64UrlDecode(payload, p)
      case None => Err(Undecodable)
      case Some(payloadBytes) =>
        match p.utf8Decode(payloadBytes)
        case None => Err(Undecodable)
        case Some(payloadJson) =>
          match ExpectedSignature(header, payload, secret, p)
          case None => Err(Undecodable)
          case Some(expected) =>
            match B64UrlDecode(signature, p)
            case None => Err(Undecodable)
            case Some(actual) =>
              if expected != actual then Err(InvalidSignature) else Ok(payloadJson)
  }

  /** json.loads gave an object (anything else has no .get). */
  predicate IsObject(doc: Option<Document>) {
    doc.Some? && doc.value.Object?
  }

  /** The text of the "sub" claim of a parsed payload, if it has one. */
  function SubjectOf(doc: Option<Document>): Option<string> {
    match doc
    case Some(Object(claims)) =>
      if "sub" in claims && claims["sub"].Text? then Some(claims["sub"].s) else None
    case _ => None
  }

  /** Lines 73-83: json.loads, payload.get("sub"), db.get(User, sub). */
  function LookupSubject<U>(payloadJson: string, p: Primitives, users: map<string, U>): (r: Result<U, AuthError>)
    ensures r == Err(MalformedPayload) <==> !IsObject(p.jsonLoads(payloadJson))
    ensures r.Ok? <==> (SubjectOf(p.jsonLoads(payloadJson)).Some? && SubjectOf(p.jsonLoads(payloadJson)).value in users)
    ensures r.Ok? ==> r.value == users[SubjectOf(p.jsonLoads(payloadJson)).value]
    ensures r.Err? ==> r.error == MalformedPayload || r.error == UserNotFound
  {
    match p.jsonLoads(payloadJson)
    case None => Err(MalformedPayload)
    case Some(NotObject) => Err(MalformedPayload)
    case Some(Object(claims)) =>
      if "sub" in claims && claims["sub"].Text? && claims["sub"].s in users
      then Ok(users[claims["sub"].s])
      else Err(UserNotFound)
  }

  /** The payload of a token whose signature is readable parses to a JSON object. */
  predicate PayloadObject(token: string, secret: string, p: Primitives)
    requires SignatureReadable(token, secret, p)
  {
    IsObject(p.jsonLoads(PayloadText(token, p).value))
  }

  /** The subject the payload of a token names, if it names one as text. */
  function Subject(token: string, secret: string, p: Primitives): Option<string>
    requires SignatureReadable(token, secret, p)
  {
    SubjectOf(p.jsonLoads(PayloadText(token, p).value))
  }

  /** get_current_user(token): the user the signed payload names. Each way of failing
      is characterised: unpacking, decoding, the signature, the payload, the user. */
  function GetCurrentUser<U>(token: string, secret: string, p: Primitives, users: map<string, U>): (r: Result<U, AuthError>)
    ensures r == Err(Unpacking) <==> |Split(token, ".")| != 3
    ensures r == Err(Undecodable) <==> (|Split(token, ".")| == 3 && !SignatureReadable(token, secret, p))
    ensures r == Err(InvalidSignature) <==> (SignatureReadable(token, secret, p) && !SignatureMatches(token, secret, p))
    ensures r == Err(MalformedPayload) <==>
      (SignatureMatches(token, secret, p) && !PayloadObject(token, secret, p))
    ensures r == Err(UserNotFound) <==>
      (SignatureMatches(token, secret, p) && PayloadObject(token, secret, p)
       && !(Subject(token, secret, p).Some? && Subject(token, secret, p).value in users))
    ensures r.Ok? <==>
      (SignatureMatches(token, secret, p) && Subject(token, secret, p).Some? && Subject(token, secret, p).value in users)
    ensures r.Ok? ==> r.value == users[Subject(token, secret, p).value]
  {
    match CheckSignature(token, secret, p)
    case Err(e) => Err(e)
    case Ok(payloadJson) => LookupSubject(payloadJson, p, users)
  }

  /** A signature mismatch is reported before the payload is parsed or a user looked
      up: the outcome is the same whatever json.loads does and whoever is in the table. */
  lemma MismatchIgnoresPayloadAndUsers<U>(token: string, secret: string, p: Primitives,
                                          users: map<string, U>, loads: string -> Option<Document>,
                                          others: map<string, U>)
    requires GetCurrentUser(token, secret, p, users) == Err(InvalidSignature)
    ensures GetCurrentUser(token, secret, p.(jsonLoads := loads), others) == Err(InvalidSignature)
  {
    assert CheckSignature(token, secret, p) == Err(InvalidSignature);
    assert CheckSignature(token, secret, p.(jsonLoads := loads)) == CheckSignature(token, secret, p);
  }

  /** json.loads followed by overwriting (or removing) the "exp" claim. */
  function ReplaceExp(loads: string -> Option<Document>, exp: Option<Value>): string -> Option<Document> {
    s =>
      match loads(s)
      case Some(Object(c)) =>
        Some(Object(match exp case Some(v) => c["exp" := v] case None => c - {"exp"}))
      case other => other
  }

  /** Verification never reads "exp": a payload with any other expiry, or none at all,
      is accepted or rejected exactly as before. */
  lemma ExpNeverRead<U>(token: string, secret: string, p: Primitives, users: map<string, U>, exp: Option<Value>)
    ensures GetCurrentUser(token, secret, p.(jsonLoads := ReplaceExp(p.jsonLoads, exp)), users)
         == GetCurrentUser(token, secret, p, users)
  {
    var q := p.(jsonLoads := ReplaceExp(p.jsonLoads, exp));
    assert CheckSignature(token, secret, q) == CheckSignature(token, secret, p);
    match CheckSignature(token, secret, p)
    case Err(_) =>
    case Ok(json) =>
      assert "sub" != "exp";
      match p.jsonLoads(json)
      case None =>
      case Some(NotObject) =>
      case Some(Object(c)) =>
        var c' := q.jsonLoads(json).value.fields;
        assert ("sub" in c') == ("sub" in c);
        assert "sub" in c ==> c'["sub"] == c["sub"];
  }

  /** A compact token whose parts are free of '.', whose payload decodes to text and
      whose signature decodes to the HMAC of its signing input passes the signature
      check, handing on the payload text. */
  lemma CompactTokenVerifies(header: string, payload: string, signature: string, secret: string,
                             p: Primitives, payloadBytes: Bytes, digest: Bytes)
    requires '.' !in header && '.' !in payload && '.' !in signature
    requires IsAscii(header) && IsAscii(payload)
    requires B64UrlDecode(payload, p) == Some(payloadBytes) && p.utf8Decode(payloadBytes).Some?
    requires digest == p.hmacSha256(p.utf8Encode(secret), AsciiBytes(SigningInput(header, payload)))
    requires B64UrlDecode(signature, p) == Some(digest)
    ensures CheckSignature(header + "." + payload + "." + signature, secret, p)
         == Ok(p.utf8Decode(payloadBytes).value)
  {
    SplitThree(header, payload, signature, '.');
    var input := SigningInput(header, payload);
    assert IsAscii(input) by {
      forall k | 0 <= k < |input|
        ensures input[k] as int < 128
      {
        if k < |header| {
          assert input[k] == header[k];
        } else if k > |header| {
          assert input[k] == payload[k - |header| - 1];
        }
      }
    }
    assert AsciiEncode(input) == Some(AsciiBytes(input));
  }

  /** Issue then verify: with well-behaved primitives, a token issued for a subject
      that is in the user table yields that user, at any time and for any lifetime. */
  lemma IssueThenVerify<U>(data: Claims, now: int, expiresDelta: Option<int>, secret: string,
                           p: Primitives, users: map<string, U>, sub: string)
    requires WellBehaved(p)
    requires JsonOnly(data - TimeClaims)
    requires "sub" in data && data["sub"] == Text(sub) && sub in users
    ensures GetCurrentUser(CreateAccessToken(data, now, expiresDelta, secret, p), secret, p, users) == Ok(users[sub])
  {
    var toEncode := ClaimsToEncode(data, Expiry(now, expiresDelta));
    var claims := WithNumericDates(toEncode);
    assert JsonOnly(claims) by {
      forall k | k in claims
        ensures !claims[k].Instant?
      {
        if k !in TimeClaims {
          assert k in data - TimeClaims;
        }
      }
    }
    var json := p.jsonDumps(claims);
    var header := p.b64Encode(p.utf8Encode(HeaderJson));
    var payload := p.b64Encode(p.utf8Encode(json));
    var digest := p.hmacSha256(p.utf8Encode(secret), AsciiBytes(SigningInput(header, payload)));
    var signature := p.b64Encode(digest);
    assert p.utf8Decode(p.utf8Encode(json)) == Some(json);
    CompactTokenVerifies(header, payload, signature, secret, p, p.utf8Encode(json), digest);
    assert CreateAccessToken(data, now, expiresDelta, secret, p) == header + "." + payload + "." + signature;
    assert p.jsonLoads(json) == Some(Object(claims));
    assert claims["sub"] == Text(sub);
  }
}
