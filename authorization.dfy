/** Identity from a bearer token (AuthorizationService.java): read the
    Authorization header or an `access_token` cookie, take the JWT compact
    form of RFC 7519, decode its payload and read the `sub`, `roles`/`role`
    and `exp` claims. The signature is never checked.

    Base64url decoding and JSON parsing are abstract: `decode` maps the
    payload segment to the JSON it holds, or to `None` when either step
    throws. */
module Authorization {
  import opened Common

  /** `JsonNode.has(name)`: only an object has members. */
  predicate Has(j: Json, name: string) {
    j.JObject? && name in j.members
  }

  /** `JsonNode.asText()`: a container renders as "". */
  function AsText(j: Json): string {
    match j
    case JText(s) => s
    case JNumber(_, lit) => lit
    case JBool(b) => if b then "true" else "false"
    case JNull => "null"
    case JArray(_) => ""
    case JObject(_) => ""
  }

  /** `JsonNode.asLong(0)` on a number, a boolean, null or a container. */
  function AsLong(j: Json): int {
    match j
    case JNumber(v, _) => v
    case JBool(b) => if b then 1 else 0
    case _ => 0
  }

  /** `AuthInfo(userId, roles)`. */
  datatype AuthInfo = AuthInfo(userId: string, roles: seq<string>)

  /** The result of a parse: the identity, or the reason of the
      UNAUTHORIZED status exception thrown. */
  datatype AuthResult = Authorized(info: AuthInfo) | Unauthorized(reason: string)

  const MISSING_AUTHORIZATION: string := "Falta Authorization"
  const MISSING_TOKEN: string := "Falta token"
  const INVALID_TOKEN: string := "Token inválido"
  const NO_SUBJECT: string := "JWT sin sub"
  const EXPIRED: string := "Token expirado"

  /** `s.split("\\.")`: without a dot, the string itself; otherwise the
      pieces between dots with the trailing empty ones removed. */
  function SplitDots(s: string): seq<string> {
    if '.' !in s then [s] else DropTrailingEmpty(SplitOn(s, '.'))
  }

  /** The roles claim: the texts of the `roles` array when it is one, else
      the text of the single `role` claim, else none. */
  function Roles(payload: Json): (r: seq<string>)
    ensures Has(payload, "roles") && payload.members["roles"].JArray? ==>
      var items := payload.members["roles"].items;
      |r| == |items| && forall i | 0 <= i < |items| :: r[i] == AsText(items[i])
    ensures !(Has(payload, "roles") && payload.members["roles"].JArray?) && Has(payload, "role") ==>
      r == [AsText(payload.members["role"])]
    ensures !(Has(payload, "roles") && payload.members["roles"].JArray?) && !Has(payload, "role") ==> r == []
  {
    if Has(payload, "roles") && payload.members["roles"].JArray? then
      var items := payload.members["roles"].items;
      seq(|items|, i requires 0 <= i < |items| => AsText(items[i]))
    else if Has(payload, "role") then [AsText(payload.members["role"])]
    else []
  }

  /** The local `roles` list is filled one element at a time. */
  method CollectRoles(payload: Json) returns (roles: seq<string>)
    ensures roles == Roles(payload)
  {
    roles := [];
    if Has(payload, "roles") && payload.members["roles"].JArray? {
      var items := payload.members["roles"].items;
      var i := 0;
      while i < |items|
        invariant 0 <= i <= |items| && |roles| == i
        invariant forall j | 0 <= j < i :: roles[j] == AsText(items[j])
      {
        roles := roles + [AsText(items[i])];
        i := i + 1;
      }
    } else if Has(payload, "role") {
      roles := roles + [AsText(payload.members["role"])];
    }
  }

  /** The subject: the text of `sub` when present (a JSON null renders as
      "null"). */
  function Subject(payload: Json): Option<string> {
    if Has(payload, "sub") then Some(AsText(payload.members["sub"])) else None
  }

  /** An `exp` claim that is positive and before `nowSecond`. An absent
      claim, or one that is at most 0, never expires. */
  predicate Expired(payload: Json, nowSecond: int) {
    Has(payload, "exp") && AsLong(payload.members["exp"]) > 0 && nowSecond > AsLong(payload.members["exp"])
  }

  /** `parseJwt`: at least two pieces, a decodable payload, a non-blank
      subject, and no expiry before `nowSecond`. Every failure other than a
      missing subject or an expiry is "Token inválido". */
  function ParseJwt(jwt: string, nowSecond: int, decode: string -> Option<Json>): AuthResult {
    var parts := SplitDots(jwt);
    if |parts| < 2 then Unauthorized(INVALID_TOKEN)
    else
      match decode(parts[1])
      case None => Unauthorized(INVALID_TOKEN)
      case Some(payload) =>
        if IsMissing(Subject(payload)) then Unauthorized(NO_SUBJECT)
        else if Expired(payload, nowSecond) then Unauthorized(EXPIRED)
        else Authorized(AuthInfo(Subject(payload).value, Roles(payload)))
  }

  /** `parseBearer`: trim, drop a leading "bearer " in any ASCII case and
      trim again, then parse the token. */
  function ParseBearer(bearer: Option<string>, nowSecond: int, decode: string -> Option<Json>): AuthResult {
    if IsMissing(bearer) then Unauthorized(MISSING_AUTHORIZATION)
    else
      var token := Trim(bearer.value);
      var jwt := if MatchesIgnoringAsciiCase(token, "bearer ") then Trim(token[7..]) else token;
      ParseJwt(jwt, nowSecond, decode)
  }

  /** A cookie: its name and its value, which may be null. */
  datatype Cookie = Cookie(name: string, value: Option<string>)

  const ACCESS_TOKEN: string := "access_token"

  /** `parseTokenOrCookie`: a non-blank token first; else the first cookie
      named `access_token`; else "Falta token". */
  method ParseTokenOrCookie(token: Option<string>, cookies: Option<seq<Cookie>>, nowSecond: int,
                            decode: string -> Option<Json>) returns (r: AuthResult)
    ensures !IsMissing(token) ==> r == ParseBearer(Some("Bearer " + token.value), nowSecond, decode)
    ensures IsMissing(token) && (cookies.None? || forall j | 0 <= j < |cookies.value| :: cookies.value[j].name != ACCESS_TOKEN) ==>
      r == Unauthorized(MISSING_TOKEN)
    ensures IsMissing(token) && cookies.Some? ==>
      forall k | 0 <= k < |cookies.value| && cookies.value[k].name == ACCESS_TOKEN
                 && (forall j | 0 <= j < k :: cookies.value[j].name != ACCESS_TOKEN) ::
        r == ParseBearer(Some("Bearer " + JavaText(cookies.value[k].value)), nowSecond, decode)
  {
    var bearer: Option<string> := None;
    if !IsMissing(token) {
      bearer := Some("Bearer " + token.value);
    }
    if bearer.None? && cookies.Some? {
      var cs := cookies.value;
      var i := 0;
      while i < |cs|
        invariant 0 <= i <= |cs|
        invariant bearer.None?
        invariant forall j | 0 <= j < i :: cs[j].name != ACCESS_TOKEN
      {
        if cs[i].name == ACCESS_TOKEN {
          bearer := Some("Bearer " + JavaText(cs[i].value));
          break;
        }
        i := i + 1;
      }
    }
    if bearer.None? {
      return Unauthorized(MISSING_TOKEN);
    }
    r := ParseBearer(bearer, nowSecond, decode);
  }

  /** A null or blank header is refused before anything is parsed. */
  lemma MissingHeaderRefused(bearer: Option<string>, nowSecond: int, decode: string -> Option<Json>)
    requires IsMissing(bearer)
    ensures ParseBearer(bearer, nowSecond, decode) == Unauthorized(MISSING_AUTHORIZATION)
  {
  }

  /** The scheme of section 2.1 of RFC 6750 is optional: a token with or
      without "Bearer " in front, and with surrounding spaces, parses the
      same as the bare token. */
  lemma SchemeIsOptional(jwt: string, ws: string, nowSecond: int, decode: string -> Option<Json>)
    requires jwt != [] && !IsTrimmable(jwt[0]) && !IsTrimmable(jwt[|jwt| - 1]) && !IsBlank(jwt)
    requires !MatchesIgnoringAsciiCase(jwt, "bearer ")
    requires forall i | 0 <= i < |ws| :: IsTrimmable(ws[i])
    ensures ParseBearer(Some("Bearer " + ws + jwt), nowSecond, decode) == ParseJwt(jwt, nowSecond, decode)
    ensures ParseBearer(Some(jwt), nowSecond, decode) == ParseJwt(jwt, nowSecond, decode)
  {
    TrimUntrimmable(jwt);
    assert !IsMissing(Some(jwt));
    var h := "Bearer " + ws + jwt;
    PrefixedHeader(jwt, ws);
    assert !IsMissing(Some(h));
  }

  /** How `parseBearer` reads "Bearer " + spaces + a trimmed token. */
  lemma PrefixedHeader(jwt: string, ws: string)
    requires jwt != [] && !IsTrimmable(jwt[0]) && !IsTrimmable(jwt[|jwt| - 1])
    requires forall i | 0 <= i < |ws| :: IsTrimmable(ws[i])
    ensures var h := "Bearer " + ws + jwt;
      && !IsMissing(Some(h)) && Trim(h) == h
      && MatchesIgnoringAsciiCase(h, "bearer ") && Trim(h[7..]) == jwt
  {
    var h := "Bearer " + ws + jwt;
    assert h[0] == 'B' && h[|h| - 1] == jwt[|jwt| - 1];
    assert !IsBlank(h) by { assert !IsJavaWhitespace(h[0]); }
    TrimUntrimmable(h);
    assert h[..7] == "Bearer ";
    assert ToLowerAscii("Bearer ") == "bearer ";
    assert h[7..] == ws + jwt;
    TrimOfSpacesThen(ws, jwt);
  }

  /** Trimming spaces followed by a trimmed string gives that string. */
  lemma TrimOfSpacesThen(ws: string, s: string)
    requires s != [] && !IsTrimmable(s[0]) && !IsTrimmable(s[|s| - 1])
    requires forall i | 0 <= i < |ws| :: IsTrimmable(ws[i])
    ensures Trim(ws + s) == s
  {
    TrimStartSpaces(ws, s);
    TrimUntrimmable(s);
  }

  /** Trimming the start skips exactly the trimmable prefix. */
  lemma {:induction false} TrimStartSpaces(ws: string, s: string)
    requires forall i | 0 <= i < |ws| :: IsTrimmable(ws[i])
    requires s == [] || !IsTrimmable(s[0])
    ensures TrimStart(ws + s) == s
    decreases |ws|
  {
    if ws == [] {
      assert ws + s == s;
    } else {
      assert (ws + s)[1..] == ws[1..] + s;
      TrimStartSpaces(ws[1..], s);
    }
  }

  /** A JWT is accepted exactly when it has two pieces, its payload decodes,
      the subject is present and not blank and it has not expired; the
      identity is then the subject and the roles claim. */
  lemma JwtAcceptedExactly(jwt: string, nowSecond: int, decode: string -> Option<Json>)
    ensures var parts := SplitDots(jwt);
      var r := ParseJwt(jwt, nowSecond, decode);
      && (r.Authorized? <==>
            |parts| >= 2 && decode(parts[1]).Some?
            && !IsMissing(Subject(decode(parts[1]).value))
            && !Expired(decode(parts[1]).value, nowSecond))
      && (r.Authorized? ==>
            var payload := decode(parts[1]).value;
            && !IsBlank(r.info.userId)
            && Some(r.info.userId) == Subject(payload)
            && r.info.roles == Roles(payload))
      && (r.Unauthorized? ==> r.reason in {INVALID_TOKEN, NO_SUBJECT, EXPIRED})
  {
  }

  /** The subject is checked before the expiry: an expired token without a
      subject reports the missing subject. */
  lemma SubjectCheckedFirst(jwt: string, nowSecond: int, decode: string -> Option<Json>)
    requires |SplitDots(jwt)| >= 2 && decode(SplitDots(jwt)[1]).Some?
    requires IsMissing(Subject(decode(SplitDots(jwt)[1]).value))
    ensures ParseJwt(jwt, nowSecond, decode) == Unauthorized(NO_SUBJECT)
  {
  }

  /** The expiry test is strict: at the expiry second the token still
      passes, one second later it does not. */
  lemma ExpiryBoundary(exp: int, members: map<string, Json>)
    requires exp > 0
    ensures var p := JObject(members["exp" := JNumber(exp, "")]);
      !Expired(p, exp) && Expired(p, exp + 1)
  {
  }

  /** Without a dot a string is one piece, and is refused as invalid. */
  lemma NoDotIsInvalid(jwt: string, nowSecond: int, decode: string -> Option<Json>)
    requires '.' !in jwt
    ensures ParseJwt(jwt, nowSecond, decode) == Unauthorized(INVALID_TOKEN)
  {
  }

  /** The signature piece is never looked at: two tokens that differ only
      in it parse alike, and so does the token without it. */
  lemma SignatureIgnored(header: string, payload: string, sig1: string, sig2: string,
                         nowSecond: int, decode: string -> Option<Json>)
    requires '.' !in header && '.' !in payload && payload != ""
    ensures ParseJwt(header + "." + payload + "." + sig1, nowSecond, decode)
         == ParseJwt(header + "." + payload + "." + sig2, nowSecond, decode)
    ensures ParseJwt(header + "." + payload + "." + sig1, nowSecond, decode)
         == ParseJwt(header + "." + payload, nowSecond, decode)
  {
    SplitPayload(header, payload, sig1);
    SplitPayload(header, payload, sig2);
    SplitUnsigned(header, payload);
  }

  /** `header.payload` splits into exactly those two pieces. */
  lemma SplitUnsigned(header: string, payload: string)
    requires '.' !in header && '.' !in payload && payload != ""
    ensures SplitDots(header + "." + payload) == [header, payload]
  {
    SplitOnFirst(header, '.', payload);
    SplitOnWithout(payload, '.');
    var s := header + "." + payload;
    assert s[|header|] == '.';
    assert [header] + [payload] == [header, payload];
  }

  /** The second piece of `header.payload.sig` is the payload. */
  lemma SplitPayload(header: string, payload: string, sig: string)
    requires '.' !in header && '.' !in payload && payload != ""
    ensures |SplitDots(header + "." + payload + "." + sig)| >= 2
    ensures SplitDots(header + "." + payload + "." + sig)[1] == payload
  {
    var s := header + "." + payload + "." + sig;
    assert s == header + "." + (payload + "." + sig);
    assert s[|header|] == '.';
    SplitOnFirst(header, '.', payload + "." + sig);
    SplitOnFirst(payload, '.', sig);
    assert SplitOn(s, '.') == [header, payload] + SplitOn(sig, '.');
    DropKeepsFront([header, payload], SplitOn(sig, '.'));
  }

  /** Worked-example helper for `PlainWordRefused`. */
  lemma NoDotInWord()
    ensures '.' !in "no-es-un-jwt"
  {
    var w := "no-es-un-jwt";
    forall k | 0 <= k < |w| ensures w[k] != '.' {
    }
  }

  /** "no-es-un-jwt" has no dot and is refused as invalid. */
  lemma PlainWordRefused(nowSecond: int, decode: string -> Option<Json>)
    ensures ParseBearer(Some("no-es-un-jwt"), nowSecond, decode) == Unauthorized(INVALID_TOKEN)
  {
    var w := "no-es-un-jwt";
    assert !IsMissing(Some(w)) by { assert !IsJavaWhitespace(w[0]); }
    TrimUntrimmable(w);
    assert !MatchesIgnoringAsciiCase(w, "bearer ") by { assert ToLowerAscii(w[..7])[0] == 'n'; }
    NoDotInWord();
    NoDotIsInvalid(w, nowSecond, decode);
  }
}
