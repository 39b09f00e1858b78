/** The reservation check a JOIN goes through (EligibilityService.java):
    ask the reservations service for the reservation, then decide from its
    status and participants whether the user may join the call.

    The HTTP exchange is abstract: `send` maps the request that would go out
    to the reply that comes back. */
module Eligibility {
  import opened Common

  /** The decoded response body, member name to the member's value as
      `String.valueOf` renders it; `None` is a JSON null. */
  type Response = map<string, Option<string>>

  /** `EligibilityResult(eligible, reason)`; the reason is null when
      eligible. */
  datatype EligibilityResult = EligibilityResult(eligible: bool, reason: Option<string>)

  /** `EligibilityResult.ok()`. */
  function Ok(): EligibilityResult {
    EligibilityResult(true, None)
  }

  /** `EligibilityResult.notEligible(reason)`. */
  function NotEligible(reason: string): EligibilityResult {
    EligibilityResult(false, Some(reason))
  }

  /** A request header, name and value. */
  type Header = (string, string)

  /** The GET request for `/{id}`, with its headers in the order added. */
  datatype Request = Request(id: string, headers: seq<Header>)

  /** What comes back from the reservations service: a body (`None` when the
      body is empty), an error status (`RestClientResponseException`, with
      its status code as rendered and its body), or any other exception,
      which the check does not catch. */
  datatype Reply =
    | Body(resp: Option<Response>)
    | ErrorStatus(statusCode: string, body: string)
    | Failure(fault: Fault)

  const ACCEPT: Header := ("Accept", "application/json")

  /** `replaceFirst("(?i)^bearer\\s+", "")`: remove a leading "bearer" in
      any ASCII case followed by at least one space, and all those spaces. */
  function StripBearer(t: string): string {
    if |t| > 6 && MatchesIgnoringAsciiCase(t, "bearer") && IsRegexSpace(t[6]) then SkipRegexSpace(t[6..]) else t
  }

  /** The headers of the request for a token: Accept always; Authorization
      with the Bearer scheme of section 2.1 of RFC 6750 only for a token
      that is neither null nor blank, with any scheme prefix the token
      already had removed first. */
  function HeadersFor(bearerToken: Option<string>): seq<Header> {
    if IsMissing(bearerToken) then [ACCEPT]
    else [ACCEPT, ("Authorization", "Bearer " + StripBearer(bearerToken.value))]
  }

  /** The request is built step by step, the header list growing in place. */
  method BuildRequest(reservationId: string, bearerToken: Option<string>) returns (req: Request)
    ensures req == Request(reservationId, HeadersFor(bearerToken))
  {
    req := Request(reservationId, []);
    req := req.(headers := req.headers + [ACCEPT]);
    if bearerToken.Some? && !IsBlank(bearerToken.value) {
      var token := StripBearer(bearerToken.value);
      req := req.(headers := req.headers + [("Authorization", "Bearer " + token)]);
    }
  }

  /** A null or blank token sends no Authorization header; any other sends
      exactly one, after Accept, carrying the Bearer scheme. */
  lemma AuthorizationOnlyWithToken(bearerToken: Option<string>)
    ensures HeadersFor(bearerToken)[0] == ACCEPT
    ensures (exists i | 0 <= i < |HeadersFor(bearerToken)| :: HeadersFor(bearerToken)[i].0 == "Authorization")
      <==> !IsMissing(bearerToken)
    ensures !IsMissing(bearerToken) ==> |HeadersFor(bearerToken)| == 2 && StartsWith(HeadersFor(bearerToken)[1].1, "Bearer ")
  {
    if !IsMissing(bearerToken) {
      assert HeadersFor(bearerToken)[1].0 == "Authorization";
    }
  }

  /** The scheme is optional in the stored token: a token given with a
      "bearer" prefix in any ASCII case and any run of spaces, or without
      it, produces the same header. */
  lemma SchemePrefixIsOptional(scheme: string, ws: string, tok: string)
    requires |scheme| == 6 && ToLowerAscii(scheme) == "bearer"
    requires |ws| > 0 && forall i | 0 <= i < |ws| :: IsRegexSpace(ws[i])
    requires tok == [] || !IsRegexSpace(tok[0])
    requires !(|tok| > 6 && MatchesIgnoringAsciiCase(tok, "bearer") && IsRegexSpace(tok[6]))
    ensures StripBearer(scheme + ws + tok) == tok
    ensures StripBearer(tok) == tok
  {
    var t := scheme + ws + tok;
    assert t[..6] == scheme;
    assert MatchesIgnoringAsciiCase(t, "bearer");
    assert t[6] == ws[0];
    assert t[6..] == ws + tok;
    SkipSpacesBefore(ws, tok);
  }

  /** Worked example: a token given as "Bearer TOK" produces the header
      "Bearer TOK", not "Bearer Bearer TOK". */
  lemma BearerTokExample()
    ensures HeadersFor(Some("Bearer TOK")) == [ACCEPT, ("Authorization", "Bearer TOK")]
  {
    assert !IsMissing(Some("Bearer TOK")) by { assert !IsJavaWhitespace("Bearer TOK"[0]); }
    StripBearerTok();
    assert "Bearer " + "TOK" == "Bearer TOK";
  }

  /** Worked-example helper for `BearerTokExample`. */
  lemma StripBearerTok()
    ensures StripBearer("Bearer TOK") == "TOK"
  {
    var t := "Bearer TOK";
    assert MatchesIgnoringAsciiCase(t, "bearer") by {
      assert t[..6] == "Bearer";
      assert ToLowerAscii("Bearer") == "bearer";
    }
    assert t[6..] == " TOK";
    SkipSpacesBefore(" ", "TOK");
    assert " " + "TOK" == " TOK";
  }

  /** `resp.getOrDefault(key, dflt)`: a member present with a null value
      yields null, not the default. */
  function GetOrDefault(resp: Response, key: string, dflt: Option<string>): Option<string> {
    if key in resp then resp[key] else dflt
  }

  /** The status as rendered; "" when absent. */
  function StatusText(resp: Response): string {
    JavaText(GetOrDefault(resp, "status", Some("")))
  }

  /** The student: "studentId", else "student_id", else "". */
  function StudentId(resp: Response): string {
    JavaText(GetOrDefault(resp, "studentId", GetOrDefault(resp, "student_id", Some(""))))
  }

  /** The tutor: "tutorId", else "tutor_id", else "". */
  function TutorId(resp: Response): string {
    JavaText(GetOrDefault(resp, "tutorId", GetOrDefault(resp, "tutor_id", Some(""))))
  }

  /** The statuses that allow a call, compared after upper-casing. */
  predicate EligibleStatus(status: string) {
    ToUpperAscii(status) in {"ACEPTADO", "ACTIVE", "ACTIVA"}
  }

  /** The verdict on a response body (`None`: the body was empty). */
  function Verdict(baseUrl: string, userId: string, resp: Option<Response>): EligibilityResult {
    if resp.None? then NotEligible("Reservations empty response from " + baseUrl)
    else
      var m := resp.value;
      if EligibleStatus(StatusText(m)) && (userId == StudentId(m) || userId == TutorId(m)) then Ok()
      else NotEligible("Not active/participant (status=" + StatusText(m) + ", studentId="
                       + StudentId(m) + ", tutorId=" + TutorId(m) + ")")
  }

  const ELLIPSIS: string := "…"

  /** An error body longer than 200 characters is cut to its first 200 and
      marked with an ellipsis. */
  function Truncate(body: string): (r: string)
    ensures |r| <= 201
    ensures |body| <= 200 ==> r == body
    ensures |body| > 200 ==> r == body[..200] + ELLIPSIS
  {
    if |body| > 200 then body[..200] + ELLIPSIS else body
  }

  /** The reason given for an error status. */
  function ErrorReason(baseUrl: string, reservationId: string, statusCode: string, body: string): string {
    "Reservations error: " + statusCode + " from " + baseUrl + " id=" + reservationId + " body=" + Truncate(body)
  }

  /** `checkReservation` on the reply it received. */
  function Checked(baseUrl: string, reservationId: string, userId: string, reply: Reply): Outcome<EligibilityResult> {
    match reply
    case Body(resp) => Done(Verdict(baseUrl, userId, resp))
    case ErrorStatus(code, body) => Done(NotEligible(ErrorReason(baseUrl, reservationId, code, body)))
    case Failure(f) => Thrown(f)
  }

  /** `checkReservation(reservationId, userId, bearerToken)`: build the
      request, send it, and judge the reply. */
  method CheckReservation(baseUrl: string, reservationId: string, userId: string, bearerToken: Option<string>,
                          send: Request -> Reply) returns (r: Outcome<EligibilityResult>)
    ensures r == Checked(baseUrl, reservationId, userId, send(Request(reservationId, HeadersFor(bearerToken))))
  {
    var req := BuildRequest(reservationId, bearerToken);
    var reply := send(req);
    r := Checked(baseUrl, reservationId, userId, reply);
  }

  /** The two-argument `checkReservation`: the three-argument one with a
      null token. */
  method CheckReservationWithoutToken(baseUrl: string, reservationId: string, userId: string,
                                      send: Request -> Reply) returns (r: Outcome<EligibilityResult>)
    ensures r == Checked(baseUrl, reservationId, userId, send(Request(reservationId, [ACCEPT])))
  {
    r := CheckReservation(baseUrl, reservationId, userId, None, send);
  }

  /** A verdict is eligible exactly when the upper-cased status is
      ACEPTADO, ACTIVE or ACTIVA and the user is the student or the tutor;
      an eligible verdict carries no reason and any other carries one. */
  lemma VerdictExact(baseUrl: string, userId: string, resp: Response)
    ensures var v := Verdict(baseUrl, userId, Some(resp));
      && (v.eligible <==> EligibleStatus(StatusText(resp)) && (userId == StudentId(resp) || userId == TutorId(resp)))
      && (v.eligible <==> v.reason.None?)
      && (!v.eligible ==> StartsWith(v.reason.value, "Not active/participant"))
  {
  }

  /** The participant ids fall back from the camel-case member to the
      snake-case one and then to "". A member present with a null value
      renders as "null" and stops the fallback. */
  lemma ParticipantFallback(resp: Response)
    ensures "studentId" in resp ==> StudentId(resp) == JavaText(resp["studentId"])
    ensures "studentId" !in resp && "student_id" in resp ==> StudentId(resp) == JavaText(resp["student_id"])
    ensures "studentId" !in resp && "student_id" !in resp ==> StudentId(resp) == ""
    ensures "tutorId" in resp ==> TutorId(resp) == JavaText(resp["tutorId"])
    ensures "tutorId" !in resp && "tutor_id" in resp ==> TutorId(resp) == JavaText(resp["tutor_id"])
    ensures "tutorId" !in resp && "tutor_id" !in resp ==> TutorId(resp) == ""
  {
  }

  /** An empty body is never eligible, and the reason says so. */
  lemma EmptyResponseRejected(baseUrl: string, reservationId: string, userId: string)
    ensures var r := Checked(baseUrl, reservationId, userId, Body(None));
      r.Done? && !r.value.eligible && Contains(r.value.reason.value, "empty response")
  {
    var reason := "Reservations empty response from " + baseUrl;
    assert reason == "Reservations " + "empty response" + (" from " + baseUrl);
    assert reason[13..27] == "empty response";
    ContainsAt(reason, "empty response", 13);
  }

  /** An error status is never eligible, and the reason starts with the
      status code (the body it quotes is cut by `Truncate`). */
  lemma ErrorStatusRejected(baseUrl: string, reservationId: string, userId: string, code: string, body: string)
    ensures var r := Checked(baseUrl, reservationId, userId, ErrorStatus(code, body));
      && r.Done? && !r.value.eligible
      && StartsWith(r.value.reason.value, "Reservations error: " + code)
      && Contains(r.value.reason.value, code)
  {
    var reason := ErrorReason(baseUrl, reservationId, code, body);
    assert reason[20..20 + |code|] == code;
    ContainsAt(reason, code, 20);
  }

  /** Upper-casing makes the status test case-insensitive: "activa" and
      "Aceptado" are eligible, "CANCELADO" is not. */
  lemma StatusExamples()
    ensures EligibleStatus("activa") && EligibleStatus("Aceptado") && EligibleStatus("ACTIVE")
    ensures !EligibleStatus("CANCELADO") && !EligibleStatus("")
  {
    assert ToUpperAscii("activa") == "ACTIVA";
    assert ToUpperAscii("Aceptado") == "ACEPTADO";
    assert ToUpperAscii("ACTIVE") == "ACTIVE";
    assert ToUpperAscii("CANCELADO") == "CANCELADO";
  }

  /** A tutor named only under the snake-case member is a participant. */
  lemma SnakeCaseTutorJoins(baseUrl: string)
    ensures Verdict(baseUrl, "T1", Some(map["status" := Some("ACTIVE"), "tutor_id" := Some("T1")])) == Ok()
  {
    assert ToUpperAscii("ACTIVE") == "ACTIVE";
  }
}
