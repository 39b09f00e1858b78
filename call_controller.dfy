/** The REST side of the relay (CallController.java): create or reuse the
    session of a reservation, end a session by id, list the ICE servers the
    browser should use, and expose the quality metrics.

    Spring's request mapping, authentication and JSON rendering are not
    modelled; each endpoint is a method taking the request's values and
    returning the body (or status) the controller builds. */
module Controller {
  import opened Common
  import opened Domain
  import CS = CallSessions
  import QM = QualityMetrics

  // ---------------------------------------------------------------------
  // `split("\\s*,\\s*")`
  // ---------------------------------------------------------------------

  /** The `i`-th of `n` comma-separated pieces as the regular expression
      `\s*,\s*` leaves it: the spaces in front of a comma belong to the
      match, and so do the spaces behind it. The first piece keeps its
      leading spaces and the last its trailing ones. */
  function CsvPiece(p: string, i: nat, n: nat): string {
    var left := if i > 0 then SkipRegexSpace(p) else p;
    if i + 1 < n then DropRegexSpace(left) else left
  }

  /** Every piece as `CsvPiece` leaves it. The contract only fixes the
      shape; `CsvRoundTrip` states what the split yields. */
  function CsvPieces(ps: seq<string>): (r: seq<string>)
    ensures |r| == |ps| && forall i | 0 <= i < |ps| :: r[i] == CsvPiece(ps[i], i, |ps|)
  {
    seq(|ps|, i requires 0 <= i < |ps| => CsvPiece(ps[i], i, |ps|))
  }

  /** `s.split("\\s*,\\s*")`: without a comma, the string itself; otherwise
      the pieces between the matches, trailing empty ones removed. */
  function SplitCsv(s: string): seq<string> {
    if ',' !in s then [s] else DropTrailingEmpty(CsvPieces(SplitOn(s, ',')))
  }

  /** `filter(s -> !s.isBlank())`, keeping the order. */
  function NonBlank(ps: seq<string>): (r: seq<string>)
    ensures |r| <= |ps|
    ensures forall i | 0 <= i < |r| :: r[i] in ps && !IsBlank(r[i])
    ensures forall i | 0 <= i < |ps| && !IsBlank(ps[i]) :: ps[i] in r
  {
    if ps == [] then []
    else
      var init := NonBlank(ps[..|ps| - 1]);
      var last := ps[|ps| - 1];
      assert forall i | 0 <= i < |ps| - 1 :: ps[i] == ps[..|ps| - 1][i];
      init + (if IsBlank(last) then [] else [last])
  }

  /** The comma-separated text a list of URLs is configured as, with the
      separator `sep` between neighbours. */
  function JoinCsv(urls: seq<string>, sep: string): string
    requires |urls| >= 1
  {
    if |urls| == 1 then urls[0] else urls[0] + sep + JoinCsv(urls[1..], sep)
  }

  /** A URL as it can be configured and read back: not empty, no comma, and
      no white space at either end. */
  predicate PlainUrl(u: string) {
    && u != [] && ',' !in u
    && !IsJavaWhitespace(u[0]) && !IsJavaWhitespace(u[|u| - 1])
  }

  predicate AllRegexSpace(ws: string) {
    forall i | 0 <= i < |ws| :: IsRegexSpace(ws[i])
  }

  /** The pieces `SplitOn(JoinCsv(urls, ws1 + "," + ws2), ',')` has: each URL
      with the spaces of its neighbouring separators. */
  function Padded(urls: seq<string>, ws1: string, ws2: string): (r: seq<string>)
    ensures |r| == |urls|
  {
    seq(|urls|, i requires 0 <= i < |urls| =>
      (if i > 0 then ws2 else "") + urls[i] + (if i + 1 < |urls| then ws1 else ""))
  }

  /** Splitting a text after a leading piece without the separator puts that
      piece in front of the first piece. */
  lemma {:induction false} SplitOnPrefix(p: string, sep: char, t: string)
    requires sep !in p
    ensures var x := SplitOn(t, sep);
      SplitOn(p + t, sep) == [p + x[0]] + x[1..]
    decreases |p|
  {
    var x := SplitOn(t, sep);
    if p == [] {
      assert p + t == t;
      assert p + x[0] == x[0];
      assert [x[0]] + x[1..] == x;
    } else {
      assert sep !in p[1..] by {
        forall c | c in p[1..] ensures c != sep {
          assert c in p;
        }
      }
      SplitOnPrefix(p[1..], sep, t);
      assert (p + t)[0] == p[0];
      assert (p + t)[1..] == p[1..] + t;
      assert [p[0]] + (p[1..] + x[0]) == p + x[0];
    }
  }

  /** The padded URLs are the first one with its trailing spaces, then the
      padded rest with spaces put in front of its first piece. */
  lemma PaddedCons(urls: seq<string>, ws1: string, ws2: string)
    requires |urls| >= 2
    ensures var p := Padded(urls[1..], ws1, ws2);
      Padded(urls, ws1, ws2) == [urls[0] + ws1] + ([ws2 + p[0]] + p[1..])
  {
    var rest := urls[1..];
    var p := Padded(rest, ws1, ws2);
    var q := Padded(urls, ws1, ws2);
    var r := [urls[0] + ws1] + ([ws2 + p[0]] + p[1..]);
    forall i | 0 <= i < |urls| ensures r[i] == q[i] {
      if i == 1 {
        assert p[0] == rest[0] + (if 1 < |rest| then ws1 else "");
      } else if i > 1 {
        assert r[i] == p[i - 1];
        assert rest[i - 1] == urls[i];
      }
    }
  }

  /** Joined URLs, the first one split off. */
  lemma JoinCons(urls: seq<string>, ws1: string, ws2: string)
    requires |urls| >= 2
    ensures JoinCsv(urls, ws1 + "," + ws2) == (urls[0] + ws1) + [','] + (ws2 + JoinCsv(urls[1..], ws1 + "," + ws2))
    ensures JoinCsv(urls, ws1 + "," + ws2)[|urls[0]| + |ws1|] == ','
  {
  }

  predicate NoComma(ws: string) {
    forall i | 0 <= i < |ws| :: ws[i] != ','
  }

  /** The comma split of joined URLs is the padded URLs. */
  lemma {:induction false} SplitJoined(urls: seq<string>, ws1: string, ws2: string)
    requires |urls| >= 1
    requires forall i | 0 <= i < |urls| :: ',' !in urls[i]
    requires NoComma(ws1) && NoComma(ws2)
    ensures SplitOn(JoinCsv(urls, ws1 + "," + ws2), ',') == Padded(urls, ws1, ws2)
    decreases |urls|
  {
    if |urls| == 1 {
      SplitOnWithout(urls[0], ',');
      assert Padded(urls, ws1, ws2)[0] == urls[0];
    } else {
      var u := urls[0];
      var j := JoinCsv(urls[1..], ws1 + "," + ws2);
      SplitJoined(urls[1..], ws1, ws2);
      JoinCons(urls, ws1, ws2);
      assert ',' !in u + ws1 by {
        assert forall i | 0 <= i < |u + ws1| :: (u + ws1)[i] != ',' by {
          assert forall i | 0 <= i < |u| :: u[i] in u;
        }
      }
      assert ',' !in ws2 by {
        assert forall i | 0 <= i < |ws2| :: ws2[i] != ',';
      }
      SplitOnFirst(u + ws1, ',', ws2 + j);
      SplitOnPrefix(ws2, ',', j);
      PaddedCons(urls, ws1, ws2);
    }
  }

  /** Taking the padding off a piece gives back the URL. */
  lemma UnpadPiece(urls: seq<string>, ws1: string, ws2: string, i: nat)
    requires 0 <= i < |urls| && PlainUrl(urls[i])
    requires AllRegexSpace(ws1) && AllRegexSpace(ws2)
    ensures CsvPiece(Padded(urls, ws1, ws2)[i], i, |urls|) == urls[i]
  {
    var u := urls[i];
    var pre := if i > 0 then ws2 else "";
    var tail := if i + 1 < |urls| then ws1 else "";
    assert Padded(urls, ws1, ws2)[i] == pre + u + tail;
    UnpadOne(u, pre, tail, i, |urls|);
  }

  /** One piece: the spaces in front go when it is not the first, the spaces
      behind go when it is not the last. */
  lemma UnpadOne(u: string, pre: string, tail: string, i: nat, n: nat)
    requires u != [] && !IsRegexSpace(u[0]) && !IsRegexSpace(u[|u| - 1])
    requires AllRegexSpace(pre) && AllRegexSpace(tail)
    requires i > 0 || pre == []
    requires i + 1 < n || tail == []
    ensures CsvPiece(pre + u + tail, i, n) == u
  {
    var rest := u + tail;
    assert pre + u + tail == pre + rest;
    assert rest[0] == u[0];
    FrontOff(pre, rest, i);
    BackOff(u, tail, i, n);
  }

  lemma FrontOff(pre: string, rest: string, i: nat)
    requires AllRegexSpace(pre) && (i > 0 || pre == [])
    requires rest == [] || !IsRegexSpace(rest[0])
    ensures (if i > 0 then SkipRegexSpace(pre + rest) else pre + rest) == rest
  {
    if i > 0 {
      SkipSpacesBefore(pre, rest);
    } else {
      assert pre + rest == rest;
    }
  }

  lemma BackOff(u: string, tail: string, i: nat, n: nat)
    requires AllRegexSpace(tail) && (i + 1 < n || tail == [])
    requires u == [] || !IsRegexSpace(u[|u| - 1])
    ensures (if i + 1 < n then DropRegexSpace(u + tail) else u + tail) == u
  {
    if i + 1 < n {
      DropSpacesAfter(u, tail);
    } else {
      assert u + tail == u;
    }
  }

  /** Configured URLs read back as themselves: splitting URLs joined by a
      comma with any spaces around it gives the URLs, in order. */
  lemma CsvRoundTrip(urls: seq<string>, ws1: string, ws2: string)
    requires |urls| >= 1 && forall i | 0 <= i < |urls| :: PlainUrl(urls[i])
    requires AllRegexSpace(ws1) && AllRegexSpace(ws2)
    ensures SplitCsv(JoinCsv(urls, ws1 + "," + ws2)) == urls
  {
    var s := JoinCsv(urls, ws1 + "," + ws2);
    if |urls| == 1 {
      assert s == urls[0];
    } else {
      JoinCons(urls, ws1, ws2);
      assert ',' in s;
      assert NoComma(ws1) && NoComma(ws2);
      SplitJoined(urls, ws1, ws2);
      UnpadAll(urls, ws1, ws2);
      assert urls[|urls| - 1] != "";
    }
  }

  lemma UnpadAll(urls: seq<string>, ws1: string, ws2: string)
    requires forall i | 0 <= i < |urls| :: PlainUrl(urls[i])
    requires AllRegexSpace(ws1) && AllRegexSpace(ws2)
    ensures CsvPieces(Padded(urls, ws1, ws2)) == urls
  {
    var pieces := CsvPieces(Padded(urls, ws1, ws2));
    forall i | 0 <= i < |urls| ensures pieces[i] == urls[i] {
      UnpadPiece(urls, ws1, ws2, i);
    }
  }

  /** A blank text holds no comma, so it is its own single piece, which the
      filter drops. */
  lemma BlankCsv(s: string)
    requires IsBlank(s)
    ensures NonBlank(SplitCsv(s)) == []
  {
    assert ',' !in s by {
      assert forall i | 0 <= i < |s| :: s[i] != ',' by {
        assert forall i | 0 <= i < |s| :: IsJavaWhitespace(s[i]);
      }
    }
    assert [s][..0] == [];
  }

  // ---------------------------------------------------------------------
  // ICE servers
  // ---------------------------------------------------------------------

  datatype TurnCredentials = TurnCredentials(username: string, credential: string)

  /** One entry of the list: its URLs and, for the TURN entry, the
      credentials. */
  datatype IceServer = IceServer(urls: seq<string>, credentials: Option<TurnCredentials>)

  /** The `stun.urls`, `turn.urls`, `turn.username` and `turn.password`
      settings; the last three default to the empty text. */
  datatype IceConfig = IceConfig(stunUrlsCsv: string, turnUrlsCsv: string, turnUser: string, turnPass: string)

  /** One STUN entry per URL, in order. The contract only fixes the shape;
      `ConfiguredUrlsListed` states which URLs the controller lists. */
  function StunServers(urls: seq<string>): (r: seq<IceServer>)
    ensures |r| == |urls| && forall i | 0 <= i < |urls| :: r[i] == IceServer([urls[i]], None)
  {
    seq(|urls|, i requires 0 <= i < |urls| => IceServer([urls[i]], None))
  }

  /** The TURN URLs named in the configuration. */
  function TurnUrls(cfg: IceConfig): seq<string> {
    NonBlank(SplitCsv(cfg.turnUrlsCsv))
  }

  /** TURN is offered only with URLs, a user and a password all given and at
      least one URL left after dropping the blank ones. */
  predicate TurnConfigured(cfg: IceConfig) {
    !IsBlank(cfg.turnUrlsCsv) && !IsBlank(cfg.turnUser) && !IsBlank(cfg.turnPass) && TurnUrls(cfg) != []
  }

  /** The servers `ice-servers` lists: a STUN entry per non-blank STUN URL,
      then at most one TURN entry with all TURN URLs and the credentials. */
  function IceServerList(cfg: IceConfig): seq<IceServer> {
    StunServers(NonBlank(SplitCsv(cfg.stunUrlsCsv)))
      + (if TurnConfigured(cfg)
         then [IceServer(TurnUrls(cfg), Some(TurnCredentials(cfg.turnUser, cfg.turnPass)))]
         else [])
  }

  /** Only the last entry carries credentials, and only when TURN is fully
      configured; every other entry is one non-blank STUN URL. */
  lemma CredentialsOnlyForTurn(cfg: IceConfig)
    ensures var list := IceServerList(cfg);
      && (forall i | 0 <= i < |list| ::
            list[i].credentials.Some? <==> (TurnConfigured(cfg) && i == |list| - 1))
      && (forall i | 0 <= i < |list| && list[i].credentials.None? ::
            |list[i].urls| == 1 && !IsBlank(list[i].urls[0]))
      && (TurnConfigured(cfg) ==>
            list[|list| - 1] == IceServer(TurnUrls(cfg), Some(TurnCredentials(cfg.turnUser, cfg.turnPass))))
  {
    var stun := StunServers(NonBlank(SplitCsv(cfg.stunUrlsCsv)));
    var list := IceServerList(cfg);
    assert forall i | 0 <= i < |stun| :: list[i] == stun[i];
  }

  /** A configuration whose STUN and TURN URL settings are blank yields an
      empty list, whatever the credentials. */
  lemma BlankConfigurationListsNothing(cfg: IceConfig)
    requires IsBlank(cfg.stunUrlsCsv) && IsBlank(cfg.turnUrlsCsv)
    ensures IceServerList(cfg) == []
  {
    BlankCsv(cfg.stunUrlsCsv);
  }

  /** A list of non-blank pieces filters to itself. */
  lemma {:induction false} NonBlankKeeps(ps: seq<string>)
    requires forall i | 0 <= i < |ps| :: !IsBlank(ps[i])
    ensures NonBlank(ps) == ps
    decreases |ps|
  {
    if ps != [] {
      NonBlankKeeps(ps[..|ps| - 1]);
      assert ps[..|ps| - 1] + [ps[|ps| - 1]] == ps;
    }
  }

  /** The URLs of a configured list come back one entry each; the TURN
      entry holds the TURN URLs in their configured order. */
  lemma ConfiguredUrlsListed(stun: seq<string>, turn: seq<string>, user: string, pass: string, ws1: string, ws2: string)
    requires |stun| >= 1 && forall i | 0 <= i < |stun| :: PlainUrl(stun[i])
    requires |turn| >= 1 && forall i | 0 <= i < |turn| :: PlainUrl(turn[i])
    requires AllRegexSpace(ws1) && AllRegexSpace(ws2)
    requires !IsBlank(user) && !IsBlank(pass)
    ensures IceServerList(IceConfig(JoinCsv(stun, ws1 + "," + ws2), JoinCsv(turn, ws1 + "," + ws2), user, pass))
         == StunServers(stun) + [IceServer(turn, Some(TurnCredentials(user, pass)))]
  {
    ConfiguredUrls(stun, ws1, ws2);
    ConfiguredUrls(turn, ws1, ws2);
  }

  /** Joined plain URLs are not blank and read back as the URLs. */
  lemma ConfiguredUrls(urls: seq<string>, ws1: string, ws2: string)
    requires |urls| >= 1 && forall i | 0 <= i < |urls| :: PlainUrl(urls[i])
    requires AllRegexSpace(ws1) && AllRegexSpace(ws2)
    ensures !IsBlank(JoinCsv(urls, ws1 + "," + ws2))
    ensures NonBlank(SplitCsv(JoinCsv(urls, ws1 + "," + ws2))) == urls
  {
    CsvRoundTrip(urls, ws1, ws2);
    PlainIsNotBlank(urls);
    NonBlankKeeps(urls);
    JoinStarts(urls, ws1 + "," + ws2);
  }

  /** Joined URLs start with the first URL's first character. */
  lemma JoinStarts(urls: seq<string>, sep: string)
    requires |urls| >= 1 && urls[0] != []
    ensures JoinCsv(urls, sep) != [] && JoinCsv(urls, sep)[0] == urls[0][0]
  {
  }

  lemma PlainIsNotBlank(urls: seq<string>)
    requires forall i | 0 <= i < |urls| :: PlainUrl(urls[i])
    ensures forall i | 0 <= i < |urls| :: !IsBlank(urls[i])
  {
  }

  /** Filtering one more piece. */
  lemma NonBlankSnoc(ps: seq<string>, i: nat)
    requires i < |ps|
    ensures NonBlank(ps[..i + 1]) == NonBlank(ps[..i]) + (if IsBlank(ps[i]) then [] else [ps[i]])
  {
    assert ps[..i + 1][..i] == ps[..i];
  }

  /** One more STUN URL, one more entry at the end. */
  lemma StunServersSnoc(urls: seq<string>, u: string)
    ensures StunServers(urls + [u]) == StunServers(urls) + [IceServer([u], None)]
  {
  }

  // ---------------------------------------------------------------------
  // Bodies of the other endpoints
  // ---------------------------------------------------------------------

  /** The lifetime `POST /session` announces: 70 minutes, in seconds. */
  const TTL_SECONDS: int := 60 * 70

  /** The `POST /session` body: `sessionId`, `reservationId`, `ttlSeconds`. */
  datatype SessionCreated = SessionCreated(sessionId: string, reservationId: string, ttlSeconds: int)

  /** The `GET /metrics` body: `p95_ms`, `p99_ms`, `successRate5m`,
      `samples`. */
  datatype MetricsBody = MetricsBody(p95Ms: int, p99Ms: int, successRate5m: real, samples: nat)

  const OK: int := 200
  const NOT_FOUND: int := 404

  /** `POST /{sessionId}/end` on the service state: 404 when no session has
      that id; otherwise the session is ended and saved, and the answer is
      200, or the save's exception. */
  function EndRequest(s: CS.ServiceState, sessionId: string, now: int, fault: Option<Fault>)
    : (CS.ServiceState, Outcome<int>)
  {
    if sessionId !in s.store.docs then (s, Done(NOT_FOUND))
    else
      var (st1, err) := CS.SaveResult(s.store, CS.Ended(s.store.docs[sessionId], now), fault);
      if err.Some? then (CS.ServiceState(st1, s.concurrentCalls), Thrown(err.value))
      else (CS.ServiceState(st1, s.concurrentCalls - 1), Done(OK))
  }

  /** Ending answers 404 exactly for an unknown id and then changes nothing.
      A known session, without a store fault, is always ended: it stays
      under its id, now ENDED at `now`, nothing else in the store changes,
      and the live-call counter drops by one. A store fault changes
      nothing. */
  lemma EndRequestSpec(s: CS.ServiceState, sessionId: string, now: int, fault: Option<Fault>)
    requires CS.StoreInvariant(s.store)
    ensures var (s1, r) := EndRequest(s, sessionId, now, fault);
      && CS.StoreInvariant(s1.store)
      && (r == Done(NOT_FOUND) <==> sessionId !in s.store.docs)
      && (r == Done(NOT_FOUND) ==> s1 == s)
      && (r.Thrown? ==> s1 == s && fault == Some(r.fault))
      && (sessionId in s.store.docs && fault.None? ==>
            && r == Done(OK)
            && s1.store.docs == s.store.docs[sessionId := CS.Ended(s.store.docs[sessionId], now)]
            && s1.store.order == s.store.order
            && s1.store.docs[sessionId].status == ENDED
            && s1.store.docs[sessionId].endedAt == Some(now)
            && s1.concurrentCalls == s.concurrentCalls - 1)
  {
    if sessionId in s.store.docs {
      var d := CS.Ended(s.store.docs[sessionId], now);
      assert d.sessionId == sessionId && d.reservationId == s.store.docs[sessionId].reservationId;
      CS.SaveStores(s.store, d, fault);
    }
  }

  /** Nothing stops a session from being ended twice: the second request
      finds the ENDED session, ends it again and lowers the live-call
      counter a second time. */
  lemma EndTwiceCountsTwice(s: CS.ServiceState, sessionId: string, t1: int, t2: int)
    requires CS.StoreInvariant(s.store) && sessionId in s.store.docs
    ensures var (s1, r1) := EndRequest(s, sessionId, t1, None);
      var (s2, r2) := EndRequest(s1, sessionId, t2, None);
      r1 == Done(OK) && r2 == Done(OK) && s2.concurrentCalls == s.concurrentCalls - 2
  {
    EndRequestSpec(s, sessionId, t1, None);
    var (s1, r1) := EndRequest(s, sessionId, t1, None);
    EndRequestSpec(s1, sessionId, t2, None);
  }

  /** The metrics body renames the snapshot's fields. */
  function MetricsOf(snap: QM.MetricsSnapshot): MetricsBody {
    MetricsBody(snap.p95ms, snap.p99ms, snap.successRate, snap.samples)
  }

  /** The controller, with the session service and the ICE settings it is
      configured with. */
  class CallController {
    const callService: CS.CallSessionService
    const config: IceConfig

    constructor (callService: CS.CallSessionService, config: IceConfig)
      ensures this.callService == callService && this.config == config
    {
      this.callService := callService;
      this.config := config;
    }

    /** `POST /session` with the body's `reservationId`, at `now`, `newId`
      being the next ULID and `fault` the store's fault, if any. */
    method CreateSession(req: map<string, string>, newId: string, now: int, fault: Option<Fault>)
      returns (r: Outcome<SessionCreated>)
      requires callService.Valid() && "reservationId" in req
      modifies callService, callService.repo
      ensures callService.Valid()
      ensures var rid := req["reservationId"];
        var (s1, out) := CS.CreateStep(old(callService.State()), callService.maxMinutes, rid, newId, now, fault);
        && callService.State() == s1
        && (r.Done? <==> out.Done?)
        && (r.Done? ==> r.value == SessionCreated(out.value.sessionId, rid, TTL_SECONDS))
        && (r.Thrown? ==> r.fault == out.fault)
    {
      var rid := req["reservationId"];
      CS.CreateSpec(callService.State(), callService.maxMinutes, rid, newId, now, fault);
      var created := callService.Create(rid, newId, now, fault);
      match created
      case Thrown(f) =>
        r := Thrown(f);
      case Done(cs) =>
        r := Done(SessionCreated(cs.sessionId, cs.reservationId, TTL_SECONDS));
    }

    /** `POST /{sessionId}/end` at `now`. */
    method End(sessionId: string, now: int, fault: Option<Fault>) returns (r: Outcome<int>)
      requires callService.Valid()
      modifies callService, callService.repo
      ensures callService.Valid()
      ensures (callService.State(), r) == EndRequest(old(callService.State()), sessionId, now, fault)
    {
      var found := callService.FindBySessionId(sessionId);
      if found.None? {
        return Done(NOT_FOUND);
      }
      var cs := found.value;
      var err := callService.End(cs, now, fault);
      if err.Some? {
        return Thrown(err.value);
      }
      r := Done(OK);
    }

    /** `GET /ice-servers`, before rendering to JSON. */
    method IceServers() returns (list: seq<IceServer>)
      ensures list == IceServerList(config)
    {
      list := [];
      var pieces := SplitCsv(config.stunUrlsCsv);
      for i := 0 to |pieces|
        invariant list == StunServers(NonBlank(pieces[..i]))
      {
        NonBlankSnoc(pieces, i);
        if !IsBlank(pieces[i]) {
          StunServersSnoc(NonBlank(pieces[..i]), pieces[i]);
          list := list + [IceServer([pieces[i]], None)];
        }
      }
      assert pieces[..|pieces|] == pieces;
      if !IsBlank(config.turnUrlsCsv) && !IsBlank(config.turnUser) && !IsBlank(config.turnPass) {
        var urls := NonBlank(SplitCsv(config.turnUrlsCsv));
        if urls != [] {
          list := list + [IceServer(urls, Some(TurnCredentials(config.turnUser, config.turnPass)))];
        }
      }
    }

    /** `GET /metrics` at `now`: the service's snapshot under the body's
      field names. */
    method Metrics(now: int) returns (m: MetricsBody)
      modifies callService.qualityMetrics
      ensures callService.qualityMetrics.State() == QM.Evicted(old(callService.qualityMetrics.State()), now)
      ensures m == MetricsOf(QM.SnapshotOf(callService.qualityMetrics.State(), now))
      ensures 0.0 <= m.successRate5m <= 1.0
    {
      var snap := callService.Snapshot(now);
      m := MetricsOf(snap);
    }
  }

  /** The configuration of the controller's tests: two STUN URLs and a TURN
      entry with both TURN URLs and the credentials. */
  function TestConfig(): IceConfig {
    IceConfig("stun:stun1,stun:stun2", "turn:turn1,turn:turn2", "user1", "secret")
  }

  /** Under the test configuration, `GET /ice-servers` lists each STUN URL
      on its own and then one TURN entry with both URLs and the
      credentials. */
  lemma TwoStunAndTurn()
    ensures IceServerList(TestConfig())
         == [IceServer(["stun:stun1"], None), IceServer(["stun:stun2"], None),
             IceServer(["turn:turn1", "turn:turn2"], Some(TurnCredentials("user1", "secret")))]
  {
    var stun := ["stun:stun1", "stun:stun2"];
    var turn := ["turn:turn1", "turn:turn2"];
    TestConfigJoined();
    TestSettingsPlain();
    ConfiguredUrlsListed(stun, turn, "user1", "secret", "", "");
    TestStunServers();
  }

  /** Worked-example helper: the example configuration is the two URL
      lists joined with commas. */
  lemma TestConfigJoined()
    ensures TestConfig() == IceConfig(JoinCsv(["stun:stun1", "stun:stun2"], "" + "," + ""),
                                      JoinCsv(["turn:turn1", "turn:turn2"], "" + "," + ""), "user1", "secret")
  {
    var sep := "" + "," + "";
    assert sep == ",";
    JoinTwo("stun:stun1", "stun:stun2", sep);
    JoinTwo("turn:turn1", "turn:turn2", sep);
  }

  /** Worked example: the two STUN URLs of the example configuration give
      two single-URL entries. */
  lemma TestStunServers()
    ensures StunServers(["stun:stun1", "stun:stun2"]) == [IceServer(["stun:stun1"], None), IceServer(["stun:stun2"], None)]
  {
  }

  /** Worked-example helper: joining two URLs. */
  lemma JoinTwo(u1: string, u2: string, sep: string)
    ensures JoinCsv([u1, u2], sep) == u1 + sep + u2
  {
    assert [u1, u2][1..] == [u2];
  }

  /** Worked-example helper: the example URLs are plain. */
  lemma TestSettingsPlain()
    ensures var stun := ["stun:stun1", "stun:stun2"];
      forall i | 0 <= i < |stun| :: PlainUrl(stun[i])
    ensures var turn := ["turn:turn1", "turn:turn2"];
      forall i | 0 <= i < |turn| :: PlainUrl(turn[i])
    ensures !IsBlank("user1") && !IsBlank("secret")
  {
    assert PlainUrl("stun:stun1") && PlainUrl("stun:stun2");
    assert PlainUrl("turn:turn1") && PlainUrl("turn:turn2");
    assert !IsJavaWhitespace("user1"[0]) && !IsJavaWhitespace("secret"[0]);
  }

  /** Blank TURN settings leave only the STUN entry. */
  lemma StunOnly()
    ensures IceServerList(IceConfig("stun:only", "   ", "   ", "   ")) == [IceServer(["stun:only"], None)]
  {
    assert ',' !in "stun:only";
    assert !IsBlank("stun:only") by { assert !IsJavaWhitespace("stun:only"[0]); }
    assert NonBlank(["stun:only"]) == ["stun:only"] by { NonBlankKeeps(["stun:only"]); }
    assert SplitCsv("stun:only") == ["stun:only"];
    assert !TurnConfigured(IceConfig("stun:only", "   ", "   ", "   ")) by {
      assert IsBlank("   ");
    }
    assert StunServers(["stun:only"]) == [IceServer(["stun:only"], None)];
  }
}
