/** The signalling endpoint (CallWebSocketHandler.java with
    MessageEnvelope.java): it admits each text message through a
    per-connection rate limiter, parses it as an envelope, and dispatches on
    its type: JOIN enters a room of at most two, OFFER, ANSWER and
    ICE_CANDIDATE are relayed to the room, RTC_CONNECTED and LEAVE/END
    update the stored session before relaying, HEARTBEAT does nothing. Any
    exception becomes an ERROR envelope and a 1011 close.

    The WebSocket container is the `Transport`: a map from connection id to
    what the connection holds (open flag, attributes, the envelopes sent to
    it, the close codes it received). JSON (de)serialisation, the clock, ULID
    generation, the reservations service and the backend's failures are
    inputs of each event. Each event is specified by a function from the
    whole observable state (`World`) to the next one. */
module Signalling {
  import opened Common
  import Domain
  import CS = CallSessions
  import QM = QualityMetrics
  import Reg = SessionRegistry
  import PubSub
  import RL = RateLimiter
  import Elig = Eligibility

  type ConnId = Reg.ConnId

  /** Close codes of section 7.4.1 of RFC 6455. */
  const NOT_ACCEPTABLE: int := 1003
  const POLICY_VIOLATION: int := 1008
  const SERVER_ERROR: int := 1011

  /** The wire envelope; every reference field may be null. `kind` is the
      JSON field `type`. */
  datatype MessageEnvelope = MessageEnvelope(
    kind: Option<string>,
    sessionId: Option<string>,
    reservationId: Option<string>,
    from: Option<string>,
    to: Option<string>,
    payload: Json,
    ts: int,
    traceId: Option<string>)

  /** One WebSocket connection as the container holds it. */
  datatype Conn = Conn(open: bool, attributes: map<string, string>, sent: seq<MessageEnvelope>, closes: seq<int>)

  type Conns = map<ConnId, Conn>

  /** A text attribute of a connection, null when absent. */
  function Attr(c: Conn, key: string): Option<string> {
    if key in c.attributes then Some(c.attributes[key]) else None
  }

  /** `String.valueOf(attributes.get("userId"))`: "null" when absent. */
  function UserOf(c: Conn): string {
    JavaText(Attr(c, "userId"))
  }

  function Sent(conns: Conns, id: ConnId, m: MessageEnvelope): (r: Conns)
    requires id in conns
    ensures r.Keys == conns.Keys && SameAttributes(conns, r)
  {
    conns[id := conns[id].(sent := conns[id].sent + [m])]
  }

  function Closed(conns: Conns, id: ConnId, code: int): (r: Conns)
    requires id in conns
    ensures r.Keys == conns.Keys && SameAttributes(conns, r)
  {
    conns[id := conns[id].(open := false, closes := conns[id].closes + [code])]
  }

  /** The container's own end of a session: the peer went away (or a close
      completed), so the session is no longer open. No close code is sent
      by the handler. */
  function Dropped(conns: Conns, id: ConnId): (r: Conns)
    requires id in conns
    ensures r.Keys == conns.Keys && SameAttributes(conns, r)
    ensures !r[id].open && r[id].sent == conns[id].sent && r[id].closes == conns[id].closes
    ensures forall c | c in conns && c != id :: r[c] == conns[c]
  {
    conns[id := conns[id].(open := false)]
  }

  function WithAttribute(conns: Conns, id: ConnId, key: string, value: string): (r: Conns)
    requires id in conns
    ensures r.Keys == conns.Keys
  {
    conns[id := conns[id].(attributes := conns[id].attributes[key := value])]
  }

  /** Same connections, same attributes: what sending and closing keep. */
  predicate SameAttributes(conns: Conns, conns': Conns) {
    conns'.Keys == conns.Keys && forall c | c in conns :: conns'[c].attributes == conns[c].attributes
  }

  /** One copy of `m` to every open connection among `targets`. */
  function Deliver(conns: Conns, targets: set<ConnId>, m: MessageEnvelope): (r: Conns)
    ensures r.Keys == conns.Keys && SameAttributes(conns, r)
    ensures forall c | c in conns :: r[c].open == conns[c].open
  {
    map c | c in conns :: if c in targets && conns[c].open then conns[c].(sent := conns[c].sent + [m]) else conns[c]
  }

  /** The container: sessions are opened by the handshake, and sending and
      closing change them in place. */
  class Transport {
    var conns: Conns

    constructor ()
      ensures conns == map[]
    {
      conns := map[];
    }

    /** A handshake completes with the attributes it put on the session. */
    method Open(id: ConnId, attributes: map<string, string>)
      requires id !in conns
      modifies this
      ensures conns == old(conns)[id := Conn(true, attributes, [], [])]
    {
      conns := conns[id := Conn(true, attributes, [], [])];
    }

    method Send(id: ConnId, m: MessageEnvelope)
      requires id in conns
      modifies this
      ensures conns == Sent(old(conns), id, m)
    {
      conns := Sent(conns, id, m);
    }

    method Close(id: ConnId, code: int)
      requires id in conns
      modifies this
      ensures conns == Closed(old(conns), id, code)
    {
      conns := Closed(conns, id, code);
    }

    /** The peer closes the connection, or the container ends it. */
    method Drop(id: ConnId)
      requires id in conns
      modifies this
      ensures conns == Dropped(old(conns), id)
    {
      conns := Dropped(conns, id);
    }

    method PutAttribute(id: ConnId, key: string, value: string)
      requires id in conns
      modifies this
      ensures conns == WithAttribute(old(conns), id, key, value)
    {
      conns := WithAttribute(conns, id, key, value);
    }
  }

  /** The callback subscribed for a room: it sends the payload to every open
      connection registered in the room at the time of delivery. */
  datatype RoomFanout = RoomFanout(room: Reg.RoomId)

  type Bridge = PubSub.BridgeState<RoomFanout, MessageEnvelope>

  /** The connections registered in a room. */
  function Members(rooms: Reg.Rooms, room: Reg.RoomId): set<ConnId> {
    Reg.Room(rooms, room).Values
  }

  /** Run the invoked callbacks in order. */
  function FanoutAll(conns: Conns, rooms: Reg.Rooms, subs: seq<RoomFanout>, m: MessageEnvelope): (r: Conns)
    ensures r.Keys == conns.Keys && SameAttributes(conns, r)
    ensures forall c | c in conns :: r[c].open == conns[c].open
    decreases |subs|
  {
    if subs == [] then conns
    else Deliver(FanoutAll(conns, rooms, subs[..|subs| - 1], m), Members(rooms, subs[|subs| - 1].room), m)
  }

  /** The room channel of a session id; a null id gives "call:null". */
  function Channel(sessionId: string): PubSub.Channel {
    "call:" + sessionId
  }

  /** Everything a message or a close can change. */
  datatype World = World(
    windows: map<ConnId, RL.Window>,
    rooms: Reg.Rooms,
    service: CS.ServiceState,
    metrics: QM.MetricsState,
    bridge: Bridge,
    conns: Conns)

  /** The handler's configuration; `nullTypeMessage` is the message of the
      NullPointerException a switch on a null type raises. */
  datatype Config = Config(rateLimit: int, maxMinutes: int, reservationsUrl: string, nullTypeMessage: Option<string>)

  /** What the outside world decides during one message: the clock (one
      reading), the JSON parser, the ULIDs drawn, the store's and the
      reservations service's answers and the backend's failures. */
  datatype Inputs = Inputs(
    nowMs: int,
    parse: string -> Outcome<MessageEnvelope>,
    traceId: string,
    errorTraceId: string,
    newSessionId: string,
    storeFault: Option<Fault>,
    reservations: Elig.Request -> Elig.Reply,
    listenerFails: bool,
    sendFails: bool)

  /** `bridge.publish(ch, m)`: the backend send, then the room callbacks. */
  function Published(w: World, ch: PubSub.Channel, m: MessageEnvelope, sendFails: bool): (r: World)
    ensures r.conns.Keys == w.conns.Keys && SameAttributes(w.conns, r.conns)
  {
    var (b1, subs) := PubSub.PublishStep(w.bridge, ch, m, sendFails);
    w.(bridge := b1, conns := FanoutAll(w.conns, w.rooms, subs, m))
  }

  /** The ERROR envelope `sendError` builds. */
  function ErrorMessage(msg: string, nowMs: int, traceId: string): MessageEnvelope {
    MessageEnvelope(Some("ERROR"), None, None, None, None, JObject(map["message" := JText(msg)]), nowMs, Some(traceId))
  }

  /** The text reported for an exception: its simple class name and its
      message, or "no message". */
  function FaultText(f: Fault): string {
    "500: " + f.className + ": " + (if f.message.Some? then f.message.value else "no message")
  }

  function ErrorSent(w: World, id: ConnId, msg: string, inp: Inputs): (r: World)
    requires id in w.conns
    ensures r.conns.Keys == w.conns.Keys && SameAttributes(w.conns, r.conns)
  {
    w.(conns := Sent(w.conns, id, ErrorMessage(msg, inp.nowMs, inp.errorTraceId)))
  }

  /** A refused JOIN: an ERROR, then a 1003 close. */
  function Refused(w: World, id: ConnId, msg: string, inp: Inputs): (r: World)
    requires id in w.conns
    ensures r.conns.Keys == w.conns.Keys && SameAttributes(w.conns, r.conns)
  {
    var w1 := ErrorSent(w, id, msg, inp);
    w1.(conns := Closed(w1.conns, id, NOT_ACCEPTABLE))
  }

  /** The exception handler: an ERROR naming the exception, then a 1011
      close when the connection is still open. */
  function Failed(w: World, id: ConnId, f: Fault, inp: Inputs): (r: World)
    requires id in w.conns
    ensures r.conns.Keys == w.conns.Keys && SameAttributes(w.conns, r.conns)
  {
    var w1 := ErrorSent(w, id, FaultText(f), inp);
    if w1.conns[id].open then w1.(conns := Closed(w1.conns, id, SERVER_ERROR)) else w1
  }

  /** The limiter step: a connection's limiter is created on its first
      message with its window at the current second. */
  function Admitted(windows: map<ConnId, RL.Window>, id: ConnId, nowSecond: int, limit: int): (map<ConnId, RL.Window>, bool) {
    var w := if id in windows then windows[id] else RL.Window(nowSecond, 0);
    var (w1, ok) := RL.Acquire(w, nowSecond, limit);
    (windows[id := w1], ok)
  }

  /** `findBySessionId(sid).orElseGet(() -> create(rid))`. */
  function FoundOrCreated(s: CS.ServiceState, maxMinutes: int, sid: string, rid: string, inp: Inputs): (CS.ServiceState, Outcome<Domain.SessionData>) {
    if sid in s.store.docs then (s, Done(s.store.docs[sid]))
    else CS.CreateStep(s, maxMinutes, rid, inp.newSessionId, inp.nowMs, inp.storeFault)
  }

  function JoinAck(room: string, env: MessageEnvelope, userId: string, initiator: bool, nowMs: int): MessageEnvelope {
    MessageEnvelope(Some("JOIN_ACK"), Some(room), env.reservationId, Some("server"), Some(userId),
                    JObject(map["initiator" := JBool(initiator)]), nowMs, env.traceId)
  }

  function PeerJoined(room: string, env: MessageEnvelope, userId: string, nowMs: int): MessageEnvelope {
    MessageEnvelope(Some("PEER_JOINED"), Some(room), env.reservationId, Some(userId), None, JNull, nowMs, None)
  }

  function PeerLeft(room: string, userId: string, nowMs: int): MessageEnvelope {
    MessageEnvelope(Some("PEER_LEFT"), Some(room), None, Some(userId), None, JNull, nowMs, None)
  }

  /** A JOIN that passed every check: register the connection under its
      user, tag the connection with the room and the user, and subscribe a
      callback for the room (one more on every JOIN). */
  function Joined(w: World, id: ConnId, room: string, userId: string, inp: Inputs): (r: World)
    requires id in w.conns
    ensures r.conns.Keys == w.conns.Keys
  {
    w.(rooms := Reg.Registered(w.rooms, room, userId, id),
       conns := WithAttribute(WithAttribute(w.conns, id, "callSessionId", room), id, "callUserId", userId),
       bridge := PubSub.SubscribeStep(w.bridge, Channel(room), RoomFanout(room), inp.listenerFails))
  }

  /** The end of a JOIN once the session is known: refuse a room of two;
      otherwise join, acknowledge with the initiator flag (whether the room
      was empty) and announce the peer to the room. */
  function Entered(w: World, id: ConnId, room: string, userId: string, env: MessageEnvelope, inp: Inputs): (r: World)
    requires id in w.conns
    ensures r.conns.Keys == w.conns.Keys
  {
    var members := Reg.Room(w.rooms, room);
    if |members| >= 2 then Refused(w, id, "Room full", inp)
    else
      var w1 := Joined(w, id, room, userId, inp);
      var w2 := w1.(conns := Sent(w1.conns, id, JoinAck(room, env, userId, |members| == 0, inp.nowMs)));
      Published(w2, Channel(room), PeerJoined(room, env, userId, inp.nowMs), inp.sendFails)
  }

  /** The envelope checks of `onJoin`, in order: the message of the first
      that fails. */
  function JoinRefusal(userId: string, env: MessageEnvelope): Option<string> {
    if IsBlank(userId) then Some("Missing user identity")
    else if IsMissing(env.sessionId) then Some("Missing sessionId")
    else if IsMissing(env.reservationId) then Some("Missing reservationId")
    else None
  }

  /** `onJoin` after the envelope checks: ask the reservations service
      (with the connection's token), refuse with its reason, or find or
      create the session and enter its room. */
  function JoinChecked(cfg: Config, w: World, id: ConnId, userId: string, sid: string, rid: string,
                       env: MessageEnvelope, inp: Inputs): (r: (World, Option<Fault>))
    requires id in w.conns
    ensures r.0.conns.Keys == w.conns.Keys
  {
    var request := Elig.Request(rid, Elig.HeadersFor(Attr(w.conns[id], "token")));
    var verdict := Elig.Checked(cfg.reservationsUrl, rid, userId, inp.reservations(request));
    if verdict.Thrown? then (w, Some(verdict.fault))
    else if !verdict.value.eligible then (Refused(w, id, "403: " + JavaText(verdict.value.reason), inp), None)
    else JoinApproved(cfg, w, id, userId, sid, rid, env, inp)
  }

  /** `onJoin` for an eligible user: find or create the session and enter
      the room keyed by its id. */
  function JoinApproved(cfg: Config, w: World, id: ConnId, userId: string, sid: string, rid: string,
                        env: MessageEnvelope, inp: Inputs): (r: (World, Option<Fault>))
    requires id in w.conns
    ensures r.0.conns.Keys == w.conns.Keys
  {
    var (s1, found) := FoundOrCreated(w.service, cfg.maxMinutes, sid, rid, inp);
    if found.Thrown? then (w.(service := s1), Some(found.fault))
    else (Entered(w.(service := s1), id, found.value.sessionId, userId, env, inp), None)
  }

  /** `onJoin`: each failed check refuses with its own ERROR and a 1003
      close; an exception from the reservations service or the store is
      returned to the exception handler. */
  function JoinStep(cfg: Config, w: World, id: ConnId, env: MessageEnvelope, inp: Inputs): (r: (World, Option<Fault>))
    requires id in w.conns
    ensures r.0.conns.Keys == w.conns.Keys
  {
    var userId := UserOf(w.conns[id]);
    match JoinRefusal(userId, env)
    case Some(msg) => (Refused(w, id, msg, inp), None)
    case None => JoinChecked(cfg, w, id, userId, env.sessionId.value, env.reservationId.value, env, inp)
  }

  /** The stored session a (nullable) session id names; a null id matches
      no document. */
  function Lookup(s: CS.ServiceState, sessionId: Option<string>): Option<Domain.SessionData> {
    if sessionId.Some? && sessionId.value in s.store.docs then Some(s.store.docs[sessionId.value]) else None
  }

  /** An ICE_CANDIDATE payload whose `candidate` member is a text naming a
      relay (TURN) candidate. */
  predicate NamesRelay(payload: Json) {
    && payload.JObject?
    && "candidate" in payload.members
    && payload.members["candidate"].JText?
    && Contains(payload.members["candidate"].text, " typ relay")
  }

  /** `forwardAndInspect`: relay the envelope to the room channel. The relay
      candidate check only touches a fresh copy of the session. */
  function ForwardStep(w: World, env: MessageEnvelope, inp: Inputs): (r: World)
    ensures r.conns.Keys == w.conns.Keys
  {
    Published(w, Channel(JavaText(env.sessionId)), env, inp.sendFails)
  }

  /** `onRtcConnected`: mark the session connected and record its setup
      time when it exists, then relay; a failed save is an exception and
      nothing is relayed. */
  function RtcConnectedStep(w: World, env: MessageEnvelope, inp: Inputs): (r: (World, Option<Fault>))
    ensures r.0.conns.Keys == w.conns.Keys
  {
    var ch := Channel(JavaText(env.sessionId));
    match Lookup(w.service, env.sessionId)
    case None => (Published(w, ch, env, inp.sendFails), None)
    case Some(d0) =>
      var d := CS.Connected(d0, inp.nowMs);
      var (st1, err) := CS.SaveResult(w.service.store, d, inp.storeFault);
      var w1 := w.(service := w.service.(store := st1));
      if err.Some? then (w1, err)
      else (Published(w1.(metrics := QM.SuccessRecorded(w.metrics, d.setupMs, inp.nowMs)), ch, env, inp.sendFails), None)
  }

  /** `onEnd` (LEAVE and END alike): end the session when it exists, then
      relay; a failed save is an exception and nothing is relayed. */
  function EndStep(w: World, env: MessageEnvelope, inp: Inputs): (r: (World, Option<Fault>))
    ensures r.0.conns.Keys == w.conns.Keys
  {
    var (s1, err) := Ending(w.service, env.sessionId, inp);
    if err.Some? then (w.(service := s1), err)
    else (Published(w.(service := s1), Channel(JavaText(env.sessionId)), env, inp.sendFails), None)
  }

  /** The store half of `onEnd`: the stored session, when there is one, is
      ended and saved; only a successful save lowers the call counter. */
  function Ending(s: CS.ServiceState, sessionId: Option<string>, inp: Inputs): (CS.ServiceState, Option<Fault>) {
    match Lookup(s, sessionId)
    case None => (s, None)
    case Some(d0) =>
      var (st1, err) := CS.SaveResult(s.store, CS.Ended(d0, inp.nowMs), inp.storeFault);
      if err.Some? then (s.(store := st1), err) else (CS.ServiceState(st1, s.concurrentCalls - 1), None)
  }

  predicate IsRelayed(kind: string) {
    kind == "OFFER" || kind == "ANSWER" || kind == "ICE_CANDIDATE"
  }

  /** The switch on the envelope type. */
  function Dispatch(cfg: Config, w: World, id: ConnId, env: MessageEnvelope, inp: Inputs): (r: (World, Option<Fault>))
    requires id in w.conns
    ensures r.0.conns.Keys == w.conns.Keys
  {
    if env.kind.None? then (w, Some(Fault("NullPointerException", cfg.nullTypeMessage)))
    else if env.kind.value == "JOIN" then JoinStep(cfg, w, id, env, inp)
    else if IsRelayed(env.kind.value) then (ForwardStep(w, env, inp), None)
    else if env.kind.value == "RTC_CONNECTED" then RtcConnectedStep(w, env, inp)
    else if env.kind.value == "HEARTBEAT" then (w, None)
    else if env.kind.value == "LEAVE" || env.kind.value == "END" then EndStep(w, env, inp)
    else (ErrorSent(w, id, "Unsupported type", inp), None)
  }

  /** A missing or blank trace id is replaced by a fresh ULID. */
  function Traced(env: MessageEnvelope, traceId: string): (r: MessageEnvelope)
    ensures r.(traceId := env.traceId) == env
    ensures !IsMissing(env.traceId) ==> r == env
    ensures IsMissing(env.traceId) ==> r.traceId == Some(traceId)
  {
    if IsMissing(env.traceId) then env.(traceId := Some(traceId)) else env
  }

  /** `handleTextMessage` after the limiter let the message through: parse
      and dispatch; an exception goes to the exception handler. */
  function Processed(cfg: Config, w: World, id: ConnId, text: string, inp: Inputs): (r: World)
    requires id in w.conns
    ensures r.conns.Keys == w.conns.Keys
  {
    match inp.parse(text)
    case Thrown(f) => Failed(w, id, f, inp)
    case Done(env) =>
      var (w1, err) := Dispatch(cfg, w, id, Traced(env, inp.traceId), inp);
      if err.Some? then Failed(w1, id, err.value, inp) else w1
  }

  /** `handleTextMessage`: a message over the connection's rate limit closes
      it with 1008 and is not even parsed. */
  function HandleStep(cfg: Config, w: World, id: ConnId, text: string, inp: Inputs): (r: World)
    requires id in w.conns
    ensures r.conns.Keys == w.conns.Keys
  {
    var (windows1, ok) := Admitted(w.windows, id, inp.nowMs / 1000, cfg.rateLimit);
    var w0 := w.(windows := windows1);
    if !ok then w0.(conns := Closed(w0.conns, id, POLICY_VIOLATION)) else Processed(cfg, w0, id, text, inp)
  }

  /** `afterConnectionClosed`: the container calls it once the session is
      closed, so the connection is no longer open; a connection that joined
      then leaves its room and the room hears PEER_LEFT. */
  function ClosedStep(w: World, id: ConnId, nowMs: int, sendFails: bool): (r: World)
    requires id in w.conns
    ensures r.conns.Keys == w.conns.Keys
    ensures !r.conns[id].open
  {
    var w0 := w.(conns := Dropped(w.conns, id));
    var sid := Attr(w.conns[id], "callSessionId");
    var uid := Attr(w.conns[id], "callUserId");
    if sid.Some? && uid.Some? then
      Published(w0.(rooms := Reg.Unregistered(w.rooms, sid.value, uid.value)), Channel(sid.value),
                PeerLeft(sid.value, uid.value, nowMs), sendFails)
    else w0
  }

  /** The consistency the handler keeps between the registry and the
      container: every registered handle is a live connection entry whose
      `userId` attribute is the user it is registered under. (It makes the
      room fanout send at most one copy per connection.) */
  predicate RoomsMatch(rooms: Reg.Rooms, conns: Conns) {
    forall r, u | r in rooms && u in rooms[r] :: rooms[r][u] in conns && UserOf(conns[rooms[r][u]]) == u
  }

  lemma MatchKept(rooms: Reg.Rooms, conns: Conns, conns': Conns)
    requires RoomsMatch(rooms, conns) && SameAttributes(conns, conns')
    ensures RoomsMatch(rooms, conns')
  {
    forall r, u | r in rooms && u in rooms[r]
      ensures rooms[r][u] in conns' && UserOf(conns'[rooms[r][u]]) == u
    {
      var c := rooms[r][u];
      assert Attr(conns'[c], "userId") == Attr(conns[c], "userId");
    }
  }

  /** Registering a connection under its own user and tagging it keeps the
      match. */
  lemma MatchAfterEnter(rooms: Reg.Rooms, conns: Conns, id: ConnId, room: Reg.RoomId)
    requires RoomsMatch(rooms, conns) && id in conns
    ensures var u := UserOf(conns[id]);
      RoomsMatch(Reg.Registered(rooms, room, u, id),
                 WithAttribute(WithAttribute(conns, id, "callSessionId", room), id, "callUserId", u))
  {
    var u := UserOf(conns[id]);
    var rooms' := Reg.Registered(rooms, room, u, id);
    var conns' := WithAttribute(WithAttribute(conns, id, "callSessionId", room), id, "callUserId", u);
    forall c | c in conns
      ensures c in conns' && UserOf(conns'[c]) == UserOf(conns[c])
    {
      assert Attr(conns'[c], "userId") == Attr(conns[c], "userId");
    }
  }

  lemma MatchAfterLeave(rooms: Reg.Rooms, conns: Conns, room: Reg.RoomId, u: Reg.UserId)
    requires RoomsMatch(rooms, conns)
    ensures RoomsMatch(Reg.Unregistered(rooms, room, u), conns)
  {
  }

  /** Running one more callback is one more delivery. */
  lemma FanoutAllSnoc(conns: Conns, rooms: Reg.Rooms, subs: seq<RoomFanout>, i: nat, m: MessageEnvelope)
    requires i < |subs|
    ensures FanoutAll(conns, rooms, subs[..i + 1], m) ==
      Deliver(FanoutAll(conns, rooms, subs[..i], m), Members(rooms, subs[i].room), m)
  {
    assert subs[..i + 1][..i] == subs[..i];
  }

  /** The members of a room whose users are among `users`. */
  function Targets(members: map<Reg.UserId, ConnId>, users: set<Reg.UserId>): set<ConnId> {
    set u | u in users && u in members :: members[u]
  }

  /** Delivering to one more member, whose connection is not yet among the
      targets, is one more send when it is open. */
  lemma DeliverOneMore(conns: Conns, members: map<Reg.UserId, ConnId>, done: set<Reg.UserId>, u: Reg.UserId, m: MessageEnvelope)
    requires u in members && members[u] in conns && u !in done
    requires forall v | v in done && v in members :: members[v] != members[u]
    ensures var before := Deliver(conns, Targets(members, done), m);
      Deliver(conns, Targets(members, done + {u}), m) ==
        if conns[members[u]].open then Sent(before, members[u], m) else before
  {
    var c := members[u];
    assert Targets(members, done + {u}) == Targets(members, done) + {c};
  }

  /** The handler. Its collaborators are fixed at construction; the limiter
      table grows in place, one limiter per connection that ever sent. */
  class CallWebSocketHandler {
    const registry: Reg.SessionRegistry
    const callService: CS.CallSessionService
    const bridge: PubSub.PubSubBridge<RoomFanout, MessageEnvelope>
    const transport: Transport
    const reservationsUrl: string
    const heartbeatSeconds: int
    const idleTimeoutSeconds: int
    const rateLimit: int
    const nullTypeMessage: Option<string>
    var limiters: map<ConnId, RL.SimpleRateLimiter>
    /** The limiters' windows, kept beside the limiter objects. */
    ghost var windows: map<ConnId, RL.Window>

    ghost predicate LimitersValid()
      reads this, limiters.Values
    {
      && windows.Keys == limiters.Keys
      && (forall c | c in limiters ::
            limiters[c].Valid() && limiters[c].limitPerSecond == rateLimit && windows[c] == limiters[c].State())
      && (forall c, d | c in limiters && d in limiters && c != d :: limiters[c] != limiters[d])
    }

    ghost predicate Valid()
      reads registry, callService, callService.repo, bridge, transport
    {
      && callService.Valid()
      && bridge.Valid()
      && RoomsMatch(registry.sessions, transport.conns)
    }

    ghost function State(): World
      reads this, registry, callService, callService.repo, callService.qualityMetrics, bridge, transport
    {
      World(windows, registry.sessions, callService.State(), callService.qualityMetrics.State(), bridge.State(), transport.conns)
    }

    function Cfg(): Config {
      Config(rateLimit, callService.maxMinutes, reservationsUrl, nullTypeMessage)
    }

    constructor (registry: Reg.SessionRegistry, callService: CS.CallSessionService,
                 bridge: PubSub.PubSubBridge<RoomFanout, MessageEnvelope>, transport: Transport,
                 reservationsUrl: string, heartbeatSeconds: int, idleTimeoutSeconds: int, rateLimit: int,
                 nullTypeMessage: Option<string>)
      requires callService.Valid() && bridge.Valid() && RoomsMatch(registry.sessions, transport.conns)
      ensures Valid() && LimitersValid() && limiters == map[]
      ensures this.registry == registry && this.callService == callService && this.bridge == bridge
      ensures this.transport == transport && this.reservationsUrl == reservationsUrl
      ensures this.heartbeatSeconds == heartbeatSeconds && this.idleTimeoutSeconds == idleTimeoutSeconds
      ensures this.rateLimit == rateLimit && this.nullTypeMessage == nullTypeMessage
    {
      this.registry := registry;
      this.callService := callService;
      this.bridge := bridge;
      this.transport := transport;
      this.reservationsUrl := reservationsUrl;
      this.heartbeatSeconds := heartbeatSeconds;
      this.idleTimeoutSeconds := idleTimeoutSeconds;
      this.rateLimit := rateLimit;
      this.nullTypeMessage := nullTypeMessage;
      limiters := map[];
      windows := map[];
    }

    /** `computeIfAbsent` then `tryAcquire`. */
    method Admit(id: ConnId, nowSecond: int) returns (ok: bool)
      requires LimitersValid()
      modifies this, limiters.Values
      ensures LimitersValid()
      ensures (windows, ok) == Admitted(old(windows), id, nowSecond, rateLimit)
    {
      if id !in limiters {
        var created := new RL.SimpleRateLimiter(rateLimit, nowSecond);
        limiters := limiters[id := created];
        windows := windows[id := created.State()];
      }
      var l := limiters[id];
      ghost var start := l.State();
      assert start == if id in old(windows) then old(windows)[id] else RL.Window(nowSecond, 0);
      ok := l.TryAcquire(nowSecond);
      windows := windows[id := l.State()];
      assert (l.State(), ok) == RL.Acquire(start, nowSecond, rateLimit);
      assert windows == old(windows)[id := l.State()];
      assert forall c | c in limiters && c != id :: limiters[c] != l;
    }

    /** `session.sendMessage`. */
    method SendTo(id: ConnId, m: MessageEnvelope)
      requires Valid() && id in transport.conns
      modifies transport
      ensures Valid() && State() == old(State()).(conns := Sent(old(transport.conns), id, m))
    {
      transport.Send(id, m);
      MatchKept(registry.sessions, old(transport.conns), transport.conns);
    }

    /** `sendError`. */
    method SendError(id: ConnId, msg: string, inp: Inputs)
      requires Valid() && id in transport.conns
      modifies transport
      ensures Valid() && State() == ErrorSent(old(State()), id, msg, inp)
    {
      SendTo(id, ErrorMessage(msg, inp.nowMs, inp.errorTraceId));
    }

    /** A JOIN refusal: `sendError` then a 1003 close. */
    method Refuse(id: ConnId, msg: string, inp: Inputs)
      requires Valid() && id in transport.conns
      modifies transport
      ensures Valid() && State() == Refused(old(State()), id, msg, inp)
    {
      SendError(id, msg, inp);
      transport.Close(id, NOT_ACCEPTABLE);
      MatchKept(registry.sessions, old(transport.conns), transport.conns);
    }

    /** The `catch` block of `handleTextMessage`. */
    method Fail(id: ConnId, f: Fault, inp: Inputs)
      requires Valid() && id in transport.conns
      modifies transport
      ensures Valid() && State() == Failed(old(State()), id, f, inp)
    {
      SendError(id, FaultText(f), inp);
      if transport.conns[id].open {
        transport.Close(id, SERVER_ERROR);
      }
      MatchKept(registry.sessions, old(transport.conns), transport.conns);
    }

    /** The callback of a room: every open member gets one copy. */
    method Fanout(room: Reg.RoomId, m: MessageEnvelope)
      requires RoomsMatch(registry.sessions, transport.conns)
      modifies transport
      ensures transport.conns == Deliver(old(transport.conns), Members(registry.sessions, room), m)
    {
      var members := registry.Get(room);
      ghost var conns0 := transport.conns;
      var todo := members.Keys;
      ghost var done: set<Reg.UserId> := {};
      while todo != {}
        invariant todo !! done && todo + done == members.Keys
        invariant transport.conns == Deliver(conns0, Targets(members, done), m)
        decreases todo
      {
        var u :| u in todo;
        var c := members[u];
        assert registry.sessions[room][u] == c;
        DeliverOneMore(conns0, members, done, u, m);
        if transport.conns[c].open {
          transport.Send(c, m);
        }
        todo := todo - {u};
        done := done + {u};
      }
      assert Targets(members, done) == Members(registry.sessions, room);
    }

    /** `bridge.publish(ch, m)` with this handler's room callbacks. */
    method PublishOn(ch: PubSub.Channel, m: MessageEnvelope, sendFails: bool)
      requires Valid()
      modifies bridge, transport
      ensures Valid() && State() == Published(old(State()), ch, m, sendFails)
    {
      var invoked, _ := bridge.Publish(ch, m, sendFails, (s: RoomFanout) => false);
      FanoutEach(invoked, m);
    }

    /** Run the invoked room callbacks in order. */
    method FanoutEach(invoked: seq<RoomFanout>, m: MessageEnvelope)
      requires RoomsMatch(registry.sessions, transport.conns)
      modifies transport
      ensures RoomsMatch(registry.sessions, transport.conns)
      ensures transport.conns == FanoutAll(old(transport.conns), registry.sessions, invoked, m)
    {
      ghost var conns0 := transport.conns;
      var i := 0;
      while i < |invoked|
        invariant 0 <= i <= |invoked|
        invariant transport.conns == FanoutAll(conns0, registry.sessions, invoked[..i], m)
        invariant RoomsMatch(registry.sessions, transport.conns)
      {
        ghost var before := transport.conns;
        Fanout(invoked[i].room, m);
        FanoutAllSnoc(conns0, registry.sessions, invoked, i, m);
        MatchKept(registry.sessions, before, transport.conns);
        i := i + 1;
      }
      assert invoked[..|invoked|] == invoked;
    }

      /** Register, tag and subscribe for a JOIN that passed every check. */
    method Join(id: ConnId, room: Reg.RoomId, userId: string, inp: Inputs)
      requires Valid() && id in transport.conns && userId == UserOf(transport.conns[id])
      modifies registry, bridge, transport
      ensures Valid() && State() == Joined(old(State()), id, room, userId, inp)
    {
      MatchAfterEnter(registry.sessions, transport.conns, id, room);
      registry.Register(room, userId, id);
      transport.PutAttribute(id, "callSessionId", room);
      transport.PutAttribute(id, "callUserId", userId);
      bridge.Subscribe(Channel(room), RoomFanout(room), inp.listenerFails);
    }

    /** The end of `onJoin` once the session is known. */
    method Enter(id: ConnId, room: Reg.RoomId, userId: string, env: MessageEnvelope, inp: Inputs)
      requires Valid() && id in transport.conns && userId == UserOf(transport.conns[id])
      modifies registry, bridge, transport
      ensures Valid() && State() == Entered(old(State()), id, room, userId, env, inp)
    {
      var members := registry.Get(room);
      if |members| >= 2 {
        Refuse(id, "Room full", inp);
        return;
      }
      var initiator := |members| == 0;
      Join(id, room, userId, inp);
      SendTo(id, JoinAck(room, env, userId, initiator, inp.nowMs));
      PublishOn(Channel(room), PeerJoined(room, env, userId, inp.nowMs), inp.sendFails);
    }

    /** `findBySessionId(sid).orElseGet(() -> create(rid))`, reduced to the
        session id the room is keyed by. */
    method FindOrCreate(sid: string, rid: string, inp: Inputs) returns (r: Outcome<string>)
      requires callService.Valid()
      modifies callService, callService.repo
      ensures callService.Valid()
      ensures var (s1, out) := FoundOrCreated(old(callService.State()), callService.maxMinutes, sid, rid, inp);
        callService.State() == s1 && r == if out.Done? then Done(out.value.sessionId) else Thrown(out.fault)
    {
      var found := callService.FindBySessionId(sid);
      if found.Some? {
        return Done(found.value.sessionId);
      }
      var created := callService.Create(rid, inp.newSessionId, inp.nowMs, inp.storeFault);
      if created.Thrown? {
        return Thrown(created.fault);
      }
      r := Done(created.value.sessionId);
    }

    /** `onJoin` after the envelope checks. */
    method JoinEligible(id: ConnId, userId: string, sid: string, rid: string, env: MessageEnvelope, inp: Inputs)
      returns (err: Option<Fault>)
      requires Valid() && id in transport.conns && userId == UserOf(transport.conns[id])
      modifies registry, callService, callService.repo, bridge, transport
      ensures Valid() && (State(), err) == JoinChecked(Cfg(), old(State()), id, userId, sid, rid, env, inp)
    {
      var verdict := Elig.CheckReservation(reservationsUrl, rid, userId, Attr(transport.conns[id], "token"), inp.reservations);
      if verdict.Thrown? {
        return Some(verdict.fault);
      }
      if !verdict.value.eligible {
        Refuse(id, "403: " + JavaText(verdict.value.reason), inp);
        return None;
      }
      err := JoinApprovedUser(id, userId, sid, rid, env, inp);
    }

    /** `onJoin` for an eligible user. */
    method JoinApprovedUser(id: ConnId, userId: string, sid: string, rid: string, env: MessageEnvelope, inp: Inputs)
      returns (err: Option<Fault>)
      requires Valid() && id in transport.conns && userId == UserOf(transport.conns[id])
      modifies registry, callService, callService.repo, bridge, transport
      ensures Valid() && (State(), err) == JoinApproved(Cfg(), old(State()), id, userId, sid, rid, env, inp)
    {
      ghost var w0 := State();
      ghost var step := FoundOrCreated(w0.service, callService.maxMinutes, sid, rid, inp);
      var room := FindOrCreate(sid, rid, inp);
      assert State() == w0.(service := step.0);
      if room.Thrown? {
        return Some(room.fault);
      }
      Enter(id, room.value, userId, env, inp);
      err := None;
    }

    /** `onJoin`: an exception is returned in `err`. */
    method OnJoin(id: ConnId, env: MessageEnvelope, inp: Inputs) returns (err: Option<Fault>)
      requires Valid() && id in transport.conns
      modifies registry, callService, callService.repo, bridge, transport
      ensures Valid() && (State(), err) == JoinStep(Cfg(), old(State()), id, env, inp)
    {
      var userId := UserOf(transport.conns[id]);
      var refusal := JoinRefusal(userId, env);
      if refusal.Some? {
        Refuse(id, refusal.value, inp);
        return None;
      }
      err := JoinEligible(id, userId, env.sessionId.value, env.reservationId.value, env, inp);
    }

    /** `forwardAndInspect`: the relay candidate only marks a fresh copy of
        the stored session, which is never saved. */
    method ForwardAndInspect(env: MessageEnvelope, inp: Inputs)
      requires Valid()
      modifies bridge, transport
      ensures Valid() && State() == ForwardStep(old(State()), env, inp)
    {
      PublishOn(Channel(JavaText(env.sessionId)), env, inp.sendFails);
      if env.kind == Some("ICE_CANDIDATE") && NamesRelay(env.payload) && env.sessionId.Some? {
        var found := callService.FindBySessionId(env.sessionId.value);
        if found.Some? {
          found.value.SetTurnUsed(true);
        }
      }
    }

    /** `onRtcConnected`. */
    method OnRtcConnected(env: MessageEnvelope, inp: Inputs) returns (err: Option<Fault>)
      requires Valid()
      modifies callService.repo, callService.qualityMetrics, bridge, transport
      ensures Valid() && (State(), err) == RtcConnectedStep(old(State()), env, inp)
    {
      if env.sessionId.Some? {
        var found := callService.FindBySessionId(env.sessionId.value);
        if found.Some? {
          err := callService.MarkConnected(found.value, inp.nowMs, inp.storeFault);
          if err.Some? {
            return;
          }
        }
      }
      PublishOn(Channel(JavaText(env.sessionId)), env, inp.sendFails);
      err := None;
    }

    /** `onEnd`. */
    method OnEnd(env: MessageEnvelope, inp: Inputs) returns (err: Option<Fault>)
      requires Valid()
      modifies callService, callService.repo, bridge, transport
      ensures Valid() && (State(), err) == EndStep(old(State()), env, inp)
    {
      err := EndStored(env.sessionId, inp);
      if err.Some? {
        return;
      }
      PublishOn(Channel(JavaText(env.sessionId)), env, inp.sendFails);
    }

    /** The store half of `onEnd`. */
    method EndStored(sessionId: Option<string>, inp: Inputs) returns (err: Option<Fault>)
      requires callService.Valid()
      modifies callService, callService.repo
      ensures callService.Valid() && (callService.State(), err) == Ending(old(callService.State()), sessionId, inp)
    {
      err := None;
      if sessionId.Some? {
        var found := callService.FindBySessionId(sessionId.value);
        if found.Some? {
          err := callService.End(found.value, inp.nowMs, inp.storeFault);
        }
      }
    }

    /** The switch on the envelope type; an exception is returned. */
    method DispatchMessage(id: ConnId, env: MessageEnvelope, inp: Inputs) returns (err: Option<Fault>)
      requires Valid() && id in transport.conns
      modifies registry, callService, callService.repo, callService.qualityMetrics, bridge, transport
      ensures Valid() && (State(), err) == Dispatch(Cfg(), old(State()), id, env, inp)
    {
      err := None;
      if env.kind.None? {
        err := Some(Fault("NullPointerException", nullTypeMessage));
      } else if env.kind.value == "JOIN" {
        err := OnJoin(id, env, inp);
      } else if IsRelayed(env.kind.value) {
        ForwardAndInspect(env, inp);
      } else if env.kind.value == "RTC_CONNECTED" {
        err := OnRtcConnected(env, inp);
      } else if env.kind.value == "HEARTBEAT" {
      } else if env.kind.value == "LEAVE" || env.kind.value == "END" {
        err := OnEnd(env, inp);
      } else {
        SendError(id, "Unsupported type", inp);
      }
    }

    /** `handleTextMessage` on connection `id`. */
    method HandleTextMessage(id: ConnId, text: string, inp: Inputs)
      requires Valid() && LimitersValid() && id in transport.conns
      modifies this, limiters.Values, registry, callService, callService.repo, callService.qualityMetrics, bridge, transport
      ensures Valid() && LimitersValid() && State() == HandleStep(Cfg(), old(State()), id, text, inp)
    {
      ghost var w0 := State();
      var ok := Admit(id, inp.nowMs / 1000);
      assert State() == w0.(windows := windows);
      if !ok {
        CloseOverLimit(id);
      } else {
        ProcessAdmitted(id, text, inp);
      }
    }

    /** The 1008 close of a connection over its rate limit. */
    method CloseOverLimit(id: ConnId)
      requires Valid() && LimitersValid() && id in transport.conns
      modifies transport
      ensures Valid() && LimitersValid()
      ensures State() == old(State()).(conns := Closed(old(transport.conns), id, POLICY_VIOLATION))
    {
      transport.Close(id, POLICY_VIOLATION);
      MatchKept(registry.sessions, old(transport.conns), transport.conns);
    }

    /** A message the limiter let through; the limiters are left as they are. */
    method ProcessAdmitted(id: ConnId, text: string, inp: Inputs)
      requires Valid() && LimitersValid() && id in transport.conns
      modifies registry, callService, callService.repo, callService.qualityMetrics, bridge, transport
      ensures Valid() && LimitersValid() && State() == Processed(Cfg(), old(State()), id, text, inp)
    {
      Process(id, text, inp);
    }

    /** The body of `handleTextMessage` after the limiter, with its `catch`. */
    method Process(id: ConnId, text: string, inp: Inputs)
      requires Valid() && id in transport.conns
      modifies registry, callService, callService.repo, callService.qualityMetrics, bridge, transport
      ensures Valid() && State() == Processed(Cfg(), old(State()), id, text, inp)
    {
      var parsed := inp.parse(text);
      if parsed.Thrown? {
        Fail(id, parsed.fault, inp);
        return;
      }
      var err := DispatchMessage(id, Traced(parsed.value, inp.traceId), inp);
      if err.Some? {
        Fail(id, err.value, inp);
      }
    }

    /** `afterConnectionClosed` for connection `id` at `nowMs`. */
    method AfterConnectionClosed(id: ConnId, nowMs: int, sendFails: bool)
      requires Valid() && id in transport.conns
      modifies registry, bridge, transport
      ensures Valid() && State() == ClosedStep(old(State()), id, nowMs, sendFails)
    {
      var sid := Attr(transport.conns[id], "callSessionId");
      var uid := Attr(transport.conns[id], "callUserId");
      MatchKept(registry.sessions, transport.conns, Dropped(transport.conns, id));
      transport.Drop(id);
      if sid.Some? && uid.Some? {
        MatchAfterLeave(registry.sessions, transport.conns, sid.value, uid.value);
        registry.Unregister(sid.value, uid.value);
        PublishOn(Channel(sid.value), PeerLeft(sid.value, uid.value, nowMs), sendFails);
      }
    }
  }
}
