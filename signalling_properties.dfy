/** What the signalling endpoint promises, stated on the functions that
    specify its events (module Signalling): the limiter, the JOIN checks,
    rooms of at most two, the initiator flag, how often a relayed message
    arrives, the exception handler and the close handler. */
module SignallingProperties {
  import opened Common
  import Domain
  import CS = CallSessions
  import Reg = SessionRegistry
  import PubSub
  import RL = RateLimiter
  import QM = QualityMetrics
  import Elig = Eligibility
  import opened Signalling

  // ---------------------------------------------------------------- limiter

  /** A message over its connection's limit closes the connection with 1008
      and does nothing else: it is never parsed, so neither its text nor the
      parser's answer matters. */
  lemma OverLimitIsNotParsed(cfg: Config, w: World, id: ConnId, text: string, inp: Inputs,
                             text': string, parse': string -> Outcome<MessageEnvelope>)
    requires id in w.conns
    requires !Admitted(w.windows, id, inp.nowMs / 1000, cfg.rateLimit).1
    ensures var r := HandleStep(cfg, w, id, text, inp);
      && r == HandleStep(cfg, w, id, text', inp.(parse := parse'))
      && r.rooms == w.rooms && r.service == w.service && r.metrics == w.metrics && r.bridge == w.bridge
      && r.conns == w.conns[id := w.conns[id].(open := false, closes := w.conns[id].closes + [POLICY_VIOLATION])]
  {
  }

  /** The limiters are per connection and created on a connection's first
      message: only the sender's window moves, a new window starts at the
      current second with this message counted, and a window of the current
      second counts one more. */
  lemma LimiterPerConnection(windows: map<ConnId, RL.Window>, id: ConnId, nowSecond: int, limit: int)
    ensures var (windows', ok) := Admitted(windows, id, nowSecond, limit);
      && windows'.Keys == windows.Keys + {id}
      && (forall c | c in windows && c != id :: windows'[c] == windows[c])
      && (id !in windows ==> windows'[id] == RL.Window(nowSecond, 1) && (ok <==> 1 <= limit))
      && (id in windows && windows[id].epoch == nowSecond ==>
            windows'[id] == RL.Window(nowSecond, windows[id].count + 1) && (ok <==> windows[id].count + 1 <= limit))
  {
  }

  // ---------------------------------------------------------------- JOIN

  /** The envelope checks of a JOIN run in order (identity, session id,
      reservation id) and the first that fails names the refusal. */
  lemma JoinChecksInOrder(userId: string, env: MessageEnvelope)
    ensures JoinRefusal(userId, env).None? <==>
      !IsBlank(userId) && !IsMissing(env.sessionId) && !IsMissing(env.reservationId)
    ensures JoinRefusal(userId, env) == Some("Missing user identity") <==> IsBlank(userId)
    ensures JoinRefusal(userId, env) == Some("Missing sessionId") <==> !IsBlank(userId) && IsMissing(env.sessionId)
    ensures JoinRefusal(userId, env) == Some("Missing reservationId") <==>
      !IsBlank(userId) && !IsMissing(env.sessionId) && IsMissing(env.reservationId)
  {
  }

  /** A connection whose handshake stored no user id is "null" to the
      JOIN check, which is not blank: it passes the identity check. */
  lemma AbsentUserPassesIdentityCheck(c: Conn)
    requires "userId" !in c.attributes
    ensures UserOf(c) == "null" && !IsBlank(UserOf(c))
  {
    assert !IsJavaWhitespace(UserOf(c)[0]);
  }

  /** The world after the sender got one ERROR and a 1003 close, all else
      as it was. */
  function RefusedWorld(w: World, id: ConnId, msg: string, inp: Inputs): World
    requires id in w.conns
  {
    w.(conns := w.conns[id := w.conns[id].(open := false,
                                          sent := w.conns[id].sent + [ErrorMessage(msg, inp.nowMs, inp.errorTraceId)],
                                          closes := w.conns[id].closes + [NOT_ACCEPTABLE])])
  }

  lemma RefusedIsRefusedWorld(w: World, id: ConnId, msg: string, inp: Inputs)
    requires id in w.conns
    ensures Refused(w, id, msg, inp) == RefusedWorld(w, id, msg, inp)
  {
    var r := Refused(w, id, msg, inp);
    var e := RefusedWorld(w, id, msg, inp);
    assert r.conns == e.conns;
  }

  /** A JOIN that fails an envelope check gets one ERROR naming the check
      and a 1003 close; no room, session, subscription or other connection
      changes, and no exception reaches the handler. */
  lemma RefusedJoinChangesNothingElse(cfg: Config, w: World, id: ConnId, env: MessageEnvelope, inp: Inputs)
    requires id in w.conns
    requires JoinRefusal(UserOf(w.conns[id]), env).Some?
    ensures JoinStep(cfg, w, id, env, inp) == (RefusedWorld(w, id, JoinRefusal(UserOf(w.conns[id]), env).value, inp), None)
  {
    RefusedIsRefusedWorld(w, id, JoinRefusal(UserOf(w.conns[id]), env).value, inp);
  }

  /** A third participant is refused with "Room full" and a 1003 close, and
      the room is left as it was. */
  lemma FullRoomRefused(w: World, id: ConnId, room: string, userId: string, env: MessageEnvelope, inp: Inputs)
    requires id in w.conns && |Reg.Room(w.rooms, room)| >= 2
    ensures Entered(w, id, room, userId, env, inp) == RefusedWorld(w, id, "Room full", inp)
  {
    RefusedIsRefusedWorld(w, id, "Room full", inp);
  }

  /** A reservation the reservations service does not accept is refused
      with its reason after "403: ", and nothing else changes. */
  lemma IneligibleRefused(cfg: Config, w: World, id: ConnId, userId: string, sid: string, rid: string,
                          env: MessageEnvelope, inp: Inputs)
    requires id in w.conns
    requires var request := Elig.Request(rid, Elig.HeadersFor(Attr(w.conns[id], "token")));
      var verdict := Elig.Checked(cfg.reservationsUrl, rid, userId, inp.reservations(request));
      verdict.Done? && !verdict.value.eligible
    ensures var request := Elig.Request(rid, Elig.HeadersFor(Attr(w.conns[id], "token")));
      var verdict := Elig.Checked(cfg.reservationsUrl, rid, userId, inp.reservations(request));
      JoinChecked(cfg, w, id, userId, sid, rid, env, inp) ==
        (RefusedWorld(w, id, "403: " + JavaText(verdict.value.reason), inp), None)
  {
    var request := Elig.Request(rid, Elig.HeadersFor(Attr(w.conns[id], "token")));
    var verdict := Elig.Checked(cfg.reservationsUrl, rid, userId, inp.reservations(request));
    RefusedIsRefusedWorld(w, id, "403: " + JavaText(verdict.value.reason), inp);
  }

  // ---------------------------------------------------------------- fanout

  /** Fanout only appends: what a connection was sent before stays a prefix. */
  lemma {:induction false} FanoutExtends(conns: Conns, rooms: Reg.Rooms, subs: seq<RoomFanout>, m: MessageEnvelope, c: ConnId)
    requires c in conns
    ensures conns[c].sent <= FanoutAll(conns, rooms, subs, m)[c].sent
    ensures FanoutAll(conns, rooms, subs, m)[c].closes == conns[c].closes
    decreases |subs|
  {
    if subs != [] {
      FanoutExtends(conns, rooms, subs[..|subs| - 1], m, c);
    }
  }

  /** With k callbacks for a room, each open member of the room receives k
      copies of the message (the sender too, when it is a member), and no
      other connection receives anything. */
  lemma {:induction false} FanoutCopies(conns: Conns, rooms: Reg.Rooms, room: Reg.RoomId, subs: seq<RoomFanout>,
                                        m: MessageEnvelope, c: ConnId)
    requires c in conns
    requires forall i | 0 <= i < |subs| :: subs[i] == RoomFanout(room)
    ensures FanoutAll(conns, rooms, subs, m)[c].sent ==
      conns[c].sent + (if conns[c].open && c in Members(rooms, room) then seq(|subs|, _ => m) else [])
    decreases |subs|
  {
    if subs != [] {
      var init := subs[..|subs| - 1];
      FanoutCopies(conns, rooms, room, init, m, c);
      if conns[c].open && c in Members(rooms, room) {
        assert seq(|subs|, _ => m) == seq(|init|, _ => m) + [m];
      }
    }
  }

  /** A closed connection is skipped by every fanout, whatever room still
      holds a handle for it. */
  lemma {:induction false} FanoutSkipsClosed(conns: Conns, rooms: Reg.Rooms, subs: seq<RoomFanout>, m: MessageEnvelope, c: ConnId)
    requires c in conns && !conns[c].open
    ensures FanoutAll(conns, rooms, subs, m)[c] == conns[c]
    decreases |subs|
  {
    if subs != [] {
      FanoutSkipsClosed(conns, rooms, subs[..|subs| - 1], m, c);
    }
  }

  /** Every local callback of a channel serves the room of that channel. */
  predicate ChannelsMatch(b: Bridge) {
    forall ch | ch in b.localSubs :: forall i | 0 <= i < |b.localSubs[ch]| :: Channel(b.localSubs[ch][i].room) == ch
  }

  lemma ChannelInjective(a: string, b: string)
    requires Channel(a) == Channel(b)
    ensures a == b
  {
    assert a == Channel(a)[5..] && b == Channel(b)[5..];
  }

  /** Whether the backend hands a publish on `ch` back to this process:
      the send is tried (healthy, with a template), it succeeds, and the
      listener of `ch` is registered here, so the listener runs the local
      fanout a second time. */
  predicate Echoes(b: Bridge, ch: PubSub.Channel, sendFails: bool) {
    b.redisOk && b.hasTemplate && !sendFails && ch in b.listening
  }

  /** Under the channel match, every local callback of a room's channel
      serves that room. */
  lemma RoomSubscribers(b: Bridge, room: Reg.RoomId)
    requires ChannelsMatch(b)
    ensures forall i | 0 <= i < |PubSub.Subscribers(b, Channel(room))| ::
      PubSub.Subscribers(b, Channel(room))[i] == RoomFanout(room)
  {
    var subs := PubSub.Subscribers(b, Channel(room));
    forall i | 0 <= i < |subs|
      ensures subs[i] == RoomFanout(room)
    {
      ChannelInjective(subs[i].room, room);
    }
  }

  /** An OFFER, ANSWER or ICE_CANDIDATE that the backend does not echo
      back (it is down, has no template, the send fails, or this process
      never registered the room's listener) reaches every open member of
      its room once per JOIN that subscribed the room — the sender included
      when it is a member — and reaches no one else. The store, the metrics
      and the rooms are untouched, relay candidate or not. */
  lemma ForwardDelivery(w: World, env: MessageEnvelope, inp: Inputs, c: ConnId)
    requires c in w.conns && ChannelsMatch(w.bridge)
    requires !Echoes(w.bridge, Channel(JavaText(env.sessionId)), inp.sendFails)
    ensures var room := JavaText(env.sessionId);
      var k := |PubSub.Subscribers(w.bridge, Channel(room))|;
      var r := ForwardStep(w, env, inp);
      && r.conns[c].sent == w.conns[c].sent + (if w.conns[c].open && c in Members(w.rooms, room) then seq(k, _ => env) else [])
      && r.conns[c].closes == w.conns[c].closes
      && r.service == w.service && r.metrics == w.metrics && r.rooms == w.rooms && r.windows == w.windows
  {
    var room := JavaText(env.sessionId);
    var subs := PubSub.Subscribers(w.bridge, Channel(room));
    RoomSubscribers(w.bridge, room);
    FanoutCopies(w.conns, w.rooms, room, subs, env, c);
    FanoutExtends(w.conns, w.rooms, subs, env, c);
  }

  /** When the backend echoes the relayed message, its listener runs the
      local fanout once more: every open member of the room ends up with
      2k copies, where k is the number of JOINs that subscribed the room. */
  lemma EchoedDelivery(w: World, env: MessageEnvelope, inp: Inputs, c: ConnId)
    requires c in w.conns && ChannelsMatch(w.bridge)
    requires Echoes(w.bridge, Channel(JavaText(env.sessionId)), inp.sendFails)
    ensures var room := JavaText(env.sessionId);
      var k := |PubSub.Subscribers(w.bridge, Channel(room))|;
      var r := ForwardStep(w, env, inp);
      var echoed := FanoutAll(r.conns, r.rooms, PubSub.BackendDelivery(r.bridge, Channel(room)), env);
      echoed[c].sent == w.conns[c].sent + (if w.conns[c].open && c in Members(w.rooms, room) then seq(2 * k, _ => env) else [])
  {
    var room := JavaText(env.sessionId);
    var ch := Channel(room);
    var subs := PubSub.Subscribers(w.bridge, ch);
    var r := ForwardStep(w, env, inp);
    RoomSubscribers(w.bridge, room);
    FanoutCopies(w.conns, w.rooms, room, subs, env, c);
    assert r.bridge.localSubs == w.bridge.localSubs && ch in r.bridge.listening;
    assert PubSub.BackendDelivery(r.bridge, ch) == subs;
    FanoutCopies(r.conns, r.rooms, room, subs, env, c);
    if w.conns[c].open && c in Members(w.rooms, room) {
      assert seq(2 * |subs|, _ => env) == seq(|subs|, _ => env) + seq(|subs|, _ => env);
    }
  }

  /** A candidate text with " typ relay" anywhere in it marks the relay,
      whatever else the payload holds; a payload without a `candidate`
      member, or one that is not an object, never does. */
  lemma RelayCandidateMarked(pre: string, post: string, members: map<string, Json>)
    ensures NamesRelay(JObject(members["candidate" := JText(pre + " typ relay" + post)]))
    ensures "candidate" !in members ==> !NamesRelay(JObject(members))
    ensures !NamesRelay(JNull) && !NamesRelay(JText(pre + " typ relay" + post))
  {
    var t := pre + " typ relay" + post;
    assert t[|pre|..|pre| + |" typ relay"|] == " typ relay";
    ContainsAt(t, " typ relay", |pre|);
  }

  // ---------------------------------------------------------------- entering a room

  /** A publish leaves the rooms, the sessions, the metrics, the
      subscriptions and every attribute alone; it only appends to what
      connections were sent. */
  lemma PublishedKeeps(w: World, ch: PubSub.Channel, m: MessageEnvelope, sendFails: bool, c: ConnId)
    requires c in w.conns
    ensures var r := Published(w, ch, m, sendFails);
      && r.rooms == w.rooms && r.service == w.service && r.metrics == w.metrics && r.windows == w.windows
      && r.bridge.localSubs == w.bridge.localSubs
      && w.conns[c].sent <= r.conns[c].sent && r.conns[c].attributes == w.conns[c].attributes
  {
    var (b1, subs) := PubSub.PublishStep(w.bridge, ch, m, sendFails);
    FanoutExtends(w.conns, w.rooms, subs, m, c);
  }

  /** What the JOIN proper does before its answers. */
  lemma JoinedRegisters(w: World, id: ConnId, room: string, userId: string, inp: Inputs)
    requires id in w.conns
    ensures var r := Joined(w, id, room, userId, inp);
      && Reg.Room(r.rooms, room) == Reg.Room(w.rooms, room)[userId := id]
      && Attr(r.conns[id], "callSessionId") == Some(room) && Attr(r.conns[id], "callUserId") == Some(userId)
      && PubSub.Subscribers(r.bridge, Channel(room)) == PubSub.Subscribers(w.bridge, Channel(room)) + [RoomFanout(room)]
      && r.conns[id].sent == w.conns[id].sent
      && r.service == w.service
  {
  }

  /** The session a JOIN enters: the stored session of the envelope's id,
      unchanged; otherwise `create` for the reservation, which may reuse
      the reservation's session under another id or store a new one. Either
      way the room is keyed by a stored session's id and the store keeps its
      invariant. */
  lemma FoundOrCreatedSpec(s: CS.ServiceState, maxMinutes: int, sid: string, rid: string, inp: Inputs)
    requires CS.StoreInvariant(s.store)
    ensures var (s1, out) := FoundOrCreated(s, maxMinutes, sid, rid, inp);
      && CS.StoreInvariant(s1.store)
      && (sid in s.store.docs ==> s1 == s && out == Done(s.store.docs[sid]))
      && (out.Done? ==> out.value.sessionId in s1.store.docs && s1.store.docs[out.value.sessionId] == out.value)
      && (out.Done? && out.value.sessionId != sid ==> out.value.reservationId == rid)
      && (out.Thrown? ==> s1 == s && sid !in s.store.docs)
  {
    if sid !in s.store.docs {
      CS.CreateSpec(s, maxMinutes, rid, inp.newSessionId, inp.nowMs, inp.storeFault);
      var (s1, out) := FoundOrCreated(s, maxMinutes, sid, rid, inp);
      if out.Done? {
        CS.FindByReservationExact(s1.store, rid, out.value);
      }
    }
  }

  /** A JOIN into a room with room to spare registers the connection under
      its user, tags the connection with the room and the user, subscribes
      one more callback for the room, and answers JOIN_ACK first, whose
      `initiator` flag says whether the room was empty. */
  lemma EnterRoom(w: World, id: ConnId, room: string, userId: string, env: MessageEnvelope, inp: Inputs)
    requires id in w.conns && |Reg.Room(w.rooms, room)| < 2
    ensures var r := Entered(w, id, room, userId, env, inp);
      var n := |w.conns[id].sent|;
      && Reg.Room(r.rooms, room) == Reg.Room(w.rooms, room)[userId := id]
      && Attr(r.conns[id], "callSessionId") == Some(room) && Attr(r.conns[id], "callUserId") == Some(userId)
      && PubSub.Subscribers(r.bridge, Channel(room)) == PubSub.Subscribers(w.bridge, Channel(room)) + [RoomFanout(room)]
      && w.conns[id].sent <= r.conns[id].sent && |r.conns[id].sent| > n
      && r.conns[id].sent[n] == JoinAck(room, env, userId, Reg.Room(w.rooms, room) == map[], inp.nowMs)
      && r.conns[id].sent[n].payload == JObject(map["initiator" := JBool(Reg.Room(w.rooms, room) == map[])])
      && r.service == w.service
  {
    var members := Reg.Room(w.rooms, room);
    var w1 := Joined(w, id, room, userId, inp);
    JoinedRegisters(w, id, room, userId, inp);
    var ack := JoinAck(room, env, userId, |members| == 0, inp.nowMs);
    var w2 := w1.(conns := Sent(w1.conns, id, ack));
    assert w2.conns[id].sent == w.conns[id].sent + [ack];
    var peer := PeerJoined(room, env, userId, inp.nowMs);
    PublishedKeeps(w2, Channel(room), peer, inp.sendFails, id);
    assert Entered(w, id, room, userId, env, inp) == Published(w2, Channel(room), peer, inp.sendFails);
    assert |members| == 0 <==> members == map[];
  }

  // ---------------------------------------------------------------- room capacity

  /** What the handler keeps about rooms and subscriptions: no room holds
      more than two users, and every callback serves its channel's room. */
  predicate Consistent(w: World) {
    && (forall r | r in w.rooms :: |w.rooms[r]| <= 2)
    && ChannelsMatch(w.bridge)
  }

  /** Registering in a room that has room to spare keeps every room within
      two users. */
  lemma RegisteredKeepsCap(rooms: Reg.Rooms, room: Reg.RoomId, u: Reg.UserId, c: ConnId)
    requires forall r | r in rooms :: |rooms[r]| <= 2
    requires |Reg.Room(rooms, room)| < 2
    ensures var rooms' := Reg.Registered(rooms, room, u, c); forall r | r in rooms' :: |rooms'[r]| <= 2
  {
    var rooms' := Reg.Registered(rooms, room, u, c);
    Reg.RegisterRoomSize(rooms, room, u, c);
    forall t | t in rooms'
      ensures |rooms'[t]| <= 2
    {
      if t != room {
        Reg.OtherRoomsUnchanged(rooms, room, u, c, t);
      }
    }
  }

  /** Subscribing a room's callback on the room's own channel keeps every
      callback on its room's channel. */
  lemma SubscribedKeepsMatch(b: Bridge, room: Reg.RoomId, listenerFails: bool)
    requires ChannelsMatch(b)
    ensures ChannelsMatch(PubSub.SubscribeStep(b, Channel(room), RoomFanout(room), listenerFails))
  {
    var b1 := PubSub.SubscribeStep(b, Channel(room), RoomFanout(room), listenerFails);
    forall ch | ch in b1.localSubs
      ensures forall i | 0 <= i < |b1.localSubs[ch]| :: Channel(b1.localSubs[ch][i].room) == ch
    {
      if ch == Channel(room) {
        assert b1.localSubs[ch] == PubSub.Subscribers(b, ch) + [RoomFanout(room)];
      } else {
        assert b1.localSubs[ch] == b.localSubs[ch];
      }
    }
  }

  /** A publish changes neither the rooms nor the subscriptions. */
  lemma PublishedKeepsConsistent(w: World, ch: PubSub.Channel, m: MessageEnvelope, sendFails: bool)
    requires Consistent(w)
    ensures Consistent(Published(w, ch, m, sendFails))
  {
    var r := Published(w, ch, m, sendFails);
    assert r.rooms == w.rooms && r.bridge.localSubs == w.bridge.localSubs;
  }

  lemma EnteredKeepsConsistent(w: World, id: ConnId, room: string, userId: string, env: MessageEnvelope, inp: Inputs)
    requires id in w.conns && Consistent(w)
    ensures Consistent(Entered(w, id, room, userId, env, inp))
  {
    var members := Reg.Room(w.rooms, room);
    if |members| < 2 {
      RegisteredKeepsCap(w.rooms, room, userId, id);
      SubscribedKeepsMatch(w.bridge, room, inp.listenerFails);
      var w1 := Joined(w, id, room, userId, inp);
      assert Consistent(w1);
      var w2 := w1.(conns := Sent(w1.conns, id, JoinAck(room, env, userId, |members| == 0, inp.nowMs)));
      var peer := PeerJoined(room, env, userId, inp.nowMs);
      PublishedKeepsConsistent(w2, Channel(room), peer, inp.sendFails);
      assert Entered(w, id, room, userId, env, inp) == Published(w2, Channel(room), peer, inp.sendFails);
    } else {
      RefusedIsRefusedWorld(w, id, "Room full", inp);
    }
  }

  lemma JoinKeepsConsistent(cfg: Config, w: World, id: ConnId, env: MessageEnvelope, inp: Inputs)
    requires id in w.conns && Consistent(w)
    ensures Consistent(JoinStep(cfg, w, id, env, inp).0)
  {
    var userId := UserOf(w.conns[id]);
    if JoinRefusal(userId, env).None? {
      var (s1, found) := FoundOrCreated(w.service, cfg.maxMinutes, env.sessionId.value, env.reservationId.value, inp);
      if found.Done? {
        EnteredKeepsConsistent(w.(service := s1), id, found.value.sessionId, userId, env, inp);
      }
    }
  }

  lemma DispatchKeepsConsistent(cfg: Config, w: World, id: ConnId, env: MessageEnvelope, inp: Inputs)
    requires id in w.conns && Consistent(w)
    ensures Consistent(Dispatch(cfg, w, id, env, inp).0)
  {
    if env.kind.Some? {
      var k := env.kind.value;
      var ch := Channel(JavaText(env.sessionId));
      if k == "JOIN" {
        JoinKeepsConsistent(cfg, w, id, env, inp);
      } else if IsRelayed(k) {
        PublishedKeepsConsistent(w, ch, env, inp.sendFails);
      } else if k == "RTC_CONNECTED" {
        var (r, err) := RtcConnectedStep(w, env, inp);
        if err.None? && Lookup(w.service, env.sessionId).Some? {
          var d := CS.Connected(Lookup(w.service, env.sessionId).value, inp.nowMs);
          var st1 := CS.SaveResult(w.service.store, d, inp.storeFault).0;
          var w1 := w.(service := w.service.(store := st1), metrics := QM.SuccessRecorded(w.metrics, d.setupMs, inp.nowMs));
          PublishedKeepsConsistent(w1, ch, env, inp.sendFails);
        } else if err.None? {
          PublishedKeepsConsistent(w, ch, env, inp.sendFails);
        }
      } else if k == "LEAVE" || k == "END" {
        var (s1, err) := Ending(w.service, env.sessionId, inp);
        if err.None? {
          PublishedKeepsConsistent(w.(service := s1), ch, env, inp.sendFails);
        }
      }
    }
  }

  /** No message ever puts a third user in a room, and every callback keeps
      serving its own room. */
  lemma MessageKeepsConsistent(cfg: Config, w: World, id: ConnId, text: string, inp: Inputs)
    requires id in w.conns && Consistent(w)
    ensures Consistent(HandleStep(cfg, w, id, text, inp))
  {
    var (windows1, ok) := Admitted(w.windows, id, inp.nowMs / 1000, cfg.rateLimit);
    var w0 := w.(windows := windows1);
    if ok && inp.parse(text).Done? {
      var env := Traced(inp.parse(text).value, inp.traceId);
      DispatchKeepsConsistent(cfg, w0, id, env, inp);
    }
  }

  lemma CardinalityOfSubset<T>(a: set<T>, b: set<T>)
    requires a <= b
    ensures |a| <= |b|
  {
    assert b == a + (b - a);
  }

  /** A close only ever removes a user from a room. */
  lemma CloseKeepsConsistent(w: World, id: ConnId, nowMs: int, sendFails: bool)
    requires id in w.conns && Consistent(w)
    ensures Consistent(ClosedStep(w, id, nowMs, sendFails))
  {
    var sid := Attr(w.conns[id], "callSessionId");
    var uid := Attr(w.conns[id], "callUserId");
    if sid.Some? && uid.Some? {
      var rooms' := Reg.Unregistered(w.rooms, sid.value, uid.value);
      forall t | t in rooms'
        ensures |rooms'[t]| <= 2
      {
        if t == sid.value {
          var before := w.rooms[t];
          assert rooms'[t].Keys <= before.Keys;
          CardinalityOfSubset(rooms'[t].Keys, before.Keys);
        }
      }
      PublishedKeepsConsistent(w.(rooms := rooms'), Channel(sid.value), PeerLeft(sid.value, uid.value, nowMs), sendFails);
    }
  }

  // ---------------------------------------------------------------- other types

  /** A type the switch does not know gets one ERROR "Unsupported type";
      the connection stays open and nothing else changes. */
  lemma UnsupportedTypeAnswered(cfg: Config, w: World, id: ConnId, text: string, inp: Inputs)
    requires id in w.conns && inp.parse(text).Done?
    requires var k := inp.parse(text).value.kind;
      k.Some? && k.value !in {"JOIN", "OFFER", "ANSWER", "ICE_CANDIDATE", "RTC_CONNECTED", "HEARTBEAT", "LEAVE", "END"}
    ensures Processed(cfg, w, id, text, inp) ==
      w.(conns := w.conns[id := w.conns[id].(sent := w.conns[id].sent + [ErrorMessage("Unsupported type", inp.nowMs, inp.errorTraceId)])])
  {
  }

  /** HEARTBEAT changes nothing at all. */
  lemma HeartbeatChangesNothing(cfg: Config, w: World, id: ConnId, text: string, inp: Inputs)
    requires id in w.conns && inp.parse(text).Done? && inp.parse(text).value.kind == Some("HEARTBEAT")
    ensures Processed(cfg, w, id, text, inp) == w
  {
  }

  // ---------------------------------------------------------------- exceptions

  /** The exception handler sends one ERROR naming the exception's class
      and message ("no message" for a null one) and then closes with 1011
      if the connection is still open; nothing else changes. */
  lemma ExceptionReported(w: World, id: ConnId, f: Fault, inp: Inputs)
    requires id in w.conns
    ensures var r := Failed(w, id, f, inp);
      && r.(conns := w.conns) == w
      && r.conns == w.conns[id := w.conns[id].(
           open := false,
           sent := w.conns[id].sent + [ErrorMessage(FaultText(f), inp.nowMs, inp.errorTraceId)],
           closes := w.conns[id].closes + (if w.conns[id].open then [SERVER_ERROR] else []))]
    ensures f.message.None? ==> FaultText(f) == "500: " + f.className + ": no message"
  {
    var c := w.conns[id];
    var c' := c.(sent := c.sent + [ErrorMessage(FaultText(f), inp.nowMs, inp.errorTraceId)]);
    assert ErrorSent(w, id, FaultText(f), inp).conns == w.conns[id := c'];
    if c.open {
      assert Failed(w, id, f, inp).conns == w.conns[id := c'.(open := false, closes := c.closes + [SERVER_ERROR])];
    } else {
      assert c.closes + [] == c.closes;
      assert Failed(w, id, f, inp).conns == w.conns[id := c'];
    }
  }

  /** Text that does not parse goes to the exception handler. */
  lemma UnparsableReported(cfg: Config, w: World, id: ConnId, text: string, inp: Inputs)
    requires id in w.conns && inp.parse(text).Thrown?
    ensures Processed(cfg, w, id, text, inp) == Failed(w, id, inp.parse(text).fault, inp)
  {
  }

  /** An envelope without a type makes the switch throw a
      NullPointerException, which the exception handler reports. */
  lemma NullTypeReported(cfg: Config, w: World, id: ConnId, text: string, inp: Inputs)
    requires id in w.conns && inp.parse(text).Done? && inp.parse(text).value.kind.None?
    ensures Processed(cfg, w, id, text, inp) == Failed(w, id, Fault("NullPointerException", cfg.nullTypeMessage), inp)
  {
  }

  // ---------------------------------------------------------------- session updates

  /** A failed save during RTC_CONNECTED is an exception: nothing is
      relayed and no setup time is recorded. */
  lemma ConnectedSaveFailure(w: World, env: MessageEnvelope, inp: Inputs)
    requires Lookup(w.service, env.sessionId).Some? && inp.storeFault.Some?
    ensures RtcConnectedStep(w, env, inp) == (w, inp.storeFault)
  {
  }

  /** The same for LEAVE and END: the call counter does not move either. */
  lemma EndSaveFailure(w: World, env: MessageEnvelope, inp: Inputs)
    requires Lookup(w.service, env.sessionId).Some? && inp.storeFault.Some?
    ensures EndStep(w, env, inp) == (w, inp.storeFault)
  {
  }

  /** Ending a session does not look at its status: a second END of the
      same session saves again and lowers the call counter again. */
  lemma EndTwiceCountsTwice(s: CS.ServiceState, sid: string, inp1: Inputs, inp2: Inputs)
    requires CS.StoreInvariant(s.store) && sid in s.store.docs
    requires inp1.storeFault.None? && inp2.storeFault.None?
    ensures var (s1, e1) := Ending(s, Some(sid), inp1);
      var (s2, e2) := Ending(s1, Some(sid), inp2);
      && e1.None? && e2.None?
      && s2.concurrentCalls == s.concurrentCalls - 2
      && sid in s2.store.docs && s2.store.docs[sid].status == Domain.ENDED
      && s2.store.docs[sid].endedAt == Some(inp2.nowMs)
  {
    var d0 := s.store.docs[sid];
    var d1 := CS.Ended(d0, inp1.nowMs);
    CS.SaveStores(s.store, d1, None);
    var (s1, e1) := Ending(s, Some(sid), inp1);
    assert e1.None?;
    assert s1.store.docs == s.store.docs[sid := d1];
    var d2 := CS.Ended(d1, inp2.nowMs);
    CS.SaveStores(s1.store, d2, None);
  }

  /** `markConnected` sets the connection time only once, but records a
      success on every call: a second RTC_CONNECTED for the same session
      leaves its record as the first one left it and adds another success
      with the same setup time. */
  lemma ConnectedTwiceRecordsTwice(w: World, env: MessageEnvelope, inp1: Inputs, inp2: Inputs)
    requires CS.StoreInvariant(w.service.store) && Lookup(w.service, env.sessionId).Some?
    requires inp1.storeFault.None? && inp2.storeFault.None?
    ensures var (w1, e1) := RtcConnectedStep(w, env, inp1);
      var (w2, e2) := RtcConnectedStep(w1, env, inp2);
      var d1 := CS.Connected(Lookup(w.service, env.sessionId).value, inp1.nowMs);
      && e1.None? && e2.None?
      && Lookup(w1.service, env.sessionId) == Some(d1) && Lookup(w2.service, env.sessionId) == Some(d1)
      && w2.metrics == QM.SuccessRecorded(QM.SuccessRecorded(w.metrics, d1.setupMs, inp1.nowMs), d1.setupMs, inp2.nowMs)
  {
    var d0 := Lookup(w.service, env.sessionId).value;
    var d1 := CS.Connected(d0, inp1.nowMs);
    CS.SaveStores(w.service.store, d1, None);
    var (w1, e1) := RtcConnectedStep(w, env, inp1);
    assert e1.None?;
    assert w1.service.store.docs == w.service.store.docs[d1.sessionId := d1];
    CS.ConnectedIsIdempotent(d0, inp1.nowMs, inp2.nowMs);
    CS.SaveStores(w1.service.store, d1, None);
  }

  // ---------------------------------------------------------------- close

  /** A connection that never joined (it lacks either tag) is only marked
      closed: no room, channel, store or window changes. */
  lemma CloseBeforeJoinChangesNothing(w: World, id: ConnId, nowMs: int, sendFails: bool)
    requires id in w.conns
    requires Attr(w.conns[id], "callSessionId").None? || Attr(w.conns[id], "callUserId").None?
    ensures var r := ClosedStep(w, id, nowMs, sendFails);
      && r.rooms == w.rooms && r.bridge == w.bridge && r.service == w.service
      && r.metrics == w.metrics && r.windows == w.windows
      && r.conns == w.conns[id := w.conns[id].(open := false)]
  {
  }

  /** A joined connection's close removes its user from its room — whatever
      handle the room holds for that user now, even a newer connection of
      the same user — keeps the other members, and announces PEER_LEFT on
      the room's channel. */
  lemma CloseLeavesRoom(w: World, id: ConnId, nowMs: int, sendFails: bool)
    requires id in w.conns
    requires Attr(w.conns[id], "callSessionId").Some? && Attr(w.conns[id], "callUserId").Some?
    ensures var sid := Attr(w.conns[id], "callSessionId").value;
      var uid := Attr(w.conns[id], "callUserId").value;
      var r := ClosedStep(w, id, nowMs, sendFails);
      && Reg.Room(r.rooms, sid) == Reg.Room(w.rooms, sid) - {uid}
      && r.bridge == PubSub.PublishStep(w.bridge, Channel(sid), PeerLeft(sid, uid, nowMs), sendFails).0
      && r.service == w.service && r.metrics == w.metrics
      && r.conns[id] == w.conns[id].(open := false)
  {
    var sid := Attr(w.conns[id], "callSessionId").value;
    var uid := Attr(w.conns[id], "callUserId").value;
    var (_, subs) := PubSub.PublishStep(w.bridge, Channel(sid), PeerLeft(sid, uid, nowMs), sendFails);
    FanoutSkipsClosed(Dropped(w.conns, id), Reg.Unregistered(w.rooms, sid, uid), subs, PeerLeft(sid, uid, nowMs), id);
  }

  /** Once its connection is closed, a handle that some room still holds —
      say the room of an earlier JOIN, which the close does not unregister —
      receives nothing from any later relay on any room. */
  lemma ClosedConnectionHearsNothing(w: World, id: ConnId, nowMs: int, sendFails: bool, env: MessageEnvelope, inp: Inputs)
    requires id in w.conns
    ensures var r := ClosedStep(w, id, nowMs, sendFails);
      ForwardStep(r, env, inp).conns[id] == r.conns[id]
  {
    var r := ClosedStep(w, id, nowMs, sendFails);
    var (_, subs) := PubSub.PublishStep(r.bridge, Channel(JavaText(env.sessionId)), env, inp.sendFails);
    FanoutSkipsClosed(r.conns, r.rooms, subs, env, id);
  }
}
