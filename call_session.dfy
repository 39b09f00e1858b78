/** The call-session record (CallSession.java with its Metrics folded in):
    a mutable document created by a factory and changed through setters. */
module Domain {
  import opened Common

  /** The status values the record is meant to hold. The field itself is an
      unconstrained string. */
  const CREATED: string := "CREATED"
  const CONNECTING: string := "CONNECTING"
  const CONNECTED: string := "CONNECTED"
  const ENDED: string := "ENDED"
  const EXPIRED: string := "EXPIRED"

  predicate IsIntendedStatus(s: string) {
    s in {CREATED, CONNECTING, CONNECTED, ENDED, EXPIRED}
  }

  /** A participant entry: user, role (STUDENT or TUTOR), join and leave
      times, all nullable. */
  datatype Participant = Participant(userId: Option<string>, role: Option<string>,
                                     joinedAt: Option<int>, leftAt: Option<int>)

  /** The whole record as a value: what a find returns and a save stores.
      Times are epoch milliseconds; `ttl` is the expiry instant in
      milliseconds. */
  datatype SessionData = SessionData(
    sessionId: string,
    reservationId: string,
    participants: seq<Participant>,
    status: string,
    createdAt: int,
    connectedAt: Option<int>,
    endedAt: Option<int>,
    turnUsed: bool,
    setupMs: int,
    totalDurationMs: int,
    ttl: int)

  /** What the `create` factory builds at time `now`. */
  function Created(sessionId: string, reservationId: string, ttl: int, now: int): SessionData {
    SessionData(sessionId, reservationId, [], CREATED, now, None, None, false, 0, 0, ttl)
  }

  /** A freshly created session is in an intended status, is neither
      connected nor ended, has used no relay, has no participants and
      reports zero setup and total duration; its identity, reservation and
      expiry are the arguments, and it was created at `now`. */
  lemma CreatedIsPending(sessionId: string, reservationId: string, ttl: int, now: int)
    ensures var d := Created(sessionId, reservationId, ttl, now);
      && IsIntendedStatus(d.status) && d.status != ENDED && d.status != CONNECTED
      && d.connectedAt.None? && d.endedAt.None? && !d.turnUsed && d.participants == []
      && d.setupMs == 0 && d.totalDurationMs == 0
      && d.sessionId == sessionId && d.reservationId == reservationId
      && d.ttl == ttl && d.createdAt == now
  {
  }

  /** The mutable record. Every field is assigned in place by a setter. */
  class CallSession {
    var sessionId: string
    var reservationId: string
    var participants: seq<Participant>
    var status: string
    var createdAt: int
    var connectedAt: Option<int>
    var endedAt: Option<int>
    var turnUsed: bool
    var setupMs: int
    var totalDurationMs: int
    var ttl: int

    function Data(): SessionData
      reads this
    {
      SessionData(sessionId, reservationId, participants, status, createdAt,
                  connectedAt, endedAt, turnUsed, setupMs, totalDurationMs, ttl)
    }

    /** An object holding the given document (how a find materialises one). */
    constructor FromData(d: SessionData)
      ensures Data() == d
    {
      sessionId := d.sessionId;
      reservationId := d.reservationId;
      participants := d.participants;
      status := d.status;
      createdAt := d.createdAt;
      connectedAt := d.connectedAt;
      endedAt := d.endedAt;
      turnUsed := d.turnUsed;
      setupMs := d.setupMs;
      totalDurationMs := d.totalDurationMs;
      ttl := d.ttl;
    }

    /** The `create` factory at time `now`. */
    static method Create(sessionId: string, reservationId: string, ttl: int, now: int)
      returns (cs: CallSession)
      ensures fresh(cs)
      ensures cs.Data() == Created(sessionId, reservationId, ttl, now)
    {
      cs := new CallSession.FromData(SessionData(sessionId, reservationId, [], "", 0, None, None, false, 0, 0, 0));
      cs.status := CREATED;
      cs.createdAt := now;
      cs.ttl := ttl;
    }

    method SetSessionId(v: string)
      modifies this
      ensures Data() == old(Data()).(sessionId := v)
    {
      sessionId := v;
    }

    method SetReservationId(v: string)
      modifies this
      ensures Data() == old(Data()).(reservationId := v)
    {
      reservationId := v;
    }

    method SetParticipants(v: seq<Participant>)
      modifies this
      ensures Data() == old(Data()).(participants := v)
    {
      participants := v;
    }

    method SetStatus(v: string)
      modifies this
      ensures Data() == old(Data()).(status := v)
    {
      status := v;
    }

    method SetCreatedAt(v: int)
      modifies this
      ensures Data() == old(Data()).(createdAt := v)
    {
      createdAt := v;
    }

    method SetConnectedAt(v: Option<int>)
      modifies this
      ensures Data() == old(Data()).(connectedAt := v)
    {
      connectedAt := v;
    }

    method SetEndedAt(v: Option<int>)
      modifies this
      ensures Data() == old(Data()).(endedAt := v)
    {
      endedAt := v;
    }

    method SetTurnUsed(v: bool)
      modifies this
      ensures Data() == old(Data()).(turnUsed := v)
    {
      turnUsed := v;
    }

    /** `getMetrics().setSetupMs`. */
    method SetSetupMs(v: int)
      modifies this
      ensures Data() == old(Data()).(setupMs := v)
    {
      setupMs := v;
    }

    /** `getMetrics().setTotalDurationMs`. */
    method SetTotalDurationMs(v: int)
      modifies this
      ensures Data() == old(Data()).(totalDurationMs := v)
    {
      totalDurationMs := v;
    }

    /** `setMetrics`: both metric values at once. */
    method SetMetrics(setup: int, total: int)
      modifies this
      ensures Data() == old(Data()).(setupMs := setup, totalDurationMs := total)
    {
      setupMs := setup;
      totalDurationMs := total;
    }

    method SetTtl(v: int)
      modifies this
      ensures Data() == old(Data()).(ttl := v)
    {
      ttl := v;
    }
  }
}
