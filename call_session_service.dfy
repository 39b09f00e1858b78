/** The session lifecycle (CallSessionService.java) over the document store
    (CallSessionRepository.java): create-or-reuse by reservation, connect,
    failed setup and end, with the live-call counter. */
module CallSessions {
  import opened Common
  import opened Domain
  import QM = QualityMetrics

  /** The store: documents keyed by session id, and the order in which they
      were first saved (the order `findAll` lists them in). */
  datatype StoreState = StoreState(docs: map<string, SessionData>, order: seq<string>)

  /** What the store keeps true: `order` lists each key once, each document
      sits under its own session id, and the unique index on the
      reservation id holds. */
  predicate StoreInvariant(st: StoreState) {
    && (forall i, j | 0 <= i < j < |st.order| :: st.order[i] != st.order[j])
    && (forall k | k in st.docs :: k in st.order)
    && (forall i | 0 <= i < |st.order| :: st.order[i] in st.docs)
    && (forall k | k in st.docs :: st.docs[k].sessionId == k)
    && (forall k1, k2 | k1 in st.docs && k2 in st.docs && k1 != k2 ::
          st.docs[k1].reservationId != st.docs[k2].reservationId)
  }

  /** The first key of `keys` whose document has reservation `rid`. */
  function FindIn(docs: map<string, SessionData>, keys: seq<string>, rid: string): (r: Option<string>)
    ensures r.Some? ==> r.value in keys && r.value in docs && docs[r.value].reservationId == rid
    ensures r.None? ==> forall k | k in keys && k in docs :: docs[k].reservationId != rid
    decreases |keys|
  {
    if keys == [] then None
    else if keys[0] in docs && docs[keys[0]].reservationId == rid then Some(keys[0])
    else FindIn(docs, keys[1..], rid)
  }

  /** `findByReservationId`. */
  function FindByReservation(st: StoreState, rid: string): Option<SessionData> {
    var k := FindIn(st.docs, st.order, rid);
    if k.Some? then Some(st.docs[k.value]) else None
  }

  /** The reservation lookup finds a document exactly when the store holds
      one with that reservation, and then it is that one. */
  lemma FindByReservationExact(st: StoreState, rid: string, d: SessionData)
    requires StoreInvariant(st)
    ensures FindByReservation(st, rid) == Some(d) <==>
      (d.sessionId in st.docs && st.docs[d.sessionId] == d && d.reservationId == rid)
  {
    var k := FindIn(st.docs, st.order, rid);
    if d.sessionId in st.docs && st.docs[d.sessionId] == d && d.reservationId == rid {
      assert d.sessionId in st.order;
      assert k.Some?;
    }
  }

  /** The fault a save raises when another session already holds the
      reservation id (the unique index). */
  const DuplicateKey: Fault := Fault("DuplicateKeyException", None)

  /** `save` of a document read from the store (its `@Id` is set): an update
      of the document with that session id, or an insert when none is
      stored. It fails with the injected store fault, or on a reservation id
      another session holds, and then stores nothing. */
  function SaveResult(st: StoreState, d: SessionData, fault: Option<Fault>): (r: (StoreState, Option<Fault>))
    ensures r.1.Some? ==> r.0 == st
    ensures r.1.None? <==> fault.None? && forall k | k in st.docs && k != d.sessionId :: st.docs[k].reservationId != d.reservationId
  {
    if fault.Some? then (st, fault)
    else if exists k | k in st.docs && k != d.sessionId :: st.docs[k].reservationId == d.reservationId then (st, Some(DuplicateKey))
    else
      (StoreState(st.docs[d.sessionId := d], if d.sessionId in st.docs then st.order else st.order + [d.sessionId]), None)
  }

  /** A successful save stores exactly `d` under its session id, keeps every
      other document, appends a new key at the end of the listing order and
      keeps the store invariant. */
  lemma SaveStores(st: StoreState, d: SessionData, fault: Option<Fault>)
    requires StoreInvariant(st)
    ensures StoreInvariant(SaveResult(st, d, fault).0)
    ensures var (st1, err) := SaveResult(st, d, fault);
      err.None? ==>
        && st1.docs == st.docs[d.sessionId := d]
        && st1.order == (if d.sessionId in st.docs then st.order else st.order + [d.sessionId])
        && FindByReservation(st1, d.reservationId) == Some(d)
  {
    var (st1, err) := SaveResult(st, d, fault);
    if err.None? {
      assert StoreInvariant(st1);
      FindByReservationExact(st1, d.reservationId, d);
    }
  }

  /** `save` of a document built in memory (its `@Id` is still null): an
      insert. Besides the faults of an update, it fails when a stored
      document already has its session id (the unique index on
      `sessionId`), so it never replaces a stored document. */
  function InsertResult(st: StoreState, d: SessionData, fault: Option<Fault>): (r: (StoreState, Option<Fault>))
    ensures r.1.Some? ==> r.0 == st
    ensures r.1.None? <==> fault.None? && d.sessionId !in st.docs && forall k | k in st.docs :: st.docs[k].reservationId != d.reservationId
  {
    if fault.Some? then (st, fault)
    else if d.sessionId in st.docs then (st, Some(DuplicateKey))
    else SaveResult(st, d, None)
  }

  /** A successful insert adds `d` under a new key at the end of the listing
      order, keeps every stored document as it was and keeps the store
      invariant. */
  lemma InsertStores(st: StoreState, d: SessionData, fault: Option<Fault>)
    requires StoreInvariant(st)
    ensures StoreInvariant(InsertResult(st, d, fault).0)
    ensures var (st1, err) := InsertResult(st, d, fault);
      err.None? ==>
        && d.sessionId !in st.docs
        && st1.docs == st.docs[d.sessionId := d]
        && st1.order == st.order + [d.sessionId]
        && (forall k | k in st.docs :: k in st1.docs && st1.docs[k] == st.docs[k])
        && FindByReservation(st1, d.reservationId) == Some(d)
  {
    SaveStores(st, d, None);
  }

  /** The expiry `create` sets: `maxMinutes + 10` minutes after now. */
  function TtlMs(maxMinutes: int): int {
    (maxMinutes + 10) * 60000
  }

  /** The service's state: the store and the live-call counter. */
  datatype ServiceState = ServiceState(store: StoreState, concurrentCalls: int)

  /** `create(reservationId)` at `now`, with `newId` the next ULID: reuse the
      session of the reservation as is, or build a CREATED one, save it and
      count it. */
  function CreateStep(s: ServiceState, maxMinutes: int, rid: string, newId: string, now: int,
                      fault: Option<Fault>): (ServiceState, Outcome<SessionData>)
  {
    match FindByReservation(s.store, rid)
    case Some(d) => (s, Done(d))
    case None =>
      var d := Created(newId, rid, now + TtlMs(maxMinutes), now);
      var (st1, err) := InsertResult(s.store, d, fault);
      if err.Some? then (s, Thrown(err.value)) else (ServiceState(st1, s.concurrentCalls + 1), Done(d))
  }

  /** `create` returns a session of the requested reservation. It changes
      nothing when one exists; otherwise, when it succeeds, the new session
      is CREATED, stored, findable by its reservation, expires
      `maxMinutes + 10` minutes after `now`, and the counter grows by one;
      when it fails, nothing changes. */
  lemma CreateSpec(s: ServiceState, maxMinutes: int, rid: string, newId: string, now: int, fault: Option<Fault>)
    requires StoreInvariant(s.store)
    ensures var (s1, out) := CreateStep(s, maxMinutes, rid, newId, now, fault);
      && StoreInvariant(s1.store)
      && (out.Done? ==> out.value.reservationId == rid && FindByReservation(s1.store, rid) == Some(out.value))
      && (FindByReservation(s.store, rid).Some? ==> s1 == s && out == Done(FindByReservation(s.store, rid).value))
      && (FindByReservation(s.store, rid).None? && out.Done? ==>
            && out.value.status == CREATED && out.value.createdAt == now
            && out.value.ttl == now + (maxMinutes + 10) * 60000
            && out.value.sessionId == newId && newId !in s.store.docs
            && s1.store.docs == s.store.docs[newId := out.value]
            && s1.concurrentCalls == s.concurrentCalls + 1)
      && (out.Thrown? ==> s1 == s)
  {
    var found := FindByReservation(s.store, rid);
    if found.Some? {
      var k := FindIn(s.store.docs, s.store.order, rid);
      assert found.value == s.store.docs[k.value];
    } else {
      var d := Created(newId, rid, now + TtlMs(maxMinutes), now);
      InsertStores(s.store, d, fault);
    }
  }

  /** A new session whose id is already stored is refused by the unique
      index on `sessionId`: `create` throws DuplicateKey and changes
      nothing, so it never replaces another session. */
  lemma CreateWithTakenIdFails(s: ServiceState, maxMinutes: int, rid: string, newId: string, now: int)
    requires StoreInvariant(s.store)
    requires FindByReservation(s.store, rid).None? && newId in s.store.docs
    ensures CreateStep(s, maxMinutes, rid, newId, now, None) == (s, Thrown(DuplicateKey))
  {
  }

  /** Once `create` succeeds for a reservation, every later `create` for it
      returns that same session and changes nothing, whatever id, time or
      store fault it meets. */
  lemma CreateIsIdempotent(s: ServiceState, maxMinutes: int, rid: string, id1: string, now1: int,
                           f1: Option<Fault>, id2: string, now2: int, f2: Option<Fault>)
    requires StoreInvariant(s.store)
    requires CreateStep(s, maxMinutes, rid, id1, now1, f1).1.Done?
    ensures var (s1, out1) := CreateStep(s, maxMinutes, rid, id1, now1, f1);
      CreateStep(s1, maxMinutes, rid, id2, now2, f2) == (s1, out1)
  {
    CreateSpec(s, maxMinutes, rid, id1, now1, f1);
  }

  /** `markConnected`'s change to the record at `now`: the first connection
      time wins, the status becomes CONNECTED, and the setup time is the
      connection time minus the creation time. */
  function Connected(d: SessionData, now: int): SessionData {
    var at := if d.connectedAt.None? then now else d.connectedAt.value;
    d.(connectedAt := Some(at), status := CONNECTED, setupMs := at - d.createdAt)
  }

  /** Connecting again changes nothing: the first connection time and the
      setup time derived from it are kept. A first connection after
      creation reports a setup time of at least 0. */
  lemma ConnectedIsIdempotent(d: SessionData, t1: int, t2: int)
    ensures Connected(Connected(d, t1), t2) == Connected(d, t1)
    ensures Connected(d, t1).connectedAt.Some? && Connected(d, t1).status == CONNECTED
    ensures d.connectedAt.None? ==> Connected(d, t1).connectedAt == Some(t1)
    ensures d.connectedAt.Some? ==> Connected(d, t1).connectedAt == d.connectedAt
    ensures d.connectedAt.None? && t1 >= d.createdAt ==> Connected(d, t1).setupMs >= 0
    ensures Connected(d, t1).setupMs == Connected(d, t1).connectedAt.value - d.createdAt
  {
  }

  /** `end`'s change to the record at `now`: status ENDED, end time now, and
      the total duration from the connection time when there is one (else it
      keeps its value). */
  function Ended(d: SessionData, now: int): SessionData {
    var total := if d.connectedAt.Some? then now - d.connectedAt.value else d.totalDurationMs;
    d.(status := ENDED, endedAt := Some(now), totalDurationMs := total)
  }

  /** Nothing guards against ending twice: a second `end` overwrites the end
      time and the duration, as if the first had not happened. A session
      never connected keeps a zero duration from creation. */
  lemma EndedOverwrites(d: SessionData, t1: int, t2: int)
    ensures Ended(Ended(d, t1), t2) == Ended(d, t2)
    ensures Ended(d, t1).status == ENDED && Ended(d, t1).endedAt == Some(t1)
    ensures d.connectedAt.Some? ==> Ended(d, t1).totalDurationMs == t1 - d.connectedAt.value
    ensures d.connectedAt.None? ==> Ended(d, t1).totalDurationMs == d.totalDurationMs
  {
  }

  /** The document store. A find materialises a fresh object from the
      stored document, so changes to that object reach the store only
      through `Save`. */
  class CallSessionRepository {
    var docs: map<string, SessionData>
    var order: seq<string>

    function Store(): StoreState
      reads this
    {
      StoreState(docs, order)
    }

    ghost predicate Valid()
      reads this
    {
      StoreInvariant(Store())
    }

    constructor ()
      ensures Valid() && Store() == StoreState(map[], [])
    {
      docs, order := map[], [];
    }

    method FindBySessionId(id: string) returns (r: Option<CallSession>)
      ensures r.Some? <==> id in docs
      ensures r.Some? ==> fresh(r.value) && r.value.Data() == docs[id]
    {
      if id in docs {
        var cs := new CallSession.FromData(docs[id]);
        r := Some(cs);
      } else {
        r := None;
      }
    }

    method FindByReservationId(rid: string) returns (r: Option<CallSession>)
      ensures r.Some? <==> FindByReservation(Store(), rid).Some?
      ensures r.Some? ==> fresh(r.value) && r.value.Data() == FindByReservation(Store(), rid).value
    {
      var found := FindByReservation(Store(), rid);
      if found.Some? {
        var cs := new CallSession.FromData(found.value);
        r := Some(cs);
      } else {
        r := None;
      }
    }

    /** `findAll`: one fresh object per document, in listing order. */
    method FindAll() returns (r: seq<CallSession>)
      requires Valid()
      ensures |r| == |order|
      ensures forall i | 0 <= i < |r| :: fresh(r[i]) && order[i] in docs && r[i].Data() == docs[order[i]]
      ensures forall i, j | 0 <= i < j < |r| :: r[i] != r[j]
    {
      r := [];
      var i := 0;
      while i < |order|
        invariant 0 <= i <= |order| && |r| == i
        invariant forall j | 0 <= j < i :: fresh(r[j]) && order[j] in docs && r[j].Data() == docs[order[j]]
        invariant forall j, k | 0 <= j < k < i :: r[j] != r[k]
      {
        assert order[i] in docs;
        var cs := new CallSession.FromData(docs[order[i]]);
        r := r + [cs];
        i := i + 1;
      }
    }

    method Save(cs: CallSession, fault: Option<Fault>) returns (err: Option<Fault>)
      requires Valid()
      modifies this
      ensures Valid()
      ensures (Store(), err) == SaveResult(old(Store()), cs.Data(), fault)
    {
      SaveStores(Store(), cs.Data(), fault);
      var (st1, e) := SaveResult(Store(), cs.Data(), fault);
      docs, order, err := st1.docs, st1.order, e;
    }

    /** `save(cs)` of a session built by `CallSession.create`, whose `@Id` is
        still null: an insert. */
    method Insert(cs: CallSession, fault: Option<Fault>) returns (err: Option<Fault>)
      requires Valid()
      modifies this
      ensures Valid()
      ensures (Store(), err) == InsertResult(old(Store()), cs.Data(), fault)
    {
      InsertStores(Store(), cs.Data(), fault);
      var (st1, e) := InsertResult(Store(), cs.Data(), fault);
      docs, order, err := st1.docs, st1.order, e;
    }
  }

  /** The service: the store, the metrics engine, the configured maximum
      call length in minutes, and the live-call counter. */
  class CallSessionService {
    const repo: CallSessionRepository
    const qualityMetrics: QM.QualityMetricsService
    const maxMinutes: int
    var concurrentCalls: int

    ghost predicate Valid()
      reads this, repo
    {
      repo.Valid()
    }

    function State(): ServiceState
      reads this, repo
    {
      ServiceState(repo.Store(), concurrentCalls)
    }

    constructor (repo: CallSessionRepository, qualityMetrics: QM.QualityMetricsService, maxMinutes: int)
      requires repo.Valid()
      ensures Valid()
      ensures this.repo == repo && this.qualityMetrics == qualityMetrics && this.maxMinutes == maxMinutes
      ensures concurrentCalls == 0
    {
      this.repo := repo;
      this.qualityMetrics := qualityMetrics;
      this.maxMinutes := maxMinutes;
      concurrentCalls := 0;
    }

    /** `create(reservationId)` at `now`, `newId` being the next ULID. */
    method Create(rid: string, newId: string, now: int, fault: Option<Fault>) returns (r: Outcome<CallSession>)
      requires Valid()
      modifies this, repo
      ensures Valid()
      ensures var (s1, out) := CreateStep(old(State()), maxMinutes, rid, newId, now, fault);
        && State() == s1
        && r.Done? == out.Done?
        && (r.Done? ==> fresh(r.value) && r.value.Data() == out.value)
        && (r.Thrown? ==> r.fault == out.fault)
    {
      var existing := repo.FindByReservationId(rid);
      if existing.Some? {
        return Done(existing.value);
      }
      r := CreateNew(rid, newId, now, fault);
    }

    /** The part of `create` for a reservation without a session. */
    method CreateNew(rid: string, newId: string, now: int, fault: Option<Fault>) returns (r: Outcome<CallSession>)
      requires Valid() && FindByReservation(repo.Store(), rid).None?
      modifies this, repo
      ensures Valid()
      ensures var (s1, out) := CreateStep(old(State()), maxMinutes, rid, newId, now, fault);
        && State() == s1
        && r.Done? == out.Done?
        && (r.Done? ==> fresh(r.value) && r.value.Data() == out.value)
        && (r.Thrown? ==> r.fault == out.fault)
    {
      ghost var s0 := State();
      ghost var d := Created(newId, rid, now + TtlMs(maxMinutes), now);
      ghost var saved := InsertResult(s0.store, d, fault);
      assert CreateStep(s0, maxMinutes, rid, newId, now, fault) ==
        if saved.1.Some? then (s0, Thrown(saved.1.value)) else (ServiceState(saved.0, s0.concurrentCalls + 1), Done(d));
      var cs := CallSession.Create(newId, rid, now + TtlMs(maxMinutes), now);
      var err := repo.Insert(cs, fault);
      assert repo.Store() == saved.0 && err == saved.1;
      if err.Some? {
        return Thrown(err.value);
      }
      concurrentCalls := concurrentCalls + 1;
      r := Done(cs);
    }

    method FindBySessionId(id: string) returns (r: Option<CallSession>)
      ensures r.Some? <==> id in repo.docs
      ensures r.Some? ==> fresh(r.value) && r.value.Data() == repo.docs[id]
    {
      r := repo.FindBySessionId(id);
    }

    /** `markConnected(cs)` at `now`: update the object, save it, and only
      after a successful save record the setup time as a success. */
    method MarkConnected(cs: CallSession, now: int, fault: Option<Fault>) returns (err: Option<Fault>)
      requires Valid()
      modifies cs, repo, qualityMetrics
      ensures Valid()
      ensures cs.Data() == Connected(old(cs.Data()), now)
      ensures (repo.Store(), err) == SaveResult(old(repo.Store()), cs.Data(), fault)
      ensures qualityMetrics.State() ==
        if err.None? then QM.SuccessRecorded(old(qualityMetrics.State()), cs.setupMs, now)
        else old(qualityMetrics.State())
      ensures concurrentCalls == old(concurrentCalls)
    {
      if cs.connectedAt.None? {
        cs.SetConnectedAt(Some(now));
      }
      cs.SetStatus(CONNECTED);
      var setup := cs.connectedAt.value - cs.createdAt;
      cs.SetSetupMs(setup);
      err := repo.Save(cs, fault);
      if err.None? {
        qualityMetrics.RecordSuccess(setup, now);
      }
    }

    /** `markFailedSetup(cs)` at `now`: the failure is recorded first, so it
      counts even when the save then fails. */
    method MarkFailedSetup(cs: CallSession, now: int, fault: Option<Fault>) returns (err: Option<Fault>)
      requires Valid()
      modifies repo, qualityMetrics
      ensures Valid()
      ensures qualityMetrics.State() == QM.FailureRecorded(old(qualityMetrics.State()), now)
      ensures (repo.Store(), err) == SaveResult(old(repo.Store()), cs.Data(), fault)
      ensures concurrentCalls == old(concurrentCalls)
    {
      qualityMetrics.RecordFailure(now);
      err := repo.Save(cs, fault);
    }

    /** `end(cs)` at `now`: update the object, save it, and after a
      successful save take one off the counter. An already ended session is
      ended again and counted off again. */
    method End(cs: CallSession, now: int, fault: Option<Fault>) returns (err: Option<Fault>)
      requires Valid()
      modifies this, cs, repo
      ensures Valid()
      ensures cs.Data() == Ended(old(cs.Data()), now)
      ensures (repo.Store(), err) == SaveResult(old(repo.Store()), cs.Data(), fault)
      ensures concurrentCalls == old(concurrentCalls) - (if err.None? then 1 else 0)
    {
      cs.SetStatus(ENDED);
      cs.SetEndedAt(Some(now));
      if cs.connectedAt.Some? {
        cs.SetTotalDurationMs(cs.endedAt.value - cs.connectedAt.value);
      }
      err := repo.Save(cs, fault);
      if err.None? {
        concurrentCalls := concurrentCalls - 1;
      }
    }

    /** `snapshot()`: the metrics engine's snapshot at `now`. */
    method Snapshot(now: int) returns (snap: QM.MetricsSnapshot)
      modifies qualityMetrics
      ensures qualityMetrics.State() == QM.Evicted(old(qualityMetrics.State()), now)
      ensures snap == QM.SnapshotOf(qualityMetrics.State(), now)
    {
      snap := qualityMetrics.Snapshot(now);
    }
  }
}
