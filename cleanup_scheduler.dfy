/** The periodic sweep that ends calls running longer than the configured
    maximum (CleanupScheduler.java). */
module Cleanup {
  import opened Common
  import opened Domain
  import opened CallSessions

  /** `maxMinutesMs`: the configured minutes in milliseconds. */
  function MaxMinutesMs(maxMinutes: int): int {
    maxMinutes * 60000
  }

  /** The sweep's test: not ENDED, and strictly older than the limit. */
  predicate Due(d: SessionData, now: int, limitMs: int) {
    d.status != ENDED && now - d.createdAt > limitMs
  }

  /** The keys among `keys` whose documents are due, in order. */
  function DueKeys(docs: map<string, SessionData>, keys: seq<string>, now: int, limitMs: int): (r: seq<string>)
    ensures |r| <= |keys|
    decreases |keys|
  {
    if keys == [] then []
    else
      var last := keys[|keys| - 1];
      var front := DueKeys(docs, keys[..|keys| - 1], now, limitMs);
      if last in docs && Due(docs[last], now, limitMs) then front + [last] else front
  }

  /** The sweep selects a listed session exactly when it is due: it never
      selects an ENDED one or one within the age limit, and it misses no
      due one. */
  lemma {:induction false} DueKeysExact(docs: map<string, SessionData>, keys: seq<string>, now: int, limitMs: int, k: string)
    ensures k in DueKeys(docs, keys, now, limitMs) <==> k in keys && k in docs && Due(docs[k], now, limitMs)
    decreases |keys|
  {
    if keys != [] {
      var front := keys[..|keys| - 1];
      DueKeysExact(docs, front, now, limitMs, k);
      assert keys == front + [keys[|keys| - 1]];
    }
  }

  /** An ENDED session is never due, however old; a session whose age is at
      most the limit is never due. */
  lemma NeverDue(d: SessionData, now: int, limitMs: int)
    requires d.status == ENDED || now - d.createdAt <= limitMs
    ensures !Due(d, now, limitMs)
  {
  }

  /** An empty store yields nothing to end. */
  lemma EmptyStoreNothingDue(now: int, limitMs: int)
    ensures DueKeys(map[], [], now, limitMs) == []
  {
  }

  /** Looking at one more key extends the due list by that key when it is
      due. */
  lemma DueKeysSnoc(docs: map<string, SessionData>, keys: seq<string>, i: nat, now: int, limitMs: int)
    requires i < |keys|
    ensures DueKeys(docs, keys[..i + 1], now, limitMs) ==
      DueKeys(docs, keys[..i], now, limitMs)
        + (if keys[i] in docs && Due(docs[keys[i]], now, limitMs) then [keys[i]] else [])
  {
    assert keys[..i + 1][..i] == keys[..i];
  }

  /** The due keys of a prefix of the listing are a prefix of the due keys
      of the whole listing. */
  lemma {:induction false} DuePrefix(docs: map<string, SessionData>, keys: seq<string>, i: nat, now: int, limitMs: int)
    requires i <= |keys|
    ensures var p := DueKeys(docs, keys[..i], now, limitMs);
      var all := DueKeys(docs, keys, now, limitMs);
      |p| <= |all| && all[..|p|] == p
    decreases |keys| - i
  {
    if i == |keys| {
      assert keys[..i] == keys;
    } else {
      DuePrefix(docs, keys, i + 1, now, limitMs);
      DueKeysSnoc(docs, keys, i, now, limitMs);
      var p := DueKeys(docs, keys[..i], now, limitMs);
      var q := DueKeys(docs, keys[..i + 1], now, limitMs);
      var all := DueKeys(docs, keys, now, limitMs);
      assert q[..|p|] == p;
      assert all[..|p|] == all[..|q|][..|p|];
    }
  }

  /** The documents after ending each key of `ended` at `now`. */
  function EndedDocs(docs: map<string, SessionData>, ended: seq<string>, now: int): (r: map<string, SessionData>)
    ensures r.Keys == docs.Keys
  {
    map k | k in docs :: if k in ended then Ended(docs[k], now) else docs[k]
  }

  /** What a sweep over the listing `order` reports: the sessions it ended
      are the due ones in listing order up to the first failed save; with
      no failure that is all of them, and a failure is the one raised for
      the next due session. No session whose save fails is among the ended
      ones. */
  predicate SweepOutcome(docs: map<string, SessionData>, order: seq<string>, now: int, limitMs: int,
                         faults: map<string, Fault>, ended: seq<string>, err: Option<Fault>)
  {
    var due := DueKeys(docs, order, now, limitMs);
    && |ended| <= |due| && ended == due[..|ended|]
    && (err.None? ==> ended == due)
    && (err.Some? ==> |ended| < |due| && err == FaultFor(faults, due[|ended|]))
    && (forall k | k in ended :: k !in faults)
  }

  /** A sweep that reports no failure ended exactly the listed sessions
      that were due. */
  lemma SweepEndsExactlyDue(docs: map<string, SessionData>, order: seq<string>, now: int, limitMs: int,
                            faults: map<string, Fault>, ended: seq<string>, k: string)
    requires SweepOutcome(docs, order, now, limitMs, faults, ended, None)
    ensures k in ended <==> k in order && k in docs && Due(docs[k], now, limitMs)
  {
    DueKeysExact(docs, order, now, limitMs, k);
  }

  /** A sweep that reports a failure ended only due sessions, and left the
      failing one and every due session after it untouched. */
  lemma SweepStopsAtFailure(docs: map<string, SessionData>, order: seq<string>, now: int, limitMs: int,
                            faults: map<string, Fault>, ended: seq<string>, f: Fault)
    requires SweepOutcome(docs, order, now, limitMs, faults, ended, Some(f))
    ensures var due := DueKeys(docs, order, now, limitMs);
      && (forall k | k in ended :: k in order && k in docs && Due(docs[k], now, limitMs))
      && due[|ended|] in faults && faults[due[|ended|]] == f
  {
    var due := DueKeys(docs, order, now, limitMs);
    forall k | k in ended
      ensures k in order && k in docs && Due(docs[k], now, limitMs)
    {
      assert k in due;
      DueKeysExact(docs, order, now, limitMs, k);
    }
  }

  /** A sweep that got through the whole listing without a failure. */
  lemma SweepFinished(docs: map<string, SessionData>, order: seq<string>, now: int, limitMs: int,
                      faults: map<string, Fault>, ended: seq<string>)
    requires ended == DueKeys(docs, order, now, limitMs)
    requires forall k | k in ended :: k !in faults
    ensures SweepOutcome(docs, order, now, limitMs, faults, ended, None)
  {
    assert ended[..|ended|] == ended;
  }

  /** When the sweep stops at the `i`-th listed session, the sessions ended
      so far are the due ones before it, and it is the next due one. */
  lemma StoppedAt(docs: map<string, SessionData>, keys: seq<string>, i: nat, ended: seq<string>, now: int, limitMs: int)
    requires i < |keys|
    requires DueKeys(docs, keys[..i + 1], now, limitMs) == ended + [keys[i]]
    ensures var due := DueKeys(docs, keys, now, limitMs);
      |ended| < |due| && due[|ended|] == keys[i] && due[..|ended|] == ended
  {
    DuePrefix(docs, keys, i + 1, now, limitMs);
    var next := ended + [keys[i]];
    var due := DueKeys(docs, keys, now, limitMs);
    assert due[..|next|] == next;
    assert due[..|next|][|ended|] == due[|ended|];
    assert due[..|ended|] == next[..|ended|];
  }

  /** The `i`-th listed session is not among the due ones listed before it:
      the listing has no repeats. */
  lemma NotYetEnded(st0: StoreState, i: nat, now: int, limitMs: int)
    requires StoreInvariant(st0) && i < |st0.order|
    ensures st0.order[i] !in DueKeys(st0.docs, st0.order[..i], now, limitMs)
  {
    DueKeysExact(st0.docs, st0.order[..i], now, limitMs, st0.order[i]);
  }

  /** What one `end` of the `i`-th listed, due session does to the sweep:
      a successful save ends exactly that document and extends the due list
      by it; a failed one changes nothing and the sweep stops there. */
  lemma EndStepFacts(st0: StoreState, i: nat, ended: seq<string>, now: int, limitMs: int,
                     faults: map<string, Fault>, before: StoreState, after: StoreState, err: Option<Fault>)
    requires StoreInvariant(st0) && i < |st0.order|
    requires st0.order[i] in st0.docs && Due(st0.docs[st0.order[i]], now, limitMs)
    requires ended == DueKeys(st0.docs, st0.order[..i], now, limitMs)
    requires forall k | k in ended :: k !in faults
    requires before == StoreState(EndedDocs(st0.docs, ended, now), st0.order)
    requires (after, err) == SaveResult(before, Ended(st0.docs[st0.order[i]], now), FaultFor(faults, st0.order[i]))
    ensures after.order == st0.order
    ensures var k := st0.order[i];
      && (err.None? ==>
            && k !in faults
            && after.docs == EndedDocs(st0.docs, ended + [k], now)
            && ended + [k] == DueKeys(st0.docs, st0.order[..i + 1], now, limitMs))
      && (err.Some? ==>
            after == before && SweepOutcome(st0.docs, st0.order, now, limitMs, faults, ended, err))
  {
    var k := st0.order[i];
    DueKeysSnoc(st0.docs, st0.order, i, now, limitMs);
    NotYetEnded(st0, i, now, limitMs);
    EndedSaveFitsIndex(st0, ended, now, before, k);
    SaveStores(before, Ended(st0.docs[k], now), FaultFor(faults, k));
    if err.None? {
      EndedDocsStep(st0.docs, ended, k, now);
    } else {
      StoppedAt(st0.docs, st0.order, i, ended, now, limitMs);
    }
  }

  /** Ending one more, not yet ended, session updates exactly its document. */
  lemma EndedDocsStep(docs: map<string, SessionData>, ended: seq<string>, k: string, now: int)
    requires k in docs && k !in ended
    ensures EndedDocs(docs, ended, now)[k := Ended(docs[k], now)] == EndedDocs(docs, ended + [k], now)
  {
  }

  /** Ending sessions keeps the store invariant: it changes no key, no
      session id and no reservation id. */
  lemma EndedDocsKeepInvariant(st0: StoreState, ended: seq<string>, now: int)
    requires StoreInvariant(st0)
    ensures StoreInvariant(StoreState(EndedDocs(st0.docs, ended, now), st0.order))
  {
  }

  /** The fault the store raises when saving session `k`, if any. */
  function FaultFor(faults: map<string, Fault>, k: string): Option<Fault> {
    if k in faults then Some(faults[k]) else None
  }

  /** While the sweep runs, saving an ended copy of one of the original
      documents never clashes on the reservation index: ending changes no
      reservation id. */
  lemma EndedSaveFitsIndex(st0: StoreState, ended: seq<string>, now: int, st: StoreState, k: string)
    requires StoreInvariant(st0) && k in st0.docs
    requires st.docs == EndedDocs(st0.docs, ended, now)
    ensures SaveResult(st, Ended(st0.docs[k], now), None).1.None?
  {
    var d := Ended(st0.docs[k], now);
    assert d.sessionId == k;
    forall kk | kk in st.docs && kk != k
      ensures st.docs[kk].reservationId != d.reservationId
    {
      assert st.docs[kk].reservationId == st0.docs[kk].reservationId;
    }
  }

  class CleanupScheduler {
    const repo: CallSessionRepository
    const service: CallSessionService
    const maxMinutesMs: int

    ghost predicate Valid()
      reads this, service, repo
    {
      service.repo == repo && repo.Valid()
    }

    constructor (repo: CallSessionRepository, service: CallSessionService, maxMinutes: int)
      requires service.repo == repo && repo.Valid()
      ensures Valid() && this.repo == repo && this.service == service
      ensures maxMinutesMs == MaxMinutesMs(maxMinutes)
    {
      this.repo := repo;
      this.service := service;
      maxMinutesMs := maxMinutes * 60000;
    }

    /** `autoEndOldSessions` at `now`: end every due session, in listing
        order, each against the same `now`. Saving session `k` fails with
        `faults[k]` when present; the first failure stops the sweep. */
    method AutoEndOldSessions(now: int, faults: map<string, Fault>) returns (ended: seq<string>, err: Option<Fault>)
      requires Valid()
      modifies repo, service
      ensures Valid()
      ensures SweepOutcome(old(repo.docs), old(repo.order), now, maxMinutesMs, faults, ended, err)
      ensures repo.order == old(repo.order)
      ensures repo.docs == EndedDocs(old(repo.docs), ended, now)
      ensures service.concurrentCalls == old(service.concurrentCalls) - |ended|
    {
      ghost var docs0 := repo.docs;
      ghost var order0 := repo.order;
      assert StoreInvariant(StoreState(docs0, order0));
      var all := repo.FindAll();
      label Listed:
      ended := [];
      err := None;
      var i := 0;
      while i < |all|
        invariant 0 <= i <= |all| == |order0|
        invariant service.repo == repo && repo.order == order0
        invariant ended == DueKeys(docs0, order0[..i], now, maxMinutesMs)
        invariant forall k | k in ended :: k !in faults
        invariant repo.docs == EndedDocs(docs0, ended, now)
        invariant service.concurrentCalls == old(service.concurrentCalls) - |ended|
        invariant forall j | i <= j < |all| :: old@Listed(all[j].Data()) == docs0[order0[j]]
        invariant forall j | i <= j < |all| :: unchanged@Listed(all[j])
      {
        var e;
        ended, e := EndIfDue(all[i], i, now, faults, docs0, order0, ended);
        if e.Some? {
          EndedDocsKeepInvariant(StoreState(docs0, order0), ended, now);
          return ended, e;
        }
        i := i + 1;
      }
      assert order0[..i] == order0;
      SweepFinished(docs0, order0, now, maxMinutesMs, faults, ended);
      EndedDocsKeepInvariant(StoreState(docs0, order0), ended, now);
    }

    /** The loop body of the sweep for `cs`, the `i`-th listed copy: end it
        when it is due. On success the sweep's invariant holds one position
        further on; on failure the sweep's outcome is final. */
    method EndIfDue(cs: CallSession, i: nat, now: int, faults: map<string, Fault>,
                    ghost docs0: map<string, SessionData>, ghost order0: seq<string>, endedIn: seq<string>)
      returns (ended: seq<string>, err: Option<Fault>)
      requires service.repo == repo && StoreInvariant(StoreState(docs0, order0))
      requires i < |order0| && cs.Data() == docs0[order0[i]]
      requires endedIn == DueKeys(docs0, order0[..i], now, maxMinutesMs)
      requires forall k | k in endedIn :: k !in faults
      requires repo.docs == EndedDocs(docs0, endedIn, now) && repo.order == order0
      modifies cs, repo, service
      ensures repo.order == order0
      ensures forall k | k in ended :: k !in faults
      ensures repo.docs == EndedDocs(docs0, ended, now)
      ensures service.concurrentCalls == old(service.concurrentCalls) - (|ended| - |endedIn|)
      ensures err.None? ==> ended == DueKeys(docs0, order0[..i + 1], now, maxMinutesMs)
      ensures err.Some? ==> SweepOutcome(docs0, order0, now, maxMinutesMs, faults, ended, err)
    {
      var k := cs.sessionId;
      ended, err := endedIn, None;
      DueKeysSnoc(docs0, order0, i, now, maxMinutesMs);
      if cs.status != ENDED && now - cs.createdAt > maxMinutesMs {
        EndedDocsKeepInvariant(StoreState(docs0, order0), ended, now);
        ghost var before := repo.Store();
        err := service.End(cs, now, FaultFor(faults, k));
        EndStepFacts(StoreState(docs0, order0), i, ended, now, maxMinutesMs, faults, before, repo.Store(), err);
        if err.None? {
          ended := ended + [k];
        }
      }
    }
  }
}
