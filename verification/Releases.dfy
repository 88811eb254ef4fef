/** Exactly when a release is recorded, and what it frees. */
module Releases {
  import opened Options
  import opened Ledger
  import opened Firewall
  import opened Lawful
  import opened Envelopes
  import opened Protocol
  import opened Effects

  /** What a reservation on record says about its trade and its authorization. */
  lemma ReservedMeans(cap: real, log: Log, t: string, a: string, r: string)
    requires IsLawful(cap, log) && Select(log, ReservedFor(t, a, r)) != []
    ensures t != "" && |Select(log, ReservedFor(t, a, r))| == 1 && GetAuthorization(log, t, a).Some?
    ensures GetAuthorization(log, t, a).value.status == if Select(log, RevokedFor(t, a)) != [] then Revoked else Active
  {
    ReservedForOnce(cap, log, t, a, r);
    SelectHead(log, ReservedFor(t, a, r));
    var x := Select(log, ReservedFor(t, a, r))[0];
    ReservationTerms(cap, log, x);
    IssuedOnceRevokedOnce(cap, log, t, a);
    LawfulIsWellFormed(cap, log);
    KnownIsIdentified(log, x);
  }

  /** The release of a reservation on record is written exactly if its names are new. */
  lemma RecordReleaseExactly(log: Log, t: string, a: string, r: string, status: AuthorizationStatus,
                             pre: Option<string>, now: int, id: string, key: string)
    requires t != "" && |Select(log, ReservedFor(t, a, r))| == 1
    ensures RecordRelease(log, t, a, r, status, pre, now, id, key).log != log <==> NewNames(log, id, key)
  {
    var e := Event(id, now, t, None, ReservationReleased, key,
                   Release(r, a, ReservedAmount(log, t, a, r), now, status, pre));
    AppendedExactly(log, e);
    if FreshKey(log, key) { FreshKeyIsNotSeen(log, t, key); }
  }

  /** What an added release frees: the amount reserved the first time, nothing after that. */
  function Freed(log: Log, t: string, a: string, r: string): real {
    if r in ReleasedIds(log, t, a) then 0.0 else ReservedAmount(log, t, a, r)
  }

  lemma AddedReleaseFrees(cap: real, log: Log, longer: Log, t: string, a: string, r: string)
    requires LawfulExtension(cap, log, longer) && longer.Recorded? && longer.before == log
    requires ReleasesReservation(log, longer.last, t, a, r)
    ensures ActiveReserved(longer, t, a) == ActiveReserved(log, t, a) - Freed(log, t, a, r)
    ensures r in ReleasedIds(longer, t, a)
  {
    HeldAfter(cap, log, longer.last, t, a);
  }

  /** On every lawful ledger a release after close is recorded exactly when the reservation is on record, nothing is
      unresolved, the trade is closed or reconciled, and the names of the request are new.  Whether the reservation was
      released before makes no difference to that, but then nothing is freed. */
  lemma ReleaseExactly(cap: real, log: Log, t: string, a: string, r: string, now: int, id: string, key: string)
    requires IsLawful(cap, log)
    ensures var longer := ReleaseReservation(log, t, a, r, now, id, key).log;
            && (longer != log <==>
                  && Select(log, ReservedFor(t, a, r)) != [] && !RiskBlocked(log)
                  && StateOf(log, t) in {Some(Closed), Some(Reconciled)} && NewNames(log, id, key))
            && (longer != log ==> r in ReleasedIds(longer, t, a))
            && ActiveReserved(longer, t, a)
               == ActiveReserved(log, t, a) - if longer != log then Freed(log, t, a, r) else 0.0
  {
    var longer := ReleaseReservation(log, t, a, r, now, id, key).log;
    ReleaseLawful(cap, log, t, a, r, now, id, key);
    ReleaseAdds(log, t, a, r, now, id, key);
    if longer != log { AddedReleaseFrees(cap, log, longer, t, a, r); }
    ReleaseIsWritten(cap, log, t, a, r, now, id, key);
  }

  lemma ReleaseIsWritten(cap: real, log: Log, t: string, a: string, r: string, now: int, id: string, key: string)
    requires IsLawful(cap, log)
    ensures ReleaseReservation(log, t, a, r, now, id, key).log != log <==>
            && Select(log, ReservedFor(t, a, r)) != [] && !RiskBlocked(log)
            && StateOf(log, t) in {Some(Closed), Some(Reconciled)} && NewNames(log, id, key)
  {
    if Select(log, ReservedFor(t, a, r)) != [] {
      ReservedMeans(cap, log, t, a, r);
      var status := GetAuthorization(log, t, a).value.status;
      RecordReleaseExactly(log, t, a, r, status, None, now, id, key);
      if FreshKey(log, key) { FreshKeyIsNotSeen(log, t, key); }
    }
  }

  lemma {:induction false} NoSubmissionType(cap: real, log: Log, t: string)
    requires IsLawful(cap, log) && Select(log, SubmissionState(t)) == []
    ensures Select(log, SubmissionType(t)) == []
  {
    if log.Recorded? { NoSubmissionType(cap, log.before, t); }
  }

  /** Before execution the same holds of a trade that is still authorized and whose authorization was revoked. */
  lemma ReleasePreExactly(cap: real, log: Log, t: string, a: string, r: string, reason: string, now: int, id: string,
                          key: string)
    requires IsLawful(cap, log)
    ensures var longer := ReleasePreExecution(log, t, a, r, reason, now, id, key).log;
            && (longer != log <==>
                  && !Blank(reason) && Select(log, ReservedFor(t, a, r)) != [] && !RiskBlocked(log)
                  && Select(log, RevokedFor(t, a)) != [] && StateOf(log, t) == Some(Authorized)
                  && NewNames(log, id, key))
            && (longer != log ==> r in ReleasedIds(longer, t, a))
            && ActiveReserved(longer, t, a)
               == ActiveReserved(log, t, a) - if longer != log then Freed(log, t, a, r) else 0.0
  {
    var longer := ReleasePreExecution(log, t, a, r, reason, now, id, key).log;
    ReleasePreLawful(cap, log, t, a, r, reason, now, id, key);
    ReleasePreAdds(log, t, a, r, reason, now, id, key);
    if longer != log { AddedReleaseFrees(cap, log, longer, t, a, r); }
    ReleasePreIsWritten(cap, log, t, a, r, reason, now, id, key);
  }

  lemma ReleasePreIsWritten(cap: real, log: Log, t: string, a: string, r: string, reason: string, now: int, id: string,
                            key: string)
    requires IsLawful(cap, log)
    ensures ReleasePreExecution(log, t, a, r, reason, now, id, key).log != log <==>
            && !Blank(reason) && Select(log, ReservedFor(t, a, r)) != [] && !RiskBlocked(log)
            && Select(log, RevokedFor(t, a)) != [] && StateOf(log, t) == Some(Authorized) && NewNames(log, id, key)
  {
    if Select(log, ReservedFor(t, a, r)) != [] {
      ReservedMeans(cap, log, t, a, r);
      var status := GetAuthorization(log, t, a).value.status;
      RecordReleaseExactly(log, t, a, r, status, Some(reason), now, id, key);
      if StateOf(log, t) == Some(Authorized) {
        NotSubmittedYet(cap, log, t);
        NoSubmissionType(cap, log, t);
      }
    }
  }

  lemma NotSubmittedYet(cap: real, log: Log, t: string)
    requires IsLawful(cap, log) && StateOf(log, t) == Some(Authorized)
    ensures Select(log, SubmissionState(t)) == []
  {
    LawfulIsWellFormed(cap, log);
    if Select(log, SubmissionState(t)) != [] { SubmittedIsPastAuthorized(log, t); }
  }

  /** A reservation released before is released again on the same terms, and the release frees nothing. */
  lemma SecondReleaseFreesNothing(cap: real, log: Log, t: string, a: string, r: string, now: int, id: string,
                                  key: string)
    requires IsLawful(cap, log) && r in ReleasedIds(log, t, a)
    ensures var longer := ReleaseReservation(log, t, a, r, now, id, key).log;
            && (longer != log <==>
                  && !RiskBlocked(log) && StateOf(log, t) in {Some(Closed), Some(Reconciled)} && NewNames(log, id, key))
            && ActiveReserved(longer, t, a) == ActiveReserved(log, t, a)
  {
    ReleasedWasReserved(cap, log, t, a, r);
    ReleaseExactly(cap, log, t, a, r, now, id, key);
  }

  lemma SecondReleasePreFreesNothing(cap: real, log: Log, t: string, a: string, r: string, reason: string, now: int,
                                     id: string, key: string)
    requires IsLawful(cap, log) && r in ReleasedIds(log, t, a)
    ensures var longer := ReleasePreExecution(log, t, a, r, reason, now, id, key).log;
            && (longer != log <==>
                  && !Blank(reason) && !RiskBlocked(log) && Select(log, RevokedFor(t, a)) != []
                  && StateOf(log, t) == Some(Authorized) && NewNames(log, id, key))
            && ActiveReserved(longer, t, a) == ActiveReserved(log, t, a)
  {
    ReleasedWasReserved(cap, log, t, a, r);
    ReleasePreExactly(cap, log, t, a, r, reason, now, id, key);
  }
}
