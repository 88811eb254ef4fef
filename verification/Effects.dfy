/** What a caller of the capital firewall can rely on: which event an operation adds, and what holds after success. */
module Effects {
  import opened Options
  import opened Ledger
  import opened Firewall
  import opened Lawful
  import opened Protocol

  /** An operation wrote nothing, or this one event and reported no error. */
  predicate WritesAtMost(log: Log, out: Outcome, e: Event) {
    out.log == log || (out.error.None? && out.log == Recorded(log, e))
  }

  lemma RecordWrites(log: Log, e: Event)
    ensures WritesAtMost(log, Record(log, e), e)
    ensures Record(log, e).error.None? && Record(log, e).log == log ==>
              Select(log, ByKey(e.key)) != [] && SameSemantics(Select(log, ByKey(e.key))[0], e)
  {
  }

  // ----------------------------------------------------------- what is written

  lemma IssueAdds(cap: real, log: Log, t: string, a: string, risk: real, issued: int, expires: int, proof: Proof,
                  id: string, key: string)
    ensures var out := IssueAuthorization(cap, log, t, a, risk, issued, expires, proof, id, key);
            out.log == log
            || out.log == Recorded(log, Event(id, issued, t, None, AuthorizationIssued, key,
                                              Issue(a, risk, issued, expires, proof)))
  {
    RecordWrites(log, Event(id, issued, t, None, AuthorizationIssued, key, Issue(a, risk, issued, expires, proof)));
  }

  lemma AuthorizeAdds(log: Log, t: string, a: string, now: int, id: string, key: string)
    ensures var out := AuthorizeTrade(log, t, a, now, id, key);
            out.log == log
            || (GetAuthorization(log, t, a).Some?
                && var auth := GetAuthorization(log, t, a).value;
                   WritesAtMost(log, out, Event(id, now, t, Some(Authorized), TradeAuthorized, key,
                                                TradeAuthorization(a, auth.expiresAt, auth.authorizedRisk))))
  {
    var auth := GetAuthorization(log, t, a);
    if auth.Some? {
      RecordWrites(log, Event(id, now, t, Some(Authorized), TradeAuthorized, key,
                              TradeAuthorization(a, auth.value.expiresAt, auth.value.authorizedRisk)));
    }
  }

  lemma RevokeAdds(log: Log, t: string, a: string, reason: string, now: int, id: string, key: string)
    ensures WritesAtMost(log, RevokeAuthorization(log, t, a, reason, now, id, key),
                         Event(id, now, t, None, AuthorizationRevoked, key, Revocation(a, reason, now)))
  {
    RecordWrites(log, Event(id, now, t, None, AuthorizationRevoked, key, Revocation(a, reason, now)));
  }

  lemma ReserveAdds(log: Log, t: string, a: string, amount: real, r: string, now: int, id: string, key: string)
    ensures var out := Reserve(log, t, a, amount, r, now, id, key);
            out.log == log
            || (GetAuthorization(log, t, a).Some?
                && WritesAtMost(log, out, Event(id, now, t, None, ReservationCreated, key,
                                                Reservation(r, a, amount,
                                                            GetAuthorization(log, t, a).value.expiresAt))))
  {
    var auth := GetAuthorization(log, t, a);
    if auth.Some? {
      RecordWrites(log, Event(id, now, t, None, ReservationCreated, key,
                              Reservation(r, a, amount, auth.value.expiresAt)));
    }
  }

  /** A release of exactly the amount that was reserved. */
  predicate ReleasesReservation(log: Log, e: Event, t: string, a: string, r: string) {
    && IsRelease(e, t, a) && e.state.None? && e.payload.reservationId == r
    && |Select(log, ReservedFor(t, a, r))| == 1 && e.payload.amount == ReservedAmount(log, t, a, r)
  }

  lemma RecordReleaseAdds(log: Log, t: string, a: string, r: string, status: AuthorizationStatus, pre: Option<string>,
                          now: int, id: string, key: string)
    ensures var out := RecordRelease(log, t, a, r, status, pre, now, id, key);
            out.log == log || (out.error.None? && out.log.Recorded? && out.log.before == log
                               && ReleasesReservation(log, out.log.last, t, a, r) && out.log.last.key == key)
  {
    if |Select(log, ReservedFor(t, a, r))| == 1 {
      RecordWrites(log, Event(id, now, t, None, ReservationReleased, key,
                              Release(r, a, ReservedAmount(log, t, a, r), now, status, pre)));
    }
  }

  lemma ReleasePreAdds(log: Log, t: string, a: string, r: string, reason: string, now: int, id: string, key: string)
    ensures var out := ReleasePreExecution(log, t, a, r, reason, now, id, key);
            out.log == log || (out.error.None? && out.log.Recorded? && out.log.before == log
                               && ReleasesReservation(log, out.log.last, t, a, r) && out.log.last.key == key)
    ensures var out := ReleasePreExecution(log, t, a, r, reason, now, id, key);
            out.log != log ==> StateOf(log, t) == Some(Authorized) && Select(log, RevokedFor(t, a)) != []
  {
    var auth := GetAuthorization(log, t, a);
    if auth.Some? { RecordReleaseAdds(log, t, a, r, auth.value.status, Some(reason), now, id, key); }
  }

  lemma ReleaseAdds(log: Log, t: string, a: string, r: string, now: int, id: string, key: string)
    ensures var out := ReleaseReservation(log, t, a, r, now, id, key);
            out.log == log || (out.error.None? && out.log.Recorded? && out.log.before == log
                               && ReleasesReservation(log, out.log.last, t, a, r) && out.log.last.key == key)
  {
    var auth := GetAuthorization(log, t, a);
    if auth.Some? { RecordReleaseAdds(log, t, a, r, auth.value.status, None, now, id, key); }
  }

  // ----------------------------------------------------- what holds after success

  /** A request that is answered without writing found its event on record. */
  lemma RetriedIsOnRecord(log: Log, t: string, key: string, eventType: EventType, payload: Payload) returns (e: Event)
    requires RetryOf(log, t, key, eventType, payload) == SameRequest
    ensures Has(log, e) && e.tradeId == t && e.eventType == eventType && e.payload == payload
  {
    SelectHead(log, ByTradeKey(t, key));
    e := Select(log, ByTradeKey(t, key))[0];
  }

  lemma ExistingIsOnRecordToo(log: Log, x: Event) returns (e: Event)
    requires Record(log, x).error.None? && Record(log, x).log == log
    ensures Has(log, e) && SameSemantics(e, x)
  {
    RecordWrites(log, x);
    SelectHead(log, ByKey(x.key));
    e := Select(log, ByKey(x.key))[0];
  }

  lemma ReserveRetried(log: Log, t: string, a: string, amount: real, r: string, now: int, id: string, key: string)
    returns (e: Event)
    requires Reserve(log, t, a, amount, r, now, id, key) == Outcome(log, None)
    ensures GetAuthorization(log, t, a).Some? && Has(log, e) && IsReservation(e, t, a)
    ensures e.payload == Reservation(r, a, amount, GetAuthorization(log, t, a).value.expiresAt)
  {
    var auth := GetAuthorization(log, t, a).value;
    var payload := Reservation(r, a, amount, auth.expiresAt);
    var x := Event(id, now, t, None, ReservationCreated, key, payload);
    SelectHead(log, ReservedAs(t, r));
    if Select(log, ReservedAs(t, r)) != [] {
      e := Select(log, ReservedAs(t, r))[0];
    } else if RetryOf(log, t, key, ReservationCreated, payload) == SameRequest {
      e := RetriedIsOnRecord(log, t, key, ReservationCreated, payload);
    } else {
      e := ExistingIsOnRecordToo(log, x);
    }
  }

  /** After a reservation without error it is on record, once, with this amount and the expiry of its authorization;
      a new one is active, and the active sum grew by exactly its amount. */
  lemma ReserveSucceeds(cap: real, log: Log, t: string, a: string, amount: real, r: string, now: int, id: string,
                        key: string)
      returns (e: Event)
    requires IsLawful(cap, log)
    requires Reserve(log, t, a, amount, r, now, id, key).error.None?
    ensures var out := Reserve(log, t, a, amount, r, now, id, key).log;
            && GetAuthorization(log, t, a).Some?
            && var expiry := GetAuthorization(log, t, a).value.expiresAt;
               && Select(out, ReservedAs(t, r)) == [e] && IsReservation(e, t, a)
               && e.payload == Reservation(r, a, amount, expiry)
               && (out != log ==> ActiveReservation(out, t, a, r) == Some((amount, expiry))
                                  && ActiveReserved(out, t, a) == ActiveReserved(log, t, a) + amount)
  {
    var out := Reserve(log, t, a, amount, r, now, id, key).log;
    ReserveLawful(cap, log, t, a, amount, r, now, id, key);
    ReserveAdds(log, t, a, amount, r, now, id, key);
    if out != log {
      e := out.last;
      NewReservationIsActive(cap, log, e, t, a);
    } else {
      e := ReserveRetried(log, t, a, amount, r, now, id, key);
      ReservedOnce(cap, log, t, r);
      Selected(log, ReservedAs(t, r), e);
    }
  }

  lemma NewReservationIsActive(cap: real, log: Log, e: Event, t: string, a: string)
    requires IsLawful(cap, log) && Guard(cap, log, e) && IsReservation(e, t, a)
    ensures Select(Recorded(log, e), ReservedAs(t, e.payload.reservationId)) == [e]
    ensures ActiveReservation(Recorded(log, e), t, a, e.payload.reservationId)
            == Some((e.payload.amount, e.payload.expiresAt))
    ensures ActiveReserved(Recorded(log, e), t, a) == ActiveReserved(log, t, a) + e.payload.amount
  {
    var r := e.payload.reservationId;
    HeldAfter(cap, log, e, t, a);
    NoEarlierReservation(log, e);
    SelectExactly(log, ReservedFor(t, a, r));
    if Select(log, ReservedFor(t, a, r)) != [] { SelectHead(log, ReservedFor(t, a, r)); }
    if Select(log, ReleasedFor(t, a, r)) != [] {
      SelectHead(log, ReleasedFor(t, a, r));
      ReleasedIsReleased(log, t, a, r, Select(log, ReleasedFor(t, a, r))[0]);
      ReleasedWasReserved(cap, log, t, a, r);
    }
  }

  lemma {:induction false} ReleasedIsReleased(log: Log, t: string, a: string, r: string, e: Event)
    requires Has(log, e) && IsRelease(e, t, a) && e.payload.reservationId == r
    ensures r in ReleasedIds(log, t, a)
  {
    if log.last != e { ReleasedIsReleased(log.before, t, a, r, e); }
  }

  lemma RevokeRetried(log: Log, t: string, a: string, reason: string, now: int, id: string, key: string)
    returns (e: Event)
    requires RevokeAuthorization(log, t, a, reason, now, id, key) == Outcome(log, None)
    ensures Has(log, e) && IsRevocation(e, t, a) && e.payload == Revocation(a, reason, now)
  {
    var payload := Revocation(a, reason, now);
    if RetryOf(log, t, key, AuthorizationRevoked, payload) == SameRequest {
      e := RetriedIsOnRecord(log, t, key, AuthorizationRevoked, payload);
    } else {
      e := ExistingIsOnRecordToo(log, Event(id, now, t, None, AuthorizationRevoked, key, payload));
    }
  }

  /** After a revocation without error the authorization is revoked, for good and for this reason. */
  lemma RevokeSucceeds(cap: real, log: Log, t: string, a: string, reason: string, now: int, id: string, key: string)
      returns (e: Event)
    requires IsLawful(cap, log)
    requires RevokeAuthorization(log, t, a, reason, now, id, key).error.None?
    ensures var out := RevokeAuthorization(log, t, a, reason, now, id, key).log;
            && GetAuthorization(out, t, a).Some? && GetAuthorization(out, t, a).value.status == Revoked
            && Select(out, RevokedFor(t, a)) == [e] && e.payload == Revocation(a, reason, now)
  {
    var out := RevokeAuthorization(log, t, a, reason, now, id, key).log;
    RevokeLawful(cap, log, t, a, reason, now, id, key);
    RevokeAdds(log, t, a, reason, now, id, key);
    if out != log {
      e := out.last;
    } else {
      e := RevokeRetried(log, t, a, reason, now, id, key);
    }
    IssuedOnceRevokedOnce(cap, out, t, a);
    Selected(out, RevokedFor(t, a), e);
  }

  lemma AuthorizeRetried(log: Log, t: string, a: string, now: int, id: string, key: string) returns (e: Event)
    requires AuthorizeTrade(log, t, a, now, id, key) == Outcome(log, None)
    ensures Has(log, e) && e.tradeId == t && e.eventType == TradeAuthorized
  {
    var auth := GetAuthorization(log, t, a).value;
    var payload := TradeAuthorization(a, auth.expiresAt, auth.authorizedRisk);
    if RetryOf(log, t, key, TradeAuthorized, payload) == SameRequest {
      e := RetriedIsOnRecord(log, t, key, TradeAuthorized, payload);
    } else {
      e := ExistingIsOnRecordToo(log, Event(id, now, t, Some(Authorized), TradeAuthorized, key, payload));
    }
  }

  /** After an authorization without error the trade is authorized, or, on a retry, was authorized and has moved on. */
  lemma AuthorizeSucceeds(cap: real, log: Log, t: string, a: string, now: int, id: string, key: string)
    requires IsLawful(cap, log)
    requires AuthorizeTrade(log, t, a, now, id, key).error.None?
    ensures var out := AuthorizeTrade(log, t, a, now, id, key).log;
            && NotBefore(Some(Authorized), StateOf(out, t))
            && (out != log ==> StateOf(out, t) == Some(Authorized) && StateOf(log, t) == Some(RiskReserved))
  {
    AuthorizeAdds(log, t, a, now, id, key);
    var out := AuthorizeTrade(log, t, a, now, id, key).log;
    if out == log {
      var e := AuthorizeRetried(log, t, a, now, id, key);
      LawfulIsWellFormed(cap, log);
      WellFormedIsSound(log);
      AuthorizedEvents(cap, log, e);
      StateReached(log, e);
    }
  }

  lemma {:induction false} AuthorizedEvents(cap: real, log: Log, e: Event)
    requires IsLawful(cap, log) && Has(log, e) && e.eventType == TradeAuthorized
    ensures e.state == Some(Authorized)
  {
    if log.last != e { AuthorizedEvents(cap, log.before, e); }
  }

  lemma IssueRetried(cap: real, log: Log, t: string, a: string, risk: real, issued: int, expires: int, proof: Proof,
                     id: string, key: string) returns (e: Event)
    requires IssueAuthorization(cap, log, t, a, risk, issued, expires, proof, id, key) == Outcome(log, None)
    ensures Has(log, e) && e.tradeId == t && e.eventType == AuthorizationIssued
            && e.payload == Issue(a, risk, issued, expires, proof)
  {
    var payload := Issue(a, risk, issued, expires, proof);
    if RetryOf(log, t, key, AuthorizationIssued, payload) == SameRequest {
      e := RetriedIsOnRecord(log, t, key, AuthorizationIssued, payload);
    } else {
      e := ExistingIsOnRecordToo(log, Event(id, issued, t, None, AuthorizationIssued, key, payload));
    }
  }

  /** After an issue without error the authorization is on record with exactly the terms asked for, and a new one is
      active. */
  lemma IssueSucceeds(cap: real, log: Log, t: string, a: string, risk: real, issued: int, expires: int, proof: Proof,
                      id: string, key: string)
    requires IsLawful(cap, log)
    requires IssueAuthorization(cap, log, t, a, risk, issued, expires, proof, id, key).error.None?
    ensures var out := IssueAuthorization(cap, log, t, a, risk, issued, expires, proof, id, key).log;
            && GetAuthorization(out, t, a).Some?
            && var auth := GetAuthorization(out, t, a).value;
               && auth.authorizedRisk == risk && auth.issuedAt == issued && auth.expiresAt == expires
               && auth.proof == proof
               && (out != log ==> auth.status == Active)
  {
    var out := IssueAuthorization(cap, log, t, a, risk, issued, expires, proof, id, key).log;
    IssueLawful(cap, log, t, a, risk, issued, expires, proof, id, key);
    IssueAdds(cap, log, t, a, risk, issued, expires, proof, id, key);
    IssuedOnceRevokedOnce(cap, out, t, a);
    IssuedOnceRevokedOnce(cap, log, t, a);
    if out == log {
      var e := IssueRetried(cap, log, t, a, risk, issued, expires, proof, id, key);
      Selected(log, IssuedFor(t, a), e);
    }
  }
}
