/** A request whose event is on record is answered without error and writes nothing, whenever it comes again. */
module Retries {
  import opened Options
  import opened Ledger
  import opened Firewall
  import opened Lawful
  import opened Pipeline

  lemma IssueRepeated(cap: real, log: Log, known: Event, id: string)
    requires IsLawful(cap, log) && Has(log, known) && known.eventType == AuthorizationIssued
    ensures known.payload.Issue?
    ensures var p := known.payload;
            IssueAuthorization(cap, log, known.tradeId, p.authorizationId, p.authorizedRisk, p.issuedAt, p.expiresAt,
                               p.proof, id, known.key)
            == Outcome(log, None)
  {
    LawfulIsWellFormed(cap, log);
    KnownIsIdentified(log, known);
    IssueWasGuarded(cap, log, known);
    SeenIsSame(log, known);
    IssueTermsStay(cap, log, known);
  }

  lemma {:induction false} IssueWasGuarded(cap: real, log: Log, known: Event)
    requires IsLawful(cap, log) && Has(log, known) && known.eventType == AuthorizationIssued
    ensures known.payload.Issue? && known.payload.authorizationId != "" && 0.0 < known.payload.authorizedRisk <= cap
    ensures known.payload.issuedAt < known.payload.expiresAt <= known.payload.issuedAt + MAX_AUTHORIZATION_LIFETIME
    ensures known.payload.proof.riskAuthorizationId == known.payload.authorizationId
    ensures known.payload.proof.authorizationExpiry == known.payload.expiresAt
  {
    if log.last != known { IssueWasGuarded(cap, log.before, known); }
  }

  lemma AuthorizeRepeated(log: Log, known: Event, t: string, a: string, now: int, id: string)
    requires Sound(log) && Has(log, known) && known.tradeId == t && known.eventType == TradeAuthorized
    requires GetAuthorization(log, t, a).Some?
    requires var auth := GetAuthorization(log, t, a).value;
             known.payload == TradeAuthorization(a, auth.expiresAt, auth.authorizedRisk)
    ensures AuthorizeTrade(log, t, a, now, id, known.key) == Outcome(log, None)
  {
    SeenIsSame(log, known);
  }

  lemma ReserveRepeated(cap: real, log: Log, known: Event, t: string, a: string, now: int, id: string, key: string)
    requires IsLawful(cap, log) && Has(log, known) && IsReservation(known, t, a) && GetAuthorization(log, t, a).Some?
    requires known.payload.expiresAt == GetAuthorization(log, t, a).value.expiresAt
    ensures Reserve(log, t, a, known.payload.amount, known.payload.reservationId, now, id, key) == Outcome(log, None)
  {
    ReservedOnce(cap, log, t, known.payload.reservationId);
    Selected(log, ReservedAs(t, known.payload.reservationId), known);
  }

  lemma RevokeRepeated(log: Log, known: Event, t: string, a: string, id: string)
    requires Sound(log) && Has(log, known) && IsRevocation(known, t, a) && !Blank(known.payload.reason)
    requires GetAuthorization(log, t, a).Some? && GetAuthorization(log, t, a).value.issuedAt <= known.payload.revokedAt
    ensures RevokeAuthorization(log, t, a, known.payload.reason, known.payload.revokedAt, id, known.key)
         == Outcome(log, None)
  {
    SeenIsSame(log, known);
  }

  /** A release asked for again, unless something else is unresolved by now. */
  lemma ReleaseRepeated(log: Log, known: Event, t: string, a: string, id: string)
    requires Sound(log) && Has(log, known) && IsRelease(known, t, a) && Unresolved(log) == {}
    requires GetAuthorization(log, t, a).Some? && known.payload.status == GetAuthorization(log, t, a).value.status
    requires |Select(log, ReservedFor(t, a, known.payload.reservationId))| == 1
    requires known.payload.amount == ReservedAmount(log, t, a, known.payload.reservationId)
    requires known.payload.preExecution.None?
    ensures ReleaseReservation(log, t, a, known.payload.reservationId, known.payload.releasedAt, id, known.key)
         == Outcome(log, None)
  {
    SeenIsSame(log, known);
    Selected(log, ByTradeKey(t, known.key), known);
  }
}
