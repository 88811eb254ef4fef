/** Exactly which envelopes verify and which orders are sent, in terms of what the ledger records. */
module Admission {
  import opened Options
  import opened Ledger
  import opened Firewall
  import opened Lawful
  import opened Envelopes
  import opened Execution

  /** The ledger holds one issue and one reservation with the envelope's terms. */
  predicate TermsOnRecord(log: Log, f: EnvelopeFacts) {
    var issued := Select(log, IssuedFor(f.tradeId, f.authorizationId));
    var reserved := Select(log, ReservedFor(f.tradeId, f.authorizationId, f.reservationId));
    && |issued| == 1 && issued[0].payload.Issue?
    && issued[0].payload.authorizedRisk == f.authorizedRisk && issued[0].payload.expiresAt == f.expiresAt
    && issued[0].payload.proof == f.proof
    && |reserved| == 1
    && reserved[0].payload == Reservation(f.reservationId, f.authorizationId, f.reservedRisk, f.expiresAt)
  }

  /** Unexpired, unspent, its trade authorized, nothing unresolved. */
  predicate Usable(log: Log, f: EnvelopeFacts, now: int) {
    && now < f.expiresAt && StateOf(log, f.tradeId) == Some(Authorized) && Unresolved(log) == {}
    && Select(log, RevokedFor(f.tradeId, f.authorizationId)) == []
    && Select(log, ReleasedFor(f.tradeId, f.authorizationId, f.reservationId)) == []
  }

  predicate Sealed(hash: EnvelopeHash, envelope: Envelope) {
    envelope.facts.schema == "forexai.runtime_authorization_envelope.v1" && hash(envelope.facts) == envelope.hash
  }

  lemma TermsMean(cap: real, log: Log, f: EnvelopeFacts)
    requires cap <= 0.006 && IsLawful(cap, log) && TermsOnRecord(log, f)
    requires Select(log, RevokedFor(f.tradeId, f.authorizationId)) == []
    requires Select(log, ReleasedFor(f.tradeId, f.authorizationId, f.reservationId)) == []
    ensures GetAuthorization(log, f.tradeId, f.authorizationId).Some?
    ensures var auth := GetAuthorization(log, f.tradeId, f.authorizationId).value;
            && auth.status == Active && auth.authorizedRisk == f.authorizedRisk && auth.proof == f.proof
            && auth.expiresAt == f.expiresAt
    ensures ActiveReservation(log, f.tradeId, f.authorizationId, f.reservationId) == Some((f.reservedRisk, f.expiresAt))
    ensures f.proof.riskAuthorizationId == f.authorizationId && f.proof.authorizationExpiry == f.expiresAt
    ensures 0.0 < f.reservedRisk <= f.authorizedRisk <= GLOBAL_CAP
  {
    SelectHead(log, IssuedFor(f.tradeId, f.authorizationId));
    IssueTerms(cap, log, Select(log, IssuedFor(f.tradeId, f.authorizationId))[0]);
    SelectHead(log, ReservedFor(f.tradeId, f.authorizationId, f.reservationId));
    ReservationTerms(cap, log, Select(log, ReservedFor(f.tradeId, f.authorizationId, f.reservationId))[0]);
  }

  /** On every lawful ledger an envelope verifies exactly when it is sealed, the ledger records its terms, and it is
      usable. */
  lemma VerifiesExactly(hash: EnvelopeHash, cap: real, log: Log, envelope: Envelope, now: int)
    requires cap <= 0.006 && IsLawful(cap, log)
    ensures Current(hash, log, envelope, now)
            <==> Sealed(hash, envelope) && TermsOnRecord(log, envelope.facts) && Usable(log, envelope.facts, now)
  {
    var f := envelope.facts;
    if Current(hash, log, envelope, now) {
      SelectHead(log, IssuedFor(f.tradeId, f.authorizationId));
      SelectHead(log, ReservedFor(f.tradeId, f.authorizationId, f.reservationId));
      var x := Select(log, IssuedFor(f.tradeId, f.authorizationId))[0];
      IssueTerms(cap, log, x);
      ReservationTerms(cap, log, Select(log, ReservedFor(f.tradeId, f.authorizationId, f.reservationId))[0]);
    } else if Sealed(hash, envelope) && TermsOnRecord(log, f) && Usable(log, f, now) {
      TermsMean(cap, log, f);
      TermsVerify(hash, cap, log, envelope, now);
      assert false;
    }
  }

  /** No ledger makes an envelope for more than 0.6 percent good, nor one that asks for more than it was given. */
  lemma OverTheCapNeverVerifies(hash: EnvelopeHash, log: Log, envelope: Envelope, now: int)
    requires 0.006 < envelope.facts.authorizedRisk || envelope.facts.authorizedRisk < envelope.facts.reservedRisk
    ensures !Current(hash, log, envelope, now)
  {
  }

  /** On every lawful ledger an order is sent exactly when it is authentic, its envelope verifies, it keeps to the
      authorization on record, and the names of its intent are new. */
  lemma SentExactly(h: Hashes, cap: real, log: Log, o: Order)
    requires cap <= 0.006 && IsLawful(cap, log)
    ensures CallsBroker(h, log, o) <==>
            && o.authentic && Sealed(h.envelope, o.envelope)
            && TermsOnRecord(log, o.envelope.facts) && Usable(log, o.envelope.facts, o.now)
            && KeepsToAuthorization(log, o) && NewNames(log, o.eventId, o.key)
  {
    VerifiesExactly(h.envelope, cap, log, o.envelope, o.now);
    LawfulIsWellFormed(cap, log);
    AppendedExactly(log, IntentEvent(h, o));
    if CallsBroker(h, log, o) { CallMeansNewIntent(h, log, o); }
    if StateOf(log, o.request.tradeId).Some? { StateIsNamed(log, o.request.tradeId); }
  }

  /** On every lawful ledger an envelope is built exactly when some capital is asked for, the named reservation holds at
      least that, and its authorization is neither revoked nor expired, its trade is authorized and nothing is
      unresolved. */
  lemma BuildsExactly(hash: EnvelopeHash, cap: real, log: Log, t: string, a: string, r: string, required: real,
                      now: int)
    requires cap <= 0.006 && IsLawful(cap, log)
    ensures BuildEnvelope(hash, log, t, a, r, required, now).Some? <==>
              var reserved := Select(log, ReservedFor(t, a, r));
              && reserved != [] && reserved[0].payload.Reservation?
              && 0.0 < required <= reserved[0].payload.amount && now < reserved[0].payload.expiresAt
              && Select(log, RevokedFor(t, a)) == [] && Select(log, ReleasedFor(t, a, r)) == []
              && StateOf(log, t) == Some(Authorized) && Unresolved(log) == {}
  {
    var reserved := Select(log, ReservedFor(t, a, r));
    IssuedOnceRevokedOnce(cap, log, t, a);
    ReservedForOnce(cap, log, t, a, r);
    if reserved != [] {
      SelectHead(log, ReservedFor(t, a, r));
      ReservationTerms(cap, log, reserved[0]);
      if Select(log, ReleasedFor(t, a, r)) == [] { HeldCovers(cap, log, t, a, r); }
    }
  }
}
