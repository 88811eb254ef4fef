/** The runtime authorization envelope: what execution is allowed to carry away from the firewall,
    and how long it stays good. */
module Envelopes {
  import opened Options
  import opened Ledger
  import opened Firewall
  import opened Lawful

  const ENVELOPE_SCHEMA := "forexai.runtime_authorization_envelope.v1"

  datatype EnvelopeFacts = EnvelopeFacts(
    schema: string, tradeId: string, authorizationId: string, reservationId: string,
    authorizedRisk: real, reservedRisk: real, expiresAt: int, proof: Proof)

  datatype Envelope = Envelope(facts: EnvelopeFacts, hash: string)

  type EnvelopeHash = EnvelopeFacts -> string

  function BuildEnvelope(hash: EnvelopeHash, log: Log, tradeId: string, authorizationId: string, reservationId: string,
                         requiredRisk: real, now: int): Option<Envelope>
  {
    if ExecutionError(log, tradeId, authorizationId, requiredRisk, now).Some? then None
    else
      var auth := GetAuthorization(log, tradeId, authorizationId).value;
      var reserved := ActiveReservation(log, tradeId, authorizationId, reservationId);
      if reserved.None? || reserved.value.0 < requiredRisk then None
      else
        var facts := EnvelopeFacts(ENVELOPE_SCHEMA, tradeId, authorizationId, reservationId, auth.authorizedRisk,
                                   reserved.value.0, auth.expiresAt, auth.proof);
        Some(Envelope(facts, hash(facts)))
  }

  /** The checks on the envelope alone. */
  predicate SelfConsistent(hash: EnvelopeHash, envelope: Envelope, now: int) {
    var f := envelope.facts;
    && f.schema == ENVELOPE_SCHEMA
    && hash(f) == envelope.hash
    && f.proof.riskAuthorizationId == f.authorizationId
    && f.proof.authorizationExpiry == f.expiresAt
    && !Expired(f.expiresAt, now)
    && 0.0 < f.reservedRisk <= f.authorizedRisk <= GLOBAL_CAP
  }

  /** The checks against the ledger as it is now. */
  predicate Current(hash: EnvelopeHash, log: Log, envelope: Envelope, now: int) {
    var f := envelope.facts;
    && SelfConsistent(hash, envelope, now)
    && var auth := GetAuthorization(log, f.tradeId, f.authorizationId);
       var reserved := ActiveReservation(log, f.tradeId, f.authorizationId, f.reservationId);
    && auth.Some? && f.authorizedRisk == auth.value.authorizedRisk && f.proof == auth.value.proof
    && reserved.Some? && f.reservedRisk == reserved.value.0 && f.expiresAt == reserved.value.1
    && ExecutionError(log, f.tradeId, f.authorizationId, f.reservedRisk, now).None?
  }

  /** The facts a verified envelope guarantees about the ledger: an unrevoked, unexpired authorization, an
      unreleased reservation within it, an authorized trade, and nothing unresolved anywhere. */
  predicate Justified(log: Log, f: EnvelopeFacts, now: int) {
    && Unresolved(log) == {}
    && StateOf(log, f.tradeId) == Some(Authorized)
    && |Select(log, IssuedFor(f.tradeId, f.authorizationId))| == 1
    && Select(log, RevokedFor(f.tradeId, f.authorizationId)) == []
    && GetAuthorization(log, f.tradeId, f.authorizationId).Some?
    && GetAuthorization(log, f.tradeId, f.authorizationId).value.authorizedRisk == f.authorizedRisk
    && now < GetAuthorization(log, f.tradeId, f.authorizationId).value.expiresAt
    && |Select(log, ReservedFor(f.tradeId, f.authorizationId, f.reservationId))| == 1
    && Select(log, ReleasedFor(f.tradeId, f.authorizationId, f.reservationId)) == []
    && ActiveReservation(log, f.tradeId, f.authorizationId, f.reservationId).Some?
    && ActiveReservation(log, f.tradeId, f.authorizationId, f.reservationId).value.0 == f.reservedRisk
    && 0.0 < f.reservedRisk <= f.authorizedRisk <= GLOBAL_CAP
  }

  lemma CurrentIsJustified(hash: EnvelopeHash, log: Log, envelope: Envelope, now: int)
    requires Current(hash, log, envelope, now)
    ensures Justified(log, envelope.facts, now)
  {
  }

  // ------------------------------------------------------------ completeness

  /** What the log says about a reservation it created. */
  lemma {:induction false} ReservationTerms(cap: real, log: Log, x: Event)
    requires IsLawful(cap, log) && Has(log, x) && x.eventType == ReservationCreated
    ensures x.payload.Reservation? && x.payload.amount > 0.0
    ensures var issued := Select(log, IssuedFor(x.tradeId, x.payload.authorizationId));
            |issued| == 1 && issued[0].payload.Issue?
            && x.payload.expiresAt == issued[0].payload.expiresAt
            && x.payload.amount <= issued[0].payload.authorizedRisk
  {
    if x == log.last {
      var t, a := x.tradeId, x.payload.authorizationId;
      SelectHead(log.before, IssuedFor(t, a));
      HeldSkipMore(cap, log.before, t, a, ReleasedIds(log.before, t, a), "");
    } else {
      ReservationTerms(cap, log.before, x);
    }
  }

  /** Every authorization on record was issued within the cap, for at most a day, and its proof names it and its
      expiry. */
  lemma {:induction false} IssueTerms(cap: real, log: Log, x: Event)
    requires IsLawful(cap, log) && Has(log, x) && x.eventType == AuthorizationIssued
    ensures x.payload.Issue? && x.payload.proof.riskAuthorizationId == x.payload.authorizationId
    ensures x.payload.proof.authorizationExpiry == x.payload.expiresAt && 0.0 < x.payload.authorizedRisk <= cap
    ensures x.payload.issuedAt < x.payload.expiresAt <= x.payload.issuedAt + MAX_AUTHORIZATION_LIFETIME
  {
    if x != log.last { IssueTerms(cap, log.before, x); }
  }

  lemma {:induction false} NotAmongReleased(log: Log, t: string, a: string, r: string)
    requires Select(log, ReleasedFor(t, a, r)) == []
    ensures r !in ReleasedIds(log, t, a)
  {
    if log.Recorded? { NotAmongReleased(log.before, t, a, r); }
  }

  /** An unreleased reservation is part of what is held. */
  lemma HeldCovers(cap: real, log: Log, t: string, a: string, r: string)
    requires IsLawful(cap, log) && ActiveReservation(log, t, a, r).Some?
    ensures ActiveReservation(log, t, a, r).value.0 <= ActiveReserved(log, t, a)
  {
    NotAmongReleased(log, t, a, r);
    SelectHead(log, ReservedFor(t, a, r));
    var created := Select(log, ReservedFor(t, a, r))[0];
    var skip := ReleasedIds(log, t, a);
    HeldSkipMore(cap, log, t, a, skip, r);
    HeldSkipMore(cap, log, t, a, skip + {r}, r);
  }

  /** What makes an envelope die: revocation, release, or submission. */
  predicate Spent(log: Log, f: EnvelopeFacts) {
    || Select(log, RevokedFor(f.tradeId, f.authorizationId)) != []
    || Select(log, ReleasedFor(f.tradeId, f.authorizationId, f.reservationId)) != []
    || Select(log, SubmissionState(f.tradeId)) != []
  }

  lemma SubmittedIsPastAuthorized(log: Log, t: string)
    requires Sound(log) && Select(log, SubmissionState(t)) != []
    ensures StateOf(log, t).Some? && Rank(StateOf(log, t).value) > Rank(Authorized)
  {
    SelectHead(log, SubmissionState(t));
    StateReached(log, Select(log, SubmissionState(t))[0]);
  }

  lemma SpentStays(log: Log, longer: Log, f: EnvelopeFacts)
    requires Extends(log, longer) && Spent(log, f)
    ensures Spent(longer, f)
  {
    SelectExtends(log, longer, RevokedFor(f.tradeId, f.authorizationId));
    SelectExtends(log, longer, ReleasedFor(f.tradeId, f.authorizationId, f.reservationId));
    SelectExtends(log, longer, SubmissionState(f.tradeId));
  }

  lemma SpentFails(hash: EnvelopeHash, log: Log, envelope: Envelope, now: int)
    requires Sound(log) && Spent(log, envelope.facts)
    ensures !Current(hash, log, envelope, now)
  {
    var f := envelope.facts;
    if Select(log, SubmissionState(f.tradeId)) != [] {
      SubmittedIsPastAuthorized(log, f.tradeId);
    }
  }

  /** Permanence: once spent, an envelope fails on every later ledger, at every time. */
  lemma SpentForever(hash: EnvelopeHash, log: Log, longer: Log, envelope: Envelope, now: int)
    requires Extends(log, longer) && Sound(longer) && Spent(log, envelope.facts)
    ensures !Current(hash, longer, envelope, now)
  {
    SpentStays(log, longer, envelope.facts);
    SpentFails(hash, longer, envelope, now);
  }

  lemma {:induction false} StaysAuthorized(log: Log, longer: Log, t: string)
    requires Extends(log, longer) && Sound(longer)
    requires StateOf(log, t) == Some(Authorized) && Select(longer, SubmissionState(t)) == []
    ensures StateOf(longer, t) == Some(Authorized)
  {
    if longer != log { StaysAuthorized(log, longer.before, t); }
  }

  lemma SelectSame(log: Log, longer: Log, q: Query)
    requires Extends(log, longer) && Select(log, q) != [] && |Select(longer, q)| <= 1
    ensures Select(longer, q) == Select(log, q)
  {
    SelectExtends(log, longer, q);
  }

  lemma ReservedForOnce(cap: real, log: Log, t: string, a: string, r: string)
    requires IsLawful(cap, log)
    ensures |Select(log, ReservedFor(t, a, r))| <= 1
  {
    ReservedOnce(cap, log, t, r);
    FewerReservedFor(log, t, a, r);
  }

  lemma {:induction false} FewerReservedFor(log: Log, t: string, a: string, r: string)
    ensures |Select(log, ReservedFor(t, a, r))| <= |Select(log, ReservedAs(t, r))|
  {
    if log.Recorded? { FewerReservedFor(log.before, t, a, r); }
  }

  /** Unless spent, what the envelope was built from is still what the later ledger says. */
  lemma UnspentKeepsTerms(cap: real, log: Log, longer: Log, f: EnvelopeFacts)
    requires IsLawful(cap, longer) && Extends(log, longer) && !Spent(longer, f)
    requires GetAuthorization(log, f.tradeId, f.authorizationId).Some?
    requires ActiveReservation(log, f.tradeId, f.authorizationId, f.reservationId).Some?
    requires StateOf(log, f.tradeId) == Some(Authorized)
    ensures StateOf(longer, f.tradeId) == Some(Authorized)
    ensures GetAuthorization(longer, f.tradeId, f.authorizationId)
            == GetAuthorization(log, f.tradeId, f.authorizationId)
    ensures ActiveReservation(longer, f.tradeId, f.authorizationId, f.reservationId)
         == ActiveReservation(log, f.tradeId, f.authorizationId, f.reservationId)
  {
    LawfulIsWellFormed(cap, longer);
    IssuedOnceRevokedOnce(cap, longer, f.tradeId, f.authorizationId);
    ReservedForOnce(cap, longer, f.tradeId, f.authorizationId, f.reservationId);
    SelectSame(log, longer, IssuedFor(f.tradeId, f.authorizationId));
    SelectSame(log, longer, ReservedFor(f.tradeId, f.authorizationId, f.reservationId));
    SelectExtends(log, longer, RevokedFor(f.tradeId, f.authorizationId));
    StaysAuthorized(log, longer, f.tradeId);
  }

  lemma TermsVerify(hash: EnvelopeHash, cap: real, log: Log, envelope: Envelope, now: int)
    requires cap <= GLOBAL_CAP && IsLawful(cap, log) && SelfConsistent(hash, envelope, now)
    requires var f := envelope.facts;
             var auth := GetAuthorization(log, f.tradeId, f.authorizationId);
             StateOf(log, f.tradeId) == Some(Authorized)
             && auth.Some? && auth.value.status == Active && auth.value.authorizedRisk == f.authorizedRisk
             && auth.value.proof == f.proof && auth.value.expiresAt == f.expiresAt
             && ActiveReservation(log, f.tradeId, f.authorizationId, f.reservationId)
                == Some((f.reservedRisk, f.expiresAt))
    ensures Current(hash, log, envelope, now) <==> !RiskBlocked(log)
  {
    var f := envelope.facts;
    HeldCovers(cap, log, f.tradeId, f.authorizationId, f.reservationId);
  }

  /** An envelope built on a ledger verifies on every later ledger and at every time exactly as long as it has
      not expired, is not spent, and no trade is unresolved. */
  lemma BuiltVerifiesExactly(hash: EnvelopeHash, cap: real, log: Log, longer: Log, envelope: Envelope,
                             t: string, a: string, r: string, required: real, built: int, now: int)
    requires cap <= GLOBAL_CAP && IsLawful(cap, longer) && Extends(log, longer)
    requires BuildEnvelope(hash, log, t, a, r, required, built) == Some(envelope)
    ensures Current(hash, longer, envelope, now) <==>
            now < envelope.facts.expiresAt && !Spent(longer, envelope.facts) && !RiskBlocked(longer)
  {
    LawfulIsWellFormed(cap, longer);
    ExtendsLawful(cap, log, longer);
    if Spent(longer, envelope.facts) {
      SpentFails(hash, longer, envelope, now);
    } else {
      BuiltTerms(hash, cap, log, envelope, t, a, r, required, built);
      UnspentKeepsTerms(cap, log, longer, envelope.facts);
      if now < envelope.facts.expiresAt { TermsVerify(hash, cap, longer, envelope, now); }
    }
  }

  lemma BuiltTerms(hash: EnvelopeHash, cap: real, log: Log, envelope: Envelope,
                   t: string, a: string, r: string, required: real, built: int)
    requires cap <= GLOBAL_CAP && IsLawful(cap, log)
    requires BuildEnvelope(hash, log, t, a, r, required, built) == Some(envelope)
    ensures var f := envelope.facts;
            f.tradeId == t && f.authorizationId == a && f.reservationId == r && built < f.expiresAt
            && (forall now :: SelfConsistent(hash, envelope, now) <==> now < f.expiresAt)
            && ActiveReservation(log, t, a, r) == Some((f.reservedRisk, f.expiresAt))
            && StateOf(log, t) == Some(Authorized)
            && var auth := GetAuthorization(log, t, a);
               auth.Some? && auth.value.status == Active && auth.value.authorizedRisk == f.authorizedRisk
               && auth.value.proof == f.proof && auth.value.expiresAt == f.expiresAt
  {
    var issued := Select(log, IssuedFor(t, a));
    SelectHead(log, IssuedFor(t, a));
    IssueTerms(cap, log, issued[0]);
    var created := Select(log, ReservedFor(t, a, r));
    SelectHead(log, ReservedFor(t, a, r));
    ReservationTerms(cap, log, created[0]);
  }
}
