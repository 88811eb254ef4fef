/** What the authority pipeline does with a request it has never seen: it always succeeds, in six events. */
module FreshAuthority {
  import opened Options
  import opened Ledger
  import opened Firewall
  import opened Lawful
  import opened Envelopes
  import opened Protocol
  import opened Effects
  import opened Grants
  import opened Pipeline

  function Name(q: AuthorityRequest, what: string): string {
    "cpv1:" + q.requestId + ":" + what
  }

  lemma NamesDiffer(q: AuthorityRequest, a: string, b: string)
    ensures |Name(q, a)| == |q.requestId| + 6 + |a|
    ensures |a| != |b| ==> Name(q, a) != Name(q, b)
  {
  }

  predicate New(log: Log, q: AuthorityRequest, what: string) {
    FreshId(log, Name(q, what)) && FreshKey(log, Name(q, what))
  }

  // --------------------------------------------------------------- the six events

  function Admitted(q: AuthorityRequest, what: string, state: State): Event {
    Event(Name(q, what), q.issuedAt, q.tradeId, Some(state), ControlPlane(state), Name(q, what),
          AdmissionFacts(q.facts))
  }

  function Issuing(q: AuthorityRequest): Event {
    Event(Name(q, "authorization-issued"), q.issuedAt, q.tradeId, None, AuthorizationIssued,
          Name(q, "authorization-issued"),
          Issue(q.authorizationId, q.authorizedRisk, q.issuedAt, q.expiresAt, q.proof))
  }

  function Authorizing(q: AuthorityRequest, now: int): Event {
    Event(Name(q, "trade-authorized"), now, q.tradeId, Some(Authorized), TradeAuthorized, Name(q, "trade-authorized"),
          TradeAuthorization(q.authorizationId, q.expiresAt, q.authorizedRisk))
  }

  function Reserving(q: AuthorityRequest, now: int): Event {
    Event(Name(q, "reservation-created"), now, q.tradeId, None, ReservationCreated, Name(q, "reservation-created"),
          Reservation(q.reservationId, q.authorizationId, q.reservedRisk, q.expiresAt))
  }

  function AfterAdmission(log: Log, q: AuthorityRequest): Log {
    Recorded(Recorded(Recorded(log, Admitted(q, "proposed", Proposed)), Admitted(q, "validated", Validated)),
             Admitted(q, "risk-reserved", RiskReserved))
  }

  /** The log and six more events: proposed, validated, risk-reserved, issued, authorized, reserved. */
  function AfterSix(log: Log, q: AuthorityRequest, now: int): Log {
    Recorded(Recorded(Recorded(AfterAdmission(log, q), Issuing(q)), Authorizing(q, now)), Reserving(q, now))
  }

  /** The ledger knows neither the trade nor the names of the six events. */
  predicate Unknown(log: Log, q: AuthorityRequest) {
    && StateOf(log, q.tradeId).None?
    && New(log, q, "proposed") && New(log, q, "validated") && New(log, q, "risk-reserved")
    && New(log, q, "authorization-issued") && New(log, q, "trade-authorized") && New(log, q, "reservation-created")
  }

  /** The terms are in order, they fit under the cap when they are issued, and time is left. */
  predicate Grantable(cap: real, log: Log, q: AuthorityRequest, now: int) {
    && IssuableTerms(cap, q.tradeId, q.authorizationId, q.authorizedRisk, q.issuedAt, q.expiresAt, q.proof)
    && 0.0 < q.reservedRisk <= q.authorizedRisk
    && RiskAt(log, q.issuedAt) + q.authorizedRisk <= cap && now < q.expiresAt
  }

  function FactsOf(q: AuthorityRequest): EnvelopeFacts {
    EnvelopeFacts("forexai.runtime_authorization_envelope.v1", q.tradeId, q.authorizationId, q.reservationId,
                  q.authorizedRisk, q.reservedRisk, q.expiresAt, q.proof)
  }

  // -------------------------------------------------------------------- the proof

  /** An event under one of the names leaves the names of other lengths new. */
  lemma OthersStayNew(log: Log, q: AuthorityRequest, e: Event, what: string, other: string)
    requires e.eventId == Name(q, what) && e.key == Name(q, what) && |what| != |other| && New(log, q, other)
    ensures New(Recorded(log, e), q, other)
  {
    NamesDiffer(q, what, other);
  }

  lemma OneAdmission(cap: real, log: Log, q: AuthorityRequest, what: string, state: State)
    requires IsLawful(cap, log) && Unresolved(log) == {} && q.tradeId != "" && New(log, q, what)
    requires state in {Proposed, Validated, RiskReserved}
    requires LegalNext(log, Admitted(q, what, state))
    ensures var after := Recorded(log, Admitted(q, what, state));
            && Record(log, Admitted(q, what, state)) == Outcome(after, None)
            && IsLawful(cap, after) && Unresolved(after) == {} && StateOf(after, q.tradeId) == Some(state)
            && RiskAt(after, q.issuedAt) <= RiskAt(log, q.issuedAt)
            && Select(after, IssuedFor(q.tradeId, q.authorizationId))
               == Select(log, IssuedFor(q.tradeId, q.authorizationId))
  {
    var e := Admitted(q, what, state);
    NamesDiffer(q, what, what);
    RecordExactly(log, e);
    AppendedExactly(log, e);
    AppendLawful(cap, log, e);
    RiskAtSnoc(cap, log, e, q.issuedAt);
  }

  lemma StepsNext(step: Stepper, log: Log, k: nat, l: Log)
    requires Steps(step, log, k) == Outcome(l, None)
    ensures Steps(step, log, k + 1) == step(l, k)
  {
  }

  /** Ready to issue after the three admission events. */
  ghost predicate ReadyToIssue(cap: real, log: Log, q: AuthorityRequest) {
    && IsLawful(cap, log) && Unresolved(log) == {} && StateOf(log, q.tradeId) == Some(RiskReserved)
    && RiskAt(log, q.issuedAt) + q.authorizedRisk <= cap
    && Select(log, IssuedFor(q.tradeId, q.authorizationId)) == []
    && New(log, q, "authorization-issued") && New(log, q, "trade-authorized") && New(log, q, "reservation-created")
  }

  lemma LastThreeStayNew(log: Log, q: AuthorityRequest, e: Event, what: string)
    requires e.eventId == Name(q, what) && e.key == Name(q, what) && |what| <= 13
    requires New(log, q, "authorization-issued") && New(log, q, "trade-authorized")
             && New(log, q, "reservation-created")
    ensures var after := Recorded(log, e);
            New(after, q, "authorization-issued") && New(after, q, "trade-authorized")
            && New(after, q, "reservation-created")
  {
    OthersStayNew(log, q, e, what, "authorization-issued");
    OthersStayNew(log, q, e, what, "trade-authorized");
    OthersStayNew(log, q, e, what, "reservation-created");
  }

  lemma Admission(cap: real, log: Log, q: AuthorityRequest, now: int)
    requires IsLawful(cap, log) && Unresolved(log) == {} && Unknown(log, q) && Grantable(cap, log, q, now)
    ensures Steps(StepsOf(cap, q, now), log, 3) == Outcome(AfterAdmission(log, q), None)
    ensures ReadyToIssue(cap, AfterAdmission(log, q), q)
  {
    var step := StepsOf(cap, q, now);
    var e0, e1 := Admitted(q, "proposed", Proposed), Admitted(q, "validated", Validated);
    var e2 := Admitted(q, "risk-reserved", RiskReserved);
    var l1 := Recorded(log, e0);
    var l2 := Recorded(l1, e1);
    NothingIssued(cap, log, q.tradeId, q.authorizationId);
    OneAdmission(cap, log, q, "proposed", Proposed);
    OthersStayNew(log, q, e0, "proposed", "validated");
    OthersStayNew(log, q, e0, "proposed", "risk-reserved");
    LastThreeStayNew(log, q, e0, "proposed");
    OneAdmission(cap, l1, q, "validated", Validated);
    OthersStayNew(l1, q, e1, "validated", "risk-reserved");
    LastThreeStayNew(l1, q, e1, "validated");
    OneAdmission(cap, l2, q, "risk-reserved", RiskReserved);
    LastThreeStayNew(l2, q, e2, "risk-reserved");
    StepsNext(step, log, 0, log);
    StepsNext(step, log, 1, l1);
    StepsNext(step, log, 2, l2);
  }

  /** The authorization of the request is on record and nothing else of it. */
  ghost predicate ReadyToAuthorize(cap: real, log: Log, q: AuthorityRequest) {
    && IsLawful(cap, log) && Unresolved(log) == {} && StateOf(log, q.tradeId) == Some(RiskReserved)
    && Select(log, IssuedFor(q.tradeId, q.authorizationId)) == [Issuing(q)]
    && Select(log, RevokedFor(q.tradeId, q.authorizationId)) == []
    && New(log, q, "trade-authorized") && New(log, q, "reservation-created")
  }

  lemma IssueStepIsTaken(cap: real, log: Log, q: AuthorityRequest, now: int)
    requires ReadyToIssue(cap, log, q)
    requires IssuableTerms(cap, q.tradeId, q.authorizationId, q.authorizedRisk, q.issuedAt, q.expiresAt, q.proof)
    ensures Step(cap, log, q, now, 3) == Outcome(Recorded(log, Issuing(q)), None)
    ensures ReadyToAuthorize(cap, Recorded(log, Issuing(q)), q)
  {
    var t, a, name := q.tradeId, q.authorizationId, Name(q, "authorization-issued");
    NamesDiffer(q, "authorization-issued", "trade-authorized");
    NamesDiffer(q, "authorization-issued", "reservation-created");
    IssueExactly(cap, log, t, a, q.authorizedRisk, q.issuedAt, q.expiresAt, q.proof, name, name);
    IssueLawful(cap, log, t, a, q.authorizedRisk, q.issuedAt, q.expiresAt, q.proof, name, name);
    IssuedOnceRevokedOnce(cap, log, t, a);
  }

  ghost predicate ReadyToReserve(cap: real, log: Log, q: AuthorityRequest) {
    && IsLawful(cap, log) && Unresolved(log) == {} && StateOf(log, q.tradeId) == Some(Authorized)
    && Select(log, IssuedFor(q.tradeId, q.authorizationId)) == [Issuing(q)]
    && Select(log, RevokedFor(q.tradeId, q.authorizationId)) == []
    && Select(log, ReservedAs(q.tradeId, q.reservationId)) == []
    && ActiveReserved(log, q.tradeId, q.authorizationId) == 0.0
    && New(log, q, "reservation-created")
  }

  lemma AuthorizeStepIsTaken(cap: real, log: Log, q: AuthorityRequest, now: int)
    requires ReadyToAuthorize(cap, log, q) && now < q.expiresAt
    ensures Step(cap, log, q, now, 4) == Outcome(Recorded(log, Authorizing(q, now)), None)
    ensures ReadyToReserve(cap, Recorded(log, Authorizing(q, now)), q)
  {
    var t, a, name := q.tradeId, q.authorizationId, Name(q, "trade-authorized");
    NamesDiffer(q, "trade-authorized", "reservation-created");
    AuthorizeExactly(cap, log, t, a, now, name, name);
    AuthorizeLawful(cap, log, t, a, now, name, name);
    NothingReserved(cap, log, t, a, ReleasedIds(log, t, a));
  }

  lemma ReserveStepIsTaken(cap: real, log: Log, q: AuthorityRequest, now: int)
    requires ReadyToReserve(cap, log, q) && now < q.expiresAt && 0.0 < q.reservedRisk <= q.authorizedRisk
    ensures Step(cap, log, q, now, 5) == Outcome(Recorded(log, Reserving(q, now)), None)
    ensures Reserve(log, q.tradeId, q.authorizationId, q.reservedRisk, q.reservationId, now,
                    Name(q, "reservation-created"), Name(q, "reservation-created")).error.None?
  {
    var name := Name(q, "reservation-created");
    NamesDiffer(q, "reservation-created", "");
    ReserveExactly(cap, log, q.tradeId, q.authorizationId, q.reservedRisk, q.reservationId, now, name, name);
  }

  lemma EnvelopeIsBuilt(cap: real, hash: EnvelopeHash, log: Log, q: AuthorityRequest, now: int)
    requires ReadyToReserve(cap, log, q) && now < q.expiresAt && 0.0 < q.reservedRisk <= q.authorizedRisk
    ensures BuildEnvelope(hash, Recorded(log, Reserving(q, now)), q.tradeId, q.authorizationId, q.reservationId,
                          q.reservedRisk, now)
         == Some(Envelope(FactsOf(q), hash(FactsOf(q))))
  {
    var name := Name(q, "reservation-created");
    ReserveStepIsTaken(cap, log, q, now);
    var e := ReserveSucceeds(cap, log, q.tradeId, q.authorizationId, q.reservedRisk, q.reservationId, now, name, name);
  }

  /** On every lawful and unblocked ledger that does not know it, a grantable request is granted: the ledger grows by
      exactly its six events, and the envelope carries its terms. */
  lemma FreshRequestIsGranted(cap: real, hash: EnvelopeHash, log: Log, q: AuthorityRequest, now: int)
    requires IsLawful(cap, log) && Unresolved(log) == {} && Unknown(log, q) && Grantable(cap, log, q, now)
    ensures ProduceAuthority(cap, hash, log, q, now)
         == Authority(AfterSix(log, q, now), Some(Envelope(FactsOf(q), hash(FactsOf(q)))))
  {
    var step, l3 := StepsOf(cap, q, now), AfterAdmission(log, q);
    var l4 := Recorded(l3, Issuing(q));
    var l5 := Recorded(l4, Authorizing(q, now));
    Admission(cap, log, q, now);
    IssueStepIsTaken(cap, l3, q, now);
    AuthorizeStepIsTaken(cap, l4, q, now);
    ReserveStepIsTaken(cap, l5, q, now);
    EnvelopeIsBuilt(cap, hash, l5, q, now);
    StepsNext(step, log, 3, l3);
    StepsNext(step, log, 4, l4);
    StepsNext(step, log, 5, l5);
  }

  /** In particular the first request of all. */
  lemma FirstRequestIsGranted(cap: real, hash: EnvelopeHash, q: AuthorityRequest, now: int)
    requires IssuableTerms(cap, q.tradeId, q.authorizationId, q.authorizedRisk, q.issuedAt, q.expiresAt, q.proof)
    requires 0.0 < q.reservedRisk <= q.authorizedRisk && now < q.expiresAt
    ensures ProduceAuthority(cap, hash, Genesis, q, now).envelope == Some(Envelope(FactsOf(q), hash(FactsOf(q))))
  {
    assert RiskAt(Genesis, q.issuedAt) == 0.0;
    FreshRequestIsGranted(cap, hash, Genesis, q, now);
  }

  /** While anything is unresolved a request is refused and leaves no trace. */
  lemma BlockedIsRefused(cap: real, hash: EnvelopeHash, log: Log, q: AuthorityRequest, now: int)
    requires Unresolved(log) != {}
    ensures ProduceAuthority(cap, hash, log, q, now) == Authority(log, None)
  {
  }
}
