/** The capital firewall as functions of the ledger: every answer is computed from the log,
    and every grant is one appended event. */
module Firewall {
  import opened Options
  import opened Ledger

  const GLOBAL_CAP: real := 0.006
  const MAX_AUTHORIZATION_LIFETIME: int := 86400

  datatype FirewallError =
    | IdentityInvalid | RiskNotPositive | RiskExceedsCap | ExpiryNotAfterIssuance | LifetimeTooLong
    | ProofMismatch | AuthorizationIdReused | RetryConflict | RiskLedgerAmbiguous | TotalRiskExceedsCap
    | UnresolvedBlocksRisk | WrongState | AuthorizationUnavailable | AuthorizationNotActive | AuthorizationExpired
    | ReasonMissing | RevokedBeforeIssuance | AlreadyRevoked | NotRevoked | ReservationIdReused
    | AmountInvalid | AmountExceedsAuthorization | ReservationsExceedAuthorization | ReservationUnavailable
    | AlreadySubmitted | RequiredRiskInvalid | ReservationInsufficient | LedgerRefused(why: AppendError)

  /** The log an operation leaves behind, and the error it raised, if any. */
  datatype Outcome = Outcome(log: Log, error: Option<FirewallError>)

  function Fail(log: Log, why: FirewallError): Outcome {
    Outcome(log, Some(why))
  }

  function Record(log: Log, e: Event): Outcome {
    var r := Append(log, e);
    Outcome(Extend(log, r), if r.Refused? then Some(LedgerRefused(r.error)) else None)
  }

  // ---------------------------------------------------------------- queries

  datatype Authorization = Authorization(
    tradeId: string, authorizationId: string, authorizedRisk: real, issuedAt: int, expiresAt: int,
    proof: Proof, status: AuthorizationStatus)

  /** The authorization on record: issued exactly once, revoked at most once. */
  function GetAuthorization(log: Log, tradeId: string, authorizationId: string): Option<Authorization> {
    var issued := Select(log, IssuedFor(tradeId, authorizationId));
    var revoked := Select(log, RevokedFor(tradeId, authorizationId));
    if |issued| != 1 || |revoked| > 1 then None
    else
      SelectHead(log, IssuedFor(tradeId, authorizationId));
      var p := issued[0].payload;
      Some(Authorization(tradeId, authorizationId, p.authorizedRisk, p.issuedAt, p.expiresAt, p.proof,
                         if revoked != [] then Revoked else Active))
  }

  predicate Expired(expiresAt: int, now: int) {
    now >= expiresAt
  }

  function CurrencyError(a: Authorization, now: int): Option<FirewallError> {
    if a.status != Active then Some(AuthorizationNotActive)
    else if Expired(a.expiresAt, now) then Some(AuthorizationExpired)
    else None
  }

  /** The amount and expiry of a reservation that exists once and was never released. */
  function ActiveReservation(log: Log, tradeId: string, authorizationId: string, reservationId: string)
    : Option<(real, int)>
  {
    var created := Select(log, ReservedFor(tradeId, authorizationId, reservationId));
    if |created| != 1 || Select(log, ReleasedFor(tradeId, authorizationId, reservationId)) != [] then None
    else
      SelectHead(log, ReservedFor(tradeId, authorizationId, reservationId));
      Some((created[0].payload.amount, created[0].payload.expiresAt))
  }

  function ReleasedIds(log: Log, tradeId: string, authorizationId: string): set<string> {
    match log
    case Genesis => {}
    case Recorded(before, e) =>
      ReleasedIds(before, tradeId, authorizationId)
      + if IsRelease(e, tradeId, authorizationId) then {e.payload.reservationId} else {}
  }

  /** Sum of the newest amount recorded under each reservation id outside `skip`. */
  function HeldExcept(log: Log, tradeId: string, authorizationId: string, skip: set<string>): real {
    match log
    case Genesis => 0.0
    case Recorded(before, e) =>
      if IsReservation(e, tradeId, authorizationId) && e.payload.reservationId !in skip then
        e.payload.amount + HeldExcept(before, tradeId, authorizationId, skip + {e.payload.reservationId})
      else HeldExcept(before, tradeId, authorizationId, skip)
  }

  /** Capital held under an authorization: created and not released. */
  function ActiveReserved(log: Log, tradeId: string, authorizationId: string): real {
    HeldExcept(log, tradeId, authorizationId, ReleasedIds(log, tradeId, authorizationId))
  }

  // -------------------------------------------------------- total risk at an instant

  predicate IsIssue(e: Event) {
    e.eventType == AuthorizationIssued && e.payload.Issue? && e.payload.authorizationId != ""
  }

  predicate InWindow(e: Event, t: int)
    requires IsIssue(e)
  {
    e.payload.issuedAt <= t < e.payload.expiresAt
  }

  function RevocationsUntil(log: Log, e: Event, t: int): seq<Event>
    requires IsIssue(e)
  {
    Select(log, RevokedUntil(e.tradeId, e.payload.authorizationId, t))
  }

  /** Does this event grant risk at instant `t`, given the whole log? */
  predicate Live(log: Log, e: Event, t: int) {
    IsIssue(e) && InWindow(e, t) && RevocationsUntil(log, e, t) == []
  }

  /** The plain sum over the issue events of `part` that are live at `t`. */
  function LiveRisk(part: Log, log: Log, t: int): real {
    match part
    case Genesis => 0.0
    case Recorded(before, e) => LiveRisk(before, log, t) + if Live(log, e, t) then e.payload.authorizedRisk else 0.0
  }

  /** The risk the whole log authorizes at instant `t`. */
  function RiskAt(log: Log, t: int): real {
    LiveRisk(log, log, t)
  }

  /** No pair issued twice; no authorization in its window revoked twice or worth nothing. */
  predicate Countable(part: Log, log: Log, t: int) {
    part.Genesis? || (Countable(part.before, log, t) && (IsIssue(part.last) ==> CountableIssue(log, part.last, t)))
  }

  predicate CountableIssue(log: Log, e: Event, t: int)
    requires IsIssue(e)
  {
    && |Select(log, IssuedFor(e.tradeId, e.payload.authorizationId))| == 1
    && (InWindow(e, t) ==>
          && |RevocationsUntil(log, e, t)| <= 1
          && (RevocationsUntil(log, e, t) == [] ==> e.payload.authorizedRisk > 0.0))
  }

  /** `None` when the history is ambiguous, so that no sum is reported. */
  function TotalAuthorizedRiskAt(log: Log, t: int): Option<real> {
    if Countable(log, log, t) then Some(RiskAt(log, t)) else None
  }

  // ------------------------------------------------------------- retries

  datatype RetryAnswer = NotSeen | SameRequest | Conflict

  /** Is a request with this key already on the log of the trade, and is it the same request? */
  function RetryOf(log: Log, tradeId: string, key: string, eventType: EventType, payload: Payload): RetryAnswer {
    var found := Select(log, ByTradeKey(tradeId, key));
    if |found| > 1 then Conflict
    else if |found| == 0 then NotSeen
    else if found[0].eventType != eventType || found[0].payload != payload then Conflict
    else SameRequest
  }

  predicate Blank(s: string) {
    forall c | c in s :: c in {' ', '\t', '\n', '\r'}
  }

  // ------------------------------------------------------------ operations


  function IssueRequestError(cap: real, tradeId: string, authorizationId: string, risk: real, issuedAt: int,
                             expiresAt: int, proof: Proof): Option<FirewallError>
  {
    if authorizationId == "" || tradeId == "" then Some(IdentityInvalid)
    else if risk <= 0.0 then Some(RiskNotPositive)
    else if risk > cap then Some(RiskExceedsCap)
    else if expiresAt <= issuedAt then Some(ExpiryNotAfterIssuance)
    else if expiresAt - issuedAt > MAX_AUTHORIZATION_LIFETIME then Some(LifetimeTooLong)
    else if proof.riskAuthorizationId != authorizationId || proof.authorizationExpiry != expiresAt
      then Some(ProofMismatch)
    else None
  }

  /** What the checks before a write come to: stop with this error (or silently, for a retry), or write. */
  datatype Verdict = Stop(error: Option<FirewallError>) | Write

  function IssueVerdict(cap: real, log: Log, tradeId: string, authorizationId: string, risk: real, issuedAt: int,
                        payload: Payload, key: string): Verdict
  {
    var retry := RetryOf(log, tradeId, key, AuthorizationIssued, payload);
    if retry == NotSeen && Select(log, IssuedFor(tradeId, authorizationId)) != [] then Stop(Some(AuthorizationIdReused))
    else if retry == Conflict then Stop(Some(RetryConflict))
    else if retry == SameRequest then
      Stop(if GetAuthorization(log, tradeId, authorizationId).None? then Some(AuthorizationUnavailable) else None)
    else
      var aggregate := TotalAuthorizedRiskAt(log, issuedAt);
      if aggregate.None? then Stop(Some(RiskLedgerAmbiguous))
      else if aggregate.value + risk > cap then Stop(Some(TotalRiskExceedsCap))
      else if RiskBlocked(log) then Stop(Some(UnresolvedBlocksRisk))
      else if StateOf(log, tradeId) != Some(RiskReserved) then Stop(Some(WrongState))
      else Write
  }

  function IssueAuthorization(cap: real, log: Log, tradeId: string, authorizationId: string, risk: real,
                              issuedAt: int, expiresAt: int, proof: Proof, eventId: string, key: string): Outcome
  {
    var invalid := IssueRequestError(cap, tradeId, authorizationId, risk, issuedAt, expiresAt, proof);
    if invalid.Some? then Outcome(log, invalid)
    else
      var payload := Issue(authorizationId, risk, issuedAt, expiresAt, proof);
      var verdict := IssueVerdict(cap, log, tradeId, authorizationId, risk, issuedAt, payload, key);
      if verdict.Stop? then Outcome(log, verdict.error)
      else
        var done := Record(log, Event(eventId, issuedAt, tradeId, None, AuthorizationIssued, key, payload));
        if done.error.None? && GetAuthorization(done.log, tradeId, authorizationId).None?
        then Fail(done.log, AuthorizationUnavailable) else done
  }

  function AuthorizeVerdict(log: Log, auth: Authorization, now: int, payload: Payload, key: string): Verdict {
    var retry := RetryOf(log, auth.tradeId, key, TradeAuthorized, payload);
    if retry == Conflict then Stop(Some(RetryConflict))
    else if retry == SameRequest then Stop(None)
    else if RiskBlocked(log) then Stop(Some(UnresolvedBlocksRisk))
    else if CurrencyError(auth, now).Some? then Stop(CurrencyError(auth, now))
    else if StateOf(log, auth.tradeId) != Some(RiskReserved) then Stop(Some(WrongState))
    else Write
  }

  function AuthorizeTrade(log: Log, tradeId: string, authorizationId: string, now: int, eventId: string,
                          key: string): Outcome {
    var auth := GetAuthorization(log, tradeId, authorizationId);
    if auth.None? then Fail(log, AuthorizationUnavailable)
    else
      var payload := TradeAuthorization(authorizationId, auth.value.expiresAt, auth.value.authorizedRisk);
      var verdict := AuthorizeVerdict(log, auth.value, now, payload, key);
      if verdict.Stop? then Outcome(log, verdict.error)
      else Record(log, Event(eventId, now, tradeId, Some(Authorized), TradeAuthorized, key, payload))
  }

  function RevokeVerdict(log: Log, auth: Authorization, payload: Payload, key: string): Verdict {
    var retry := RetryOf(log, auth.tradeId, key, AuthorizationRevoked, payload);
    if retry == Conflict then Stop(Some(RetryConflict))
    else if retry == SameRequest then Stop(None)
    else if auth.status == Revoked then Stop(Some(AlreadyRevoked))
    else if RiskBlocked(log) then Stop(Some(UnresolvedBlocksRisk))
    else if StateOf(log, auth.tradeId) !in {Some(Authorized), Some(OrderSubmitted), Some(Accepted)}
      then Stop(Some(WrongState))
    else Write
  }

  function RevokeAuthorization(log: Log, tradeId: string, authorizationId: string, reason: string, now: int,
                               eventId: string, key: string): Outcome
  {
    if Blank(reason) then Fail(log, ReasonMissing)
    else
      var auth := GetAuthorization(log, tradeId, authorizationId);
      if auth.None? then Fail(log, AuthorizationUnavailable)
      else if now < auth.value.issuedAt then Fail(log, RevokedBeforeIssuance)
      else
        var payload := Revocation(authorizationId, reason, now);
        var verdict := RevokeVerdict(log, auth.value, payload, key);
        if verdict.Stop? then Outcome(log, verdict.error)
        else Record(log, Event(eventId, now, tradeId, None, AuthorizationRevoked, key, payload))
  }

  function ReserveVerdict(log: Log, auth: Authorization, amount: real, reservationId: string, now: int,
                          payload: Payload, key: string): Verdict
  {
    var same := Select(log, ReservedAs(auth.tradeId, reservationId));
    if same != [] then Stop(if same[0].payload != payload then Some(ReservationIdReused) else None)
    else
      var retry := RetryOf(log, auth.tradeId, key, ReservationCreated, payload);
      if retry == Conflict then Stop(Some(RetryConflict))
      else if retry == SameRequest then Stop(None)
      else if RiskBlocked(log) then Stop(Some(UnresolvedBlocksRisk))
      else if CurrencyError(auth, now).Some? then Stop(CurrencyError(auth, now))
      else if StateOf(log, auth.tradeId) != Some(Authorized) then Stop(Some(WrongState))
      else if amount <= 0.0 then Stop(Some(AmountInvalid))
      else if amount > auth.authorizedRisk then Stop(Some(AmountExceedsAuthorization))
      else if ActiveReserved(log, auth.tradeId, auth.authorizationId) + amount > auth.authorizedRisk
      then Stop(Some(ReservationsExceedAuthorization))
      else Write
  }

  function Reserve(log: Log, tradeId: string, authorizationId: string, amount: real, reservationId: string, now: int,
                   eventId: string, key: string): Outcome
  {
    var auth := GetAuthorization(log, tradeId, authorizationId);
    if auth.None? then Fail(log, AuthorizationUnavailable)
    else
      var payload := Reservation(reservationId, authorizationId, amount, auth.value.expiresAt);
      var verdict := ReserveVerdict(log, auth.value, amount, reservationId, now, payload, key);
      if verdict.Stop? then Outcome(log, verdict.error)
      else Record(log, Event(eventId, now, tradeId, None, ReservationCreated, key, payload))
  }

  /** `None` when an order of this risk may be executed now. */
  function ExecutionError(log: Log, tradeId: string, authorizationId: string, requiredRisk: real,
                          now: int): Option<FirewallError> {
    if RiskBlocked(log) then Some(UnresolvedBlocksRisk)
    else
      var auth := GetAuthorization(log, tradeId, authorizationId);
      if auth.None? then Some(AuthorizationUnavailable)
      else if CurrencyError(auth.value, now).Some? then CurrencyError(auth.value, now)
      else if StateOf(log, tradeId) != Some(Authorized) then Some(WrongState)
      else if requiredRisk <= 0.0 || requiredRisk > auth.value.authorizedRisk then Some(RequiredRiskInvalid)
      else if ActiveReserved(log, tradeId, authorizationId) < requiredRisk then Some(ReservationInsufficient)
      else None
  }

  function ReleaseVerdict(log: Log, tradeId: string, payload: Payload, key: string): Verdict {
    var retry := RetryOf(log, tradeId, key, ReservationReleased, payload);
    if retry == Conflict then Stop(Some(RetryConflict)) else if retry == SameRequest then Stop(None) else Write
  }

  /** Write the release of a reservation that is on record exactly once. */
  function RecordRelease(log: Log, tradeId: string, authorizationId: string, reservationId: string,
                         status: AuthorizationStatus, preExecution: Option<string>, now: int, eventId: string,
                         key: string): Outcome
  {
    var created := Select(log, ReservedFor(tradeId, authorizationId, reservationId));
    if |created| != 1 then Fail(log, ReservationUnavailable)
    else
      SelectHead(log, ReservedFor(tradeId, authorizationId, reservationId));
      var payload := Release(reservationId, authorizationId, created[0].payload.amount, now, status, preExecution);
      var verdict := ReleaseVerdict(log, tradeId, payload, key);
      if verdict.Stop? then Outcome(log, verdict.error)
      else Record(log, Event(eventId, now, tradeId, None, ReservationReleased, key, payload))
  }

  /** Cancel a reservation before any order was submitted; only for a revoked authorization. */
  function ReleasePreExecution(log: Log, tradeId: string, authorizationId: string, reservationId: string,
                               reason: string, now: int, eventId: string, key: string): Outcome
  {
    if Blank(reason) then Fail(log, ReasonMissing)
    else if RiskBlocked(log) then Fail(log, UnresolvedBlocksRisk)
    else
      var auth := GetAuthorization(log, tradeId, authorizationId);
      if auth.None? then Fail(log, AuthorizationUnavailable)
      else if auth.value.status != Revoked then Fail(log, NotRevoked)
      else if Select(log, SubmissionType(tradeId)) != [] then Fail(log, AlreadySubmitted)
      else if StateOf(log, tradeId) != Some(Authorized) then Fail(log, WrongState)
      else RecordRelease(log, tradeId, authorizationId, reservationId, auth.value.status, Some(reason), now, eventId,
                         key)
  }

  /** Give capital back after the trade has closed. */
  function ReleaseReservation(log: Log, tradeId: string, authorizationId: string, reservationId: string, now: int,
                              eventId: string, key: string): Outcome
  {
    if RiskBlocked(log) then Fail(log, UnresolvedBlocksRisk)
    else
      var auth := GetAuthorization(log, tradeId, authorizationId);
      if auth.None? then Fail(log, AuthorizationUnavailable)
      else if Select(log, ByTradeKey(tradeId, key)) == [] && StateOf(log, tradeId) !in {Some(Closed), Some(Reconciled)}
      then Fail(log, WrongState)
      else RecordRelease(log, tradeId, authorizationId, reservationId, auth.value.status, None, now, eventId, key)
  }
}
