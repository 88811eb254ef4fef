/** The append-only trade ledger seen as a value: a sequence of lifecycle events.

    Everything the control plane knows is computed from this sequence.  The hash
    chain and the in-place indexes are added by `TradeLedgers`. */
module Ledger {
  import opened Options

  /** The lifecycle states of a trade. */
  datatype State =
    | Proposed | Validated | RiskReserved | Authorized | OrderSubmitted | Rejected
    | Accepted | Filled | Open | Managed | Closed | Reconciled

  /** The constitutional transition table. */
  predicate Allowed(from: State, to: State) {
    match from
    case Proposed => to == Validated
    case Validated => to == RiskReserved
    case RiskReserved => to == Authorized
    case Authorized => to == OrderSubmitted
    case OrderSubmitted => to == Accepted || to == Rejected
    case Rejected => to == Reconciled
    case Accepted => to == Filled
    case Filled => to == Open
    case Open => to == Managed || to == Closed
    case Managed => to == Managed || to == Closed
    case Closed => to == Reconciled
    case Reconciled => false
  }

  /** The immutable provenance an authorization is bound to. */
  datatype Proof = Proof(
    snapshotId: string, symbol: string, timeframe: string, decisionId: string, strategyId: string,
    modelId: string, policyVersion: string, riskAuthorizationId: string, authorizationExpiry: int,
    inputHash: string, executionContractVersion: string)

  /** What the execution adapter writes down before it talks to the broker. */
  datatype Submission = Submission(
    authorizationId: string, reservationId: string, requestHash: string, symbol: string,
    timeframe: string, side: string, volume: real, executionContractVersion: string)

  /** The payload fields of a runtime trace. */
  datatype Field =
    | RuntimeTraceSchema | RuntimeSource | BrokerTimestamp | BrokerUtcOffsetSeconds
    | Side | RequestedVolume | RequestedPrice | RequestedSl | RequestedTp | OrderTicket | Retcode | DealTicket
    | FillPrice | PositionCount | Reason | PositionTicket | PositionId | ExitPrice | Volume | Profit | Swap
    | Commission | FilledVolume | OtherField(name: string)

  datatype Scalar = Text(text: string) | Whole(whole: int) | Number(number: real)

  datatype AuthorizationStatus = Active | Revoked

  datatype Payload =
    | AdmissionFacts(facts: map<string, string>)
    | Issue(authorizationId: string, authorizedRisk: real, issuedAt: int, expiresAt: int, proof: Proof)
    | TradeAuthorization(authorizationId: string, expiresAt: int, authorizedRisk: real)
    | Revocation(authorizationId: string, reason: string, revokedAt: int)
    | Reservation(reservationId: string, authorizationId: string, amount: real, expiresAt: int)
    | Release(reservationId: string, authorizationId: string, amount: real, releasedAt: int,
              status: AuthorizationStatus, preExecution: Option<string>)
    | Submitted(submission: Submission)
    | BrokerError(submission: Submission, errorType: string)
    | BrokerReport(submission: Submission, orderId: Option<string>, dealId: Option<string>, retcode: string,
                   reason: string, filled: real, remaining: real)
    | RecoveryReport(recovered: RecoveredFacts)
    | TraceFields(fields: map<Field, Scalar>)
    | Snapshots(expectedHash: string, observedHash: string)

  datatype RecoveredFacts = RecoveredFacts(
    authorizationId: Option<string>, reservationId: Option<string>, requestHash: Option<string>,
    symbol: Option<string>, timeframe: Option<string>, side: Option<string>, volume: real,
    orderId: string, dealId: Option<string>, retcode: string, reason: string, recoveryStatus: Option<string>)

  /** Event types.  `Lifecycle(s)` is the type spelled like the state `s`. */
  datatype EventType =
    | ControlPlane(state: State)
    | Lifecycle(state: State)
    | AuthorizationIssued
    | AuthorizationRevoked
    | TradeAuthorized
    | ReservationCreated
    | ReservationReleased
    | ReconciliationException
    | OutcomeUnknown
    | PartialObserved
    | OrderRejected
    | OrderPending
    | OutcomeObservationRecovery
    | AcceptedRecovery
    | RejectedRecovery
    | OtherType(name: string)

  /** The event types that mark a trade as unresolved at the broker. */
  predicate LeavesUnresolved(t: EventType) {
    t in {ReconciliationException, OutcomeUnknown, PartialObserved, OrderRejected, OrderPending,
          OutcomeObservationRecovery}
  }

  datatype Event = Event(
    eventId: string, timestamp: int, tradeId: string, state: Option<State>, eventType: EventType,
    key: string, payload: Payload)

  /** The history as a value: nothing, or one more event after what was there before. */
  datatype Log = Genesis | Recorded(before: Log, last: Event)

  predicate Has(log: Log, e: Event) {
    log.Recorded? && (log.last == e || Has(log.before, e))
  }

  /** `longer` is `log` with any number of events recorded after it. */
  predicate Extends(log: Log, longer: Log) {
    longer == log || (longer.Recorded? && Extends(log, longer.before))
  }

  // ---------------------------------------------------------------- queries

  /** The last lifecycle state of a trade. */
  function StateOf(log: Log, tradeId: string): Option<State> {
    match log
    case Genesis => None
    case Recorded(before, e) => if e.tradeId == tradeId && e.state.Some? then e.state else StateOf(before, tradeId)
  }

  function UnresolvedAfter(unresolved: set<string>, e: Event): set<string> {
    if LeavesUnresolved(e.eventType) || e.state == Some(Rejected) then unresolved + {e.tradeId}
    else if e.state == Some(Reconciled) then unresolved - {e.tradeId}
    else unresolved
  }

  /** The trades whose broker outcome is unresolved; non-empty means new risk is blocked. */
  function Unresolved(log: Log): set<string> {
    match log
    case Genesis => {}
    case Recorded(before, e) => UnresolvedAfter(Unresolved(before), e)
  }

  predicate RiskBlocked(log: Log) {
    Unresolved(log) != {}
  }

  /** The comprehensions over the log that the control plane uses. */
  datatype Query =
    | ById(eventId: string)
    | ByKey(key: string)
    | ByTradeKey(tradeId: string, key: string)
    | IssuedFor(tradeId: string, authorizationId: string)
    | RevokedFor(tradeId: string, authorizationId: string)
    | RevokedUntil(tradeId: string, authorizationId: string, asOf: int)
    | ReservedFor(tradeId: string, authorizationId: string, reservationId: string)
    | ReservedAs(tradeId: string, reservationId: string)
    | ReleasedFor(tradeId: string, authorizationId: string, reservationId: string)
    | SubmissionType(tradeId: string)
    | SubmissionState(tradeId: string)

  predicate Matches(q: Query, e: Event) {
    match q
    case ById(id) => e.eventId == id
    case ByKey(key) => e.key == key
    case ByTradeKey(t, key) => e.tradeId == t && e.key == key
    case IssuedFor(t, a) =>
      e.tradeId == t && e.eventType == AuthorizationIssued && e.payload.Issue? && e.payload.authorizationId == a
    case RevokedFor(t, a) => IsRevocation(e, t, a)
    case RevokedUntil(t, a, asOf) => IsRevocation(e, t, a) && e.payload.revokedAt <= asOf
    case ReservedFor(t, a, r) => IsReservation(e, t, a) && e.payload.reservationId == r
    case ReservedAs(t, r) =>
      e.tradeId == t && e.eventType == ReservationCreated && e.payload.Reservation? && e.payload.reservationId == r
    case ReleasedFor(t, a, r) => IsRelease(e, t, a) && e.payload.reservationId == r
    case SubmissionType(t) => e.tradeId == t && e.eventType == Lifecycle(OrderSubmitted)
    case SubmissionState(t) => e.tradeId == t && e.state == Some(OrderSubmitted)
  }

  predicate IsRevocation(e: Event, tradeId: string, authorizationId: string) {
    e.tradeId == tradeId && e.eventType == AuthorizationRevoked && e.payload.Revocation?
      && e.payload.authorizationId == authorizationId
  }

  predicate IsReservation(e: Event, tradeId: string, authorizationId: string) {
    e.tradeId == tradeId && e.eventType == ReservationCreated && e.payload.Reservation?
      && e.payload.authorizationId == authorizationId
  }

  predicate IsRelease(e: Event, tradeId: string, authorizationId: string) {
    e.tradeId == tradeId && e.eventType == ReservationReleased && e.payload.Release?
      && e.payload.authorizationId == authorizationId
  }

  /** The events of the log a query selects, oldest first. */
  function Select(log: Log, q: Query): seq<Event> {
    match log
    case Genesis => []
    case Recorded(before, e) => if Matches(q, e) then Select(before, q) + [e] else Select(before, q)
  }

  /** A query selects exactly the events of the log that match it. */
  lemma {:induction false} SelectExactly(log: Log, q: Query)
    ensures forall e :: e in Select(log, q) <==> Has(log, e) && Matches(q, e)
  {
    if log.Recorded? { SelectExactly(log.before, q); }
  }

  lemma {:induction false} SelectHead(log: Log, q: Query)
    ensures Select(log, q) != [] ==> Has(log, Select(log, q)[0]) && Matches(q, Select(log, q)[0])
  {
    if log.Recorded? { SelectHead(log.before, q); }
  }

  lemma {:induction false} Selected(log: Log, q: Query, e: Event)
    requires Has(log, e) && Matches(q, e)
    ensures Select(log, q) != [] && e in Select(log, q)
  {
    if log.last != e { Selected(log.before, q, e); }
  }

  /** What a query selected stays selected, in front. */
  lemma {:induction false} SelectExtends(log: Log, longer: Log, q: Query)
    requires Extends(log, longer)
    ensures Select(log, q) <= Select(longer, q)
  {
    if longer != log { SelectExtends(log, longer.before, q); }
  }

  // ----------------------------------------------------------------- append

  datatype AppendError =
    | IdentityMissing | EventIdReused | KeyReusedWithDifferentSemantics | MustStartAtProposed | ForbiddenTransition

  datatype AppendResult = Appended(event: Event) | Existing(event: Event) | Refused(error: AppendError)

  predicate Identified(e: Event) {
    e.tradeId != "" && e.key != "" && e.eventId != "" && e.eventType != OtherType("")
  }

  predicate SameSemantics(a: Event, b: Event) {
    a.tradeId == b.tradeId && a.state == b.state && a.eventType == b.eventType && a.payload == b.payload
  }

  /** May the trade of `e` enter the state `e` carries? */
  predicate LegalNext(log: Log, e: Event) {
    e.state.Some? ==>
      var current := StateOf(log, e.tradeId);
      if current.None? then e.state.value == Proposed else Allowed(current.value, e.state.value)
  }

  /** What the ledger answers to a request to record `e`: idempotency is decided before the transition is. */
  function Append(log: Log, e: Event): AppendResult {
    if !Identified(e) then Refused(IdentityMissing)
    else
      var sameId := Select(log, ById(e.eventId));
      if sameId != [] && sameId[0].key != e.key then Refused(EventIdReused)
      else
        var sameKey := Select(log, ByKey(e.key));
        if sameKey != [] then
          if SameSemantics(sameKey[0], e) then Existing(sameKey[0]) else Refused(KeyReusedWithDifferentSemantics)
        else if LegalNext(log, e) then Appended(e)
        else if StateOf(log, e.tradeId).None? then Refused(MustStartAtProposed)
        else Refused(ForbiddenTransition)
  }

  /** The log after the ledger gave the answer `r`. */
  function Extend(log: Log, r: AppendResult): Log {
    if r.Appended? then Recorded(log, r.event) else log
  }

  // --------------------------------------------------------- well-formedness

  predicate FreshId(log: Log, id: string) {
    log.Genesis? || (log.last.eventId != id && FreshId(log.before, id))
  }

  predicate FreshKey(log: Log, key: string) {
    log.Genesis? || (log.last.key != key && FreshKey(log.before, key))
  }

  /** `e` may follow `log`: new key, new event id, legal transition. */
  predicate Follows(log: Log, e: Event) {
    FreshId(log, e.eventId) && FreshKey(log, e.key) && LegalNext(log, e)
  }

  /** What every persisted log satisfies: each event may follow the events before it. */
  predicate Sound(log: Log) {
    log.Genesis? || (Sound(log.before) && Follows(log.before, log.last))
  }

  /** A sound log of events with nonempty identities. */
  predicate WellFormed(log: Log) {
    log.Genesis? || (WellFormed(log.before) && Follows(log.before, log.last) && Identified(log.last))
  }

  lemma {:induction false} WellFormedIsSound(log: Log)
    requires WellFormed(log)
    ensures Sound(log)
  {
    if log.Recorded? { WellFormedIsSound(log.before); }
  }

  lemma {:induction false} FreshExactly(log: Log, id: string, key: string)
    ensures FreshId(log, id) <==> forall e :: Has(log, e) ==> e.eventId != id
    ensures FreshKey(log, key) <==> forall e :: Has(log, e) ==> e.key != key
  {
    if log.Recorded? {
      assert Has(log, log.last);
      FreshExactly(log.before, id, key);
      assert forall e :: Has(log.before, e) ==> Has(log, e);
    }
  }

  lemma {:induction false} ExtendsTransitive(a: Log, b: Log, c: Log)
    requires Extends(a, b) && Extends(b, c)
    ensures Extends(a, c)
  {
    if c != b { ExtendsTransitive(a, b, c.before); }
  }

  lemma {:induction false} ExtendsSound(log: Log, longer: Log)
    requires Extends(log, longer) && Sound(longer)
    ensures Sound(log)
  {
    if longer != log { ExtendsSound(log, longer.before); }
  }

  lemma {:induction false} ExtendsHas(log: Log, longer: Log, e: Event)
    requires Extends(log, longer) && Has(log, e)
    ensures Has(longer, e)
  {
    if longer != log { ExtendsHas(log, longer.before, e); }
  }

  /** Every event was the last one once. */
  lemma {:induction false} WhenRecorded(log: Log, e: Event) returns (upTo: Log)
    requires Has(log, e)
    ensures Extends(upTo, log) && upTo.Recorded? && upTo.last == e
  {
    if log.last == e { upTo := log; } else { upTo := WhenRecorded(log.before, e); }
  }

  lemma {:induction false} FreshSelectsNothing(log: Log, e: Event)
    ensures FreshId(log, e.eventId) <==> Select(log, ById(e.eventId)) == []
    ensures FreshKey(log, e.key) <==> Select(log, ByKey(e.key)) == []
  {
    if log.Recorded? { FreshSelectsNothing(log.before, e); }
  }

  lemma {:induction false} FreshKeyIsNotSeen(log: Log, trade: string, key: string)
    requires FreshKey(log, key)
    ensures Select(log, ByTradeKey(trade, key)) == []
  {
    if log.Recorded? { FreshKeyIsNotSeen(log.before, trade, key); }
  }

  /** A known event id with this key is a known key. */
  lemma SameIdSameKey(log: Log, e: Event)
    ensures Select(log, ByKey(e.key)) == [] && Select(log, ById(e.eventId)) != []
            ==> Select(log, ById(e.eventId))[0].key != e.key
  {
    SelectHead(log, ById(e.eventId));
    var found := Select(log, ById(e.eventId));
    if found != [] && found[0].key == e.key { Selected(log, ByKey(e.key), found[0]); }
  }

  /** Recording an event is allowed exactly when the longer log is well formed; anything else leaves the log alone. */
  lemma AppendExactly(log: Log, e: Event)
    requires WellFormed(log)
    ensures Append(log, e).Appended? <==> WellFormed(Recorded(log, e))
    ensures Append(log, e).Appended? ==> Append(log, e).event == e
    ensures WellFormed(Extend(log, Append(log, e)))
  {
    FreshSelectsNothing(log, e);
    SameIdSameKey(log, e);
  }

  /** A request under these names would be a new one. */
  predicate NewNames(log: Log, id: string, key: string) {
    id != "" && key != "" && FreshId(log, id) && FreshKey(log, key)
  }

  /** On any log an event is recorded exactly when its trade and type are named, its names are new and its transition is
      legal. */
  lemma AppendedExactly(log: Log, e: Event)
    ensures Append(log, e).Appended? <==>
              e.tradeId != "" && e.eventType != OtherType("") && NewNames(log, e.eventId, e.key) && LegalNext(log, e)
    ensures Append(log, e).Appended? ==> Append(log, e) == Appended(e)
  {
    FreshSelectsNothing(log, e);
    SameIdSameKey(log, e);
  }

  lemma ExistingIsOnRecord(log: Log, e: Event)
    requires Append(log, e).Existing?
    ensures Has(log, Append(log, e).event) && Append(log, e).event.key == e.key
            && SameSemantics(Append(log, e).event, e)
  {
    SelectHead(log, ByKey(e.key));
  }

  lemma {:induction false} SameIdIsSameEvent(log: Log, a: Event, b: Event)
    requires Sound(log) && Has(log, a) && Has(log, b)
    ensures a.eventId == b.eventId ==> a == b
    ensures a.key == b.key ==> a == b
  {
    if log.last != a && log.last != b {
      SameIdIsSameEvent(log.before, a, b);
    } else {
      FreshExactly(log.before, log.last.eventId, log.last.key);
    }
  }

  /** A request whose key is known changes nothing, and succeeds exactly when it repeats the recorded
      event and does not borrow the id of another event. */
  lemma RetryExactly(log: Log, known: Event, e: Event)
    requires WellFormed(log) && Has(log, known) && e.key == known.key
    ensures Extend(log, Append(log, e)) == log
    ensures Append(log, e) == Existing(known) <==>
            && e.eventId != ""
            && SameSemantics(known, e)
            && (forall x :: Has(log, x) && x.eventId == e.eventId ==> x == known)
  {
    WellFormedIsSound(log);
    KnownIsIdentified(log, known);
    var sameId := Select(log, ById(e.eventId));
    var sameKey := Select(log, ByKey(e.key));
    Selected(log, ByKey(e.key), known);
    SelectHead(log, ByKey(e.key));
    SelectHead(log, ById(e.eventId));
    SameIdIsSameEvent(log, sameKey[0], known);
    if sameId == [] {
      FreshSelectsNothing(log, e);
      FreshExactly(log, e.eventId, e.key);
    } else {
      SameIdIsSameEvent(log, sameId[0], known);
      forall x | Has(log, x) && x.eventId == e.eventId ensures x == sameId[0] {
        SameIdIsSameEvent(log, sameId[0], x);
      }
    }
  }

  lemma {:induction false} KnownIsIdentified(log: Log, e: Event)
    requires WellFormed(log) && Has(log, e)
    ensures Identified(e)
  {
    if log.last != e { KnownIsIdentified(log.before, e); }
  }

  lemma {:induction false} StateIsNamed(log: Log, t: string)
    requires WellFormed(log) && StateOf(log, t).Some?
    ensures t != ""
  {
    if !(log.last.tradeId == t && log.last.state.Some?) { StateIsNamed(log.before, t); }
  }

  // ------------------------------------------------------- lifecycle lemmas

  /** How far along its lifecycle a state is. */
  function Rank(s: State): nat {
    match s
    case Proposed => 0
    case Validated => 1
    case RiskReserved => 2
    case Authorized => 3
    case OrderSubmitted => 4
    case Rejected => 5
    case Accepted => 5
    case Filled => 6
    case Open => 7
    case Managed => 8
    case Closed => 9
    case Reconciled => 10
  }

  predicate NotBefore(a: Option<State>, b: Option<State>) {
    a.Some? ==> b.Some? && (a == b || Rank(a.value) < Rank(b.value))
  }

  /** The lifecycle goes up one rank at a time; an open trade may close without being managed, a managed one may be
      managed again, and a rejected one can only be reconciled. */
  lemma AllowedExactly(from: State, to: State)
    ensures Allowed(from, to) <==>
              || (Rank(to) == Rank(from) + 1 && from != Rejected)
              || (from == Open && to == Closed)
              || from == to == Managed
              || (from == Rejected && to == Reconciled)
  {
  }

  lemma AllowedRaises(from: State, to: State)
    requires Allowed(from, to)
    ensures Rank(from) < Rank(to) || from == to == Managed
  {
  }

  lemma StepForward(log: Log, e: Event, t: string)
    requires LegalNext(log, e)
    ensures NotBefore(StateOf(log, t), StateOf(Recorded(log, e), t))
  {
    if e.tradeId == t && e.state.Some? && StateOf(log, t).Some? {
      AllowedRaises(StateOf(log, t).value, e.state.value);
    }
  }

  lemma NotBeforeTransitive(a: Option<State>, b: Option<State>, c: Option<State>)
    requires NotBefore(a, b) && NotBefore(b, c)
    ensures NotBefore(a, c)
  {
  }

  /** A trade never moves back: along a sound log its state is the same or of higher rank. */
  lemma {:induction false} NeverBack(log: Log, longer: Log, t: string)
    requires Extends(log, longer) && Sound(longer)
    ensures NotBefore(StateOf(log, t), StateOf(longer, t))
  {
    if longer != log {
      NeverBack(log, longer.before, t);
      StepForward(longer.before, longer.last, t);
      NotBeforeTransitive(StateOf(log, t), StateOf(longer.before, t), StateOf(longer, t));
    }
  }

  /** Once entered, a state is where the trade is, or is behind it. */
  lemma StateReached(log: Log, e: Event)
    requires Sound(log) && Has(log, e) && e.state.Some?
    ensures NotBefore(e.state, StateOf(log, e.tradeId))
  {
    var upTo := WhenRecorded(log, e);
    NeverBack(upTo, log, e.tradeId);
  }

  /** Every state except `Managed` is entered at most once by a trade. */
  lemma EnteredOnce(earlier: Log, later: Log)
    requires Sound(later) && earlier.Recorded? && later.Recorded? && Extends(earlier, later.before)
    requires earlier.last.tradeId == later.last.tradeId
    requires earlier.last.state.Some? && earlier.last.state == later.last.state
    ensures earlier.last.state == Some(Managed)
  {
    NeverBack(earlier, later.before, earlier.last.tradeId);
    AllowedRaises(StateOf(later.before, later.last.tradeId).value, later.last.state.value);
  }

  /** A rejected trade stays unresolved until it is reconciled. */
  lemma {:induction false} RejectedIsUnresolved(log: Log, t: string)
    requires Sound(log) && StateOf(log, t) == Some(Rejected)
    ensures t in Unresolved(log)
  {
    if !(log.last.tradeId == t && log.last.state.Some?) {
      RejectedIsUnresolved(log.before, t);
    }
  }
}
