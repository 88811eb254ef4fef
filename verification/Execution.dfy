/** The execution boundary: admission, the submit-once adapter, and broker outcome recovery,
    as functions of the ledger and of whatever the broker does. */
module Execution {
  import opened Options
  import opened Ledger
  import opened Firewall
  import opened Envelopes

  // --------------------------------------------------------------- admission

  const EXECUTION_CONTRACT := "forexai.execution.v1"

  datatype OrderRequest = OrderRequest(
    tradeId: string, symbol: string, timeframe: string, side: string, volume: real, riskFraction: real,
    stopLoss: real, takeProfit: real, executionContractVersion: string)

  type RequestHash = OrderRequest -> string

  /** The hashes the boundary uses, left uninterpreted. */
  datatype Hashes = Hashes(envelope: EnvelopeHash, request: RequestHash)

  predicate Admitted(h: Hashes, log: Log, envelope: Envelope, request: OrderRequest, now: int) {
    var f := envelope.facts;
    && Current(h.envelope, log, envelope, now)
    && request.tradeId == f.tradeId
    && request.symbol != "" && request.symbol == f.proof.symbol
    && request.timeframe == f.proof.timeframe
    && request.side in {"BUY", "SELL"}
    && request.executionContractVersion == EXECUTION_CONTRACT
    && request.volume > 0.0 && request.riskFraction > 0.0 && request.stopLoss > 0.0 && request.takeProfit > 0.0
    && request.riskFraction <= f.reservedRisk
  }

  function SubmissionOf(h: Hashes, envelope: Envelope, request: OrderRequest): Submission {
    Submission(envelope.facts.authorizationId, envelope.facts.reservationId, h.request(request), request.symbol,
               request.timeframe, request.side, request.volume, request.executionContractVersion)
  }

  // ------------------------------------------------------------- the adapter

  datatype Order = Order(envelope: Envelope, authentic: bool, request: OrderRequest, now: int, eventId: string,
                         key: string)

  /** The intent: `ORDER_SUBMITTED` is durable before the broker hears of the order. */
  function IntentEvent(h: Hashes, o: Order): Event {
    Event(o.eventId, o.now, o.request.tradeId, Some(OrderSubmitted), Lifecycle(OrderSubmitted), o.key,
          Submitted(SubmissionOf(h, o.envelope, o.request)))
  }

  /** The gate before the write-ahead of the intent. */
  predicate GatePasses(h: Hashes, log: Log, o: Order) {
    && o.authentic
    && Admitted(h, log, o.envelope, o.request, o.now)
    && StateOf(log, o.request.tradeId) == Some(Authorized)
    && !RiskBlocked(log)
  }

  /** The broker is called only if the gate passed and the intent is on the ledger. */
  predicate CallsBroker(h: Hashes, log: Log, o: Order) {
    GatePasses(h, log, o) && !Append(log, IntentEvent(h, o)).Refused?
  }

  function AfterIntent(h: Hashes, log: Log, o: Order): Log {
    if GatePasses(h, log, o) then Extend(log, Append(log, IntentEvent(h, o))) else log
  }

  datatype Response = Response(
    status: string, symbol: string, timeframe: string, side: string, volume: real, orderId: Option<string>,
    dealId: Option<string>, retcode: string, reason: Option<string>, filled: Option<real>, remaining: Option<real>)

  /** Whatever the gateway does: raise, answer something that is not a response record, or answer. */
  datatype BrokerBehaviour = Raises(errorType: string) | Malformed | Answers(response: Response)

  const TOLERANCE: real := 0.000000001

  predicate Close(a: real, b: real) {
    -TOLERANCE <= a - b <= TOLERANCE
  }

  datatype BrokerVerdict = Unusable | PartialFill | PendingOrder | RejectedOrder | AcceptedOrder

  function FilledOf(r: Response): real {
    if r.filled.Some? then r.filled.value else 0.0
  }

  function RemainingOf(r: Response, requested: real): real {
    if r.remaining.Some? then r.remaining.value
    else if requested - FilledOf(r) > 0.0 then requested - FilledOf(r)
    else 0.0
  }

  predicate Named(s: Option<string>) {
    s.Some? && s.value != ""
  }

  /** How the adapter reads an answer; `Unusable` answers raise and journal nothing. */
  function Classify(r: Response, request: OrderRequest): BrokerVerdict {
    var filled, remaining := FilledOf(r), RemainingOf(r, request.volume);
    if r.status !in {"ACCEPTED", "REJECTED", "PARTIAL", "PENDING"} then Unusable
    else if r.symbol != request.symbol || r.timeframe != request.timeframe || r.side != request.side then Unusable
    else if r.volume != request.volume then Unusable
    else if r.orderId == Some("") || r.dealId == Some("") || r.retcode == "" then Unusable
    else if filled < 0.0 || remaining < 0.0 || filled > request.volume || !Close(filled + remaining, request.volume)
      then Unusable
    else if r.status == "PARTIAL" then
      if r.orderId.None? || filled <= 0.0 || filled >= request.volume || remaining <= 0.0 then Unusable else PartialFill
    else if r.status == "PENDING" then
      if r.orderId.None? || r.dealId.Some? || filled != 0.0 || !Named(r.reason) then Unusable else PendingOrder
    else if r.status == "REJECTED" then
      if filled != 0.0 || r.dealId.Some? || !Named(r.reason) then Unusable else RejectedOrder
    else if r.orderId.None? || r.dealId.None? || !Close(filled, request.volume) || remaining != 0.0 then Unusable
    else AcceptedOrder
  }

  /** The event that journals a broker behaviour, if the adapter journals one. */
  function OutcomeEvent(h: Hashes, o: Order, b: BrokerBehaviour): Option<Event> {
    var s := SubmissionOf(h, o.envelope, o.request);
    var t := o.request.tradeId;
    match b
    case Raises(error) =>
      Some(Event(o.eventId + ":unknown", o.now, t, None, OutcomeUnknown, o.key + ":unknown", BrokerError(s, error)))
    case Malformed => None
    case Answers(r) =>
      var filled, remaining := FilledOf(r), RemainingOf(r, o.request.volume);
      match Classify(r, o.request)
      case Unusable => None
      case PartialFill =>
        Some(Event(o.eventId + ":partial", o.now, t, None, PartialObserved, o.key + ":partial",
                   BrokerReport(s, r.orderId, r.dealId, r.retcode, "", filled, remaining)))
      case PendingOrder =>
        Some(Event(o.eventId + ":pending", o.now, t, None, OrderPending, o.key + ":pending",
                   BrokerReport(s, r.orderId, None, r.retcode, r.reason.value, 0.0, o.request.volume)))
      case RejectedOrder =>
        Some(Event(o.eventId + ":rejected", o.now, t, Some(Rejected), OrderRejected, o.key + ":rejected",
                   BrokerReport(s, r.orderId, None, r.retcode, r.reason.value, 0.0, o.request.volume)))
      case AcceptedOrder =>
        Some(Event(o.eventId + ":accepted", o.now, t, Some(Accepted), Lifecycle(Accepted), o.key + ":accepted",
                   BrokerReport(s, r.orderId, r.dealId, r.retcode, "FILLED", filled, remaining)))
  }

  function AfterOutcome(h: Hashes, log: Log, o: Order, b: BrokerBehaviour): Log {
    var e := OutcomeEvent(h, o, b);
    if e.None? then log else Extend(log, Append(log, e.value))
  }

  /** The order keeps to the authorization that the ledger records for its trade. */
  predicate KeepsToAuthorization(log: Log, o: Order) {
    var r, f := o.request, o.envelope.facts;
    var auth := GetAuthorization(log, r.tradeId, f.authorizationId);
    && r.tradeId == f.tradeId && auth.Some?
    && r.symbol != "" && r.symbol == auth.value.proof.symbol && r.timeframe == auth.value.proof.timeframe
    && (r.side == "BUY" || r.side == "SELL") && r.executionContractVersion == "forexai.execution.v1"
    && 0.0 < r.volume && 0.0 < r.stopLoss && 0.0 < r.takeProfit && 0.0 < r.riskFraction <= f.reservedRisk
  }

  /** The intent says what was ordered, and under which authority. */
  predicate SaysOrder(h: Hashes, e: Event, o: Order) {
    && e.eventId == o.eventId && e.key == o.key && e.timestamp == o.now && e.tradeId == o.request.tradeId
    && e.state == Some(OrderSubmitted) && e.payload.Submitted?
    && var s := e.payload.submission;
       && s.symbol == o.request.symbol && s.timeframe == o.request.timeframe && s.side == o.request.side
       && s.volume == o.request.volume && s.executionContractVersion == o.request.executionContractVersion
       && s.authorizationId == o.envelope.facts.authorizationId && s.reservationId == o.envelope.facts.reservationId
       && s.requestHash == h.request(o.request)
  }

  /** A whole submission: gate, intent, call, journal. */
  function AfterSubmit(h: Hashes, log: Log, o: Order, b: BrokerBehaviour): Log {
    if CallsBroker(h, log, o) then AfterOutcome(h, AfterIntent(h, log, o), o, b) else AfterIntent(h, log, o)
  }

  lemma SubmittedAlready(log: Log, known: Event)
    requires Sound(log) && Has(log, known) && known.state == Some(OrderSubmitted)
    ensures StateOf(log, known.tradeId) != Some(Authorized)
  {
    Selected(log, SubmissionState(known.tradeId), known);
    SubmittedIsPastAuthorized(log, known.tradeId);
  }

  /** From an authorized trade, an accepted submission is a new event: nobody submitted it before. */
  lemma SubmissionIsNew(log: Log, e: Event)
    requires WellFormed(log) && e.state == Some(OrderSubmitted) && StateOf(log, e.tradeId) == Some(Authorized)
    requires !Append(log, e).Refused?
    ensures Append(log, e) == Appended(e) && WellFormed(Recorded(log, e))
  {
    WellFormedIsSound(log);
    if Append(log, e).Existing? {
      ExistingIsOnRecord(log, e);
      SubmittedAlready(log, Append(log, e).event);
    } else {
      AppendExactly(log, e);
    }
  }

  /** When the broker is called, the intent was appended just now, as a new event, on a log that justified it. */
  lemma CallMeansNewIntent(h: Hashes, log: Log, o: Order)
    requires WellFormed(log) && CallsBroker(h, log, o)
    ensures AfterIntent(h, log, o) == Recorded(log, IntentEvent(h, o)) && WellFormed(AfterIntent(h, log, o))
    ensures Justified(log, o.envelope.facts, o.now)
    ensures KeepsToAuthorization(log, o) && SaysOrder(h, IntentEvent(h, o), o)
  {
    SubmissionIsNew(log, IntentEvent(h, o));
    CurrentIsJustified(h.envelope, log, o.envelope, o.now);
  }

  // ------------------------------------------------- broker outcome recovery

  datatype Observation = Observation(
    status: string, symbol: Option<string>, side: Option<string>, timeframe: Option<string>, volume: Option<real>,
    orderId: string, dealId: Option<string>, retcode: string, reason: string)

  /** The fields recovery reads back from a submission event, whoever wrote it. */
  datatype SubmittedView = SubmittedView(
    authorizationId: Option<string>, reservationId: Option<string>, requestHash: Option<string>,
    symbol: Option<string>, timeframe: Option<string>, side: Option<string>, volume: Option<real>)

  function TextField(fields: map<Field, Scalar>, name: Field): Option<string> {
    if name in fields && fields[name].Text? then Some(fields[name].text) else None
  }

  function NumberField(fields: map<Field, Scalar>, name: Field): Option<real> {
    if name !in fields then None
    else match fields[name]
      case Text(_) => None
      case Whole(n) => Some(n as real)
      case Number(x) => Some(x)
  }

  function ViewOf(p: Payload): SubmittedView {
    match p
    case Submitted(s) => SubmittedView(Some(s.authorizationId), Some(s.reservationId), Some(s.requestHash),
                                       Some(s.symbol), Some(s.timeframe), Some(s.side), Some(s.volume))
    case TraceFields(f) => SubmittedView(None, None, None, None, None, TextField(f, Side), NumberField(f, Volume))
    case _ => SubmittedView(None, None, None, None, None, None, None)
  }

  datatype RecoveryError = RequiresSubmitted | SubmissionNotUnique | StatusInvalid | IdentityMismatch | VolumeInvalid
                         | VolumeMismatch | AcceptedRequiresDeal | RejectedHasDeal

  datatype RecoveryPlan = Impossible(error: RecoveryError) | Journal(event: Event)

  function RecoveryPlanFor(log: Log, tradeId: string, o: Observation, eventId: string, key: string,
                           timestamp: int): RecoveryPlan {
    var submissions := Select(log, SubmissionState(tradeId));
    if StateOf(log, tradeId) != Some(OrderSubmitted) then Impossible(RequiresSubmitted)
    else if |submissions| != 1 then Impossible(SubmissionNotUnique)
    else
      var v := ViewOf(submissions[0].payload);
      if o.status !in {"ACCEPTED", "REJECTED", "UNKNOWN", "PENDING", "PARTIAL"} then Impossible(StatusInvalid)
      else if o.symbol != v.symbol || o.side != v.side || (o.timeframe.Some? && o.timeframe != v.timeframe)
        then Impossible(IdentityMismatch)
      else if v.volume.None? || v.volume.value < 0.0 || (o.volume.Some? && o.volume.value < 0.0)
        then Impossible(VolumeInvalid)
      else if o.volume.Some? && !Close(v.volume.value, o.volume.value) then Impossible(VolumeMismatch)
      else
        var deal := if Named(o.dealId) then o.dealId else None;
        var facts := RecoveredFacts(v.authorizationId, v.reservationId, v.requestHash, v.symbol, v.timeframe, v.side,
                                    v.volume.value, o.orderId, deal, o.retcode, o.reason, None);
        if o.status == "ACCEPTED" then
          if o.orderId == "" || deal.None? then Impossible(AcceptedRequiresDeal)
          else Journal(Event(eventId, timestamp, tradeId, Some(Accepted), AcceptedRecovery, key, RecoveryReport(facts)))
        else if o.status == "REJECTED" then
          if deal.Some? then Impossible(RejectedHasDeal)
          else Journal(Event(eventId, timestamp, tradeId, Some(Rejected), RejectedRecovery, key, RecoveryReport(facts)))
        else
          Journal(Event(eventId, timestamp, tradeId, None, OutcomeObservationRecovery, key,
                        RecoveryReport(facts.(recoveryStatus := Some(o.status)))))
  }

  function AfterRecovery(log: Log, tradeId: string, o: Observation, eventId: string, key: string, timestamp: int): Log {
    var plan := RecoveryPlanFor(log, tradeId, o, eventId, key, timestamp);
    if plan.Impossible? then log else Extend(log, Append(log, plan.event))
  }
}
