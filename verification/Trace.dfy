/** Ingestion of runtime traces: a batch is rehearsed against the ledger, then recorded. */
module Trace {
  import opened Options
  import opened Ledger
  import opened Lawful

  datatype TraceRecord = TraceRecord(
    schema: string, source: string, tradeId: string, eventId: string, eventType: EventType, key: string,
    timestamp: int, state: Option<State>, payload: map<Field, Scalar>)

  const TRACE_SCHEMA := "forexai.runtime_trace.v1"
  const TRACE_SOURCE := "MQL5"
  const MAX_OFFSET_SECONDS: int := 86400

  // --------------------------------------------------------- normalization

  predicate Observational(s: State) {
    s in {OrderSubmitted, Accepted, Filled, Open, Managed, Closed}
  }

  predicate OutcomeType(t: EventType) {
    t in {OutcomeUnknown, PartialObserved}
  }

  predicate AuthorityType(t: EventType) {
    t in {AuthorizationIssued, AuthorizationRevoked, ReservationCreated, ReservationReleased, TradeAuthorized,
          Lifecycle(Reconciled), ReconciliationException}
  }

  function StateFields(s: State): set<Field> {
    match s
    case OrderSubmitted => {Side, RequestedVolume, RequestedPrice, RequestedSl, RequestedTp, OrderTicket}
    case Accepted => {Side, Retcode, OrderTicket, DealTicket}
    case Filled => {Side, OrderTicket, DealTicket, FillPrice, RequestedVolume, RequestedSl, RequestedTp}
    case Open => {Side, OrderTicket, DealTicket, PositionCount}
    case Managed => {Reason, PositionTicket, PositionId}
    case Closed => {DealTicket, PositionId, ExitPrice, Volume, Profit, Swap, Commission}
    case _ => {}
  }

  function OutcomeFields(t: EventType): set<Field> {
    if t == OutcomeUnknown then {Retcode, OrderTicket, DealTicket, RequestedVolume}
    else {Retcode, OrderTicket, DealTicket, RequestedVolume, FilledVolume}
  }

  function AllowedFields(): set<Field> {
    {BrokerTimestamp, BrokerUtcOffsetSeconds}
    + StateFields(OrderSubmitted) + StateFields(Accepted) + StateFields(Filled) + StateFields(Open)
    + StateFields(Managed) + StateFields(Closed) + OutcomeFields(OutcomeUnknown) + OutcomeFields(PartialObserved)
  }

  /** The UTC time must be the broker's local time less its offset. */
  predicate TimeConsistent(r: TraceRecord) {
    && BrokerTimestamp in r.payload && r.payload[BrokerTimestamp].Whole?
    && BrokerUtcOffsetSeconds in r.payload && r.payload[BrokerUtcOffsetSeconds].Whole?
    && var offset := r.payload[BrokerUtcOffsetSeconds].whole;
       -MAX_OFFSET_SECONDS <= offset <= MAX_OFFSET_SECONDS
       && r.payload[BrokerTimestamp].whole - offset == r.timestamp
  }

  /** The records a trace may contain: observations, never authority. */
  predicate Normal(r: TraceRecord) {
    && r.schema == TRACE_SCHEMA && r.source == TRACE_SOURCE
    && r.state.Some? && Observational(r.state.value)
    && !AuthorityType(r.eventType)
    && (if OutcomeType(r.eventType) then r.state == Some(OrderSubmitted) else r.eventType == Lifecycle(r.state.value))
    && r.payload.Keys <= AllowedFields()
    && (if OutcomeType(r.eventType) then OutcomeFields(r.eventType) else StateFields(r.state.value)) <= r.payload.Keys
    && TimeConsistent(r)
  }

  /** An outcome observation is recorded without moving the trade. */
  function LedgerState(r: TraceRecord): Option<State> {
    if OutcomeType(r.eventType) then None else r.state
  }

  function TraceEvent(r: TraceRecord): Event {
    Event(r.eventId, r.timestamp, r.tradeId, LedgerState(r), r.eventType, r.key,
          TraceFields(map[RuntimeTraceSchema := Text(r.schema), RuntimeSource := Text(r.source)] + r.payload))
  }

  // ------------------------------------------------ which records are taken, field by field

  /** A sighting of one of the six states at the broker, or an unclear outcome of a submission. */
  predicate Observes(r: TraceRecord) {
    || (r.state.Some? && r.eventType == Lifecycle(r.state.value) && Rank(r.state.value) >= Rank(OrderSubmitted)
        && r.state != Some(Rejected) && r.state != Some(Reconciled))
    || (r.state == Some(OrderSubmitted) && (r.eventType == OutcomeUnknown || r.eventType == PartialObserved))
  }

  lemma ObservesExactly(r: TraceRecord)
    ensures Observes(r) <==>
              && r.state.Some? && Observational(r.state.value) && !AuthorityType(r.eventType)
              && if OutcomeType(r.eventType) then r.state == Some(OrderSubmitted)
                 else r.eventType == Lifecycle(r.state.value)
  {
  }

  /** The fields that a sighting of its kind must carry. */
  predicate Complete(r: TraceRecord) {
    var p := r.payload;
    match r.eventType
    case OutcomeUnknown => Retcode in p && OrderTicket in p && DealTicket in p && RequestedVolume in p
    case PartialObserved =>
      Retcode in p && OrderTicket in p && DealTicket in p && RequestedVolume in p && FilledVolume in p
    case Lifecycle(s) =>
      (match s
       case OrderSubmitted =>
         Side in p && RequestedVolume in p && RequestedPrice in p && RequestedSl in p && RequestedTp in p
         && OrderTicket in p
       case Accepted => Side in p && Retcode in p && OrderTicket in p && DealTicket in p
       case Filled =>
         Side in p && OrderTicket in p && DealTicket in p && FillPrice in p && RequestedVolume in p && RequestedSl in p
         && RequestedTp in p
       case Open => Side in p && OrderTicket in p && DealTicket in p && PositionCount in p
       case Managed => Reason in p && PositionTicket in p && PositionId in p
       case Closed =>
         DealTicket in p && PositionId in p && ExitPrice in p && Volume in p && Profit in p && Swap in p
           && Commission in p
       case _ => true)
    case _ => true
  }

  lemma CompleteSighting(s: State, p: map<Field, Scalar>, r: TraceRecord)
    requires r.eventType == Lifecycle(s) && r.payload == p
    ensures StateFields(s) <= p.Keys <==> Complete(r)
  {
  }

  lemma CompleteOutcome(r: TraceRecord)
    requires r.eventType == OutcomeUnknown || r.eventType == PartialObserved
    ensures OutcomeFields(r.eventType) <= r.payload.Keys <==> Complete(r)
  {
  }

  /** A trace may carry every field there is, except the two the bridge adds and fields of other names. */
  lemma AllowedExactly(f: Field)
    ensures f in AllowedFields() <==> f != RuntimeTraceSchema && f != RuntimeSource && !f.OtherField?
  {
    match f
    case RuntimeTraceSchema => OwnFieldsAreApart();
    case RuntimeSource => OwnFieldsAreApart();
    case OtherField(name) => NoOtherField(name);
    case Side => assert f in StateFields(OrderSubmitted);
    case RequestedVolume => assert f in StateFields(OrderSubmitted);
    case RequestedPrice => assert f in StateFields(OrderSubmitted);
    case RequestedSl => assert f in StateFields(OrderSubmitted);
    case RequestedTp => assert f in StateFields(OrderSubmitted);
    case OrderTicket => assert f in StateFields(OrderSubmitted);
    case Retcode => assert f in StateFields(Accepted);
    case DealTicket => assert f in StateFields(Accepted);
    case FillPrice => assert f in StateFields(Filled);
    case PositionCount => assert f in StateFields(Open);
    case Reason => assert f in StateFields(Managed);
    case PositionTicket => assert f in StateFields(Managed);
    case PositionId => assert f in StateFields(Managed);
    case FilledVolume => assert f in OutcomeFields(PartialObserved);
    case BrokerTimestamp =>
    case BrokerUtcOffsetSeconds =>
    case _ => assert f in StateFields(Closed);
  }

  lemma NotOfState(s: State, name: string)
    ensures OtherField(name) !in StateFields(s)
  {
  }

  lemma NotOfOutcome(t: EventType, name: string)
    ensures OtherField(name) !in OutcomeFields(t)
  {
  }

  lemma NoOtherField(name: string)
    ensures OtherField(name) !in AllowedFields()
  {
    NotOfState(OrderSubmitted, name);
    NotOfState(Accepted, name);
    NotOfState(Filled, name);
    NotOfState(Open, name);
    NotOfState(Managed, name);
    NotOfState(Closed, name);
    NotOfOutcome(OutcomeUnknown, name);
    NotOfOutcome(PartialObserved, name);
  }

  ghost predicate OnlyOwnFields(r: TraceRecord) {
    forall f :: f in r.payload ==> f != RuntimeTraceSchema && f != RuntimeSource && !f.OtherField?
  }

  lemma OwnFieldsExactly(r: TraceRecord)
    ensures r.payload.Keys <= AllowedFields() <==> OnlyOwnFields(r)
  {
    if OnlyOwnFields(r) {
      forall f | f in r.payload.Keys ensures f in AllowedFields() { AllowedExactly(f); }
    }
    if r.payload.Keys <= AllowedFields() {
      forall f | f in r.payload ensures f != RuntimeTraceSchema && f != RuntimeSource && !f.OtherField? {
        assert f in r.payload.Keys;
        AllowedExactly(f);
      }
    }
  }

  /** The broker's second, less an offset of at most a day, is the stated one. */
  ghost predicate TimesAgreeIn(r: TraceRecord) {
    exists local: int, offset: int ::
      && BrokerTimestamp in r.payload && r.payload[BrokerTimestamp] == Whole(local)
      && BrokerUtcOffsetSeconds in r.payload && r.payload[BrokerUtcOffsetSeconds] == Whole(offset)
      && -86400 <= offset <= 86400 && r.timestamp == local - offset
  }

  lemma TimesAgreeExactly(r: TraceRecord)
    ensures TimeConsistent(r) <==> TimesAgreeIn(r)
  {
    if TimeConsistent(r) {
      var local, offset := r.payload[BrokerTimestamp].whole, r.payload[BrokerUtcOffsetSeconds].whole;
      assert r.payload[BrokerTimestamp] == Whole(local) && r.payload[BrokerUtcOffsetSeconds] == Whole(offset);
    }
  }

  /** A record is taken exactly when it is a trace of the known schema and source, observes something at the broker,
      carries all the fields of its kind and no foreign one, and its times agree. */
  lemma NormalExactly(r: TraceRecord)
    ensures Normal(r) <==>
              && r.schema == "forexai.runtime_trace.v1" && r.source == "MQL5"
              && Observes(r) && Complete(r) && OnlyOwnFields(r) && TimesAgreeIn(r)
  {
    ObservesExactly(r);
    OwnFieldsExactly(r);
    TimesAgreeExactly(r);
    if Observes(r) {
      if OutcomeType(r.eventType) { CompleteOutcome(r); } else { CompleteSighting(r.state.value, r.payload, r); }
    }
  }

  lemma NormalBasics(r: TraceRecord)
    requires Normal(r)
    ensures r.state.Some? && Observational(r.state.value) && !AuthorityType(r.eventType)
    ensures r.payload.Keys <= AllowedFields()
  {
  }

  lemma OwnNotOfState(s: State)
    ensures RuntimeTraceSchema !in StateFields(s) && RuntimeSource !in StateFields(s)
  {
  }

  lemma OwnNotOfOutcome(t: EventType)
    ensures RuntimeTraceSchema !in OutcomeFields(t) && RuntimeSource !in OutcomeFields(t)
  {
  }

  lemma OwnFieldsAreApart()
    ensures RuntimeTraceSchema !in AllowedFields() && RuntimeSource !in AllowedFields()
  {
    OwnNotOfState(OrderSubmitted);
    OwnNotOfState(Accepted);
    OwnNotOfState(Filled);
    OwnNotOfState(Open);
    OwnNotOfState(Managed);
    OwnNotOfState(Closed);
    OwnNotOfOutcome(OutcomeUnknown);
    OwnNotOfOutcome(PartialObserved);
  }

  lemma FieldIsKept(r: TraceRecord, f: Field)
    requires f in r.payload && f != RuntimeTraceSchema && f != RuntimeSource
    ensures var e := TraceEvent(r);
            e.payload.TraceFields? && f in e.payload.fields && e.payload.fields[f] == r.payload[f]
  {
  }

  /** A record keeps every field it came with, and its names, trade, type and time. */
  lemma TraceIsKept(r: TraceRecord, f: Field)
    requires Normal(r) && f in r.payload
    ensures var e := TraceEvent(r);
            && e.payload.TraceFields? && f in e.payload.fields && e.payload.fields[f] == r.payload[f]
            && e.eventId == r.eventId && e.key == r.key && e.tradeId == r.tradeId && e.timestamp == r.timestamp
            && e.eventType == r.eventType
  {
    NormalBasics(r);
    OwnFieldsAreApart();
    assert f in r.payload.Keys;
    FieldIsKept(r, f);
  }

  /** A record never carries authority: neither an issue, a revocation, a reservation nor a release. */
  lemma TraceCarriesNoAuthority(r: TraceRecord, t: string, a: string, id: string)
    requires Normal(r)
    ensures var e := TraceEvent(r);
            && !Matches(IssuedFor(t, a), e) && !Matches(RevokedFor(t, a), e)
            && !Matches(ReservedAs(t, id), e) && !Matches(ReleasedFor(t, a, id), e)
            && e.state !in {Some(Proposed), Some(Validated), Some(RiskReserved), Some(Authorized), Some(Rejected),
                            Some(Reconciled)}
  {
    NormalBasics(r);
    ObservationGrantsNothing(r, t, a, id);
  }

  lemma ObservationGrantsNothing(r: TraceRecord, t: string, a: string, id: string)
    requires r.state.Some? && Observational(r.state.value) && !AuthorityType(r.eventType)
    ensures var e := TraceEvent(r);
            && !Matches(IssuedFor(t, a), e) && !Matches(RevokedFor(t, a), e)
            && !Matches(ReservedAs(t, id), e) && !Matches(ReleasedFor(t, a, id), e)
            && e.state !in {Some(Proposed), Some(Validated), Some(RiskReserved), Some(Authorized), Some(Rejected),
                            Some(Reconciled)}
  {
  }

  lemma {:induction false} CommitGrantsNothing(log: Log, records: seq<TraceRecord>, t: string, a: string, id: string)
    requires forall r :: r in records ==> Normal(r)
    ensures var after := Commit(log, records).log;
            && Select(after, IssuedFor(t, a)) == Select(log, IssuedFor(t, a))
            && Select(after, RevokedFor(t, a)) == Select(log, RevokedFor(t, a))
            && Select(after, ReservedAs(t, id)) == Select(log, ReservedAs(t, id))
            && Select(after, ReleasedFor(t, a, id)) == Select(log, ReleasedFor(t, a, id))
  {
    if |records| > 0 {
      var init, last := records[..|records| - 1], records[|records| - 1];
      CommitGrantsNothing(log, init, t, a, id);
      TraceCarriesNoAuthority(last, t, a, id);
      AppendsItself(Commit(log, init).log, TraceEvent(last));
    }
  }

  lemma AppendsItself(log: Log, e: Event)
    ensures Append(log, e).Appended? ==> Append(log, e).event == e
  {
  }

  /** Whatever batch is ingested: no authorization is issued or revoked and no capital reserved or released by it. */
  lemma IngestGrantsNothing(log: Log, records: seq<TraceRecord>, t: string, a: string, id: string)
    ensures var after := Ingest(log, records).log;
            && Select(after, IssuedFor(t, a)) == Select(log, IssuedFor(t, a))
            && Select(after, RevokedFor(t, a)) == Select(log, RevokedFor(t, a))
            && Select(after, ReservedAs(t, id)) == Select(log, ReservedAs(t, id))
            && Select(after, ReleasedFor(t, a, id)) == Select(log, ReleasedFor(t, a, id))
  {
    if forall r :: r in records ==> Normal(r) { CommitGrantsNothing(log, records, t, a, id); }
  }

  // -------------------------------------------------------------- rehearsal

  /** A record whose key is known repeats what is known.  The rehearsal compares the state the record
      carries with the state that was recorded. */
  predicate RepeatsKnown(known: Event, r: TraceRecord) {
    known.tradeId == r.tradeId && known.state == r.state && known.eventType == r.eventType
    && known.payload == TraceEvent(r).payload
  }

  predicate TransitionRehearsed(current: Option<State>, r: TraceRecord) {
    current.Some? && if OutcomeType(r.eventType) then current == Some(OrderSubmitted)
                     else r.state.Some? && Allowed(current.value, r.state.value)
  }

  /** One record against the ledger as it would be after the records before it. */
  function RehearseOne(virtual: Log, r: TraceRecord): Option<Log> {
    var known := Select(virtual, ByKey(r.key));
    if known != [] then
      if RepeatsKnown(known[0], r) then Some(virtual) else None
    else if Select(virtual, ById(r.eventId)) != [] then None
    else if TransitionRehearsed(StateOf(virtual, r.tradeId), r) then Some(Recorded(virtual, TraceEvent(r)))
    else None
  }

  /** The ledger the batch would leave behind, or `None` if the batch is refused. */
  function Rehearse(log: Log, records: seq<TraceRecord>): Option<Log> {
    if |records| == 0 then Some(log)
    else
      var before := Rehearse(log, records[..|records| - 1]);
      if before.None? then None else RehearseOne(before.value, records[|records| - 1])
  }

  // ----------------------------------------------------------------- commit

  datatype Committed = Committed(log: Log, complete: bool)

  /** Record the events one by one, stopping at the first refusal. */
  function Commit(log: Log, records: seq<TraceRecord>): Committed {
    if |records| == 0 then Committed(log, true)
    else
      var before := Commit(log, records[..|records| - 1]);
      if !before.complete then before
      else
        var r := Append(before.log, TraceEvent(records[|records| - 1]));
        Committed(Extend(before.log, r), !r.Refused?)
  }

  function Ingest(log: Log, records: seq<TraceRecord>): Committed {
    if (exists r :: r in records && !Normal(r)) || Rehearse(log, records).None? || records == []
      then Committed(log, false)
    else Commit(log, records)
  }

  // ------------------------------------------------------------ the theorems

  predicate IdBelongsTo(log: Log, id: string, key: string) {
    log.Genesis? || (IdBelongsTo(log.before, id, key) && (log.last.eventId == id ==> log.last.key == key))
  }

  lemma {:induction false} IdBelongsExactly(log: Log, id: string, key: string)
    ensures IdBelongsTo(log, id, key) <==> forall x :: Has(log, x) && x.eventId == id ==> x.key == key
  {
    if log.Recorded? {
      assert Has(log, log.last);
      IdBelongsExactly(log.before, id, key);
      assert forall x :: Has(log.before, x) ==> Has(log, x);
    }
  }

  /** A record the commit can take: its ids are nonempty and its event id is not that of an event with another key. */
  predicate CleanAt(virtual: Log, r: TraceRecord) {
    r.eventId != "" && r.key != "" && IdBelongsTo(virtual, r.eventId, r.key)
  }

  /** The check a caller could run before the commit. */
  predicate Clean(log: Log, records: seq<TraceRecord>) {
    |records| == 0 ||
    (var before := records[..|records| - 1];
     Clean(log, before) && Rehearse(log, before).Some? && CleanAt(Rehearse(log, before).value, records[|records| - 1]))
  }

  lemma TraceEventGuarded(cap: real, log: Log, r: TraceRecord)
    requires Normal(r) && TransitionRehearsed(StateOf(log, r.tradeId), r)
    requires Identified(TraceEvent(r)) && Follows(log, TraceEvent(r))
    ensures Guard(cap, log, TraceEvent(r))
  {
  }

  lemma {:induction false} OutcomesCarryNoState(cap: real, log: Log, x: Event)
    requires IsLawful(cap, log) && Has(log, x) && OutcomeType(x.eventType)
    ensures x.state.None?
  {
    if x != log.last { OutcomesCarryNoState(cap, log.before, x); }
  }

  /** One record: the ledger takes it, and becomes the rehearsed ledger, exactly when the record is clean. */
  lemma CommitOne(cap: real, log: Log, r: TraceRecord)
    requires IsLawful(cap, log) && Normal(r) && RehearseOne(log, r).Some?
    ensures !Append(log, TraceEvent(r)).Refused? <==> CleanAt(log, r)
    ensures CleanAt(log, r) ==> Extend(log, Append(log, TraceEvent(r))) == RehearseOne(log, r).value
    ensures CleanAt(log, r) ==> IsLawful(cap, RehearseOne(log, r).value)
  {
    LawfulIsWellFormed(cap, log);
    SelectHead(log, ByKey(r.key));
    if Select(log, ByKey(r.key)) != [] {
      CommitKnown(cap, log, Select(log, ByKey(r.key))[0], r);
    } else {
      CommitNew(cap, log, r);
    }
  }

  lemma CommitKnown(cap: real, log: Log, known: Event, r: TraceRecord)
    requires IsLawful(cap, log) && WellFormed(log) && Normal(r) && Has(log, known) && known.key == r.key
             && RepeatsKnown(known, r)
    ensures Extend(log, Append(log, TraceEvent(r))) == log
    ensures !Append(log, TraceEvent(r)).Refused? <==> CleanAt(log, r)
  {
    var e := TraceEvent(r);
    LawfulIsWellFormed(cap, log);
    KnownIsIdentified(log, known);
    if OutcomeType(r.eventType) { OutcomesCarryNoState(cap, log, known); }
    RetryExactly(log, known, e);
    IdBelongsExactly(log, r.eventId, r.key);
    forall x | Has(log, x) ensures x.key == r.key ==> x == known {
      SameIdIsSameEvent(log, x, known);
    }
    KnownIsNotAppended(log, known, e);
  }

  lemma KnownIsNotAppended(log: Log, known: Event, e: Event)
    requires Sound(log) && Has(log, known) && known.key == e.key
    ensures !Append(log, e).Appended?
    ensures Append(log, e).Existing? ==> Append(log, e) == Existing(known)
  {
    Selected(log, ByKey(e.key), known);
    SelectHead(log, ByKey(e.key));
    SameIdIsSameEvent(log, Select(log, ByKey(e.key))[0], known);
  }

  lemma CommitNew(cap: real, log: Log, r: TraceRecord)
    requires IsLawful(cap, log) && WellFormed(log) && Normal(r) && Select(log, ByKey(r.key)) == []
    requires RehearseOne(log, r).Some?
    ensures !Append(log, TraceEvent(r)).Refused? <==> CleanAt(log, r)
    ensures CleanAt(log, r) ==>
              Append(log, TraceEvent(r)) == Appended(TraceEvent(r)) && IsLawful(cap, Recorded(log, TraceEvent(r)))
  {
    var e := TraceEvent(r);
    AppendExactly(log, e);
    FreshSelectsNothing(log, e);
    FreshExactly(log, e.eventId, e.key);
    IdBelongsExactly(log, r.eventId, r.key);
    StateIsNamed(log, r.tradeId);
    if CleanAt(log, r) { TraceEventGuarded(cap, log, r); }
  }

  /** Ingestion of a rehearsed batch completes exactly when the batch is clean, and then leaves the rehearsed ledger. */
  lemma {:induction false} CommitCompletesExactly(cap: real, log: Log, records: seq<TraceRecord>)
    requires IsLawful(cap, log) && Rehearse(log, records).Some?
    requires forall r :: r in records ==> Normal(r)
    ensures Commit(log, records).complete <==> Clean(log, records)
    ensures Clean(log, records) ==> Commit(log, records).log == Rehearse(log, records).value
    ensures IsLawful(cap, Commit(log, records).log)
  {
    if |records| > 0 {
      var before, r := records[..|records| - 1], records[|records| - 1];
      assert forall x :: x in before ==> x in records;
      CommitCompletesExactly(cap, log, before);
      if Clean(log, before) {
        assert r in records;
        CommitOne(cap, Commit(log, before).log, r);
      }
    }
  }

  /** A rehearsed batch with a stale record behind a new one is left half written: the rehearsal skips the
      event-id check for a key it knows, the ledger does not. */
  lemma StaleIdLeavesHalfABatch(cap: real, log: Log, newcomer: TraceRecord, stale: TraceRecord, known: Event,
                                other: Event)
    requires IsLawful(cap, log) && Normal(newcomer) && Normal(stale)
    requires RehearseOne(log, newcomer) == Some(Recorded(log, TraceEvent(newcomer))) && CleanAt(log, newcomer)
    requires Has(log, known) && known.key == stale.key && RepeatsKnown(known, stale)
    requires Has(log, other) && other.key != stale.key && other.eventId == stale.eventId
    ensures Rehearse(log, [newcomer, stale]).Some?
    ensures Ingest(log, [newcomer, stale]) == Committed(Recorded(log, TraceEvent(newcomer)), false)
  {
    var first := Recorded(log, TraceEvent(newcomer));
    CommitOne(cap, log, newcomer);
    StaleIdIsRefused(cap, first, stale, known, other);
    HalfCommitted(log, first, newcomer, stale);
  }

  lemma HalfCommitted(log: Log, first: Log, a: TraceRecord, b: TraceRecord)
    requires RehearseOne(log, a) == Some(first) && RehearseOne(first, b).Some? && Normal(a) && Normal(b)
    requires !Append(log, TraceEvent(a)).Refused? && Extend(log, Append(log, TraceEvent(a))) == first
    requires Append(first, TraceEvent(b)).Refused?
    ensures Rehearse(log, [a, b]).Some? && Ingest(log, [a, b]) == Committed(first, false)
  {
    TwoRecords(log, a, b);
  }

  lemma StaleIdIsRefused(cap: real, log: Log, stale: TraceRecord, known: Event, other: Event)
    requires IsLawful(cap, log) && Normal(stale)
    requires Has(log, known) && known.key == stale.key && RepeatsKnown(known, stale)
    requires Has(log, other) && other.key != stale.key && other.eventId == stale.eventId
    ensures RehearseOne(log, stale) == Some(log) && Append(log, TraceEvent(stale)).Refused?
  {
    LawfulIsWellFormed(cap, log);
    KeyHead(cap, log, known);
    CommitKnown(cap, log, known, stale);
    IdBelongsExactly(log, stale.eventId, stale.key);
  }

  lemma TwoRecords(log: Log, a: TraceRecord, b: TraceRecord)
    requires RehearseOne(log, a).Some? && !Append(log, TraceEvent(a)).Refused?
    ensures Rehearse(log, [a, b]) == RehearseOne(RehearseOne(log, a).value, b)
    ensures var l := Extend(log, Append(log, TraceEvent(a)));
            Commit(log, [a, b]) == Committed(Extend(l, Append(l, TraceEvent(b))), !Append(l, TraceEvent(b)).Refused?)
  {
    assert [a, b][..1] == [a] && [a][..0] == [];
    assert Rehearse(log, []) == Some(log) && Commit(log, []) == Committed(log, true);
  }

  lemma KeyHead(cap: real, log: Log, known: Event)
    requires IsLawful(cap, log) && Has(log, known)
    ensures Select(log, ByKey(known.key)) != [] && Select(log, ByKey(known.key))[0] == known
  {
    LawfulIsWellFormed(cap, log);
    SelectHead(log, ByKey(known.key));
    Selected(log, ByKey(known.key), known);
    SameIdIsSameEvent(log, known, Select(log, ByKey(known.key))[0]);
  }

  // ------------------------------------------------------------- ingesting twice

  ghost predicate OnRecord(log: Log, r: TraceRecord) {
    exists x :: Has(log, x) && x.key == r.key && SameSemantics(x, TraceEvent(r))
  }

  lemma {:induction false} CommittedIsOnRecord(log: Log, records: seq<TraceRecord>)
    requires Commit(log, records).complete
    ensures forall r :: r in records ==> OnRecord(Commit(log, records).log, r)
  {
    if |records| > 0 {
      var before, last := records[..|records| - 1], records[|records| - 1];
      CommittedIsOnRecord(log, before);
      var l, l' := Commit(log, before).log, Commit(log, records).log;
      forall r | r in before ensures OnRecord(l', r) {
        var x :| Has(l, x) && x.key == r.key && SameSemantics(x, TraceEvent(r));
        CommittedHas(l, last, x);
      }
      TakenIsOnRecord(l, last);
      assert records == before + [last];
    }
  }

  lemma CommittedHas(log: Log, r: TraceRecord, x: Event)
    requires Has(log, x)
    ensures Has(Extend(log, Append(log, TraceEvent(r))), x)
  {
  }

  lemma TakenIsOnRecord(log: Log, r: TraceRecord)
    requires !Append(log, TraceEvent(r)).Refused?
    ensures OnRecord(Extend(log, Append(log, TraceEvent(r))), r)
  {
    var answer := Append(log, TraceEvent(r));
    if answer.Existing? { ExistingIsOnRecord(log, TraceEvent(r)); }
    assert Has(Extend(log, answer), answer.event);
  }

  lemma RehearseOneRecorded(cap: real, log: Log, r: TraceRecord)
    requires IsLawful(cap, log) && Normal(r) && OnRecord(log, r)
    ensures RehearseOne(log, r) == if OutcomeType(r.eventType) then None else Some(log)
  {
    var x :| Has(log, x) && x.key == r.key && SameSemantics(x, TraceEvent(r));
    KeyHead(cap, log, x);
  }

  /** Rehearsing records that are all on the ledger: accepted exactly when none is an outcome observation,
      because an observation is recorded without the state its trace record carries. */
  lemma {:induction false} RehearseRecorded(cap: real, log: Log, records: seq<TraceRecord>)
    requires IsLawful(cap, log)
    requires forall r :: r in records ==> Normal(r) && OnRecord(log, r)
    ensures (forall r :: r in records ==> !OutcomeType(r.eventType)) ==> Rehearse(log, records) == Some(log)
    ensures (exists r :: r in records && OutcomeType(r.eventType)) ==> Rehearse(log, records) == None
  {
    if |records| > 0 {
      var before, last := records[..|records| - 1], records[|records| - 1];
      assert records == before + [last];
      RehearseRecorded(cap, log, before);
      assert last in records;
      RehearseOneRecorded(cap, log, last);
    }
  }

  lemma {:induction false} RecordedCommitsNothing(cap: real, log: Log, records: seq<TraceRecord>)
    requires IsLawful(cap, log)
    requires forall r :: r in records ==> OnRecord(log, r)
    ensures Commit(log, records).log == log
  {
    if |records| > 0 {
      var before, last := records[..|records| - 1], records[|records| - 1];
      assert records == before + [last] && last in records;
      RecordedCommitsNothing(cap, log, before);
      var x :| Has(log, x) && x.key == last.key && SameSemantics(x, TraceEvent(last));
      LawfulIsWellFormed(cap, log);
      RetryExactly(log, x, TraceEvent(last));
    }
  }
}
