/** Runs from the empty ledger that reach the broker, and runs that reach the outcomes nobody wants. */
module Reachable {
  import opened Options
  import opened Ledger
  import opened Firewall
  import opened Lawful
  import opened Envelopes
  import opened Execution
  import opened Recovery
  import opened Trace
  import opened Protocol
  import opened Effects
  import opened Grants
  import opened Releases
  import opened Resume
  import opened Liveness
  import opened OutOfOrder

  const TRADE := "a"
  const UNTIL := 100

  // ---------------------------------------------------------- to the authorized trade

  /** The terms of the authorization that `GrantCap` records. */
  function Granted(c: Config): Authorization {
    Authorization(TRADE, TRADE, c.cap, 0, UNTIL, WindowProof(TRADE, UNTIL), Active)
  }

  ghost predicate Issued(c: Config, s: System) {
    && Calm(c, s) && s.calls == [] && StateOf(s.log, TRADE) == Some(RiskReserved)
    && GetAuthorization(s.log, TRADE, TRADE) == Some(Granted(c))
  }

  lemma IssueStep(c: Config, s: System) returns (op: Op)
    requires Calm(c, s) && s.calls == [] && c.cap > 0.0 && StateOf(s.log, TRADE) == Some(RiskReserved)
    requires Select(s.log, IssuedFor(TRADE, TRADE)) == [] && RiskAt(s.log, 0) == 0.0
    ensures Issued(c, Exec(c, s, op))
  {
    var name, proof := Unused(s.log), WindowProof(TRADE, UNTIL);
    op := IssueOp(TRADE, TRADE, c.cap, 0, UNTIL, proof, name, name);
    var e := Event(name, 0, TRADE, None, AuthorizationIssued, name, Issue(TRADE, c.cap, 0, UNTIL, proof));
    UnusedIsFresh(s.log);
    GrantIsWritten(c.cap, s.log, TRADE, 0, UNTIL, proof, e);
    ExecWithoutCall(c, s, op);
    ExecSafe(c, s, op);
    IssuedOnceRevokedOnce(c.cap, s.log, TRADE, TRADE);
  }

  ghost predicate AuthorizedTrade(c: Config, s: System) {
    && Calm(c, s) && s.calls == [] && StateOf(s.log, TRADE) == Some(Authorized)
    && GetAuthorization(s.log, TRADE, TRADE) == Some(Granted(c))
    && Select(s.log, ReservedAs(TRADE, TRADE)) == [] && ActiveReserved(s.log, TRADE, TRADE) == 0.0
  }

  lemma AuthorizeIsWritten(c: Config, log: Log, e: Event)
    requires Unresolved(log) == {} && StateOf(log, TRADE) == Some(RiskReserved)
    requires GetAuthorization(log, TRADE, TRADE) == Some(Granted(c))
    requires FreshId(log, e.eventId) && FreshKey(log, e.key) && e.eventId != "" && e.key != ""
    requires e == Event(e.eventId, 1, TRADE, Some(Authorized), TradeAuthorized, e.key,
                        TradeAuthorization(TRADE, UNTIL, c.cap))
    ensures Firewall.AuthorizeTrade(log, TRADE, TRADE, 1, e.eventId, e.key).log == Recorded(log, e)
  {
    FreshKeyIsNotSeen(log, TRADE, e.key);
    NewEventIsAppended(log, e);
  }

  lemma AuthorizedFacts(c: Config, log: Log, e: Event)
    requires IsLawful(c.cap, log) && StateOf(log, TRADE) == Some(RiskReserved)
    requires GetAuthorization(log, TRADE, TRADE) == Some(Granted(c))
    requires e == Event(e.eventId, 1, TRADE, Some(Authorized), TradeAuthorized, e.key,
                        TradeAuthorization(TRADE, UNTIL, c.cap))
    ensures var after := Recorded(log, e);
            && StateOf(after, TRADE) == Some(Authorized) && Unresolved(after) == Unresolved(log)
            && GetAuthorization(after, TRADE, TRADE) == Some(Granted(c))
            && Select(after, ReservedAs(TRADE, TRADE)) == [] && ActiveReserved(after, TRADE, TRADE) == 0.0
  {
    NothingReserved(c.cap, log, TRADE, TRADE, ReleasedIds(log, TRADE, TRADE));
  }

  lemma AuthorizeStep(c: Config, s: System) returns (op: Op)
    requires Issued(c, s)
    ensures AuthorizedTrade(c, Exec(c, s, op))
  {
    var name := Unused(s.log);
    op := AuthorizeOp(TRADE, TRADE, 1, name, name);
    var e := Event(name, 1, TRADE, Some(Authorized), TradeAuthorized, name, TradeAuthorization(TRADE, UNTIL, c.cap));
    UnusedIsFresh(s.log);
    AuthorizeIsWritten(c, s.log, e);
    AuthorizedFacts(c, s.log, e);
    ExecWithoutCall(c, s, op);
    ExecSafe(c, s, op);
  }

  ghost predicate Covered(c: Config, s: System) {
    && Calm(c, s) && s.calls == [] && StateOf(s.log, TRADE) == Some(Authorized)
    && GetAuthorization(s.log, TRADE, TRADE) == Some(Granted(c))
    && ActiveReservation(s.log, TRADE, TRADE, TRADE) == Some((c.cap, UNTIL))
    && ActiveReserved(s.log, TRADE, TRADE) == c.cap
  }

  lemma ReserveIsWritten(c: Config, log: Log, e: Event)
    requires Unresolved(log) == {} && StateOf(log, TRADE) == Some(Authorized) && c.cap > 0.0
    requires GetAuthorization(log, TRADE, TRADE) == Some(Granted(c))
    requires Select(log, ReservedAs(TRADE, TRADE)) == [] && ActiveReserved(log, TRADE, TRADE) == 0.0
    requires FreshId(log, e.eventId) && FreshKey(log, e.key) && e.eventId != "" && e.key != ""
    requires e == Event(e.eventId, 1, TRADE, None, ReservationCreated, e.key, Reservation(TRADE, TRADE, c.cap, UNTIL))
    ensures Firewall.Reserve(log, TRADE, TRADE, c.cap, TRADE, 1, e.eventId, e.key).log == Recorded(log, e)
  {
    FreshKeyIsNotSeen(log, TRADE, e.key);
    NewEventIsAppended(log, e);
  }

  lemma ReserveStep(c: Config, s: System) returns (op: Op)
    requires AuthorizedTrade(c, s) && c.cap > 0.0
    ensures Covered(c, Exec(c, s, op))
  {
    var name := Unused(s.log);
    op := ReserveOp(TRADE, TRADE, c.cap, TRADE, 1, name, name);
    var e := Event(name, 1, TRADE, None, ReservationCreated, name, Reservation(TRADE, TRADE, c.cap, UNTIL));
    UnusedIsFresh(s.log);
    ReserveIsWritten(c, s.log, e);
    ExecWithoutCall(c, s, op);
    ExecSafe(c, s, op);
    NewReservationIsActive(c.cap, s.log, e, TRADE, TRADE);
  }

  lemma ReachAuthorized(c: Config) returns (ops: seq<Op>)
    requires c.cap > 0.0
    ensures AuthorizedTrade(c, Run(c, INITIAL, ops))
  {
    var ready := Admit(c, INITIAL, TRADE, "");
    var s := Run(c, INITIAL, ready);
    assert RiskAt(INITIAL.log, 0) == 0.0 && Select(INITIAL.log, IssuedFor(TRADE, TRADE)) == [];
    var issue := IssueStep(c, s);
    var authorize := AuthorizeStep(c, Exec(c, s, issue));
    RunSnoc(c, INITIAL, ready, issue);
    RunSnoc(c, INITIAL, ready + [issue], authorize);
    ops := ready + [issue] + [authorize];
  }

  lemma ReachCovered(c: Config) returns (ops: seq<Op>)
    requires c.cap > 0.0
    ensures Covered(c, Run(c, INITIAL, ops))
  {
    var authorized := ReachAuthorized(c);
    var reserve := ReserveStep(c, Run(c, INITIAL, authorized));
    RunSnoc(c, INITIAL, authorized, reserve);
    ops := authorized + [reserve];
  }

  // ------------------------------------------------------------- to the broker

  function BuyOrder(c: Config, log: Log, envelope: Envelope): Order {
    Order(envelope, true, OrderRequest(TRADE, "EURUSD", "M5", "BUY", 1.0, c.cap, 1.0, 1.0, EXECUTION_CONTRACT), 1,
          Unused(log), Unused(log))
  }

  lemma EnvelopeOf(c: Config, s: System) returns (envelope: Envelope)
    requires Covered(c, s) && 0.0 < c.cap <= GLOBAL_CAP
    ensures BuildEnvelope(c.hashes.envelope, s.log, TRADE, TRADE, TRADE, c.cap, 1) == Some(envelope)
    ensures Current(c.hashes.envelope, s.log, envelope, 1)
    ensures envelope.facts.tradeId == TRADE && envelope.facts.reservedRisk == c.cap
            && envelope.facts.proof == WindowProof(TRADE, UNTIL)
  {
    envelope := BuildEnvelope(c.hashes.envelope, s.log, TRADE, TRADE, TRADE, c.cap, 1).value;
    BuiltTerms(c.hashes.envelope, c.cap, s.log, envelope, TRADE, TRADE, TRADE, c.cap, 1);
    TermsVerify(c.hashes.envelope, c.cap, s.log, envelope, 1);
  }

  lemma OrderIsSent(c: Config, s: System, o: Order)
    requires Covered(c, s) && c.cap > 0.0 && o == BuyOrder(c, s.log, o.envelope)
    requires Current(c.hashes.envelope, s.log, o.envelope, 1) && o.envelope.facts.tradeId == TRADE
    requires o.envelope.facts.reservedRisk == c.cap && o.envelope.facts.proof == WindowProof(TRADE, UNTIL)
    ensures CallsBroker(c.hashes, s.log, o)
  {
    UnusedIsFresh(s.log);
    NewEventIsAppended(s.log, IntentEvent(c.hashes, o));
  }

  lemma ReachCall(c: Config) returns (ops: seq<Op>, o: Order)
    requires 0.0 < c.cap <= GLOBAL_CAP
    ensures var s := Run(c, INITIAL, ops); Safe(c, s) && s.calls == [] && CallsBroker(c.hashes, s.log, o)
    ensures o.request.tradeId == TRADE
  {
    ops := ReachCovered(c);
    var s := Run(c, INITIAL, ops);
    var envelope := EnvelopeOf(c, s);
    o := BuyOrder(c, s.log, envelope);
    OrderIsSent(c, s, o);
  }

  /** The broker is reached: for every cap and any broker a run ends in exactly one call. */
  lemma BrokerIsReached(c: Config, b: BrokerBehaviour) returns (ops: seq<Op>)
    requires 0.0 < c.cap <= GLOBAL_CAP
    ensures |Run(c, INITIAL, ops).calls| == 1
  {
    var before, o := ReachCall(c);
    RunSnoc(c, INITIAL, before, SubmitOp(o, b, NoCrash));
    ops := before + [SubmitOp(o, b, NoCrash)];
  }

  /** An order can be at the broker with nothing blocked: a malformed answer, or one without a status, leaves the
      trade submitted and new risk allowed. */
  lemma UnusableAnswerBlocksNothing(c: Config, b: BrokerBehaviour) returns (ops: seq<Op>)
    requires 0.0 < c.cap <= GLOBAL_CAP && (b.Malformed? || (b.Answers? && b.response.status == ""))
    ensures var s := Run(c, INITIAL, ops);
            |s.calls| == 1 && StateOf(s.log, TRADE) == Some(OrderSubmitted) && !RiskBlocked(s.log)
  {
    var before, o := ReachCall(c);
    var s := Run(c, INITIAL, before);
    var op := SubmitOp(o, b, NoCrash);
    RunSnoc(c, INITIAL, before, op);
    ops := before + [op];
    SubmitBlocksExactly(c.cap, c.hashes, s.log, o, b);
    SubmitOutcomesExactly(c.cap, c.hashes, s.log, o, b);
    SubmitLog(c, s.log, o, b);
  }

  /** A crash between the call and the journal leaves the same: one call, the trade submitted, nothing blocked. */
  lemma CrashAfterCallBlocksNothing(c: Config, b: BrokerBehaviour) returns (ops: seq<Op>)
    requires 0.0 < c.cap <= GLOBAL_CAP
    ensures var s := Run(c, INITIAL, ops);
            |s.calls| == 1 && StateOf(s.log, TRADE) == Some(OrderSubmitted) && !RiskBlocked(s.log)
  {
    var before, o := ReachCall(c);
    var op := SubmitOp(o, b, CrashBeforeJournal);
    RunSnoc(c, INITIAL, before, op);
    ops := before + [op];
    CrashBlocksNothing(c, Run(c, INITIAL, before).log, o, b, CrashBeforeJournal);
  }

  lemma SubmitLog(c: Config, log: Log, o: Order, b: BrokerBehaviour)
    ensures LogAfter(c, log, SubmitOp(o, b, NoCrash)) == AfterSubmit(c.hashes, log, o, b)
  {
  }

  // ----------------------------------------------- a submission known only from a trace

  ghost predicate Traced(c: Config, s: System, first: TraceRecord) {
    && Safe(c, s) && Normal(first) && first.tradeId == TRADE && first.state == Some(OrderSubmitted)
    && first.eventType == Lifecycle(OrderSubmitted)
    && StateOf(s.log, TRADE) == Some(OrderSubmitted)
    && Select(s.log, SubmissionState(TRADE)) == [TraceEvent(first)]
  }

  /** A complete sighting of the next state is ingested. */
  lemma SightingStep(c: Config, s: System, to: State, r: TraceRecord)
    requires Safe(c, s) && Observational(to) && r == Sighting(TRADE, to, Unused(s.log))
    requires StateOf(s.log, TRADE).Some? && Allowed(StateOf(s.log, TRADE).value, to)
    ensures Exec(c, s, IngestOp([r], 1)) == System(Recorded(s.log, TraceEvent(r)), s.calls)
    ensures Safe(c, Exec(c, s, IngestOp([r], 1)))
  {
    OneSighting(s.log, TRADE, to);
    ExecWithoutCall(c, s, IngestOp([r], 1));
    IngestLog(c, s.log, [r], 1);
    ExecSafe(c, s, IngestOp([r], 1));
  }

  lemma SightingIsSubmission(log: Log, r: TraceRecord)
    requires r == Sighting(TRADE, OrderSubmitted, r.key) && Select(log, SubmissionState(TRADE)) == []
    ensures var after := Recorded(log, TraceEvent(r));
            StateOf(after, TRADE) == Some(OrderSubmitted) && Select(after, SubmissionState(TRADE)) == [TraceEvent(r)]
  {
  }

  lemma TraceSubmitStep(c: Config, s: System) returns (r: TraceRecord)
    requires AuthorizedTrade(c, s)
    ensures Traced(c, Exec(c, s, IngestOp([r], 1)), r)
  {
    r := Sighting(TRADE, OrderSubmitted, Unused(s.log));
    NotSubmittedYet(c.cap, s.log, TRADE);
    SightingIsSubmission(s.log, r);
    SightingIsNormal(TRADE, OrderSubmitted, Unused(s.log));
    SightingStep(c, s, OrderSubmitted, r);
  }

  lemma ReachTraced(c: Config) returns (ops: seq<Op>, first: TraceRecord)
    requires c.cap > 0.0
    ensures Traced(c, Run(c, INITIAL, ops), first)
  {
    var authorized := ReachAuthorized(c);
    first := TraceSubmitStep(c, Run(c, INITIAL, authorized));
    RunSnoc(c, INITIAL, authorized, IngestOp([first], 1));
    ops := authorized + [IngestOp([first], 1)];
  }

  /** A trade can be submitted by a trace alone, and then no final observation that names a symbol settles it. */
  lemma TracedSubmissionNeverSettles(c: Config) returns (ops: seq<Op>)
    requires c.cap > 0.0
    ensures var log := Run(c, INITIAL, ops).log;
            && StateOf(log, TRADE) == Some(OrderSubmitted)
            && forall o: Observation, id, key, ts | Final(o) && o.symbol.Some? ::
                 StateOf(AfterRecovery(log, TRADE, o, id, key, ts), TRADE) == Some(OrderSubmitted)
  {
    var run, first := ReachTraced(c);
    ops := run;
    var log := Run(c, INITIAL, ops).log;
    LawfulIsWellFormed(c.cap, log);
    forall o: Observation, id, key, ts | Final(o) && o.symbol.Some?
      ensures StateOf(AfterRecovery(log, TRADE, o, id, key, ts), TRADE) == Some(OrderSubmitted)
    {
      RecoverySettlesExactly(log, TRADE, o, id, key, ts);
    }
  }

  // ----------------------------------------------------------- half a batch

  /** Two records were ingested: the submission, then the acceptance. */
  ghost predicate TwoOnRecord(c: Config, s: System, first: TraceRecord, second: TraceRecord) {
    && Safe(c, s) && Normal(first) && first.state == Some(OrderSubmitted)
    && first.eventType == Lifecycle(OrderSubmitted)
    && Has(s.log, TraceEvent(first)) && Has(s.log, TraceEvent(second)) && first.key != second.key
    && second.eventId != ""
    && StateOf(s.log, TRADE) == Some(Accepted)
  }

  lemma AcceptStep(c: Config, s: System, first: TraceRecord) returns (second: TraceRecord)
    requires Traced(c, s, first)
    ensures TwoOnRecord(c, Exec(c, s, IngestOp([second], 1)), first, second)
  {
    var name := Unused(s.log);
    second := Sighting(TRADE, Accepted, name);
    SightingStep(c, s, Accepted, second);
    UnusedIsFresh(s.log);
    FreshExactly(s.log, name, name);
    SelectHead(s.log, SubmissionState(TRADE));
  }

  lemma NewSighting(log: Log) returns (r: TraceRecord)
    requires StateOf(log, TRADE) == Some(Accepted)
    ensures r == Sighting(TRADE, Filled, r.key) && Normal(r) && CleanAt(log, r)
    ensures RehearseOne(log, r) == Some(Recorded(log, TraceEvent(r)))
  {
    r := Sighting(TRADE, Filled, Unused(log));
    SightingIsNormal(TRADE, Filled, Unused(log));
    UnusedIsFresh(log);
    NewRecord(log, r);
  }

  lemma HalfStep(c: Config, s: System, first: TraceRecord, second: TraceRecord) returns (newcomer: TraceRecord)
    requires TwoOnRecord(c, s, first, second)
    ensures Ingest(s.log, [newcomer, first.(eventId := second.eventId)])
         == Committed(Recorded(s.log, TraceEvent(newcomer)), false)
  {
    newcomer := NewSighting(s.log);
    StaleIdLeavesHalfABatch(c.cap, s.log, newcomer, first.(eventId := second.eventId), TraceEvent(first),
                            TraceEvent(second));
  }

  /** Ingestion is not all or nothing: after two ingested records, a batch of one new record and a repeat of the first
      under the id of the second is left half recorded. */
  lemma HalfABatchIsReached(c: Config) returns (ops: seq<Op>, newcomer: TraceRecord, repeat: TraceRecord)
    requires c.cap > 0.0
    ensures var log := Run(c, INITIAL, ops).log;
            Ingest(log, [newcomer, repeat]) == Committed(Recorded(log, TraceEvent(newcomer)), false)
  {
    var traced, first := ReachTraced(c);
    var s := Run(c, INITIAL, traced);
    var second := AcceptStep(c, s, first);
    RunSnoc(c, INITIAL, traced, IngestOp([second], 1));
    ops := traced + [IngestOp([second], 1)];
    newcomer := HalfStep(c, Run(c, INITIAL, ops), first, second);
    repeat := first.(eventId := second.eventId);
  }

  lemma {:induction false} NoEmptyId(log: Log)
    requires WellFormed(log)
    ensures FreshId(log, "")
  {
    if log.Recorded? { NoEmptyId(log.before); }
  }

  /** The same with one new record and one without an event id: the rehearsal does not mind, the ledger does. */
  lemma EmptyIdLeavesHalfABatch(c: Config) returns (ops: seq<Op>, newcomer: TraceRecord, nameless: TraceRecord)
    requires c.cap > 0.0
    ensures var log := Run(c, INITIAL, ops).log;
            Ingest(log, [newcomer, nameless]) == Committed(Recorded(log, TraceEvent(newcomer)), false)
  {
    var traced, first := ReachTraced(c);
    ops := traced;
    newcomer, nameless := NamelessSecond(c.cap, Run(c, INITIAL, ops).log);
  }

  lemma NamelessSecond(cap: real, log: Log) returns (newcomer: TraceRecord, nameless: TraceRecord)
    requires IsLawful(cap, log) && StateOf(log, TRADE) == Some(OrderSubmitted)
    ensures Ingest(log, [newcomer, nameless]) == Committed(Recorded(log, TraceEvent(newcomer)), false)
  {
    var name, other := Unused(log), Unused(log) + "n";
    newcomer := Sighting(TRADE, Accepted, name);
    nameless := Sighting(TRADE, Filled, other).(eventId := "");
    var first := Recorded(log, TraceEvent(newcomer));
    SightingIsNormal(TRADE, Accepted, name);
    SightingIsNormal(TRADE, Filled, other);
    LongerIsFresh(log, name);
    LongerIsFresh(log, other);
    LawfulIsWellFormed(cap, log);
    NoEmptyId(log);
    NewRecord(log, newcomer);
    NewEventIsAppended(log, TraceEvent(newcomer));
    RehearseNew(first, nameless);
    HalfCommitted(log, first, newcomer, nameless);
  }

  // ------------------------------------------------------- batches refused the second time

  lemma BatchSnoc(log: Log, batch: seq<TraceRecord>, r: TraceRecord)
    requires Rehearse(log, batch).Some?
    ensures Rehearse(log, batch + [r]) == RehearseOne(Rehearse(log, batch).value, r)
    ensures Clean(log, batch + [r]) <==> Clean(log, batch) && CleanAt(Rehearse(log, batch).value, r)
  {
    assert (batch + [r])[..|batch|] == batch;
  }

  lemma {:induction false} FreshIdBelongs(log: Log, id: string, key: string)
    requires FreshId(log, id)
    ensures IdBelongsTo(log, id, key)
  {
    if log.Recorded? { FreshIdBelongs(log.before, id, key); }
  }

  /** A record under unused names is taken by the rehearsal and by the ledger. */
  lemma NewRecord(log: Log, r: TraceRecord)
    requires FreshKey(log, r.key) && FreshId(log, r.eventId) && r.key != "" && r.eventId != ""
    requires TransitionRehearsed(StateOf(log, r.tradeId), r)
    ensures RehearseOne(log, r) == Some(Recorded(log, TraceEvent(r))) && CleanAt(log, r)
  {
    RehearseNew(log, r);
    FreshIdBelongs(log, r.eventId, r.key);
  }

  /** The last record repeated under an unused id is recognised, and that id stays unused. */
  lemma RepeatedRecord(log: Log, r: TraceRecord, id: string)
    requires FreshKey(log, r.key) && FreshId(log, id) && id != r.eventId && id != "" && r.key != ""
    requires r.state.Some? && !OutcomeType(r.eventType)
    ensures var after := Recorded(log, TraceEvent(r));
            RehearseOne(after, r.(eventId := id)) == Some(after) && CleanAt(after, r.(eventId := id))
  {
    FreshSelectsNothing(log, TraceEvent(r));
    FreshIdBelongs(log, id, r.key);
  }

  lemma ThreeRecords(log: Log, a: TraceRecord, b: TraceRecord, d: TraceRecord, first: Log, after: Log)
    requires RehearseOne(log, a) == Some(first) && RehearseOne(first, b) == Some(first)
             && RehearseOne(first, d) == Some(after)
    requires CleanAt(log, a) && CleanAt(first, b) && CleanAt(first, d)
    ensures Rehearse(log, [a] + [b] + [d]) == Some(after) && Clean(log, [a] + [b] + [d])
  {
    assert [] + [a] == [a];
    BatchSnoc(log, [], a);
    BatchSnoc(log, [a], b);
    BatchSnoc(log, [a] + [b], d);
  }

  lemma AllThree(a: TraceRecord, b: TraceRecord, d: TraceRecord)
    requires Normal(a) && Normal(b) && Normal(d)
    requires !OutcomeType(a.eventType) && !OutcomeType(b.eventType) && !OutcomeType(d.eventType)
    ensures forall r :: r in [a] + [b] + [d] ==> Normal(r) && !OutcomeType(r.eventType)
    ensures b in [a] + [b] + [d]
  {
  }

  /** Of a submission, the same again under the id of the acceptance, and the acceptance: all three are new or known,
      and clean, but afterwards the second is not. */
  lemma BorrowingIsClean(log: Log, a: TraceRecord, b: TraceRecord, d: TraceRecord)
    requires StateOf(log, TRADE) == Some(Authorized)
    requires a == Sighting(TRADE, OrderSubmitted, a.key) && d == Sighting(TRADE, Accepted, d.key)
             && b == a.(eventId := d.key)
    requires FreshKey(log, a.key) && FreshId(log, a.key) && FreshKey(log, d.key) && FreshId(log, d.key)
    requires a.key != d.key && a.key != "" && d.key != ""
    ensures var first := Recorded(log, TraceEvent(a));
            var after := Recorded(first, TraceEvent(d));
            && RehearseOne(log, a) == Some(first) && RehearseOne(first, b) == Some(first)
            && RehearseOne(first, d) == Some(after)
            && CleanAt(log, a) && CleanAt(first, b) && CleanAt(first, d) && !CleanAt(after, b)
  {
    NewRecord(log, a);
    RepeatedRecord(log, a, d.key);
    NewRecord(Recorded(log, TraceEvent(a)), d);
  }

  lemma CleanBatchCompletes(cap: real, log: Log, batch: seq<TraceRecord>)
    requires IsLawful(cap, log) && batch != [] && Rehearse(log, batch).Some? && Clean(log, batch)
    requires forall r :: r in batch ==> Normal(r)
    ensures Ingest(log, batch) == Committed(Rehearse(log, batch).value, true)
  {
    CommitCompletesExactly(cap, log, batch);
  }

  /** A batch without outcome observations that is recorded completely, and refused when it comes again: by now its
      second record carries the id of its third. */
  lemma CompletedBatchIsRefusedForAnId(c: Config) returns (ops: seq<Op>, batch: seq<TraceRecord>)
    requires c.cap > 0.0
    ensures var log := Run(c, INITIAL, ops).log;
            && Ingest(log, batch).complete && (forall r :: r in batch ==> !OutcomeType(r.eventType))
            && !Ingest(Ingest(log, batch).log, batch).complete
  {
    ops := ReachAuthorized(c);
    batch := BorrowingBatch(c.cap, Run(c, INITIAL, ops).log);
  }

  lemma BorrowingBatch(cap: real, log: Log) returns (batch: seq<TraceRecord>)
    requires IsLawful(cap, log) && StateOf(log, TRADE) == Some(Authorized)
    ensures Ingest(log, batch).complete && (forall r :: r in batch ==> !OutcomeType(r.eventType))
    ensures !Ingest(Ingest(log, batch).log, batch).complete
  {
    var name, other := Unused(log), Unused(log) + "n";
    var a, d := Sighting(TRADE, OrderSubmitted, name), Sighting(TRADE, Accepted, other);
    var b := a.(eventId := other);
    SightingIsNormal(TRADE, OrderSubmitted, name);
    SightingIsNormal(TRADE, Accepted, other);
    LongerIsFresh(log, name);
    LongerIsFresh(log, other);
    BorrowingIsClean(log, a, b, d);
    batch := [a] + [b] + [d];
    BorrowedIdIsRefused(cap, log, a, b, d);
  }

  lemma BorrowedIdIsRefused(cap: real, log: Log, a: TraceRecord, b: TraceRecord, d: TraceRecord)
    requires IsLawful(cap, log) && Normal(a) && Normal(b) && Normal(d)
    requires !OutcomeType(a.eventType) && !OutcomeType(b.eventType) && !OutcomeType(d.eventType)
    requires var first := Recorded(log, TraceEvent(a));
             var after := Recorded(first, TraceEvent(d));
             && RehearseOne(log, a) == Some(first) && RehearseOne(first, b) == Some(first)
             && RehearseOne(first, d) == Some(after)
             && CleanAt(log, a) && CleanAt(first, b) && CleanAt(first, d) && !CleanAt(after, b)
    ensures var batch := [a] + [b] + [d];
            && Ingest(log, batch).complete && (forall r :: r in batch ==> !OutcomeType(r.eventType))
            && !Ingest(Ingest(log, batch).log, batch).complete
  {
    var batch, first := [a] + [b] + [d], Recorded(log, TraceEvent(a));
    ThreeRecords(log, a, b, d, first, Recorded(first, TraceEvent(d)));
    AllThree(a, b, d);
    CleanBatchCompletes(cap, log, batch);
    IngestTwice(cap, log, batch);
  }

  /** A complete observation that the outcome of a submission is unknown. */
  function UnknownOutcome(name: string): TraceRecord {
    TraceRecord(TRACE_SCHEMA, TRACE_SOURCE, TRADE, name, OutcomeUnknown, name, 0, Some(OrderSubmitted),
                (map f | f in OutcomeFields(OutcomeUnknown) :: Whole(0))
                + map[BrokerTimestamp := Whole(0), BrokerUtcOffsetSeconds := Whole(0)])
  }

  lemma UnknownOutcomeIsNormal(name: string)
    ensures Normal(UnknownOutcome(name))
  {
    assert UnknownOutcome(name).payload.Keys == OutcomeFields(OutcomeUnknown)
      + {BrokerTimestamp, BrokerUtcOffsetSeconds};
  }

  /** A batch of one outcome observation that is recorded completely, and refused when it comes again. */
  lemma CompletedObservationIsRefused(c: Config) returns (ops: seq<Op>, batch: seq<TraceRecord>)
    requires c.cap > 0.0
    ensures var log := Run(c, INITIAL, ops).log;
            Ingest(log, batch).complete && |batch| == 1 && !Ingest(Ingest(log, batch).log, batch).complete
  {
    var traced, first := ReachTraced(c);
    ops := traced;
    var log := Run(c, INITIAL, ops).log;
    var r := UnknownOutcome(Unused(log));
    batch := [] + [r];
    UnknownOutcomeIsNormal(Unused(log));
    UnusedIsFresh(log);
    NewRecord(log, r);
    BatchSnoc(log, [], r);
    CleanBatchCompletes(c.cap, log, batch);
    IngestTwice(c.cap, log, batch);
    assert r in batch;
  }

  // --------------------------------------------------------------- releasing twice

  /** The reservation is on record and nothing stands against its release after close. */
  ghost predicate Releasable(c: Config, s: System) {
    && Safe(c, s) && Unresolved(s.log) == {} && StateOf(s.log, TRADE) == Some(Reconciled)
    && Select(s.log, ReservedFor(TRADE, TRADE, TRADE)) != []
  }

  /** The same before execution. */
  ghost predicate Cancellable(c: Config, s: System) {
    && Safe(c, s) && Unresolved(s.log) == {} && StateOf(s.log, TRADE) == Some(Authorized)
    && Select(s.log, ReservedFor(TRADE, TRADE, TRADE)) != [] && Select(s.log, RevokedFor(TRADE, TRADE)) != []
  }

  /** `longer` is `log` and one more release of the reservation. */
  predicate ReleasedOnceMore(log: Log, longer: Log) {
    && longer.Recorded? && longer.before == log && ReleasesReservation(log, longer.last, TRADE, TRADE, TRADE)
    && TRADE in ReleasedIds(longer, TRADE, TRADE)
    && ActiveReserved(longer, TRADE, TRADE) == ActiveReserved(log, TRADE, TRADE) - Freed(log, TRADE, TRADE, TRADE)
  }

  function ReleaseNow(log: Log): Op {
    ReleaseOp(TRADE, TRADE, TRADE, 2, Unused(log), Unused(log))
  }

  function CancelNow(log: Log): Op {
    ReleasePreOp(TRADE, TRADE, TRADE, "x", 2, Unused(log), Unused(log))
  }

  /** A release that was added leaves the trade and the block as they were. */
  lemma AfterRelease(log: Log, longer: Log)
    requires longer.Recorded? && longer.before == log && ReleasesReservation(log, longer.last, TRADE, TRADE, TRADE)
    ensures StateOf(longer, TRADE) == StateOf(log, TRADE) && Unresolved(longer) == Unresolved(log)
    ensures Select(longer, ReservedFor(TRADE, TRADE, TRADE)) == Select(log, ReservedFor(TRADE, TRADE, TRADE))
    ensures Select(longer, RevokedFor(TRADE, TRADE)) == Select(log, RevokedFor(TRADE, TRADE))
  {
  }

  lemma ReleaseStep(c: Config, s: System)
    requires Releasable(c, s)
    ensures Releasable(c, Exec(c, s, ReleaseNow(s.log))) && ReleasedOnceMore(s.log, Exec(c, s, ReleaseNow(s.log)).log)
  {
    var name := Unused(s.log);
    var longer := ReleaseReservation(s.log, TRADE, TRADE, TRADE, 2, name, name).log;
    UnusedIsFresh(s.log);
    ReleaseExactly(c.cap, s.log, TRADE, TRADE, TRADE, 2, name, name);
    ReleaseAdds(s.log, TRADE, TRADE, TRADE, 2, name, name);
    AfterRelease(s.log, longer);
    ReleaseNowLog(c, s, longer);
  }

  lemma ReleaseNowLog(c: Config, s: System, longer: Log)
    requires Safe(c, s) && longer == ReleaseReservation(s.log, TRADE, TRADE, TRADE, 2, Unused(s.log), Unused(s.log)).log
    ensures Exec(c, s, ReleaseNow(s.log)).log == longer && Safe(c, Exec(c, s, ReleaseNow(s.log)))
  {
    ExecWithoutCall(c, s, ReleaseNow(s.log));
    ExecSafe(c, s, ReleaseNow(s.log));
  }

  lemma CancelStep(c: Config, s: System)
    requires Cancellable(c, s)
    ensures Cancellable(c, Exec(c, s, CancelNow(s.log))) && ReleasedOnceMore(s.log, Exec(c, s, CancelNow(s.log)).log)
  {
    var name := Unused(s.log);
    var longer := ReleasePreExecution(s.log, TRADE, TRADE, TRADE, "x", 2, name, name).log;
    UnusedIsFresh(s.log);
    NotBlank();
    ReleasePreExactly(c.cap, s.log, TRADE, TRADE, TRADE, "x", 2, name, name);
    ReleasePreAdds(s.log, TRADE, TRADE, TRADE, "x", 2, name, name);
    AfterRelease(s.log, longer);
    CancelNowLog(c, s, longer);
  }

  lemma CancelNowLog(c: Config, s: System, longer: Log)
    requires Safe(c, s) && longer == ReleasePreExecution(s.log, TRADE, TRADE, TRADE, "x", 2, Unused(s.log),
                                                         Unused(s.log)).log
    ensures Exec(c, s, CancelNow(s.log)).log == longer && Safe(c, Exec(c, s, CancelNow(s.log)))
  {
    ExecWithoutCall(c, s, CancelNow(s.log));
    ExecSafe(c, s, CancelNow(s.log));
  }

  lemma NotBlank()
    ensures !Blank("x")
  {
    assert "x"[0] in "x" && "x"[0] == 'x';
  }

  lemma SubmittedAndUnblocked(log: Log, r: TraceRecord)
    requires Unresolved(log) == {} && r == Sighting(TRADE, OrderSubmitted, r.key)
    ensures StateOf(Recorded(log, TraceEvent(r)), TRADE) == Some(OrderSubmitted)
    ensures Unresolved(Recorded(log, TraceEvent(r))) == {}
  {
  }

  /** The reserved trade is submitted, settled and reconciled. */
  lemma SettleStep(c: Config, s: System) returns (ops: seq<Op>)
    requires Covered(c, s)
    ensures Releasable(c, Run(c, s, ops))
  {
    var r := Sighting(TRADE, OrderSubmitted, Unused(s.log));
    SightingStep(c, s, OrderSubmitted, r);
    SubmittedAndUnblocked(s.log, r);
    var op := IngestOp([r], 1);
    var rest := CanSettle(c, Exec(c, s, op), TRADE);
    RunFirst(c, s, op, rest);
    ops := [op] + rest;
    RunSafe(c, s, ops);
    SelectExtends(s.log, Run(c, s, ops).log, ReservedFor(TRADE, TRADE, TRADE));
  }

  /** A run whose last two operations release the same reservation: both are recorded, the second frees nothing. */
  lemma SecondReleaseIsRecorded(c: Config) returns (ops: seq<Op>)
    requires c.cap > 0.0
    ensures var once := Run(c, INITIAL, ops);
            var twice := Exec(c, once, ReleaseNow(once.log));
            && TRADE in ReleasedIds(once.log, TRADE, TRADE) && ReleasedOnceMore(once.log, twice.log)
            && ActiveReserved(twice.log, TRADE, TRADE) == ActiveReserved(once.log, TRADE, TRADE)
  {
    var covered := ReachCovered(c);
    var settle := SettleStep(c, Run(c, INITIAL, covered));
    RunJoin(c, INITIAL, covered, settle);
    var s := Run(c, INITIAL, covered + settle);
    RunSnoc(c, INITIAL, covered + settle, ReleaseNow(s.log));
    ops := covered + settle + [ReleaseNow(s.log)];
    ReleaseStep(c, s);
    ReleaseStep(c, Exec(c, s, ReleaseNow(s.log)));
  }

  lemma RevokeIsWritten(c: Config, log: Log, e: Event)
    requires Unresolved(log) == {} && StateOf(log, TRADE) == Some(Authorized)
    requires GetAuthorization(log, TRADE, TRADE) == Some(Granted(c))
    requires FreshId(log, e.eventId) && FreshKey(log, e.key) && e.eventId != "" && e.key != ""
    requires e == Event(e.eventId, 1, TRADE, None, AuthorizationRevoked, e.key, Revocation(TRADE, "x", 1))
    ensures Firewall.RevokeAuthorization(log, TRADE, TRADE, "x", 1, e.eventId, e.key).log == Recorded(log, e)
  {
    FreshKeyIsNotSeen(log, TRADE, e.key);
    NewEventIsAppended(log, e);
    NotBlank();
  }

  lemma AfterRevocation(log: Log, e: Event)
    requires e.tradeId == TRADE && e.eventType == AuthorizationRevoked && e.state.None?
    requires e.payload.Revocation? && e.payload.authorizationId == TRADE
    requires ActiveReservation(log, TRADE, TRADE, TRADE).Some?
    ensures var after := Recorded(log, e);
            && StateOf(after, TRADE) == StateOf(log, TRADE) && Unresolved(after) == Unresolved(log)
            && Select(after, ReservedFor(TRADE, TRADE, TRADE)) != [] && Select(after, RevokedFor(TRADE, TRADE)) != []
  {
  }

  lemma RevokeStep(c: Config, s: System) returns (op: Op)
    requires Covered(c, s)
    ensures Cancellable(c, Exec(c, s, op))
  {
    var name := Unused(s.log);
    op := RevokeOp(TRADE, TRADE, "x", 1, name, name);
    var e := Event(name, 1, TRADE, None, AuthorizationRevoked, name, Revocation(TRADE, "x", 1));
    UnusedIsFresh(s.log);
    RevokeIsWritten(c, s.log, e);
    AfterRevocation(s.log, e);
    ExecWithoutCall(c, s, op);
    ExecSafe(c, s, op);
  }

  /** The same before execution, after a revocation. */
  lemma SecondCancellationIsRecorded(c: Config) returns (ops: seq<Op>)
    requires c.cap > 0.0
    ensures var once := Run(c, INITIAL, ops);
            var twice := Exec(c, once, CancelNow(once.log));
            && TRADE in ReleasedIds(once.log, TRADE, TRADE) && ReleasedOnceMore(once.log, twice.log)
            && ActiveReserved(twice.log, TRADE, TRADE) == ActiveReserved(once.log, TRADE, TRADE)
  {
    var covered := ReachCovered(c);
    var revoke := RevokeStep(c, Run(c, INITIAL, covered));
    RunSnoc(c, INITIAL, covered, revoke);
    var s := Run(c, INITIAL, covered + [revoke]);
    RunSnoc(c, INITIAL, covered + [revoke], CancelNow(s.log));
    ops := covered + [revoke] + [CancelNow(s.log)];
    CancelStep(c, s);
    CancelStep(c, Exec(c, s, CancelNow(s.log)));
  }
}
