/** The global risk block always has a way out, through steps the block itself does not refuse. */
module Liveness {
  import opened Options
  import opened Ledger
  import opened TradeLedgers
  import opened Lawful
  import opened Execution
  import opened Trace
  import opened Protocol

  // ------------------------------------------------------ where unresolved trades are

  predicate AtTheBroker(s: Option<State>) {
    s in {Some(OrderSubmitted), Some(Rejected), Some(Accepted), Some(Filled), Some(Open), Some(Managed), Some(Closed)}
  }

  /** An unresolved trade has been submitted and has not been reconciled. */
  lemma {:induction false} UnresolvedIsAtTheBroker(cap: real, log: Log, t: string)
    requires IsLawful(cap, log) && t in Unresolved(log)
    ensures AtTheBroker(StateOf(log, t)) && t != ""
  {
    var init, e := log.before, log.last;
    if t in Unresolved(init) {
      UnresolvedIsAtTheBroker(cap, init, t);
      if e.tradeId == t && e.state.Some? { AllowedRaises(StateOf(init, t).value, e.state.value); }
    }
  }

  // ------------------------------------------------------------ unused identifiers

  /** A string longer than every key and event id on the log. */
  function Unused(log: Log): string {
    match log
    case Genesis => "n"
    case Recorded(before, e) => Unused(before) + e.key + e.eventId + "n"
  }

  lemma {:induction false} LongerIsFresh(log: Log, name: string)
    requires |name| >= |Unused(log)|
    ensures FreshKey(log, name) && FreshId(log, name)
  {
    if log.Recorded? { LongerIsFresh(log.before, name); }
  }

  lemma UnusedIsFresh(log: Log)
    ensures FreshKey(log, Unused(log)) && FreshId(log, Unused(log)) && Unused(log) != ""
  {
    LongerIsFresh(log, Unused(log));
  }

  lemma NewEventIsAppended(log: Log, e: Event)
    requires Identified(e) && Follows(log, e)
    ensures Append(log, e) == Appended(e)
  {
    FreshSelectsNothing(log, e);
  }

  // ------------------------------------------------------------- the way out

  /** The steps that settle trades: recovery, trace ingestion and reconciliation. */
  predicate SettlingStep(op: Op) {
    op.RecoverOp? || op.IngestOp? || op.ReconcileOp?
  }

  /** A complete observation of a trade entering state `to`. */
  function Sighting(t: string, to: State, name: string): TraceRecord
    requires Observational(to)
  {
    TraceRecord(TRACE_SCHEMA, TRACE_SOURCE, t, name, Lifecycle(to), name, 0, Some(to),
                (map f | f in StateFields(to) :: Whole(0))
                + map[BrokerTimestamp := Whole(0), BrokerUtcOffsetSeconds := Whole(0)])
  }

  lemma SightingIsNormal(t: string, to: State, name: string)
    requires Observational(to)
    ensures Normal(Sighting(t, to, name))
  {
    var r := Sighting(t, to, name);
    assert r.payload.Keys == StateFields(to) + {BrokerTimestamp, BrokerUtcOffsetSeconds};
  }

  /** A trace of one record moves a trade one legal step, whatever else is blocked. */
  lemma OneSighting(log: Log, t: string, to: State)
    requires t != "" && Observational(to)
    requires StateOf(log, t).Some? && Allowed(StateOf(log, t).value, to)
    ensures var r := Sighting(t, to, Unused(log));
            IngestUpTo(log, [r], 1) == Recorded(log, TraceEvent(r))
  {
    var r := Sighting(t, to, Unused(log));
    SightingIsNormal(t, to, Unused(log));
    UnusedIsFresh(log);
    NewEventIsAppended(log, TraceEvent(r));
    RehearseNew(log, r);
    OneRecord(log, r);
  }

  lemma RehearseNew(log: Log, r: TraceRecord)
    requires FreshKey(log, r.key) && FreshId(log, r.eventId) && TransitionRehearsed(StateOf(log, r.tradeId), r)
    ensures RehearseOne(log, r) == Some(Recorded(log, TraceEvent(r)))
  {
    FreshSelectsNothing(log, TraceEvent(r));
  }

  lemma OneRecord(log: Log, r: TraceRecord)
    requires Normal(r) && RehearseOne(log, r).Some? && Append(log, TraceEvent(r)) == Appended(TraceEvent(r))
    ensures IngestUpTo(log, [r], 1) == Recorded(log, TraceEvent(r))
  {
    assert [r][..0] == [] && [r][..1] == [r];
    assert Rehearse(log, []) == Some(log) && Commit(log, []) == Committed(log, true);
  }

  /** Reconciling a closed or rejected trade against an equal snapshot succeeds, whatever else is blocked. */
  lemma ReconcileSettles(log: Log, t: string, name: string)
    requires t != "" && StateOf(log, t) in {Some(Closed), Some(Rejected)} && name == Unused(log)
    ensures var l := Reconciliation(log, t, "", "", name, name, 0).1;
            StateOf(l, t) == Some(Reconciled) && Unresolved(l) == Unresolved(log) - {t}
  {
    var e := Event(name, 0, t, Some(Reconciled), Lifecycle(Reconciled), name, Snapshots("", ""));
    UnusedIsFresh(log);
    NewEventIsAppended(log, e);
  }

  lemma ExecWithoutCall(c: Config, s: System, op: Op)
    requires !op.SubmitOp?
    ensures Exec(c, s, op) == System(LogAfter(c, s.log, op), s.calls)
  {
  }

  lemma IngestLog(c: Config, log: Log, records: seq<TraceRecord>, written: nat)
    ensures LogAfter(c, log, IngestOp(records, written)) == IngestUpTo(log, records, written)
  {
  }

  lemma ReconcileLog(c: Config, log: Log, t: string, observed: string, expected: string, key: string, id: string,
                     clock: int)
    ensures LogAfter(c, log, ReconcileOp(t, observed, expected, key, id, clock))
         == Reconciliation(log, t, observed, expected, key, id, clock).1
  {
  }

  /** The next state on the way to close. */
  function Onward(s: State): State
    requires s in {OrderSubmitted, Accepted, Filled, Open, Managed}
  {
    match s
    case OrderSubmitted => Accepted
    case Accepted => Filled
    case Filled => Open
    case _ => Closed
  }

  lemma RunSnoc(c: Config, s: System, ops: seq<Op>, op: Op)
    ensures Run(c, s, ops + [op]) == Exec(c, Run(c, s, ops), op)
  {
    assert (ops + [op])[..|ops|] == ops;
  }

  lemma {:induction false} RunJoin(c: Config, s: System, a: seq<Op>, b: seq<Op>)
    ensures Run(c, s, a + b) == Run(c, Run(c, s, a), b)
  {
    if |b| == 0 {
      assert a + b == a;
    } else {
      var init, last := b[..|b| - 1], b[|b| - 1];
      assert a + b == (a + init) + [last];
      RunSnoc(c, s, a + init, last);
      RunJoin(c, s, a, init);
    }
  }

  lemma RunOne(c: Config, s: System, op: Op)
    ensures Run(c, s, [op]) == Exec(c, s, op)
  {
    assert [op][..0] == [];
  }

  lemma RunFirst(c: Config, s: System, op: Op, rest: seq<Op>)
    ensures Run(c, s, [op] + rest) == Run(c, Exec(c, s, op), rest)
  {
    RunOne(c, s, op);
    RunJoin(c, s, [op], rest);
  }

  lemma SettlingFirst(op: Op, rest: seq<Op>)
    requires SettlingStep(op) && forall o :: o in rest ==> SettlingStep(o)
    ensures forall o :: o in [op] + rest ==> SettlingStep(o)
  {
  }

  lemma MoveOn(c: Config, s: System, t: string) returns (op: Op)
    requires Safe(c, s) && t != "" && AtTheBroker(StateOf(s.log, t))
             && StateOf(s.log, t) !in {Some(Closed), Some(Rejected)}
    ensures SettlingStep(op) && Safe(c, Exec(c, s, op))
    ensures StateOf(Exec(c, s, op).log, t) == Some(Onward(StateOf(s.log, t).value))
    ensures Unresolved(Exec(c, s, op).log) == Unresolved(s.log)
  {
    var to := Onward(StateOf(s.log, t).value);
    var r := Sighting(t, to, Unused(s.log));
    op := IngestOp([r], 1);
    OneSighting(s.log, t, to);
    ExecWithoutCall(c, s, op);
    IngestLog(c, s.log, [r], 1);
    SightingMoves(s.log, t, to, r);
    ExecSafe(c, s, op);
  }

  lemma SightingMoves(log: Log, t: string, to: State, r: TraceRecord)
    requires Observational(to) && to in {Accepted, Filled, Open, Closed} && r == Sighting(t, to, r.key)
    ensures StateOf(Recorded(log, TraceEvent(r)), t) == Some(to)
    ensures Unresolved(Recorded(log, TraceEvent(r))) == Unresolved(log)
  {
  }

  lemma Settle(c: Config, s: System, t: string) returns (op: Op)
    requires Safe(c, s) && t != "" && StateOf(s.log, t) in {Some(Closed), Some(Rejected)}
    ensures SettlingStep(op)
    ensures StateOf(Exec(c, s, op).log, t) == Some(Reconciled)
    ensures Unresolved(Exec(c, s, op).log) == Unresolved(s.log) - {t}
  {
    var name := Unused(s.log);
    op := ReconcileOp(t, "", "", name, name, 0);
    ReconcileSettles(s.log, t, name);
    ExecWithoutCall(c, s, op);
    ReconcileLog(c, s.log, t, "", "", name, name, 0);
  }

  /** A first settling step, and settling steps after it that reconcile the trade. */
  lemma SettledFirst(c: Config, s: System, t: string, op: Op, rest: seq<Op>)
    requires SettlingStep(op) && Unresolved(Exec(c, s, op).log) == Unresolved(s.log)
    requires forall o :: o in rest ==> SettlingStep(o)
    requires StateOf(Run(c, Exec(c, s, op), rest).log, t) == Some(Reconciled)
    requires Unresolved(Run(c, Exec(c, s, op), rest).log) == Unresolved(Exec(c, s, op).log) - {t}
    ensures forall o :: o in [op] + rest ==> SettlingStep(o)
    ensures StateOf(Run(c, s, [op] + rest).log, t) == Some(Reconciled)
    ensures Unresolved(Run(c, s, [op] + rest).log) == Unresolved(s.log) - {t}
  {
    RunFirst(c, s, op, rest);
    SettlingFirst(op, rest);
  }

  lemma OnwardRaises(s: State)
    requires s in {OrderSubmitted, Accepted, Filled, Open, Managed}
    ensures Rank(s) < Rank(Onward(s)) <= 9 && AtTheBroker(Some(Onward(s)))
  {
  }

  /** Some finite sequence of settling steps reconciles the trade and takes it off the unresolved set,
      and no other trade is put on it. */
  lemma {:induction false} CanSettle(c: Config, s: System, t: string) returns (ops: seq<Op>)
    requires Safe(c, s) && t != "" && AtTheBroker(StateOf(s.log, t))
    ensures forall op :: op in ops ==> SettlingStep(op)
    ensures StateOf(Run(c, s, ops).log, t) == Some(Reconciled)
    ensures Unresolved(Run(c, s, ops).log) == Unresolved(s.log) - {t}
    decreases 10 - Rank(StateOf(s.log, t).value)
  {
    if StateOf(s.log, t) in {Some(Closed), Some(Rejected)} {
      var op := Settle(c, s, t);
      RunOne(c, s, op);
      ops := [op];
    } else {
      OnwardRaises(StateOf(s.log, t).value);
      var op := MoveOn(c, s, t);
      var rest := CanSettle(c, Exec(c, s, op), t);
      SettledFirst(c, s, t, op, rest);
      ops := [op] + rest;
    }
  }

  /** No permanent block: from every reachable state, settling steps alone clear the whole unresolved set. */
  lemma {:induction false} CanClearBlock(c: Config, s: System) returns (ops: seq<Op>)
    requires Safe(c, s)
    ensures forall op :: op in ops ==> SettlingStep(op)
    ensures !RiskBlocked(Run(c, s, ops).log)
    decreases |Unresolved(s.log)|
  {
    if Unresolved(s.log) == {} {
      ops := [];
    } else {
      var t :| t in Unresolved(s.log);
      UnresolvedIsAtTheBroker(c.cap, s.log, t);
      var first := CanSettle(c, s, t);
      RunSafe(c, s, first);
      var rest := CanClearBlock(c, Run(c, s, first));
      ops := first + rest;
      RunJoin(c, s, first, rest);
    }
  }

  lemma NeverPermanentlyBlocked(c: Config, ops: seq<Op>) returns (more: seq<Op>)
    ensures forall op :: op in more ==> SettlingStep(op)
    ensures !RiskBlocked(Run(c, INITIAL, ops + more).log)
  {
    RunSafe(c, INITIAL, ops);
    more := CanClearBlock(c, Run(c, INITIAL, ops));
    RunJoin(c, INITIAL, ops, more);
  }

  // ------------------------------------------------ which submissions block, which settle

  /** What the adapter adds to the order's key and event id to name the journal entry. */
  function JournalSuffix(o: Order, b: BrokerBehaviour): string {
    match b
    case Raises(_) => ":unknown"
    case Malformed => ""
    case Answers(r) =>
      if ShowsFill(r, o.request) then ":accepted"
      else if ShowsRefusal(r, o.request) then ":rejected"
      else if ShowsPartialFill(r, o.request) then ":partial"
      else if ShowsPending(r, o.request) then ":pending"
      else ""
  }

  /** The names of the journal entry are new on the ledger as it stands before the call. */
  predicate JournalNamesFresh(log: Log, o: Order, b: BrokerBehaviour) {
    FreshKey(log, o.key + JournalSuffix(o, b)) && FreshId(log, o.eventId + JournalSuffix(o, b))
  }

  lemma OutcomeNames(h: Hashes, o: Order, b: BrokerBehaviour)
    requires OutcomeEvent(h, o, b).Some?
    ensures var e := OutcomeEvent(h, o, b).value;
            && e.key == o.key + JournalSuffix(o, b) && e.eventId == o.eventId + JournalSuffix(o, b)
            && JournalSuffix(o, b) != ""
            && e.tradeId == o.request.tradeId && e.state in {None, Some(Accepted), Some(Rejected)}
            && !e.eventType.OtherType?
  {
    if b.Answers? { ClassifiedExactly(b.response, o.request); }
  }

  /** The journal entry repeats the submission of the intent and what the broker answered. */
  lemma OutcomeSays(h: Hashes, o: Order, b: BrokerBehaviour)
    ensures b.Raises? ==> OutcomeEvent(h, o, b).Some?
    ensures OutcomeEvent(h, o, b).Some? ==>
              var e := OutcomeEvent(h, o, b).value;
              && e.timestamp == o.now && (e.payload.BrokerError? || e.payload.BrokerReport?)
              && e.payload.submission == IntentEvent(h, o).payload.submission
              && (b.Raises? ==> e.payload == BrokerError(e.payload.submission, b.errorType))
              && (b.Answers? ==>
                    var p, r := e.payload, b.response;
                    && p.BrokerReport? && p.orderId == r.orderId && p.dealId == r.dealId && p.retcode == r.retcode
                    && p.filled == FilledOf(r)
                    && (ShowsFill(r, o.request) || ShowsPartialFill(r, o.request) ==>
                          p.remaining == RemainingOf(r, o.request.volume))
                    && (ShowsRefusal(r, o.request) || ShowsPending(r, o.request) ==>
                          p.remaining == o.request.volume && Some(p.reason) == r.reason))
  {
    if b.Answers? { ClassifiedExactly(b.response, o.request); }
  }

  /** After a call the ledger takes the journal entry exactly if its names were new before the call. */
  lemma OutcomeTaken(h: Hashes, log: Log, o: Order, b: BrokerBehaviour)
    requires WellFormed(log) && CallsBroker(h, log, o) && OutcomeEvent(h, o, b).Some?
    ensures Append(AfterIntent(h, log, o), OutcomeEvent(h, o, b).value).Appended? <==> JournalNamesFresh(log, o, b)
  {
    CallMeansNewIntent(h, log, o);
    OutcomeNames(h, o, b);
    AppendedExactly(AfterIntent(h, log, o), OutcomeEvent(h, o, b).value);
  }

  /** Does this broker behaviour lead the adapter to journal an unresolved outcome? */
  predicate JournalsTrouble(o: Order, b: BrokerBehaviour) {
    b.Raises?
    || (b.Answers?
        && (ShowsPartialFill(b.response, o.request) || ShowsPending(b.response, o.request)
            || ShowsRefusal(b.response, o.request)))
  }

  /** After a call, new risk is blocked exactly when the behaviour is journaled as trouble and the names of the journal
      entry were new before the call.  A malformed or unusable answer leaves the order submitted and nothing blocked. */
  lemma SubmitBlocksExactly(cap: real, h: Hashes, log: Log, o: Order, b: BrokerBehaviour)
    requires IsLawful(cap, log) && CallsBroker(h, log, o)
    ensures RiskBlocked(AfterSubmit(h, log, o, b)) <==> JournalsTrouble(o, b) && JournalNamesFresh(log, o, b)
  {
    LawfulIsWellFormed(cap, log);
    CallMeansNewIntent(h, log, o);
    TroubleMarks(h, o, b);
    AppendedBlocks(h, AfterIntent(h, log, o), o, b);
    if OutcomeEvent(h, o, b).Some? { OutcomeTaken(h, log, o, b); }
  }

  /** A crash after the call and before the journal, or before the call, never blocks: the order stays submitted. */
  lemma CrashBlocksNothing(c: Config, log: Log, o: Order, b: BrokerBehaviour, crash: Crash)
    requires IsLawful(c.cap, log) && CallsBroker(c.hashes, log, o) && crash != NoCrash
    ensures var after := LogAfter(c, log, SubmitOp(o, b, crash));
            StateOf(after, o.request.tradeId) == Some(OrderSubmitted) && !RiskBlocked(after)
  {
    LawfulIsWellFormed(c.cap, log);
    CallMeansNewIntent(c.hashes, log, o);
    IntentIsSubmitted(c.hashes, log, o);
    CrashedLog(c, log, o, b, crash);
  }

  lemma CrashedLog(c: Config, log: Log, o: Order, b: BrokerBehaviour, crash: Crash)
    requires crash != NoCrash
    ensures LogAfter(c, log, SubmitOp(o, b, crash)) == AfterIntent(c.hashes, log, o)
  {
  }

  lemma IntentIsSubmitted(h: Hashes, log: Log, o: Order)
    requires !RiskBlocked(log)
    ensures var after := Recorded(log, IntentEvent(h, o));
            StateOf(after, o.request.tradeId) == Some(OrderSubmitted) && !RiskBlocked(after)
  {
  }

  lemma TroubleMarks(h: Hashes, o: Order, b: BrokerBehaviour)
    ensures JournalsTrouble(o, b) <==>
            OutcomeEvent(h, o, b).Some?
            && (LeavesUnresolved(OutcomeEvent(h, o, b).value.eventType)
                || OutcomeEvent(h, o, b).value.state == Some(Rejected))
    ensures OutcomeEvent(h, o, b).Some? ==> OutcomeEvent(h, o, b).value.state != Some(Reconciled)
  {
    if b.Answers? { ClassifiedExactly(b.response, o.request); }
  }

  lemma AppendedBlocks(h: Hashes, log: Log, o: Order, b: BrokerBehaviour)
    requires !RiskBlocked(log)
    ensures RiskBlocked(AfterOutcome(h, log, o, b)) <==>
            var e := OutcomeEvent(h, o, b);
            e.Some? && Append(log, e.value).Appended?
            && (LeavesUnresolved(e.value.eventType) || e.value.state == Some(Rejected))
  {
    var e := OutcomeEvent(h, o, b);
    if e.Some? {
      var r := Append(log, e.value);
      AppendedIsRequested(log, e.value);
    }
  }

  /** Two volumes are close when they differ by a billionth at most. */
  lemma CloseExactly(a: real, b: real)
    ensures Close(a, b) <==> (a - b <= 0.000000001 && b - a <= 0.000000001)
  {
  }

  /** The answer identifies the order: same symbol, timeframe, side and volume, and no empty identifier. */
  predicate Identifies(r: Response, request: OrderRequest) {
    && r.symbol == request.symbol && r.timeframe == request.timeframe && r.side == request.side
    && r.volume == request.volume
    && r.orderId != Some("") && r.dealId != Some("") && r.retcode != ""
  }

  /** The answer shows a complete fill, with an order and a deal. */
  predicate ShowsFill(r: Response, request: OrderRequest) {
    && r.status == "ACCEPTED" && Identifies(r, request) && r.orderId.Some? && r.dealId.Some?
    && 0.0 <= FilledOf(r) <= request.volume && request.volume - FilledOf(r) <= TOLERANCE
    && RemainingOf(r, request.volume) == 0.0
  }

  /** The answer shows a refusal with a reason, and that nothing was filled. */
  predicate ShowsRefusal(r: Response, request: OrderRequest) {
    && r.status == "REJECTED" && Identifies(r, request) && r.dealId.None? && Named(r.reason)
    && FilledOf(r) == 0.0 && 0.0 <= request.volume && RemainingOf(r, request.volume) >= 0.0
    && Close(RemainingOf(r, request.volume), request.volume)
  }

  /** The answer shows that part of the order was filled and part remains. */
  predicate ShowsPartialFill(r: Response, request: OrderRequest) {
    && r.status == "PARTIAL" && Identifies(r, request) && r.orderId.Some?
    && 0.0 < FilledOf(r) < request.volume && 0.0 < RemainingOf(r, request.volume)
    && Close(FilledOf(r) + RemainingOf(r, request.volume), request.volume)
  }

  /** The answer shows an order at rest, for a reason, with nothing filled. */
  predicate ShowsPending(r: Response, request: OrderRequest) {
    && r.status == "PENDING" && Identifies(r, request) && r.orderId.Some? && r.dealId.None? && Named(r.reason)
    && FilledOf(r) == 0.0 && 0.0 <= request.volume && RemainingOf(r, request.volume) >= 0.0
    && Close(RemainingOf(r, request.volume), request.volume)
  }

  lemma ClassifiedExactly(r: Response, request: OrderRequest)
    ensures Classify(r, request) == PartialFill <==> ShowsPartialFill(r, request)
    ensures Classify(r, request) == PendingOrder <==> ShowsPending(r, request)
    ensures Classify(r, request) == AcceptedOrder <==> ShowsFill(r, request)
    ensures Classify(r, request) == RejectedOrder <==> ShowsRefusal(r, request)
  {
    if r.status == "ACCEPTED" || r.status == "REJECTED" || r.status == "PARTIAL" || r.status == "PENDING" {
      assert r.status in {"ACCEPTED", "REJECTED", "PARTIAL", "PENDING"};
    }
  }

  lemma OutcomeState(h: Hashes, log: Log, o: Order, b: BrokerBehaviour)
    requires StateOf(log, o.request.tradeId) == Some(OrderSubmitted)
    ensures var taken := OutcomeEvent(h, o, b).Some? && Append(log, OutcomeEvent(h, o, b).value).Appended?;
            StateOf(AfterOutcome(h, log, o, b), o.request.tradeId)
            == if taken && OutcomeEvent(h, o, b).value.state.Some? then OutcomeEvent(h, o, b).value.state
               else Some(OrderSubmitted)
  {
    var e := OutcomeEvent(h, o, b);
    if e.Some? { AppendedIsRequested(log, e.value); }
  }

  /** After a call the order is accepted, or rejected, exactly when the broker's answer shows a complete fill of this
      order, or a refusal of it, and the names of the journal entry were new before the call; else it stays
      submitted. */
  lemma SubmitOutcomesExactly(cap: real, h: Hashes, log: Log, o: Order, b: BrokerBehaviour)
    requires IsLawful(cap, log) && CallsBroker(h, log, o)
    ensures var state := StateOf(AfterSubmit(h, log, o, b), o.request.tradeId);
            && (state == Some(Accepted) <==>
                  b.Answers? && ShowsFill(b.response, o.request) && JournalNamesFresh(log, o, b))
            && (state == Some(Rejected) <==>
                  b.Answers? && ShowsRefusal(b.response, o.request) && JournalNamesFresh(log, o, b))
            && state in {Some(OrderSubmitted), Some(Accepted), Some(Rejected)}
  {
    LawfulIsWellFormed(cap, log);
    CallMeansNewIntent(h, log, o);
    OutcomeState(h, AfterIntent(h, log, o), o, b);
    OutcomeStates(h, o, b);
    if OutcomeEvent(h, o, b).Some? { OutcomeTaken(h, log, o, b); }
  }

  lemma OutcomeStates(h: Hashes, o: Order, b: BrokerBehaviour)
    ensures var e := OutcomeEvent(h, o, b);
            && (e.Some? && e.value.state == Some(Accepted) <==> b.Answers? && ShowsFill(b.response, o.request))
            && (e.Some? && e.value.state == Some(Rejected) <==> b.Answers? && ShowsRefusal(b.response, o.request))
            && (e.Some? ==> e.value.state in {None, Some(Accepted), Some(Rejected)})
  {
    if b.Answers? { ClassifiedExactly(b.response, o.request); }
  }

  lemma AppendedIsRequested(log: Log, e: Event)
    ensures Extend(log, Append(log, e)) == if Append(log, e).Appended? then Recorded(log, e) else log
  {
  }
}
