/** Whole runs: every sequence of ledger operations, with crashes, restarts and an arbitrary broker. */
module Protocol {
  import opened Options
  import opened Ledger
  import opened TradeLedgers
  import opened Firewall
  import opened Lawful
  import opened Envelopes
  import opened Execution
  import opened Trace

  /** One call of the broker gateway, and the ledger its intent was written on. */
  datatype Call = Call(order: Order, before: Log)

  datatype System = System(log: Log, calls: seq<Call>)

  datatype Config = Config(cap: real, hashes: Hashes)

  datatype Crash = NoCrash | CrashBeforeCall | CrashBeforeJournal

  datatype Op =
    | Advance(tradeId: string, state: State, facts: map<string, string>, timestamp: int, eventId: string, key: string)
    | IssueOp(tradeId: string, authorizationId: string, risk: real, issuedAt: int, expiresAt: int, proof: Proof,
              eventId: string, key: string)
    | AuthorizeOp(tradeId: string, authorizationId: string, now: int, eventId: string, key: string)
    | ReserveOp(tradeId: string, authorizationId: string, amount: real, reservationId: string, now: int,
                eventId: string, key: string)
    | RevokeOp(tradeId: string, authorizationId: string, reason: string, now: int, eventId: string, key: string)
    | ReleasePreOp(tradeId: string, authorizationId: string, reservationId: string, reason: string, now: int,
                   eventId: string, key: string)
    | ReleaseOp(tradeId: string, authorizationId: string, reservationId: string, now: int, eventId: string, key: string)
    | SubmitOp(order: Order, behaviour: BrokerBehaviour, crash: Crash)
    | RecoverOp(tradeId: string, observation: Observation, eventId: string, key: string, timestamp: int)
    | IngestOp(records: seq<TraceRecord>, written: nat)
    | ReconcileOp(tradeId: string, observedHash: string, expectedHash: string, key: string, eventId: string, clock: int)
    | RestartOp

  /** The control plane's own states. */
  predicate ControlPlaneState(s: State) {
    s in {Proposed, Validated, RiskReserved}
  }

  function AdvanceEvent(tradeId: string, state: State, facts: map<string, string>, timestamp: int, eventId: string,
                        key: string): Event {
    Event(eventId, timestamp, tradeId, Some(state), ControlPlane(state), key, AdmissionFacts(facts))
  }

  /** A commit that a crash may cut short after `written` records. */
  function IngestUpTo(log: Log, records: seq<TraceRecord>, written: nat): Log {
    if (exists r :: r in records && !Normal(r)) || Rehearse(log, records).None? then log
    else Commit(log, records[..if written < |records| then written else |records|]).log
  }

  function LogAfter(c: Config, log: Log, op: Op): Log {
    match op
    case Advance(t, s, facts, ts, id, key) =>
      if ControlPlaneState(s) then Extend(log, Append(log, AdvanceEvent(t, s, facts, ts, id, key))) else log
    case IssueOp(t, a, risk, issued, expires, proof, id, key) =>
      IssueAuthorization(c.cap, log, t, a, risk, issued, expires, proof, id, key).log
    case AuthorizeOp(t, a, now, id, key) => AuthorizeTrade(log, t, a, now, id, key).log
    case ReserveOp(t, a, amount, r, now, id, key) => Reserve(log, t, a, amount, r, now, id, key).log
    case RevokeOp(t, a, reason, now, id, key) => RevokeAuthorization(log, t, a, reason, now, id, key).log
    case ReleasePreOp(t, a, r, reason, now, id, key) => ReleasePreExecution(log, t, a, r, reason, now, id, key).log
    case ReleaseOp(t, a, r, now, id, key) => ReleaseReservation(log, t, a, r, now, id, key).log
    case SubmitOp(o, b, crash) =>
      if crash == NoCrash then AfterSubmit(c.hashes, log, o, b) else AfterIntent(c.hashes, log, o)
    case RecoverOp(t, o, id, key, ts) => AfterRecovery(log, t, o, id, key, ts)
    case IngestOp(records, written) => IngestUpTo(log, records, written)
    case ReconcileOp(t, observed, expected, key, id, clock) =>
      Reconciliation(log, t, observed, expected, key, id, clock).1
    case RestartOp => log
  }

  function Exec(c: Config, s: System, op: Op): System {
    var log := LogAfter(c, s.log, op);
    if op.SubmitOp? && op.crash != CrashBeforeCall && CallsBroker(c.hashes, s.log, op.order) then
      System(log, s.calls + [Call(op.order, s.log)])
    else System(log, s.calls)
  }

  function Run(c: Config, s: System, ops: seq<Op>): System {
    if |ops| == 0 then s else Exec(c, Run(c, s, ops[..|ops| - 1]), ops[|ops| - 1])
  }

  const INITIAL := System(Genesis, [])

  // -------------------------------------------- every operation keeps the log lawful

  ghost predicate LawfulExtension(cap: real, log: Log, longer: Log) {
    IsLawful(cap, longer) && Extends(log, longer)
  }

  /** Recording an event keeps the log lawful if its type guard holds whenever it is new. */
  lemma AppendLawful(cap: real, log: Log, e: Event)
    requires IsLawful(cap, log)
    requires TypeGuard(cap, log, e)
    ensures LawfulExtension(cap, log, Extend(log, Append(log, e)))
  {
    if Append(log, e).Appended? { AppendedFollows(log, e); }
  }

  lemma IssueLawful(cap: real, log: Log, t: string, a: string, risk: real, issued: int, expires: int, proof: Proof,
                    id: string, key: string)
    requires IsLawful(cap, log)
    ensures LawfulExtension(cap, log, IssueAuthorization(cap, log, t, a, risk, issued, expires, proof, id, key).log)
  {
    var e := Event(id, issued, t, None, AuthorizationIssued, key, Issue(a, risk, issued, expires, proof));
    if IssueGuard(cap, log, e) { AppendLawful(cap, log, e); }
  }

  lemma AuthorizeWrites(log: Log, auth: Authorization, now: int, id: string, key: string)
    requires GetAuthorization(log, auth.tradeId, auth.authorizationId) == Some(auth)
    ensures var p := TradeAuthorization(auth.authorizationId, auth.expiresAt, auth.authorizedRisk);
            AuthorizeVerdict(log, auth, now, p, key).Write? ==>
              AuthorizeGuard(log, Event(id, now, auth.tradeId, Some(Authorized), TradeAuthorized, key, p))
  {
  }

  lemma AuthorizeLawful(cap: real, log: Log, t: string, a: string, now: int, id: string, key: string)
    requires IsLawful(cap, log)
    ensures LawfulExtension(cap, log, AuthorizeTrade(log, t, a, now, id, key).log)
  {
    var auth := GetAuthorization(log, t, a);
    if auth.Some? {
      AuthorizeWrites(log, auth.value, now, id, key);
      var p := TradeAuthorization(a, auth.value.expiresAt, auth.value.authorizedRisk);
      if AuthorizeVerdict(log, auth.value, now, p, key).Write? {
        AppendLawful(cap, log, Event(id, now, t, Some(Authorized), TradeAuthorized, key, p));
      }
    }
  }

  lemma RevokeWrites(log: Log, auth: Authorization, reason: string, now: int, id: string, key: string)
    requires GetAuthorization(log, auth.tradeId, auth.authorizationId) == Some(auth)
    ensures var p := Revocation(auth.authorizationId, reason, now);
            RevokeVerdict(log, auth, p, key).Write? ==>
              RevokeGuard(log, Event(id, now, auth.tradeId, None, AuthorizationRevoked, key, p))
  {
  }

  lemma RevokeLawful(cap: real, log: Log, t: string, a: string, reason: string, now: int, id: string, key: string)
    requires IsLawful(cap, log)
    ensures LawfulExtension(cap, log, RevokeAuthorization(log, t, a, reason, now, id, key).log)
  {
    var auth := GetAuthorization(log, t, a);
    if auth.Some? {
      RevokeWrites(log, auth.value, reason, now, id, key);
      var p := Revocation(a, reason, now);
      if RevokeVerdict(log, auth.value, p, key).Write? {
        AppendLawful(cap, log, Event(id, now, t, None, AuthorizationRevoked, key, p));
      }
    }
  }

  lemma ReserveWrites(log: Log, auth: Authorization, amount: real, r: string, now: int, id: string, key: string)
    requires GetAuthorization(log, auth.tradeId, auth.authorizationId) == Some(auth)
    ensures var p := Reservation(r, auth.authorizationId, amount, auth.expiresAt);
            ReserveVerdict(log, auth, amount, r, now, p, key).Write? ==>
              ReserveGuard(log, Event(id, now, auth.tradeId, None, ReservationCreated, key, p))
  {
  }

  lemma ReserveLawful(cap: real, log: Log, t: string, a: string, amount: real, r: string, now: int, id: string,
                      key: string)
    requires IsLawful(cap, log)
    ensures LawfulExtension(cap, log, Reserve(log, t, a, amount, r, now, id, key).log)
  {
    var auth := GetAuthorization(log, t, a);
    if auth.Some? {
      ReserveWrites(log, auth.value, amount, r, now, id, key);
      var p := Reservation(r, a, amount, auth.value.expiresAt);
      if ReserveVerdict(log, auth.value, amount, r, now, p, key).Write? {
        AppendLawful(cap, log, Event(id, now, t, None, ReservationCreated, key, p));
      }
    }
  }

  lemma ReleaseRecordLawful(cap: real, log: Log, t: string, a: string, r: string, status: AuthorizationStatus,
                            pre: Option<string>, now: int, id: string, key: string)
    requires IsLawful(cap, log) && !RiskBlocked(log)
    requires |Select(log, ReservedFor(t, a, r))| == 1
             && ReleaseVerdict(log, t, Release(r, a, ReservedAmount(log, t, a, r), now, status, pre), key).Write? ==>
               if pre.Some? then StateOf(log, t) == Some(Authorized) && Select(log, RevokedFor(t, a)) != []
               else StateOf(log, t) in {Some(Closed), Some(Reconciled)}
    ensures LawfulExtension(cap, log, RecordRelease(log, t, a, r, status, pre, now, id, key).log)
  {
    var p := Release(r, a, ReservedAmount(log, t, a, r), now, status, pre);
    var e := Event(id, now, t, None, ReservationReleased, key, p);
    if |Select(log, ReservedFor(t, a, r))| == 1 && ReleaseVerdict(log, t, p, key).Write? {
      AppendLawful(cap, log, e);
    }
  }

  lemma ReleasePreLawful(cap: real, log: Log, t: string, a: string, r: string, reason: string, now: int, id: string,
                         key: string)
    requires IsLawful(cap, log)
    ensures LawfulExtension(cap, log, ReleasePreExecution(log, t, a, r, reason, now, id, key).log)
  {
    var auth := GetAuthorization(log, t, a);
    if !RiskBlocked(log) && auth.Some? && auth.value.status == Revoked && StateOf(log, t) == Some(Authorized) {
      ReleaseRecordLawful(cap, log, t, a, r, auth.value.status, Some(reason), now, id, key);
    }
  }

  lemma ReleaseLawful(cap: real, log: Log, t: string, a: string, r: string, now: int, id: string, key: string)
    requires IsLawful(cap, log)
    ensures LawfulExtension(cap, log, ReleaseReservation(log, t, a, r, now, id, key).log)
  {
    var auth := GetAuthorization(log, t, a);
    if !RiskBlocked(log) && auth.Some? {
      if Select(log, ByTradeKey(t, key)) == [] {
        if StateOf(log, t) in {Some(Closed), Some(Reconciled)} {
          ReleaseRecordLawful(cap, log, t, a, r, auth.value.status, None, now, id, key);
        }
      } else {
        ReleaseRecordLawful(cap, log, t, a, r, auth.value.status, None, now, id, key);
      }
    }
  }

  lemma IntentLawful(cap: real, h: Hashes, log: Log, o: Order)
    requires IsLawful(cap, log)
    ensures LawfulExtension(cap, log, AfterIntent(h, log, o))
  {
    AppendLawful(cap, log, IntentEvent(h, o));
  }

  lemma OutcomeLawful(cap: real, h: Hashes, log: Log, o: Order, b: BrokerBehaviour)
    requires IsLawful(cap, log) && StateOf(log, o.request.tradeId) == Some(OrderSubmitted)
    ensures LawfulExtension(cap, log, AfterOutcome(h, log, o, b))
  {
    var e := OutcomeEvent(h, o, b);
    if e.Some? { AppendLawful(cap, log, e.value); }
  }

  lemma SubmitLawful(cap: real, h: Hashes, log: Log, o: Order, b: BrokerBehaviour)
    requires IsLawful(cap, log)
    ensures LawfulExtension(cap, log, AfterSubmit(h, log, o, b))
  {
    IntentLawful(cap, h, log, o);
    if CallsBroker(h, log, o) {
      LawfulIsWellFormed(cap, log);
      CallMeansNewIntent(h, log, o);
      OutcomeLawful(cap, h, AfterIntent(h, log, o), o, b);
      ExtendsTransitive(log, AfterIntent(h, log, o), AfterSubmit(h, log, o, b));
    }
  }

  /** What recovery journals fits the state it found. */
  lemma RecoveryPlanGuard(log: Log, t: string, o: Observation, id: string, key: string, ts: int)
    ensures var plan := RecoveryPlanFor(log, t, o, id, key, ts);
            plan.Journal? ==> ObservationGuard(log, plan.event)
                              && plan.event.eventType
                                 in {AcceptedRecovery, RejectedRecovery, OutcomeObservationRecovery}
  {
  }

  lemma RecoveryLawful(cap: real, log: Log, t: string, o: Observation, id: string, key: string, ts: int)
    requires IsLawful(cap, log)
    ensures LawfulExtension(cap, log, AfterRecovery(log, t, o, id, key, ts))
  {
    RecoveryPlanGuard(log, t, o, id, key, ts);
    var plan := RecoveryPlanFor(log, t, o, id, key, ts);
    if plan.Journal? { AppendLawful(cap, log, plan.event); }
  }

  lemma ReconcileLawful(cap: real, log: Log, t: string, observed: string, expected: string, key: string, id: string,
                        clock: int)
    requires IsLawful(cap, log)
    ensures LawfulExtension(cap, log, Reconciliation(log, t, observed, expected, key, id, clock).1)
  {
    if StateOf(log, t) in {Some(Closed), Some(Rejected)} {
      AppendLawful(cap, log, Event(id + ":exception", clock, t, None, ReconciliationException, key + ":exception",
                                   Snapshots(expected, observed)));
      AppendLawful(cap, log, Event(id, clock, t, Some(Reconciled), Lifecycle(Reconciled), key,
                                   Snapshots(expected, observed)));
    }
  }

  lemma {:induction false} RehearsePrefix(log: Log, records: seq<TraceRecord>, n: nat)
    requires n <= |records| && Rehearse(log, records).Some?
    ensures Rehearse(log, records[..n]).Some?
    decreases |records|
  {
    if n == |records| {
      assert records[..n] == records;
    } else {
      RehearsePrefix(log, records[..|records| - 1], n);
      assert records[..|records| - 1][..n] == records[..n];
    }
  }

  lemma {:induction false} CommitExtends(log: Log, records: seq<TraceRecord>)
    ensures Extends(log, Commit(log, records).log)
  {
    if |records| > 0 { CommitExtends(log, records[..|records| - 1]); }
  }

  lemma IngestLawful(cap: real, log: Log, records: seq<TraceRecord>, written: nat)
    requires IsLawful(cap, log)
    ensures LawfulExtension(cap, log, IngestUpTo(log, records, written))
  {
    if (forall r :: r in records ==> Normal(r)) && Rehearse(log, records).Some? {
      var part := records[..if written < |records| then written else |records|];
      RehearsePrefix(log, records, |part|);
      CommitCompletesExactly(cap, log, part);
      CommitExtends(log, part);
    }
  }

  /** Whatever is done, and wherever it is cut short, the ledger only grows and stays lawful. */
  lemma EveryOpLawful(c: Config, log: Log, op: Op)
    requires IsLawful(c.cap, log)
    ensures LawfulExtension(c.cap, log, LogAfter(c, log, op))
  {
    match op
    case Advance(t, s, facts, ts, id, key) =>
      if ControlPlaneState(s) { AppendLawful(c.cap, log, AdvanceEvent(t, s, facts, ts, id, key)); }
    case IssueOp(t, a, risk, issued, expires, proof, id, key) =>
      IssueLawful(c.cap, log, t, a, risk, issued, expires, proof, id, key);
    case AuthorizeOp(t, a, now, id, key) => AuthorizeLawful(c.cap, log, t, a, now, id, key);
    case ReserveOp(t, a, amount, r, now, id, key) => ReserveLawful(c.cap, log, t, a, amount, r, now, id, key);
    case RevokeOp(t, a, reason, now, id, key) => RevokeLawful(c.cap, log, t, a, reason, now, id, key);
    case ReleasePreOp(t, a, r, reason, now, id, key) => ReleasePreLawful(c.cap, log, t, a, r, reason, now, id, key);
    case ReleaseOp(t, a, r, now, id, key) => ReleaseLawful(c.cap, log, t, a, r, now, id, key);
    case SubmitOp(o, b, crash) => SubmitLawful(c.cap, c.hashes, log, o, b); IntentLawful(c.cap, c.hashes, log, o);
    case RecoverOp(t, o, id, key, ts) => RecoveryLawful(c.cap, log, t, o, id, key, ts);
    case IngestOp(records, written) => IngestLawful(c.cap, log, records, written);
    case ReconcileOp(t, observed, expected, key, id, clock) =>
      ReconcileLawful(c.cap, log, t, observed, expected, key, id, clock);
    case RestartOp =>
  }

  // ------------------------------------------------------- at most one submission

  /** The call was made right after its intent was written, on a ledger that justified it; the order keeps to the
      authorization on that ledger, and the intent says what was ordered. */
  predicate CallJustified(h: Hashes, log: Log, call: Call) {
    && Extends(Recorded(call.before, IntentEvent(h, call.order)), log)
    && Justified(call.before, call.order.envelope.facts, call.order.now)
    && KeepsToAuthorization(call.before, call.order) && SaysOrder(h, IntentEvent(h, call.order), call.order)
  }

  /** Every call was justified, and each was made on a ledger that already held the intents of those before it. */
  ghost predicate CallsOk(h: Hashes, log: Log, calls: seq<Call>) {
    && (forall i :: 0 <= i < |calls| ==> CallJustified(h, log, calls[i]))
    && (forall i, j :: 0 <= i < j < |calls| ==> CallJustified(h, calls[j].before, calls[i]))
  }

  ghost predicate Safe(c: Config, s: System) {
    IsLawful(c.cap, s.log) && CallsOk(c.hashes, s.log, s.calls)
  }

  lemma StillJustified(h: Hashes, log: Log, longer: Log, call: Call)
    requires Extends(log, longer) && CallJustified(h, log, call)
    ensures CallJustified(h, longer, call)
  {
    ExtendsTransitive(Recorded(call.before, IntentEvent(h, call.order)), log, longer);
  }

  lemma CallsStillOk(h: Hashes, log: Log, longer: Log, calls: seq<Call>)
    requires Extends(log, longer) && CallsOk(h, log, calls)
    ensures CallsOk(h, longer, calls)
  {
    forall i | 0 <= i < |calls| ensures CallJustified(h, longer, calls[i]) {
      StillJustified(h, log, longer, calls[i]);
    }
  }

  lemma CallAdded(c: Config, s: System, o: Order, longer: Log)
    requires Safe(c, s) && CallsBroker(c.hashes, s.log, o)
    requires Extends(s.log, longer) && Extends(AfterIntent(c.hashes, s.log, o), longer)
    ensures CallsOk(c.hashes, longer, s.calls + [Call(o, s.log)])
  {
    LawfulIsWellFormed(c.cap, s.log);
    CallMeansNewIntent(c.hashes, s.log, o);
    CallsStillOk(c.hashes, s.log, longer, s.calls);
  }

  lemma OutcomeExtends(h: Hashes, log: Log, o: Order, b: BrokerBehaviour)
    ensures Extends(AfterIntent(h, log, o), AfterSubmit(h, log, o, b))
  {
  }

  lemma ExecSafe(c: Config, s: System, op: Op)
    requires Safe(c, s)
    ensures Safe(c, Exec(c, s, op)) && Extends(s.log, Exec(c, s, op).log)
  {
    EveryOpLawful(c, s.log, op);
    var log := LogAfter(c, s.log, op);
    if op.SubmitOp? && op.crash != CrashBeforeCall && CallsBroker(c.hashes, s.log, op.order) {
      OutcomeExtends(c.hashes, s.log, op.order, op.behaviour);
      CallAdded(c, s, op.order, log);
    } else {
      CallsStillOk(c.hashes, s.log, log, s.calls);
    }
  }

  lemma {:induction false} RunSafe(c: Config, s: System, ops: seq<Op>)
    requires Safe(c, s)
    ensures Safe(c, Run(c, s, ops)) && Extends(s.log, Run(c, s, ops).log)
  {
    if |ops| > 0 {
      var before := Run(c, s, ops[..|ops| - 1]);
      RunSafe(c, s, ops[..|ops| - 1]);
      ExecSafe(c, before, ops[|ops| - 1]);
      ExtendsTransitive(s.log, before.log, Run(c, s, ops).log);
    }
  }

  lemma TwoCallsTwoTrades(h: Hashes, log: Log, a: Call, b: Call)
    requires Sound(log) && CallJustified(h, log, b) && CallJustified(h, b.before, a)
    ensures a.order.request.tradeId != b.order.request.tradeId
  {
    var second := Recorded(b.before, IntentEvent(h, b.order));
    ExtendsSound(second, log);
    if a.order.request.tradeId == b.order.request.tradeId {
      EnteredOnce(Recorded(a.before, IntentEvent(h, a.order)), second);
    }
  }

  /** In every run, with any crashes and any broker: each call follows its durable intent on a ledger that
      justified it, and no trade reaches the broker twice. */
  lemma SubmittedAtMostOnce(c: Config, ops: seq<Op>)
    ensures var s := Run(c, INITIAL, ops);
            && (forall i :: 0 <= i < |s.calls| ==> CallJustified(c.hashes, s.log, s.calls[i]))
            && (forall i, j :: 0 <= i < j < |s.calls| ==>
                  s.calls[i].order.request.tradeId != s.calls[j].order.request.tradeId)
  {
    RunSafe(c, INITIAL, ops);
    var s := Run(c, INITIAL, ops);
    LawfulIsWellFormed(c.cap, s.log);
    forall i, j | 0 <= i < j < |s.calls|
      ensures s.calls[i].order.request.tradeId != s.calls[j].order.request.tradeId
    {
      TwoCallsTwoTrades(c.hashes, s.log, s.calls[i], s.calls[j]);
    }
  }

  /** In every run that issues authorizations in order, the authorized risk keeps the cap at every instant. */
  lemma RunKeepsCap(c: Config, ops: seq<Op>)
    requires c.cap >= 0.0 && IssuedInOrder(Run(c, INITIAL, ops).log)
    ensures KeepsCap(c.cap, Run(c, INITIAL, ops).log)
    ensures forall t :: TotalAuthorizedRiskAt(Run(c, INITIAL, ops).log, t) == Some(RiskAt(Run(c, INITIAL, ops).log, t))
  {
    RunSafe(c, INITIAL, ops);
    var log := Run(c, INITIAL, ops).log;
    CapAtEveryInstant(c.cap, log);
    forall t ensures TotalAuthorizedRiskAt(log, t) == Some(RiskAt(log, t)) { TotalIsPlainSum(c.cap, log, t); }
  }
}
