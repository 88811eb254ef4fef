/** Which broker observations settle a submitted order, and what the unresolved ones leave behind. */
module Recovery {
  import opened Options
  import opened Ledger
  import opened Envelopes
  import opened Execution

  /** A submitted trade has exactly one submission on record, whoever wrote it. */
  lemma {:induction false} OneSubmission(log: Log, t: string)
    requires Sound(log) && StateOf(log, t) == Some(OrderSubmitted)
    ensures |Select(log, SubmissionState(t))| == 1
  {
    var e := log.last;
    if e.tradeId == t && e.state.Some? {
      FromAuthorized(log.before, e);
      if Select(log.before, SubmissionState(t)) != [] { SubmittedIsPastAuthorized(log.before, t); }
    } else {
      OneSubmission(log.before, t);
    }
  }

  lemma FromAuthorized(log: Log, e: Event)
    requires LegalNext(log, e) && e.state == Some(OrderSubmitted)
    ensures StateOf(log, e.tradeId) == Some(Authorized)
  {
  }

  // ------------------------------------------------------- what settles a trade

  predicate Final(o: Observation) {
    o.status in {"ACCEPTED", "REJECTED"}
  }

  predicate UsableVolumes(submitted: real, observed: Option<real>) {
    0.0 <= submitted && (observed.Some? ==> 0.0 <= observed.value && Close(submitted, observed.value))
  }

  /** The observation is about the order that was submitted.  A submission known from a trace has no symbol and no
      timeframe, so that an observation giving either is about another order. */
  predicate AboutSubmission(o: Observation, submission: Payload) {
    match submission
    case Submitted(s) =>
      && o.symbol == Some(s.symbol) && o.side == Some(s.side) && o.timeframe in {None, Some(s.timeframe)}
      && UsableVolumes(s.volume, o.volume)
    case TraceFields(f) =>
      && o.symbol.None? && o.side == TextField(f, Side) && o.timeframe.None?
      && NumberField(f, Volume).Some? && UsableVolumes(NumberField(f, Volume).value, o.volume)
    case _ => false
  }

  /** An acceptance names its order and deal, a refusal names no deal. */
  predicate NamesItsDeal(o: Observation) {
    if o.status == "ACCEPTED" then o.orderId != "" && Named(o.dealId) else !Named(o.dealId)
  }

  function SettledAs(o: Observation): State {
    if o.status == "ACCEPTED" then Accepted else Rejected
  }

  lemma PlanExactly(log: Log, t: string, o: Observation, id: string, key: string, ts: int)
    requires StateOf(log, t) == Some(OrderSubmitted) && |Select(log, SubmissionState(t))| == 1 && Final(o)
    ensures var plan := RecoveryPlanFor(log, t, o, id, key, ts);
            && (plan.Journal? <==> AboutSubmission(o, Select(log, SubmissionState(t))[0].payload) && NamesItsDeal(o))
            && (plan.Journal? ==> plan.event.eventId == id && plan.event.key == key && plan.event.tradeId == t
                                  && plan.event.state == Some(SettledAs(o))
                                  && plan.event.eventType in {AcceptedRecovery, RejectedRecovery})
  {
    var submission := Select(log, SubmissionState(t))[0].payload;
    ViewExactly(o, submission);
  }

  lemma ViewExactly(o: Observation, submission: Payload)
    ensures var v := ViewOf(submission);
            AboutSubmission(o, submission) <==>
            && o.symbol == v.symbol && o.side == v.side && (o.timeframe.Some? ==> o.timeframe == v.timeframe)
            && v.volume.Some? && UsableVolumes(v.volume.value, o.volume)
  {
  }

  /** On every sound ledger a final observation settles a submitted trade exactly when it is about the one submission
      on record, names its deal as its status demands, and comes under a new key and id; else the trade stays
      submitted.  In particular one that names a symbol never settles a submission known only from a trace. */
  lemma RecoverySettlesExactly(log: Log, t: string, o: Observation, id: string, key: string, ts: int)
    requires Sound(log) && StateOf(log, t) == Some(OrderSubmitted) && t != "" && Final(o)
    ensures |Select(log, SubmissionState(t))| == 1
    ensures var settles := && AboutSubmission(o, Select(log, SubmissionState(t))[0].payload) && NamesItsDeal(o)
                           && id != "" && key != "" && FreshKey(log, key) && FreshId(log, id);
            StateOf(AfterRecovery(log, t, o, id, key, ts), t) == Some(if settles then SettledAs(o) else OrderSubmitted)
  {
    OneSubmission(log, t);
    PlanExactly(log, t, o, id, key, ts);
    var plan := RecoveryPlanFor(log, t, o, id, key, ts);
    if plan.Journal? { AppendedExactly(log, plan.event); }
  }

  /** Whatever the observation says: recovery writes exactly when the trade is submitted, the status is one of the five,
      the observation is about the submission, a final one names its deal as it must, and the names are new. */
  lemma RecoveryWritesExactly(log: Log, t: string, o: Observation, id: string, key: string, ts: int)
    requires Sound(log) && t != ""
    ensures AfterRecovery(log, t, o, id, key, ts) != log <==>
              && StateOf(log, t) == Some(OrderSubmitted)
              && (Final(o) || o.status == "UNKNOWN" || o.status == "PENDING" || o.status == "PARTIAL")
              && |Select(log, SubmissionState(t))| == 1
              && AboutSubmission(o, Select(log, SubmissionState(t))[0].payload)
              && (Final(o) ==> NamesItsDeal(o)) && NewNames(log, id, key)
  {
    if StateOf(log, t) == Some(OrderSubmitted) {
      OneSubmission(log, t);
      ViewExactly(o, Select(log, SubmissionState(t))[0].payload);
      var plan := RecoveryPlanFor(log, t, o, id, key, ts);
      if plan.Journal? { AppendedExactly(log, plan.event); }
    }
  }

  /** What it writes repeats the submission's own identity and what the broker said, with the status of an observation
      that settles nothing. */
  lemma RecoveryRecords(log: Log, t: string, o: Observation, id: string, key: string, ts: int)
    ensures var after := AfterRecovery(log, t, o, id, key, ts);
            after != log ==>
              && after.Recorded? && after.before == log && after.last.payload.RecoveryReport?
              && after.last.tradeId == t && after.last.eventId == id && after.last.key == key
              && after.last.timestamp == ts
              && var f := after.last.payload.recovered;
                 && f.symbol == o.symbol && f.side == o.side && (o.timeframe.Some? ==> f.timeframe == o.timeframe)
                 && f.orderId == o.orderId && f.retcode == o.retcode && f.reason == o.reason
                 && f.dealId == (if Named(o.dealId) then o.dealId else None)
                 && (f.recoveryStatus == if Final(o) then None else Some(o.status))
                 && |Select(log, SubmissionState(t))| == 1
                 && var p := Select(log, SubmissionState(t))[0].payload;
                    (p.Submitted? ==>
                       && f.authorizationId == Some(p.submission.authorizationId)
                       && f.reservationId == Some(p.submission.reservationId)
                       && f.requestHash == Some(p.submission.requestHash)
                       && f.timeframe == Some(p.submission.timeframe) && f.volume == p.submission.volume)
  {
    var plan := RecoveryPlanFor(log, t, o, id, key, ts);
    if plan.Journal? { AppendedExactly(log, plan.event); }
  }

  // ------------------------------------------------ what unresolved observations leave

  /** Trouble on record keeps its trade unresolved until the trade is reconciled. */
  lemma {:induction false} TroubleStays(log: Log, e: Event)
    requires Sound(log) && Has(log, e) && LeavesUnresolved(e.eventType) && StateOf(log, e.tradeId) != Some(Reconciled)
    ensures e.tradeId in Unresolved(log)
  {
    if log.last != e { TroubleStays(log.before, e); }
  }

  /** An observation that settles nothing leaves the trade submitted and, if it was taken, unresolved. */
  lemma UnresolvedObservation(log: Log, t: string, o: Observation, id: string, key: string, ts: int)
    requires Sound(log) && StateOf(log, t) == Some(OrderSubmitted) && !Final(o)
    ensures var plan := RecoveryPlanFor(log, t, o, id, key, ts);
            && StateOf(AfterRecovery(log, t, o, id, key, ts), t) == Some(OrderSubmitted)
            && (plan.Journal? && !Append(log, plan.event).Refused?
                ==> t in Unresolved(AfterRecovery(log, t, o, id, key, ts)))
  {
    var plan := RecoveryPlanFor(log, t, o, id, key, ts);
    if plan.Journal? {
      AppendedExactly(log, plan.event);
      if Append(log, plan.event).Existing? {
        ExistingIsOnRecord(log, plan.event);
        TroubleStays(log, Append(log, plan.event).event);
      }
    }
  }

  // ------------------------------------------------------ what the adapter's caller learns

  /** A broker call was preceded by a new intent, on any sound ledger. */
  lemma CallOnSound(h: Hashes, log: Log, o: Order)
    requires Sound(log) && CallsBroker(h, log, o)
    ensures AfterIntent(h, log, o) == Recorded(log, IntentEvent(h, o)) && Sound(AfterIntent(h, log, o))
    ensures StateOf(AfterIntent(h, log, o), o.request.tradeId) == Some(OrderSubmitted)
            && !RiskBlocked(AfterIntent(h, log, o))
  {
    var e := IntentEvent(h, o);
    AppendedExactly(log, e);
    if Append(log, e).Existing? {
      ExistingIsOnRecord(log, e);
      SubmittedAlready(log, Append(log, e).event);
    }
  }

  /** A journal entry that was not refused says where the trade is now, and whether it is unresolved. */
  lemma JournalTells(log: Log, e: Event)
    requires Sound(log) && StateOf(log, e.tradeId) == Some(OrderSubmitted) && !Append(log, e).Refused?
    requires e.state in {None, Some(Accepted), Some(Rejected)}
    ensures var after := Extend(log, Append(log, e));
            && StateOf(after, e.tradeId) == (if e.state.Some? then e.state else Some(OrderSubmitted))
            && (LeavesUnresolved(e.eventType) || e.state == Some(Rejected) ==> e.tradeId in Unresolved(after))
  {
    AppendedExactly(log, e);
    if Append(log, e).Existing? {
      var known := Append(log, e).event;
      ExistingIsOnRecord(log, e);
      if e.state.Some? {
        StateReached(log, known);
      } else if LeavesUnresolved(e.eventType) {
        TroubleStays(log, known);
      }
    }
  }
}
