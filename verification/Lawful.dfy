/** What one event of each type is allowed to assume about the log before it, and what every
    log whose events respect that keeps: at most one issue and one revocation per authorization,
    the risk cap at every instant, reservations within their authorization, capital held from
    submission to close. */
module Lawful {
  import opened Options
  import opened Ledger
  import opened Firewall

  // ------------------------------------------------------------------ guards

  predicate IssueGuard(cap: real, log: Log, e: Event) {
    && e.state.None? && IsIssue(e)
    && 0.0 < e.payload.authorizedRisk <= cap
    && e.payload.issuedAt < e.payload.expiresAt <= e.payload.issuedAt + MAX_AUTHORIZATION_LIFETIME
    && e.payload.proof.riskAuthorizationId == e.payload.authorizationId
    && e.payload.proof.authorizationExpiry == e.payload.expiresAt
    && !RiskBlocked(log)
    && StateOf(log, e.tradeId) == Some(RiskReserved)
    && Select(log, IssuedFor(e.tradeId, e.payload.authorizationId)) == []
    && RiskAt(log, e.payload.issuedAt) + e.payload.authorizedRisk <= cap
  }

  predicate CurrentFor(log: Log, tradeId: string, authorizationId: string, now: int) {
    var a := GetAuthorization(log, tradeId, authorizationId);
    a.Some? && a.value.status == Active && now < a.value.expiresAt
  }

  predicate AuthorizeGuard(log: Log, e: Event) {
    && e.state == Some(Authorized) && e.payload.TradeAuthorization?
    && !RiskBlocked(log)
    && CurrentFor(log, e.tradeId, e.payload.authorizationId, e.timestamp)
  }

  predicate RevokeGuard(log: Log, e: Event) {
    && e.state.None? && e.payload.Revocation?
    && !RiskBlocked(log)
    && StateOf(log, e.tradeId) in {Some(Authorized), Some(OrderSubmitted), Some(Accepted)}
    && |Select(log, IssuedFor(e.tradeId, e.payload.authorizationId))| == 1
    && Select(log, RevokedFor(e.tradeId, e.payload.authorizationId)) == []
  }

  predicate ReserveGuard(log: Log, e: Event) {
    && e.state.None? && e.payload.Reservation?
    && !RiskBlocked(log)
    && StateOf(log, e.tradeId) == Some(Authorized)
    && CurrentFor(log, e.tradeId, e.payload.authorizationId, e.timestamp)
    && Select(log, ReservedAs(e.tradeId, e.payload.reservationId)) == []
    && 0.0 < e.payload.amount
    && var a := GetAuthorization(log, e.tradeId, e.payload.authorizationId).value;
       e.payload.expiresAt == a.expiresAt
       && ActiveReserved(log, e.tradeId, e.payload.authorizationId) + e.payload.amount <= a.authorizedRisk
  }

  predicate ReleaseGuard(log: Log, e: Event) {
    && e.state.None? && e.payload.Release?
    && !RiskBlocked(log)
    && |Select(log, ReservedFor(e.tradeId, e.payload.authorizationId, e.payload.reservationId))| == 1
    && if e.payload.preExecution.Some? then
         StateOf(log, e.tradeId) == Some(Authorized)
         && Select(log, RevokedFor(e.tradeId, e.payload.authorizationId)) != []
       else StateOf(log, e.tradeId) in {Some(Closed), Some(Reconciled)}
  }

  predicate ObservationGuard(log: Log, e: Event) {
    match e.eventType
    case Lifecycle(s) =>
      e.state == Some(s) && s in {OrderSubmitted, Accepted, Filled, Open, Managed, Closed, Reconciled}
    case OrderRejected => e.state == Some(Rejected)
    case AcceptedRecovery => e.state == Some(Accepted)
    case RejectedRecovery => e.state == Some(Rejected)
    case ReconciliationException => e.state.None? && StateOf(log, e.tradeId) in {Some(Closed), Some(Rejected)}
    case OutcomeUnknown => e.state.None? && StateOf(log, e.tradeId) == Some(OrderSubmitted)
    case PartialObserved => e.state.None? && StateOf(log, e.tradeId) == Some(OrderSubmitted)
    case OrderPending => e.state.None? && StateOf(log, e.tradeId) == Some(OrderSubmitted)
    case OutcomeObservationRecovery => e.state.None? && StateOf(log, e.tradeId) == Some(OrderSubmitted)
    case _ => false
  }

  /** What the log before `e` must satisfy for `e` to be recorded by the protocol. */
  predicate TypeGuard(cap: real, log: Log, e: Event) {
    match e.eventType
    case ControlPlane(s) => e.state == Some(s) && s in {Proposed, Validated, RiskReserved}
    case AuthorizationIssued => IssueGuard(cap, log, e)
    case TradeAuthorized => AuthorizeGuard(log, e)
    case AuthorizationRevoked => RevokeGuard(log, e)
    case ReservationCreated => ReserveGuard(log, e)
    case ReservationReleased => ReleaseGuard(log, e)
    case _ => ObservationGuard(log, e)
  }

  predicate Guard(cap: real, log: Log, e: Event) {
    Identified(e) && Follows(log, e) && TypeGuard(cap, log, e)
  }

  /** A log each of whose events was allowed by the events before it. */
  predicate IsLawful(cap: real, log: Log) {
    log.Genesis? || (IsLawful(cap, log.before) && Guard(cap, log.before, log.last))
  }

  lemma {:induction false} ExtendsLawful(cap: real, log: Log, longer: Log)
    requires Extends(log, longer) && IsLawful(cap, longer)
    ensures IsLawful(cap, log)
  {
    if longer != log { ExtendsLawful(cap, log, longer.before); }
  }

  lemma {:induction false} LawfulIsWellFormed(cap: real, log: Log)
    requires IsLawful(cap, log)
    ensures WellFormed(log) && Sound(log)
  {
    if log.Recorded? { LawfulIsWellFormed(cap, log.before); }
  }

  // ------------------------------------------- issue and revocation are unique

  lemma {:induction false} IssuedOnceRevokedOnce(cap: real, log: Log, t: string, a: string)
    requires IsLawful(cap, log)
    ensures |Select(log, RevokedFor(t, a))| <= |Select(log, IssuedFor(t, a))| <= 1
  {
    if log.Recorded? { IssuedOnceRevokedOnce(cap, log.before, t, a); }
  }

  lemma {:induction false} ReservedOnce(cap: real, log: Log, t: string, r: string)
    requires IsLawful(cap, log)
    ensures |Select(log, ReservedAs(t, r))| <= 1
  {
    if log.Recorded? { ReservedOnce(cap, log.before, t, r); }
  }

  lemma {:induction false} FewerUntil(log: Log, t: string, a: string, asOf: int)
    ensures |Select(log, RevokedUntil(t, a, asOf))| <= |Select(log, RevokedFor(t, a))|
  {
    if log.Recorded? { FewerUntil(log.before, t, a, asOf); }
  }

  lemma {:induction false} IssuesArePositive(cap: real, log: Log)
    requires IsLawful(cap, log)
    ensures forall e :: Has(log, e) && IsIssue(e) ==> 0.0 < e.payload.authorizedRisk <= cap
  {
    if log.Recorded? { IssuesArePositive(cap, log.before); }
  }

  lemma {:induction false} CountableParts(cap: real, part: Log, log: Log, t: int)
    requires IsLawful(cap, log) && Extends(part, log)
    requires forall e :: Has(log, e) && IsIssue(e) ==> e.payload.authorizedRisk > 0.0
    ensures Countable(part, log, t)
  {
    if part.Recorded? {
      ExtendsTransitive(part.before, part, log);
      CountableParts(cap, part.before, log, t);
      var e := part.last;
      ExtendsHas(part, log, e);
      if IsIssue(e) {
        IssuedOnceRevokedOnce(cap, log, e.tradeId, e.payload.authorizationId);
        FewerUntil(log, e.tradeId, e.payload.authorizationId, t);
        Selected(log, IssuedFor(e.tradeId, e.payload.authorizationId), e);
      }
    }
  }

  /** On a lawful log the total is never refused as ambiguous: it is the plain sum. */
  lemma TotalIsPlainSum(cap: real, log: Log, t: int)
    requires IsLawful(cap, log)
    ensures TotalAuthorizedRiskAt(log, t) == Some(RiskAt(log, t))
  {
    IssuesArePositive(cap, log);
    CountableParts(cap, log, log, t);
  }

  // ------------------------------------------------------ the cap at every instant

  ghost predicate KeepsCap(cap: real, log: Log) {
    forall t :: RiskAt(log, t) <= cap
  }

  lemma LiveAfterOther(log: Log, e: Event, x: Event, t: int)
    ensures Live(Recorded(log, e), x, t) ==> Live(log, x, t)
    ensures e.eventType != AuthorizationRevoked ==> Live(Recorded(log, e), x, t) == Live(log, x, t)
  {
  }

  lemma {:induction false} LiveRiskAfter(part: Log, log: Log, e: Event, t: int)
    requires forall x :: Has(part, x) && IsIssue(x) ==> x.payload.authorizedRisk > 0.0
    ensures LiveRisk(part, Recorded(log, e), t) <= LiveRisk(part, log, t)
    ensures e.eventType != AuthorizationRevoked ==> LiveRisk(part, Recorded(log, e), t) == LiveRisk(part, log, t)
  {
    if part.Recorded? {
      assert Has(part, part.last);
      LiveRiskAfter(part.before, log, e, t);
      LiveAfterOther(log, e, part.last, t);
    }
  }

  lemma RiskAtSnoc(cap: real, log: Log, e: Event, t: int)
    requires IsLawful(cap, log) && Guard(cap, log, e)
    ensures !IsIssue(e) ==> RiskAt(Recorded(log, e), t) <= RiskAt(log, t)
    ensures IsIssue(e) ==>
              RiskAt(Recorded(log, e), t) == RiskAt(log, t) + if InWindow(e, t) then e.payload.authorizedRisk else 0.0
  {
    IssuesArePositive(cap, log);
    LiveRiskAfter(log, log, e, t);
    if IsIssue(e) {
      IssuedOnceRevokedOnce(cap, log, e.tradeId, e.payload.authorizationId);
      FewerUntil(log, e.tradeId, e.payload.authorizationId, t);
    }
  }

  /** What a revocation recorded now takes away at instant `s`. */
  function Withdrawn(part: Log, log: Log, t: string, a: string, revokedAt: int, s: int): real {
    var issued := Select(part, IssuedFor(t, a));
    if revokedAt <= s && issued != [] && Live(log, issued[0], s) then issued[0].payload.authorizedRisk else 0.0
  }

  lemma LiveAfterRevocation(log: Log, e: Event, x: Event, s: int)
    requires e.eventType == AuthorizationRevoked && e.payload.Revocation?
    ensures Live(Recorded(log, e), x, s) <==>
              Live(log, x, s)
              && !(x.tradeId == e.tradeId && x.payload.authorizationId == e.payload.authorizationId
                   && e.payload.revokedAt <= s)
  {
  }

  lemma {:induction false} RiskWithdrawn(part: Log, log: Log, e: Event, s: int)
    requires e.eventType == AuthorizationRevoked && e.payload.Revocation?
    requires |Select(part, IssuedFor(e.tradeId, e.payload.authorizationId))| <= 1
    ensures LiveRisk(part, Recorded(log, e), s)
         == LiveRisk(part, log, s) - Withdrawn(part, log, e.tradeId, e.payload.authorizationId, e.payload.revokedAt, s)
  {
    if part.Recorded? {
      RiskWithdrawn(part.before, log, e, s);
      LiveAfterRevocation(log, e, part.last, s);
    }
  }

  /** Every lawful event moves the authorized risk of every instant by exactly this: an issue adds its risk from its
      issue to its expiry, a revocation takes the risk away from its own instant to that expiry, nothing else
      matters. */
  lemma RiskMoves(cap: real, log: Log, e: Event, s: int)
    requires IsLawful(cap, log) && Guard(cap, log, e)
    ensures e.eventType == AuthorizationIssued ==>
              RiskAt(Recorded(log, e), s)
              == RiskAt(log, s) + if e.payload.issuedAt <= s < e.payload.expiresAt then e.payload.authorizedRisk
                else 0.0
    ensures e.eventType == AuthorizationRevoked ==>
              var issued := Select(log, IssuedFor(e.tradeId, e.payload.authorizationId));
              && |issued| == 1 && issued[0].payload.Issue?
              && RiskAt(Recorded(log, e), s)
                 == RiskAt(log, s)
                    - if issued[0].payload.issuedAt <= s < issued[0].payload.expiresAt && e.payload.revokedAt <= s
                      then issued[0].payload.authorizedRisk else 0.0
    ensures e.eventType != AuthorizationIssued && e.eventType != AuthorizationRevoked ==>
              RiskAt(Recorded(log, e), s) == RiskAt(log, s)
  {
    IssuesArePositive(cap, log);
    if e.eventType == AuthorizationRevoked {
      IssuedOnceRevokedOnce(cap, log, e.tradeId, e.payload.authorizationId);
      SelectHead(log, IssuedFor(e.tradeId, e.payload.authorizationId));
      RevokedIssueWasLive(cap, log, e, s);
      RiskWithdrawn(log, log, e, s);
    } else {
      RiskAtSnoc(cap, log, e, s);
      LiveRiskAfter(log, log, e, s);
    }
  }

  lemma RevokedIssueWasLive(cap: real, log: Log, e: Event, s: int)
    requires IsLawful(cap, log) && Guard(cap, log, e) && e.eventType == AuthorizationRevoked
    ensures var issued := Select(log, IssuedFor(e.tradeId, e.payload.authorizationId));
            && |issued| == 1 && IsIssue(issued[0]) && (Live(log, issued[0], s) <==> InWindow(issued[0], s))
  {
    SelectHead(log, IssuedFor(e.tradeId, e.payload.authorizationId));
    IssueHasId(cap, log, Select(log, IssuedFor(e.tradeId, e.payload.authorizationId))[0]);
    FewerUntil(log, e.tradeId, e.payload.authorizationId, s);
  }

  /** The newest issue instant, from `floor` on, among the events of `part` live at `t`. */
  function LatestStart(part: Log, log: Log, t: int, floor: int): (u: int)
    requires floor <= t
    ensures floor <= u <= t
    ensures u == floor || exists x :: Has(part, x) && IsIssue(x) && x.payload.issuedAt == u
    ensures forall x :: Has(part, x) && Live(log, x, t) ==> x.payload.issuedAt <= u
  {
    if part.Genesis? then floor
    else
      var u, x := LatestStart(part.before, log, t, floor), part.last;
      assert Has(part, x) && forall y :: Has(part.before, y) ==> Has(part, y);
      if Live(log, x, t) && x.payload.issuedAt > u then x.payload.issuedAt else u
  }

  lemma {:induction false} EarlierCarriesMore(part: Log, log: Log, u: int, t: int)
    requires u <= t
    requires forall x :: Has(part, x) && IsIssue(x) ==> x.payload.authorizedRisk > 0.0
    requires forall x :: Has(part, x) && Live(log, x, t) ==> x.payload.issuedAt <= u
    ensures LiveRisk(part, log, t) <= LiveRisk(part, log, u)
  {
    if part.Recorded? {
      var x := part.last;
      assert Has(part, x);
      EarlierCarriesMore(part.before, log, u, t);
      if Live(log, x, t) { StillLive(log, x, u, t); }
    }
  }

  lemma StillLive(log: Log, x: Event, u: int, t: int)
    requires Live(log, x, t) && x.payload.issuedAt <= u <= t
    ensures Live(log, x, u)
  {
    var early := RevokedUntil(x.tradeId, x.payload.authorizationId, u);
    SelectHead(log, early);
    if Select(log, early) != [] {
      Selected(log, RevokedUntil(x.tradeId, x.payload.authorizationId, t), Select(log, early)[0]);
    }
  }

  /** The load at any instant is reached or exceeded at an earlier issue instant (or at `floor`). */
  lemma PeakAtIssueInstant(cap: real, log: Log, t: int, floor: int) returns (u: int)
    requires IsLawful(cap, log) && floor <= t
    ensures floor <= u <= t && RiskAt(log, t) <= RiskAt(log, u)
    ensures u == floor || exists x :: Has(log, x) && IsIssue(x) && x.payload.issuedAt == u
  {
    u := LatestStart(log, log, t, floor);
    IssuesArePositive(cap, log);
    EarlierCarriesMore(log, log, u, t);
  }

  /** The check a caller could make before issuing: does the new authorization also fit
      at every later issue instant inside its own window? */
  ghost predicate FitsLaterIssues(cap: real, log: Log, e: Event)
    requires IsIssue(e)
  {
    forall x :: Has(log, x) && IsIssue(x) && e.payload.issuedAt < x.payload.issuedAt < e.payload.expiresAt ==>
      RiskAt(log, x.payload.issuedAt) + e.payload.authorizedRisk <= cap
  }

  /** The firewall checks the cap only at the instant of issue.  That keeps the cap at every instant
      exactly when the new authorization also fits at the later issue instants in its window. */
  lemma IssueKeepsCapExactly(cap: real, log: Log, e: Event)
    requires IsLawful(cap, log) && KeepsCap(cap, log)
    requires e.eventType == AuthorizationIssued && Guard(cap, log, e)
    ensures KeepsCap(cap, Recorded(log, e)) <==> FitsLaterIssues(cap, log, e)
  {
    var longer := Recorded(log, e);
    if FitsLaterIssues(cap, log, e) {
      forall t ensures RiskAt(longer, t) <= cap {
        RiskAtSnoc(cap, log, e, t);
        assert RiskAt(log, t) <= cap;
        if InWindow(e, t) { var u := PeakAtIssueInstant(cap, log, t, e.payload.issuedAt); }
      }
    }
    if KeepsCap(cap, longer) {
      forall x | Has(log, x) && IsIssue(x) && e.payload.issuedAt < x.payload.issuedAt < e.payload.expiresAt
        ensures RiskAt(log, x.payload.issuedAt) + e.payload.authorizedRisk <= cap
      {
        RiskAtSnoc(cap, log, e, x.payload.issuedAt);
        assert RiskAt(longer, x.payload.issuedAt) <= cap;
      }
    }
  }

  /** Authorizations recorded in the order of their issue instants. */
  ghost predicate IssuedInOrder(log: Log) {
    log.Genesis? ||
    (IssuedInOrder(log.before) &&
     (IsIssue(log.last) ==>
        forall x :: Has(log.before, x) && IsIssue(x) ==> x.payload.issuedAt <= log.last.payload.issuedAt))
  }

  /** Issued in order, the authorized risk is within the cap at every instant, past, present and future. */
  lemma {:induction false} CapAtEveryInstant(cap: real, log: Log)
    requires cap >= 0.0 && IsLawful(cap, log) && IssuedInOrder(log)
    ensures KeepsCap(cap, log)
  {
    if log.Recorded? {
      CapAtEveryInstant(cap, log.before);
      if IsIssue(log.last) {
        IssueKeepsCapExactly(cap, log.before, log.last);
      } else {
        forall t ensures RiskAt(log, t) <= cap {
          RiskAtSnoc(cap, log.before, log.last, t);
          assert RiskAt(log.before, t) <= cap;
        }
      }
    }
  }

  /** The cap held after every event of the history. */
  ghost predicate CapAlwaysKept(cap: real, log: Log) {
    KeepsCap(cap, log) && (log.Recorded? ==> CapAlwaysKept(cap, log.before))
  }

  /** Each authorization also fitted at the later issue instants in its window when it was issued. */
  ghost predicate EveryIssueFitted(cap: real, log: Log) {
    log.Genesis? ||
    (EveryIssueFitted(cap, log.before) && (IsIssue(log.last) ==> FitsLaterIssues(cap, log.before, log.last)))
  }

  /** Over a whole history, in any order: the cap was kept throughout exactly when every authorization fitted. */
  lemma {:induction false} CapAlwaysKeptExactly(cap: real, log: Log)
    requires cap >= 0.0 && IsLawful(cap, log)
    ensures CapAlwaysKept(cap, log) <==> EveryIssueFitted(cap, log)
  {
    if log.Recorded? {
      CapAlwaysKeptExactly(cap, log.before);
      if CapAlwaysKept(cap, log.before) {
        if IsIssue(log.last) {
          IssueKeepsCapExactly(cap, log.before, log.last);
        } else {
          forall t ensures RiskAt(log, t) <= cap {
            RiskAtSnoc(cap, log.before, log.last, t);
            assert RiskAt(log.before, t) <= cap;
          }
        }
      }
    }
  }

  // ------------------------------------------------ reservations and releases

  lemma {:induction false} HeldSkipUnused(log: Log, t: string, a: string, skip: set<string>, r: string)
    requires forall e :: Has(log, e) && IsReservation(e, t, a) ==> e.payload.reservationId != r
    ensures HeldExcept(log, t, a, skip + {r}) == HeldExcept(log, t, a, skip)
  {
    if log.Recorded? {
      var e := log.last;
      assert Has(log, e);
      if IsReservation(e, t, a) && e.payload.reservationId !in skip {
        HeldSkipUnused(log.before, t, a, skip + {e.payload.reservationId}, r);
        assert skip + {r} + {e.payload.reservationId} == skip + {e.payload.reservationId} + {r};
      } else {
        HeldSkipUnused(log.before, t, a, skip, r);
      }
    }
  }

  /** Skipping one more reservation lowers the sum by what was held under it, never raises it. */
  lemma {:induction false} HeldSkipMore(cap: real, log: Log, t: string, a: string, skip: set<string>, r: string)
    requires IsLawful(cap, log)
    ensures HeldExcept(log, t, a, skip + {r}) <= HeldExcept(log, t, a, skip)
    ensures HeldExcept(log, t, a, skip) >= 0.0
    ensures forall e :: Has(log, e) && IsReservation(e, t, a) && e.payload.reservationId == r && r !in skip ==>
              HeldExcept(log, t, a, skip) == e.payload.amount + HeldExcept(log, t, a, skip + {r})
  {
    if log.Recorded? {
      var e := log.last;
      if IsReservation(e, t, a) && e.payload.reservationId !in skip {
        var id := e.payload.reservationId;
        HeldSkipMore(cap, log.before, t, a, skip + {id}, r);
        assert skip + {r} + {id} == skip + {id} + {r};
        NoEarlierReservation(log.before, e);
        if id == r { assert skip + {r} + {id} == skip + {id}; }
      } else {
        HeldSkipMore(cap, log.before, t, a, skip, r);
      }
    }
  }

  lemma NoEarlierReservation(log: Log, e: Event)
    requires e.payload.Reservation? && Select(log, ReservedAs(e.tradeId, e.payload.reservationId)) == []
    ensures forall x, a ::
              Has(log, x) && IsReservation(x, e.tradeId, a) ==> x.payload.reservationId != e.payload.reservationId
  {
    SelectExactly(log, ReservedAs(e.tradeId, e.payload.reservationId));
  }

  lemma {:induction false} ReleasedWasReserved(cap: real, log: Log, t: string, a: string, r: string)
    requires IsLawful(cap, log) && r in ReleasedIds(log, t, a)
    ensures Select(log, ReservedFor(t, a, r)) != []
  {
    if r in ReleasedIds(log.before, t, a) { ReleasedWasReserved(cap, log.before, t, a, r); }
  }

  /** The amount recorded for a reservation. */
  function ReservedAmount(log: Log, t: string, a: string, r: string): real {
    var created := Select(log, ReservedFor(t, a, r));
    if created == [] then 0.0 else SelectHead(log, ReservedFor(t, a, r)); created[0].payload.amount
  }

  /** The capital held under an authorization moves only by a reservation, by its amount, and by the
      first release of a reservation, by the amount that was reserved; a second release frees nothing. */
  lemma HeldAfter(cap: real, log: Log, e: Event, t: string, a: string)
    requires IsLawful(cap, log) && Guard(cap, log, e)
    ensures ActiveReserved(Recorded(log, e), t, a) == ActiveReserved(log, t, a) +
              if IsReservation(e, t, a) then e.payload.amount
              else if IsRelease(e, t, a) && e.payload.reservationId !in ReleasedIds(log, t, a)
              then -ReservedAmount(log, t, a, e.payload.reservationId)
              else 0.0
  {
    var skip := ReleasedIds(log, t, a);
    assert skip + {} == skip;
    if IsReservation(e, t, a) {
      HeldAfterReservation(cap, log, e, t, a);
    } else if IsRelease(e, t, a) {
      var r := e.payload.reservationId;
      if r in skip {
        assert skip + {r} == skip;
      } else {
        SelectHead(log, ReservedFor(t, a, r));
        HeldSkipMore(cap, log, t, a, skip, r);
      }
    }
  }

  lemma HeldAfterReservation(cap: real, log: Log, e: Event, t: string, a: string)
    requires IsLawful(cap, log) && Guard(cap, log, e) && IsReservation(e, t, a)
    ensures ActiveReserved(Recorded(log, e), t, a) == ActiveReserved(log, t, a) + e.payload.amount
  {
    var skip, r := ReleasedIds(log, t, a), e.payload.reservationId;
    NoEarlierReservation(log, e);
    if r in skip {
      ReleasedWasReserved(cap, log, t, a, r);
      SelectHead(log, ReservedFor(t, a, r));
    }
    HeldSkipUnused(log, t, a, skip, r);
    assert skip + {} == skip;
  }

  lemma {:induction false} ReservationsArePositive(cap: real, log: Log, x: Event)
    requires IsLawful(cap, log) && Has(log, x) && x.eventType == ReservationCreated
    ensures x.payload.Reservation? && x.payload.amount > 0.0
  {
    if x != log.last { ReservationsArePositive(cap, log.before, x); }
  }

  /** The risk issued under an authorization, zero if there is none. */
  function IssuedRisk(log: Log, t: string, a: string): real {
    var issued := Select(log, IssuedFor(t, a));
    if issued == [] then 0.0 else SelectHead(log, IssuedFor(t, a)); issued[0].payload.authorizedRisk
  }

  lemma IssuedRiskAfter(cap: real, log: Log, e: Event, t: string, a: string)
    requires IsLawful(cap, log) && Guard(cap, log, e)
    ensures IssuedRisk(Recorded(log, e), t, a) >= IssuedRisk(log, t, a)
    ensures IsReservation(e, t, a) ==> ActiveReserved(log, t, a) + e.payload.amount <= IssuedRisk(log, t, a)
  {
    IssuesArePositive(cap, log);
    if IsReservation(e, t, a) {
      assert GetAuthorization(log, t, a).value.authorizedRisk == IssuedRisk(log, t, a);
    }
  }

  lemma ReservedAmountIsPositive(cap: real, log: Log, t: string, a: string, r: string)
    requires IsLawful(cap, log)
    ensures ReservedAmount(log, t, a, r) >= 0.0
  {
    var created := Select(log, ReservedFor(t, a, r));
    if created != [] {
      SelectHead(log, ReservedFor(t, a, r));
      ReservationsArePositive(cap, log, created[0]);
    }
  }

  lemma {:induction false} HeldWithinIssued(cap: real, log: Log, t: string, a: string)
    requires IsLawful(cap, log)
    ensures ActiveReserved(log, t, a) <= IssuedRisk(log, t, a)
  {
    if log.Recorded? {
      var e := log.last;
      HeldWithinIssued(cap, log.before, t, a);
      HeldAfter(cap, log.before, e, t, a);
      IssuedRiskAfter(cap, log.before, e, t, a);
      if IsRelease(e, t, a) { ReservedAmountIsPositive(cap, log.before, t, a, e.payload.reservationId); }
    }
  }

  lemma {:induction false} IssueHasId(cap: real, log: Log, x: Event)
    requires IsLawful(cap, log) && Has(log, x) && x.eventType == AuthorizationIssued
    ensures IsIssue(x)
  {
    if x != log.last { IssueHasId(cap, log.before, x); }
  }

  /** Active reservations never exceed the authorized risk they draw on. */
  lemma ReservedWithinAuthorization(cap: real, log: Log, t: string, a: string)
    requires IsLawful(cap, log) && GetAuthorization(log, t, a).Some?
    ensures 0.0 <= ActiveReserved(log, t, a) <= GetAuthorization(log, t, a).value.authorizedRisk <= cap
  {
    HeldWithinIssued(cap, log, t, a);
    HeldSkipMore(cap, log, t, a, ReleasedIds(log, t, a), "");
    IssuesArePositive(cap, log);
    SelectHead(log, IssuedFor(t, a));
    IssueHasId(cap, log, Select(log, IssuedFor(t, a))[0]);
  }

  predicate PastAuthorized(s: Option<State>) {
    s.Some? && Rank(s.value) > Rank(Authorized)
  }

  /** From the submission of an order until its trade is closed, the capital held under every
      authorization of the trade does not change. */
  lemma {:induction false} HeldFromSubmissionToClose(cap: real, log: Log, longer: Log, t: string, a: string)
    requires IsLawful(cap, longer) && Extends(log, longer)
    requires PastAuthorized(StateOf(log, t)) && StateOf(longer, t) !in {Some(Closed), Some(Reconciled)}
    ensures ActiveReserved(longer, t, a) == ActiveReserved(log, t, a)
  {
    if longer != log {
      LawfulIsWellFormed(cap, longer);
      NeverBack(log, longer.before, t);
      StepForward(longer.before, longer.last, t);
      HeldFromSubmissionToClose(cap, log, longer.before, t, a);
      HeldAfter(cap, longer.before, longer.last, t, a);
    }
  }
}
