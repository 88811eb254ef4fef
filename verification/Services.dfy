/** The control plane's objects over one shared ledger, each operation proved against its
    function of the log. */
module Services {
  import opened Options
  import opened Ledger
  import opened TradeLedgers
  import opened Firewall
  import opened Lawful
  import opened Envelopes
  import opened Execution
  import opened Recovery
  import Liveness
  import FreshAuthority
  import opened Trace
  import opened Protocol
  import opened Effects
  import opened Pipeline

  // -------------------------------------------- the total, pair by pair

  /** The (trade, authorization) pairs ever issued. */
  function PairsOf(part: Log): set<(string, string)> {
    match part
    case Genesis => {}
    case Recorded(before, e) => PairsOf(before) + if IsIssue(e) then {(e.tradeId, e.payload.authorizationId)} else {}
  }

  predicate IssuesPair(e: Event, p: (string, string)) {
    IsIssue(e) && e.tradeId == p.0 && e.payload.authorizationId == p.1
  }

  /** The live risk of the issue events whose pair is in `pairs`. */
  ghost function RiskOfPairs(part: Log, log: Log, pairs: set<(string, string)>, t: int): real {
    match part
    case Genesis => 0.0
    case Recorded(before, e) =>
      RiskOfPairs(before, log, pairs, t)
      + if IsIssue(e) && (e.tradeId, e.payload.authorizationId) in pairs && Live(log, e, t)
        then e.payload.authorizedRisk else 0.0
  }

  lemma {:induction false} OnePairMore(part: Log, log: Log, pairs: set<(string, string)>, p: (string, string), t: int)
    requires p !in pairs
    ensures RiskOfPairs(part, log, pairs + {p}, t) == RiskOfPairs(part, log, pairs, t) + RiskOfPairs(part, log, {p}, t)
  {
    if part.Recorded? { OnePairMore(part.before, log, pairs, p, t); }
  }

  lemma {:induction false} AllPairs(part: Log, log: Log, pairs: set<(string, string)>, t: int)
    requires PairsOf(part) <= pairs
    ensures RiskOfPairs(part, log, pairs, t) == LiveRisk(part, log, t)
  {
    if part.Recorded? { AllPairs(part.before, log, pairs, t); }
  }

  lemma {:induction false} NoPairs(part: Log, log: Log, t: int)
    ensures RiskOfPairs(part, log, {}, t) == 0.0
  {
    if part.Recorded? { NoPairs(part.before, log, t); }
  }

  /** A pair issued once contributes the risk of its one issue event. */
  lemma {:induction false} PairRisk(part: Log, log: Log, p: (string, string), t: int)
    requires p.1 != "" && |Select(part, IssuedFor(p.0, p.1))| <= 1
    ensures var issued := Select(part, IssuedFor(p.0, p.1));
            RiskOfPairs(part, log, {p}, t) ==
              if issued == [] then 0.0
              else (SelectHead(part, IssuedFor(p.0, p.1));
                    if Live(log, issued[0], t) then issued[0].payload.authorizedRisk else 0.0)
  {
    if part.Recorded? { PairRisk(part.before, log, p, t); }
  }

  lemma {:induction false} PairHasIssue(part: Log, p: (string, string)) returns (e: Event)
    requires p in PairsOf(part)
    ensures Has(part, e) && IssuesPair(e, p) && p.1 != ""
  {
    if IssuesPair(part.last, p) { e := part.last; } else { e := PairHasIssue(part.before, p); }
  }

  lemma {:induction false} CountableMeans(part: Log, log: Log, t: int)
    ensures Countable(part, log, t) <==> forall e :: Has(part, e) && IsIssue(e) ==> CountableIssue(log, e, t)
  {
    if part.Recorded? {
      CountableMeans(part.before, log, t);
      assert Has(part, part.last) && forall e :: Has(part.before, e) ==> Has(part, e);
    }
  }

  lemma {:induction false} IssuePairListed(part: Log, e: Event)
    requires Has(part, e) && IsIssue(e)
    ensures (e.tradeId, e.payload.authorizationId) in PairsOf(part)
  {
    if part.last != e { IssuePairListed(part.before, e); }
  }

  /** The pair checks out at `t`: issued once, and countable. */
  predicate CountablePair(log: Log, p: (string, string), t: int) {
    var issued := Select(log, IssuedFor(p.0, p.1));
    |issued| == 1 && IsIssue(issued[0]) && issued[0].tradeId == p.0 && issued[0].payload.authorizationId == p.1
    && CountableIssue(log, issued[0], t)
  }

  lemma BadPairIsUncountable(log: Log, p: (string, string), t: int)
    requires p in PairsOf(log) && !CountablePair(log, p, t)
    ensures !Countable(log, log, t)
  {
    var e := PairHasIssue(log, p);
    CountableMeans(log, log, t);
    Selected(log, IssuedFor(p.0, p.1), e);
  }

  lemma GoodPairsAreCountable(log: Log, t: int)
    requires forall p :: p in PairsOf(log) ==> CountablePair(log, p, t)
    ensures Countable(log, log, t)
  {
    CountableMeans(log, log, t);
    forall e | Has(log, e) && IsIssue(e) ensures CountableIssue(log, e, t) {
      IssuePairListed(log, e);
      assert CountablePair(log, (e.tradeId, e.payload.authorizationId), t);
      Selected(log, IssuedFor(e.tradeId, e.payload.authorizationId), e);
    }
  }

  /** The pairs in `done` check out and add up to `sum`. */
  ghost predicate Summed(log: Log, done: set<(string, string)>, sum: real, t: int) {
    (forall p :: p in done ==> CountablePair(log, p, t)) && sum == RiskOfPairs(log, log, done, t)
  }

  lemma SummedNext(log: Log, done: set<(string, string)>, sum: real, p: (string, string), one: real, t: int)
    requires Summed(log, done, sum, t) && p !in done && CountablePair(log, p, t) && one == RiskOfPairs(log, log, {p}, t)
    ensures Summed(log, done + {p}, sum + one, t)
  {
    OnePairMore(log, log, done, p, t);
  }

  lemma SummedAll(log: Log, done: set<(string, string)>, sum: real, t: int)
    requires Summed(log, done, sum, t) && done == PairsOf(log)
    ensures Firewall.TotalAuthorizedRiskAt(log, t) == Some(sum)
  {
    GoodPairsAreCountable(log, t);
    AllPairs(log, log, done, t);
  }

  /** `all` falls into what remains and what is done. */
  predicate SplitInto<T>(all: set<T>, remaining: set<T>, done: set<T>) {
    remaining !! done && remaining + done == all
  }

  lemma MoveOver<T>(all: set<T>, remaining: set<T>, done: set<T>, x: T)
    requires x in remaining && SplitInto(all, remaining, done)
    ensures x in all && x !in done && SplitInto(all, remaining - {x}, done + {x})
    ensures |remaining - {x}| < |remaining|
  {
  }

  lemma NothingRemains<T>(all: set<T>, done: set<T>)
    requires SplitInto(all, {}, done)
    ensures done == all
  {
  }

  /** The accumulation over the issued pairs, in any order. */
  method SumOfPairs(log: Log, t: int) returns (total: Option<real>)
    ensures total == Firewall.TotalAuthorizedRiskAt(log, t)
  {
    var remaining := PairsOf(log);
    ghost var done: set<(string, string)> := {};
    var sum := 0.0;
    NoPairs(log, log, t);
    while remaining != {}
      invariant SplitInto(PairsOf(log), remaining, done)
      invariant Summed(log, done, sum, t)
      decreases |remaining|
    {
      var p :| p in remaining;
      MoveOver(PairsOf(log), remaining, done, p);
      var one := PairContribution(log, p, t);
      if one.None? { return None; }
      SummedNext(log, done, sum, p, one.value, t);
      sum := sum + one.value;
      remaining := remaining - {p};
      done := done + {p};
    }
    NothingRemains(PairsOf(log), done);
    SummedAll(log, done, sum, t);
    total := Some(sum);
  }

  method PairContribution(log: Log, p: (string, string), t: int) returns (one: Option<real>)
    requires p in PairsOf(log)
    ensures one.None? ==> !Countable(log, log, t)
    ensures one.Some? ==> CountablePair(log, p, t) && one.value == RiskOfPairs(log, log, {p}, t)
  {
    var issued := Select(log, IssuedFor(p.0, p.1));
    ghost var issue := PairHasIssue(log, p);
    SelectHead(log, IssuedFor(p.0, p.1));
    if |issued| != 1 {
      BadPairIsUncountable(log, p, t);
      return None;
    }
    PairRisk(log, log, p, t);
    Selected(log, IssuedFor(p.0, p.1), issue);
    var payload := issued[0].payload;
    if !(payload.issuedAt <= t < payload.expiresAt) { return Some(0.0); }
    var revoked := Select(log, RevokedUntil(p.0, p.1, t));
    if |revoked| > 1 {
      BadPairIsUncountable(log, p, t);
      return None;
    }
    if revoked != [] { return Some(0.0); }
    if payload.authorizedRisk <= 0.0 {
      BadPairIsUncountable(log, p, t);
      return None;
    }
    one := Some(payload.authorizedRisk);
  }

  /** The events of the ledger a query selects, in one pass. */
  method Scan(ledger: TradeLedger, q: Query) returns (found: seq<Event>)
    ensures found == Select(ledger.Contents(), q)
  {
    found := [];
    for n := 0 to |ledger.events|
      invariant found == Select(LogOf(ledger.events[..n]), q)
    {
      NextRecord(ledger.events, n);
      if Matches(q, ledger.events[n].event) { found := found + [ledger.events[n].event]; }
    }
    assert ledger.events[..|ledger.events|] == ledger.events;
  }

  /** The newest amount recorded under each reservation id. */
  function CreatedAmounts(log: Log, t: string, a: string): map<string, real> {
    match log
    case Genesis => map[]
    case Recorded(before, e) =>
      if IsReservation(e, t, a) then CreatedAmounts(before, t, a)[e.payload.reservationId := e.payload.amount]
      else CreatedAmounts(before, t, a)
  }

  /** Adding one id to the skipped ones takes out its newest amount. */
  lemma {:induction false} HeldWithout(log: Log, t: string, a: string, skip: set<string>, r: string)
    requires r in CreatedAmounts(log, t, a) && r !in skip
    ensures HeldExcept(log, t, a, skip) == CreatedAmounts(log, t, a)[r] + HeldExcept(log, t, a, skip + {r})
  {
    var e := log.last;
    if IsReservation(e, t, a) && e.payload.reservationId !in skip {
      var id := e.payload.reservationId;
      if id != r {
        HeldWithout(log.before, t, a, skip + {id}, r);
        assert skip + {id} + {r} == skip + {r} + {id};
      }
    } else {
      HeldWithout(log.before, t, a, skip, r);
    }
  }

  lemma {:induction false} NothingHeld(log: Log, t: string, a: string, skip: set<string>)
    requires CreatedAmounts(log, t, a).Keys <= skip
    ensures HeldExcept(log, t, a, skip) == 0.0
  {
    if log.Recorded? { NothingHeld(log.before, t, a, skip); }
  }

  /** One step of the sum: a reservation not released adds its amount, a released one nothing. */
  lemma HeldStep(log: Log, t: string, a: string, released: set<string>, done: set<string>, r: string)
    requires r in CreatedAmounts(log, t, a) && r !in done
    ensures HeldExcept(log, t, a, released + done)
         == HeldExcept(log, t, a, released + (done + {r})) + if r in released then 0.0 else CreatedAmounts(log, t, a)[r]
  {
    assert released + (done + {r}) == (released + done) + {r};
    if r in released {
      assert (released + done) + {r} == released + done;
    } else {
      HeldWithout(log, t, a, released + done, r);
    }
  }

  /** The amounts of the reservations created, the newest for each id. */
  method Created(ledger: TradeLedger, t: string, a: string) returns (created: map<string, real>)
    ensures created == CreatedAmounts(ledger.Contents(), t, a)
  {
    created := map[];
    for n := 0 to |ledger.events|
      invariant created == CreatedAmounts(LogOf(ledger.events[..n]), t, a)
    {
      NextRecord(ledger.events, n);
      var e := ledger.events[n].event;
      if IsReservation(e, t, a) { created := created[e.payload.reservationId := e.payload.amount]; }
    }
    assert ledger.events[..|ledger.events|] == ledger.events;
  }

  /** The ids of the reservations released. */
  method Released(ledger: TradeLedger, t: string, a: string) returns (released: set<string>)
    ensures released == ReleasedIds(ledger.Contents(), t, a)
  {
    released := {};
    for n := 0 to |ledger.events|
      invariant released == ReleasedIds(LogOf(ledger.events[..n]), t, a)
    {
      NextRecord(ledger.events, n);
      var e := ledger.events[n].event;
      if IsRelease(e, t, a) { released := released + {e.payload.reservationId}; }
    }
    assert ledger.events[..|ledger.events|] == ledger.events;
  }

  // ------------------------------------------------------- the capital firewall

  class CapitalFirewall {
    const ledger: TradeLedger
    const cap: real

    constructor (ledger: TradeLedger, cap: real)
      requires 0.0 < cap <= GLOBAL_CAP
      ensures this.ledger == ledger && this.cap == cap
    {
      this.ledger := ledger;
      this.cap := cap;
    }

    /** The sum over issued pairs, refusing an ambiguous history, is the plain sum over the log. */
    method TotalAuthorizedRiskAt(t: int) returns (total: Option<real>)
      requires ledger.Valid()
      ensures total == Firewall.TotalAuthorizedRiskAt(ledger.Contents(), t)
    {
      total := SumOfPairs(LogOf(ledger.events), t);
    }

    /** The authorization on record, by two scans of the ledger. */
    method Authorization(tradeId: string, authorizationId: string) returns (auth: Option<Authorization>)
      ensures auth == GetAuthorization(ledger.Contents(), tradeId, authorizationId)
    {
      var issued := Scan(ledger, IssuedFor(tradeId, authorizationId));
      if |issued| != 1 { return None; }
      var revoked := Scan(ledger, RevokedFor(tradeId, authorizationId));
      if |revoked| > 1 { return None; }
      SelectHead(ledger.Contents(), IssuedFor(tradeId, authorizationId));
      var p := issued[0].payload;
      auth := Some(Firewall.Authorization.Authorization(tradeId, authorizationId, p.authorizedRisk, p.issuedAt,
                                                        p.expiresAt, p.proof,
                                 if revoked != [] then Revoked else Active));
    }

    /** Was this request made before, and was it the same one? */
    method Retry(tradeId: string, key: string, eventType: EventType, payload: Payload) returns (answer: RetryAnswer)
      ensures answer == RetryOf(ledger.Contents(), tradeId, key, eventType, payload)
    {
      var matching := Scan(ledger, ByTradeKey(tradeId, key));
      if |matching| > 1 { return Conflict; }
      if |matching| == 0 { return NotSeen; }
      var existing := matching[0];
      answer := if existing.eventType != eventType || existing.payload != payload then Conflict else SameRequest;
    }

    /** The capital held under an authorization: the created amounts whose ids were not released. */
    method ActiveReservedAmount(tradeId: string, authorizationId: string) returns (amount: real)
      ensures amount == ActiveReserved(ledger.Contents(), tradeId, authorizationId)
    {
      var created := Created(ledger, tradeId, authorizationId);
      var released := Released(ledger, tradeId, authorizationId);
      ghost var log := ledger.Contents();
      var remaining := created.Keys;
      ghost var done: set<string> := {};
      amount := 0.0;
      assert released + done == released;
      while remaining != {}
        invariant SplitInto(created.Keys, remaining, done)
        invariant amount + HeldExcept(log, tradeId, authorizationId, released + done)
                  == ActiveReserved(log, tradeId, authorizationId)
        decreases |remaining|
      {
        var r :| r in remaining;
        MoveOver(created.Keys, remaining, done, r);
        HeldStep(log, tradeId, authorizationId, released, done, r);
        if r !in released { amount := amount + created[r]; }
        remaining := remaining - {r};
        done := done + {r};
      }
      NothingRemains(created.Keys, done);
      NothingHeld(log, tradeId, authorizationId, released + done);
    }

    method Record(e: Event) returns (error: Option<FirewallError>)
      requires ledger.Valid()
      modifies ledger`file, ledger`events, ledger`byKey, ledger`unresolved
      ensures ledger.Valid()
      ensures Outcome(ledger.Contents(), error) == Firewall.Record(old(ledger.Contents()), e)
    {
      var r := ledger.Append(e);
      error := if r.Refused? then Some(LedgerRefused(r.error)) else None;
    }

    method IssueAuthorization(tradeId: string, authorizationId: string, risk: real, issuedAt: int, expiresAt: int,
                              proof: Proof, eventId: string, key: string) returns (error: Option<FirewallError>)
      requires ledger.Valid()
      modifies ledger`file, ledger`events, ledger`byKey, ledger`unresolved
      ensures ledger.Valid()
      ensures Outcome(ledger.Contents(), error)
           == Firewall.IssueAuthorization(cap, old(ledger.Contents()), tradeId, authorizationId, risk, issuedAt,
                                          expiresAt, proof, eventId, key)
    {
      error := IssueRequestError(cap, tradeId, authorizationId, risk, issuedAt, expiresAt, proof);
      if error.Some? { return; }
      var payload := Issue(authorizationId, risk, issuedAt, expiresAt, proof);
      var verdict := JudgeIssue(tradeId, authorizationId, risk, issuedAt, payload, key);
      if verdict.Stop? { return verdict.error; }
      error := Record(Event(eventId, issuedAt, tradeId, None, AuthorizationIssued, key, payload));
      if error.None? {
        var auth := Authorization(tradeId, authorizationId);
        if auth.None? { error := Some(AuthorizationUnavailable); }
      }
    }

    method JudgeIssue(tradeId: string, authorizationId: string, risk: real, issuedAt: int, payload: Payload,
                      key: string)
      returns (verdict: Verdict)
      requires ledger.Valid()
      ensures verdict == IssueVerdict(cap, ledger.Contents(), tradeId, authorizationId, risk, issuedAt, payload, key)
    {
      var retry := Retry(tradeId, key, AuthorizationIssued, payload);
      var issued := Scan(ledger, IssuedFor(tradeId, authorizationId));
      if retry == NotSeen && issued != [] { return Stop(Some(AuthorizationIdReused)); }
      if retry == Conflict { return Stop(Some(RetryConflict)); }
      if retry == SameRequest {
        var auth := Authorization(tradeId, authorizationId);
        return Stop(if auth.None? then Some(AuthorizationUnavailable) else None);
      }
      verdict := JudgeNewIssue(tradeId, risk, issuedAt);
    }

    /** The checks of an issue that is not a retry. */
    method JudgeNewIssue(tradeId: string, risk: real, issuedAt: int) returns (verdict: Verdict)
      requires ledger.Valid()
      ensures verdict ==
        var log := ledger.Contents();
        var aggregate := Firewall.TotalAuthorizedRiskAt(log, issuedAt);
        if aggregate.None? then Stop(Some(RiskLedgerAmbiguous))
        else if aggregate.value + risk > cap then Stop(Some(TotalRiskExceedsCap))
        else if RiskBlocked(log) then Stop(Some(UnresolvedBlocksRisk))
        else if Ledger.StateOf(log, tradeId) != Some(RiskReserved) then Stop(Some(WrongState))
        else Verdict.Write
    {
      var aggregate := TotalAuthorizedRiskAt(issuedAt);
      if aggregate.None? { return Stop(Some(RiskLedgerAmbiguous)); }
      if aggregate.value + risk > cap { return Stop(Some(TotalRiskExceedsCap)); }
      var clear := ledger.AssertNoUnresolvedReconciliation();
      if !clear { return Stop(Some(UnresolvedBlocksRisk)); }
      var state := ledger.StateOf(tradeId);
      if state != Some(RiskReserved) { return Stop(Some(WrongState)); }
      verdict := Verdict.Write;
    }

    /** Once it succeeds, the trade is authorized, or on a retry was authorized before. */
    method AuthorizeTrade(tradeId: string, authorizationId: string, now: int, eventId: string, key: string)
      returns (error: Option<FirewallError>)
      requires ledger.Valid()
      modifies ledger`file, ledger`events, ledger`byKey, ledger`unresolved
      ensures ledger.Valid()
      ensures Outcome(ledger.Contents(), error)
              == Firewall.AuthorizeTrade(old(ledger.Contents()), tradeId, authorizationId, now, eventId, key)
      ensures error.None? && IsLawful(cap, old(ledger.Contents())) ==>
                && NotBefore(Some(Authorized), Ledger.StateOf(ledger.Contents(), tradeId))
                && (ledger.Contents() != old(ledger.Contents())
                    ==> Ledger.StateOf(ledger.Contents(), tradeId) == Some(Authorized))
    {
      ghost var log := ledger.Contents();
      if IsLawful(cap, log) && Firewall.AuthorizeTrade(log, tradeId, authorizationId, now, eventId, key).error.None? {
        AuthorizeSucceeds(cap, log, tradeId, authorizationId, now, eventId, key);
      }
      var auth := Authorization(tradeId, authorizationId);
      if auth.None? { return Some(AuthorizationUnavailable); }
      var payload := TradeAuthorization(authorizationId, auth.value.expiresAt, auth.value.authorizedRisk);
      var retry := Retry(tradeId, key, TradeAuthorized, payload);
      if retry == Conflict { return Some(RetryConflict); }
      if retry == SameRequest { return None; }
      var clear := ledger.AssertNoUnresolvedReconciliation();
      if !clear { return Some(UnresolvedBlocksRisk); }
      if auth.value.status != Active { return Some(AuthorizationNotActive); }
      if now >= auth.value.expiresAt { return Some(AuthorizationExpired); }
      var state := ledger.StateOf(tradeId);
      if state != Some(RiskReserved) { return Some(WrongState); }
      error := Record(Event(eventId, now, tradeId, Some(Authorized), TradeAuthorized, key, payload));
    }

    /** Once it succeeds, the authorization is revoked, for this reason. */
    method RevokeAuthorization(tradeId: string, authorizationId: string, reason: string, now: int, eventId: string,
                               key: string)
      returns (error: Option<FirewallError>)
      requires ledger.Valid()
      modifies ledger`file, ledger`events, ledger`byKey, ledger`unresolved
      ensures ledger.Valid()
      ensures Outcome(ledger.Contents(), error)
           == Firewall.RevokeAuthorization(old(ledger.Contents()), tradeId, authorizationId, reason, now, eventId, key)
      ensures error.None? && IsLawful(cap, old(ledger.Contents())) ==>
                var auth := GetAuthorization(ledger.Contents(), tradeId, authorizationId);
                auth.Some? && auth.value.status == Revoked
    {
      ghost var log := ledger.Contents();
      if IsLawful(cap, log)
         && Firewall.RevokeAuthorization(log, tradeId, authorizationId, reason, now, eventId, key).error.None?
      {
        ghost var e := RevokeSucceeds(cap, log, tradeId, authorizationId, reason, now, eventId, key);
      }
      if Blank(reason) { return Some(ReasonMissing); }
      var auth := Authorization(tradeId, authorizationId);
      if auth.None? { return Some(AuthorizationUnavailable); }
      if now < auth.value.issuedAt { return Some(RevokedBeforeIssuance); }
      var payload := Revocation(authorizationId, reason, now);
      var retry := Retry(tradeId, key, AuthorizationRevoked, payload);
      if retry == Conflict { return Some(RetryConflict); }
      if retry == SameRequest { return None; }
      if auth.value.status == Revoked { return Some(AlreadyRevoked); }
      var clear := ledger.AssertNoUnresolvedReconciliation();
      if !clear { return Some(UnresolvedBlocksRisk); }
      var state := ledger.StateOf(tradeId);
      if state !in {Some(Authorized), Some(OrderSubmitted), Some(Accepted)} { return Some(WrongState); }
      error := Record(Event(eventId, now, tradeId, None, AuthorizationRevoked, key, payload));
    }

    /** Once it succeeds, the reservation is on record with this amount; a new one is active and held. */
    method Reserve(tradeId: string, authorizationId: string, amount: real, reservationId: string, now: int,
                   eventId: string, key: string)
      returns (error: Option<FirewallError>)
      requires ledger.Valid()
      modifies ledger`file, ledger`events, ledger`byKey, ledger`unresolved
      ensures ledger.Valid()
      ensures Outcome(ledger.Contents(), error)
           == Firewall.Reserve(old(ledger.Contents()), tradeId, authorizationId, amount, reservationId, now, eventId,
                               key)
      ensures error.None? && IsLawful(cap, old(ledger.Contents())) && ledger.Contents() != old(ledger.Contents()) ==>
                var auth := GetAuthorization(old(ledger.Contents()), tradeId, authorizationId);
                && auth.Some?
                && ActiveReservation(ledger.Contents(), tradeId, authorizationId, reservationId)
                   == Some((amount, auth.value.expiresAt))
                && ActiveReserved(ledger.Contents(), tradeId, authorizationId)
                   == ActiveReserved(old(ledger.Contents()), tradeId, authorizationId) + amount
    {
      ghost var log := ledger.Contents();
      if IsLawful(cap, log)
         && Firewall.Reserve(log, tradeId, authorizationId, amount, reservationId, now, eventId, key).error.None?
      {
        ghost var e := ReserveSucceeds(cap, log, tradeId, authorizationId, amount, reservationId, now, eventId, key);
      }
      var auth := Authorization(tradeId, authorizationId);
      if auth.None? { return Some(AuthorizationUnavailable); }
      var payload := Reservation(reservationId, authorizationId, amount, auth.value.expiresAt);
      var verdict := JudgeReserve(auth.value, amount, reservationId, now, payload, key);
      if verdict.Stop? { return verdict.error; }
      error := Record(Event(eventId, now, tradeId, None, ReservationCreated, key, payload));
    }

    /** The checks before a reservation is written. */
    method JudgeReserve(auth: Authorization, amount: real, reservationId: string, now: int, payload: Payload,
                        key: string)
      returns (verdict: Verdict)
      requires ledger.Valid()
      ensures verdict == ReserveVerdict(ledger.Contents(), auth, amount, reservationId, now, payload, key)
    {
      var same := Scan(ledger, ReservedAs(auth.tradeId, reservationId));
      if same != [] { return Stop(if same[0].payload != payload then Some(ReservationIdReused) else None); }
      var retry := Retry(auth.tradeId, key, ReservationCreated, payload);
      if retry == Conflict { return Stop(Some(RetryConflict)); }
      if retry == SameRequest { return Stop(None); }
      var clear := ledger.AssertNoUnresolvedReconciliation();
      if !clear { return Stop(Some(UnresolvedBlocksRisk)); }
      if auth.status != Active { return Stop(Some(AuthorizationNotActive)); }
      if now >= auth.expiresAt { return Stop(Some(AuthorizationExpired)); }
      var state := ledger.StateOf(auth.tradeId);
      if state != Some(Authorized) { return Stop(Some(WrongState)); }
      if amount <= 0.0 { return Stop(Some(AmountInvalid)); }
      if amount > auth.authorizedRisk { return Stop(Some(AmountExceedsAuthorization)); }
      var held := ActiveReservedAmount(auth.tradeId, auth.authorizationId);
      if held + amount > auth.authorizedRisk { return Stop(Some(ReservationsExceedAuthorization)); }
      verdict := Verdict.Write;
    }

    method ReleasePreExecution(tradeId: string, authorizationId: string, reservationId: string, reason: string,
                               now: int, eventId: string, key: string) returns (error: Option<FirewallError>)
      requires ledger.Valid()
      modifies ledger`file, ledger`events, ledger`byKey, ledger`unresolved
      ensures ledger.Valid()
      ensures Outcome(ledger.Contents(), error)
           == Firewall.ReleasePreExecution(old(ledger.Contents()), tradeId, authorizationId, reservationId, reason, now,
                                           eventId, key)
    {
      if Blank(reason) { return Some(ReasonMissing); }
      var clear := ledger.AssertNoUnresolvedReconciliation();
      if !clear { return Some(UnresolvedBlocksRisk); }
      var auth := Authorization(tradeId, authorizationId);
      if auth.None? { return Some(AuthorizationUnavailable); }
      if auth.value.status != Revoked { return Some(NotRevoked); }
      var submitted := Scan(ledger, SubmissionType(tradeId));
      if submitted != [] { return Some(AlreadySubmitted); }
      var state := ledger.StateOf(tradeId);
      if state != Some(Authorized) { return Some(WrongState); }
      error := WriteRelease(tradeId, authorizationId, reservationId, auth.value.status, Some(reason), now, eventId,
                            key);
    }

    method Release(tradeId: string, authorizationId: string, reservationId: string, now: int, eventId: string,
                   key: string)
      returns (error: Option<FirewallError>)
      requires ledger.Valid()
      modifies ledger`file, ledger`events, ledger`byKey, ledger`unresolved
      ensures ledger.Valid()
      ensures Outcome(ledger.Contents(), error)
           == ReleaseReservation(old(ledger.Contents()), tradeId, authorizationId, reservationId, now, eventId, key)
    {
      var clear := ledger.AssertNoUnresolvedReconciliation();
      if !clear { return Some(UnresolvedBlocksRisk); }
      var auth := Authorization(tradeId, authorizationId);
      if auth.None? { return Some(AuthorizationUnavailable); }
      var prior := Scan(ledger, ByTradeKey(tradeId, key));
      if prior == [] {
        var state := ledger.StateOf(tradeId);
        if state !in {Some(Closed), Some(Reconciled)} { return Some(WrongState); }
      }
      error := WriteRelease(tradeId, authorizationId, reservationId, auth.value.status, None, now, eventId, key);
    }

    method WriteRelease(tradeId: string, authorizationId: string, reservationId: string, status: AuthorizationStatus,
                        preExecution: Option<string>, now: int, eventId: string, key: string)
      returns (error: Option<FirewallError>)
      requires ledger.Valid()
      modifies ledger`file, ledger`events, ledger`byKey, ledger`unresolved
      ensures ledger.Valid()
      ensures Outcome(ledger.Contents(), error)
           == RecordRelease(old(ledger.Contents()), tradeId, authorizationId, reservationId, status, preExecution, now,
                            eventId, key)
    {
      var created := Scan(ledger, ReservedFor(tradeId, authorizationId, reservationId));
      if |created| != 1 { return Some(ReservationUnavailable); }
      SelectHead(ledger.Contents(), ReservedFor(tradeId, authorizationId, reservationId));
      var payload := Payload.Release(reservationId, authorizationId, created[0].payload.amount, now, status,
                                     preExecution);
      var retry := Retry(tradeId, key, ReservationReleased, payload);
      if retry == Conflict { return Some(RetryConflict); }
      if retry == SameRequest { return None; }
      error := Record(Event(eventId, now, tradeId, None, ReservationReleased, key, payload));
    }
  }

  // ------------------------------------------------------------- the adapter

  /** The broker transport; it remembers what it was asked, and the ledger as it stood then. */
  class BrokerGateway {
    ghost var calls: seq<(Order, Log)>

    constructor ()
      ensures calls == []
    {
      calls := [];
    }

    method SubmitAuthorizedOrder(order: Order, ghost durable: Log)
      modifies this
      ensures calls == old(calls) + [(order, durable)]
    {
      calls := calls + [(order, durable)];
    }
  }

  /** What the caller of the adapter is told; all but the last two are errors. */
  datatype SubmitAnswer = NotAdmitted | IntentNotDurable | ResponseUnusable | JournalFailed | ReconciliationRequired
                        | RejectedByBroker | AcceptedByBroker

  /** What each answer means for the ledger and the trade. */
  predicate AnswerMeans(answer: SubmitAnswer, h: Hashes, before: Log, after: Log, o: Order, b: BrokerBehaviour) {
    var t := o.request.tradeId;
    match answer
    case NotAdmitted => !GatePasses(h, before, o) && after == before
    case IntentNotDurable => GatePasses(h, before, o) && !CallsBroker(h, before, o) && after == before
    case ResponseUnusable =>
      CallsBroker(h, before, o) && OutcomeEvent(h, o, b).None? && StateOf(after, t) == Some(OrderSubmitted)
        && !RiskBlocked(after)
    case JournalFailed =>
      CallsBroker(h, before, o) && OutcomeEvent(h, o, b).Some? && StateOf(after, t) == Some(OrderSubmitted)
        && !RiskBlocked(after)
    case ReconciliationRequired =>
      CallsBroker(h, before, o) && Liveness.JournalsTrouble(o, b) && StateOf(after, t) == Some(OrderSubmitted)
        && t in Unresolved(after)
    case RejectedByBroker =>
      CallsBroker(h, before, o) && b.Answers? && Liveness.ShowsRefusal(b.response, o.request)
      && StateOf(after, t) == Some(Rejected) && t in Unresolved(after)
    case AcceptedByBroker =>
      CallsBroker(h, before, o) && b.Answers? && Liveness.ShowsFill(b.response, o.request)
        && StateOf(after, t) == Some(Accepted)
  }

  function AnswerFor(e: Event): SubmitAnswer {
    if e.state == Some(Accepted) then AcceptedByBroker
    else if e.state == Some(Rejected) then RejectedByBroker
    else ReconciliationRequired
  }

  lemma OutcomeAnswered(h: Hashes, before: Log, o: Order, b: BrokerBehaviour)
    requires Sound(before) && CallsBroker(h, before, o) && OutcomeEvent(h, o, b).Some?
    ensures var e, log := OutcomeEvent(h, o, b).value, AfterIntent(h, before, o);
            var r := Append(log, e);
            AnswerMeans(if r.Refused? then JournalFailed else AnswerFor(e), h, before, Extend(log, r), o, b)
  {
    var e, log := OutcomeEvent(h, o, b).value, AfterIntent(h, before, o);
    CallOnSound(h, before, o);
    Liveness.OutcomeNames(h, o, b);
    Liveness.OutcomeStates(h, o, b);
    Liveness.TroubleMarks(h, o, b);
    if !Append(log, e).Refused? { JournalTells(log, e); }
  }

  class MT5ExecutionAdapter {
    const ledger: TradeLedger
    const gateway: BrokerGateway
    const hashes: Hashes

    constructor (ledger: TradeLedger, gateway: BrokerGateway, hashes: Hashes)
      ensures this.ledger == ledger && this.gateway == gateway && this.hashes == hashes
    {
      this.ledger, this.gateway, this.hashes := ledger, gateway, hashes;
    }

    /** Gate, durable intent, one call, journal.  The gateway is called at most once, and sees the intent on the ledger;
        the answer tells where the trade is and whether new risk is blocked. */
    method Submit(order: Order, behaviour: BrokerBehaviour) returns (answer: SubmitAnswer)
      requires ledger.Valid()
      modifies ledger`file, ledger`events, ledger`byKey, ledger`unresolved, gateway
      ensures ledger.Valid()
      ensures ledger.Contents() == AfterSubmit(hashes, old(ledger.Contents()), order, behaviour)
      ensures gateway.calls == old(gateway.calls)
                + if CallsBroker(hashes, old(ledger.Contents()), order)
                  then [(order, AfterIntent(hashes, old(ledger.Contents()), order))] else []
      ensures AnswerMeans(answer, hashes, old(ledger.Contents()), ledger.Contents(), order, behaviour)
    {
      var log := LogOf(ledger.events);
      if !GatePasses(hashes, log, order) { return NotAdmitted; }
      var intent := ledger.Append(IntentEvent(hashes, order));
      if intent.Refused? { return IntentNotDurable; }
      gateway.SubmitAuthorizedOrder(order, ledger.Contents());
      CallOnSound(hashes, log, order);
      var outcome := OutcomeEvent(hashes, order, behaviour);
      if outcome.None? { return ResponseUnusable; }
      OutcomeAnswered(hashes, log, order, behaviour);
      var journal := ledger.Append(outcome.value);
      answer := if journal.Refused? then JournalFailed else AnswerFor(outcome.value);
    }
  }

  // ----------------------------------------------- recovery, pipeline

  datatype RecoveryAnswer =
    | Resolved(ledgerState: Option<State>, riskBlocked: bool)
    | Impossible(why: RecoveryError)
    | NotDurable(refusal: AppendError)

  /** The checks of recovery, one by one, and the event they lead to. */
  method PlanRecovery(ledger: TradeLedger, tradeId: string, observed: Observation, eventId: string, key: string,
                      timestamp: int)
    returns (plan: RecoveryPlan)
    ensures plan == RecoveryPlanFor(ledger.Contents(), tradeId, observed, eventId, key, timestamp)
  {
    var state := ledger.StateOf(tradeId);
    if state != Some(OrderSubmitted) { return RecoveryPlan.Impossible(RequiresSubmitted); }
    var submissions := Scan(ledger, SubmissionState(tradeId));
    if |submissions| != 1 { return RecoveryPlan.Impossible(SubmissionNotUnique); }
    var submitted := ViewOf(submissions[0].payload);
    if observed.status !in {"ACCEPTED", "REJECTED", "UNKNOWN", "PENDING", "PARTIAL"} {
      return RecoveryPlan.Impossible(StatusInvalid);
    }
    if observed.symbol != submitted.symbol || observed.side != submitted.side {
      return RecoveryPlan.Impossible(IdentityMismatch);
    }
    if observed.timeframe.Some? && observed.timeframe != submitted.timeframe {
      return RecoveryPlan.Impossible(IdentityMismatch);
    }
    if submitted.volume.None? || submitted.volume.value < 0.0 { return RecoveryPlan.Impossible(VolumeInvalid); }
    var observedVolume := if observed.volume.Some? then observed.volume.value else submitted.volume.value;
    if observedVolume < 0.0 { return RecoveryPlan.Impossible(VolumeInvalid); }
    if !Close(submitted.volume.value, observedVolume) { return RecoveryPlan.Impossible(VolumeMismatch); }
    var deal := if Named(observed.dealId) then observed.dealId else None;
    var facts := RecoveredFacts(submitted.authorizationId, submitted.reservationId, submitted.requestHash,
                                submitted.symbol, submitted.timeframe, submitted.side, submitted.volume.value,
                                observed.orderId, deal, observed.retcode, observed.reason, None);
    var entered, eventType := None, OutcomeObservationRecovery;
    if observed.status == "ACCEPTED" {
      if observed.orderId == "" || deal.None? { return RecoveryPlan.Impossible(AcceptedRequiresDeal); }
      entered, eventType := Some(Accepted), AcceptedRecovery;
    } else if observed.status == "REJECTED" {
      if deal.Some? { return RecoveryPlan.Impossible(RejectedHasDeal); }
      entered, eventType := Some(Rejected), RejectedRecovery;
    } else {
      facts := facts.(recoveryStatus := Some(observed.status));
    }
    plan := Journal(Event(eventId, timestamp, tradeId, entered, eventType, key, RecoveryReport(facts)));
  }

  /** A final observation settles the trade exactly when it is about the submission on record; any other one that is
      taken leaves it submitted and unresolved. */
  method ResolveBrokerOutcome(ledger: TradeLedger, tradeId: string, observed: Observation, eventId: string, key: string,
                              timestamp: int)
    returns (answer: RecoveryAnswer)
    requires ledger.Valid()
    modifies ledger`file, ledger`events, ledger`byKey, ledger`unresolved
    ensures ledger.Valid()
    ensures ledger.Contents() == AfterRecovery(old(ledger.Contents()), tradeId, observed, eventId, key, timestamp)
    ensures answer.Impossible?
            <==> RecoveryPlanFor(old(ledger.Contents()), tradeId, observed, eventId, key, timestamp).Impossible?
    ensures !answer.Resolved? ==> ledger.Contents() == old(ledger.Contents())
    ensures answer.Resolved? ==> answer.ledgerState == StateOf(ledger.Contents(), tradeId)
                                 && answer.riskBlocked == RiskBlocked(ledger.Contents())
                                 && (!Final(observed) ==> StateOf(ledger.Contents(), tradeId) == Some(OrderSubmitted)
                                                          && tradeId in Unresolved(ledger.Contents()))
    ensures StateOf(old(ledger.Contents()), tradeId) == Some(OrderSubmitted) && tradeId != "" && Final(observed) ==>
              var log := old(ledger.Contents());
              var submissions := Select(log, SubmissionState(tradeId));
              && |submissions| == 1
              && (StateOf(ledger.Contents(), tradeId) == Some(SettledAs(observed)) <==>
                  && AboutSubmission(observed, submissions[0].payload) && NamesItsDeal(observed)
                  && eventId != "" && key != "" && FreshKey(log, key) && FreshId(log, eventId))
  {
    ghost var log := ledger.Contents();
    RecoveryMeans(log, tradeId, observed, eventId, key, timestamp);
    var plan := PlanRecovery(ledger, tradeId, observed, eventId, key, timestamp);
    if plan.Impossible? { return RecoveryAnswer.Impossible(plan.error); }
    var r := ledger.Append(plan.event);
    if r.Refused? { return NotDurable(r.error); }
    var state := ledger.StateOf(tradeId);
    answer := Resolved(state, ledger.unresolved != {});
  }

  lemma RecoveryMeans(log: Log, t: string, o: Observation, id: string, key: string, ts: int)
    requires Sound(log)
    ensures var plan, after := RecoveryPlanFor(log, t, o, id, key, ts), AfterRecovery(log, t, o, id, key, ts);
            && (plan.Journal? && !Append(log, plan.event).Refused? && !Final(o) ==>
                  StateOf(after, t) == Some(OrderSubmitted) && t in Unresolved(after))
            && (StateOf(log, t) == Some(OrderSubmitted) && t != "" && Final(o) ==>
                  var submissions := Select(log, SubmissionState(t));
                  && |submissions| == 1
                  && (StateOf(after, t) == Some(SettledAs(o)) <==>
                      && AboutSubmission(o, submissions[0].payload) && NamesItsDeal(o)
                      && id != "" && key != "" && FreshKey(log, key) && FreshId(log, id)))
  {
    if StateOf(log, t) == Some(OrderSubmitted) {
      if Final(o) {
        if t != "" { RecoverySettlesExactly(log, t, o, id, key, ts); }
      } else {
        UnresolvedObservation(log, t, o, id, key, ts);
      }
    }
  }

  method TakeStep(firewall: CapitalFirewall, q: AuthorityRequest, now: int, n: nat)
    returns (error: Option<FirewallError>)
    requires firewall.ledger.Valid()
    modifies firewall.ledger`file, firewall.ledger`events, firewall.ledger`byKey, firewall.ledger`unresolved
    ensures firewall.ledger.Valid()
    ensures Outcome(firewall.ledger.Contents(), error) == Step(firewall.cap, old(firewall.ledger.Contents()), q, now, n)
  {
    var key := StepKey(q, n);
    if n <= 2 {
      error := firewall.Record(AdvanceEvent(q.tradeId, StepState(n), q.facts, q.issuedAt, key, key));
    } else if n == 3 {
      error := firewall.IssueAuthorization(q.tradeId, q.authorizationId, q.authorizedRisk, q.issuedAt, q.expiresAt,
                                           q.proof, key, key);
    } else if n == 4 {
      error := firewall.AuthorizeTrade(q.tradeId, q.authorizationId, now, key, key);
    } else {
      error := firewall.Reserve(q.tradeId, q.authorizationId, q.reservedRisk, q.reservationId, now, key, key);
    }
  }

  lemma GrantedIfFresh(cap: real, hash: EnvelopeHash, log: Log, q: AuthorityRequest, now: int)
    ensures IsLawful(cap, log) && Unresolved(log) == {} && FreshAuthority.Unknown(log, q)
            && FreshAuthority.Grantable(cap, log, q, now) ==>
              ProduceAuthority(cap, hash, log, q, now)
              == Authority(FreshAuthority.AfterSix(log, q, now),
                           Some(Envelope(FreshAuthority.FactsOf(q), hash(FreshAuthority.FactsOf(q)))))
  {
    if IsLawful(cap, log) && Unresolved(log) == {} && FreshAuthority.Unknown(log, q)
       && FreshAuthority.Grantable(cap, log, q, now)
    {
      FreshAuthority.FreshRequestIsGranted(cap, hash, log, q, now);
    }
  }

  method Produce(firewall: CapitalFirewall, hash: EnvelopeHash, q: AuthorityRequest, now: int)
    returns (envelope: Option<Envelope>)
    requires firewall.ledger.Valid()
    modifies firewall.ledger`file, firewall.ledger`events, firewall.ledger`byKey, firewall.ledger`unresolved
    ensures firewall.ledger.Valid()
    ensures Authority(firewall.ledger.Contents(), envelope)
         == ProduceAuthority(firewall.cap, hash, old(firewall.ledger.Contents()), q, now)
    ensures var log := old(firewall.ledger.Contents());
            IsLawful(firewall.cap, log) && Unresolved(log) == {} && FreshAuthority.Unknown(log, q)
            && FreshAuthority.Grantable(firewall.cap, log, q, now) ==>
              && firewall.ledger.Contents() == FreshAuthority.AfterSix(log, q, now)
              && envelope == Some(Envelope(FreshAuthority.FactsOf(q), hash(FreshAuthority.FactsOf(q))))
  {
    GrantedIfFresh(firewall.cap, hash, firewall.ledger.Contents(), q, now);
    var clear := firewall.ledger.AssertNoUnresolvedReconciliation();
    if !clear { return None; }
    var error: Option<FirewallError> := None;
    ghost var start := firewall.ledger.Contents();
    for n := 0 to STEPS
      invariant firewall.ledger.Valid()
      invariant Outcome(firewall.ledger.Contents(), error) == Steps(StepsOf(firewall.cap, q, now), start, n)
    {
      if error.None? {
        error := TakeStep(firewall, q, now, n);
      }
    }
    if error.Some? { return None; }
    envelope := BuildEnvelope(hash, LogOf(firewall.ledger.events), q.tradeId, q.authorizationId, q.reservationId,
                              q.reservedRisk, now);
  }

  // ------------------------------------------------------------ trace ingestion

  ghost predicate StatesKept(virtual: Log, states: map<string, Option<State>>) {
    forall t :: t in states ==> states[t] == StateOf(virtual, t)
  }

  ghost predicate KeysKept(log: Log, virtual: Log, byKey: map<string, Event>) {
    forall k :: KeyKept(Select(log, ByKey(k)), Select(virtual, ByKey(k)), k, byKey)
  }

  /** A key known to the ledger keeps its event; any other is known to the rehearsal exactly if it is staged. */
  ghost predicate KeyKept(before: seq<Event>, known: seq<Event>, k: string, byKey: map<string, Event>) {
    if before != [] then known != [] && known[0] == before[0]
    else (k in byKey <==> known != []) && (k in byKey ==> known[0] == byKey[k])
  }

  ghost predicate IdsKept(log: Log, virtual: Log, byEvent: map<string, Event>) {
    forall i :: Select(virtual, ById(i)) != [] <==> Select(log, ById(i)) != [] || i in byEvent
  }

  /** What the rehearsal keeps beside the ledger: simulated states, and what the batch would add. */
  ghost predicate Rehearsed(log: Log, virtual: Log, states: map<string, Option<State>>, byKey: map<string, Event>,
                            byEvent: map<string, Event>) {
    StatesKept(virtual, states) && KeysKept(log, virtual, byKey) && IdsKept(log, virtual, byEvent)
  }

  lemma StagedState(virtual: Log, states: map<string, Option<State>>, e: Event)
    requires StatesKept(virtual, states)
    ensures StatesKept(Recorded(virtual, e), if e.state.Some? then states[e.tradeId := e.state] else states)
  {
  }

  lemma StagedKey(log: Log, virtual: Log, byKey: map<string, Event>, e: Event)
    requires KeysKept(log, virtual, byKey) && Select(virtual, ByKey(e.key)) == []
    ensures KeysKept(log, Recorded(virtual, e), byKey[e.key := e])
  {
    var longer, staged := Recorded(virtual, e), byKey[e.key := e];
    forall k ensures KeyKept(Select(log, ByKey(k)), Select(longer, ByKey(k)), k, staged) {
      assert KeyKept(Select(log, ByKey(k)), Select(virtual, ByKey(k)), k, byKey);
    }
  }

  lemma StagedId(log: Log, virtual: Log, byEvent: map<string, Event>, e: Event)
    requires IdsKept(log, virtual, byEvent)
    ensures IdsKept(log, Recorded(virtual, e), byEvent[e.eventId := e])
  {
    var longer, staged := Recorded(virtual, e), byEvent[e.eventId := e];
    forall i ensures Select(longer, ById(i)) != [] <==> Select(log, ById(i)) != [] || i in staged {
      assert Select(virtual, ById(i)) != [] <==> Select(log, ById(i)) != [] || i in byEvent;
    }
  }

  lemma StagedKeepsRehearsal(log: Log, virtual: Log, states: map<string, Option<State>>, byKey: map<string, Event>,
                             byEvent: map<string, Event>, e: Event)
    requires Rehearsed(log, virtual, states, byKey, byEvent) && Select(virtual, ByKey(e.key)) == []
    ensures Rehearsed(log, Recorded(virtual, e),
                      if e.state.Some? then states[e.tradeId := e.state] else states,
                      byKey[e.key := e], byEvent[e.eventId := e])
  {
    StagedState(virtual, states, e);
    StagedKey(log, virtual, byKey, e);
    StagedId(log, virtual, byEvent, e);
  }

  /** What the rehearsal knows about the key and the id of one more record. */
  lemma KnownInRehearsal(log: Log, virtual: Log, states: map<string, Option<State>>, byKey: map<string, Event>,
                         byEvent: map<string, Event>, key: string, id: string)
    requires Rehearsed(log, virtual, states, byKey, byEvent)
    ensures KeyKept(Select(log, ByKey(key)), Select(virtual, ByKey(key)), key, byKey)
    ensures Select(virtual, ById(id)) != [] <==> Select(log, ById(id)) != [] || id in byEvent
  {
  }

  /** The first pass of ingestion: rehearse the batch against a copy, touching nothing. */
  method Preflight(ledger: TradeLedger, records: seq<TraceRecord>) returns (ok: bool)
    requires ledger.Valid()
    ensures ok == Rehearse(ledger.Contents(), records).Some?
  {
    var log := LogOf(ledger.events);
    var states: map<string, Option<State>> := map r | r in records :: r.tradeId := StateOf(log, r.tradeId);
    var stagedByKey: map<string, Event> := map[];
    var stagedByEvent: map<string, Event> := map[];
    ghost var virtual := log;
    for n := 0 to |records|
      invariant forall r :: r in records ==> r.tradeId in states
      invariant Rehearse(log, records[..n]) == Some(virtual)
      invariant Rehearsed(log, virtual, states, stagedByKey, stagedByEvent)
    {
      var r := records[n];
      RehearseNext(log, records, n);
      KnownInRehearsal(log, virtual, states, stagedByKey, stagedByEvent, r.key, r.eventId);
      var e := TraceEvent(r);
      var existing := Select(log, ByKey(r.key));
      if existing != [] || r.key in stagedByKey {
        var prior := if existing != [] then existing[0] else stagedByKey[r.key];
        if !RepeatsKnown(prior, r) { return false; }
      } else {
        if Select(log, ById(r.eventId)) != [] || r.eventId in stagedByEvent { return false; }
        if !TransitionRehearsed(states[r.tradeId], r) { return false; }
        StagedKeepsRehearsal(log, virtual, states, stagedByKey, stagedByEvent, e);
        if e.state.Some? { states := states[r.tradeId := e.state]; }
        stagedByKey := stagedByKey[r.key := e];
        stagedByEvent := stagedByEvent[r.eventId := e];
        virtual := Recorded(virtual, e);
      }
    }
    assert records[..|records|] == records;
    ok := true;
  }

  lemma {:induction false} RehearseRefusedStays(log: Log, records: seq<TraceRecord>, n: nat)
    requires n <= |records| && Rehearse(log, records[..n]).None?
    ensures Rehearse(log, records).None?
    decreases |records|
  {
    if n == |records| {
      assert records[..n] == records;
    } else {
      assert records[..|records| - 1][..n] == records[..n];
      RehearseRefusedStays(log, records[..|records| - 1], n);
    }
  }

  /** One more record decides the next prefix, and a refused prefix refuses the batch. */
  lemma RehearseNext(log: Log, records: seq<TraceRecord>, n: nat)
    requires n < |records| && Rehearse(log, records[..n]).Some?
    ensures Rehearse(log, records[..n + 1]) == RehearseOne(Rehearse(log, records[..n]).value, records[n])
    ensures RehearseOne(Rehearse(log, records[..n]).value, records[n]).None? ==> Rehearse(log, records).None?
  {
    assert records[..n + 1][..n] == records[..n];
    if RehearseOne(Rehearse(log, records[..n]).value, records[n]).None? { RehearseRefusedStays(log, records, n + 1); }
  }

  lemma CommitNext(log: Log, records: seq<TraceRecord>, n: nat)
    requires n < |records|
    ensures Commit(log, records[..n + 1]) ==
            var before := Commit(log, records[..n]);
            if !before.complete then before
            else var r := Append(before.log, TraceEvent(records[n])); Committed(Extend(before.log, r), !r.Refused?)
  {
    assert records[..n + 1][..n] == records[..n];
  }

  /** Validate, rehearse, then record one by one, stopping at the first refusal. */
  method IngestTraceFile(ledger: TradeLedger, records: seq<TraceRecord>) returns (complete: bool)
    requires ledger.Valid()
    modifies ledger`file, ledger`events, ledger`byKey, ledger`unresolved
    ensures ledger.Valid()
    ensures Committed(ledger.Contents(), complete) == Ingest(old(ledger.Contents()), records)
  {
    if exists r :: r in records && !Normal(r) { return false; }
    var rehearsed := Preflight(ledger, records);
    if !rehearsed || records == [] { return false; }
    ghost var start := ledger.Contents();
    complete := true;
    for n := 0 to |records|
      invariant ledger.Valid()
      invariant Committed(ledger.Contents(), complete) == Commit(start, records[..n])
    {
      CommitNext(start, records, n);
      if complete {
        var r := ledger.Append(TraceEvent(records[n]));
        if r.Refused? { complete := false; }
      }
    }
    assert records[..|records|] == records;
  }
}
