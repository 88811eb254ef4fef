/** The authority pipeline: six idempotent steps that turn an admitted request into an envelope,
    and what happens when it is cut short and run again. */
module Pipeline {
  import opened Options
  import opened Ledger
  import opened TradeLedgers
  import opened Firewall
  import opened Lawful
  import opened Envelopes
  import opened Protocol

  datatype AuthorityRequest = AuthorityRequest(
    requestId: string, tradeId: string, facts: map<string, string>, authorizationId: string, reservationId: string,
    authorizedRisk: real, reservedRisk: real, issuedAt: int, expiresAt: int, proof: Proof)

  const STEPS: nat := 6

  function Suffix(n: nat): string {
    match n
    case 0 => "proposed"
    case 1 => "validated"
    case 2 => "risk-reserved"
    case 3 => "authorization-issued"
    case 4 => "trade-authorized"
    case _ => "reservation-created"
  }

  /** The idempotency key of a step, which is also its event id. */
  function StepKey(q: AuthorityRequest, n: nat): string {
    "cpv1:" + q.requestId + ":" + Suffix(n)
  }

  function StepState(n: nat): State {
    match n case 0 => Proposed case 1 => Validated case _ => RiskReserved
  }

  function Step(cap: real, log: Log, q: AuthorityRequest, now: int, n: nat): Outcome {
    var key := StepKey(q, n);
    if n <= 2 then Record(log, AdvanceEvent(q.tradeId, StepState(n), q.facts, q.issuedAt, key, key))
    else if n == 3 then
      IssueAuthorization(cap, log, q.tradeId, q.authorizationId, q.authorizedRisk, q.issuedAt, q.expiresAt, q.proof,
                         key, key)
    else if n == 4 then AuthorizeTrade(log, q.tradeId, q.authorizationId, now, key, key)
    else Reserve(log, q.tradeId, q.authorizationId, q.reservedRisk, q.reservationId, now, key, key)
  }

  /** What a pipeline does at each step: its `n`-th step on a log. */
  type Stepper = (Log, nat) -> Outcome

  function StepsOf(cap: real, q: AuthorityRequest, now: int): Stepper {
    (log: Log, n: nat) => Step(cap, log, q, now, n)
  }

  function Next(step: Stepper, sofar: Outcome, n: nat): Outcome {
    if sofar.error.Some? then sofar else step(sofar.log, n)
  }

  /** The first `k` steps, stopping at the first error. */
  function Steps(step: Stepper, log: Log, k: nat): Outcome {
    if k == 0 then Outcome(log, None) else Next(step, Steps(step, log, k - 1), k - 1)
  }

  datatype Authority = Authority(log: Log, envelope: Option<Envelope>)

  /** The whole pipeline: refused outright while any trade is unresolved. */
  function ProduceAuthority(cap: real, hash: EnvelopeHash, log: Log, q: AuthorityRequest, now: int): Authority {
    if RiskBlocked(log) then Authority(log, None)
    else
      var done := Steps(StepsOf(cap, q, now), log, STEPS);
      Authority(done.log,
                if done.error.Some? then None
                else BuildEnvelope(hash, done.log, q.tradeId, q.authorizationId, q.reservationId, q.reservedRisk, now))
  }

  // ------------------------------------------------------ logs alike up to timestamps

  function Erased(e: Event): Event {
    e.(timestamp := 0)
  }

  /** The same history, event by event, up to the timestamps. */
  predicate Alike(a: Log, b: Log) {
    match (a, b)
    case (Genesis, Genesis) => true
    case (Recorded(x, e), Recorded(y, f)) => Alike(x, y) && Erased(e) == Erased(f)
    case _ => false
  }

  lemma {:induction false} AlikeSelf(a: Log)
    ensures Alike(a, a)
  {
    if a.Recorded? { AlikeSelf(a.before); }
  }

  lemma {:induction false} AlikeState(a: Log, b: Log, t: string)
    requires Alike(a, b)
    ensures StateOf(a, t) == StateOf(b, t) && Unresolved(a) == Unresolved(b)
  {
    if a.Recorded? { AlikeState(a.before, b.before, t); }
  }

  lemma {:induction false} AlikeSelect(a: Log, b: Log, q: Query)
    requires Alike(a, b)
    ensures |Select(a, q)| == |Select(b, q)|
    ensures Select(a, q) != [] ==> Erased(Select(a, q)[0]) == Erased(Select(b, q)[0])
  {
    if a.Recorded? {
      AlikeSelect(a.before, b.before, q);
      assert Matches(q, a.last) == Matches(q, Erased(a.last)) == Matches(q, b.last);
    }
  }

  lemma {:induction false} AlikeHeldExcept(a: Log, b: Log, t: string, auth: string, skip: set<string>)
    requires Alike(a, b)
    ensures HeldExcept(a, t, auth, skip) == HeldExcept(b, t, auth, skip)
  {
    if a.Recorded? {
      AlikeHeldExcept(a.before, b.before, t, auth, skip);
      if IsReservation(a.last, t, auth) {
        AlikeHeldExcept(a.before, b.before, t, auth, skip + {a.last.payload.reservationId});
      }
    }
  }

  lemma {:induction false} AlikeReleased(a: Log, b: Log, t: string, auth: string)
    requires Alike(a, b)
    ensures ReleasedIds(a, t, auth) == ReleasedIds(b, t, auth)
  {
    if a.Recorded? { AlikeReleased(a.before, b.before, t, auth); }
  }

  lemma AlikeHeld(a: Log, b: Log, t: string, auth: string)
    requires Alike(a, b)
    ensures ActiveReserved(a, t, auth) == ActiveReserved(b, t, auth)
  {
    AlikeReleased(a, b, t, auth);
    AlikeHeldExcept(a, b, t, auth, ReleasedIds(a, t, auth));
  }

  lemma AlikeLive(a: Log, b: Log, e: Event, f: Event, t: int)
    requires Alike(a, b) && Erased(e) == Erased(f)
    ensures Live(a, e, t) == Live(b, f, t)
    ensures IsIssue(e) == IsIssue(f) && (IsIssue(e) ==> CountableIssue(a, e, t) == CountableIssue(b, f, t))
  {
    if IsIssue(e) {
      AlikeSelect(a, b, RevokedUntil(e.tradeId, e.payload.authorizationId, t));
      AlikeSelect(a, b, IssuedFor(e.tradeId, e.payload.authorizationId));
    }
  }

  lemma {:induction false} AlikeLiveRisk(p: Log, q: Log, a: Log, b: Log, t: int)
    requires Alike(a, b) && Alike(p, q)
    ensures LiveRisk(p, a, t) == LiveRisk(q, b, t) && Countable(p, a, t) == Countable(q, b, t)
  {
    if p.Recorded? {
      AlikeLiveRisk(p.before, q.before, a, b, t);
      AlikeLive(a, b, p.last, q.last, t);
    }
  }

  lemma AlikeTotal(a: Log, b: Log, t: int)
    requires Alike(a, b)
    ensures TotalAuthorizedRiskAt(a, t) == TotalAuthorizedRiskAt(b, t)
  {
    AlikeLiveRisk(a, b, a, b, t);
  }

  lemma AlikeAuthorization(a: Log, b: Log, t: string, auth: string)
    requires Alike(a, b)
    ensures GetAuthorization(a, t, auth) == GetAuthorization(b, t, auth)
  {
    AlikeSelect(a, b, IssuedFor(t, auth));
    AlikeSelect(a, b, RevokedFor(t, auth));
  }

  lemma AlikeReservation(a: Log, b: Log, t: string, auth: string, r: string)
    requires Alike(a, b)
    ensures ActiveReservation(a, t, auth, r) == ActiveReservation(b, t, auth, r)
  {
    AlikeSelect(a, b, ReservedFor(t, auth, r));
    AlikeSelect(a, b, ReleasedFor(t, auth, r));
  }

  lemma AlikeRetry(a: Log, b: Log, t: string, key: string, eventType: EventType, payload: Payload)
    requires Alike(a, b)
    ensures RetryOf(a, t, key, eventType, payload) == RetryOf(b, t, key, eventType, payload)
  {
    AlikeSelect(a, b, ByTradeKey(t, key));
  }

  ghost predicate SameOutcome(x: Outcome, y: Outcome) {
    x.error == y.error && Alike(x.log, y.log)
  }

  lemma AlikeAppend(a: Log, b: Log, x: Event, y: Event)
    requires Alike(a, b) && Erased(x) == Erased(y)
    ensures Append(a, x).Appended? == Append(b, y).Appended?
    ensures Append(a, x).Refused? == Append(b, y).Refused?
    ensures Append(a, x).Refused? ==> Append(a, x).error == Append(b, y).error
  {
    AlikeSelect(a, b, ById(x.eventId));
    AlikeSelect(a, b, ByKey(x.key));
    AlikeState(a, b, x.tradeId);
  }

  lemma ExtendedLog(log: Log, e: Event)
    ensures Record(log, e).log == if Append(log, e).Appended? then Recorded(log, e) else log
  {
  }

  lemma AlikeRecord(a: Log, b: Log, x: Event, y: Event)
    requires Alike(a, b) && Erased(x) == Erased(y)
    ensures SameOutcome(Record(a, x), Record(b, y))
  {
    AlikeAppend(a, b, x, y);
    ExtendedLog(a, x);
    ExtendedLog(b, y);
  }

  lemma AlikeIssueVerdict(cap: real, a: Log, b: Log, t: string, auth: string, risk: real, issued: int, payload: Payload,
                          key: string)
    requires Alike(a, b)
    ensures IssueVerdict(cap, a, t, auth, risk, issued, payload, key)
            == IssueVerdict(cap, b, t, auth, risk, issued, payload, key)
  {
    AlikeRetry(a, b, t, key, AuthorizationIssued, payload);
    AlikeSelect(a, b, IssuedFor(t, auth));
    AlikeAuthorization(a, b, t, auth);
    AlikeTotal(a, b, issued);
    AlikeState(a, b, t);
  }

  lemma AlikeIssue(cap: real, a: Log, b: Log, t: string, auth: string, risk: real, issued: int, expires: int,
                   proof: Proof, id: string, key: string)
    requires Alike(a, b)
    ensures SameOutcome(IssueAuthorization(cap, a, t, auth, risk, issued, expires, proof, id, key),
                        IssueAuthorization(cap, b, t, auth, risk, issued, expires, proof, id, key))
  {
    var payload := Issue(auth, risk, issued, expires, proof);
    var e := Event(id, issued, t, None, AuthorizationIssued, key, payload);
    AlikeIssueVerdict(cap, a, b, t, auth, risk, issued, payload, key);
    AlikeRecord(a, b, e, e);
    AlikeAuthorization(Record(a, e).log, Record(b, e).log, t, auth);
  }

  lemma AlikeAuthorizeVerdict(a: Log, b: Log, auth: Authorization, now: int, later: int, payload: Payload, key: string)
    requires Alike(a, b) && now < auth.expiresAt && later < auth.expiresAt
    ensures AuthorizeVerdict(a, auth, now, payload, key) == AuthorizeVerdict(b, auth, later, payload, key)
  {
    AlikeRetry(a, b, auth.tradeId, key, TradeAuthorized, payload);
    AlikeState(a, b, auth.tradeId);
  }

  lemma AlikeAuthorize(a: Log, b: Log, t: string, auth: string, now: int, later: int, id: string, key: string)
    requires Alike(a, b)
    requires GetAuthorization(a, t, auth).Some? ==>
               now < GetAuthorization(a, t, auth).value.expiresAt
               && later < GetAuthorization(a, t, auth).value.expiresAt
    ensures SameOutcome(AuthorizeTrade(a, t, auth, now, id, key), AuthorizeTrade(b, t, auth, later, id, key))
  {
    AlikeAuthorization(a, b, t, auth);
    var found := GetAuthorization(a, t, auth);
    if found.Some? {
      var payload := TradeAuthorization(auth, found.value.expiresAt, found.value.authorizedRisk);
      AlikeAuthorizeVerdict(a, b, found.value, now, later, payload, key);
      AlikeRecord(a, b, Event(id, now, t, Some(Authorized), TradeAuthorized, key, payload),
                  Event(id, later, t, Some(Authorized), TradeAuthorized, key, payload));
    }
  }

  lemma AlikeReserveVerdict(a: Log, b: Log, auth: Authorization, amount: real, r: string, now: int, later: int,
                            payload: Payload, key: string)
    requires Alike(a, b) && now < auth.expiresAt && later < auth.expiresAt
    ensures ReserveVerdict(a, auth, amount, r, now, payload, key)
            == ReserveVerdict(b, auth, amount, r, later, payload, key)
  {
    AlikeSelect(a, b, ReservedAs(auth.tradeId, r));
    AlikeRetry(a, b, auth.tradeId, key, ReservationCreated, payload);
    AlikeState(a, b, auth.tradeId);
    AlikeHeld(a, b, auth.tradeId, auth.authorizationId);
  }

  lemma AlikeReserve(a: Log, b: Log, t: string, auth: string, amount: real, r: string, now: int, later: int, id: string,
                     key: string)
    requires Alike(a, b)
    requires GetAuthorization(a, t, auth).Some? ==>
               now < GetAuthorization(a, t, auth).value.expiresAt
               && later < GetAuthorization(a, t, auth).value.expiresAt
    ensures SameOutcome(Reserve(a, t, auth, amount, r, now, id, key), Reserve(b, t, auth, amount, r, later, id, key))
  {
    AlikeAuthorization(a, b, t, auth);
    var found := GetAuthorization(a, t, auth);
    if found.Some? {
      var payload := Reservation(r, auth, amount, found.value.expiresAt);
      AlikeReserveVerdict(a, b, found.value, amount, r, now, later, payload, key);
      AlikeRecord(a, b, Event(id, now, t, None, ReservationCreated, key, payload),
                  Event(id, later, t, None, ReservationCreated, key, payload));
    }
  }

  lemma AlikeStep(cap: real, a: Log, b: Log, q: AuthorityRequest, now: int, later: int, n: nat)
    requires Alike(a, b)
    requires n >= 4 && GetAuthorization(a, q.tradeId, q.authorizationId).Some? ==>
               now < GetAuthorization(a, q.tradeId, q.authorizationId).value.expiresAt
               && later < GetAuthorization(a, q.tradeId, q.authorizationId).value.expiresAt
    ensures SameOutcome(Step(cap, a, q, now, n), Step(cap, b, q, later, n))
  {
    var key := StepKey(q, n);
    if n <= 2 {
      var e := AdvanceEvent(q.tradeId, StepState(n), q.facts, q.issuedAt, key, key);
      AlikeRecord(a, b, e, e);
    } else if n == 3 {
      AlikeIssue(cap, a, b, q.tradeId, q.authorizationId, q.authorizedRisk, q.issuedAt, q.expiresAt, q.proof, key, key);
    } else if n == 4 {
      AlikeAuthorize(a, b, q.tradeId, q.authorizationId, now, later, key, key);
    } else {
      AlikeReserve(a, b, q.tradeId, q.authorizationId, q.reservedRisk, q.reservationId, now, later, key, key);
    }
  }

  // -------------------------------------------------- what a finished step leaves behind

  /** `longer` adds to `log` only events whose id is their key, as the pipeline's are. */
  predicate OwnIds(log: Log, longer: Log) {
    longer == log || (longer.Recorded? && longer.last.eventId == longer.last.key && OwnIds(log, longer.before))
  }

  lemma {:induction false} OwnIdsExtends(log: Log, longer: Log)
    requires OwnIds(log, longer)
    ensures Extends(log, longer)
  {
    if longer != log { OwnIdsExtends(log, longer.before); }
  }

  lemma {:induction false} OwnIdsTransitive(a: Log, b: Log, c: Log)
    requires OwnIds(a, b) && OwnIds(b, c)
    ensures OwnIds(a, c)
  {
    if c != b { OwnIdsTransitive(a, b, c.before); }
  }

  lemma {:induction false} OldOrOwn(log: Log, longer: Log, x: Event)
    requires OwnIds(log, longer) && Has(longer, x)
    ensures Has(log, x) || x.eventId == x.key
  {
    if longer != log && longer.last != x { OldOrOwn(log, longer.before, x); }
  }

  lemma StepLawful(cap: real, log: Log, q: AuthorityRequest, now: int, n: nat)
    requires IsLawful(cap, log)
    ensures LawfulExtension(cap, log, Step(cap, log, q, now, n).log)
  {
    var key := StepKey(q, n);
    if n <= 2 {
      AppendLawful(cap, log, AdvanceEvent(q.tradeId, StepState(n), q.facts, q.issuedAt, key, key));
    } else if n == 3 {
      IssueLawful(cap, log, q.tradeId, q.authorizationId, q.authorizedRisk, q.issuedAt, q.expiresAt, q.proof, key, key);
    } else if n == 4 {
      AuthorizeLawful(cap, log, q.tradeId, q.authorizationId, now, key, key);
    } else {
      ReserveLawful(cap, log, q.tradeId, q.authorizationId, q.reservedRisk, q.reservationId, now, key, key);
    }
  }

  lemma RecordOwn(log: Log, e: Event)
    requires e.eventId == e.key && !LeavesUnresolved(e.eventType) && e.state !in {Some(Rejected), Some(Reconciled)}
    ensures OwnIds(log, Record(log, e).log) && Unresolved(Record(log, e).log) == Unresolved(log)
  {
    ExtendedLog(log, e);
  }

  /** A step adds at most events of its own, and leaves nothing unresolved. */
  lemma StepOwn(cap: real, log: Log, q: AuthorityRequest, now: int, n: nat)
    ensures OwnIds(log, Step(cap, log, q, now, n).log)
    ensures Unresolved(Step(cap, log, q, now, n).log) == Unresolved(log)
  {
    var key, t, a := StepKey(q, n), q.tradeId, q.authorizationId;
    if n <= 2 {
      RecordOwn(log, AdvanceEvent(t, StepState(n), q.facts, q.issuedAt, key, key));
    } else if n == 3 {
      RecordOwn(log, Event(key, q.issuedAt, t, None, AuthorizationIssued, key,
                           Issue(a, q.authorizedRisk, q.issuedAt, q.expiresAt, q.proof)));
    } else if GetAuthorization(log, t, a).Some? {
      var auth := GetAuthorization(log, t, a).value;
      if n == 4 {
        RecordOwn(log, Event(key, now, t, Some(Authorized), TradeAuthorized, key,
                             TradeAuthorization(a, auth.expiresAt, auth.authorizedRisk)));
      } else {
        RecordOwn(log, Event(key, now, t, None, ReservationCreated, key,
                             Reservation(q.reservationId, a, q.reservedRisk, auth.expiresAt)));
      }
    }
  }

  // ------------------------------------------------------ a finished step is a no-op

  lemma {:induction false} KeyOnce(log: Log, t: string, key: string)
    requires Sound(log)
    ensures |Select(log, ByTradeKey(t, key))| <= 1
    ensures FreshKey(log, key) ==> Select(log, ByTradeKey(t, key)) == []
  {
    if log.Recorded? { KeyOnce(log.before, t, key); }
  }

  /** A recorded request is recognised. */
  lemma SeenIsSame(log: Log, known: Event)
    requires Sound(log) && Has(log, known)
    ensures RetryOf(log, known.tradeId, known.key, known.eventType, known.payload) == SameRequest
  {
    KeyOnce(log, known.tradeId, known.key);
    Selected(log, ByTradeKey(known.tradeId, known.key), known);
  }

  /** After a write or a recognised retry, the request is on the log. */
  lemma SameIsSeen(log: Log, t: string, key: string, eventType: EventType, payload: Payload) returns (known: Event)
    requires RetryOf(log, t, key, eventType, payload) == SameRequest
    ensures Has(log, known) && known.tradeId == t && known.key == key && known.eventType == eventType
            && known.payload == payload
  {
    SelectHead(log, ByTradeKey(t, key));
    known := Select(log, ByTradeKey(t, key))[0];
  }

  lemma RecordedIsSeen(log: Log, e: Event) returns (known: Event)
    requires Record(log, e).error.None?
    ensures Has(Record(log, e).log, known) && known.key == e.key && SameSemantics(known, e)
  {
    if Append(log, e).Existing? {
      ExistingIsOnRecord(log, e);
      known := Append(log, e).event;
    } else {
      AppendedFollows(log, e);
      known := e;
    }
  }

  /** The terms of an authorization never change. */
  lemma AuthorizationStays(cap: real, log: Log, longer: Log, t: string, a: string)
    requires IsLawful(cap, longer) && Extends(log, longer) && GetAuthorization(log, t, a).Some?
    ensures GetAuthorization(longer, t, a).Some?
    ensures var x, y := GetAuthorization(log, t, a).value, GetAuthorization(longer, t, a).value;
            x.expiresAt == y.expiresAt && x.authorizedRisk == y.authorizedRisk
  {
    IssuedOnceRevokedOnce(cap, longer, t, a);
    SelectSame(log, longer, IssuedFor(t, a));
  }

  lemma AdvanceStays(cap: real, log: Log, longer: Log, e: Event)
    requires IsLawful(cap, log) && e.eventId == e.key && Record(log, e).error.None?
    requires IsLawful(cap, longer) && OwnIds(Record(log, e).log, longer)
    ensures Record(longer, e) == Outcome(longer, None)
  {
    LawfulIsWellFormed(cap, log);
    LawfulIsWellFormed(cap, longer);
    var done := Record(log, e).log;
    var known := RecordedIsSeen(log, e);
    OwnIdsExtends(done, longer);
    ExtendsHas(done, longer, known);
    forall x | Has(longer, x) && x.eventId == e.eventId ensures x == known {
      OldOrOwn(done, longer, x);
      SameIdIsSameEvent(longer, x, known);
      if Has(done, x) { DoneIdIsKnown(log, e, known, x); }
    }
    RetryExactly(longer, known, e);
  }

  lemma DoneIdIsKnown(log: Log, e: Event, known: Event, x: Event)
    requires WellFormed(log) && Sound(log) && Record(log, e).error.None? && e.eventId == e.key
    requires Has(Record(log, e).log, known) && known.key == e.key
    requires Has(Record(log, e).log, x) && x.eventId == e.eventId
    ensures x.key == known.key
  {
    ExtendedLog(log, e);
    if Append(log, e).Appended? {
      AppendedFollows(log, e);
      FreshExactly(log, e.eventId, e.key);
    } else {
      RetryExactly(log, known, e);
      ExistingIsOnRecord(log, e);
      SameIdIsSameEvent(log, known, Append(log, e).event);
    }
  }

  lemma IssueStays(cap: real, log: Log, longer: Log, q: AuthorityRequest, now: int, later: int)
    requires IsLawful(cap, log) && Step(cap, log, q, now, 3).error.None?
    requires IsLawful(cap, longer) && Extends(Step(cap, log, q, now, 3).log, longer)
    ensures Step(cap, longer, q, later, 3) == Outcome(longer, None)
    ensures GetAuthorization(longer, q.tradeId, q.authorizationId).Some?
    ensures GetAuthorization(longer, q.tradeId, q.authorizationId).value.expiresAt == q.expiresAt
  {
    var key, t, a := StepKey(q, 3), q.tradeId, q.authorizationId;
    var payload := Issue(a, q.authorizedRisk, q.issuedAt, q.expiresAt, q.proof);
    var done := Step(cap, log, q, now, 3).log;
    var known := IssueIsSeen(cap, log, q, now);
    LawfulIsWellFormed(cap, longer);
    ExtendsHas(done, longer, known);
    SeenIsSame(longer, known);
    AuthorizationStays(cap, done, longer, t, a);
    IssueTermsStay(cap, longer, known);
  }

  lemma IssueTermsStay(cap: real, log: Log, known: Event)
    requires IsLawful(cap, log) && Has(log, known) && known.eventType == AuthorizationIssued && known.payload.Issue?
    ensures var auth := GetAuthorization(log, known.tradeId, known.payload.authorizationId);
            auth.Some? && auth.value.expiresAt == known.payload.expiresAt
  {
    IssuedOnceRevokedOnce(cap, log, known.tradeId, known.payload.authorizationId);
    Selected(log, IssuedFor(known.tradeId, known.payload.authorizationId), known);
  }

  lemma IssueIsSeen(cap: real, log: Log, q: AuthorityRequest, now: int) returns (known: Event)
    requires Step(cap, log, q, now, 3).error.None?
    ensures Has(Step(cap, log, q, now, 3).log, known)
    ensures known.tradeId == q.tradeId && known.key == StepKey(q, 3) && known.eventType == AuthorizationIssued
    ensures known.payload == Issue(q.authorizationId, q.authorizedRisk, q.issuedAt, q.expiresAt, q.proof)
    ensures GetAuthorization(Step(cap, log, q, now, 3).log, q.tradeId, q.authorizationId).Some?
  {
    var key, t := StepKey(q, 3), q.tradeId;
    var payload := Issue(q.authorizationId, q.authorizedRisk, q.issuedAt, q.expiresAt, q.proof);
    if RetryOf(log, t, key, AuthorizationIssued, payload) == SameRequest {
      known := SameIsSeen(log, t, key, AuthorizationIssued, payload);
    } else {
      known := RecordedIsSeen(log, Event(key, q.issuedAt, t, None, AuthorizationIssued, key, payload));
    }
  }

  lemma AuthorizeStays(cap: real, log: Log, longer: Log, q: AuthorityRequest, now: int, later: int)
    requires IsLawful(cap, log) && Step(cap, log, q, now, 4).error.None?
    requires IsLawful(cap, longer) && Extends(Step(cap, log, q, now, 4).log, longer)
    ensures Step(cap, longer, q, later, 4) == Outcome(longer, None)
  {
    var key, t, a := StepKey(q, 4), q.tradeId, q.authorizationId;
    var done := Step(cap, log, q, now, 4).log;
    StepLawful(cap, log, q, now, 4);
    ExtendsTransitive(log, done, longer);
    AuthorizationStays(cap, log, longer, t, a);
    var auth := GetAuthorization(log, t, a).value;
    var payload := TradeAuthorization(a, auth.expiresAt, auth.authorizedRisk);
    var known;
    if RetryOf(log, t, key, TradeAuthorized, payload) == SameRequest {
      known := SameIsSeen(log, t, key, TradeAuthorized, payload);
    } else {
      known := RecordedIsSeen(log, Event(key, now, t, Some(Authorized), TradeAuthorized, key, payload));
    }
    LawfulIsWellFormed(cap, longer);
    ExtendsHas(done, longer, known);
    SeenIsSame(longer, known);
  }

  lemma ReserveStays(cap: real, log: Log, longer: Log, q: AuthorityRequest, now: int, later: int)
    requires IsLawful(cap, log) && Step(cap, log, q, now, 5).error.None?
    requires IsLawful(cap, longer) && Extends(Step(cap, log, q, now, 5).log, longer)
    ensures Step(cap, longer, q, later, 5) == Outcome(longer, None)
  {
    var key, t, a, r := StepKey(q, 5), q.tradeId, q.authorizationId, q.reservationId;
    var done := Step(cap, log, q, now, 5).log;
    StepLawful(cap, log, q, now, 5);
    ExtendsTransitive(log, done, longer);
    AuthorizationStays(cap, log, longer, t, a);
    var payload := Reservation(r, a, q.reservedRisk, GetAuthorization(log, t, a).value.expiresAt);
    var known := ReserveIsSeen(cap, log, q, now, payload);
    ExtendsHas(done, longer, known);
    ReservedOnce(cap, longer, t, r);
    Selected(longer, ReservedAs(t, r), known);
  }

  lemma ReserveIsSeen(cap: real, log: Log, q: AuthorityRequest, now: int, payload: Payload) returns (known: Event)
    requires Step(cap, log, q, now, 5).error.None?
    requires GetAuthorization(log, q.tradeId, q.authorizationId).Some?
    requires payload == Reservation(q.reservationId, q.authorizationId, q.reservedRisk,
                                    GetAuthorization(log, q.tradeId, q.authorizationId).value.expiresAt)
    ensures Has(Step(cap, log, q, now, 5).log, known) && Matches(ReservedAs(q.tradeId, q.reservationId), known)
            && known.payload == payload
  {
    var key, t := StepKey(q, 5), q.tradeId;
    if Select(log, ReservedAs(t, q.reservationId)) != [] {
      SelectHead(log, ReservedAs(t, q.reservationId));
      known := Select(log, ReservedAs(t, q.reservationId))[0];
    } else if RetryOf(log, t, key, ReservationCreated, payload) == SameRequest {
      known := SameIsSeen(log, t, key, ReservationCreated, payload);
    } else {
      known := RecordedIsSeen(log, Event(key, now, t, None, ReservationCreated, key, payload));
    }
  }

  /** Run again on any later ledger the pipeline made, a finished step succeeds and writes nothing. */
  lemma StepStays(cap: real, log: Log, longer: Log, q: AuthorityRequest, now: int, later: int, n: nat)
    requires IsLawful(cap, log) && Step(cap, log, q, now, n).error.None? && n < STEPS
    requires IsLawful(cap, longer) && OwnIds(Step(cap, log, q, now, n).log, longer)
    ensures Step(cap, longer, q, later, n) == Outcome(longer, None)
  {
    OwnIdsExtends(Step(cap, log, q, now, n).log, longer);
    if n <= 2 {
      AdvanceStays(cap, log, longer,
                   AdvanceEvent(q.tradeId, StepState(n), q.facts, q.issuedAt, StepKey(q, n), StepKey(q, n)));
    } else if n == 3 {
      IssueStays(cap, log, longer, q, now, later);
    } else if n == 4 {
      AuthorizeStays(cap, log, longer, q, now, later);
    } else {
      ReserveStays(cap, log, longer, q, now, later);
    }
  }

  // ------------------------------------------------------------------ resumption

  /** Steps keep the ledger lawful, add only events of their own, and leave nothing unresolved. */
  ghost predicate Honest(cap: real, step: Stepper) {
    forall log, n :: IsLawful(cap, log) ==> HonestStep(cap, log, step(log, n).log)
  }

  ghost predicate HonestStep(cap: real, log: Log, longer: Log) {
    IsLawful(cap, longer) && OwnIds(log, longer) && Unresolved(longer) == Unresolved(log)
  }

  /** A step that `a` finished is a no-op for `b` on every later ledger of the pipeline. */
  ghost predicate Finished(cap: real, a: Stepper, b: Stepper) {
    forall log: Log, longer: Log, n: nat ::
      n < STEPS && IsLawful(cap, log) && IsLawful(cap, longer) && a(log, n).error.None? && OwnIds(a(log, n).log, longer)
      ==> b(longer, n) == Outcome(longer, None)
  }

  lemma PipelineIsHonest(cap: real, q: AuthorityRequest, now: int)
    ensures Honest(cap, StepsOf(cap, q, now))
  {
    var step := StepsOf(cap, q, now);
    forall log, n | IsLawful(cap, log) ensures HonestStep(cap, log, step(log, n).log) {
      StepLawful(cap, log, q, now, n);
      StepOwn(cap, log, q, now, n);
    }
  }

  lemma PipelineFinishes(cap: real, q: AuthorityRequest, now: int, later: int)
    ensures Finished(cap, StepsOf(cap, q, now), StepsOf(cap, q, later))
  {
    var a, b := StepsOf(cap, q, now), StepsOf(cap, q, later);
    forall log: Log, longer: Log, n: nat |
      n < STEPS && IsLawful(cap, log) && IsLawful(cap, longer) && a(log, n).error.None? && OwnIds(a(log, n).log, longer)
      ensures b(longer, n) == Outcome(longer, None)
    {
      StepStays(cap, log, longer, q, now, later, n);
    }
  }

  lemma {:induction false} StepsHonest(cap: real, step: Stepper, log: Log, j: nat, k: nat)
    requires Honest(cap, step) && IsLawful(cap, log) && j <= k
    ensures HonestStep(cap, Steps(step, log, j).log, Steps(step, log, k).log) && IsLawful(cap, Steps(step, log, j).log)
    ensures Steps(step, log, k).error.None? ==> Steps(step, log, j).error.None?
    decreases k
  {
    if k > 0 {
      var before := Steps(step, log, k - 1);
      StepsHonest(cap, step, log, if j < k then j else k - 1, k - 1);
      assert HonestStep(cap, before.log, step(before.log, k - 1).log);
      if j < k && before.error.None? {
        OwnIdsTransitive(Steps(step, log, j).log, before.log, Steps(step, log, k).log);
      }
    }
  }

  /** On the ledger an interrupted run left, the steps it finished all succeed and write nothing. */
  lemma {:induction false} FinishedStepsAreNoops(cap: real, a: Stepper, b: Stepper, log: Log, j: nat, k: nat)
    requires Honest(cap, a) && Finished(cap, a, b)
    requires IsLawful(cap, log) && j <= k <= STEPS && Steps(a, log, k).error.None?
    ensures Steps(b, Steps(a, log, k).log, j) == Outcome(Steps(a, log, k).log, None)
    decreases j
  {
    if j > 0 {
      var before, cut := Steps(a, log, j - 1), Steps(a, log, k).log;
      FinishedStepsAreNoops(cap, a, b, log, j - 1, k);
      StepsHonest(cap, a, log, j - 1, k);
      StepsHonest(cap, a, log, j, k);
      assert a(before.log, j - 1) == Steps(a, log, j);
      assert b(cut, j - 1) == Outcome(cut, None);
    }
  }

  predicate InForce(log: Log, q: AuthorityRequest) {
    var auth := GetAuthorization(log, q.tradeId, q.authorizationId);
    auth.Some? && auth.value.expiresAt == q.expiresAt
  }

  /** From the issue step on, the authorization is there with the requested expiry. */
  ghost predicate PutsInForce(cap: real, q: AuthorityRequest, step: Stepper) {
    forall log: Log, n: nat :: IsLawful(cap, log) && n >= 4 && Steps(step, log, n).error.None?
      ==> InForce(Steps(step, log, n).log, q)
  }

  /** On alike ledgers the two pipelines take alike steps, once the authorization is in force. */
  ghost predicate Agree(q: AuthorityRequest, a: Stepper, b: Stepper) {
    forall x: Log, y: Log, n: nat :: Alike(x, y) && (n >= 4 ==> InForce(x, q)) ==> SameOutcome(a(x, n), b(y, n))
  }

  lemma AuthorizationInForce(cap: real, log: Log, q: AuthorityRequest, now: int, k: nat)
    requires IsLawful(cap, log) && 4 <= k && Steps(StepsOf(cap, q, now), log, k).error.None?
    ensures InForce(Steps(StepsOf(cap, q, now), log, k).log, q)
  {
    var step := StepsOf(cap, q, now);
    PipelineIsHonest(cap, q, now);
    StepsHonest(cap, step, log, 3, k);
    StepsHonest(cap, step, log, 4, k);
    var before, after := Steps(step, log, 3).log, Steps(step, log, 4);
    assert after == Step(cap, before, q, now, 3);
    OwnIdsExtends(after.log, Steps(step, log, k).log);
    IssueStays(cap, before, Steps(step, log, k).log, q, now, now);
  }

  lemma PipelinePutsInForce(cap: real, q: AuthorityRequest, now: int)
    ensures PutsInForce(cap, q, StepsOf(cap, q, now))
  {
    var step := StepsOf(cap, q, now);
    forall log: Log, n: nat | IsLawful(cap, log) && n >= 4 && Steps(step, log, n).error.None?
      ensures InForce(Steps(step, log, n).log, q)
    {
      AuthorizationInForce(cap, log, q, now, n);
    }
  }

  /** Taken at two times before expiry on alike ledgers, a step has alike outcomes. */
  lemma PipelinesAgree(cap: real, q: AuthorityRequest, now: int, later: int)
    requires now < q.expiresAt && later < q.expiresAt
    ensures Agree(q, StepsOf(cap, q, now), StepsOf(cap, q, later))
  {
    var a, b := StepsOf(cap, q, now), StepsOf(cap, q, later);
    forall x: Log, y: Log, n: nat | Alike(x, y) && (n >= 4 ==> InForce(x, q)) ensures SameOutcome(a(x, n), b(y, n)) {
      AlikeStep(cap, x, y, q, now, later, n);
    }
  }

  /** Interrupted after `k` steps by `a` and taken up by `b`, the pipeline goes on to the same ledger, up to
      timestamps. */
  lemma {:induction false} ResumedStepsAlike(cap: real, q: AuthorityRequest, a: Stepper, b: Stepper, log: Log, k: nat,
                                             j: nat)
    requires Honest(cap, a) && Finished(cap, a, b) && PutsInForce(cap, q, b) && Agree(q, b, a)
    requires IsLawful(cap, log) && k <= j <= STEPS && Steps(a, log, k).error.None?
    ensures SameOutcome(Steps(b, Steps(a, log, k).log, j), Steps(a, log, j))
    decreases j
  {
    var cut := Steps(a, log, k).log;
    if j == k {
      FinishedStepsAreNoops(cap, a, b, log, k, k);
      AlikeSelf(cut);
    } else {
      ResumedStepsAlike(cap, q, a, b, log, k, j - 1);
      StepsHonest(cap, a, log, k, k);
      var x, y := Steps(b, cut, j - 1), Steps(a, log, j - 1);
      if x.error.None? {
        assert j - 1 >= 4 ==> InForce(x.log, q);
        assert SameOutcome(b(x.log, j - 1), a(y.log, j - 1));
      }
    }
  }

  lemma AlikeEnvelope(hash: EnvelopeHash, a: Log, b: Log, t: string, auth: string, r: string, required: real, now: int,
                      later: int)
    requires Alike(a, b)
    requires GetAuthorization(a, t, auth).Some? && now < GetAuthorization(a, t, auth).value.expiresAt
                                                && later < GetAuthorization(a, t, auth).value.expiresAt
    ensures BuildEnvelope(hash, a, t, auth, r, required, now) == BuildEnvelope(hash, b, t, auth, r, required, later)
  {
    AlikeAuthorization(a, b, t, auth);
    AlikeReservation(a, b, t, auth, r);
    AlikeState(a, b, t);
    AlikeHeld(a, b, t, auth);
  }

  /** Crash resumption: cut after any number of its steps, reloaded, and run again before expiry, the pipeline ends
      with the ledger of the uninterrupted run, up to timestamps and without duplicates, and the same envelope. */
  lemma CrashedPipelineResumes(cap: real, hash: EnvelopeHash, log: Log, q: AuthorityRequest, now: int, later: int,
                               k: nat)
    requires IsLawful(cap, log) && !RiskBlocked(log)
    requires k <= STEPS && Steps(StepsOf(cap, q, now), log, k).error.None?
    requires now < q.expiresAt && later < q.expiresAt
    ensures var again := ProduceAuthority(cap, hash, Steps(StepsOf(cap, q, now), log, k).log, q, later);
            var whole := ProduceAuthority(cap, hash, log, q, now);
            Alike(again.log, whole.log) && WellFormed(again.log) && again.envelope == whole.envelope
  {
    var first, again := StepsOf(cap, q, now), StepsOf(cap, q, later);
    var cut := Steps(first, log, k).log;
    PipelineIsHonest(cap, q, now);
    PipelineIsHonest(cap, q, later);
    StepsHonest(cap, first, log, 0, k);
    StepsHonest(cap, again, cut, 0, STEPS);
    PipelineFinishes(cap, q, now, later);
    PipelinePutsInForce(cap, q, later);
    PipelinesAgree(cap, q, later, now);
    ResumedStepsAlike(cap, q, first, again, log, k, STEPS);
    var redone, whole := Steps(again, cut, STEPS), Steps(first, log, STEPS);
    LawfulIsWellFormed(cap, redone.log);
    if redone.error.None? {
      AuthorizationInForce(cap, cut, q, later, STEPS);
      AlikeEnvelope(hash, redone.log, whole.log, q.tradeId, q.authorizationId, q.reservationId, q.reservedRisk, later,
                    now);
    }
  }
}
