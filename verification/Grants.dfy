/** Exactly when the capital firewall grants: issues, authorizes, reserves and revokes under new names. */
module Grants {
  import opened Options
  import opened Ledger
  import opened Firewall
  import opened Lawful

  const DAY: int := 86400

  /** The authorization was issued by exactly this event, and by no other. */
  predicate IssuedBy(log: Log, t: string, a: string, e: Event) {
    Select(log, IssuedFor(t, a)) == [e] && e.payload.Issue?
  }

  lemma IssuedByIsOnRecord(cap: real, log: Log, t: string, a: string)
    requires IsLawful(cap, log)
    ensures Select(log, IssuedFor(t, a)) == [] ==> GetAuthorization(log, t, a).None?
    ensures Select(log, IssuedFor(t, a)) != [] ==>
              var e := Select(log, IssuedFor(t, a))[0];
              && IssuedBy(log, t, a, e) && GetAuthorization(log, t, a).Some?
              && var auth := GetAuthorization(log, t, a).value;
                 && auth.tradeId == t && auth.authorizationId == a && auth.authorizedRisk == e.payload.authorizedRisk
                 && auth.issuedAt == e.payload.issuedAt && auth.expiresAt == e.payload.expiresAt
                 && (auth.status == Active <==> Select(log, RevokedFor(t, a)) == [])
  {
    IssuedOnceRevokedOnce(cap, log, t, a);
    SelectHead(log, IssuedFor(t, a));
  }

  lemma RecordExactly(log: Log, e: Event)
    requires e.tradeId != "" && !e.eventType.OtherType? && LegalNext(log, e)
    ensures NewNames(log, e.eventId, e.key) ==> Record(log, e) == Outcome(Recorded(log, e), None)
    ensures !NewNames(log, e.eventId, e.key) ==> Record(log, e).log == log
  {
    AppendedExactly(log, e);
  }

  /** The terms an authorization may be asked for. */
  predicate IssuableTerms(cap: real, t: string, a: string, risk: real, issued: int, expires: int, proof: Proof) {
    && t != "" && a != "" && 0.0 < risk <= cap
    && issued < expires <= issued + DAY
    && proof.riskAuthorizationId == a && proof.authorizationExpiry == expires
  }

  /** On every lawful ledger an authorization is issued exactly when its terms are in order, it fits under the cap at
      its instant of issue beside whatever is authorized then, nothing is unresolved, the trade is risk-reserved, it was
      never issued before, and its names are new. */
  lemma IssueExactly(cap: real, log: Log, t: string, a: string, risk: real, issued: int, expires: int, proof: Proof,
                     id: string, key: string)
    requires IsLawful(cap, log)
    ensures var out := IssueAuthorization(cap, log, t, a, risk, issued, expires, proof, id, key);
            && (out.log != log <==>
                  && IssuableTerms(cap, t, a, risk, issued, expires, proof)
                  && RiskAt(log, issued) + risk <= cap
                  && Unresolved(log) == {} && StateOf(log, t) == Some(RiskReserved)
                  && Select(log, IssuedFor(t, a)) == [] && NewNames(log, id, key))
            && (out.log != log ==>
                  out == Outcome(Recorded(log, Event(id, issued, t, None, AuthorizationIssued, key,
                                                     Issue(a, risk, issued, expires, proof))), None))
  {
    var e := Event(id, issued, t, None, AuthorizationIssued, key, Issue(a, risk, issued, expires, proof));
    TotalIsPlainSum(cap, log, issued);
    AppendedExactly(log, e);
    if FreshKey(log, key) { FreshKeyIsNotSeen(log, t, key); }
    IssuedOnceRevokedOnce(cap, log, t, a);
  }

  /** A trade is authorized exactly when its authorization was issued, is neither revoked nor expired, nothing is
      unresolved, the trade is risk-reserved, and the names are new. */
  lemma AuthorizeExactly(cap: real, log: Log, t: string, a: string, now: int, id: string, key: string)
    requires IsLawful(cap, log)
    ensures var out, issued := AuthorizeTrade(log, t, a, now, id, key), Select(log, IssuedFor(t, a));
            && (out.log != log <==>
                  && issued != [] && issued[0].payload.Issue? && now < issued[0].payload.expiresAt
                  && Select(log, RevokedFor(t, a)) == [] && Unresolved(log) == {}
                  && StateOf(log, t) == Some(RiskReserved) && NewNames(log, id, key))
            && (out.log != log ==>
                  out == Outcome(Recorded(log, Event(id, now, t, Some(Authorized), TradeAuthorized, key,
                                                     TradeAuthorization(a, issued[0].payload.expiresAt,
                                                                        issued[0].payload.authorizedRisk))), None))
  {
    IssuedByIsOnRecord(cap, log, t, a);
    if Select(log, IssuedFor(t, a)) != [] {
      var p := Select(log, IssuedFor(t, a))[0].payload;
      var e := Event(id, now, t, Some(Authorized), TradeAuthorized, key,
                     TradeAuthorization(a, p.expiresAt, p.authorizedRisk));
      LawfulIsWellFormed(cap, log);
      if StateOf(log, t) == Some(RiskReserved) {
        StateIsNamed(log, t);
        RecordExactly(log, e);
      }
      if FreshKey(log, key) { FreshKeyIsNotSeen(log, t, key); }
    }
  }

  /** Capital is reserved exactly when its authorization was issued, is neither revoked nor expired, the amount is
      positive and fits beside what is held already, the reservation id is new for the trade, nothing is unresolved, the
      trade is authorized, and the names are new. */
  lemma ReserveExactly(cap: real, log: Log, t: string, a: string, amount: real, r: string, now: int, id: string,
                       key: string)
    requires IsLawful(cap, log)
    ensures var out, issued := Reserve(log, t, a, amount, r, now, id, key), Select(log, IssuedFor(t, a));
            && (out.log != log <==>
                  && issued != [] && issued[0].payload.Issue? && now < issued[0].payload.expiresAt
                  && Select(log, RevokedFor(t, a)) == [] && Unresolved(log) == {}
                  && 0.0 < amount && ActiveReserved(log, t, a) + amount <= issued[0].payload.authorizedRisk
                  && Select(log, ReservedAs(t, r)) == []
                  && StateOf(log, t) == Some(Authorized) && NewNames(log, id, key))
            && (out.log != log ==>
                  out == Outcome(Recorded(log, Event(id, now, t, None, ReservationCreated, key,
                                                     Reservation(r, a, amount, issued[0].payload.expiresAt))), None))
  {
    IssuedByIsOnRecord(cap, log, t, a);
    if Select(log, IssuedFor(t, a)) != [] {
      ReservedWithinAuthorization(cap, log, t, a);
      LawfulIsWellFormed(cap, log);
      ReserveWithAuthorization(log, GetAuthorization(log, t, a).value, amount, r, now, id, key);
    }
  }

  /** What reserving comes to once the authorization is found. */
  lemma ReserveWithAuthorization(log: Log, auth: Authorization, amount: real, r: string, now: int, id: string,
                                 key: string)
    requires WellFormed(log) && GetAuthorization(log, auth.tradeId, auth.authorizationId) == Some(auth)
    ensures var out := Reserve(log, auth.tradeId, auth.authorizationId, amount, r, now, id, key);
            && (out.log != log <==>
                  && auth.status == Active && now < auth.expiresAt && !RiskBlocked(log)
                  && 0.0 < amount <= auth.authorizedRisk
                  && ActiveReserved(log, auth.tradeId, auth.authorizationId) + amount <= auth.authorizedRisk
                  && Select(log, ReservedAs(auth.tradeId, r)) == []
                  && StateOf(log, auth.tradeId) == Some(Authorized) && NewNames(log, id, key))
            && (out.log != log ==>
                  out == Outcome(Recorded(log, Event(id, now, auth.tradeId, None, ReservationCreated, key,
                                                     Reservation(r, auth.authorizationId, amount, auth.expiresAt))),
                                 None))
  {
    if StateOf(log, auth.tradeId) == Some(Authorized) {
      StateIsNamed(log, auth.tradeId);
      RecordExactly(log, Event(id, now, auth.tradeId, None, ReservationCreated, key,
                               Reservation(r, auth.authorizationId, amount, auth.expiresAt)));
    }
    if FreshKey(log, key) { FreshKeyIsNotSeen(log, auth.tradeId, key); }
  }

  /** An authorization is revoked exactly when it was issued, not after this instant, and not revoked before, a reason
      is given, nothing is unresolved, the trade is authorized, submitted or accepted, and the names are new. */
  lemma RevokeExactly(cap: real, log: Log, t: string, a: string, reason: string, now: int, id: string, key: string)
    requires IsLawful(cap, log)
    ensures var out := RevokeAuthorization(log, t, a, reason, now, id, key);
            var issued := Select(log, IssuedFor(t, a));
            && (out.log != log <==>
                  && !Blank(reason)
                  && issued != [] && issued[0].payload.Issue? && issued[0].payload.issuedAt <= now
                  && Select(log, RevokedFor(t, a)) == [] && Unresolved(log) == {}
                  && (StateOf(log, t) in {Some(Authorized), Some(OrderSubmitted), Some(Accepted)})
                  && NewNames(log, id, key))
            && (out.log != log ==>
                  out == Outcome(Recorded(log, Event(id, now, t, None, AuthorizationRevoked, key,
                                                     Revocation(a, reason, now))), None))
  {
    IssuedByIsOnRecord(cap, log, t, a);
    if Select(log, IssuedFor(t, a)) != [] {
      LawfulIsWellFormed(cap, log);
      RevokeWithAuthorization(log, GetAuthorization(log, t, a).value, reason, now, id, key);
    }
  }

  /** What revoking comes to once the authorization is found. */
  lemma RevokeWithAuthorization(log: Log, auth: Authorization, reason: string, now: int, id: string, key: string)
    requires WellFormed(log) && GetAuthorization(log, auth.tradeId, auth.authorizationId) == Some(auth)
    ensures var out := RevokeAuthorization(log, auth.tradeId, auth.authorizationId, reason, now, id, key);
            && (out.log != log <==>
                  && !Blank(reason) && auth.issuedAt <= now && auth.status == Active && !RiskBlocked(log)
                  && (StateOf(log, auth.tradeId) in {Some(Authorized), Some(OrderSubmitted), Some(Accepted)})
                  && NewNames(log, id, key))
            && (out.log != log ==>
                  out == Outcome(Recorded(log, Event(id, now, auth.tradeId, None, AuthorizationRevoked, key,
                                                     Revocation(auth.authorizationId, reason, now))), None))
  {
    if StateOf(log, auth.tradeId).Some? {
      StateIsNamed(log, auth.tradeId);
      RecordExactly(log, Event(id, now, auth.tradeId, None, AuthorizationRevoked, key,
                               Revocation(auth.authorizationId, reason, now)));
    }
    if FreshKey(log, key) { FreshKeyIsNotSeen(log, auth.tradeId, key); }
  }

  lemma BlankExactly(s: string)
    ensures Blank(s) <==> !exists c :: c in s && c !in " \t\n\r"
  {
    assert " \t\n\r" == [' '] + ['\t'] + ['\n'] + ['\r'];
    if !Blank(s) {
      var c :| c in s && c !in {' ', '\t', '\n', '\r'};
      assert c !in " \t\n\r";
    }
  }

  // ------------------------------------------------------------ before its time, nothing

  lemma {:induction false} NothingReserved(cap: real, log: Log, t: string, a: string, skip: set<string>)
    requires IsLawful(cap, log) && (StateOf(log, t).None? || Rank(StateOf(log, t).value) < Rank(Authorized))
    ensures HeldExcept(log, t, a, skip) == 0.0 && forall r :: Select(log, ReservedAs(t, r)) == []
  {
    if log.Recorded? {
      StepForward(log.before, log.last, t);
      NothingReserved(cap, log.before, t, a, skip);
    }
  }

  lemma {:induction false} NothingIssued(cap: real, log: Log, t: string, a: string)
    requires IsLawful(cap, log) && (StateOf(log, t).None? || Rank(StateOf(log, t).value) < Rank(RiskReserved))
    ensures Select(log, IssuedFor(t, a)) == []
  {
    if log.Recorded? {
      StepForward(log.before, log.last, t);
      NothingIssued(cap, log.before, t, a);
    }
  }
}
