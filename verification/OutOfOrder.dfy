/** A run that issues two authorizations out of order and authorizes twice the cap at one instant. */
module OutOfOrder {
  import opened Options
  import opened Ledger
  import opened Firewall
  import opened Lawful
  import opened Protocol
  import opened Liveness

  /** Nothing is unresolved on a safe system. */
  ghost predicate Calm(c: Config, s: System) {
    Safe(c, s) && Unresolved(s.log) == {}
  }

  lemma AdvanceOnce(c: Config, s: System, trade: string, state: State, other: string) returns (op: Op)
    requires Calm(c, s) && trade != "" && other != trade
    requires ControlPlaneState(state)
    requires if StateOf(s.log, trade).None? then state == Proposed else Allowed(StateOf(s.log, trade).value, state)
    ensures var s' := Exec(c, s, op);
            && Calm(c, s') && s'.calls == s.calls
            && StateOf(s'.log, trade) == Some(state) && StateOf(s'.log, other) == StateOf(s.log, other)
            && (forall t :: RiskAt(s'.log, t) == RiskAt(s.log, t))
            && (forall x, a :: Select(s'.log, IssuedFor(x, a)) == Select(s.log, IssuedFor(x, a)))
  {
    var name := Unused(s.log);
    op := Advance(trade, state, map[], 0, name, name);
    var e := AdvanceEvent(trade, state, map[], 0, name, name);
    UnusedIsFresh(s.log);
    NewEventIsAppended(s.log, e);
    ExecSafe(c, s, op);
    forall t ensures RiskAt(Recorded(s.log, e), t) == RiskAt(s.log, t) { LiveRiskIgnores(s.log, s.log, e, t); }
  }

  lemma {:induction false} LiveRiskIgnores(part: Log, log: Log, e: Event, t: int)
    requires e.eventType.ControlPlane?
    ensures LiveRisk(part, Recorded(log, e), t) == LiveRisk(part, log, t)
  {
    if part.Recorded? {
      LiveRiskIgnores(part.before, log, e, t);
      LiveAfterOther(log, e, part.last, t);
    }
  }

  /** Nothing was issued or sent, and the other trade stayed where it was. */
  ghost predicate Untouched(s: System, s': System, other: string) {
    && s'.calls == s.calls
    && StateOf(s'.log, other) == StateOf(s.log, other)
    && (forall t :: RiskAt(s'.log, t) == RiskAt(s.log, t))
    && (forall x, a :: Select(s'.log, IssuedFor(x, a)) == Select(s.log, IssuedFor(x, a)))
  }

  /** Admission brings a new trade to the state in which authorizations are issued. */
  lemma Admit(c: Config, s: System, trade: string, other: string) returns (ops: seq<Op>)
    requires Calm(c, s) && trade != "" && other != trade && StateOf(s.log, trade).None?
    ensures var s' := Run(c, s, ops);
            Calm(c, s') && StateOf(s'.log, trade) == Some(RiskReserved) && Untouched(s, s', other)
  {
    var propose := AdvanceOnce(c, s, trade, Proposed, other);
    var s1 := Exec(c, s, propose);
    var validate := AdvanceOnce(c, s1, trade, Validated, other);
    var s2 := Exec(c, s1, validate);
    var reserve := AdvanceOnce(c, s2, trade, RiskReserved, other);
    RunOne(c, s, propose);
    RunSnoc(c, s, [propose], validate);
    RunSnoc(c, s, [propose] + [validate], reserve);
    ops := [propose] + [validate] + [reserve];
  }

  function WindowProof(authorizationId: string, until: int): Proof {
    Proof("", "EURUSD", "M5", "", "", "", "", authorizationId, until, "", "")
  }

  /** The whole cap is granted for a window at whose start nothing is authorized yet. */
  lemma GrantCap(c: Config, s: System, trade: string, other: string, from: int, until: int) returns (op: Op)
    requires Calm(c, s) && c.cap > 0.0 && trade != "" && other != trade
             && from < until <= from + MAX_AUTHORIZATION_LIFETIME
    requires StateOf(s.log, trade) == Some(RiskReserved)
    requires Select(s.log, IssuedFor(trade, trade)) == [] && RiskAt(s.log, from) == 0.0
    ensures var s' := Exec(c, s, op);
            && Calm(c, s')
            && StateOf(s'.log, other) == StateOf(s.log, other)
            && (forall t :: RiskAt(s'.log, t) == RiskAt(s.log, t) + if from <= t < until then c.cap else 0.0)
            && (forall a :: Select(s'.log, IssuedFor(other, a)) == Select(s.log, IssuedFor(other, a)))
  {
    var name := Unused(s.log);
    var proof := WindowProof(trade, until);
    op := IssueOp(trade, trade, c.cap, from, until, proof, name, name);
    var e := Event(name, from, trade, None, AuthorizationIssued, name, Issue(trade, c.cap, from, until, proof));
    UnusedIsFresh(s.log);
    GrantIsWritten(c.cap, s.log, trade, from, until, proof, e);
    ExecSafe(c, s, op);
    forall t ensures RiskAt(Recorded(s.log, e), t) == RiskAt(s.log, t) + if from <= t < until then c.cap else 0.0 {
      RiskAtSnoc(c.cap, s.log, e, t);
    }
  }

  lemma GrantIsWritten(cap: real, log: Log, trade: string, from: int, until: int, proof: Proof, e: Event)
    requires IsLawful(cap, log) && Unresolved(log) == {} && cap > 0.0 && trade != ""
    requires from < until <= from + MAX_AUTHORIZATION_LIFETIME && proof == WindowProof(trade, until)
    requires StateOf(log, trade) == Some(RiskReserved) && Select(log, IssuedFor(trade, trade)) == []
             && RiskAt(log, from) == 0.0
    requires FreshId(log, e.eventId) && FreshKey(log, e.key) && e.eventId != "" && e.key != ""
    requires e == Event(e.eventId, from, trade, None, AuthorizationIssued, e.key, Issue(trade, cap, from, until, proof))
    ensures IssueAuthorization(cap, log, trade, trade, cap, from, until, proof, e.eventId, e.key).log
            == Recorded(log, e)
    ensures Guard(cap, log, e)
  {
    TotalIsPlainSum(cap, log, from);
    FreshKeyIsNotSeen(log, trade, e.key);
    NewEventIsAppended(log, e);
  }

  /** Both trades are ready and nothing is authorized. */
  ghost predicate BothReady(c: Config, s: System, a: string, b: string) {
    && Calm(c, s) && a != "" && b != "" && a != b
    && StateOf(s.log, a) == Some(RiskReserved) && StateOf(s.log, b) == Some(RiskReserved)
    && Select(s.log, IssuedFor(a, a)) == [] && Select(s.log, IssuedFor(b, b)) == []
    && forall t :: RiskAt(s.log, t) == 0.0
  }

  lemma AdmitBoth(c: Config, a: string, b: string) returns (ops: seq<Op>)
    requires a != "" && b != "" && a != b
    ensures BothReady(c, Run(c, INITIAL, ops), a, b)
  {
    var first := Admit(c, INITIAL, a, b);
    var s := Run(c, INITIAL, first);
    var second := Admit(c, s, b, a);
    RunJoin(c, INITIAL, first, second);
    ops := first + second;
  }

  /** The cap is checked only at the instant of issue, so a later grant for an earlier window
      can authorize twice the cap where the windows overlap. */
  lemma OutOfOrderIssueBreaksCap(c: Config) returns (ops: seq<Op>)
    requires c.cap > 0.0
    ensures RiskAt(Run(c, INITIAL, ops).log, 120) == 2.0 * c.cap
  {
    var a, b := "a", "bb";
    var ready := AdmitBoth(c, a, b);
    var s := Run(c, INITIAL, ready);
    var late := GrantCap(c, s, a, b, 100, 200);
    var early := GrantCap(c, Exec(c, s, late), b, a, 50, 150);
    RunSnoc(c, INITIAL, ready, late);
    RunSnoc(c, INITIAL, ready + [late], early);
    ops := ready + [late] + [early];
  }
}
