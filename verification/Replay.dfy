/** Replay and restart recovery: what an audit reads back from a ledger, and what a restart concludes. */
module Replay {
  import opened Options
  import opened Ledger
  import opened TradeLedgers

  // ------------------------------------------------------------------ replay

  function OfTrade(records: seq<LedgerRecord>, t: string): seq<LedgerRecord> {
    if |records| == 0 then []
    else
      var r := records[|records| - 1];
      if r.event.tradeId == t then OfTrade(records[..|records| - 1], t) + [r] else OfTrade(records[..|records| - 1], t)
  }

  function TradesOf(records: seq<LedgerRecord>): set<string> {
    set r | r in records :: r.event.tradeId
  }

  /** The states a list of records goes through. */
  function Lifecycle(records: seq<LedgerRecord>): seq<State> {
    if |records| == 0 then []
    else
      var e := records[|records| - 1].event;
      Lifecycle(records[..|records| - 1]) + if e.state.Some? then [e.state.value] else []
  }

  function LastState(records: seq<LedgerRecord>): Option<State> {
    if |records| == 0 then None
    else
      var e := records[|records| - 1].event;
      if e.state.Some? then e.state else LastState(records[..|records| - 1])
  }

  function Hashes(records: seq<LedgerRecord>): seq<Digest> {
    if |records| == 0 then [] else Hashes(records[..|records| - 1]) + [records[|records| - 1].eventHash]
  }

  /** May a trade in `current` enter the state of `e`, if it has one? */
  predicate MayEnter(current: Option<State>, e: Event) {
    e.state.Some? ==> if current.None? then e.state.value == Proposed else Allowed(current.value, e.state.value)
  }

  predicate LegalPath(records: seq<LedgerRecord>) {
    |records| == 0 ||
    (LegalPath(records[..|records| - 1]) && MayEnter(LastState(records[..|records| - 1]), records[|records| - 1].event))
  }

  datatype TradeReplay = TradeReplay(finalState: Option<State>, eventCount: nat, lifecycle: seq<State>,
                                     eventHashes: seq<Digest>)

  function ReplayOf(records: seq<LedgerRecord>): TradeReplay {
    TradeReplay(LastState(records), |records|, Lifecycle(records), Hashes(records))
  }

  lemma OneMoreRecord(records: seq<LedgerRecord>, n: nat)
    requires n < |records|
    ensures records[..n + 1] == records[..n] + [records[n]] && records[..n + 1][..n] == records[..n]
  {
  }

  method GroupByTrade(records: seq<LedgerRecord>) returns (byTrade: map<string, seq<LedgerRecord>>)
    ensures byTrade.Keys == TradesOf(records)
    ensures forall t :: t in byTrade ==> byTrade[t] == OfTrade(records, t)
  {
    byTrade := map[];
    for n := 0 to |records|
      invariant byTrade.Keys == TradesOf(records[..n])
      invariant forall t :: t in byTrade ==> byTrade[t] == OfTrade(records[..n], t)
    {
      OneMoreRecord(records, n);
      var r := records[n];
      NothingOfTrade(records[..n], r.event.tradeId);
      var group := if r.event.tradeId in byTrade then byTrade[r.event.tradeId] else [];
      byTrade := byTrade[r.event.tradeId := group + [r]];
    }
    assert records[..|records|] == records;
  }

  /** Group the records by trade, then fold each group; `None` if a group leaves the transition table. */
  method ReplayLedger(records: seq<LedgerRecord>) returns (report: Option<map<string, TradeReplay>>)
    ensures report.Some? <==> forall t :: t in TradesOf(records) ==> LegalPath(OfTrade(records, t))
    ensures report.Some? ==> report.value.Keys == TradesOf(records)
    ensures report.Some? ==> forall t :: t in TradesOf(records) ==> report.value[t] == ReplayOf(OfTrade(records, t))
  {
    var byTrade := GroupByTrade(records);
    var trades: map<string, TradeReplay> := map[];
    var remaining := byTrade.Keys;
    while remaining != {}
      invariant remaining <= byTrade.Keys && trades.Keys == byTrade.Keys - remaining
      invariant forall t :: t in trades ==> LegalPath(byTrade[t]) && trades[t] == ReplayOf(byTrade[t])
      decreases |remaining|
    {
      var t :| t in remaining;
      var one := ReplayTrade(byTrade[t]);
      if one.None? { return None; }
      trades := trades[t := one.value];
      remaining := remaining - {t};
    }
    report := Some(trades);
  }

  method ReplayTrade(events: seq<LedgerRecord>) returns (one: Option<TradeReplay>)
    ensures one == if LegalPath(events) then Some(ReplayOf(events)) else None
  {
    var state: Option<State> := None;
    var lifecycle: seq<State> := [];
    var hashes: seq<Digest> := [];
    for n := 0 to |events|
      invariant LegalPath(events[..n])
      invariant state == LastState(events[..n]) && lifecycle == Lifecycle(events[..n]) && hashes == Hashes(events[..n])
    {
      OneMoreRecord(events, n);
      var e := events[n].event;
      if e.state.Some? {
        if state.None? {
          if e.state.value != Proposed { IllegalStaysIllegal(events, n); return None; }
        } else if !Allowed(state.value, e.state.value) {
          IllegalStaysIllegal(events, n);
          return None;
        }
        state := e.state;
        lifecycle := lifecycle + [e.state.value];
      }
      hashes := hashes + [events[n].eventHash];
    }
    assert events[..|events|] == events;
    one := Some(TradeReplay(state, |events|, lifecycle, hashes));
  }

  lemma {:induction false} IllegalStaysIllegal(records: seq<LedgerRecord>, n: nat)
    requires n < |records| && !LegalPath(records[..n + 1])
    ensures !LegalPath(records)
    decreases |records|
  {
    if n + 1 == |records| {
      assert records[..n + 1] == records;
    } else {
      assert records[..|records| - 1][..n + 1] == records[..n + 1];
      IllegalStaysIllegal(records[..|records| - 1], n);
    }
  }

  lemma {:induction false} NothingOfTrade(records: seq<LedgerRecord>, t: string)
    ensures t !in TradesOf(records) ==> OfTrade(records, t) == []
  {
    if |records| > 0 {
      NothingOfTrade(records[..|records| - 1], t);
      var init, r := records[..|records| - 1], records[|records| - 1];
      assert r in records && r.event.tradeId in TradesOf(records);
      assert forall x :: x in init ==> x in records;
    }
  }

  /** The per-trade fold of replay is the ledger's own state, and on a sound ledger it never leaves the table. */
  lemma {:induction false} ReplayIsStateOf(records: seq<LedgerRecord>, t: string)
    ensures LastState(OfTrade(records, t)) == StateOf(LogOf(records), t)
    ensures Sound(LogOf(records)) ==> LegalPath(OfTrade(records, t))
  {
    if |records| > 0 {
      var init, r := records[..|records| - 1], records[|records| - 1];
      ReplayIsStateOf(init, t);
      if r.event.tradeId == t {
        assert OfTrade(records, t)[..|OfTrade(init, t)|] == OfTrade(init, t);
      }
    }
  }

  /** Every event was legal on the events before it. */
  predicate AllLegal(log: Log) {
    log.Genesis? || (AllLegal(log.before) && LegalNext(log.before, log.last))
  }

  lemma OneMoreLegal(records: seq<LedgerRecord>, t: string)
    requires |records| > 0
    ensures var init, r := records[..|records| - 1], records[|records| - 1];
            LegalPath(OfTrade(records, t)) <==>
              LegalPath(OfTrade(init, t)) && (r.event.tradeId == t ==> LegalNext(LogOf(init), r.event))
  {
    var init, r := records[..|records| - 1], records[|records| - 1];
    ReplayIsStateOf(init, t);
    if r.event.tradeId == t { assert OfTrade(records, t)[..|OfTrade(init, t)|] == OfTrade(init, t); }
  }

  lemma {:induction false} LegalReplays(records: seq<LedgerRecord>, t: string)
    requires AllLegal(LogOf(records))
    ensures LegalPath(OfTrade(records, t))
  {
    if |records| > 0 {
      LegalReplays(records[..|records| - 1], t);
      OneMoreLegal(records, t);
    }
  }

  /** Every trade's records keep to the table. */
  ghost predicate AllReplay(records: seq<LedgerRecord>) {
    forall t :: LegalPath(OfTrade(records, t))
  }

  lemma {:induction false} ReplayedIsLegal(records: seq<LedgerRecord>)
    requires AllReplay(records)
    ensures AllLegal(LogOf(records))
  {
    if |records| > 0 {
      var init, r := records[..|records| - 1], records[|records| - 1];
      forall t ensures LegalPath(OfTrade(init, t)) {
        assert LegalPath(OfTrade(records, t));
        OneMoreLegal(records, t);
      }
      ReplayedIsLegal(init);
      assert LegalPath(OfTrade(records, r.event.tradeId));
      OneMoreLegal(records, r.event.tradeId);
    }
  }

  /** Replay succeeds on any list of records, trusted or not, exactly when every state change was legal where it
      stands. */
  lemma ReplaySucceedsExactly(records: seq<LedgerRecord>)
    ensures AllReplay(records) <==> AllLegal(LogOf(records))
  {
    if AllLegal(LogOf(records)) {
      forall t ensures LegalPath(OfTrade(records, t)) { LegalReplays(records, t); }
    }
    if AllReplay(records) { ReplayedIsLegal(records); }
  }

  /** Replay of a trusted ledger always succeeds. */
  lemma ReplayNeverFails(hash: EventHash, file: seq<LedgerRecord>)
    requires Accepts(hash, file)
    ensures forall t :: t in TradesOf(file) ==> LegalPath(OfTrade(file, t))
  {
    forall t | t in TradesOf(file) ensures LegalPath(OfTrade(file, t)) { ReplayIsStateOf(file, t); }
  }

  /** The groups partition the ledger: each record is in the group of its own trade, as often as on the ledger, and in
      no other. */
  lemma {:induction false} GroupsPartition(records: seq<LedgerRecord>, t: string, r: LedgerRecord)
    ensures multiset(OfTrade(records, t))[r] == if r.event.tradeId == t then multiset(records)[r] else 0
  {
    if |records| > 0 {
      var init, last := records[..|records| - 1], records[|records| - 1];
      GroupsPartition(init, t, r);
      assert records == init + [last];
    }
  }

  // ---------------------------------------------------------------- recovery

  datatype Posture = Stable | Recoverable | RuntimeActive | Blocked

  datatype Action =
    | NoAction | RequireExplicitResume | RequireReconciliationAndReplay | RequireReconciliationAfterRejection
    | ResolveReconciliation | ManualReview

  datatype RecoveryItem = RecoveryItem(state: Option<State>, posture: Posture, unresolved: bool, action: Action)

  datatype RecoveryStatus = Pass | BlockedStatus

  datatype RestartReport = RestartReport(
    status: RecoveryStatus, unresolved: set<string>, items: map<string, RecoveryItem>)

  /** The posture of one trade. */
  function PostureOf(state: Option<State>, unresolved: bool): (Posture, Action) {
    if unresolved && state == Some(Rejected) then (RuntimeActive, RequireReconciliationAfterRejection)
    else if unresolved then (Blocked, ResolveReconciliation)
    else if state == Some(Reconciled) then (Stable, NoAction)
    else if state in {Some(Proposed), Some(Validated), Some(RiskReserved), Some(Authorized)}
      then (Recoverable, RequireExplicitResume)
    else if state.Some? then
      (RuntimeActive, if state == Some(Rejected) then RequireReconciliationAfterRejection
       else RequireReconciliationAndReplay)
    else (Blocked, ManualReview)
  }

  /** The item says where the trade is and what to do: nothing once it is reconciled, resume before it was submitted,
      reconcile while it may be at the broker, and resolve first what is unresolved. */
  predicate ItemAgrees(log: Log, t: string, i: RecoveryItem) {
    && i.state == StateOf(log, t)
    && i.unresolved == (t in Unresolved(log))
    && (i.posture == Stable <==> i.state == Some(Reconciled) && !i.unresolved)
    && (i.posture == Recoverable <==> i.state.Some? && Rank(i.state.value) < Rank(OrderSubmitted) && !i.unresolved)
    && (i.posture == Blocked <==> i.state.None? || (i.unresolved && i.state != Some(Rejected)))
    && (i.action == NoAction <==> i.posture == Stable)
    && (i.action == RequireExplicitResume <==> i.posture == Recoverable)
    && (i.action == ResolveReconciliation <==> i.unresolved && i.state != Some(Rejected))
    && (i.action == ManualReview <==> i.state.None? && !i.unresolved)
    && (i.action == RequireReconciliationAfterRejection <==> i.state == Some(Rejected))
  }

  /** The elements of a set, each once (the code sorts them; no order is promised here). */
  method Listed(s: set<string>) returns (list: seq<string>)
    ensures forall t :: t in list <==> t in s
  {
    list := [];
    var rest := s;
    while rest != {}
      invariant forall t :: t in s <==> t in list || t in rest
      decreases |rest|
    {
      var t :| t in rest;
      list := list + [t];
      rest := rest - {t};
    }
  }

  method ItemFor(ledger: TradeLedger, t: string) returns (item: RecoveryItem)
    requires ledger.Valid()
    ensures ItemAgrees(ledger.Contents(), t, item)
  {
    var state := ledger.StateOf(t);
    var held := t in ledger.unresolved;
    var (posture, action) := PostureOf(state, held);
    item := RecoveryItem(state, posture, held, action);
  }

  lemma BlockedIsOpen(log: Log, t: string, i: RecoveryItem)
    requires ItemAgrees(log, t, i) && i.posture == Blocked
    ensures t in Unresolved(log) || StateOf(log, t) != Some(Reconciled)
  {
  }

  /** Is this trade one a restart must not pass over? */
  predicate IsOpen(log: Log, t: string) {
    t in Unresolved(log) || StateOf(log, t) != Some(Reconciled)
  }

  lemma {:induction false} UnresolvedIsOnLedger(records: seq<LedgerRecord>, t: string)
    requires t in Unresolved(LogOf(records))
    ensures t in TradesOf(records)
  {
    var init, r := records[..|records| - 1], records[|records| - 1];
    assert r in records && forall x :: x in init ==> x in records;
    if t in Unresolved(LogOf(init)) { UnresolvedIsOnLedger(init, t); }
  }

  /** No trade is open exactly when every trade on the ledger is reconciled and resolved. */
  lemma NoneOpenMeansSettled(records: seq<LedgerRecord>, open: set<string>)
    requires forall t :: t in open <==>
               t in Unresolved(LogOf(records)) || (t in TradesOf(records) && IsOpen(LogOf(records), t))
    ensures open == {} <==>
            forall t :: t in TradesOf(records)
              ==> StateOf(LogOf(records), t) == Some(Reconciled) && t !in Unresolved(LogOf(records))
  {
    forall t | t in Unresolved(LogOf(records)) ensures t in TradesOf(records) { UnresolvedIsOnLedger(records, t); }
  }

  /** A restart passes exactly when every trade on the ledger is reconciled and nothing is unresolved. */
  method RecoverFromLedger(ledger: TradeLedger) returns (report: RestartReport)
    requires ledger.Valid()
    ensures report.status == Pass <==>
            forall t :: t in TradesOf(ledger.events) ==>
              StateOf(ledger.Contents(), t) == Some(Reconciled) && t !in Unresolved(ledger.Contents())
    ensures report.status == Pass <==> report.unresolved == {}
    ensures forall t :: t in report.unresolved <==>
                        t in Unresolved(ledger.Contents())
                          || (t in TradesOf(ledger.events) && IsOpen(ledger.Contents(), t))
    ensures forall t :: t in report.items <==> t in TradesOf(ledger.events)
    ensures forall t :: t in report.items ==> ItemAgrees(ledger.Contents(), t, report.items[t])
  {
    ghost var log := ledger.Contents();
    var items: map<string, RecoveryItem> := map[];
    var unresolved := ledger.unresolved;
    var blocked := false;
    var trades := Listed(TradesOf(ledger.events));
    for n := 0 to |trades|
      invariant forall t :: t in items <==> t in trades[..n]
      invariant forall t :: t in unresolved <==> t in Unresolved(log) || (t in trades[..n] && IsOpen(log, t))
      invariant blocked ==> unresolved != {}
      invariant forall t :: t in items ==> ItemAgrees(log, t, items[t])
    {
      var t := trades[n];
      assert trades[..n + 1] == trades[..n] + [t];
      var item := ItemFor(ledger, t);
      if !item.unresolved && item.state != Some(Reconciled) {
        unresolved := unresolved + {t};
      }
      if item.posture == Blocked {
        BlockedIsOpen(log, t, item);
        assert t in unresolved;
        blocked := true;
      }
      items := items[t := item];
    }
    NoneOpenMeansSettled(ledger.events, unresolved);
    report := RestartReport(if unresolved != {} || blocked then BlockedStatus else Pass, unresolved, items);
  }
}
