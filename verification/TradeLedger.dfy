/** The persisted ledger: events sealed into a hash chain, one record per line, with the
    in-memory indexes `TradeLedger` keeps beside them. */
module TradeLedgers {
  import opened Options
  import opened Ledger

  type Digest = string

  /** The event hash covers the sequence number, the event and the previous hash. */
  type EventHash = (int, Event, Digest) -> Digest

  const GENESIS: Digest := "0000000000000000000000000000000000000000000000000000000000000000"

  datatype LedgerRecord = LedgerRecord(sequence: int, event: Event, previousHash: Digest, eventHash: Digest)

  function Tip(records: seq<LedgerRecord>): Digest {
    if records == [] then GENESIS else records[|records| - 1].eventHash
  }

  function Seal(hash: EventHash, records: seq<LedgerRecord>, e: Event): LedgerRecord {
    LedgerRecord(|records| + 1, e, Tip(records), hash(|records| + 1, e, Tip(records)))
  }

  /** The one chain of records that stores a log. */
  function Chain(hash: EventHash, log: Log): seq<LedgerRecord> {
    match log
    case Genesis => []
    case Recorded(before, e) => Chain(hash, before) + [Seal(hash, Chain(hash, before), e)]
  }

  /** The history a list of records holds. */
  function LogOf(records: seq<LedgerRecord>): Log {
    if |records| == 0 then Genesis else Recorded(LogOf(records[..|records| - 1]), records[|records| - 1].event)
  }

  /** Every record seals its event onto the records before it. */
  predicate Chained(hash: EventHash, file: seq<LedgerRecord>) {
    |file| == 0 ||
    (Chained(hash, file[..|file| - 1]) && file[|file| - 1] == Seal(hash, file[..|file| - 1], file[|file| - 1].event))
  }

  /** The files a restart trusts: the chains of sound logs. */
  predicate Accepts(hash: EventHash, file: seq<LedgerRecord>) {
    Sound(LogOf(file)) && Chained(hash, file)
  }

  lemma OneMore(records: seq<LedgerRecord>, r: LedgerRecord)
    ensures (records + [r])[..|records|] == records
    ensures LogOf(records + [r]) == Recorded(LogOf(records), r.event)
  {
    assert (records + [r])[..|records|] == records;
  }

  lemma ChainedSnoc(hash: EventHash, records: seq<LedgerRecord>, r: LedgerRecord)
    ensures Chained(hash, records + [r]) <==> Chained(hash, records) && r == Seal(hash, records, r.event)
  {
    OneMore(records, r);
  }

  lemma NextRecord(file: seq<LedgerRecord>, n: nat)
    requires n < |file|
    ensures file[..n + 1] == file[..n] + [file[n]]
    ensures LogOf(file[..n + 1]) == Recorded(LogOf(file[..n]), file[n].event)
  {
    assert file[..n + 1] == file[..n] + [file[n]];
    OneMore(file[..n], file[n]);
  }

  lemma {:induction false} HeldRecord(records: seq<LedgerRecord>, r: LedgerRecord)
    requires r in records
    ensures Has(LogOf(records), r.event)
  {
    if r != records[|records| - 1] { HeldRecord(records[..|records| - 1], r); }
  }

  lemma {:induction false} RecordOf(records: seq<LedgerRecord>, e: Event) returns (r: LedgerRecord)
    requires Has(LogOf(records), e)
    ensures r in records && r.event == e
  {
    var last := records[|records| - 1];
    if last.event == e { r := last; } else { r := RecordOf(records[..|records| - 1], e); }
  }

  lemma {:induction false} PrefixExtends(file: seq<LedgerRecord>, n: nat)
    requires n <= |file|
    ensures Extends(LogOf(file[..n]), LogOf(file))
    decreases |file|
  {
    if n == |file| {
      assert file[..n] == file;
    } else {
      PrefixExtends(file[..|file| - 1], n);
      assert file[..|file| - 1][..n] == file[..n];
    }
  }

  // -------------------------------------------------------- reload, rebuild

  /** A log that was written is read back as itself: same events, and so same index and unresolved set. */
  lemma {:induction false} ReloadRestores(hash: EventHash, log: Log)
    requires Sound(log)
    ensures Accepts(hash, Chain(hash, log)) && LogOf(Chain(hash, log)) == log
  {
    if log.Recorded? {
      ReloadRestores(hash, log.before);
      var chain := Chain(hash, log.before);
      OneMore(chain, Seal(hash, chain, log.last));
      ChainedSnoc(hash, chain, Seal(hash, chain, log.last));
    }
  }

  /** A file is chained exactly when it is the chain of its own events. */
  lemma {:induction false} ChainedExactly(hash: EventHash, file: seq<LedgerRecord>)
    ensures Chained(hash, file) <==> file == Chain(hash, LogOf(file))
  {
    if file != [] {
      var init, last := file[..|file| - 1], file[|file| - 1];
      assert file == init + [last];
      ChainedExactly(hash, init);
    }
  }

  /** Feed events to the ledger one at a time; `None` as soon as one is not recorded as a new event. */
  function Rebuild(log: Log): Option<Log> {
    match log
    case Genesis => Some(Genesis)
    case Recorded(before, e) =>
      var sofar := Rebuild(before);
      if sofar.None? then None
      else
        var r := Append(sofar.value, e);
        if r.Appended? then Some(Recorded(sofar.value, r.event)) else None
  }

  lemma {:induction false} RebuildWellFormed(log: Log)
    ensures Rebuild(log) == if WellFormed(log) then Some(log) else None
  {
    if log.Recorded? {
      RebuildWellFormed(log.before);
      if WellFormed(log.before) { AppendExactly(log.before, log.last); }
    }
  }

  /** Of the chained files, exactly the accepted ones with nonempty identities can be built by `Append`, event by
      event. */
  lemma {:induction false} RebuiltExactly(hash: EventHash, file: seq<LedgerRecord>)
    requires Chained(hash, file)
    ensures Rebuild(LogOf(file)) == Some(LogOf(file)) <==>
            Accepts(hash, file) && forall r :: r in file ==> Identified(r.event)
  {
    RebuildWellFormed(LogOf(file));
    IdentifiedFile(file);
  }

  lemma {:induction false} IdentifiedFile(file: seq<LedgerRecord>)
    ensures WellFormed(LogOf(file)) <==> Sound(LogOf(file)) && forall r :: r in file ==> Identified(r.event)
  {
    if |file| > 0 {
      var init, last := file[..|file| - 1], file[|file| - 1];
      IdentifiedFile(init);
      assert file == init + [last];
    }
  }

  // ----------------------------------------------------------- chain binding

  /** The hash function gives the same value on two different inputs. */
  predicate Collides(hash: EventHash, x: LedgerRecord, y: LedgerRecord) {
    && hash(x.sequence, x.event, x.previousHash) == hash(y.sequence, y.event, y.previousHash)
    && (x.sequence, x.event, x.previousHash) != (y.sequence, y.event, y.previousHash)
  }

  /** The hash function collides on a record of one file and a record of the other. */
  ghost predicate Collision(hash: EventHash, a: seq<LedgerRecord>, b: seq<LedgerRecord>) {
    exists x, y :: x in a && y in b && Collides(hash, x, y)
  }

  lemma CollisionStays(hash: EventHash, a: seq<LedgerRecord>, b: seq<LedgerRecord>)
    requires a != [] && b != [] && Collision(hash, a[..|a| - 1], b[..|b| - 1])
    ensures Collision(hash, a, b)
  {
    var x, y :| x in a[..|a| - 1] && y in b[..|b| - 1] && Collides(hash, x, y);
    assert x in a && y in b;
  }

  /** The final hash pins down the whole history: two different chained files with the same one exhibit a collision
      of the hash function. */
  lemma {:induction false} FinalHashBindsHistory(hash: EventHash, a: seq<LedgerRecord>, b: seq<LedgerRecord>)
    requires Chained(hash, a) && Chained(hash, b) && a != [] && b != []
    requires Tip(a) == Tip(b)
    ensures a == b || Collision(hash, a, b)
  {
    var x, y := a[|a| - 1], b[|b| - 1];
    if x != y {
      assert x in a && y in b && Collides(hash, x, y);
    } else if |a| > 1 {
      FinalHashBindsHistory(hash, a[..|a| - 1], b[..|b| - 1]);
      if a[..|a| - 1] != b[..|b| - 1] { CollisionStays(hash, a, b); }
      assert a == a[..|a| - 1] + [x] && b == b[..|b| - 1] + [y];
    }
  }

  // ---------------------------------------------------------------- the class

  datatype LoadError = SequenceGap | ChainBreak | HashMismatch | DuplicateKey | DuplicateEventId
                     | InvalidInitialState | InvalidTransition

  datatype ReconcileResult = ReconcileRefused | Mismatch(exception: AppendResult) | Matched(result: AppendResult)

  /** Reconciliation as a function of the log: a mismatch is itself recorded. */
  function Reconciliation(log: Log, tradeId: string, observedHash: string, expectedHash: string,
                          key: string, eventId: string, clock: int): (ReconcileResult, Log)
  {
    if StateOf(log, tradeId) !in {Some(Closed), Some(Rejected)} then (ReconcileRefused, log)
    else if observedHash != expectedHash then
      var r := Append(log, Event(eventId + ":exception", clock, tradeId, None, ReconciliationException,
                                 key + ":exception", Snapshots(expectedHash, observedHash)));
      (Mismatch(r), Extend(log, r))
    else
      var r := Append(log, Event(eventId, clock, tradeId, Some(Reconciled), Lifecycle(Reconciled),
                                 key, Snapshots(expectedHash, observedHash)));
      (Matched(r), Extend(log, r))
  }

  /** What reconciling a trade must come to, whatever the ledger: only a closed or rejected trade is touched, it is
      settled exactly by equal snapshots under new names, and unequal ones are journaled and leave it blocked where it
      is. */
  ghost predicate ReconciledRightly(log: Log, after: Log, t: string, observed: string, expected: string, key: string,
                                    id: string)
  {
    var open := StateOf(log, t) in {Some(Closed), Some(Rejected)};
    && (!open || (observed == expected && !(t != "" && NewNames(log, id, key))) ==> after == log)
    && (open ==> (StateOf(after, t) == Some(Reconciled) <==> observed == expected && t != "" && NewNames(log, id, key)))
    && (open && StateOf(after, t) == Some(Reconciled) ==> Unresolved(after) == Unresolved(log) - {t})
    && (open && observed != expected ==>
          && StateOf(after, t) == StateOf(log, t) && Unresolved(log) <= Unresolved(after) <= Unresolved(log) + {t}
          && (t != "" && NewNames(log, id + ":exception", key + ":exception") ==> t in Unresolved(after)))
    && (forall u :: u != t ==> StateOf(after, u) == StateOf(log, u))
    && (after == log
        || (after.Recorded? && after.before == log && after.last.tradeId == t
            && after.last.payload == Snapshots(expected, observed)))
  }

  lemma ReconciliationIsRight(log: Log, t: string, observed: string, expected: string, key: string, id: string,
                              clock: int)
    ensures var out := Reconciliation(log, t, observed, expected, key, id, clock);
            && ReconciledRightly(log, out.1, t, observed, expected, key, id)
            && (out.0.ReconcileRefused? <==> StateOf(log, t) !in {Some(Closed), Some(Rejected)})
            && (out.0.Mismatch? ==> observed != expected) && (out.0.Matched? ==> observed == expected)
  {
    AppendedExactly(log, Event(id + ":exception", clock, t, None, ReconciliationException, key + ":exception",
                               Snapshots(expected, observed)));
    AppendedExactly(log, Event(id, clock, t, Some(Reconciled), Lifecycle(Reconciled), key,
                               Snapshots(expected, observed)));
  }

  /** The idempotency index holds every record under its key and nothing else. */
  ghost predicate Indexed(records: seq<LedgerRecord>, byKey: map<string, LedgerRecord>) {
    && (forall r :: r in records ==> r.event.key in byKey && byKey[r.event.key] == r)
    && (forall k :: k in byKey ==> byKey[k] in records && byKey[k].event.key == k)
  }

  class TradeLedger {
    const hash: EventHash
    var file: seq<LedgerRecord>         // what is on disk
    var events: seq<LedgerRecord>
    var byKey: map<string, LedgerRecord>
    var unresolved: set<string>

    ghost function Contents(): Log
      reads this
    {
      LogOf(events)
    }

    ghost predicate Valid()
      reads this
    {
      && Accepts(hash, events)
      && file == events
      && Indexed(events, byKey)
      && unresolved == Unresolved(Contents())
    }

    /** Opens a file; nothing is trusted until `LoadAndVerify` has passed. */
    constructor (hash: EventHash, file: seq<LedgerRecord>)
      ensures this.hash == hash && this.file == file
      ensures events == [] && byKey == map[] && unresolved == {}
    {
      this.hash := hash;
      this.file := file;
      events, byKey, unresolved := [], map[], {};
    }

    /** A restart succeeds exactly on the chains of sound logs, and then holds the stored events. */
    method LoadAndVerify() returns (error: Option<LoadError>)
      requires events == [] && byKey == map[] && unresolved == {}
      modifies this`events, this`byKey, this`unresolved
      ensures error.None? <==> Accepts(hash, file)
      ensures error.None? ==> Valid() && events == file
    {
      error := ReadChain();
      if error.Some? { return; }
      error := CheckTransitions();
    }

    /** First pass: sequence numbers, hash links, and uniqueness of keys and event ids. */
    method ReadChain() returns (error: Option<LoadError>)
      requires events == [] && byKey == map[]
      modifies this`events, this`byKey
      ensures error.None? ==> events == file && Chained(hash, file) && Indexed(events, byKey) && Distinct(LogOf(file))
      ensures error.Some? ==> !Accepts(hash, file)
    {
      var previous := GENESIS;
      var expected := 1;
      for n := 0 to |file|
        invariant events == file[..n] && expected == n + 1 && previous == Tip(events)
        invariant Chained(hash, events)
        invariant Indexed(events, byKey) && Distinct(LogOf(events))
      {
        var record := file[n];
        NextRecord(file, n);
        error := CheckRecord(n, expected, previous);
        if error.Some? { return; }
        ReadOneMore(hash, events, byKey, record);
        events := events + [record];
        byKey := byKey[record.event.key := record];
        expected := expected + 1;
        previous := record.eventHash;
      }
      assert file[..|file|] == file;
      error := None;
    }

    /** The checks on one record: its number, its two hashes, its key and its event id. */
    method CheckRecord(n: nat, expected: int, previous: Digest) returns (error: Option<LoadError>)
      requires n < |file| && events == file[..n] && expected == n + 1 && previous == Tip(events)
               && Indexed(events, byKey)
      ensures error.Some? ==> !Accepts(hash, file)
      ensures error.None? ==> file[n] == Seal(hash, events, file[n].event) && file[n].event.key !in byKey
      ensures error.None? ==>
                forall r :: r in events ==>
                  r.event.key != file[n].event.key && r.event.eventId != file[n].event.eventId
    {
      var record := file[n];
      if record.sequence != expected { Mistrusted(hash, file, n); return Some(SequenceGap); }
      if record.previousHash != previous { Mistrusted(hash, file, n); return Some(ChainBreak); }
      if hash(record.sequence, record.event, previous) != record.eventHash {
        Mistrusted(hash, file, n);
        return Some(HashMismatch);
      }
      if record.event.key in byKey {
        RepeatedIsUnsound(file, n, byKey[record.event.key]);
        return Some(DuplicateKey);
      }
      if exists r :: r in events && r.event.eventId == record.event.eventId {
        ghost var r :| r in events && r.event.eventId == record.event.eventId;
        RepeatedIsUnsound(file, n, r);
        return Some(DuplicateEventId);
      }
      error := None;
    }

    /** Second pass: every state change is legal, and the unresolved set is rebuilt. */
    method CheckTransitions() returns (error: Option<LoadError>)
      requires events == file && Chained(hash, file) && Distinct(LogOf(file)) && unresolved == {}
      modifies this`unresolved
      ensures error.None? <==> Sound(LogOf(file))
      ensures error.None? ==> unresolved == Unresolved(Contents())
    {
      forall i | 0 <= i < |events| ensures events[i].sequence == i + 1 { Numbered(hash, events, i); }
      for n := 0 to |events|
        invariant unresolved == Unresolved(LogOf(file[..n]))
        invariant Sound(LogOf(file[..n]))
      {
        var e := events[n].event;
        NextRecord(file, n);
        NextSound(file, n);
        if e.state.Some? {
          var current := StateOfBefore(e.tradeId, events[n].sequence);
          if current.None? && e.state.value != Proposed { return Some(InvalidInitialState); }
          if current.Some? && !Allowed(current.value, e.state.value) { return Some(InvalidTransition); }
        }
        Track(e);
      }
      assert file[..|file|] == file;
      error := None;
    }

    /** Trouble puts a trade on the unresolved set, reconciliation takes it off. */
    method Track(e: Event)
      modifies this`unresolved
      ensures unresolved == UnresolvedAfter(old(unresolved), e)
    {
      if LeavesUnresolved(e.eventType) || e.state == Some(Rejected) {
        unresolved := unresolved + {e.tradeId};
      } else if e.state == Some(Reconciled) {
        unresolved := unresolved - {e.tradeId};
      }
    }

    method StateOf(tradeId: string) returns (state: Option<State>)
      ensures state == Ledger.StateOf(Contents(), tradeId)
    {
      state := None;
      for n := 0 to |events|
        invariant state == Ledger.StateOf(LogOf(events[..n]), tradeId)
      {
        NextRecord(events, n);
        var e := events[n].event;
        if e.tradeId == tradeId && e.state.Some? {
          state := e.state;
        }
      }
      assert events[..|events|] == events;
    }

    /** The state just before the event with a given sequence number: of no event below 1, of all above the last. */
    method StateOfBefore(tradeId: string, sequence: int) returns (state: Option<State>)
      requires forall i :: 0 <= i < |events| ==> events[i].sequence == i + 1
      ensures var before := if sequence <= 1 then 0 else if sequence <= |events| then sequence - 1 else |events|;
              state == Ledger.StateOf(LogOf(events[..before]), tradeId)
    {
      state := None;
      var n := 0;
      while n < |events| && events[n].sequence < sequence
        invariant 0 <= n <= |events|
        invariant n > 0 ==> n < sequence
        invariant n < |events| ==> events[n].sequence == n + 1
        invariant state == Ledger.StateOf(LogOf(events[..n]), tradeId)
      {
        NextRecord(events, n);
        var e := events[n].event;
        if e.tradeId == tradeId && e.state.Some? {
          state := e.state;
        }
        n := n + 1;
      }
    }

    /** Record an event durably, or recognise it, or refuse it; the memory and the file move together. */
    method Append(e: Event) returns (r: AppendResult)
      requires Valid()
      modifies this`file, this`events, this`byKey, this`unresolved
      ensures Valid()
      ensures r == Ledger.Append(old(Contents()), e)
      ensures Contents() == Extend(old(Contents()), r)
    {
      if !Identified(e) { return Refused(IdentityMissing); }
      var sameId := Select(LogOf(events), ById(e.eventId));
      if sameId != [] && sameId[0].key != e.key { return Refused(EventIdReused); }
      KeyIndexed(hash, events, byKey, e.key);
      if e.key in byKey {
        var known := byKey[e.key].event;
        if SameSemantics(known, e) { return Existing(known); }
        return Refused(KeyReusedWithDifferentSemantics);
      }
      var current := StateOf(e.tradeId);
      if e.state.Some? {
        if current.None? {
          if e.state.value != Proposed { return Refused(MustStartAtProposed); }
        } else if !Allowed(current.value, e.state.value) {
          return Refused(ForbiddenTransition);
        }
      }
      AppendedFollows(LogOf(events), e);
      Write(e);
      r := Appended(e);
    }

    /** The write itself: first the file, then the memory. */
    method Write(e: Event)
      requires Valid() && Follows(Contents(), e)
      modifies this`file, this`events, this`byKey, this`unresolved
      ensures Valid() && Contents() == Recorded(old(Contents()), e)
    {
      var record := Seal(hash, events, e);
      SealExtends(hash, events, e);
      KeyIndexed(hash, events, byKey, e.key);
      FreshSelectsNothing(LogOf(events), e);
      IndexedSnoc(events, byKey, record);
      file := file + [record];
      events := events + [record];
      byKey := byKey[e.key := record];
      Track(e);
    }

    /** Compare broker and expected state; a mismatch is journaled before it is reported. */
    method Reconcile(tradeId: string, observedHash: string, expectedHash: string, key: string, eventId: string,
                     clock: int)
      returns (r: ReconcileResult)
      requires Valid()
      modifies this`file, this`events, this`byKey, this`unresolved
      ensures Valid()
      ensures (r, Contents())
              == Reconciliation(old(Contents()), tradeId, observedHash, expectedHash, key, eventId, clock)
      ensures ReconciledRightly(old(Contents()), Contents(), tradeId, observedHash, expectedHash, key, eventId)
      ensures r.ReconcileRefused? <==> Ledger.StateOf(old(Contents()), tradeId) !in {Some(Closed), Some(Rejected)}
      ensures (r.Mismatch? ==> observedHash != expectedHash) && (r.Matched? ==> observedHash == expectedHash)
    {
      ReconciliationIsRight(LogOf(events), tradeId, observedHash, expectedHash, key, eventId, clock);
      var current := StateOf(tradeId);
      if current !in {Some(Closed), Some(Rejected)} { return ReconcileRefused; }
      if observedHash != expectedHash {
        var x := Append(Event(eventId + ":exception", clock, tradeId, None, ReconciliationException,
                              key + ":exception", Snapshots(expectedHash, observedHash)));
        return Mismatch(x);
      }
      var x := Append(Event(eventId, clock, tradeId, Some(Reconciled), Lifecycle(Reconciled),
                            key, Snapshots(expectedHash, observedHash)));
      r := Matched(x);
    }

    method AssertNoUnresolvedReconciliation() returns (ok: bool)
      requires Valid()
      ensures ok <==> !RiskBlocked(Contents())
    {
      ok := unresolved == {};
    }
  }

  // -------------------------------------------------- lemmas for the methods

  predicate Distinct(log: Log) {
    log.Genesis? || (Distinct(log.before) && FreshKey(log.before, log.last.key)
                     && FreshId(log.before, log.last.eventId))
  }

  lemma DistinctSnoc(records: seq<LedgerRecord>, r: LedgerRecord)
    requires Distinct(LogOf(records))
    requires forall x :: x in records ==> x.event.key != r.event.key && x.event.eventId != r.event.eventId
    ensures Distinct(LogOf(records + [r]))
  {
    OneMore(records, r);
    FreshExactly(LogOf(records), r.event.eventId, r.event.key);
    forall e | Has(LogOf(records), e) ensures e.key != r.event.key && e.eventId != r.event.eventId {
      var x := RecordOf(records, e);
    }
  }

  lemma IndexedSnoc(records: seq<LedgerRecord>, byKey: map<string, LedgerRecord>, r: LedgerRecord)
    requires Indexed(records, byKey) && r.event.key !in byKey
    ensures Indexed(records + [r], byKey[r.event.key := r])
  {
  }

  lemma ReadOneMore(hash: EventHash, events: seq<LedgerRecord>, byKey: map<string, LedgerRecord>, r: LedgerRecord)
    requires Chained(hash, events) && Indexed(events, byKey) && Distinct(LogOf(events))
    requires r == Seal(hash, events, r.event) && r.event.key !in byKey
    requires forall x :: x in events ==> x.event.key != r.event.key && x.event.eventId != r.event.eventId
    ensures Chained(hash, events + [r]) && Indexed(events + [r], byKey[r.event.key := r])
            && Distinct(LogOf(events + [r]))
    ensures Tip(events + [r]) == r.eventHash
  {
    ChainedSnoc(hash, events, r);
    DistinctSnoc(events, r);
    IndexedSnoc(events, byKey, r);
  }

  lemma KeyIndexed(hash: EventHash, events: seq<LedgerRecord>, byKey: map<string, LedgerRecord>, key: string)
    requires Accepts(hash, events) && Indexed(events, byKey)
    ensures var found := Select(LogOf(events), ByKey(key));
            if key in byKey then found != [] && found[0] == byKey[key].event else found == []
  {
    SelectHead(LogOf(events), ByKey(key));
    if key in byKey {
      HeldRecord(events, byKey[key]);
      Selected(LogOf(events), ByKey(key), byKey[key].event);
      SameIdIsSameEvent(LogOf(events), Select(LogOf(events), ByKey(key))[0], byKey[key].event);
    } else if Select(LogOf(events), ByKey(key)) != [] {
      var r := RecordOf(events, Select(LogOf(events), ByKey(key))[0]);
      assert false;
    }
  }

  /** A record that is not the seal of its event on the records before it spoils the file. */
  lemma {:induction false} Mistrusted(hash: EventHash, file: seq<LedgerRecord>, n: nat)
    requires n < |file| && file[n] != Seal(hash, file[..n], file[n].event)
    ensures !Chained(hash, file)
    decreases |file|
  {
    if n < |file| - 1 {
      assert file[..|file| - 1][..n] == file[..n];
      Mistrusted(hash, file[..|file| - 1], n);
    }
  }

  lemma RepeatedIsUnsound(file: seq<LedgerRecord>, n: nat, r: LedgerRecord)
    requires n < |file| && r in file[..n]
    requires r.event.key == file[n].event.key || r.event.eventId == file[n].event.eventId
    ensures !Sound(LogOf(file))
  {
    HeldRecord(file[..n], r);
    NextRecord(file, n);
    PrefixExtends(file, n + 1);
    if Sound(LogOf(file)) {
      ExtendsSound(LogOf(file[..n + 1]), LogOf(file));
      FreshExactly(LogOf(file[..n]), file[n].event.eventId, file[n].event.key);
    }
  }

  lemma {:induction false} ExtendsDistinct(log: Log, longer: Log)
    requires Extends(log, longer) && Distinct(longer)
    ensures Distinct(log)
  {
    if longer != log { ExtendsDistinct(log, longer.before); }
  }

  lemma NextSound(file: seq<LedgerRecord>, n: nat)
    requires n < |file| && Distinct(LogOf(file)) && Sound(LogOf(file[..n]))
    ensures Sound(LogOf(file[..n + 1])) <==> LegalNext(LogOf(file[..n]), file[n].event)
    ensures Sound(LogOf(file)) ==> LegalNext(LogOf(file[..n]), file[n].event)
  {
    NextRecord(file, n);
    PrefixExtends(file, n + 1);
    ExtendsDistinct(LogOf(file[..n + 1]), LogOf(file));
    if Sound(LogOf(file)) { ExtendsSound(LogOf(file[..n + 1]), LogOf(file)); }
  }

  lemma SealExtends(hash: EventHash, records: seq<LedgerRecord>, e: Event)
    requires Accepts(hash, records) && Follows(LogOf(records), e)
    ensures Accepts(hash, records + [Seal(hash, records, e)])
    ensures LogOf(records + [Seal(hash, records, e)]) == Recorded(LogOf(records), e)
  {
    OneMore(records, Seal(hash, records, e));
    ChainedSnoc(hash, records, Seal(hash, records, e));
  }

  lemma {:induction false} Numbered(hash: EventHash, file: seq<LedgerRecord>, i: nat)
    requires Chained(hash, file) && i < |file|
    ensures file[i].sequence == i + 1
    decreases |file|
  {
    if i < |file| - 1 { Numbered(hash, file[..|file| - 1], i); }
  }

  lemma AppendedFollows(log: Log, e: Event)
    requires Append(log, e).Appended?
    ensures Append(log, e) == Appended(e) && Follows(log, e)
  {
    FreshSelectsNothing(log, e);
    SameIdSameKey(log, e);
  }
}
