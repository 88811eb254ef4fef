/** A batch whose recording was cut short, ingested again from the start. */
module Resume {
  import opened Options
  import opened Ledger
  import opened Lawful
  import opened Trace

  lemma Snoc(a: seq<TraceRecord>, b: seq<TraceRecord>)
    requires b != []
    ensures a + b != [] && (a + b)[..|a + b| - 1] == a + b[..|b| - 1] && (a + b)[|a + b| - 1] == b[|b| - 1]
  {
  }

  /** Rehearsing two batches in a row is rehearsing them as one. */
  lemma {:induction false} RehearseJoin(log: Log, a: seq<TraceRecord>, b: seq<TraceRecord>)
    ensures Rehearse(log, a + b) == if Rehearse(log, a).None? then None else Rehearse(Rehearse(log, a).value, b)
  {
    if b == [] {
      assert a + b == a;
    } else {
      Snoc(a, b);
      RehearseJoin(log, a, b[..|b| - 1]);
    }
  }

  lemma {:induction false} CleanJoin(log: Log, a: seq<TraceRecord>, b: seq<TraceRecord>)
    requires Rehearse(log, a).Some?
    ensures Clean(log, a + b) <==> Clean(log, a) && Clean(Rehearse(log, a).value, b)
  {
    if b == [] {
      assert a + b == a;
    } else {
      Snoc(a, b);
      CleanJoin(log, a, b[..|b| - 1]);
      RehearseJoin(log, a, b[..|b| - 1]);
    }
  }

  /** A batch that the ledger already holds is clean exactly when each record is, on the ledger as it is. */
  lemma {:induction false} CleanRecorded(cap: real, log: Log, records: seq<TraceRecord>)
    requires IsLawful(cap, log)
    requires forall r :: r in records ==> Normal(r) && OnRecord(log, r) && !OutcomeType(r.eventType)
    ensures Clean(log, records) <==> forall r :: r in records ==> CleanAt(log, r)
  {
    if records != [] {
      var before, last := records[..|records| - 1], records[|records| - 1];
      assert records == before + [last];
      CleanRecorded(cap, log, before);
      RehearseRecorded(cap, log, before);
    }
  }

  /** What a crash leaves behind after `n` records of a batch that would have been recorded completely. */
  lemma CutIsRehearsed(cap: real, log: Log, records: seq<TraceRecord>, n: nat)
    requires IsLawful(cap, log) && n <= |records| && (forall r :: r in records ==> Normal(r))
    requires Rehearse(log, records).Some? && Clean(log, records)
    ensures var cut := Commit(log, records[..n]).log;
            && IsLawful(cap, cut) && (forall r :: r in records[..n] ==> OnRecord(cut, r))
            && Rehearse(cut, records[n..]) == Rehearse(log, records) && Clean(cut, records[n..])
  {
    var written := records[..n];
    assert records == written + records[n..];
    RehearseJoin(log, written, records[n..]);
    CleanJoin(log, written, records[n..]);
    CommitCompletesExactly(cap, log, written);
    CommittedIsOnRecord(log, written);
  }

  /** After a crash the same batch, ingested again from the start, completes exactly when no record already written is
      an outcome observation and none carries an id that now belongs to another key; then it leaves the ledger of the
      uninterrupted ingestion. */
  lemma ResumedIngestExactly(cap: real, log: Log, records: seq<TraceRecord>, n: nat)
    requires IsLawful(cap, log) && n <= |records| && Ingest(log, records).complete
    ensures var cut := Commit(log, records[..n]).log;
            && (Ingest(cut, records).complete <==>
                  forall r :: r in records[..n] ==> !OutcomeType(r.eventType) && CleanAt(cut, r))
            && (Ingest(cut, records).complete ==> Ingest(cut, records).log == Ingest(log, records).log)
  {
    CommitCompletesExactly(cap, log, records);
    CutIsRehearsed(cap, log, records, n);
    var cut, written := Commit(log, records[..n]).log, records[..n];
    assert records == written + records[n..];
    RehearseRecorded(cap, cut, written);
    RehearseJoin(cut, written, records[n..]);
    if forall r :: r in written ==> !OutcomeType(r.eventType) {
      CleanJoin(cut, written, records[n..]);
      CleanRecorded(cap, cut, written);
      CommitCompletesExactly(cap, cut, records);
    }
  }

  /** Ingesting a completed batch again never changes the ledger.  The rehearsal accepts it again exactly when it holds
      no outcome observation; the ingestion completes again exactly when moreover none of its records carries an id that
      by now belongs to another key. */
  lemma IngestTwice(cap: real, log: Log, records: seq<TraceRecord>)
    requires IsLawful(cap, log) && Ingest(log, records).complete
    ensures var after := Ingest(log, records).log;
            && Ingest(after, records).log == after
            && (Rehearse(after, records).Some? <==> forall r :: r in records ==> !OutcomeType(r.eventType))
            && (Ingest(after, records).complete <==>
                  forall r :: r in records ==> !OutcomeType(r.eventType) && CleanAt(after, r))
  {
    var after := Ingest(log, records).log;
    assert records[..|records|] == records;
    CommitCompletesExactly(cap, log, records);
    CommittedIsOnRecord(log, records);
    RehearseRecorded(cap, after, records);
    RecordedCommitsNothing(cap, after, records);
    ResumedIngestExactly(cap, log, records, |records|);
  }
}
