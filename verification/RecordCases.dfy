/** Records that are built and printed, and that the reader refuses. */
module RecordCases {
  import opened Options
  import opened Texts
  import opened Decimals
  import opened Record

  const X := Char('x', End)

  /** Plain surroundings: one hash, upper-casing that changes nothing, instants as microseconds in decimal notation. */
  const PLAIN := Codec(X, X, X, t => Char('0', End), t => t, t => IntValue(t), t => IntValue(t),
                       t => if UnitsValue(t, 0).Some? then Some(Units(UnitsValue(t, 0).value)) else None)

  lemma PlainIsCoherent()
    ensures Coherent(PLAIN)
  {
  }

  // ----------------------------------------------------------- printed numbers are safe

  lemma {:induction false} DigitsArePlain(n: nat)
    ensures Without(Digits(n), Refused) && Digits(n).Char?
  {
    if n >= 10 {
      DigitsArePlain(n / 10);
      AppendWithout(Digits(n / 10), Single(n % 10), Refused);
    }
  }

  lemma {:induction false} PaddedIsPlain(n: nat, width: nat)
    ensures Without(Padded(n, width), Refused)
  {
    if width > 0 {
      PaddedIsPlain(n / 10, width - 1);
      AppendWithout(Padded(n / 10, width - 1), Single(n % 10), Refused);
    }
  }

  lemma NumbersAreSafe(n: nat)
    ensures Safe(ShowInt(n)) && Safe(ShowUnits(n))
  {
    DigitsArePlain(n);
    DigitsArePlain(n / UNITS);
    PaddedIsPlain(n % UNITS, 12);
    AppendWithout(Digits(n / UNITS), Char('.', Padded(n % UNITS, 12)), Refused);
  }

  lemma FourMoreSafe(a: Text, b: Text, c: Text, d: Text, rest: Row)
    requires Safe(a) && Safe(b) && Safe(c) && Safe(d) && AllSafe(rest)
    ensures AllSafe(Cons(a, Cons(b, Cons(c, Cons(d, rest)))))
  {
    assert AllSafe(Cons(c, Cons(d, rest)));
  }

  lemma AllEntriesSafe(e: Entries)
    requires Safe(e.prefix) && Safe(e.schema) && Safe(e.tradeId) && Safe(e.authorizationId) && Safe(e.reservationId)
    requires Safe(e.symbol) && Safe(e.timeframe) && Safe(e.authorizedRisk) && Safe(e.reservedRisk) && Safe(e.expiresAt)
    requires Safe(e.expiresEpoch) && Safe(e.issuedAt) && Safe(e.issuedEpoch) && Safe(e.snapshotId) && Safe(e.decisionId)
    requires Safe(e.strategyId) && Safe(e.modelId) && Safe(e.policyVersion) && Safe(e.riskAuthorizationId)
    requires Safe(e.authorizationExpiry) && Safe(e.inputHash) && Safe(e.contractVersion)
    ensures AllSafe(RowOf(e))
  {
    var r2 := Cons(e.inputHash, Cons(e.contractVersion, Nil));
    assert AllSafe(r2);
    FourMoreSafe(e.modelId, e.policyVersion, e.riskAuthorizationId, e.authorizationExpiry, r2);
    var r6 := Cons(e.modelId, Cons(e.policyVersion, Cons(e.riskAuthorizationId, Cons(e.authorizationExpiry, r2))));
    FourMoreSafe(e.issuedEpoch, e.snapshotId, e.decisionId, e.strategyId, r6);
    var r10 := Cons(e.issuedEpoch, Cons(e.snapshotId, Cons(e.decisionId, Cons(e.strategyId, r6))));
    FourMoreSafe(e.reservedRisk, e.expiresAt, e.expiresEpoch, e.issuedAt, r10);
    var r14 := Cons(e.reservedRisk, Cons(e.expiresAt, Cons(e.expiresEpoch, Cons(e.issuedAt, r10))));
    FourMoreSafe(e.reservationId, e.symbol, e.timeframe, e.authorizedRisk, r14);
    var r18 := Cons(e.reservationId, Cons(e.symbol, Cons(e.timeframe, Cons(e.authorizedRisk, r14))));
    FourMoreSafe(e.prefix, e.schema, e.tradeId, e.authorizationId, r18);
  }

  // ------------------------------------------------------------------- the cases

  function GrantUntil(symbol: Text, risk: real, expires: Text): Grant {
    Grant(X, X, X, risk, risk, expires, symbol, X, X, X, X, X, X, X, expires, X, X)
  }

  lemma GrantIsSafe(symbol: Text, risk: real, expires: nat)
    requires Safe(symbol) && RiskOk(risk)
    ensures AllSafe(RowOf(EntriesFor(PLAIN, GrantUntil(symbol, risk, ShowInt(expires)), ShowInt(0), 0, expires)))
  {
    NumbersAreSafe(expires);
    NumbersAreSafe(0);
    NumbersAreSafe(Epoch(expires));
    RoundingKeepsOrder(risk, risk);
    NumbersAreSafe(Rounded(risk));
    AllEntriesSafe(EntriesFor(PLAIN, GrantUntil(symbol, risk, ShowInt(expires)), ShowInt(0), 0, expires));
  }

  /** At instant zero every such grant with a safe symbol becomes a record. */
  lemma GrantIsBuilt(symbol: Text, risk: real, expires: nat) returns (r: MqlRecord)
    requires Safe(symbol) && RiskOk(risk) && expires > 0
    ensures Build(PLAIN, true, GrantUntil(symbol, risk, ShowInt(expires)), ShowInt(0), None) == Ok(r)
    ensures r.entries.symbol == symbol && AllSafe(RowOf(r.entries))
  {
    var e := EntriesFor(PLAIN, GrantUntil(symbol, risk, ShowInt(expires)), ShowInt(0), 0, expires);
    IntReadsBack(expires);
    IntReadsBack(0);
    GrantIsSafe(symbol, risk, expires);
    r := MqlRecord(e, RecordHash(PLAIN, e));
  }

  /** A symbol may hold a line break that the printer lets through: the record is built and printed, and its line is
      refused, at any time.  Each of these characters is one. */
  lemma LineBreakIsRefused(c: char, now: Text) returns (g: Grant, r: MqlRecord)
    requires c in "\U{0B}\U{0C}\U{1C}\U{1D}\U{1E}\U{85}\U{2028}\U{2029}"
    ensures Coherent(PLAIN) && Build(PLAIN, true, g, ShowInt(0), None) == Ok(r)
    ensures Serialize(PLAIN, r) == Ok(Printed(r.entries, r.integrityHash))
    ensures Parse(PLAIN, Printed(r.entries, r.integrityHash), now, None) == Err(LineInvalid)
  {
    PlainIsCoherent();
    ListedIsBreak(c);
    g := GrantUntil(Char(c, End), 0.001, ShowInt(1_000_000));
    r := GrantIsBuilt(Char(c, End), 0.001, 1_000_000);
    HashIsWord(PLAIN, r.entries);
    BrokenSymbol(r.entries);
    ParsePrinted(PLAIN, r.entries, r.integrityHash, now, None);
  }

  lemma ListedIsBreak(c: char)
    requires c in "\U{0B}\U{0C}\U{1C}\U{1D}\U{1E}\U{85}\U{2028}\U{2029}"
    ensures Break(c) && Safe(Char(c, End)) && !OneLine(Char(c, End))
  {
  }

  lemma BrokenBehind(a: Text, b: Text, rest: Row)
    requires !AllOneLine(rest)
    ensures !AllOneLine(Cons(a, Cons(b, rest)))
  {
  }

  lemma BrokenSymbol(e: Entries)
    requires !OneLine(e.symbol)
    ensures !AllOneLine(RowOf(e))
  {
    var row := RowOf(e);
    var behind := row.tail.tail.tail.tail;
    assert behind.tail.head == e.symbol;
    assert !AllOneLine(behind.tail);
    BrokenBehind(row.tail.tail.head, row.tail.tail.tail.head, behind);
    BrokenBehind(row.head, row.tail.head, row.tail.tail);
  }

  /** A record can be built within its expiry second: the reader, even at the instant of issue, finds it expired. */
  lemma ExpirySecondIsRefused() returns (g: Grant, r: MqlRecord)
    ensures Coherent(PLAIN) && Build(PLAIN, true, g, ShowInt(0), None) == Ok(r)
    ensures Serialize(PLAIN, r) == Ok(Printed(r.entries, r.integrityHash))
    ensures Parse(PLAIN, Printed(r.entries, r.integrityHash), ShowInt(0), None) != Ok(r)
  {
    PlainIsCoherent();
    g := GrantUntil(X, 0.001, ShowInt(1));
    r := GrantIsBuilt(X, 0.001, 1);
    IntReadsBack(0);
    IntReadsBack(1);
    RoundTripExactly(PLAIN, g, ShowInt(0), r, ShowInt(0), None);
  }

  /** A risk of up to half a unit of the twelfth decimal is printed as zero, which the reader refuses. */
  lemma TinyRiskIsRefused(now: Text) returns (g: Grant, r: MqlRecord)
    requires IntValue(now).Some?
    ensures Coherent(PLAIN) && Build(PLAIN, true, g, ShowInt(0), None) == Ok(r)
    ensures Serialize(PLAIN, r) == Ok(Printed(r.entries, r.integrityHash))
    ensures Parse(PLAIN, Printed(r.entries, r.integrityHash), now, None) != Ok(r)
  {
    PlainIsCoherent();
    g := GrantUntil(X, 0.000_000_000_000_5, ShowInt(1_000_000));
    r := GrantIsBuilt(X, 0.000_000_000_000_5, 1_000_000);
    RoundTripExactly(PLAIN, g, ShowInt(0), r, now, None);
  }
}
