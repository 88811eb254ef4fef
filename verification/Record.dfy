/** The one-line authorization record that the trading terminal reads: built, printed, parsed back. */
module Record {
  import opened Options
  import opened Texts
  import opened Decimals

  // -------------------------------------------------------------- lines and fields

  datatype Row = Nil | Cons(head: Text, tail: Row)

  function Length(ts: Row): nat {
    if ts.Nil? then 0 else 1 + Length(ts.tail)
  }

  /** The characters at which a text is split into lines. */
  predicate Break(c: char) {
    || c == '\n' || c == '\r' || c == '\U{0B}' || c == '\U{0C}' || c == '\U{1C}' || c == '\U{1D}' || c == '\U{1E}'
    || c == '\U{85}' || c == '\U{2028}' || c == '\U{2029}'
  }

  /** The characters the writer refuses in a field. */
  predicate Refused(c: char) {
    c == '|' || c == '\n' || c == '\r'
  }

  predicate Without(t: Text, bad: char -> bool) {
    t.End? || (!bad(t.c) && Without(t.rest, bad))
  }

  /** What the writer checks of every field. */
  predicate Safe(t: Text) {
    t.Char? && Without(t, Refused)
  }

  predicate AllSafe(ts: Row) {
    ts.Nil? || (Safe(ts.head) && AllSafe(ts.tail))
  }

  predicate OneLine(t: Text) {
    Without(t, Break)
  }

  predicate AllOneLine(ts: Row) {
    ts.Nil? || (OneLine(ts.head) && AllOneLine(ts.tail))
  }

  function Join(ts: Row): Text {
    if ts.Nil? then End else if ts.tail.Nil? then ts.head else Append(ts.head, Char('|', Join(ts.tail)))
  }

  function Fields(t: Text): (ts: Row)
    ensures ts.Cons?
  {
    if t.End? then Cons(End, Nil)
    else if t.c == '|' then Cons(End, Fields(t.rest))
    else Cons(Char(t.c, Fields(t.rest).head), Fields(t.rest).tail)
  }

  /** Printed fields are found again. */
  lemma {:induction false} FieldsOfJoin(ts: Row)
    requires ts.Cons? && AllSafe(ts)
    ensures Fields(Join(ts)) == ts
  {
    if ts.tail.Nil? {
      FieldsOfPlain(ts.head);
    } else {
      FieldsOfJoin(ts.tail);
      FieldsOfFirst(ts.head, Join(ts.tail));
    }
  }

  lemma {:induction false} FieldsOfPlain(t: Text)
    requires Without(t, Refused)
    ensures Fields(t) == Cons(t, Nil)
  {
    if t.Char? { FieldsOfPlain(t.rest); }
  }

  lemma {:induction false} FieldsOfFirst(t: Text, more: Text)
    requires Without(t, Refused)
    ensures Fields(Append(t, Char('|', more))) == Cons(t, Fields(more))
  {
    if t.Char? { FieldsOfFirst(t.rest, more); }
  }

  /** Any line is the join of its fields. */
  lemma {:induction false} JoinOfFields(t: Text)
    ensures Join(Fields(t)) == t
  {
    if t.Char? { JoinOfFields(t.rest); }
  }

  // ------------------------------------------------------------------ line splitting

  /** Up to the first line break. */
  function FirstLine(t: Text): Text {
    if t.End? || Break(t.c) then End else Char(t.c, FirstLine(t.rest))
  }

  /** After the first line break; a carriage return takes a following line feed with it. */
  function AfterLine(t: Text): (r: Text)
    ensures t.Char? ==> r < t
    ensures t.End? ==> r.End?
  {
    if t.End? then End
    else if !Break(t.c) then AfterLine(t.rest)
    else if t.c == '\r' && t.rest.Char? && t.rest.c == '\n' then t.rest.rest
    else t.rest
  }

  function Lines(t: Text): Row {
    if t.End? then Nil else Cons(FirstLine(t), Lines(AfterLine(t)))
  }

  /** The single nonempty line of a text. */
  function TheLine(t: Text): Option<Text> {
    var lines := Lines(t);
    if lines.Nil? || lines.tail.Cons? || lines.head.End? then None else Some(lines.head)
  }

  const NEWLINE := Char('\n', End)

  lemma {:induction false} UnbrokenLine(t: Text)
    requires OneLine(t)
    ensures FirstLine(Append(t, NEWLINE)) == t && AfterLine(Append(t, NEWLINE)) == End
  {
    if t.Char? { UnbrokenLine(t.rest); }
  }

  lemma {:induction false} BrokenLine(t: Text)
    requires Without(t, c => c == '\r') && !OneLine(t)
    ensures AfterLine(Append(t, NEWLINE)).Char?
  {
    if !Break(t.c) { BrokenLine(t.rest); }
  }

  /** A printed text without carriage returns is one line exactly when it holds no other line break. */
  lemma TheLineExactly(t: Text)
    requires t.Char? && Without(t, c => c == '\r')
    ensures TheLine(Append(t, NEWLINE)) == if OneLine(t) then Some(t) else None
  {
    var printed := Append(t, NEWLINE);
    if OneLine(t) {
      UnbrokenLine(t);
      assert Lines(printed) == Cons(t, Lines(End)) == Cons(t, Nil);
    } else {
      BrokenLine(t);
      assert Lines(AfterLine(printed)).Cons?;
    }
  }

  /** A single line may end in a line feed, a carriage return, both, or not at all. */
  lemma TheLineHowever(t: Text)
    requires t.Char? && OneLine(t)
    ensures TheLine(t) == Some(t) && TheLine(Append(t, Char('\n', End))) == Some(t)
    ensures TheLine(Append(t, Char('\r', End))) == Some(t)
    ensures TheLine(Append(t, Char('\r', Char('\n', End)))) == Some(t)
  {
    AppendNothing(t);
    EndedLine(t, End);
    EndedLine(t, Char('\n', End));
    EndedLine(t, Char('\r', End));
    EndedLine(t, Char('\r', Char('\n', End)));
  }

  lemma EndedLine(t: Text, ending: Text)
    requires t.Char? && OneLine(t) && (ending.Char? ==> Break(ending.c)) && AfterLine(ending).End?
    ensures TheLine(Append(t, ending)) == Some(t)
  {
    LineEnds(t, ending);
    assert Lines(Append(t, ending)) == Cons(t, Lines(End)) == Cons(t, Nil);
  }

  lemma {:induction false} AppendNothing(t: Text)
    ensures Append(t, End) == t
  {
    if t.Char? { AppendNothing(t.rest); }
  }

  lemma {:induction false} LineEnds(t: Text, ending: Text)
    requires OneLine(t) && (ending.Char? ==> Break(ending.c))
    ensures FirstLine(Append(t, ending)) == t && AfterLine(Append(t, ending)) == AfterLine(ending)
  {
    if t.Char? { LineEnds(t.rest, ending); }
  }

  // ------------------------------------------------------------------- rounding

  /** Twelve decimals: the number of 10^-12 units, half to even. */
  function Rounded(risk: real): int {
    var y := risk * 1_000_000_000_000.0;
    var f := y.Floor;
    var half := y - f as real;
    if half < 0.5 || (half == 0.5 && f % 2 == 0) then f else f + 1
  }

  function Units(n: int): real {
    n as real / 1_000_000_000_000.0
  }

  const GLOBAL_MAX_RISK := 0.006

  /** Rounding keeps the order of two risks and the cap, and is positive exactly above half a unit. */
  lemma RoundingKeepsOrder(reserved: real, authorized: real)
    requires 0.0 < reserved <= authorized <= GLOBAL_MAX_RISK
    ensures 0 <= Rounded(reserved) <= Rounded(authorized)
    ensures Units(Rounded(reserved)) <= Units(Rounded(authorized)) <= GLOBAL_MAX_RISK
    ensures Units(Rounded(reserved)) > 0.0 <==> reserved > 0.000_000_000_000_5
  {
    var x, y := reserved * 1_000_000_000_000.0, authorized * 1_000_000_000_000.0;
    assert 0.0 < x <= y <= 6_000_000_000.0;
    assert x.Floor <= y.Floor <= 6_000_000_000;
  }

  // ------------------------------------------------------------------- the record

  /** What the record takes from its surroundings: the fixed texts FOREXAI-AUTH-V1, forexai.mql5_authorization_record.v1
      and forexai.execution.v1, the hash, upper-casing, times, and the reading of numbers. */
  datatype Codec = Codec(
    prefix: Text, schema: Text, contract: Text,
    sha: Text -> Text, upper: Text -> Text, time: Text -> Option<int>,
    readInt: Text -> Option<int>, readRisk: Text -> Option<real>)

  predicate Alphanumeric(c: char) {
    '0' <= c <= '9' || 'a' <= c <= 'z' || 'A' <= c <= 'Z' || c == '.' || c == '-'
  }

  predicate Word(t: Text) {
    t.Char? && Without(t, c => !Alphanumeric(c))
  }

  /** An upper-case hash is a word and stays as it is when upper-cased again; decimal numerals are read by their value.
      Nothing is said about other texts, which a reader may accept or not. */
  ghost predicate Coherent(k: Codec) {
    && (forall t :: Word(k.upper(k.sha(t))) && k.upper(k.upper(k.sha(t))) == k.upper(k.sha(t)))
    && (forall t :: IntValue(t).Some? ==> k.readInt(t) == IntValue(t))
    && (forall t :: UnitsValue(t, 0).Some? ==> k.readRisk(t) == Some(Units(UnitsValue(t, 0).value)))
  }

  lemma {:induction false} WordIsPlain(t: Text)
    requires Without(t, c => !Alphanumeric(c))
    ensures Without(t, Refused) && OneLine(t)
  {
    if t.Char? { WordIsPlain(t.rest); }
  }

  /** The fields of a record before its hash. */
  datatype Entries = Entries(
    prefix: Text, schema: Text, tradeId: Text, authorizationId: Text, reservationId: Text, symbol: Text,
    timeframe: Text, authorizedRisk: Text, reservedRisk: Text, expiresAt: Text, expiresEpoch: Text, issuedAt: Text,
    issuedEpoch: Text, snapshotId: Text, decisionId: Text, strategyId: Text, modelId: Text, policyVersion: Text,
    riskAuthorizationId: Text, authorizationExpiry: Text, inputHash: Text, contractVersion: Text)

  datatype MqlRecord = MqlRecord(entries: Entries, integrityHash: Text)

  /** The entries in the order in which they are printed. */
  function RowOf(e: Entries): Row {
    Cons(e.prefix, Cons(e.schema, Cons(e.tradeId, Cons(e.authorizationId, Cons(e.reservationId, Cons(e.symbol,
    Cons(e.timeframe, Cons(e.authorizedRisk, Cons(e.reservedRisk, Cons(e.expiresAt, Cons(e.expiresEpoch,
    Cons(e.issuedAt, Cons(e.issuedEpoch, Cons(e.snapshotId, Cons(e.decisionId, Cons(e.strategyId, Cons(e.modelId,
    Cons(e.policyVersion, Cons(e.riskAuthorizationId, Cons(e.authorizationExpiry, Cons(e.inputHash,
    Cons(e.contractVersion, Nil))))))))))))))))))))))
  }

  /** The entries a row of fields stands for, if there are as many as a record has. */
  function EntriesOf(ts: Row): Option<Entries> {
    match ts
    case Cons(prefix, Cons(schema, Cons(tradeId, Cons(authorizationId, Cons(reservationId, Cons(symbol,
         Cons(timeframe, Cons(authorizedRisk, Cons(reservedRisk, Cons(expiresAt, Cons(expiresEpoch, Cons(issuedAt,
         Cons(issuedEpoch, Cons(snapshotId, Cons(decisionId, Cons(strategyId, Cons(modelId, Cons(policyVersion,
         Cons(riskAuthorizationId, Cons(authorizationExpiry, Cons(inputHash, Cons(contractVersion,
         Nil)))))))))))))))))))))) =>
      Some(Entries(prefix, schema, tradeId, authorizationId, reservationId, symbol, timeframe, authorizedRisk,
                   reservedRisk, expiresAt, expiresEpoch, issuedAt, issuedEpoch, snapshotId, decisionId,
                   strategyId, modelId, policyVersion, riskAuthorizationId, authorizationExpiry, inputHash,
                   contractVersion))
    case _ => None
  }

  function Snoc(ts: Row, last: Text): Row {
    if ts.Nil? then Cons(last, Nil) else Cons(ts.head, Snoc(ts.tail, last))
  }

  function AllButLast(ts: Row): Row
    requires ts.Cons?
  {
    if ts.tail.Nil? then Nil else Cons(ts.head, AllButLast(ts.tail))
  }

  function Last(ts: Row): Text
    requires ts.Cons?
  {
    if ts.tail.Nil? then ts.head else Last(ts.tail)
  }

  lemma {:induction false} SnocParts(ts: Row, last: Text)
    ensures Snoc(ts, last).Cons? && AllButLast(Snoc(ts, last)) == ts && Last(Snoc(ts, last)) == last
    ensures AllSafe(Snoc(ts, last)) <==> AllSafe(ts) && Safe(last)
    ensures ts.Cons? ==> Join(Snoc(ts, last)) == Append(Join(ts), Char('|', last))
  {
    if ts.Cons? {
      SnocParts(ts.tail, last);
      if ts.tail.Cons? { AppendAssoc(ts.head, Char('|', Join(ts.tail)), Char('|', last)); }
    }
  }

  lemma {:induction false} PartsSnoc(ts: Row)
    requires ts.Cons?
    ensures Snoc(AllButLast(ts), Last(ts)) == ts
  {
    if ts.tail.Cons? { PartsSnoc(ts.tail); }
  }

  function RecordHash(k: Codec, e: Entries): Text {
    k.upper(k.sha(Join(RowOf(e))))
  }

  /** One line: the entries, the hash, a line feed. */
  function Printed(e: Entries, hash: Text): Text {
    Append(Join(Snoc(RowOf(e), hash)), NEWLINE)
  }

  // ------------------------------------------------------------ build, serialize, parse

  datatype RecordError =
    | NotVerified | TradeMismatch | RiskInvalid | RelationInvalid | FieldInvalid | TimeInvalid | ExpiryMismatch
    | AuthorizationMismatch | ContractMismatch | Expired | HashMismatch | LineInvalid | FieldsMismatch | SchemaMismatch
    | NotANumber | ExpiryEpochMismatch | IssuedEpochMismatch | IssuedInFuture | TooOld

  datatype Result<+T> = Ok(value: T) | Err(error: RecordError)

  const MAX_RECORD_AGE_SECONDS := 10

  /** What a verified envelope and its proof carry. */
  datatype Grant = Grant(
    tradeId: Text, authorizationId: Text, reservationId: Text, authorized: real, reserved: real, expiresAt: Text,
    symbol: Text, timeframe: Text, snapshotId: Text, decisionId: Text, strategyId: Text, modelId: Text,
    policyVersion: Text, riskAuthorizationId: Text, authorizationExpiry: Text, inputHash: Text, contractVersion: Text)

  predicate RiskOk(risk: real) {
    0.0 < risk <= GLOBAL_MAX_RISK
  }

  /** The whole second of an instant in microseconds, truncated toward zero. */
  function Epoch(us: int): int {
    if us >= 0 then us / 1_000_000 else -((-us) / 1_000_000)
  }

  /** The whole seconds of an instant never lie further from zero than the instant, and less than a second nearer. */
  lemma EpochTruncates(us: int)
    ensures 0 <= us ==> 0 <= 1_000_000 * Epoch(us) <= us < 1_000_000 * Epoch(us) + 1_000_000
    ensures us < 0 ==> 1_000_000 * Epoch(us) - 1_000_000 < us <= 1_000_000 * Epoch(us) <= 0
  {
  }

  predicate Expected(expected: Option<Text>, tradeId: Text) {
    expected.None? || expected.value == tradeId
  }

  function EntriesFor(k: Codec, g: Grant, now: Text, issued: int, expires: int): Entries {
    Entries(k.prefix, k.schema, g.tradeId, g.authorizationId, g.reservationId, g.symbol, g.timeframe,
            ShowUnits(Rounded(g.authorized)), ShowUnits(Rounded(g.reserved)), g.expiresAt, ShowInt(Epoch(expires)),
            now, ShowInt(Epoch(issued)), g.snapshotId, g.decisionId, g.strategyId, g.modelId, g.policyVersion,
            g.riskAuthorizationId, g.authorizationExpiry, g.inputHash, g.contractVersion)
  }

  function Build(k: Codec, verified: bool, g: Grant, now: Text, expected: Option<Text>): Result<MqlRecord> {
    if !verified then Err(NotVerified)
    else if !Expected(expected, g.tradeId) then Err(TradeMismatch)
    else if !RiskOk(g.authorized) || !RiskOk(g.reserved) then Err(RiskInvalid)
    else if g.reserved > g.authorized then Err(RelationInvalid)
    else if k.time(g.expiresAt).None? then Err(TimeInvalid)
    else if g.authorizationExpiry != g.expiresAt then Err(ExpiryMismatch)
    else if g.riskAuthorizationId != g.authorizationId then Err(AuthorizationMismatch)
    else if g.contractVersion != k.contract then Err(ContractMismatch)
    else if k.time(now).None? then Err(TimeInvalid)
    else if k.time(g.expiresAt).value <= k.time(now).value then Err(Expired)
    else
      var e := EntriesFor(k, g, now, k.time(now).value, k.time(g.expiresAt).value);
      if !AllSafe(RowOf(e)) then Err(FieldInvalid) else Ok(MqlRecord(e, RecordHash(k, e)))
  }

  function Serialize(k: Codec, r: MqlRecord): Result<Text> {
    if k.upper(r.integrityHash) != RecordHash(k, r.entries) then Err(HashMismatch)
    else Ok(Printed(r.entries, k.upper(r.integrityHash)))
  }

  /** The risks of a record are numbers within the cap, in order. */
  function RisksError(k: Codec, e: Entries): Option<RecordError> {
    var authorized, reserved := k.readRisk(e.authorizedRisk), k.readRisk(e.reservedRisk);
    if authorized.None? || reserved.None? || !RiskOk(authorized.value) || !RiskOk(reserved.value) then Some(RiskInvalid)
    else if reserved.value > authorized.value then Some(RelationInvalid)
    else None
  }

  /** The times of a record agree with its epochs and with the present. */
  function TimesError(k: Codec, e: Entries, now: Text): Option<RecordError> {
    var expiresEpoch, issuedEpoch := k.readInt(e.expiresEpoch), k.readInt(e.issuedEpoch);
    if expiresEpoch.None? || issuedEpoch.None? then Some(NotANumber)
    else if k.time(e.issuedAt).None? || k.time(now).None? || k.time(e.expiresAt).None? then Some(TimeInvalid)
    else if expiresEpoch.value != Epoch(k.time(e.expiresAt).value) then Some(ExpiryEpochMismatch)
    else if issuedEpoch.value != Epoch(k.time(e.issuedAt).value) then Some(IssuedEpochMismatch)
    else
      var nowEpoch := Epoch(k.time(now).value);
      if issuedEpoch.value > nowEpoch then Some(IssuedInFuture)
      else if nowEpoch - issuedEpoch.value > MAX_RECORD_AGE_SECONDS then Some(TooOld)
      else if expiresEpoch.value <= nowEpoch then Some(Expired)
      else None
  }

  function BindingError(k: Codec, e: Entries): Option<RecordError> {
    if e.riskAuthorizationId != e.authorizationId then Some(AuthorizationMismatch)
    else if e.authorizationExpiry != e.expiresAt then Some(ExpiryMismatch)
    else if e.contractVersion != k.contract then Some(ContractMismatch)
    else None
  }

  function EntriesError(k: Codec, e: Entries, now: Text, expected: Option<Text>): Option<RecordError> {
    if e.prefix != k.prefix || e.schema != k.schema then Some(SchemaMismatch)
    else if !Expected(expected, e.tradeId) then Some(TradeMismatch)
    else if RisksError(k, e).Some? then RisksError(k, e)
    else if TimesError(k, e, now).Some? then TimesError(k, e, now)
    else BindingError(k, e)
  }

  function Parse(k: Codec, text: Text, now: Text, expected: Option<Text>): Result<MqlRecord> {
    var line := TheLine(text);
    if line.None? then Err(LineInvalid)
    else
      var parts := Fields(line.value);
      var e := EntriesOf(AllButLast(parts));
      if e.None? then Err(FieldsMismatch)
      else if !AllSafe(parts) then Err(FieldInvalid)
      else if EntriesError(k, e.value, now, expected).Some? then Err(EntriesError(k, e.value, now, expected).value)
      else if k.upper(Last(parts)) != RecordHash(k, e.value) then Err(HashMismatch)
      else Ok(MqlRecord(e.value, Last(parts)))
  }

  // ------------------------------------------------------------------ the round trip

  lemma {:induction false} JoinOneLine(ts: Row)
    ensures OneLine(Join(ts)) <==> AllOneLine(ts)
  {
    if ts.Cons? && ts.tail.Cons? {
      JoinOneLine(ts.tail);
      AppendWithout(ts.head, Char('|', Join(ts.tail)), Break);
    }
  }

  lemma {:induction false} AppendWithout(a: Text, b: Text, bad: char -> bool)
    ensures Without(Append(a, b), bad) <==> Without(a, bad) && Without(b, bad)
  {
    if a.Char? { AppendWithout(a.rest, b, bad); }
  }

  lemma {:induction false} SafeHasNoReturn(t: Text)
    requires Without(t, Refused)
    ensures Without(t, c => c == '\r')
  {
    if t.Char? { SafeHasNoReturn(t.rest); }
  }

  lemma {:induction false} JoinHasNoReturn(ts: Row)
    requires AllSafe(ts)
    ensures Without(Join(ts), c => c == '\r') && (ts.Cons? ==> Join(ts).Char?)
  {
    if ts.Cons? {
      SafeHasNoReturn(ts.head);
      if ts.tail.Cons? {
        JoinHasNoReturn(ts.tail);
        AppendWithout(ts.head, Char('|', Join(ts.tail)), c => c == '\r');
      }
    }
  }

  lemma {:induction false} SnocOneLine(ts: Row, last: Text)
    ensures AllOneLine(Snoc(ts, last)) <==> AllOneLine(ts) && OneLine(last)
  {
    if ts.Cons? { SnocOneLine(ts.tail, last); }
  }

  lemma EntriesOfRow(e: Entries)
    ensures EntriesOf(RowOf(e)) == Some(e) && RowOf(e).Cons?
  {
  }

  lemma RowOfEntries(ts: Row)
    requires EntriesOf(ts).Some?
    ensures RowOf(EntriesOf(ts).value) == ts
  {
    match ts
    case Cons(prefix, Cons(schema, Cons(tradeId, Cons(authorizationId, Cons(reservationId, Cons(symbol,
         Cons(timeframe, Cons(authorizedRisk, Cons(reservedRisk, Cons(expiresAt, Cons(expiresEpoch, Cons(issuedAt,
         Cons(issuedEpoch, Cons(snapshotId, Cons(decisionId, Cons(strategyId, Cons(modelId, Cons(policyVersion,
         Cons(riskAuthorizationId, Cons(authorizationExpiry, Cons(inputHash, Cons(contractVersion,
         Nil)))))))))))))))))))))) =>
  }

  /** Reading a printed record: its own entries, if no field holds a line break. */
  lemma ParsePrinted(k: Codec, e: Entries, hash: Text, now: Text, expected: Option<Text>)
    requires AllSafe(RowOf(e)) && Word(hash)
    ensures Parse(k, Printed(e, hash), now, expected)
         == if !AllOneLine(RowOf(e)) then Err(LineInvalid)
            else if EntriesError(k, e, now, expected).Some? then Err(EntriesError(k, e, now, expected).value)
            else if k.upper(hash) != RecordHash(k, e) then Err(HashMismatch)
            else Ok(MqlRecord(e, hash))
  {
    var parts := Snoc(RowOf(e), hash);
    WordIsPlain(hash);
    SnocParts(RowOf(e), hash);
    SnocOneLine(RowOf(e), hash);
    JoinHasNoReturn(parts);
    JoinOneLine(parts);
    TheLineExactly(Join(parts));
    FieldsOfJoin(parts);
    EntriesOfRow(e);
  }

  lemma HashIsWord(k: Codec, e: Entries)
    requires Coherent(k)
    ensures Word(RecordHash(k, e)) && k.upper(RecordHash(k, e)) == RecordHash(k, e)
  {
    var body := Join(RowOf(e));
    assert Word(k.upper(k.sha(body)));
  }

  /** When the reader, at second `nowEpoch`, finds nothing wrong with the entries of a built record. */
  lemma BuiltEntries(k: Codec, g: Grant, issuedAt: Text, issued: int, expires: int, now: Text, expected: Option<Text>)
    requires Coherent(k) && RiskOk(g.authorized) && RiskOk(g.reserved) && g.reserved <= g.authorized
    requires k.time(issuedAt) == Some(issued) && k.time(g.expiresAt) == Some(expires) && k.time(now).Some?
    requires g.authorizationExpiry == g.expiresAt && g.riskAuthorizationId == g.authorizationId
             && g.contractVersion == k.contract
    ensures EntriesError(k, EntriesFor(k, g, issuedAt, issued, expires), now, expected).None?
            <==> && Expected(expected, g.tradeId) && g.reserved > 0.000_000_000_000_5
                 && Epoch(issued) <= Epoch(k.time(now).value) <= Epoch(issued) + MAX_RECORD_AGE_SECONDS
                 && Epoch(k.time(now).value) < Epoch(expires)
  {
    var e := EntriesFor(k, g, issuedAt, issued, expires);
    RoundingKeepsOrder(g.reserved, g.authorized);
    RoundingKeepsOrder(g.authorized, g.authorized);
    UnitsReadBack(Rounded(g.authorized));
    UnitsReadBack(Rounded(g.reserved));
    IntReadsBack(Epoch(expires));
    IntReadsBack(Epoch(issued));
    assert k.readRisk(e.authorizedRisk) == Some(Units(Rounded(g.authorized)));
    assert k.readRisk(e.reservedRisk) == Some(Units(Rounded(g.reserved)));
    assert k.readInt(e.expiresEpoch) == Some(Epoch(expires)) && k.readInt(e.issuedEpoch) == Some(Epoch(issued));
  }

  /** Printing a built record and parsing it gives the record back exactly when no field holds a line break other than
      those refused, the reserved risk is above half a unit of the twelfth decimal, and the reader is neither before the
      issuing second, nor more than ten seconds after it, nor at or past the expiry second. */
  lemma RoundTripExactly(k: Codec, g: Grant, issuedAt: Text, r: MqlRecord, now: Text, expected: Option<Text>)
    requires Coherent(k) && Build(k, true, g, issuedAt, expected) == Ok(r) && k.time(now).Some?
    ensures Serialize(k, r) == Ok(Printed(r.entries, r.integrityHash))
    ensures var nowEpoch, issuedEpoch := Epoch(k.time(now).value), Epoch(k.time(issuedAt).value);
            Parse(k, Printed(r.entries, r.integrityHash), now, expected) == Ok(r)
            <==> && AllOneLine(RowOf(r.entries)) && g.reserved > 0.000_000_000_000_5
                 && issuedEpoch <= nowEpoch <= issuedEpoch + MAX_RECORD_AGE_SECONDS
                 && nowEpoch < Epoch(k.time(g.expiresAt).value)
  {
    HashIsWord(k, r.entries);
    ParsePrinted(k, r.entries, r.integrityHash, now, expected);
    BuiltEntries(k, g, issuedAt, k.time(issuedAt).value, k.time(g.expiresAt).value, now, expected);
  }

  lemma {:induction false} FirstLineOneLine(t: Text)
    ensures OneLine(FirstLine(t))
  {
    if t.Char? && !Break(t.c) { FirstLineOneLine(t.rest); }
  }

  /** Every accepted text is one line of the record's entries and its hash in any case; printing the record gives the
      same line with the hash in upper case, and that line is accepted again. */
  lemma AcceptedReprints(k: Codec, text: Text, now: Text, expected: Option<Text>, r: MqlRecord)
    requires Coherent(k) && Parse(k, text, now, expected) == Ok(r)
    ensures TheLine(text) == Some(Join(Snoc(RowOf(r.entries), r.integrityHash)))
    ensures Serialize(k, r) == Ok(Printed(r.entries, k.upper(r.integrityHash)))
    ensures Parse(k, Printed(r.entries, k.upper(r.integrityHash)), now, expected)
         == Ok(MqlRecord(r.entries, k.upper(r.integrityHash)))
  {
    var line := TheLine(text).value;
    var parts := Fields(line);
    JoinOfFields(line);
    PartsSnoc(parts);
    RowOfEntries(AllButLast(parts));
    SnocParts(RowOf(r.entries), r.integrityHash);
    FirstLineOneLine(text);
    JoinOneLine(parts);
    SnocOneLine(RowOf(r.entries), r.integrityHash);
    HashIsWord(k, r.entries);
    ParsePrinted(k, r.entries, RecordHash(k, r.entries), now, expected);
  }

  // --------------------------------------------- what is built, and what is accepted

  /** A grant that may be printed at this time. */
  ghost predicate Printable(k: Codec, g: Grant, now: Text, expected: Option<Text>) {
    && (expected.Some? ==> g.tradeId == expected.value)
    && 0.0 < g.reserved <= g.authorized <= 0.006
    && g.riskAuthorizationId == g.authorizationId && g.authorizationExpiry == g.expiresAt
    && g.contractVersion == k.contract
    && k.time(now).Some? && k.time(g.expiresAt).Some? && k.time(now).value < k.time(g.expiresAt).value
  }

  /** A record is built exactly from a verified and printable grant whose fields are safe. */
  lemma BuiltExactly(k: Codec, verified: bool, g: Grant, now: Text, expected: Option<Text>)
    ensures Build(k, verified, g, now, expected).Ok? <==>
              && verified && Printable(k, g, now, expected)
              && AllSafe(RowOf(EntriesFor(k, g, now, k.time(now).value, k.time(g.expiresAt).value)))
  {
  }

  /** A built record carries every field of its grant, its own times, and the hash of its entries. */
  lemma BuiltCarries(k: Codec, g: Grant, now: Text, expected: Option<Text>, r: MqlRecord)
    requires Build(k, true, g, now, expected) == Ok(r)
    ensures var e := r.entries;
            && e.prefix == k.prefix && e.schema == k.schema && e.contractVersion == k.contract
            && e.tradeId == g.tradeId && e.authorizationId == g.authorizationId && e.reservationId == g.reservationId
            && e.symbol == g.symbol && e.timeframe == g.timeframe && e.snapshotId == g.snapshotId
            && e.decisionId == g.decisionId && e.strategyId == g.strategyId && e.modelId == g.modelId
            && e.policyVersion == g.policyVersion && e.inputHash == g.inputHash
            && e.riskAuthorizationId == g.riskAuthorizationId && e.authorizationExpiry == g.authorizationExpiry
            && e.expiresAt == g.expiresAt && e.issuedAt == now
    ensures UnitsValue(r.entries.authorizedRisk, 0) == Some(Rounded(g.authorized))
    ensures UnitsValue(r.entries.reservedRisk, 0) == Some(Rounded(g.reserved))
    ensures k.time(now).Some? && IntValue(r.entries.issuedEpoch) == Some(Epoch(k.time(now).value))
    ensures k.time(g.expiresAt).Some? && IntValue(r.entries.expiresEpoch) == Some(Epoch(k.time(g.expiresAt).value))
    ensures r.integrityHash == k.upper(k.sha(Join(RowOf(r.entries))))
  {
    RoundingKeepsOrder(g.reserved, g.authorized);
    UnitsReadBack(Rounded(g.authorized));
    UnitsReadBack(Rounded(g.reserved));
    IntReadsBack(Epoch(k.time(now).value));
    IntReadsBack(Epoch(k.time(g.expiresAt).value));
  }

  /** Rounding is to the nearest unit. */
  lemma RoundedIsNearest(risk: real)
    ensures -0.5 <= Rounded(risk) as real - risk * 1_000_000_000_000.0 <= 0.5
  {
  }

  /** What the reader demands of the entries at the time of reading. */
  ghost predicate Acceptable(k: Codec, e: Entries, now: Text, expected: Option<Text>) {
    && e.prefix == k.prefix && e.schema == k.schema && e.contractVersion == k.contract
    && (expected.Some? ==> e.tradeId == expected.value)
    && e.riskAuthorizationId == e.authorizationId && e.authorizationExpiry == e.expiresAt
    && k.readRisk(e.authorizedRisk).Some? && k.readRisk(e.reservedRisk).Some?
    && 0.0 < k.readRisk(e.reservedRisk).value <= k.readRisk(e.authorizedRisk).value <= 0.006
    && k.time(now).Some? && k.time(e.issuedAt).Some? && k.time(e.expiresAt).Some?
    && var issued, expires := Epoch(k.time(e.issuedAt).value), Epoch(k.time(e.expiresAt).value);
       && k.readInt(e.issuedEpoch) == Some(issued) && k.readInt(e.expiresEpoch) == Some(expires)
       && issued <= Epoch(k.time(now).value) <= issued + 10 && Epoch(k.time(now).value) < expires
  }

  lemma EntriesAcceptable(k: Codec, e: Entries, now: Text, expected: Option<Text>)
    ensures EntriesError(k, e, now, expected).None? <==> Acceptable(k, e, now, expected)
  {
  }

  /** A text is accepted as a record exactly when its one line is the record's fields, which are safe and acceptable,
      and its hash is that of its entries, up to case. */
  lemma AcceptedExactly(k: Codec, text: Text, now: Text, expected: Option<Text>, r: MqlRecord)
    ensures Parse(k, text, now, expected) == Ok(r) <==>
              && TheLine(text) == Some(Join(Snoc(RowOf(r.entries), r.integrityHash)))
              && AllSafe(Snoc(RowOf(r.entries), r.integrityHash)) && Acceptable(k, r.entries, now, expected)
              && k.upper(r.integrityHash) == k.upper(k.sha(Join(RowOf(r.entries))))
  {
    var row := Snoc(RowOf(r.entries), r.integrityHash);
    EntriesAcceptable(k, r.entries, now, expected);
    SnocParts(RowOf(r.entries), r.integrityHash);
    EntriesOfRow(r.entries);
    if Parse(k, text, now, expected) == Ok(r) {
      var parts := Fields(TheLine(text).value);
      JoinOfFields(TheLine(text).value);
      PartsSnoc(parts);
      RowOfEntries(AllButLast(parts));
    } else if TheLine(text) == Some(Join(row)) && AllSafe(row) {
      FieldsOfJoin(row);
    }
  }

  /** The hash binds every entry: two safe records with the same hash are the same, or show a collision. */
  lemma HashBindsEntries(k: Codec, a: Entries, b: Entries)
    requires AllSafe(RowOf(a)) && AllSafe(RowOf(b)) && RecordHash(k, a) == RecordHash(k, b)
    ensures a == b || exists x, y :: x != y && k.upper(k.sha(x)) == k.upper(k.sha(y))
  {
    var x, y := Join(RowOf(a)), Join(RowOf(b));
    if x == y {
      EntriesOfRow(a);
      EntriesOfRow(b);
      FieldsOfJoin(RowOf(a));
      FieldsOfJoin(RowOf(b));
    } else {
      assert k.upper(k.sha(x)) == k.upper(k.sha(y));
    }
  }
}
