/** Validation of tender import rows: payload normalisation, identifiers over the
    whole file, milestone chronology, database-safe types and row status. */
module ImportRows {
  import opened Text
  import opened DateOnly
  import opened ImportCells

  datatype Field =
    | PrReceiptDate | NitInitiationDate | NitApprovalDate | NitPublishDate | BidReceiptDate
    | CommercialEvaluationDate | TechnicalEvaluationDate | NfaSubmissionDate | NfaApprovalDate
    | LoiIssuedDate | RcPoAwardDate | RcPoValidityDate | TentativeCompletionDate
    | ApprovedAmount | BiddersParticipated | EstimateBenchmark | PrValue | QualifiedBidders | RcPoAmount
    | CpcInvolved | LoiIssued | Priority | PriorityCase
    | TenderName | TenderDescription | PrDescription | PrId | PrSchemeNo | TenderNo | EntityCode

  type Payload = map<Field, Cell>

  function Get(p: Payload, f: Field): Cell {
    if f in p then p[f] else Null
  }

  const DATE_FIELDS: seq<Field> := [
    PrReceiptDate, NitInitiationDate, NitApprovalDate, NitPublishDate, BidReceiptDate,
    CommercialEvaluationDate, TechnicalEvaluationDate, NfaSubmissionDate, NfaApprovalDate,
    LoiIssuedDate, RcPoAwardDate, RcPoValidityDate, TentativeCompletionDate]
  const NUMBER_FIELDS: seq<Field> := [
    ApprovedAmount, BiddersParticipated, EstimateBenchmark, PrValue, QualifiedBidders, RcPoAmount]

  predicate IsDate(f: Field) {
    f in DATE_FIELDS
  }

  predicate IsNumber(f: Field) {
    f in NUMBER_FIELDS
  }

  // ----- normalisation -----

  function DateCell(c: Cell): Cell {
    match ParseImportDate(c) case Some(d) => Text(d) case None => c
  }

  function NumberCell(c: Cell, js: JsNumber): Cell {
    match NumberValue(c, js) case Some(v) => Number(v) case None => c
  }

  function BooleanCell(c: Cell): Cell {
    match BooleanValue(c) case Some(b) => Bool(b) case None => c
  }

  function PriorityValue(c: Cell): bool {
    match c
    case Text(t) => Lower(Trim(t)) in ["yes", "true", "high", "critical"]
    case Bool(b) => b
    case _ => false
  }

  function Coalesce(a: Cell, b: Cell): Cell {
    if a.Null? then b else a
  }

  /** What the normalised payload holds in each field. */
  function NormalizedCell(p: Payload, js: JsNumber, f: Field): Cell {
    if IsDate(f) then DateCell(Get(p, f))
    else if IsNumber(f) then NumberCell(Get(p, f), js)
    else if f == CpcInvolved || f == LoiIssued then BooleanCell(Get(p, f))
    else if f == PriorityCase then Bool(PriorityValue(Get(p, Priority)))
    else if f == TenderDescription then
      Coalesce(Get(p, TenderName), Coalesce(Get(p, TenderDescription), Get(p, PrDescription)))
    else Get(p, f)
  }

  /** The normalised payload, with its two fields that are always written. */
  function Normalized(p: Payload, js: JsNumber): Payload {
    map f | f in p.Keys + {PriorityCase, TenderDescription} :: NormalizedCell(p, js, f)
  }

  /** The date fields and the number fields are different fields, and the
      remaining ones are neither. */
  lemma FieldKinds()
    ensures forall f :: !(IsDate(f) && IsNumber(f))
    ensures forall f | f in {CpcInvolved, LoiIssued, Priority, PriorityCase, TenderName, TenderDescription,
                             PrDescription, PrId, PrSchemeNo, TenderNo, EntityCode} :: !IsDate(f) && !IsNumber(f)
  {
  }

  method NormalizeDates(payload: Payload) returns (normalized: Payload)
    ensures normalized.Keys == payload.Keys
    ensures forall f :: Get(normalized, f) == (if IsDate(f) then DateCell(Get(payload, f)) else Get(payload, f))
  {
    hide ParseImportDate;
    normalized := payload;
    for i := 0 to |DATE_FIELDS|
      invariant normalized.Keys == payload.Keys
      invariant forall f :: Get(normalized, f) ==
                            (if f in DATE_FIELDS[..i] then DateCell(Get(payload, f)) else Get(payload, f))
    {
      var f := DATE_FIELDS[i];
      assert f !in DATE_FIELDS[..i];
      assert DATE_FIELDS[..i + 1] == DATE_FIELDS[..i] + [f];
      var parsed := ParseImportDate(Get(normalized, f));
      if parsed.Some? { normalized := normalized[f := Text(parsed.value)]; }
    }
    assert DATE_FIELDS[..|DATE_FIELDS|] == DATE_FIELDS;
  }

  method NormalizeNumbers(payload: Payload, js: JsNumber) returns (normalized: Payload)
    ensures normalized.Keys == payload.Keys
    ensures forall f :: Get(normalized, f) == (if IsNumber(f) then NumberCell(Get(payload, f), js) else Get(payload, f))
  {
    hide NumberValue;
    normalized := payload;
    for i := 0 to |NUMBER_FIELDS|
      invariant normalized.Keys == payload.Keys
      invariant forall f :: Get(normalized, f) ==
                            (if f in NUMBER_FIELDS[..i] then NumberCell(Get(payload, f), js) else Get(payload, f))
    {
      var f := NUMBER_FIELDS[i];
      assert f !in NUMBER_FIELDS[..i];
      assert NUMBER_FIELDS[..i + 1] == NUMBER_FIELDS[..i] + [f];
      var numeric := NumberValue(Get(normalized, f), js);
      if numeric.Some? { normalized := normalized[f := Number(numeric.value)]; }
    }
    assert NUMBER_FIELDS[..|NUMBER_FIELDS|] == NUMBER_FIELDS;
  }

  method NormalizeAnswers(payload: Payload) returns (normalized: Payload)
    ensures normalized.Keys == payload.Keys
    ensures forall f :: Get(normalized, f) ==
                        (if f == CpcInvolved || f == LoiIssued then BooleanCell(Get(payload, f)) else Get(payload, f))
  {
    hide BooleanValue;
    normalized := payload;
    var cpc := BooleanValue(Get(normalized, CpcInvolved));
    if cpc.Some? { normalized := normalized[CpcInvolved := Bool(cpc.value)]; }
    var loi := BooleanValue(Get(normalized, LoiIssued));
    if loi.Some? { normalized := normalized[LoiIssued := Bool(loi.value)]; }
  }

  /** What normalising leaves in a field: dates, amounts and answers read from its
      cell, a priority flag and a description that are always written, and any
      other field as it was. */
  predicate FieldSays(p: Payload, f: Field, n: Cell, js: JsNumber) {
    var c := Get(p, f);
    if f in DATE_FIELDS then DateSays(c, n)
    else if f in NUMBER_FIELDS then AmountSays(c, n, js)
    else
      match f
      case CpcInvolved => AnswerSays(c, n)
      case LoiIssued => AnswerSays(c, n)
      case PriorityCase =>
        n == Bool(Get(p, Priority) == Bool(true) || Says(Get(p, Priority), ["yes", "true", "high", "critical"]))
      case TenderDescription =>
        n == if Get(p, TenderName) != Null then Get(p, TenderName) else if c != Null then c else Get(p, PrDescription)
      case _ => n == c
  }

  ghost predicate NormalizedSays(p: Payload, n: Payload, js: JsNumber) {
    n.Keys == p.Keys + {PriorityCase, TenderDescription} && forall f :: FieldSays(p, f, Get(n, f), js)
  }

  lemma CellSays(p: Payload, js: JsNumber, f: Field)
    ensures FieldSays(p, f, NormalizedCell(p, js, f), js)
  {
    hide DateSays, AmountSays, AnswerSays, ParseImportDate, NumberValue, BooleanValue, Lower, Trim;
    DateRead(Get(p, f));
    AmountRead(Get(p, f), js);
    AnswerRead(Get(p, f));
  }

  lemma NormalizedExact(p: Payload, js: JsNumber)
    ensures NormalizedSays(p, Normalized(p, js), js)
  {
    hide Normalized, NormalizedCell, FieldSays;
    forall f ensures FieldSays(p, f, Get(Normalized(p, js), f), js) {
      NormalizedAt(p, js, f);
      CellSays(p, js, f);
    }
    NormalizedFields(p, js);
  }

  lemma NormalizedFields(p: Payload, js: JsNumber)
    ensures Normalized(p, js).Keys == p.Keys + {PriorityCase, TenderDescription}
  {
  }

  method NormalizeValidatedPayload(payload: Payload, js: JsNumber) returns (normalized: Payload)
    ensures normalized == Normalized(payload, js)
    ensures NormalizedSays(payload, normalized, js)
  {
    hide NormalizedSays;
    NormalizedExact(payload, js);
    hide IsDate, IsNumber, BooleanCell, PriorityValue, DateCell, NumberCell, Coalesce, Normalized, NormalizedCell;
    normalized := NormalizeDates(payload);
    ghost var dates := normalized;
    normalized := NormalizeNumbers(normalized, js);
    ghost var numbers := normalized;
    normalized := NormalizeAnswers(normalized);
    FieldsApart(payload, dates, numbers, normalized, js);
    normalized := normalized[PriorityCase := Bool(PriorityValue(Get(normalized, Priority)))];
    normalized := normalized[TenderDescription :=
      Coalesce(Get(normalized, TenderName), Coalesce(Get(normalized, TenderDescription), Get(normalized, PrDescription)))];
    WrittenFields(payload, js);
    NormalizedByGet(normalized, payload, js);
  }

  /** The three passes write different fields, so each field holds what its own
      pass makes of the original cell. */
  lemma FieldsApart(p: Payload, dates: Payload, numbers: Payload, answers: Payload, js: JsNumber)
    requires forall f :: Get(dates, f) == (if IsDate(f) then DateCell(Get(p, f)) else Get(p, f))
    requires forall f :: Get(numbers, f) == (if IsNumber(f) then NumberCell(Get(dates, f), js) else Get(dates, f))
    requires forall f :: Get(answers, f) ==
                         (if f == CpcInvolved || f == LoiIssued then BooleanCell(Get(numbers, f)) else Get(numbers, f))
    ensures forall f :: f !in {PriorityCase, TenderDescription} ==> Get(answers, f) == NormalizedCell(p, js, f)
    ensures forall f :: f in {Priority, TenderName, TenderDescription, PrDescription} ==> Get(answers, f) == Get(p, f)
  {
    hide IsDate, IsNumber, BooleanCell, DateCell, NumberCell, PriorityValue, Coalesce;
    FieldKinds();
  }

  lemma WrittenFields(p: Payload, js: JsNumber)
    ensures NormalizedCell(p, js, PriorityCase) == Bool(PriorityValue(Get(p, Priority)))
    ensures NormalizedCell(p, js, TenderDescription) ==
            Coalesce(Get(p, TenderName), Coalesce(Get(p, TenderDescription), Get(p, PrDescription)))
  {
    FieldKinds();
  }

  lemma NormalizedByGet(n: Payload, p: Payload, js: JsNumber)
    requires n.Keys == p.Keys + {PriorityCase, TenderDescription}
    requires forall f :: f in n ==> Get(n, f) == NormalizedCell(p, js, f)
    ensures n == Normalized(p, js)
  {
    hide NormalizedCell;
    forall f | f in n ensures n[f] == Normalized(p, js)[f] { assert n[f] == Get(n, f); }
  }

  lemma NormalizedAt(p: Payload, js: JsNumber, f: Field)
    ensures Get(Normalized(p, js), f) == NormalizedCell(p, js, f)
  {
    hide IsDate, IsNumber, PriorityValue;
    FieldKinds();
  }

  // ----- chronology -----

  const CHAIN: seq<(string, Field)> := [
    ("PR/Scheme Receipt Date", PrReceiptDate), ("NIT Initiation", NitInitiationDate),
    ("NIT Approval", NitApprovalDate), ("NIT Publish", NitPublishDate),
    ("Bid Receipt", BidReceiptDate), ("NFA Submission", NfaSubmissionDate),
    ("NFA Approval", NfaApprovalDate), ("LOI Award Date", LoiIssuedDate),
    ("RC/PO Award Date", RcPoAwardDate), ("RC/PO Validity", RcPoValidityDate)]
  const EVALUATIONS: seq<(string, Field)> := [
    ("Commercial Evaluation", CommercialEvaluationDate), ("Technical Evaluation", TechnicalEvaluationDate)]

  function DateAt(p: Payload, f: Field): Option<string> {
    ParseImportDate(Get(p, f))
  }

  /** The messages of one pass down the chain, `last` being the latest date met. */
  function ChainErrors(chain: seq<(string, Field)>, p: Payload, last: Option<(string, string)>): seq<string> {
    if chain == [] then []
    else
      match DateAt(p, chain[0].1)
      case None => ChainErrors(chain[1..], p, last)
      case Some(d) =>
        (if last.Some? && LexLess(d, last.value.1)
         then [chain[0].0 + " cannot be before " + last.value.0 + "."] else [])
        + ChainErrors(chain[1..], p, Some((chain[0].0, d)))
  }

  function EvaluationMessages(p: Payload, title: string, field: Field): seq<string> {
    var e, bid, nfa := DateAt(p, field), DateAt(p, BidReceiptDate), DateAt(p, NfaSubmissionDate);
    (if e.Some? && bid.Some? && LexLess(e.value, bid.value)
     then [title + " must be on or after Bid Receipt."] else [])
    + (if e.Some? && nfa.Some? && LexLess(nfa.value, e.value)
       then ["NFA Submission cannot be before evaluation dates."] else [])
  }

  function EvaluationErrors(evaluations: seq<(string, Field)>, p: Payload): seq<string> {
    if evaluations == [] then []
    else EvaluationMessages(p, evaluations[0].0, evaluations[0].1) + EvaluationErrors(evaluations[1..], p)
  }

  method ValidateChronology(errors0: seq<string>, p: Payload) returns (errors: seq<string>)
    ensures errors == errors0 + ChainErrors(CHAIN, p, None) + EvaluationErrors(EVALUATIONS, p)
  {
    errors := ChronologyChain(errors0, p, CHAIN);
    errors := ChronologyEvaluations(errors, p, EVALUATIONS);
  }

  method ChronologyChain(errors0: seq<string>, p: Payload, chain: seq<(string, Field)>) returns (errors: seq<string>)
    ensures errors == errors0 + ChainErrors(chain, p, None)
  {
    hide ParseImportDate, LexLess;
    errors := errors0;
    var previous: Option<(string, string)> := None;
    for i := 0 to |chain|
      invariant errors + ChainErrors(chain[i..], p, previous) == errors0 + ChainErrors(chain, p, None)
    {
      var (title, field) := chain[i];
      assert chain[i..][0] == chain[i] && chain[i..][1..] == chain[i + 1..];
      var date := ParseImportDate(Get(p, field));
      if date.None? { continue; }
      if previous.Some? && LexLess(date.value, previous.value.1) {
        errors := errors + [title + " cannot be before " + previous.value.0 + "."];
      }
      previous := Some((title, date.value));
    }
  }

  method ChronologyEvaluation(errors0: seq<string>, p: Payload, title: string, field: Field) returns (errors: seq<string>)
    ensures errors == errors0 + EvaluationMessages(p, title, field)
  {
    hide ParseImportDate, LexLess;
    errors := errors0;
    var date := ParseImportDate(Get(p, field));
    var bidReceipt := ParseImportDate(Get(p, BidReceiptDate));
    var nfaSubmission := ParseImportDate(Get(p, NfaSubmissionDate));
    if date.Some? && bidReceipt.Some? && LexLess(date.value, bidReceipt.value) {
      errors := errors + [title + " must be on or after Bid Receipt."];
    }
    if date.Some? && nfaSubmission.Some? && LexLess(nfaSubmission.value, date.value) {
      errors := errors + ["NFA Submission cannot be before evaluation dates."];
    }
  }

  method ChronologyEvaluations(errors0: seq<string>, p: Payload, evaluations: seq<(string, Field)>)
    returns (errors: seq<string>)
    ensures errors == errors0 + EvaluationErrors(evaluations, p)
  {
    hide EvaluationMessages;
    errors := errors0;
    for i := 0 to |evaluations|
      invariant errors + EvaluationErrors(evaluations[i..], p) == errors0 + EvaluationErrors(evaluations, p)
    {
      assert evaluations[i..][0] == evaluations[i] && evaluations[i..][1..] == evaluations[i + 1..];
      errors := ChronologyEvaluation(errors, p, evaluations[i].0, evaluations[i].1);
    }
  }

  /** Every parsed milestone date is a valid date-only string. Normalised
      payloads have this: a number that parses has become text. */
  predicate DatesAreText(p: Payload) {
    forall f :: IsDate(f) && !Get(p, f).Text? ==> DateAt(p, f).None?
  }

  function DayAt(p: Payload, f: Field): (day: Option<int>)
    ensures IsDate(f) && DatesAreText(p) ==> day.Some? == DateAt(p, f).Some?
  {
    match DateAt(p, f)
    case None => None
    case Some(d) =>
      assert IsDate(f) && DatesAreText(p) ==> DayNumber(d).Some? by { if IsDate(f) && DatesAreText(p) { DateAtIsValid(p, f); } }
      DayNumber(d)
  }

  lemma DateAtIsValid(p: Payload, f: Field)
    requires IsDate(f) && DatesAreText(p) && DateAt(p, f).Some?
    ensures IsDateOnly(DateAt(p, f).value)
  {
    match Get(p, f)
    case Text(raw) => ParsedTextIsDate(raw);
    case _ =>
  }

  /** All present milestone dates are in order, whatever gaps lie between them. */
  predicate PairwiseInOrder(p: Payload, chain: seq<(string, Field)>) {
    forall i, j :: 0 <= i < j < |chain| && DayAt(p, chain[i].1).Some? && DayAt(p, chain[j].1).Some? ==>
      DayAt(p, chain[i].1).value <= DayAt(p, chain[j].1).value
  }

  predicate Between(p: Payload, f: Field) {
    DayAt(p, f).Some? ==>
      && (DayAt(p, BidReceiptDate).Some? ==> DayAt(p, BidReceiptDate).value <= DayAt(p, f).value)
      && (DayAt(p, NfaSubmissionDate).Some? ==> DayAt(p, f).value <= DayAt(p, NfaSubmissionDate).value)
  }

  /** The chronology check is silent exactly when all present milestone dates
      are pairwise in order and both evaluations lie between bid receipt and
      NFA submission. */
  lemma ChronologyExact(p: Payload)
    requires DatesAreText(p)
    ensures ChainErrors(CHAIN, p, None) + EvaluationErrors(EVALUATIONS, p) == [] <==>
            && PairwiseInOrder(p, CHAIN)
            && Between(p, CommercialEvaluationDate)
            && Between(p, TechnicalEvaluationDate)
  {
    hide DayAt, DateAt, PairwiseInOrder, Between, DatesAreText, LexLess, ChainErrors;
    ChainExact(CHAIN, p, None);
    EvaluationExact(p, EVALUATIONS[0]);
    EvaluationExact(p, EVALUATIONS[1]);
    assert EVALUATIONS[1..] == [EVALUATIONS[1]] && EVALUATIONS == [EVALUATIONS[0], EVALUATIONS[1]];
    assert EvaluationErrors(EVALUATIONS, p) == EvaluationErrors([EVALUATIONS[0]], p) + EvaluationErrors([EVALUATIONS[1]], p);
  }

  predicate NotBefore(p: Payload, last: Option<(string, string)>, chain: seq<(string, Field)>) {
    last.Some? && DayNumber(last.value.1).Some? ==>
      forall i :: 0 <= i < |chain| && DayAt(p, chain[i].1).Some? ==>
        DayNumber(last.value.1).value <= DayAt(p, chain[i].1).value
  }

  lemma {:induction false} ChainExact(chain: seq<(string, Field)>, p: Payload, last: Option<(string, string)>)
    requires DatesAreText(p) && forall i :: 0 <= i < |chain| ==> IsDate(chain[i].1)
    requires last.Some? ==> IsDateOnly(last.value.1)
    ensures ChainErrors(chain, p, last) == [] <==> PairwiseInOrder(p, chain) && NotBefore(p, last, chain)
  {
    if chain != [] {
      var rest := chain[1..];
      var date := DateAt(p, chain[0].1);
      if date.None? {
        ChainExact(rest, p, last);
        SkipFirst(p, chain, last);
      } else {
        DateAtIsValid(p, chain[0].1);
        var here := Some((chain[0].0, date.value));
        if last.Some? { StringOrderIsDayOrder(date.value, last.value.1); }
        ChainExact(rest, p, here);
        TakeFirst(p, chain, last);
      }
    }
  }

  lemma SkipFirst(p: Payload, chain: seq<(string, Field)>, last: Option<(string, string)>)
    requires chain != [] && DayAt(p, chain[0].1).None?
    ensures PairwiseInOrder(p, chain) <==> PairwiseInOrder(p, chain[1..])
    ensures NotBefore(p, last, chain) <==> NotBefore(p, last, chain[1..])
  {
    hide DayAt, DayNumber;
    assert forall i :: 1 <= i < |chain| ==> chain[i] == chain[1..][i - 1];
    assert forall i :: 0 <= i < |chain| - 1 ==> chain[1..][i] == chain[i + 1];
  }

  lemma TakeFirst(p: Payload, chain: seq<(string, Field)>, last: Option<(string, string)>)
    requires chain != [] && DatesAreText(p) && IsDate(chain[0].1) && DateAt(p, chain[0].1).Some?
    requires last.Some? ==> DayNumber(last.value.1).Some?
    ensures
      var here := Some((chain[0].0, DateAt(p, chain[0].1).value));
      PairwiseInOrder(p, chain) && NotBefore(p, last, chain) <==>
      && PairwiseInOrder(p, chain[1..]) && NotBefore(p, here, chain[1..])
      && (last.Some? ==> DayNumber(last.value.1).value <= DayAt(p, chain[0].1).value)
  {
    var here := Some((chain[0].0, DateAt(p, chain[0].1).value));
    assert forall i :: 1 <= i < |chain| ==> chain[i] == chain[1..][i - 1];
    assert forall i :: 0 <= i < |chain| - 1 ==> chain[1..][i] == chain[i + 1];
    assert DayNumber(here.value.1) == DayAt(p, chain[0].1);
  }

  lemma EvaluationExact(p: Payload, e: (string, Field))
    requires DatesAreText(p) && IsDate(e.1)
    ensures EvaluationErrors([e], p) == [] <==> Between(p, e.1)
  {
    hide ParseImportDate, DayNumber, IsDateOnly, LexLess;
    var d, bid, nfa := DateAt(p, e.1), DateAt(p, BidReceiptDate), DateAt(p, NfaSubmissionDate);
    if d.Some? { DateAtIsValid(p, e.1); }
    if bid.Some? { DateAtIsValid(p, BidReceiptDate); }
    if nfa.Some? { DateAtIsValid(p, NfaSubmissionDate); }
    if d.Some? && bid.Some? { StringOrderIsDayOrder(d.value, bid.value); }
    if d.Some? && nfa.Some? { StringOrderIsDayOrder(nfa.value, d.value); }
    assert EvaluationErrors([e][1..], p) == [];
  }
}
