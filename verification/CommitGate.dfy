/** What an accepted import guarantees: distinct identifiers over the file,
    ordered milestones, and a commit that neither the gate nor the typed check
    of the database transaction turns away. */
module CommitGate {
  import opened Text
  import opened DateOnly
  import opened ImportCells
  import opened ImportRows
  import opened ImportBatch

  // ----- accepted rows -----

  /** The payload a row is stored with. */
  function Stored(ctx: Context, seen: Seen, input: RowInput, js: JsNumber): Payload {
    ValidatedRow(ctx, seen, input, js).0.payload
  }

  /** An accepted row left no message in any of the modelled checks. */
  lemma AcceptedRowClean(ctx: Context, seen: Seen, input: RowInput, js: JsNumber)
    requires ValidatedRow(ctx, seen, input, js).0.status == Accepted
    ensures var (p, n) := RowPayload(ctx, seen, input, js);
            IdentifierErrors(ctx, seen.(sequence := n), p) == []
    ensures var q := Stored(ctx, seen, input, js);
            && ChainErrors(CHAIN, q, None) == [] && EvaluationErrors(EVALUATIONS, q) == []
            && forall i :: 0 <= i < |CHECKS| ==> !WrongKind(Get(q, CHECKS[i].field), CHECKS[i].kind, js)
  {
    hide RowPayload, WithCompletionDate, IdentifierErrors, ChainErrors, EvaluationErrors, RunChecks, WrongKind;
    var (p, n) := RowPayload(ctx, seen, input, js);
    var q := Stored(ctx, seen, input, js);
    RunChecksClean(
      input.row.errors + input.early + IdentifierErrors(ctx, seen.(sequence := n), p) + input.middle
      + ChainErrors(CHAIN, q, None) + EvaluationErrors(EVALUATIONS, q) + input.late, q, js, CHECKS);
  }

  lemma StoredIdentifiers(ctx: Context, seen: Seen, input: RowInput, js: JsNumber)
    ensures FoldedPrId(ctx, Stored(ctx, seen, input, js)) == FoldedPrId(ctx, RowPayload(ctx, seen, input, js).0)
    ensures FoldedTenderNo(ctx, Stored(ctx, seen, input, js)) == FoldedTenderNo(ctx, RowPayload(ctx, seen, input, js).0)
    ensures FoldedPrId(ctx, Stored(ctx, seen, input, js)) != ""
    ensures ValidatedRow(ctx, seen, input, js).1 ==
            SeenAfter(ctx, seen.(sequence := RowPayload(ctx, seen, input, js).1), Stored(ctx, seen, input, js))
  {
    hide IdPrefix, BulkId, Normalized, NextFree, RowErrors, StatusForRow, ParseImportDate, AddDays, Trim, Lower;
    hide WithCompletionDate, AssignId;
    var p := RowPayload(ctx, seen, input, js).0;
    CompletionKeeps(p, input.completionDays, PrId);
    CompletionKeeps(p, input.completionDays, TenderNo);
    AssignedIdText(ctx, seen, Normalized(input.row.payload, js));
  }

  lemma CompletionKeeps(p: Payload, completionDays: Option<int>, f: Field)
    requires f != TentativeCompletionDate
    ensures Get(WithCompletionDate(p, completionDays), f) == Get(p, f)
  {
    hide ParseImportDate, AddDays;
  }

  /** The assigned identifier is never blank. */
  lemma AssignedIdText(ctx: Context, seen: Seen, p: Payload)
    ensures TextOf(ctx.show, Get(AssignId(ctx, seen, p).0, PrId)) != ""
    ensures TextOf(ctx.show, Get(p, PrId)) == "" ==>
      FoldedPrId(ctx, AssignId(ctx, seen, p).0) !in ctx.existingPrIds + seen.prIds
    ensures forall f :: f !in {PrId, PrSchemeNo} ==> Get(AssignId(ctx, seen, p).0, f) == Get(p, f)
  {
    hide IdPrefix, BulkId, Trim, NextFree;
    if TextOf(ctx.show, Get(p, PrId)) == "" {
      var prefix, taken := IdPrefix(ctx.show, p, ctx.timestamp), ctx.existingPrIds + seen.prIds;
      NextFreeIsFirst(ctx.fold, prefix, taken, seen.sequence + 1);
      var n := NextFree(ctx.fold, prefix, taken, seen.sequence + 1);
      BulkIdTrimmed(ctx.show, p, ctx.timestamp, n);
    }
  }

  lemma BulkIdTrimmed(show: Shown, p: Payload, timestamp: Stamp, n: nat)
    ensures var id := BulkId(IdPrefix(show, p, timestamp), n);
            Trim(id) == id && id != ""
  {
    var id := BulkId(IdPrefix(show, p, timestamp), n);
    assert id[0] == 'R';
    assert id[|id| - 1] == Decimal(n)[|Decimal(n)| - 1];
    TrimFixed(id);
  }

  predicate IdsApart(ctx: Context, a: ImportRow, b: ImportRow) {
    a.status == Accepted && b.status == Accepted ==>
      && FoldedPrId(ctx, a.payload) != FoldedPrId(ctx, b.payload)
      && (FoldedTenderNo(ctx, a.payload) != "" ==> FoldedTenderNo(ctx, a.payload) != FoldedTenderNo(ctx, b.payload))
  }

  predicate NewAgainst(ctx: Context, seen: Seen, row: ImportRow) {
    row.status == Accepted ==>
      && FoldedPrId(ctx, row.payload) !in seen.prIds
      && FoldedTenderNo(ctx, row.payload) !in seen.tenderNos - {""}
  }

  lemma AcceptedIsNew(ctx: Context, seen: Seen, input: RowInput, js: JsNumber)
    ensures NewAgainst(ctx, seen, ValidatedRow(ctx, seen, input, js).0)
    ensures var (row, next) := ValidatedRow(ctx, seen, input, js);
            && seen.prIds <= next.prIds && seen.tenderNos <= next.tenderNos
            && FoldedPrId(ctx, row.payload) in next.prIds
            && (FoldedTenderNo(ctx, row.payload) != "" ==> FoldedTenderNo(ctx, row.payload) in next.tenderNos)
  {
    hide RowPayload, FoldedPrId, FoldedTenderNo, RowErrors, Wording;
    StoredIdentifiers(ctx, seen, input, js);
    if ValidatedRow(ctx, seen, input, js).0.status == Accepted {
      AcceptedRowClean(ctx, seen, input, js);
    }
  }

  lemma {:induction false} RowsNewAgainst(ctx: Context, seen: Seen, start: Seen, inputs: seq<RowInput>, js: JsNumber)
    requires start.prIds <= seen.prIds && start.tenderNos <= seen.tenderNos
    ensures forall i :: 0 <= i < |inputs| ==> NewAgainst(ctx, start, ValidatedRows(ctx, seen, inputs, js)[i])
    decreases |inputs|
  {
    hide ValidatedRow;
    if inputs != [] {
      AcceptedIsNew(ctx, seen, inputs[0], js);
      RowsNewAgainst(ctx, ValidatedRow(ctx, seen, inputs[0], js).1, start, inputs[1..], js);
    }
  }

  predicate AllApart(ctx: Context, rows: seq<ImportRow>) {
    forall i, j :: 0 <= i < j < |rows| ==> IdsApart(ctx, rows[i], rows[j])
  }

  /** Over the whole row loop, accepted rows have pairwise distinct case-folded
      PR ids and, where present, pairwise distinct tender numbers. */
  lemma {:induction false} AcceptedRowsDistinct(ctx: Context, seen: Seen, inputs: seq<RowInput>, js: JsNumber)
    ensures AllApart(ctx, ValidatedRows(ctx, seen, inputs, js))
    decreases |inputs|
  {
    hide ValidatedRow, NewAgainst, IdsApart;
    if inputs != [] {
      var (first, next) := ValidatedRow(ctx, seen, inputs[0], js);
      var rest := ValidatedRows(ctx, next, inputs[1..], js);
      RowsNewAgainst(ctx, next, next, inputs[1..], js);
      AcceptedRowsDistinct(ctx, next, inputs[1..], js);
      forall i, j | 0 <= i < j < |rest| + 1 ensures IdsApart(ctx, ([first] + rest)[i], ([first] + rest)[j]) {
        if i == 0 {
          assert NewAgainst(ctx, next, rest[j - 1]);
          FirstApart(ctx, seen, inputs[0], js, rest[j - 1]);
        } else {
          assert IdsApart(ctx, rest[i - 1], rest[j - 1]);
        }
      }
    }
  }

  lemma FirstApart(ctx: Context, seen: Seen, input: RowInput, js: JsNumber, later: ImportRow)
    requires NewAgainst(ctx, ValidatedRow(ctx, seen, input, js).1, later)
    ensures IdsApart(ctx, ValidatedRow(ctx, seen, input, js).0, later)
  {
    hide ValidatedRow, FoldedPrId, FoldedTenderNo;
    AcceptedIsNew(ctx, seen, input, js);
  }

  /** The row's own PR id cell is blank, so one is generated. */
  predicate NeedsId(ctx: Context, input: RowInput) {
    TextOf(ctx.show, Get(input.row.payload, PrId)) == ""
  }

  lemma GeneratedIdFree(ctx: Context, seen: Seen, input: RowInput, js: JsNumber)
    requires NeedsId(ctx, input)
    ensures FoldedPrId(ctx, Stored(ctx, seen, input, js)) !in ctx.existingPrIds
    ensures FoldedPrId(ctx, Stored(ctx, seen, input, js)) !in seen.prIds
  {
    hide AssignId, FoldedPrId, TextOf, Normalized, Stored, ValidatedRow, IsDate, IsNumber, DateCell, BooleanCell;
    StoredIdentifiers(ctx, seen, input, js);
    NormalizedAt(input.row.payload, js, PrId);
    FieldKinds();
    AssignedIdText(ctx, seen, Normalized(input.row.payload, js));
  }

  /** Every generated identifier is new against the existing cases, the ids seen
      before the file, and the ids of all earlier rows, accepted or not. */
  lemma {:induction false} GeneratedIdsFresh(ctx: Context, seen: Seen, inputs: seq<RowInput>, js: JsNumber, k: nat)
    requires k < |inputs| && NeedsId(ctx, inputs[k])
    ensures var rows := ValidatedRows(ctx, seen, inputs, js);
            && FoldedPrId(ctx, rows[k].payload) !in ctx.existingPrIds
            && FoldedPrId(ctx, rows[k].payload) !in seen.prIds
            && forall i :: 0 <= i < k ==> FoldedPrId(ctx, rows[i].payload) != FoldedPrId(ctx, rows[k].payload)
    decreases |inputs|
  {
    hide ValidatedRow, FoldedPrId, NeedsId;
    if k == 0 {
      GeneratedIdFree(ctx, seen, inputs[0], js);
    } else {
      AcceptedIsNew(ctx, seen, inputs[0], js);
      GeneratedIdsFresh(ctx, ValidatedRow(ctx, seen, inputs[0], js).1, inputs[1..], js, k - 1);
    }
  }

  lemma StoredCells(ctx: Context, seen: Seen, input: RowInput, js: JsNumber, f: Field)
    requires f !in {PrId, PrSchemeNo, TentativeCompletionDate}
    ensures Get(Stored(ctx, seen, input, js), f) == NormalizedCell(input.row.payload, js, f)
  {
    hide Normalized, NormalizedCell, AssignId, WithCompletionDate, RowErrors, StatusForRow;
    NormalizedAt(input.row.payload, js, f);
    AssignedIdText(ctx, seen, Normalized(input.row.payload, js));
    CompletionKeeps(RowPayload(ctx, seen, input, js).0, input.completionDays, f);
  }

  /** The completion date is the normalised cell or a formatted day. */
  lemma StoredCompletionDate(ctx: Context, seen: Seen, input: RowInput, js: JsNumber)
    ensures var c := Get(Stored(ctx, seen, input, js), TentativeCompletionDate);
            c == DateCell(Get(input.row.payload, TentativeCompletionDate)) || exists day :: c == Text(FormatDay(day))
  {
    hide Normalized, AssignId, FormatDay, DayNumber, RowErrors, StatusForRow, DateCell, WithCompletionDate;
    NormalizedAt(input.row.payload, js, TentativeCompletionDate);
    NormalizedAt(input.row.payload, js, PrReceiptDate);
    FieldKinds();
    AssignedIdText(ctx, seen, Normalized(input.row.payload, js));
    DateCellIso(Get(input.row.payload, PrReceiptDate));
    DerivedCompletionDate(RowPayload(ctx, seen, input, js).0, input.completionDays);
  }

  lemma DerivedCompletionDate(p: Payload, completionDays: Option<int>)
    requires !Get(p, PrReceiptDate).Text? ==> ParseImportDate(Get(p, PrReceiptDate)).None?
    ensures var c := Get(WithCompletionDate(p, completionDays), TentativeCompletionDate);
            c == Get(p, TentativeCompletionDate) || exists day :: c == Text(FormatDay(day))
  {
    hide FormatDay, ParseImportDate, IsDateOnly, AddDays;
    var receipt := ParseImportDate(Get(p, PrReceiptDate));
    if receipt.Some? && completionDays.Some? {
      ParsedTextIsDate(Get(p, PrReceiptDate).text);
      AddedIsFormatted(receipt.value, completionDays.value);
    }
  }

  lemma AddedIsFormatted(value: string, days: int)
    requires IsDateOnly(value)
    ensures exists day :: AddDays(value, days) == FormatDay(day)
  {
    hide FormatDay, UtcDay, ParseParts;
    assert AddDays(value, days) == FormatDay(DayNumber(value).value + days);
  }

  /** A stored date cell that parses is already in `YYYY-MM-DD` form. */
  lemma StoredDateIsIso(ctx: Context, seen: Seen, input: RowInput, js: JsNumber, f: Field)
    requires IsDate(f)
    ensures var c := Get(Stored(ctx, seen, input, js), f);
            && (!c.Text? ==> ParseImportDate(c).None?)
            && (ParseImportDate(c).Some? ==> c.Text? && IsDateOnly(c.text))
  {
    hide FormatDay, Stored;
    if f == TentativeCompletionDate {
      StoredCompletionDate(ctx, seen, input, js);
      var c := Get(Stored(ctx, seen, input, js), f);
      if day :| c == Text(FormatDay(day)) { FormattedDayParses(day); }
    } else {
      StoredCells(ctx, seen, input, js, f);
    }
    DateCellIso(Get(input.row.payload, f));
  }

  /** A date cell once normalised: a serial or a date object has become a formatted day. */
  lemma DateCellIso(c: Cell)
    ensures var d := DateCell(c);
            && (!d.Text? ==> ParseImportDate(d).None?)
            && (ParseImportDate(d).Some? ==> d.Text? && IsDateOnly(d.text))
  {
    hide ParseImportDate, IsDateOnly;
    match c
    case Text(raw) => if ParseImportDate(c).Some? { ParsedTextIsDate(raw); }
    case Number(v) => SerialIso(v);
    case Dated(Some(day)) => DayIso(day);
    case _ =>
  }

  lemma DayIso(day: Day)
    ensures ParseImportDate(Text(FormatDay(day))).Some? ==> IsDateOnly(FormatDay(day))
    ensures ParseImportDate(Dated(Some(day))) == Some(FormatDay(day))
  {
    hide FormatDay, IsDateOnly;
    FormattedDayParses(day);
  }

  lemma SerialIso(v: real)
    ensures match ParseImportDate(Number(v))
            case None => true
            case Some(s) => ParseImportDate(Text(s)).Some? ==> IsDateOnly(s)
  {
    hide FormatDay, IsDateOnly, DayFirst;
    if ParseImportDate(Number(v)).Some? { FormattedDayParses(v.Floor - 25569); }
  }

  /** An accepted row's milestones are in order, across any gaps, and its
      evaluations lie between bid receipt and NFA submission. */
  lemma AcceptedRowInOrder(ctx: Context, seen: Seen, input: RowInput, js: JsNumber)
    requires ValidatedRow(ctx, seen, input, js).0.status == Accepted
    ensures var q := Stored(ctx, seen, input, js);
            && PairwiseInOrder(q, CHAIN)
            && Between(q, CommercialEvaluationDate)
            && Between(q, TechnicalEvaluationDate)
  {
    hide Stored, ValidatedRow;
    AcceptedRowClean(ctx, seen, input, js);
    var q := Stored(ctx, seen, input, js);
    forall f | IsDate(f) && !Get(q, f).Text? ensures DateAt(q, f).None? {
      StoredDateIsIso(ctx, seen, input, js, f);
    }
    ChronologyExact(q);
  }

  /** Exactly when a row is accepted: nothing was wrong with it before and in the
      checks that are not modelled, its identifiers are new in the file, its tender
      number is free for it, its milestones are in order, and no typed cell holds
      the wrong kind of value. A row with nothing but unknown references is staged. */
  lemma RowAcceptedExactly(ctx: Context, seen: Seen, input: RowInput, js: JsNumber)
    ensures var (row, _) := ValidatedRow(ctx, seen, input, js); var q := row.payload;
            var prId, tenderNo := FoldedPrId(ctx, q), FoldedTenderNo(ctx, q);
            && (row.status == Accepted <==>
                  && input.row.status != Rejected
                  && input.row.errors == [] && input.early == [] && input.middle == [] && input.late == []
                  && prId !in seen.prIds
                  && (tenderNo != "" ==> tenderNo !in seen.tenderNos)
                  && (tenderNo != "" && tenderNo in ctx.existingTenderNos ==> ctx.existingTenderNos[tenderNo] in {"", prId})
                  && PairwiseInOrder(q, CHAIN) && Between(q, CommercialEvaluationDate) && Between(q, TechnicalEvaluationDate)
                  && forall i :: 0 <= i < |CHECKS| ==> CellFits(Get(q, CHECKS[i].field), CHECKS[i].kind))
            && (row.status == Staged <==>
                  && input.row.status != Rejected && row.errors != []
                  && forall i :: 0 <= i < |row.errors| ==> row.errors[i] in {"Unknown entity code.", "Unknown owner user."})
  {
    hide RowPayload, WithCompletionDate, IdentifierErrors, ChainErrors, EvaluationErrors, RunChecks, WrongKind, PairwiseInOrder,
         Between, FoldedPrId, FoldedTenderNo, DatesAreText, CellFits;
    var (p, n) := RowPayload(ctx, seen, input, js);
    var q := Stored(ctx, seen, input, js);
    StoredIdentifiers(ctx, seen, input, js);
    StoredDatesAreText(ctx, seen, input, js);
    ChronologyExact(q);
    IdentifiersClean(ctx, seen.(sequence := n), p);
    StoredHasId(ctx, seen, input, js);
    forall i | 0 <= i < |CHECKS|
      ensures CellFits(Get(q, CHECKS[i].field), CHECKS[i].kind) <==> !WrongKind(Get(q, CHECKS[i].field), CHECKS[i].kind, js)
    {
      StoredFits(ctx, seen, input, js, CHECKS[i]);
    }
    RunChecksClean(
      input.row.errors + input.early + IdentifierErrors(ctx, seen.(sequence := n), p) + input.middle
      + ChainErrors(CHAIN, q, None) + EvaluationErrors(EVALUATIONS, q) + input.late, q, js, CHECKS);
  }

  /** A stored cell that is blank or holds a value of its column's kind. */
  predicate CellFits(c: Cell, kind: Kind) {
    HasValue(c) ==>
    match kind
    case DateKind => c.Text? && IsDateOnly(c.text)
    case AmountKind => c.Number?
    case CountKind => c.Number? && c.value >= 0.0 && c.value.Floor as real == c.value
    case BooleanKind => c.Bool?
  }

  lemma StoredFits(ctx: Context, seen: Seen, input: RowInput, js: JsNumber, check: Check)
    requires check in CHECKS
    ensures var c := Get(Stored(ctx, seen, input, js), check.field);
            CellFits(c, check.kind) <==> !WrongKind(c, check.kind, js)
  {
    hide Stored, FormatDay, Trim;
    CheckKinds(check);
    if check.kind == DateKind {
      hide ParseImportDate, IsDateOnly, HasValue;
      var c := Get(Stored(ctx, seen, input, js), check.field);
      StoredDateIsIso(ctx, seen, input, js, check.field);
      if c.Text? && IsDateOnly(c.text) { IsoParses(c.text); }
    } else {
      StoredCells(ctx, seen, input, js, check.field);
      NormalizedFits(input.row.payload, js, check);
    }
  }

  lemma IsoParses(s: string)
    requires IsDateOnly(s)
    ensures ParseImportDate(Text(s)) == Some(s)
  {
    hide IsDateOnly, DayFirst, Trim;
    IsoHasNoSpace(s);
  }

  lemma NormalizedFits(p: Payload, js: JsNumber, check: Check)
    requires check in CHECKS && check.kind != DateKind
    ensures var c := NormalizedCell(p, js, check.field); CellFits(c, check.kind) <==> !WrongKind(c, check.kind, js)
  {
    hide Trim, Lower, FormatDay, ParseImportDate, IsDateOnly, RemoveCommas;
    CheckKinds(check);
    FieldKinds();
    assert !IsDate(check.field);
    if check.kind == BooleanKind { assert !IsNumber(check.field); }
  }

  lemma StoredDatesAreText(ctx: Context, seen: Seen, input: RowInput, js: JsNumber)
    ensures DatesAreText(Stored(ctx, seen, input, js))
  {
    hide Stored, ParseImportDate;
    var q := Stored(ctx, seen, input, js);
    forall f | IsDate(f) && !Get(q, f).Text? ensures DateAt(q, f).None? { StoredDateIsIso(ctx, seen, input, js, f); }
  }

  lemma StoredHasId(ctx: Context, seen: Seen, input: RowInput, js: JsNumber)
    ensures HasValue(Get(RowPayload(ctx, seen, input, js).0, PrId))
    ensures FoldedPrId(ctx, RowPayload(ctx, seen, input, js).0) != ""
  {
    hide Normalized, AssignId, FormatDay;
    AssignedIdText(ctx, seen, Normalized(input.row.payload, js));
  }

  lemma IdentifiersClean(ctx: Context, seen: Seen, p: Payload)
    ensures var prId, tenderNo := FoldedPrId(ctx, p), FoldedTenderNo(ctx, p);
            IdentifierErrors(ctx, seen, p) == [] <==>
            && HasValue(Get(p, PrId)) && (prId != "" ==> prId !in seen.prIds)
            && (tenderNo != "" ==> tenderNo !in seen.tenderNos)
            && (tenderNo != "" && tenderNo in ctx.existingTenderNos ==> ctx.existingTenderNos[tenderNo] in {"", prId})
  {
    hide FoldedPrId, FoldedTenderNo, HasValue;
  }

  /** What an accepted or refused row is stored with, field by field: the values its
      own cells mean, but for its identifiers and a derived completion date. */
  lemma StoredSays(ctx: Context, seen: Seen, input: RowInput, js: JsNumber, f: Field)
    requires f !in {PrId, PrSchemeNo, TentativeCompletionDate}
    ensures FieldSays(input.row.payload, f, Get(Stored(ctx, seen, input, js), f), js)
  {
    hide Stored, NormalizedCell, FieldSays;
    StoredCells(ctx, seen, input, js, f);
    CellSays(input.row.payload, js, f);
  }

  // ----- the typed check of the commit transaction -----

  predicate IsoPattern(s: string) {
    ParseParts(s).Some?
  }

  /** The SQL test of one stored cell: not null, as an invalid date is stored, not
      the empty string, and not of the JSON type (and shape) the column needs. */
  predicate TypedError(c: Cell, kind: Kind) {
    c != Null && c != Text("") && c != Dated(None) &&
    match kind
    case DateKind => !c.Text? || !IsoPattern(c.text)
    case AmountKind => !c.Number?
    case CountKind => !c.Number? || c.value < 0.0 || c.value.Floor as real != c.value
    case BooleanKind => !c.Bool?
  }

  predicate TypedErrorFree(p: Payload) {
    forall i :: 0 <= i < |CHECKS| ==> !TypedError(Get(p, CHECKS[i].field), CHECKS[i].kind)
  }

  /** Text that is blank but not empty, which the CSV reader's trimming never produces. */
  predicate BlankText(c: Cell) {
    c.Text? && c.text != "" && Trim(c.text) == ""
  }

  /** For one stored cell that passed the worker's test, the commit-time test
      fails only on blank, non-empty text. */
  lemma CellPassesCommit(ctx: Context, seen: Seen, input: RowInput, js: JsNumber, check: Check)
    requires check in CHECKS
    requires !WrongKind(Get(Stored(ctx, seen, input, js), check.field), check.kind, js)
    ensures var c := Get(Stored(ctx, seen, input, js), check.field);
            TypedError(c, check.kind) <==> BlankText(c)
  {
    hide Stored, ParseParts, FormatDay, Trim;
    var c := Get(Stored(ctx, seen, input, js), check.field);
    CheckKinds(check);
    EmptyTrims();
    if check.kind == DateKind {
      StoredDateIsIso(ctx, seen, input, js, check.field);
      if HasValue(c) { assert ParseParts(c.text).Some?; } else if c.Text? { BlankIsNoDate(c); }
    } else {
      StoredCells(ctx, seen, input, js, check.field);
      NormalizedKinds(input.row.payload, js, check);
    }
  }

  lemma BlankIsNoDate(c: Cell)
    requires c.Text? && Trim(c.text) == ""
    ensures ParseParts(c.text).None?
  {
    if ParseParts(c.text).Some? {
      var s := c.text;
      assert s[..4][0] == s[0] && IsDigit(s[..4][0]) && s[8..][1] == s[9];
      TrimFixed(s);
    }
  }

  /** Which fields each kind of check looks at. */
  lemma CheckKinds(check: Check)
    requires check in CHECKS
    ensures check.kind == DateKind <==> IsDate(check.field)
    ensures check.kind == AmountKind || check.kind == CountKind ==> IsNumber(check.field)
    ensures check.kind == BooleanKind ==> check.field in {CpcInvolved, LoiIssued, PriorityCase}
  {
  }

  lemma NormalizedKinds(p: Payload, js: JsNumber, check: Check)
    requires check in CHECKS && check.kind != DateKind
    requires !WrongKind(NormalizedCell(p, js, check.field), check.kind, js)
    ensures var c := NormalizedCell(p, js, check.field);
            TypedError(c, check.kind) <==> BlankText(c)
  {
    hide Trim;
    CheckKinds(check);
    FieldKinds();
    EmptyTrims();
    assert !IsDate(check.field);
    if check.kind == BooleanKind {
      assert !IsNumber(check.field);
    }
  }

  /** A row the worker accepted passes the commit-time typed check exactly when
      none of its typed cells holds blank, non-empty text. */
  lemma AcceptedRowCommits(ctx: Context, seen: Seen, input: RowInput, js: JsNumber)
    requires ValidatedRow(ctx, seen, input, js).0.status == Accepted
    ensures var q := Stored(ctx, seen, input, js);
            TypedErrorFree(q) <==> forall i :: 0 <= i < |CHECKS| ==> !BlankText(Get(q, CHECKS[i].field))
  {
    hide Stored, ValidatedRow, TypedError, BlankText, WrongKind;
    AcceptedRowClean(ctx, seen, input, js);
    forall i | 0 <= i < |CHECKS|
      ensures TypedError(Get(Stored(ctx, seen, input, js), CHECKS[i].field), CHECKS[i].kind)
         <==> BlankText(Get(Stored(ctx, seen, input, js), CHECKS[i].field))
    {
      CellPassesCommit(ctx, seen, input, js, CHECKS[i]);
    }
  }

  /** Cells as the CSV reader leaves them: null, or text already trimmed. */
  predicate TrimmedText(p: Payload) {
    forall f :: Get(p, f).Null? || (Get(p, f).Text? && Trim(Get(p, f).text) == Get(p, f).text)
  }

  /** For CSV files no accepted row is turned away at commit. */
  lemma CsvRowCommits(ctx: Context, seen: Seen, input: RowInput, js: JsNumber)
    requires ValidatedRow(ctx, seen, input, js).0.status == Accepted && TrimmedText(input.row.payload)
    ensures TypedErrorFree(Stored(ctx, seen, input, js))
  {
    hide Stored, ValidatedRow, FormatDay, Trim, TypedErrorFree;
    AcceptedRowCommits(ctx, seen, input, js);
    forall i | 0 <= i < |CHECKS| ensures !BlankText(Get(Stored(ctx, seen, input, js), CHECKS[i].field)) {
      var f := CHECKS[i].field;
      CheckKinds(CHECKS[i]);
      CsvCellNotBlank(ctx, seen, input, js, f);
    }
  }

  lemma CsvCellNotBlank(ctx: Context, seen: Seen, input: RowInput, js: JsNumber, f: Field)
    requires TrimmedText(input.row.payload)
    requires IsDate(f) || IsNumber(f) || f in {CpcInvolved, LoiIssued, PriorityCase}
    ensures !BlankText(Get(Stored(ctx, seen, input, js), f))
  {
    hide Stored, IsDate, IsNumber, BlankText, DateCell, NormalizedCell;
    if f == TentativeCompletionDate {
      StoredCompletionNotBlank(ctx, seen, input, js);
    } else {
      assert f !in {PrId, PrSchemeNo} by { FieldKinds(); }
      StoredCells(ctx, seen, input, js, f);
      NormalizedNotBlank(input.row.payload, js, f);
    }
  }

  lemma StoredCompletionNotBlank(ctx: Context, seen: Seen, input: RowInput, js: JsNumber)
    requires TrimmedText(input.row.payload)
    ensures !BlankText(Get(Stored(ctx, seen, input, js), TentativeCompletionDate))
  {
    hide Stored, FormatDay, Trim, DateCell;
    StoredCompletionDate(ctx, seen, input, js);
    var c := Get(Stored(ctx, seen, input, js), TentativeCompletionDate);
    if day :| c == Text(FormatDay(day)) {
      FormatDayEnds(day);
      TrimFixed(FormatDay(day));
    } else {
      TextDateNotBlank(Get(input.row.payload, TentativeCompletionDate));
    }
  }

  lemma NormalizedNotBlank(p: Payload, js: JsNumber, f: Field)
    requires TrimmedText(p) && (IsDate(f) || IsNumber(f) || f in {CpcInvolved, LoiIssued, PriorityCase})
    ensures !BlankText(NormalizedCell(p, js, f))
  {
    hide Trim, DateCell, IsDate, IsNumber, PriorityValue;
    FieldKinds();
    if IsDate(f) { TextDateNotBlank(Get(p, f)); }
  }

  lemma TextDateNotBlank(c: Cell)
    requires c.Null? || (c.Text? && Trim(c.text) == c.text)
    ensures !BlankText(DateCell(c))
  {
    hide Trim, FormatDay;
    if c.Text? && ParseImportDate(c).Some? {
      ParsedTextIsDate(c.text);
      IsoHasNoSpace(ParseImportDate(c).value);
    }
  }

  // ----- job counts and the commit gate -----

  datatype Counts = Counts(total: nat, accepted: nat, rejected: nat, unknownEntities: nat, unknownUsers: nat)

  function CountStatus(rows: seq<ImportRow>, status: RowStatus): nat {
    if rows == [] then 0 else (if rows[0].status == status then 1 else 0) + CountStatus(rows[1..], status)
  }

  function CountError(rows: seq<ImportRow>, error: string): nat {
    if rows == [] then 0 else (if error in rows[0].errors then 1 else 0) + CountError(rows[1..], error)
  }

  /** The counters persistRows stores with a parsed job. */
  function WorkerCounts(rows: seq<ImportRow>): Counts {
    Counts(|rows|, CountStatus(rows, Accepted), CountStatus(rows, Rejected),
           CountError(rows, UNKNOWN_ENTITY_ERROR), CountError(rows, UNKNOWN_USER_ERROR))
  }

  /** The counters the dry-run staging stores: every staged row counts as an unknown entity. */
  function DryRunCounts(rows: seq<ImportRow>): Counts {
    Counts(|rows|, CountStatus(rows, Accepted), CountStatus(rows, Rejected), CountStatus(rows, Staged), 0)
  }

  /** The where clause that selects a job for commit, for a job in status `parsed`. */
  predicate GateOpens(c: Counts) {
    c.rejected == 0 && c.unknownEntities == 0 && c.unknownUsers == 0
  }

  predicate AllAccepted(rows: seq<ImportRow>) {
    forall i :: 0 <= i < |rows| ==> rows[i].status == Accepted
  }

  /** The row's status follows from its messages. */
  predicate StatusFollows(row: ImportRow) {
    row.status == Rejected || row.status == StatusForRow(Staged, row.errors)
  }

  /** The gate opens for a parsed job exactly when every row is accepted. */
  lemma {:induction false} GateIffAllAccepted(rows: seq<ImportRow>)
    requires forall i :: 0 <= i < |rows| ==> StatusFollows(rows[i])
    ensures GateOpens(WorkerCounts(rows)) <==> AllAccepted(rows)
  {
    if rows != [] {
      var first := rows[0];
      GateIffAllAccepted(rows[1..]);
      assert AllAccepted(rows) <==> first.status == Accepted && AllAccepted(rows[1..]) by {
        assert forall i :: 1 <= i < |rows| ==> rows[i] == rows[1..][i - 1];
        assert forall i :: 0 <= i < |rows| - 1 ==> rows[1..][i] == rows[i + 1];
      }
      if first.status == Staged {
        assert first.errors[0] in {UNKNOWN_ENTITY_ERROR, UNKNOWN_USER_ERROR};
      }
    }
  }

  /** The dry-run counters open the gate on the same condition, for rows of any origin. */
  lemma {:induction false} DryRunGateIffAllAccepted(rows: seq<ImportRow>)
    ensures GateOpens(DryRunCounts(rows)) <==> AllAccepted(rows)
  {
    if rows != [] {
      DryRunGateIffAllAccepted(rows[1..]);
      assert AllAccepted(rows) <==> rows[0].status == Accepted && AllAccepted(rows[1..]) by {
        assert forall i :: 1 <= i < |rows| ==> rows[i] == rows[1..][i - 1];
        assert forall i :: 0 <= i < |rows| - 1 ==> rows[1..][i] == rows[i + 1];
      }
    }
  }

  lemma {:induction false} ValidatedStatusFollows(ctx: Context, seen: Seen, inputs: seq<RowInput>, js: JsNumber)
    requires forall i :: 0 <= i < |inputs| ==> inputs[i].row.status == Staged
    ensures forall i :: 0 <= i < |inputs| ==> StatusFollows(ValidatedRows(ctx, seen, inputs, js)[i])
    decreases |inputs|
  {
    hide ValidatedRow, StatusFollows;
    if inputs != [] {
      RowStatusFollows(ctx, seen, inputs[0], js);
      ValidatedStatusFollows(ctx, ValidatedRow(ctx, seen, inputs[0], js).1, inputs[1..], js);
    }
  }

  lemma RowStatusFollows(ctx: Context, seen: Seen, input: RowInput, js: JsNumber)
    requires input.row.status == Staged
    ensures StatusFollows(ValidatedRow(ctx, seen, input, js).0)
  {
    hide RowErrors, RowPayload, WithCompletionDate, SeenAfter;
  }

  /** End to end: for a CSV tender file the commit gate opens exactly when all
      rows were accepted, and then no row fails the typed check. */
  lemma {:induction false} OpenGateCommits(ctx: Context, seen: Seen, inputs: seq<RowInput>, js: JsNumber)
    requires forall i :: 0 <= i < |inputs| ==> inputs[i].row.status == Staged && TrimmedText(inputs[i].row.payload)
    ensures var rows := ValidatedRows(ctx, seen, inputs, js);
            && (GateOpens(WorkerCounts(rows)) <==> AllAccepted(rows))
            && (GateOpens(WorkerCounts(rows)) ==> forall i :: 0 <= i < |rows| ==> TypedErrorFree(rows[i].payload))
    decreases |inputs|
  {
    hide ValidatedRow, TrimmedText, TypedErrorFree, StatusFollows;
    var rows := ValidatedRows(ctx, seen, inputs, js);
    ValidatedStatusFollows(ctx, seen, inputs, js);
    GateIffAllAccepted(rows);
    if inputs != [] && AllAccepted(rows) {
      var (row, next) := ValidatedRow(ctx, seen, inputs[0], js);
      assert rows[0] == row && rows[1..] == ValidatedRows(ctx, next, inputs[1..], js);
      OpenGateCommits(ctx, next, inputs[1..], js);
      assert AllAccepted(rows[1..]);
      CsvRowCommits(ctx, seen, inputs[0], js);
    }
  }
}
