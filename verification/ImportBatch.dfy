/** The row loop of a tender import: identifiers threaded through the file's
    seen-sets, the checks each row passes, and the status it gets. */
module ImportBatch {
  import opened Text
  import opened DateOnly
  import opened ImportCells
  import opened ImportRows

  const UNKNOWN_ENTITY_ERROR := "Unknown entity code."
  const UNKNOWN_USER_ERROR := "Unknown owner user."

  datatype RowStatus = Accepted | Rejected | Staged

  datatype ImportRow = ImportRow(status: RowStatus, errors: seq<string>, payload: Payload)

  function StatusForRow(current: RowStatus, errors: seq<string>): RowStatus {
    if current == Rejected then Rejected
    else if errors == [] then Accepted
    else if forall i :: 0 <= i < |errors| ==> errors[i] in {UNKNOWN_ENTITY_ERROR, UNKNOWN_USER_ERROR} then Staged
    else Rejected
  }

  /** The platform's `String(number)`. */
  type Shown = real -> string

  /** The platform's `toLowerCase`: ASCII letters fold to ASCII letters, and only
      the empty text folds to nothing. */
  ghost predicate FoldsAscii(f: string -> string) {
    && (forall s :: IsAscii(s) ==> f(s) == Lower(s))
    && (forall s :: f(s) == "" ==> s == "")
  }

  type Folding = f: string -> string | FoldsAscii(f) witness Lower

  /** The trimmed text of an identifier cell. */
  function TextOf(show: Shown, c: Cell): string {
    match c
    case Null => ""
    case Text(t) => Trim(t)
    case Number(v) => Trim(show(v))
    case Bool(b) => if b then "true" else "false"
    case Dated(None) => ""
    case Dated(Some(day)) => FormatDay(day)
  }

  /** `r` is `s` without the white space at its ends. */
  ghost predicate TrimmedOf(s: string, r: string) {
    && (exists before, after :: s == before + r + after && forall c :: c in before || c in after ==> IsSpace(c))
    && (r != "" ==> !IsSpace(r[0]) && !IsSpace(r[|r| - 1]))
  }

  lemma TrimIsTrimmed(s: string)
    ensures TrimmedOf(s, Trim(s))
  {
    hide IsSpace, Trim;
    var before, after := TrimExact(s);
  }

  /** Every kind of cell has a text: text without the blanks around it, a number as
      it prints, an answer's name, a date's day; empty ones have none. */
  lemma TextOfExact(show: Shown, c: Cell)
    ensures match c
            case Null => TextOf(show, c) == ""
            case Text(t) => TrimmedOf(t, TextOf(show, c))
            case Number(v) => TrimmedOf(show(v), TextOf(show, c))
            case Bool(b) => TextOf(show, c) == (if b then "true" else "false")
            case Dated(d) => if d.None? then TextOf(show, c) == "" else TextOf(show, c) == FormatDay(d.value)
  {
    hide Trim, TrimmedOf, FormatDay;
    match c
    case Text(t) => TrimIsTrimmed(t);
    case Number(v) => TrimIsTrimmed(show(v));
    case _ =>
  }

  // ----- generated identifiers -----

  function IsAlnum(c: char): bool {
    'a' <= c <= 'z' || 'A' <= c <= 'Z' || '0' <= c <= '9'
  }

  /** Runs of other characters become one underscore. */
  function Collapse(s: string, inRun: bool): string {
    if s == [] then []
    else if IsAlnum(s[0]) then [s[0]] + Collapse(s[1..], false)
    else (if inRun then [] else "_") + Collapse(s[1..], true)
  }

  function StripStart(s: string): string {
    if s != [] && s[0] == '_' then StripStart(s[1..]) else s
  }

  function StripEnd(s: string): string {
    if s != [] && s[|s| - 1] == '_' then StripEnd(s[..|s| - 1]) else s
  }

  function Upper(s: string): string {
    if s == [] then [] else [if 'a' <= s[0] <= 'z' then (s[0] as int - 32) as char else s[0]] + Upper(s[1..])
  }

  function SanitizeIdentifierPart(value: string): string {
    Upper(StripEnd(StripStart(Collapse(Trim(value), false))))
  }

  lemma {:induction false} CollapseAscii(s: string, inRun: bool)
    ensures IsAscii(Collapse(s, inRun))
  {
    if s != [] { CollapseAscii(s[1..], !IsAlnum(s[0])); }
  }

  lemma {:induction false} StripAscii(s: string)
    requires IsAscii(s)
    ensures IsAscii(StripStart(s)) && IsAscii(StripEnd(s))
  {
    if s != [] {
      StripAscii(s[1..]);
      StripAscii(s[..|s| - 1]);
    }
  }

  lemma {:induction false} UpperAscii(s: string)
    requires IsAscii(s)
    ensures IsAscii(Upper(s))
  {
    if s != [] {
      assert IsAscii(s[1..]);
      UpperAscii(s[1..]);
    }
  }

  lemma SanitizedAscii(value: string)
    ensures IsAscii(SanitizeIdentifierPart(value))
  {
    hide Collapse, StripStart, StripEnd, Upper, Trim;
    var collapsed := Collapse(Trim(value), false);
    CollapseAscii(Trim(value), false);
    StripAscii(collapsed);
    StripAscii(StripStart(collapsed));
    UpperAscii(StripEnd(StripStart(collapsed)));
  }

  // ----- what sanitising leaves -----

  /** The letters and digits of a text, in order. */
  function Alnums(s: string): string {
    if s == [] then [] else (if IsAlnum(s[0]) then [s[0]] else []) + Alnums(s[1..])
  }

  lemma {:induction false} AlnumsConcat(a: string, b: string)
    ensures Alnums(a + b) == Alnums(a) + Alnums(b)
  {
    hide IsAlnum;
    if a == [] {
      assert a + b == b;
    } else {
      assert (a + b)[0] == a[0] && (a + b)[1..] == a[1..] + b;
      AlnumsConcat(a[1..], b);
      var head := if IsAlnum(a[0]) then [a[0]] else [];
      assert head + (Alnums(a[1..]) + Alnums(b)) == (head + Alnums(a[1..])) + Alnums(b);
    }
  }

  lemma {:induction false} NoAlnums(s: string)
    requires forall c :: c in s ==> !IsAlnum(c)
    ensures Alnums(s) == []
  {
    if s != [] { NoAlnums(s[1..]); }
  }

  lemma {:induction false} CollapseAlnums(s: string, inRun: bool)
    ensures Alnums(Collapse(s, inRun)) == Alnums(s)
  {
    if s != [] {
      CollapseAlnums(s[1..], !IsAlnum(s[0]));
      var rest := Collapse(s[1..], !IsAlnum(s[0]));
      var head := if IsAlnum(s[0]) then [s[0]] else if inRun then [] else "_";
      assert Collapse(s, inRun) == head + rest;
      AlnumsConcat(head, rest);
      assert head != [] ==> head[1..] == [];
    }
  }

  lemma {:induction false} StripAlnums(s: string)
    ensures Alnums(StripStart(s)) == Alnums(s) && Alnums(StripEnd(s)) == Alnums(s)
  {
    if s != [] {
      StripAlnums(s[1..]);
      var n := |s| - 1;
      StripAlnums(s[..n]);
      if s[n] == '_' {
        assert s == s[..n] + "_";
        AlnumsConcat(s[..n], "_");
        NoAlnums("_");
      }
    }
  }

  lemma {:induction false} UpperAlnums(s: string)
    ensures Alnums(Upper(s)) == Upper(Alnums(s))
  {
    if s != [] {
      UpperAlnums(s[1..]);
      assert Upper(s)[1..] == Upper(s[1..]);
      assert Upper(s) == [Upper(s)[0]] + Upper(s[1..]);
      assert IsAlnum(Upper(s)[0]) <==> IsAlnum(s[0]);
      if IsAlnum(s[0]) {
        assert Alnums(s) == [s[0]] + Alnums(s[1..]) && Alnums(s)[1..] == Alnums(s[1..]);
      } else {
        assert Alnums(s) == Alnums(s[1..]) && Alnums(Upper(s)) == Alnums(Upper(s[1..]));
      }
    }
  }

  lemma TrimAlnums(s: string)
    ensures Alnums(Trim(s)) == Alnums(s)
  {
    hide Trim, Alnums;
    var before, after := TrimExact(s);
    assert forall c :: c in before || c in after ==> !IsAlnum(c);
    NoAlnums(before);
    NoAlnums(after);
    AlnumsConcat(before + Trim(s), after);
    AlnumsConcat(before, Trim(s));
    assert [] + Alnums(Trim(s)) + [] == Alnums(Trim(s));
  }

  /** Letters, digits and single underscores. */
  predicate Words(s: string) {
    && (forall i :: 0 <= i < |s| ==> IsAlnum(s[i]) || s[i] == '_')
    && forall i :: 0 <= i < |s| - 1 ==> s[i] != '_' || s[i + 1] != '_'
  }

  lemma {:induction false} CollapseWords(s: string, inRun: bool)
    ensures Words(Collapse(s, inRun))
    ensures inRun && Collapse(s, inRun) != [] ==> Collapse(s, inRun)[0] != '_'
  {
    if s != [] {
      CollapseWords(s[1..], !IsAlnum(s[0]));
      var rest := Collapse(s[1..], !IsAlnum(s[0]));
      var head := if IsAlnum(s[0]) then [s[0]] else if inRun then [] else "_";
      var all := head + rest;
      assert all == Collapse(s, inRun);
      assert head == [] ==> all == rest;
      forall i | 0 <= i < |all| - 1 ensures all[i] != '_' || all[i + 1] != '_' {
        if head != [] && i > 0 { assert all[i] == rest[i - 1] && all[i + 1] == rest[i]; }
      }
    }
  }

  lemma {:induction false} StripWords(s: string)
    requires Words(s)
    ensures Words(StripStart(s)) && (StripStart(s) == [] || StripStart(s)[0] != '_')
    ensures Words(StripEnd(s)) && (StripEnd(s) == [] || StripEnd(s)[|StripEnd(s)| - 1] != '_')
    ensures |StripEnd(s)| <= |s|
    ensures s != [] && s[0] != '_' ==> StripEnd(s) != [] && StripEnd(s)[0] == s[0]
  {
    if s != [] {
      assert Words(s[1..]) && Words(s[..|s| - 1]);
      StripWords(s[1..]);
      StripWords(s[..|s| - 1]);
    }
  }

  lemma {:induction false} UpperWords(s: string)
    ensures |Upper(s)| == |s|
    ensures forall i :: 0 <= i < |s| ==> Upper(s)[i] == if 'a' <= s[i] <= 'z' then (s[i] as int - 32) as char else s[i]
  {
    if s != [] { UpperWords(s[1..]); }
  }

  /** A sanitised part consists of capital letters, digits and single underscores,
      none at its ends, and has exactly the letters and digits of the value. */
  lemma SanitizedExact(value: string)
    ensures var r := SanitizeIdentifierPart(value);
            && Words(r) && (forall c :: c in r ==> !('a' <= c <= 'z'))
            && (r != [] ==> r[0] != '_' && r[|r| - 1] != '_')
            && Alnums(r) == Upper(Alnums(value))
  {
    hide Collapse, StripStart, StripEnd, Upper, Trim, Alnums;
    var collapsed := Collapse(Trim(value), false);
    var started := StripStart(collapsed);
    var stripped := StripEnd(started);
    TrimAlnums(value);
    CollapseAlnums(Trim(value), false);
    CollapseWords(Trim(value), false);
    StripAlnums(collapsed);
    StripWords(collapsed);
    StripAlnums(started);
    StripWords(started);
    UpperAlnums(stripped);
    UpperWords(stripped);
  }

  /** The upload instant as digits. */
  type Stamp = s: string | AllDigits(s)

  function IdPrefix(show: Shown, p: Payload, timestamp: Stamp): (r: string)
    ensures IsAscii(r)
  {
    hide SanitizeIdentifierPart, TextOf, AllDigits;
    var code := SanitizeIdentifierPart(TextOf(show, Get(p, EntityCode)));
    SanitizedAscii(TextOf(show, Get(p, EntityCode)));
    DigitsAscii(timestamp);
    "RPSG_" + (if code == "" then "ENTITY" else code) + "_" + timestamp
  }

  function BulkId(prefix: string, sequence: nat): string {
    prefix + "_bulk_" + Decimal(sequence)
  }

  lemma {:induction false} LowerDigits(s: string)
    requires AllDigits(s)
    ensures Lower(s) == s
  {
    if s != [] { LowerDigits(s[1..]); }
  }

  lemma BulkIdFolds(fold: Folding, prefix: string, i: nat)
    requires IsAscii(prefix)
    ensures fold(BulkId(prefix, i)) == Lower(prefix + "_bulk_") + Decimal(i)
  {
    hide Decimal, Lower;
    var head := prefix + "_bulk_";
    DigitsAscii(Decimal(i));
    assert IsAscii(BulkId(prefix, i));
    LowerConcat(head, Decimal(i));
    LowerDigits(Decimal(i));
    assert BulkId(prefix, i) == head + Decimal(i);
  }

  /** Distinct sequence numbers give distinct identifiers, even case-folded. */
  lemma BulkIdInjective(fold: Folding, prefix: string, i: nat, j: nat)
    requires IsAscii(prefix) && fold(BulkId(prefix, i)) == fold(BulkId(prefix, j))
    ensures i == j
  {
    hide BulkId, Decimal, Lower;
    BulkIdFolds(fold, prefix, i);
    BulkIdFolds(fold, prefix, j);
    var head := Lower(prefix + "_bulk_");
    assert (head + Decimal(i))[|head|..] == Decimal(i);
    assert (head + Decimal(j))[|head|..] == Decimal(j);
    DecimalInjective(i, j);
  }

  lemma BulkIdsDiffer(fold: Folding, prefix: string, i: nat, j: nat)
    requires IsAscii(prefix) && i != j
    ensures fold(BulkId(prefix, i)) != fold(BulkId(prefix, j))
  {
    hide BulkId, IsAscii, FoldsAscii;
    if fold(BulkId(prefix, i)) == fold(BulkId(prefix, j)) { BulkIdInjective(fold, prefix, i, j); }
  }

  /** The candidates tried in turn from k on; the search ends because every
      failed candidate uses up a taken name. */
  function NextFree(fold: Folding, prefix: string, taken: set<string>, k: nat): nat
    requires IsAscii(prefix)
    decreases |taken|
  {
    var id := fold(BulkId(prefix, k));
    if id in taken then NextFree(fold, prefix, taken - {id}, k + 1) else k
  }

  /** What the search finds is the first sequence number from k on whose folded
      identifier is not taken. */
  lemma {:induction false} NextFreeIsFirst(fold: Folding, prefix: string, taken: set<string>, k: nat)
    requires IsAscii(prefix)
    ensures var n := NextFree(fold, prefix, taken, k);
            && n >= k && fold(BulkId(prefix, n)) !in taken
            && forall i :: k <= i < n ==> fold(BulkId(prefix, i)) in taken
    decreases |taken|
  {
    hide BulkId, FoldsAscii, IsAscii;
    var id := fold(BulkId(prefix, k));
    if id in taken {
      NextFreeIsFirst(fold, prefix, taken - {id}, k + 1);
      BulkIdsDiffer(fold, prefix, NextFree(fold, prefix, taken, k), k);
    }
  }

  // ----- one row -----

  datatype Seen = Seen(prIds: set<string>, tenderNos: set<string>, sequence: nat)

  datatype Context = Context(existingPrIds: set<string>, existingTenderNos: map<string, string>, timestamp: Stamp,
                             show: Shown, fold: Folding)

  function AssignId(ctx: Context, seen: Seen, p: Payload): (r: (Payload, nat)) {
    var current := TextOf(ctx.show, Get(p, PrId));
    if current != "" then
      (if TextOf(ctx.show, Get(p, PrSchemeNo)) == "" then p[PrSchemeNo := Text(current)] else p, seen.sequence)
    else
      var prefix := IdPrefix(ctx.show, p, ctx.timestamp);
      var n := NextFree(ctx.fold, prefix, ctx.existingPrIds + seen.prIds, seen.sequence + 1);
      (p[PrId := Text(BulkId(prefix, n))][PrSchemeNo := Text(BulkId(prefix, n))], n)
  }

  /** What assigning an identifier leaves: the row's own one stays and stands in for
      a missing scheme number; a row without one gets, in both fields, the generated
      identifier of the first number after the last whose folded form is free; no
      other field changes. */
  ghost predicate AssignedSays(ctx: Context, seen: Seen, p: Payload, q: Payload, sequence: nat) {
    var own := TextOf(ctx.show, Get(p, PrId));
    && (forall f :: f !in {PrId, PrSchemeNo} ==> Get(q, f) == Get(p, f))
    && (if own != "" then
          && sequence == seen.sequence && Get(q, PrId) == Get(p, PrId)
          && Get(q, PrSchemeNo) == (if TextOf(ctx.show, Get(p, PrSchemeNo)) == "" then Text(own) else Get(p, PrSchemeNo))
        else
          var prefix := IdPrefix(ctx.show, p, ctx.timestamp);
          && Get(q, PrId) == Get(q, PrSchemeNo) == Text(BulkId(prefix, sequence)) && sequence > seen.sequence
          && ctx.fold(BulkId(prefix, sequence)) !in ctx.existingPrIds + seen.prIds
          && forall i :: seen.sequence < i < sequence ==> ctx.fold(BulkId(prefix, i)) in ctx.existingPrIds + seen.prIds)
  }

  lemma AssignExact(ctx: Context, seen: Seen, p: Payload)
    ensures AssignedSays(ctx, seen, p, AssignId(ctx, seen, p).0, AssignId(ctx, seen, p).1)
  {
    hide TextOf, IdPrefix, BulkId, NextFree, FoldsAscii, IsAscii, AllDigits;
    if TextOf(ctx.show, Get(p, PrId)) == "" {
      NextFreeIsFirst(ctx.fold, IdPrefix(ctx.show, p, ctx.timestamp), ctx.existingPrIds + seen.prIds, seen.sequence + 1);
    }
  }

  function FoldedPrId(ctx: Context, p: Payload): string {
    ctx.fold(TextOf(ctx.show, Get(p, PrId)))
  }

  function FoldedTenderNo(ctx: Context, p: Payload): string {
    ctx.fold(TextOf(ctx.show, Get(p, TenderNo)))
  }

  datatype IdentifierProblem = PrIdMissing | PrIdRepeated | TenderNoRepeated | TenderNoTaken

  function Wording(p: IdentifierProblem): string {
    match p
    case PrIdMissing => "PR/Scheme No is required."
    case PrIdRepeated => "Duplicate PR/Scheme No exists within this import file."
    case TenderNoRepeated => "Duplicate Tender No. exists within this import file."
    case TenderNoTaken => "Tender No. already exists against another PR/Scheme No."
  }

  function PrIdErrors(ctx: Context, seen: Seen, p: Payload): seq<string> {
    var prId := FoldedPrId(ctx, p);
    (if HasValue(Get(p, PrId)) then [] else [Wording(PrIdMissing)])
    + (if prId != "" && prId in seen.prIds then [Wording(PrIdRepeated)] else [])
  }

  function TenderNoErrors(ctx: Context, seen: Seen, p: Payload): seq<string> {
    var tenderNo := FoldedTenderNo(ctx, p);
    (if tenderNo != "" && tenderNo in seen.tenderNos then [Wording(TenderNoRepeated)] else [])
    + (if tenderNo != "" && tenderNo in ctx.existingTenderNos && ctx.existingTenderNos[tenderNo] != ""
          && ctx.existingTenderNos[tenderNo] != FoldedPrId(ctx, p)
       then [Wording(TenderNoTaken)] else [])
  }

  function IdentifierErrors(ctx: Context, seen: Seen, p: Payload): seq<string> {
    PrIdErrors(ctx, seen, p) + TenderNoErrors(ctx, seen, p)
  }

  function SeenAfter(ctx: Context, seen: Seen, p: Payload): Seen {
    var prId, tenderNo := FoldedPrId(ctx, p), FoldedTenderNo(ctx, p);
    seen.(prIds := if prId != "" then seen.prIds + {prId} else seen.prIds,
          tenderNos := if tenderNo != "" then seen.tenderNos + {tenderNo} else seen.tenderNos)
  }

  predicate Falsy(c: Cell) {
    c.Null? || c == Text("") || c == Number(0.0) || c == Bool(false)
  }

  /** The completion date derived from the tender type's days, when the row has none. */
  function WithCompletionDate(p: Payload, completionDays: Option<int>): Payload {
    var receipt := ParseImportDate(Get(p, PrReceiptDate));
    if Falsy(Get(p, TentativeCompletionDate)) && completionDays.Some? && !Falsy(Get(p, PrReceiptDate)) && receipt.Some?
    then p[TentativeCompletionDate := Text(AddDays(receipt.value, completionDays.value))]
    else p
  }

  /** A missing completion date is the receipt date plus the tender type's days,
      when both are known; a date the row has stays. */
  lemma CompletionExact(p: Payload, completionDays: Option<int>)
    ensures var q := WithCompletionDate(p, completionDays); var own := Get(p, TentativeCompletionDate);
            && (forall f :: f != TentativeCompletionDate ==> Get(q, f) == Get(p, f))
            && match ParseImportDate(Get(p, PrReceiptDate))
               case Some(d) =>
                 if own in {Null, Text(""), Number(0.0), Bool(false)} && completionDays.Some? && IsDateOnly(d)
                    && Get(p, PrReceiptDate) != Number(0.0)
                 then Get(q, TentativeCompletionDate) == Text(FormatDay(DayNumber(d).value + completionDays.value))
                 else IsDateOnly(d) ==> Get(q, TentativeCompletionDate) == own
               case None => q == p
  {
    hide FormatDay, Trim, DayFirst;
    EmptyTrims();
    if Get(p, PrReceiptDate) == Text("") { NoDateInEmpty(); }
  }

  lemma NoDateInEmpty()
    ensures ParseImportDate(Text("")).None?
  {
  }

  // ----- database-safe types -----

  datatype Kind = DateKind | AmountKind | CountKind | BooleanKind

  datatype Check = Check(field: Field, kind: Kind)

  const CHECKS: seq<Check> := [
    Check(PrReceiptDate, DateKind), Check(TentativeCompletionDate, DateKind),
    Check(NitInitiationDate, DateKind), Check(NitApprovalDate, DateKind), Check(NitPublishDate, DateKind),
    Check(BidReceiptDate, DateKind), Check(CommercialEvaluationDate, DateKind),
    Check(TechnicalEvaluationDate, DateKind), Check(NfaSubmissionDate, DateKind),
    Check(NfaApprovalDate, DateKind), Check(LoiIssuedDate, DateKind), Check(RcPoAwardDate, DateKind),
    Check(RcPoValidityDate, DateKind), Check(PrValue, AmountKind), Check(EstimateBenchmark, AmountKind),
    Check(ApprovedAmount, AmountKind), Check(BiddersParticipated, CountKind),
    Check(QualifiedBidders, CountKind), Check(CpcInvolved, BooleanKind), Check(LoiIssued, BooleanKind),
    Check(PriorityCase, BooleanKind)]

  function Title(f: Field): string {
    match f
    case PrReceiptDate => "PR/Scheme Receipt Date"
    case TentativeCompletionDate => "Tentative Completion Date"
    case NitInitiationDate => "NIT Initiation"
    case NitApprovalDate => "NIT Approval"
    case NitPublishDate => "NIT Publish"
    case BidReceiptDate => "Bid Receipt"
    case CommercialEvaluationDate => "Commercial Evaluation"
    case TechnicalEvaluationDate => "Technical Evaluation"
    case NfaSubmissionDate => "NFA Submission"
    case NfaApprovalDate => "NFA Approval"
    case LoiIssuedDate => "LOI Award Date"
    case RcPoAwardDate => "RC/PO Award Date"
    case RcPoValidityDate => "RC/PO Validity"
    case PrValue => "PR Value / Approved Budget"
    case EstimateBenchmark => "Estimate / Benchmark"
    case ApprovedAmount => "NFA Approved Amount"
    case BiddersParticipated => "Bidder Participated Count"
    case QualifiedBidders => "Qualified Bidders Count"
    case CpcInvolved => "CPC Involved?"
    case LoiIssued => "LOI Awarded?"
    case PriorityCase => "Priority?"
    case _ => ""
  }

  function Suffix(kind: Kind): string {
    match kind
    case DateKind => " must be a valid date."
    case AmountKind => " must be a number."
    case CountKind => " must be a non-negative integer."
    case BooleanKind => " must be Yes or No."
  }

  /** The worker's test of one cell: present but of the wrong kind. */
  predicate WrongKind(c: Cell, kind: Kind, js: JsNumber) {
    HasValue(c) &&
    match kind
    case DateKind => ParseImportDate(c).None?
    case AmountKind => NumberValue(c, js).None?
    case CountKind =>
      var n := NumberValue(c, js);
      n.None? || n.value < 0.0 || n.value.Floor as real != n.value
    case BooleanKind => BooleanValue(c).None?
  }

  function RunChecks(errors: seq<string>, p: Payload, js: JsNumber, checks: seq<Check>): seq<string>
    decreases |checks|
  {
    if checks == [] then errors
    else
      var c := checks[0];
      var message := Title(c.field) + Suffix(c.kind);
      RunChecks(
        if WrongKind(Get(p, c.field), c.kind, js) && message !in errors then errors + [message] else errors,
        p, js, checks[1..])
  }

  method ValidateTenderCaseDbSafePayload(errors0: seq<string>, p: Payload, js: JsNumber, checks: seq<Check>)
    returns (errors: seq<string>)
    ensures errors == RunChecks(errors0, p, js, checks)
  {
    hide WrongKind, Title;
    errors := errors0;
    for i := 0 to |checks|
      invariant RunChecks(errors, p, js, checks[i..]) == RunChecks(errors0, p, js, checks)
    {
      assert checks[i..][0] == checks[i] && checks[i..][1..] == checks[i + 1..];
      var message := Title(checks[i].field) + Suffix(checks[i].kind);
      if WrongKind(Get(p, checks[i].field), checks[i].kind, js) {
        if message !in errors { errors := errors + [message]; }
      }
    }
  }

  /** No message is left exactly when there was none before and no check fails. */
  lemma {:induction false} RunChecksClean(errors: seq<string>, p: Payload, js: JsNumber, checks: seq<Check>)
    ensures RunChecks(errors, p, js, checks) == [] <==>
            errors == [] && forall i :: 0 <= i < |checks| ==> !WrongKind(Get(p, checks[i].field), checks[i].kind, js)
    decreases |checks|
  {
    hide WrongKind, Title;
    if checks != [] {
      var c := checks[0];
      var message := Title(c.field) + Suffix(c.kind);
      var next := if WrongKind(Get(p, c.field), c.kind, js) && message !in errors then errors + [message] else errors;
      RunChecksClean(next, p, js, checks[1..]);
      assert forall i :: 1 <= i < |checks| ==> checks[i] == checks[1..][i - 1];
      assert forall i :: 0 <= i < |checks| - 1 ==> checks[1..][i] == checks[i + 1];
    }
  }

  /** The messages: those there were, in front, and one for each check that fails. */
  lemma {:induction false} RunChecksExact(errors: seq<string>, p: Payload, js: JsNumber, checks: seq<Check>)
    ensures var all := RunChecks(errors, p, js, checks);
            && errors <= all
            && forall m :: m in all <==>
                 m in errors || exists i :: 0 <= i < |checks| && WrongKind(Get(p, checks[i].field), checks[i].kind, js)
                                            && m == Title(checks[i].field) + Suffix(checks[i].kind)
    decreases |checks|
  {
    hide WrongKind, Title, Suffix;
    if checks != [] {
      var c := checks[0];
      var message := Title(c.field) + Suffix(c.kind);
      var wrong := WrongKind(Get(p, c.field), c.kind, js);
      var next := if wrong && message !in errors then errors + [message] else errors;
      RunChecksExact(next, p, js, checks[1..]);
      assert forall m :: m in next <==> m in errors || (wrong && m == message);
      assert forall i :: 1 <= i < |checks| ==> checks[i] == checks[1..][i - 1];
      assert forall i :: 0 <= i < |checks| - 1 ==> checks[1..][i] == checks[i + 1];
    }
  }

  // ----- the row loop -----

  /** A parsed row with the messages of the lookups and validators that are not
      modelled, in the three places where they are pushed. */
  datatype RowInput = RowInput(row: ImportRow, early: seq<string>, middle: seq<string>, late: seq<string>,
                               completionDays: Option<int>)

  function RowPayload(ctx: Context, seen: Seen, input: RowInput, js: JsNumber): (Payload, nat) {
    AssignId(ctx, seen, Normalized(input.row.payload, js))
  }

  function RowErrors(ctx: Context, seen: Seen, input: RowInput, js: JsNumber): seq<string> {
    var (p, n) := RowPayload(ctx, seen, input, js);
    var q := WithCompletionDate(p, input.completionDays);
    RunChecks(
      input.row.errors + input.early + IdentifierErrors(ctx, seen.(sequence := n), p) + input.middle
      + ChainErrors(CHAIN, q, None) + EvaluationErrors(EVALUATIONS, q) + input.late,
      q, js, CHECKS)
  }

  /** The validated row and the seen-sets after it. */
  function ValidatedRow(ctx: Context, seen: Seen, input: RowInput, js: JsNumber): (ImportRow, Seen) {
    var (p, n) := RowPayload(ctx, seen, input, js);
    var errors := RowErrors(ctx, seen, input, js);
    (ImportRow(StatusForRow(input.row.status, errors), errors, WithCompletionDate(p, input.completionDays)),
     SeenAfter(ctx, seen.(sequence := n), p))
  }

  function ValidatedRows(ctx: Context, seen: Seen, inputs: seq<RowInput>, js: JsNumber): (rows: seq<ImportRow>)
    ensures |rows| == |inputs|
    decreases |inputs|
  {
    hide ValidatedRow;
    if inputs == [] then []
    else
      var (row, next) := ValidatedRow(ctx, seen, inputs[0], js);
      [row] + ValidatedRows(ctx, next, inputs[1..], js)
  }

  /** The mutable state of one import file's validation. */
  class Batch {
    const existingPrIds: set<string>
    const existingTenderNos: map<string, string>
    const timestamp: Stamp
    const show: Shown
    const fold: Folding
    var seenPrIds: set<string>
    var seenTenderNos: set<string>
    var sequence: nat

    function Ctx(): Context {
      Context(existingPrIds, existingTenderNos, timestamp, show, fold)
    }

    function State(): Seen reads this {
      Seen(seenPrIds, seenTenderNos, sequence)
    }

    constructor (existingPrIds: set<string>, existingTenderNos: map<string, string>, timestamp: Stamp, show: Shown,
                 fold: Folding)
      ensures Ctx() == Context(existingPrIds, existingTenderNos, timestamp, show, fold)
      ensures State() == Seen({}, {}, 0)
    {
      this.existingPrIds, this.existingTenderNos := existingPrIds, existingTenderNos;
      this.timestamp, this.show, this.fold := timestamp, show, fold;
      seenPrIds, seenTenderNos, sequence := {}, {}, 0;
    }

    method NextBulkUploadSequence() returns (n: nat)
      modifies this`sequence
      ensures n == sequence == old(sequence) + 1
    {
      sequence := sequence + 1;
      n := sequence;
    }

    /** The search loop: draws numbers until the folded identifier is free. */
    method FreeBulkId(prefix: string) returns (generated: string)
      requires IsAscii(prefix)
      modifies this`sequence
      ensures sequence == NextFree(fold, prefix, existingPrIds + seenPrIds, old(sequence) + 1)
      ensures generated == BulkId(prefix, sequence)
    {
      hide BulkId, NextFree, IsAscii, FoldsAscii;
      var next := NextBulkUploadSequence();
      generated := BulkId(prefix, next);
      ghost var free := NextFree(fold, prefix, existingPrIds + seenPrIds, next);
      NextFreeIsFirst(fold, prefix, existingPrIds + seenPrIds, next);
      while fold(generated) in existingPrIds || fold(generated) in seenPrIds
        invariant old(sequence) < next == sequence <= free
        invariant generated == BulkId(prefix, next)
        decreases free - next
      {
        next := NextBulkUploadSequence();
        generated := BulkId(prefix, next);
      }
    }

    method AssignTenderBulkPrId(payload: Payload) returns (p: Payload)
      modifies this`sequence
      ensures (p, sequence) == AssignId(Ctx(), old(State()), payload)
      ensures AssignedSays(Ctx(), old(State()), payload, p, sequence)
    {
      hide AssignedSays;
      AssignExact(Ctx(), State(), payload);
      hide TextOf, IdPrefix, BulkId, NextFree, FoldsAscii, IsAscii, AllDigits;
      p := payload;
      var current := TextOf(show, Get(payload, PrId));
      if current != "" {
        if TextOf(show, Get(payload, PrSchemeNo)) == "" { p := p[PrSchemeNo := Text(current)]; }
        return;
      }
      var generated := FreeBulkId(IdPrefix(show, payload, timestamp));
      p := p[PrId := Text(generated)];
      p := p[PrSchemeNo := Text(generated)];
    }

    method ValidateTenderIdentifiers(errors0: seq<string>, p: Payload) returns (errors: seq<string>)
      modifies this`seenPrIds, this`seenTenderNos
      ensures errors == errors0 + IdentifierErrors(Ctx(), old(State()), p)
      ensures State() == SeenAfter(Ctx(), old(State()), p)
      ensures seenPrIds == old(seenPrIds) + ({fold(TextOf(show, Get(p, PrId)))} - {""})
      ensures seenTenderNos == old(seenTenderNos) + ({fold(TextOf(show, Get(p, TenderNo)))} - {""})
      ensures sequence == old(sequence)
    {
      hide HasValue, TextOf, Wording;
      var prErrors := ValidatePrId(p);
      var tenderErrors := ValidateTenderNo(p, fold(TextOf(show, Get(p, PrId))));
      errors := errors0 + (prErrors + tenderErrors);
    }

    method ValidatePrId(p: Payload) returns (errors: seq<string>)
      modifies this`seenPrIds
      ensures errors == PrIdErrors(Ctx(), old(State()), p)
      ensures seenPrIds == SeenAfter(Ctx(), old(State()), p).prIds
    {
      hide HasValue, TextOf, Wording;
      errors := if HasValue(Get(p, PrId)) then [] else [Wording(PrIdMissing)];
      var prId := fold(TextOf(show, Get(p, PrId)));
      if prId != "" {
        if prId in seenPrIds { errors := errors + [Wording(PrIdRepeated)]; }
        seenPrIds := seenPrIds + {prId};
      }
    }

    method ValidateTenderNo(p: Payload, prId: string) returns (errors: seq<string>)
      requires prId == FoldedPrId(Ctx(), p)
      modifies this`seenTenderNos
      ensures errors == TenderNoErrors(Ctx(), old(State()), p)
      ensures seenTenderNos == SeenAfter(Ctx(), old(State()), p).tenderNos
    {
      hide TextOf, Wording;
      errors := [];
      var tenderNo := fold(TextOf(show, Get(p, TenderNo)));
      if tenderNo != "" {
        if tenderNo in seenTenderNos { errors := [Wording(TenderNoRepeated)]; }
        seenTenderNos := seenTenderNos + {tenderNo};
        if tenderNo in existingTenderNos && existingTenderNos[tenderNo] != "" && existingTenderNos[tenderNo] != prId {
          errors := errors + [Wording(TenderNoTaken)];
        }
      }
    }

    method ValidateImportRow(input: RowInput, js: JsNumber) returns (row: ImportRow)
      modifies this
      ensures (row, State()) == ValidatedRow(Ctx(), old(State()), input, js)
    {
      hide AssignId, IdentifierErrors, SeenAfter, WithCompletionDate, RunChecks, ChainErrors, EvaluationErrors, StatusForRow,
           Normalized;
      var payload := NormalizeValidatedPayload(input.row.payload, js);
      payload := AssignTenderBulkPrId(payload);
      var errors := ValidateTenderIdentifiers(input.row.errors + input.early, payload);
      errors := errors + input.middle;
      payload := WithCompletionDate(payload, input.completionDays);
      errors := ValidateChronology(errors, payload);
      errors := ValidateTenderCaseDbSafePayload(errors + input.late, payload, js, CHECKS);
      row := ImportRow(StatusForRow(input.row.status, errors), errors, payload);
    }

    method ValidateRows(inputs: seq<RowInput>, js: JsNumber) returns (rows: seq<ImportRow>)
      modifies this
      ensures rows == ValidatedRows(Ctx(), old(State()), inputs, js)
    {
      hide ValidatedRow;
      rows := [];
      for i := 0 to |inputs|
        invariant rows + ValidatedRows(Ctx(), State(), inputs[i..], js) == ValidatedRows(Ctx(), old(State()), inputs, js)
      {
        assert inputs[i..][0] == inputs[i] && inputs[i..][1..] == inputs[i + 1..];
        var row := ValidateImportRow(inputs[i], js);
        rows := rows + [row];
      }
    }
  }
}
