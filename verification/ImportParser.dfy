/** From a CSV file to import rows: each record's cells picked under the accepted
    column names, and what that means for the rows that reach the commit. */
module ImportParser {
  import opened Text
  import opened Csv
  import opened ImportCells
  import opened ImportRows
  import opened ImportBatch
  import opened CommitGate

  const MAX_ROWS := 10_000

  type Record = map<string, string>

  /** The accepted column names of a field, in order of preference. */
  function Aliases(f: Field): seq<string> {
    match f
    case ApprovedAmount => ["NFA Approved Amount (Rs.) [All Inclusive]", "approved_amount", "Approved Amount"]
    case BiddersParticipated => ["Bidder Participated Count", "bidders_participated"]
    case BidReceiptDate => ["Bid Receipt", "bid_receipt_date"]
    case CommercialEvaluationDate => ["Commercial Evaluation", "commercial_evaluation_date"]
    case CpcInvolved => ["CPC Involved?", "cpc_involved", "CPC Involved"]
    case EntityCode => ["entity_code", "Entity Code", "entity", "Entity"]
    case EstimateBenchmark => ["Estimate / Benchmark (Rs.) [All Inclusive]", "estimate_benchmark", "Estimate Benchmark"]
    case LoiIssued => ["LOI Awarded?", "loi_issued", "LOI Awarded"]
    case LoiIssuedDate => ["LOI Award Date", "loi_issued_date", "LOI Award Date"]
    case NfaApprovalDate => ["NFA Approval", "nfa_approval_date"]
    case NfaSubmissionDate => ["NFA Submission", "nfa_submission_date"]
    case NitApprovalDate => ["NIT Approval", "nit_approval_date"]
    case NitInitiationDate => ["NIT Initiation", "nit_initiation_date"]
    case NitPublishDate => ["NIT Publish", "nit_publish_date"]
    case PrDescription => ["pr_description", "PR Description", "description"]
    case Priority => ["Priority?", "priority", "Priority"]
    case PrId => ["PR/Scheme No", "pr_id", "PR ID", "PR"]
    case PrReceiptDate => ["PR/Scheme Receipt Date", "pr_receipt_date", "PR Receipt Date"]
    case PrSchemeNo => ["PR/Scheme No", "pr_scheme_no", "PR Scheme No"]
    case PrValue => ["PR Value / Approved Budget (Rs.) [All Inclusive]", "pr_value", "PR Value"]
    case QualifiedBidders => ["Qualified Bidders Count", "qualified_bidders"]
    case RcPoAwardDate => ["RC/PO Award Date", "rc_po_award_date"]
    case RcPoValidityDate => ["RC/PO Validity", "rc_po_validity", "rc_po_validity_date"]
    case TechnicalEvaluationDate => ["Technical Evaluation", "technical_evaluation_date"]
    case TenderDescription => ["Tender Name", "tender_description", "Tender Description"]
    case TenderName => ["Tender Name", "tender_name"]
    case TenderNo => ["Tender No.", "Tender No", "tender_no"]
    case _ => []
  }

  /** The first present, non-empty value among the keys. */
  method First(row: Record, keys: seq<string>) returns (c: Cell)
    ensures c == FirstPresent(row, keys)
    ensures PresentSays(row, keys, c)
  {
    PresentExact(row, keys);
    for i := 0 to |keys|
      invariant FirstPresent(row, keys) == FirstPresent(row, keys[i..])
    {
      assert keys[i..][0] == keys[i] && keys[i..][1..] == keys[i + 1..];
      if keys[i] in row && row[keys[i]] != "" { return Text(row[keys[i]]); }
    }
    c := Null;
  }

  /** Null when no key has a text in the row, and else the text of the first that has. */
  predicate PresentSays(row: Record, keys: seq<string>, c: Cell) {
    match c
    case Null => forall i :: 0 <= i < |keys| && keys[i] in row ==> row[keys[i]] == ""
    case Text(t) =>
      t != "" && exists i :: 0 <= i < |keys| && keys[i] in row && row[keys[i]] == t
                             && forall k :: 0 <= k < i && keys[k] in row ==> row[keys[k]] == ""
    case _ => false
  }

  lemma {:induction false} PresentExact(row: Record, keys: seq<string>)
    ensures PresentSays(row, keys, FirstPresent(row, keys))
  {
    if keys != [] {
      PresentExact(row, keys[1..]);
      assert forall i :: 1 <= i < |keys| ==> keys[i] == keys[1..][i - 1];
      if !(keys[0] in row && row[keys[0]] != "") {
        var c := FirstPresent(row, keys[1..]);
        if c.Text? {
          var i :| 0 <= i < |keys| - 1 && keys[1..][i] in row && row[keys[1..][i]] == c.text
                   && forall k :: 0 <= k < i && keys[1..][k] in row ==> row[keys[1..][k]] == "";
          assert keys[i + 1] in row;
          forall k | 0 <= k < i + 1 && keys[k] in row ensures row[keys[k]] == "" {
            if k > 0 { assert keys[k] == keys[1..][k - 1]; }
          }
        }
      }
    }
  }

  function FirstPresent(row: Record, keys: seq<string>): Cell {
    if keys == [] then Null
    else if keys[0] in row && row[keys[0]] != "" then Text(row[keys[0]])
    else FirstPresent(row, keys[1..])
  }

  /** The payload of one record: a field that no column gives is null. */
  ghost predicate PayloadOf(p: Payload, row: Record) {
    forall f :: Get(p, f) == FirstPresent(row, Aliases(f))
  }

  /** The payloads a file parses to, none when it has too many rows. */
  ghost predicate ParsesTo(source: string, payloads: seq<Payload>) {
    var records := ParseCsv(source);
    && |payloads| == |records| <= MAX_ROWS
    && forall i :: 0 <= i < |payloads| ==> PayloadOf(payloads[i], records[i])
  }

  // ----- parsed cells are trimmed -----

  predicate AllTrimmed(fields: seq<string>) {
    forall i :: 0 <= i < |fields| ==> Trim(fields[i]) == fields[i]
  }

  lemma {:induction false} ScanTrims(line: string, current: string, quoted: bool)
    ensures AllTrimmed(Scan(line, current, quoted))
    decreases |line|
  {
    hide Trim;
    TrimIdempotent(current);
    if line != [] {
      if line[0] == '"' && quoted && |line| >= 2 && line[1] == '"' {
        ScanTrims(line[2..], current + "\"", quoted);
      } else if line[0] == '"' {
        ScanTrims(line[1..], current, !quoted);
      } else if line[0] == ',' && !quoted {
        ScanTrims(line[1..], "", false);
      } else {
        ScanTrims(line[1..], current + [line[0]], quoted);
      }
    }
  }

  predicate TrimmedRecord(row: Record) {
    forall h :: h in row ==> Trim(row[h]) == row[h]
  }

  lemma {:induction false} EntriesTrimmed(headers: seq<string>, values: seq<string>)
    requires AllTrimmed(values)
    ensures TrimmedRecord(Entries(headers, values))
    decreases |headers|
  {
    hide Trim;
    EmptyTrims();
    if headers != [] { EntriesTrimmed(headers[1..], if values == [] then [] else values[1..]); }
  }

  lemma {:induction false} RecordsTrimmed(headers: seq<string>, lines: seq<string>)
    ensures forall i :: 0 <= i < |Records(headers, lines)| ==> TrimmedRecord(Records(headers, lines)[i])
    decreases |lines|
  {
    hide Trim, Scan, Entries, TrimmedRecord;
    if lines != [] {
      ScanTrims(lines[0], "", false);
      EntriesTrimmed(headers, Scan(lines[0], "", false));
      RecordsTrimmed(headers, lines[1..]);
    }
  }

  lemma {:induction false} FirstTrimmed(row: Record, keys: seq<string>)
    requires TrimmedRecord(row)
    ensures var c := FirstPresent(row, keys); c.Null? || (c.Text? && Trim(c.text) == c.text)
  {
    hide Trim;
    if keys != [] { FirstTrimmed(row, keys[1..]); }
  }

  /** Whatever the file holds, every cell that reaches validation is null or
      trimmed text. */
  lemma ParsedCellsTrimmed(source: string, payloads: seq<Payload>)
    requires ParsesTo(source, payloads)
    ensures forall i :: 0 <= i < |payloads| ==> TrimmedText(payloads[i])
  {
    hide Trim, Scan, Aliases, TrimmedRecord, FirstPresent, SplitLines, NonBlank;
    var lines := NonBlank(SplitLines(source, ""));
    if lines != [] { RecordsTrimmed(Trimmed(Scan(lines[0], "", false)), lines[1..]); }
    var records := ParseCsv(source);
    forall i, f | 0 <= i < |payloads|
      ensures Get(payloads[i], f).Null? || (Get(payloads[i], f).Text? && Trim(Get(payloads[i], f).text) == Get(payloads[i], f).text)
    {
      assert PayloadOf(payloads[i], records[i]);
      FirstTrimmed(records[i], Aliases(f));
    }
  }

  /** From the file to the database: for every CSV tender file the commit gate
      opens exactly when the worker accepted every row, and then no row fails the
      typed check of the commit. */
  lemma FileToCommit(ctx: Context, source: string, inputs: seq<RowInput>, js: JsNumber)
    requires ParsesTo(source, Payloads(inputs)) && forall i :: 0 <= i < |inputs| ==> inputs[i].row.status == Staged
    ensures var rows := ValidatedRows(ctx, Seen({}, {}, 0), inputs, js);
            && (GateOpens(WorkerCounts(rows)) <==> AllAccepted(rows))
            && (GateOpens(WorkerCounts(rows)) ==> forall i :: 0 <= i < |rows| ==> TypedErrorFree(rows[i].payload))
  {
    hide ValidatedRows, TrimmedText, GateOpens, TypedErrorFree;
    ParsedCellsTrimmed(source, Payloads(inputs));
    forall i | 0 <= i < |inputs| ensures TrimmedText(inputs[i].row.payload) {
      assert Payloads(inputs)[i] == inputs[i].row.payload;
    }
    OpenGateCommits(ctx, Seen({}, {}, 0), inputs, js);
  }

  function Payloads(inputs: seq<RowInput>): seq<Payload> {
    seq(|inputs|, i requires 0 <= i < |inputs| => inputs[i].row.payload)
  }
}
