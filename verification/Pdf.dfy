/** The PDF writer: numbered objects, a cross-reference table of byte offsets and
    a trailer, and the report whose pages become objects of such a file. */
module Pdf {
  import opened Text

  // ----- UTF-8 -----

  type Byte = x: int | 0 <= x < 256

  function Utf8Char(c: char): (b: seq<Byte>)
    ensures 1 <= |b| <= 4
    ensures (c as int) < 128 ==> b == [c as int]
  {
    var n := c as int;
    if n < 0x80 then [n]
    else if n < 0x800 then [0xC0 + n / 64, 0x80 + n % 64]
    else if n < 0x1_0000 then [0xE0 + n / 4096, 0x80 + n / 64 % 64, 0x80 + n % 64]
    else [0xF0 + n / 262_144, 0x80 + n / 4096 % 64, 0x80 + n / 64 % 64, 0x80 + n % 64]
  }

  function Utf8(s: string): seq<Byte> {
    if s == [] then [] else Utf8Char(s[0]) + Utf8(s[1..])
  }

  lemma {:induction false} Utf8Concat(a: string, b: string)
    ensures Utf8(a + b) == Utf8(a) + Utf8(b)
  {
    hide Utf8Char;
    if a == [] {
      assert a + b == b;
    } else {
      assert (a + b)[0] == a[0] && (a + b)[1..] == a[1..] + b;
      Utf8Concat(a[1..], b);
    }
  }

  lemma {:induction false} Utf8Ascii(s: string)
    requires IsAscii(s)
    ensures |Utf8(s)| == |s| && forall i :: 0 <= i < |s| ==> Utf8(s)[i] == s[i] as int
  {
    hide Utf8Char;
    if s != [] { Utf8Ascii(s[1..]); }
  }

  // ----- the file -----

  const HEADER := "%PDF-1.4\n"
  const FREE_ENTRY := "0000000000 65535 f \n"
  const IN_USE := " 00000 n \n"

  function ObjectHead(k: nat): string {
    Decimal(k) + " 0 obj\n"
  }

  function ObjectText(k: nat, o: string): string {
    ObjectHead(k) + o + "\nendobj\n"
  }

  /** The header and the first k objects. */
  function Body(objects: seq<string>, k: nat): string
    requires k <= |objects|
  {
    if k == 0 then HEADER else Body(objects, k - 1) + ObjectText(k, objects[k - 1])
  }

  /** The byte offset of object k, counted from one. */
  function Offset(objects: seq<string>, k: nat): nat
    requires 1 <= k <= |objects|
  {
    |Utf8(Body(objects, k - 1))|
  }

  function Entry(offset: nat): string {
    Padded(offset, 10) + IN_USE
  }

  function Entries(objects: seq<string>, k: nat): string
    requires k <= |objects|
  {
    if k == 0 then "" else Entries(objects, k - 1) + Entry(Offset(objects, k))
  }

  function XrefHead(n: nat): string {
    "xref\n0 " + Decimal(n + 1) + "\n" + FREE_ENTRY
  }

  function Trailer(n: nat, start: nat): string {
    "trailer << /Size " + Decimal(n + 1) + " /Root 1 0 R >>\nstartxref\n" + Decimal(start) + "\n%%EOF\n"
  }

  function XrefStart(objects: seq<string>): nat {
    |Utf8(Body(objects, |objects|))|
  }

  function FileText(objects: seq<string>): string {
    Body(objects, |objects|) + XrefHead(|objects|) + Entries(objects, |objects|) + Trailer(|objects|, XrefStart(objects))
  }

  method BuildPdf(objects: seq<string>) returns (file: seq<Byte>)
    ensures file == Utf8(FileText(objects))
  {
    hide Utf8, Padded, XrefHead, Trailer, Entry, ObjectText, Decimal;
    var body := HEADER;
    var offsets: seq<nat> := [0];
    for index := 0 to |objects|
      invariant body == Body(objects, index) && |offsets| == index + 1
      invariant forall k :: 1 <= k <= index ==> offsets[k] == Offset(objects, k)
    {
      ObjectIs(index + 1, objects[index]);
      offsets := offsets + [|Utf8(body)|];
      body := body + (Decimal(index + 1) + " 0 obj\n" + objects[index] + "\nendobj\n");
    }
    hide Body, Offset;
    var xrefOffset := |Utf8(body)|;
    body := body + XrefHead(|objects|);
    ghost var head := body;
    for k := 1 to |offsets|
      invariant body == head + Entries(objects, k - 1)
    {
      ghost var entry := Entry(offsets[k]);
      EntryIs(offsets[k]);
      body := body + (Padded(offsets[k], 10) + IN_USE);
      assert body == head + (Entries(objects, k - 1) + entry);
    }
    body := body + Trailer(|objects|, xrefOffset);
    file := Utf8(body);
  }

  lemma ObjectIs(k: nat, o: string)
    ensures ObjectText(k, o) == Decimal(k) + " 0 obj\n" + o + "\nendobj\n"
  {
  }

  lemma EntryIs(offset: nat)
    ensures Entry(offset) == Padded(offset, 10) + IN_USE
  {
  }

  // ----- what a reader finds -----

  /** `part` stands in the file at byte position `at`. */
  predicate StandsAt(file: seq<Byte>, at: nat, part: seq<Byte>) {
    at + |part| <= |file| && file[at..at + |part|] == part
  }

  /** The ten-digit offset of a cross-reference entry. */
  function ReadOffset(file: seq<Byte>, at: nat): Option<nat> {
    if at + 10 > |file| then None
    else
      var digits := seq(10, i requires 0 <= i < 10 => file[at + i] as char);
      if AllDigits(digits) then Some(Value(digits)) else None
  }

  lemma InMiddle(a: string, b: string, c: string)
    ensures StandsAt(Utf8(a + b + c), |Utf8(a)|, Utf8(b))
  {
    hide Utf8;
    Utf8Concat(a + b, c);
    Utf8Concat(a, b);
    assert Utf8(a + b + c) == Utf8(a) + Utf8(b) + Utf8(c);
  }

  /** An entry takes 20 bytes exactly when its offset has at most ten digits. */
  lemma EntryBytes(offset: nat)
    ensures |Utf8(Entry(offset))| == 20 <==> offset < Pow10(10)
  {
    hide Utf8, Padded, Pow10;
    PaddedWidth(offset, 10);
    DigitsAscii(Padded(offset, 10));
    Utf8Ascii(Padded(offset, 10));
    Utf8Ascii(IN_USE);
    Utf8Concat(Padded(offset, 10), IN_USE);
  }

  lemma {:induction false} BodyGrows(objects: seq<string>, k: nat, n: nat) returns (rest: string)
    requires k <= n <= |objects|
    ensures Body(objects, n) == Body(objects, k) + rest
    ensures |Utf8(Body(objects, k))| <= |Utf8(Body(objects, n))|
    decreases n
  {
    hide ObjectText, Utf8;
    if k == n {
      rest := "";
    } else {
      var shorter := BodyGrows(objects, k, n - 1);
      rest := shorter + ObjectText(n, objects[n - 1]);
      Utf8Concat(Body(objects, n - 1), ObjectText(n, objects[n - 1]));
    }
  }

  lemma {:induction false} EntriesLength(objects: seq<string>, k: nat)
    requires k <= |objects| && XrefStart(objects) <= Pow10(10)
    ensures |Utf8(Entries(objects, k))| == 20 * k
  {
    hide Pow10, Entry, Utf8;
    if k == 0 {
      assert |Utf8("")| == 0 by { EmptyUtf8(); }
    } else {
      EntriesLength(objects, k - 1);
      Utf8Concat(Entries(objects, k - 1), Entry(Offset(objects, k)));
      OffsetBound(objects, k);
      EntryBytes(Offset(objects, k));
    }
  }

  lemma EmptyUtf8()
    ensures Utf8("") == []
  {
  }

  /** Every offset is smaller than the position of the table itself. */
  lemma OffsetBound(objects: seq<string>, k: nat)
    requires 1 <= k <= |objects|
    ensures Offset(objects, k) < XrefStart(objects)
  {
    hide ObjectText, Utf8;
    var rest := BodyGrows(objects, k, |objects|);
    Utf8Concat(Body(objects, k - 1), ObjectText(k, objects[k - 1]));
    ObjectNotEmpty(k, objects[k - 1]);
  }

  lemma ObjectNotEmpty(k: nat, o: string)
    ensures |Utf8(ObjectText(k, o))| > 0
  {
    hide Decimal;
    assert ObjectText(k, o) != [];
  }

  /** Each object stands, whole, at its offset. */
  lemma ObjectStands(objects: seq<string>, k: nat)
    requires 1 <= k <= |objects|
    ensures StandsAt(Utf8(FileText(objects)), Offset(objects, k), Utf8(ObjectText(k, objects[k - 1])))
  {
    hide ObjectText, Utf8, XrefHead, Entries, Trailer, StandsAt;
    var rest := BodyGrows(objects, k, |objects|);
    var before, o := Body(objects, k - 1), ObjectText(k, objects[k - 1]);
    var after := rest + XrefHead(|objects|) + Entries(objects, |objects|) + Trailer(|objects|, XrefStart(objects));
    assert FileText(objects) == before + o + after;
    InMiddle(before, o, after);
  }

  lemma {:induction false} EntriesSplit(objects: seq<string>, k: nat, n: nat) returns (rest: string)
    requires 1 <= k <= n <= |objects|
    ensures Entries(objects, n) == Entries(objects, k - 1) + Entry(Offset(objects, k)) + rest
    decreases n
  {
    hide Entry, Offset;
    if k == n {
      rest := "";
    } else {
      var shorter := EntriesSplit(objects, k, n - 1);
      rest := shorter + Entry(Offset(objects, n));
    }
  }

  /** Where the entry of object k stands. */
  function EntryAt(objects: seq<string>, k: nat): nat
    requires 1 <= k
  {
    XrefStart(objects) + |XrefHead(|objects|)| + 20 * (k - 1)
  }

  lemma EntryStands(objects: seq<string>, k: nat)
    requires 1 <= k <= |objects| && XrefStart(objects) <= Pow10(10)
    ensures StandsAt(Utf8(FileText(objects)), EntryAt(objects, k), Utf8(Entry(Offset(objects, k))))
  {
    hide Utf8, XrefHead, Trailer, StandsAt, Body, Entry, Pow10;
    var n := |objects|;
    var rest := EntriesSplit(objects, k, n);
    var body, head := Body(objects, n), XrefHead(n);
    var before := body + head + Entries(objects, k - 1);
    var after := rest + Trailer(n, XrefStart(objects));
    assert FileText(objects) == before + Entry(Offset(objects, k)) + after;
    InMiddle(before, Entry(Offset(objects, k)), after);
    Utf8Concat(body + head, Entries(objects, k - 1));
    Utf8Concat(body, head);
    XrefHeadAscii(n);
    Utf8Ascii(head);
    EntriesLength(objects, k - 1);
  }

  lemma XrefHeadAscii(n: nat)
    ensures IsAscii(XrefHead(n))
  {
    hide Decimal;
    DigitsAscii(Decimal(n + 1));
  }

  /** The first ten bytes of a standing entry read back as its offset. */
  lemma EntryReads(file: seq<Byte>, at: nat, offset: nat)
    requires StandsAt(file, at, Utf8(Entry(offset))) && offset < Pow10(10)
    ensures ReadOffset(file, at) == Some(offset)
  {
    hide Padded, Utf8, Pow10;
    PaddedWidth(offset, 10);
    var p := Padded(offset, 10);
    DigitsAscii(p);
    Utf8Ascii(p);
    Utf8Concat(p, IN_USE);
    EntryBytes(offset);
    var part := Utf8(Entry(offset));
    forall i | 0 <= i < 10 ensures file[at + i] as char == p[i] {
      assert file[at..at + |part|][i] == file[at + i];
    }
    assert seq(10, i requires 0 <= i < 10 => file[at + i] as char) == p;
  }

  /** Every cross-reference entry is 20 bytes and holds the byte offset at which
      its object begins, for files whose body is at most ten billion bytes. */
  lemma XrefExact(objects: seq<string>, k: nat)
    requires 1 <= k <= |objects| && XrefStart(objects) <= Pow10(10)
    ensures var file := Utf8(FileText(objects));
            && |Utf8(Entry(Offset(objects, k)))| == 20
            && ReadOffset(file, EntryAt(objects, k)) == Some(Offset(objects, k))
            && StandsAt(file, Offset(objects, k), Utf8(ObjectText(k, objects[k - 1])))
  {
    hide Utf8, FileText, Entry, ObjectText, StandsAt, ReadOffset, Pow10, XrefStart, EntryAt;
    OffsetBound(objects, k);
    EntryBytes(Offset(objects, k));
    EntryStands(objects, k);
    EntryReads(Utf8(FileText(objects)), EntryAt(objects, k), Offset(objects, k));
    ObjectStands(objects, k);
  }

  /** The number after `startxref` is the byte offset of the table, and the table
      is followed by exactly its entries and the trailer. */
  lemma StartXrefExact(objects: seq<string>)
    ensures var n := |objects|; var file := Utf8(FileText(objects));
            && StandsAt(file, XrefStart(objects), Utf8(XrefHead(n)))
            && StandsAt(file, XrefStart(objects), Utf8("xref"))
            && (XrefStart(objects) <= Pow10(10) ==>
                  var end := EntryAt(objects, n + 1);
                  StandsAt(file, end, Utf8(Trailer(n, XrefStart(objects)))) && |file| == end + |Utf8(Trailer(n, XrefStart(objects)))|)
  {
    HeadStands(objects);
    if XrefStart(objects) <= Pow10(10) { TrailerStands(objects); }
  }

  lemma HeadStands(objects: seq<string>)
    ensures var file := Utf8(FileText(objects));
            StandsAt(file, XrefStart(objects), Utf8(XrefHead(|objects|))) && StandsAt(file, XrefStart(objects), Utf8("xref"))
  {
    hide Utf8, Entries, Trailer, Body, StandsAt;
    var n := |objects|;
    var body, head, tail := Body(objects, n), XrefHead(n), Entries(objects, n) + Trailer(n, XrefStart(objects));
    assert FileText(objects) == body + head + tail;
    InMiddle(body, head, tail);
    var headRest := "\n0 " + Decimal(n + 1) + "\n" + FREE_ENTRY;
    assert head == "xref" + headRest;
    assert FileText(objects) == body + "xref" + (headRest + tail);
    InMiddle(body, "xref", headRest + tail);
  }

  lemma TrailerStands(objects: seq<string>)
    requires XrefStart(objects) <= Pow10(10)
    ensures var n := |objects|; var file := Utf8(FileText(objects));
            var end, trailer := EntryAt(objects, n + 1), Utf8(Trailer(n, XrefStart(objects)));
            StandsAt(file, end, trailer) && |file| == end + |trailer|
  {
    hide Utf8, Entries, Trailer, Body, Pow10, XrefHead;
    var n := |objects|;
    var body, head, entries, trailer := Body(objects, n), XrefHead(n), Entries(objects, n), Trailer(n, XrefStart(objects));
    assert FileText(objects) == body + head + entries + trailer;
    EntriesLength(objects, n);
    Utf8Concat(body + head, entries);
    Utf8Concat(body, head);
    XrefHeadAscii(n);
    Utf8Ascii(head);
    Utf8Concat(body + head + entries, trailer);
  }

  // ----- the report -----

  const CATALOG := "<< /Type /Catalog /Pages 2 0 R >>"
  const FONT := "<< /Type /Font /Subtype /Type1 /BaseFont /Helvetica >>"
  const BOLD_FONT := "<< /Type /Font /Subtype /Type1 /BaseFont /Helvetica-Bold >>"
  const PAGE_START :=
    "<< /Type /Page /Parent 2 0 R /MediaBox [0 0 612 792] /Resources << /Font << /F1 3 0 R /F2 4 0 R >> >> /Contents "
  const FOOTER_LINE := "q 0.859 0.894 0.937 RG 0.7 w 36 40 m 576 40 l S Q"
  const FOOTER_TEXT := "BT /F1 8 Tf 0.384 0.443 0.541 rg 36 24 Td (Confidential - ProcureDesk generated report) Tj ET"
  const PAGE_TEXT := "BT /F1 8 Tf 0.384 0.443 0.541 rg 521 24 Td ("

  type Page = seq<string>

  function FooterCommands(number: nat, count: nat): seq<string> {
    [FOOTER_LINE, FOOTER_TEXT, PAGE_TEXT + "Page " + Decimal(number) + " of " + Decimal(count) + ") Tj ET"]
  }

  function WithFooters(pages: seq<Page>): (r: seq<Page>)
    ensures |r| == |pages|
  {
    seq(|pages|, i requires 0 <= i < |pages| => pages[i] + FooterCommands(i + 1, |pages|))
  }

  /** Each page keeps its commands and gets three more, the last of them the text
      with its own number and the number of pages. */
  predicate FootersSay(before: seq<Page>, after: seq<Page>) {
    && |after| == |before|
    && forall i :: 0 <= i < |before| ==>
         && |after[i]| == |before[i]| + 3 && after[i][..|before[i]|] == before[i]
         && after[i][|before[i]| + 2] == PAGE_TEXT + "Page " + Decimal(i + 1) + " of " + Decimal(|before|) + ") Tj ET"
  }

  lemma FootersNumbered(pages: seq<Page>)
    ensures FootersSay(pages, WithFooters(pages))
  {
    hide Decimal;
    forall i | 0 <= i < |pages| ensures WithFooters(pages)[i] == pages[i] + FooterCommands(i + 1, |pages|) {}
  }

  function Reference(id: nat): string {
    Decimal(id) + " 0 R"
  }

  function PageObject(content: nat): string {
    PAGE_START + Reference(content) + " >>"
  }

  function StreamHead(stream: string): string {
    "<< /Length " + Decimal(|Utf8(stream)|) + " >>\nstream\n"
  }

  function StreamObject(stream: string): string {
    StreamHead(stream) + stream + "\nendstream"
  }

  /** Object ids: four fixed ones, then a page and its content, page by page. */
  function PageId(i: nat): nat {
    5 + 2 * i
  }

  function PageObjects(pages: seq<Page>, k: nat): (r: seq<string>)
    requires k <= |pages|
    ensures |r| == 2 * k
  {
    if k == 0 then []
    else PageObjects(pages, k - 1) + [PageObject(PageId(k - 1) + 1), StreamObject(Join(pages[k - 1], "\n"))]
  }

  function Kids(n: nat): seq<string> {
    seq(n, i requires 0 <= i < n => Reference(PageId(i)))
  }

  function PagesObject(n: nat): string {
    "<< /Type /Pages /Kids [" + Join(Kids(n), " ") + "] /Count " + Decimal(n) + " >>"
  }

  function Objects(pages: seq<Page>): seq<string> {
    [CATALOG, PagesObject(|pages|), FONT, BOLD_FONT] + PageObjects(pages, |pages|)
  }

  /** All drawing commands of the pages, in order. */
  function Drawn(pages: seq<Page>): seq<string> {
    if pages == [] then [] else Drawn(pages[..|pages| - 1]) + pages[|pages| - 1]
  }

  lemma DrawnOnLast(pages: seq<Page>, command: string)
    requires pages != []
    ensures var last := |pages| - 1;
            Drawn(pages[last := pages[last] + [command]]) == Drawn(pages) + [command]
  {
    var last := |pages| - 1;
    assert pages[last := pages[last] + [command]][..last] == pages[..last];
  }

  lemma DrawnNewPage(pages: seq<Page>)
    ensures Drawn(pages + [[]]) == Drawn(pages)
  {
    assert (pages + [[]])[..|pages|] == pages;
  }

  const PAGE_HEIGHT := 792
  const MARGIN := 36
  const FOOTER_ZONE := 54

  /** The report being drawn: commands go onto its last page, from the top down. */
  class Report {
    var pageCommands: seq<Page>
    var y: int

    constructor ()
      ensures pageCommands == [[]] && y == MARGIN
    {
      pageCommands := [];
      new;
      AddPage();
    }

    method AddPage()
      modifies this
      ensures pageCommands == old(pageCommands) + [[]] && y == MARGIN
    {
      pageCommands := pageCommands + [[]];
      y := MARGIN;
    }

    method Ensure(height: int)
      modifies this
      ensures pageCommands == (if old(y) + height <= PAGE_HEIGHT - FOOTER_ZONE then old(pageCommands) else old(pageCommands) + [[]])
      ensures y == if old(y) + height <= PAGE_HEIGHT - FOOTER_ZONE then old(y) else MARGIN
    {
      if y + height <= PAGE_HEIGHT - FOOTER_ZONE { return; }
      AddPage();
    }

    method Push(command: string)
      requires pageCommands != []
      modifies this`pageCommands
      ensures |pageCommands| == |old(pageCommands)|
      ensures Drawn(pageCommands) == Drawn(old(pageCommands)) + [command]
    {
      var last := |pageCommands| - 1;
      DrawnOnLast(pageCommands, command);
      pageCommands := pageCommands[last := pageCommands[last] + [command]];
    }

    /** One block, as rows and notes draw theirs: room is made for it, its commands
        are pushed, and the position moves on. A page break loses, repeats and
        reorders nothing, and a block that fits a page ends above the footer. */
    method DrawBlock(height: int, commands: seq<string>, advance: int) returns (top: int)
      requires pageCommands != []
      modifies this
      ensures Drawn(pageCommands) == Drawn(old(pageCommands)) + commands
      ensures |old(pageCommands)| <= |pageCommands| <= |old(pageCommands)| + 1
      ensures height <= PAGE_HEIGHT - FOOTER_ZONE - MARGIN ==> top + height <= PAGE_HEIGHT - FOOTER_ZONE
      ensures y == top + advance
    {
      DrawnNewPage(pageCommands);
      Ensure(height);
      top := y;
      ghost var before := pageCommands;
      for i := 0 to |commands|
        invariant |pageCommands| == |before| && y == top
        invariant Drawn(pageCommands) == Drawn(before) + commands[..i]
      {
        assert commands[..i + 1] == commands[..i] + [commands[i]];
        Push(commands[i]);
      }
      assert commands[..|commands|] == commands;
      y := y + advance;
    }

    method AddFooters()
      modifies this`pageCommands
      ensures pageCommands == WithFooters(old(pageCommands))
      ensures FootersSay(old(pageCommands), pageCommands)
    {
      hide FooterCommands, FootersSay;
      FootersNumbered(pageCommands);
      var pageCount := |pageCommands|;
      for index := 0 to |pageCommands|
        invariant |pageCommands| == pageCount == |old(pageCommands)|
        invariant forall i :: 0 <= i < index ==> pageCommands[i] == WithFooters(old(pageCommands))[i]
        invariant forall i :: index <= i < pageCount ==> pageCommands[i] == old(pageCommands)[i]
      {
        pageCommands := pageCommands[index := pageCommands[index] + FooterCommands(index + 1, pageCount)];
      }
    }

    method ToBuffer() returns (file: seq<Byte>)
      modifies this`pageCommands
      ensures pageCommands == WithFooters(old(pageCommands))
      ensures file == Utf8(FileText(Objects(pageCommands)))
    {
      hide PagesObject, Utf8, FileText, PageObject, StreamObject, Reference, Join, Decimal, FootersSay;
      AddFooters();
      var objects := [CATALOG, "", FONT, BOLD_FONT];
      var pageObjectIds: seq<nat> := [];
      for i := 0 to |pageCommands|
        invariant objects == [CATALOG, "", FONT, BOLD_FONT] + PageObjects(pageCommands, i)
        invariant |pageObjectIds| == i && forall k :: 0 <= k < i ==> pageObjectIds[k] == PageId(k)
      {
        var pageObjectId := |objects| + 1;
        var contentObjectId := pageObjectId + 1;
        pageObjectIds := pageObjectIds + [pageObjectId];
        objects := objects + [PageObject(contentObjectId)];
        objects := objects + [StreamObject(Join(pageCommands[i], "\n"))];
      }
      var n := |pageObjectIds|;
      var kids := seq(n, i requires 0 <= i < n => Reference(pageObjectIds[i]));
      objects := objects[1 := "<< /Type /Pages /Kids [" + Join(kids, " ") + "] /Count " + Decimal(n) + " >>"];
      assert kids == Kids(n);
      assert objects[1] == PagesObject(n) by { PagesIs(n); }
      assert objects == Objects(pageCommands);
      file := BuildPdf(objects);
    }
  }

  lemma PagesIs(n: nat)
    ensures PagesObject(n) == "<< /Type /Pages /Kids [" + Join(Kids(n), " ") + "] /Count " + Decimal(n) + " >>"
  {
  }

  lemma {:induction false} PageObjectsAt(pages: seq<Page>, k: nat, i: nat)
    requires i < k <= |pages|
    ensures PageObjects(pages, k)[2 * i] == PageObject(PageId(i) + 1)
    ensures PageObjects(pages, k)[2 * i + 1] == StreamObject(Join(pages[i], "\n"))
    decreases k
  {
    hide PageObject, StreamObject;
    if i < k - 1 { PageObjectsAt(pages, k - 1, i); }
  }

  /** Each entry of Kids names the object that is that page, and the page's
      Contents names the object that holds its stream. */
  lemma PagesResolve(pages: seq<Page>, i: nat)
    requires i < |pages|
    ensures var objects := Objects(pages); var id := PageId(i);
            && |objects| == 4 + 2 * |pages|
            && objects[0] == "<< /Type /Catalog /Pages 2 0 R >>"
            && objects[1] == "<< /Type /Pages /Kids [" + Join(Kids(|pages|), " ") + "] /Count " + Decimal(|pages|) + " >>"
            && Kids(|pages|)[i] == Reference(id)
            && objects[id - 1] == PAGE_START + Reference(id + 1) + " >>"
            && objects[id] == StreamObject(Join(pages[i], "\n"))
  {
    hide StreamObject, Reference, PagesObject, Join, Decimal, Kids;
    KidsAt(|pages|, i);
    PagesIs(|pages|);
    PageObjectsAt(pages, |pages|, i);
  }

  lemma KidsAt(n: nat, i: nat)
    requires i < n
    ensures |Kids(n)| == n && Kids(n)[i] == Reference(PageId(i))
  {
    hide Reference;
  }

  /** In the finished file, the offset recorded for a page's content object leads to
      a dictionary whose Length is the number of bytes between `stream` and
      `endstream`, and those bytes are the page's commands. */
  lemma StreamExact(pages: seq<Page>, i: nat)
    requires i < |pages| && XrefStart(Objects(pages)) <= Pow10(10)
    ensures var objects := Objects(pages); var id := PageId(i) + 1;
            var file := Utf8(FileText(objects)); var stream := Join(pages[i], "\n");
            var head := Utf8(ObjectHead(id) + StreamHead(stream));
            && id <= |objects|
            && ReadOffset(file, EntryAt(objects, id)) == Some(Offset(objects, id))
            && StandsAt(file, Offset(objects, id), head)
            && StandsAt(file, Offset(objects, id) + |head|, Utf8(stream))
            && StandsAt(file, Offset(objects, id) + |head| + |Utf8(stream)|, Utf8("\nendstream\nendobj\n"))
  {
    hide Utf8, FileText, Objects, Join, ObjectHead, StreamHead, Offset, XrefStart, EntryAt, ReadOffset, Pow10;
    PagesResolve(pages, i);
    var objects, id := Objects(pages), PageId(i) + 1;
    var stream := Join(pages[i], "\n");
    XrefExact(objects, id);
    var front, tail := ObjectHead(id) + StreamHead(stream), "\nendstream\nendobj\n";
    var text := ObjectText(id, objects[id - 1]);
    assert text == front + (stream + tail);
    Utf8Concat(front, stream + tail);
    Utf8Concat(stream, tail);
    PartsStand(Utf8(FileText(objects)), Offset(objects, id), Utf8(front), Utf8(stream), Utf8(tail));
  }

  lemma PartsStand(file: seq<Byte>, at: nat, a: seq<Byte>, b: seq<Byte>, c: seq<Byte>)
    requires StandsAt(file, at, a + (b + c))
    ensures StandsAt(file, at, a) && StandsAt(file, at + |a|, b) && StandsAt(file, at + |a| + |b|, c)
  {
    SplitStands(file, at, a, b + c);
    SplitStands(file, at + |a|, b, c);
  }

  lemma SplitStands(file: seq<Byte>, at: nat, a: seq<Byte>, b: seq<Byte>)
    requires StandsAt(file, at, a + b)
    ensures StandsAt(file, at, a) && StandsAt(file, at + |a|, b)
  {
    var whole := a + b;
    var part := file[at..at + |whole|];
    assert part == whole;
    SliceOfSlice(file, at, |whole|, 0, |a|);
    SliceOfSlice(file, at, |whole|, |a|, |whole|);
    assert whole[0..|a|] == a;
    assert whole[|a|..|whole|] == b;
  }

  lemma SliceOfSlice(file: seq<Byte>, at: nat, n: nat, i: nat, j: nat)
    requires at + n <= |file| && i <= j <= n
    ensures file[at..at + n][i..j] == file[at + i..at + j]
  {
    var part := file[at..at + n];
    assert |part| == n;
    assert |part[i..j]| == j - i;
    assert |file[at + i..at + j]| == j - i;
    forall k | 0 <= k < j - i ensures part[i..j][k] == file[at + i..at + j][k] {
      assert part[i..j][k] == part[i + k];
      assert part[i + k] == file[at + i + k];
    }
  }
}
