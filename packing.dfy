/** The production report screen (`PagesComponent`): packings filtered by text and by a
    creation-date range, paginated ten at a time, and exported as a semicolon-separated report
    whose cells are sanitised so that the rows can be split back into the same fields. */
module Packing {
  import opened Text
  import opened Delimited
  import opened ListView

  /** A packing as listed. The type is the name of the packaging type object, absent when the
      packing carries none; dates are timestamps. */
  datatype Packing = Packing(
    idpacking: Option<int>,
    name: string,
    quantity: int,
    packagingTypeName: Option<string>,
    creationDate: Option<int>)

  const ItemsPerPage: nat := 10

  // ---------------------------------------------------------------------------
  // Filtering

  /** The text criterion: the lower-cased name or packaging type name contains the term. */
  predicate MatchesText(p: Packing, searchText: string): (b: bool)
    ensures searchText == "" ==> b
  {
    ContainsEmpty(Lower(p.name));
    Contains(Lower(p.name), Lower(searchText))
    || (p.packagingTypeName.Some? && Contains(Lower(p.packagingTypeName.value), Lower(searchText)))
  }

  /** The date criteria: an unset bound accepts everything; a set bound rejects a packing
      without a creation date. */
  predicate MatchesDates(p: Packing, startDate: Option<int>, endDate: Option<int>): (b: bool)
    ensures startDate.None? && endDate.None? ==> b
    ensures b && (startDate.Some? || endDate.Some?) ==> p.creationDate.Some?
  {
    && (startDate.None? || (p.creationDate.Some? && p.creationDate.value >= startDate.value))
    && (endDate.None? || (p.creationDate.Some? && p.creationDate.value <= endDate.value))
  }

  predicate MatchesPacking(p: Packing, searchText: string, startDate: Option<int>, endDate: Option<int>) {
    MatchesText(p, searchText) && MatchesDates(p, startDate, endDate)
  }

  /** The list `filterPackings` computes. */
  function FilterPackingList(ps: seq<Packing>, searchText: string, startDate: Option<int>, endDate: Option<int>): (r: seq<Packing>)
    ensures |r| <= |ps|
    ensures forall p :: p in r ==> p in ps && MatchesPacking(p, searchText, startDate, endDate)
  {
    Filter(ps, (p: Packing) => MatchesPacking(p, searchText, startDate, endDate))
  }

  /** The filtered list holds exactly the matching packings, in their original order. */
  lemma FilterPackingListSpec(ps: seq<Packing>, searchText: string, startDate: Option<int>, endDate: Option<int>)
    ensures var r := FilterPackingList(ps, searchText, startDate, endDate);
      && (forall p :: p in r ==> p in ps && MatchesPacking(p, searchText, startDate, endDate))
      && (forall i :: 0 <= i < |ps| && MatchesPacking(ps[i], searchText, startDate, endDate) ==> ps[i] in r)
      && (var pos := Positions(MaskOf(ps, (p: Packing) => MatchesPacking(p, searchText, startDate, endDate)));
          |r| == |pos| && forall j :: 0 <= j < |pos| ==> r[j] == ps[pos[j]])
  {
    SelectIsOrderedSelection(ps, MaskOf(ps, (p: Packing) => MatchesPacking(p, searchText, startDate, endDate)));
  }

  /** With no text and no dates every packing is kept. */
  lemma EmptyCriteriaKeepAll(ps: seq<Packing>)
    ensures FilterPackingList(ps, "", None, None) == ps
  {
    forall p | p in ps ensures MatchesPacking(p, "", None, None) {
      ContainsEmpty(Lower(p.name));
    }
    FilterAll(ps, (p: Packing) => MatchesPacking(p, "", None, None));
  }

  /** Once either date bound is set, packings without a creation date disappear. */
  lemma DateBoundDropsUndated(ps: seq<Packing>, searchText: string, startDate: Option<int>, endDate: Option<int>)
    requires startDate.Some? || endDate.Some?
    ensures forall p :: p in FilterPackingList(ps, searchText, startDate, endDate) ==> p.creationDate.Some?
  {
  }

  // ---------------------------------------------------------------------------
  // Sanitising report cells

  /** `replace(/(\r\n|\n|\r)/gm, ' ')`: each CRLF pair, LF or CR becomes one space. */
  function CollapseLineBreaks(s: string): (r: string)
    ensures |r| <= |s|
    ensures '\n' !in r && '\r' !in r
  {
    if s == [] then []
    else if |s| >= 2 && s[0] == '\r' && s[1] == '\n' then [' '] + CollapseLineBreaks(s[2..])
    else if s[0] == '\n' || s[0] == '\r' then [' '] + CollapseLineBreaks(s[1..])
    else [s[0]] + CollapseLineBreaks(s[1..])
  }

  /** Text with no CRLF pair: each line feed and each lone carriage return becomes a space,
      and every other character stays in place. */
  lemma {:induction false} CollapseLineBreaksPointwise(s: string)
    requires forall i :: 0 <= i < |s| - 1 ==> !(s[i] == '\r' && s[i + 1] == '\n')
    ensures |CollapseLineBreaks(s)| == |s|
    ensures forall i :: 0 <= i < |s| ==>
      CollapseLineBreaks(s)[i] == if s[i] == '\n' || s[i] == '\r' then ' ' else s[i]
  {
    if s != [] {
      var t := s[1..];
      assert forall i :: 0 <= i < |t| ==> t[i] == s[i + 1];
      CollapseLineBreaksPointwise(t);
    }
  }

  /** A lone carriage return becomes one space: "a\rb" becomes "a b". */
  lemma LoneCrBecomesSpace()
    ensures CollapseLineBreaks("a\rb") == "a b"
  {
    CollapseLineBreaksPointwise("a\rb");
  }

  /** Collapsing brings in no character but ' ', and keeps a blank text blank and a non-blank
      one non-blank (line breaks and the space are all whitespace). */
  lemma {:induction false} CollapseLineBreaksKeeps(s: string)
    ensures forall c :: c in CollapseLineBreaks(s) ==> c in s || c == ' '
    ensures IsBlank(CollapseLineBreaks(s)) <==> IsBlank(s)
  {
    if s != [] {
      var r := CollapseLineBreaks(s);
      var k := if |s| >= 2 && s[0] == '\r' && s[1] == '\n' then 2 else 1;
      CollapseLineBreaksKeeps(s[k..]);
      assert r == [r[0]] + CollapseLineBreaks(s[k..]);
      assert s == s[..k] + s[k..];
      assert forall c :: c in s[k..] ==> c in s;
      assert IsBlank(r) <==> IsWhitespace(r[0]) && IsBlank(r[1..]);
      assert IsBlank(s) <==> IsBlank(s[..k]) && IsBlank(s[k..]);
    }
  }

  /** A CRLF pair becomes one space, whatever surrounds it. */
  lemma {:induction false} CrLfBecomesOneSpace(a: string, b: string)
    ensures CollapseLineBreaks(a + "\r\n" + b) == CollapseLineBreaks(a) + " " + CollapseLineBreaks(b)
  {
    var s := a + "\r\n" + b;
    if a == [] {
      assert s[0] == '\r' && s[1] == '\n' && s[2..] == b;
      assert CollapseLineBreaks(s) == [' '] + CollapseLineBreaks(b);
    } else {
      var k := if |a| >= 2 && a[0] == '\r' && a[1] == '\n' then 2 else 1;
      var head: char := if a[0] == '\n' || a[0] == '\r' then ' ' else a[0];
      assert s[..k] == a[..k];
      assert k == 1 ==> !(|s| >= 2 && s[0] == '\r' && s[1] == '\n') by {
        if k == 1 && |a| == 1 {
          assert s[1] == '\r';
        } else if k == 1 {
          assert s[1] == a[1];
        }
      }
      assert s[k..] == a[k..] + "\r\n" + b;
      assert CollapseLineBreaks(s) == [head] + CollapseLineBreaks(s[k..]);
      assert CollapseLineBreaks(a) == [head] + CollapseLineBreaks(a[k..]);
      CrLfBecomesOneSpace(a[k..], b);
      ConcatRegroup([head], CollapseLineBreaks(a[k..]), " ", CollapseLineBreaks(b));
    }
  }

  /** Regrouping a concatenation of four pieces. */
  lemma ConcatRegroup<T>(a: seq<T>, b: seq<T>, c: seq<T>, d: seq<T>)
    ensures a + (b + c + d) == (a + b) + c + d
  {
  }

  /** Text without line breaks is left as it is. */
  lemma {:induction false} CollapseLineBreaksNoOp(s: string)
    requires '\n' !in s && '\r' !in s
    ensures CollapseLineBreaks(s) == s
  {
    if s != [] {
      CollapseLineBreaksNoOp(s[1..]);
      assert [s[0]] + s[1..] == s;
    }
  }

  /** `replace(/;/g, ',')`. */
  function ReplaceSemicolons(s: string): (r: string)
    ensures |r| == |s| && ';' !in r
    ensures forall i :: 0 <= i < |s| ==> r[i] == if s[i] == ';' then ',' else s[i]
  {
    seq(|s|, i requires 0 <= i < |s| => if s[i] == ';' then ',' else s[i])
  }

  /** Replacing semicolons brings in no character other than ','. */
  lemma ReplaceSemicolonsKeepsAbsent(s: string, c: char)
    requires c !in s && c != ','
    ensures c !in ReplaceSemicolons(s)
  {
    var r := ReplaceSemicolons(s);
    forall i | 0 <= i < |r| ensures r[i] != c {
      assert s[i] in s;
    }
  }

  /** `sanitizeText`: "" stays ""; otherwise line breaks become spaces, semicolons commas, and
      surrounding whitespace goes. */
  function SanitizeText(text: string): (r: string)
    ensures ';' !in r && '\n' !in r && '\r' !in r
    ensures r == [] || (!IsWhitespace(r[0]) && !IsWhitespace(r[|r| - 1]))
  {
    if text == "" then ""
    else
      var collapsed := CollapseLineBreaks(text);
      ReplaceSemicolonsKeepsAbsent(collapsed, '\n');
      ReplaceSemicolonsKeepsAbsent(collapsed, '\r');
      Trim(ReplaceSemicolons(collapsed))
  }

  /** Replacing semicolons brings in no character other than ',' and keeps a blank text blank
      and a non-blank one non-blank. */
  lemma ReplaceSemicolonsKeeps(s: string)
    ensures forall c :: c in ReplaceSemicolons(s) ==> c in s || c == ','
    ensures IsBlank(ReplaceSemicolons(s)) <==> IsBlank(s)
  {
    var r := ReplaceSemicolons(s);
    forall c | c in r ensures c in s || c == ',' {
      var i :| 0 <= i < |r| && r[i] == c;
      assert s[i] in s;
    }
    if !IsBlank(s) {
      var i :| 0 <= i < |s| && !IsWhitespace(s[i]);
      assert !IsWhitespace(r[i]);
    }
  }

  /** What a sanitised cell is: empty exactly when the text is blank, and made of the text's own
      characters plus the spaces and commas that replace line breaks and semicolons. */
  lemma SanitizeTextMeaning(text: string)
    ensures SanitizeText(text) == [] <==> IsBlank(text)
    ensures forall c :: c in SanitizeText(text) ==> c in text || c == ' ' || c == ','
  {
    if text != "" {
      var collapsed := CollapseLineBreaks(text);
      CollapseLineBreaksKeeps(text);
      ReplaceSemicolonsKeeps(collapsed);
    }
  }

  /** A cell with no line break and no semicolon is only trimmed. */
  lemma PlainTextIsTrimmed(text: string)
    requires '\n' !in text && '\r' !in text && ';' !in text
    ensures SanitizeText(text) == Trim(text)
  {
    if text != "" {
      CollapseLineBreaksNoOp(text);
      assert ReplaceSemicolons(text) == text;
    }
  }

  /** Sanitising a sanitised cell changes nothing. */
  lemma SanitizeIdempotent(text: string)
    ensures SanitizeText(SanitizeText(text)) == SanitizeText(text)
  {
    var t := SanitizeText(text);
    if t != "" {
      CollapseLineBreaksNoOp(t);
      assert ReplaceSemicolons(t) == t;
      TrimNoOp(t);
    }
  }

  /** Sample: a semicolon and a line break inside a name. */
  lemma SanitizeSeparatorsExample()
    ensures SanitizeText("A;B\nC") == "A,B C"
  {
    assert CollapseLineBreaks("A;B\nC") == "A;B C";
    assert ReplaceSemicolons("A;B C") == "A,B C";
    TrimNoOp("A,B C");
  }

  /** Sample: a CRLF pair becomes a single space. */
  lemma SanitizeCrLfExample()
    ensures SanitizeText("A\r\nB") == "A B"
  {
    assert CollapseLineBreaks("A\r\nB") == "A B";
    assert ReplaceSemicolons("A B") == "A B";
    TrimNoOp("A B");
  }

  // ---------------------------------------------------------------------------
  // The report

  /** The byte order mark the report starts with. */
  const Bom: char := '\U{FEFF}'

  /** The header row; the last heading is "Fecha de Creación". */
  const Header: seq<string> := ["ID", "Nombre", "Cantidad", "Tipo de Empaque", "Fecha de Creaci\U{00F3}n"]

  /** `formatDate`: "Sin fecha" without a date, otherwise the locale's day format. */
  function FormatDate(date: Option<int>, formatDay: int -> string): (r: string)
    ensures date.None? ==> r == "Sin fecha"
    ensures SafeFormatter(formatDay) ==> CellSafe(r)
  {
    if date.None? then
      assert CellSafe("Sin fecha");
      "Sin fecha"
    else
      var day: int := date.value;
      assert SafeFormatter(formatDay) ==> ';' !in formatDay(day) && '\n' !in formatDay(day);
      formatDay(day)
  }

  /** The type cell before sanitising: the type name, or "Sin tipo" when there is none or it
      is empty. */
  function TypeLabel(t: Option<string>): (r: string)
    ensures r != ""
    ensures t.Some? && t.value != "" ==> r == t.value
  {
    if t.None? || t.value == "" then "Sin tipo" else t.value
  }

  /** An id cell: an absent id joins as the empty string. */
  function IdCell(id: Option<int>): (r: string)
    ensures r == "" <==> id.None?
  {
    if id.None? then "" else IntToString(id.value)
  }

  /** The five cells of a packing's row. */
  function RowCells(p: Packing, formatDay: int -> string): (r: seq<string>)
    ensures |r| == |Header|
  {
    [ IdCell(p.idpacking),
      SanitizeText(p.name),
      IntToString(p.quantity),
      SanitizeText(TypeLabel(p.packagingTypeName)),
      FormatDate(p.creationDate, formatDay) ]
  }

  /** A packing's line: its cells joined with ';'. */
  function RowLine(p: Packing, formatDay: int -> string): string {
    Join(RowCells(p, formatDay), ';')
  }

  /** The lines of the report: the header, then one line per packing. */
  function CsvLines(ps: seq<Packing>, formatDay: int -> string): (r: seq<string>)
    ensures |r| == |ps| + 1
  {
    [Join(Header, ';')] + seq(|ps|, i requires 0 <= i < |ps| => RowLine(ps[i], formatDay))
  }

  /** The text `descargarInforme` puts in the downloaded file. */
  function CsvDocument(ps: seq<Packing>, formatDay: int -> string): (r: string)
    ensures |r| >= 1 && r[0] == Bom
  {
    [Bom] + Join(CsvLines(ps, formatDay), '\n')
  }

  /** A cell that neither breaks its row nor its line. */
  predicate CellSafe(s: string) {
    ';' !in s && '\n' !in s
  }

  /** A day format whose every output is a safe cell, as "dd/mm/yyyy" is. */
  ghost predicate SafeFormatter(formatDay: int -> string) {
    forall d :: ';' !in formatDay(d) && '\n' !in formatDay(d)
  }

  lemma IntToStringSafe(n: int)
    ensures CellSafe(IntToString(n))
  {
  }

  lemma IdCellSafe(id: Option<int>)
    ensures CellSafe(IdCell(id))
  {
    if id.Some? {
      IntToStringSafe(id.value);
    }
  }

  /** Every cell of a row is safe, provided the day format never yields a separator. */
  lemma RowCellsSafe(p: Packing, formatDay: int -> string)
    requires SafeFormatter(formatDay)
    ensures forall k :: 0 <= k < |RowCells(p, formatDay)| ==> CellSafe(RowCells(p, formatDay)[k])
  {
    var cells := RowCells(p, formatDay);
    forall k | 0 <= k < |cells| ensures CellSafe(cells[k]) {
      if k == 0 {
        IdCellSafe(p.idpacking);
      } else if k == 2 {
        IntToStringSafe(p.quantity);
      }
    }
  }

  lemma HeaderCellsSafe()
    ensures forall k :: 0 <= k < |Header| ==> CellSafe(Header[k])
  {
    assert CellSafe(Header[0]) && CellSafe(Header[1]) && CellSafe(Header[2]);
    assert CellSafe(Header[3]) && CellSafe(Header[4]);
  }

  /** The header line has no line break and splits back into the headings. */
  lemma HeaderLineRoundTrip()
    ensures '\n' !in Join(Header, ';')
    ensures Split(Join(Header, ';'), ';') == Header
  {
    HeaderCellsSafe();
    JoinAvoids(Header, ';', '\n');
    SplitJoin(Header, ';');
  }

  /** A packing's line has no line break and splits back into its five cells. */
  lemma RowLineRoundTrip(p: Packing, formatDay: int -> string)
    requires SafeFormatter(formatDay)
    ensures '\n' !in RowLine(p, formatDay)
    ensures Split(RowLine(p, formatDay), ';') == RowCells(p, formatDay)
  {
    RowCellsSafe(p, formatDay);
    JoinAvoids(RowCells(p, formatDay), ';', '\n');
    SplitJoin(RowCells(p, formatDay), ';');
  }

  /** The report reads back: after the byte order mark, splitting on line breaks gives the header
      and one line per packing, and splitting each line on ';' gives exactly its cells. */
  lemma CsvParseBack(ps: seq<Packing>, formatDay: int -> string)
    requires SafeFormatter(formatDay)
    ensures var lines := Split(CsvDocument(ps, formatDay)[1..], '\n');
      && |lines| == |ps| + 1
      && Split(lines[0], ';') == Header
      && forall i :: 0 <= i < |ps| ==> Split(lines[i + 1], ';') == RowCells(ps[i], formatDay)
  {
    var lines := CsvLines(ps, formatDay);
    assert CsvDocument(ps, formatDay)[1..] == Join(lines, '\n');
    HeaderLineRoundTrip();
    forall i | 0 <= i < |ps|
      ensures '\n' !in lines[i + 1]
      ensures Split(lines[i + 1], ';') == RowCells(ps[i], formatDay)
    {
      RowLineRoundTrip(ps[i], formatDay);
    }
    assert forall k :: 0 <= k < |lines| ==> '\n' !in lines[k] by {
      forall k | 0 <= k < |lines| ensures '\n' !in lines[k] {
        if k > 0 {
          assert lines[(k - 1) + 1] == lines[k];
        }
      }
    }
    SplitJoin(lines, '\n');
  }

  // ---------------------------------------------------------------------------
  // The screen

  class PackingReport {
    var packings: seq<Packing>
    var filteredPackings: seq<Packing>
    var paginatedPackings: seq<Packing>
    var searchText: string
    var startDate: Option<int>
    var endDate: Option<int>
    var currentPage: int
    var totalPages: int

    /** The shown page is always the current slice of the filtered list, and the page count is
        that of the filtered list, except for the initial 1 before any data arrives. */
    ghost predicate Valid()
      reads this
    {
      && currentPage >= 1
      && paginatedPackings == Page(filteredPackings, currentPage, ItemsPerPage)
      && (totalPages == CeilDiv(|filteredPackings|, ItemsPerPage) || (filteredPackings == [] && totalPages == 1))
    }

    /** The current page is one that exists, or the first. */
    ghost predicate PageInBounds()
      reads this
    {
      currentPage == 1 || currentPage <= totalPages
    }

    constructor ()
      ensures Valid() && PageInBounds()
      ensures packings == [] && filteredPackings == [] && paginatedPackings == []
      ensures searchText == "" && startDate == None && endDate == None
      ensures currentPage == 1 && totalPages == 1
    {
      packings := [];
      filteredPackings := [];
      paginatedPackings := [];
      searchText := "";
      startDate := None;
      endDate := None;
      currentPage := 1;
      totalPages := 1;
    }

    /** `updatePaginatedPackings`. */
    method UpdatePaginatedPackings()
      requires currentPage >= 1
      modifies this`paginatedPackings
      ensures paginatedPackings == Page(filteredPackings, currentPage, ItemsPerPage)
    {
      var startIndex := (currentPage - 1) * ItemsPerPage;
      var endIndex := startIndex + ItemsPerPage;
      paginatedPackings := JsSlice(filteredPackings, startIndex, endIndex);
    }

    /** The load of `ngOnInit`: every packing is shown, unfiltered, at the current page. */
    method Init(data: seq<Packing>)
      requires Valid()
      modifies this`packings, this`filteredPackings, this`totalPages, this`paginatedPackings
      ensures Valid()
      ensures packings == data && filteredPackings == data
      ensures totalPages == CeilDiv(|data|, ItemsPerPage)
      ensures old(currentPage) == 1 ==> PageInBounds()
    {
      packings := data;
      filteredPackings := data;
      totalPages := CeilDiv(|filteredPackings|, ItemsPerPage);
      UpdatePaginatedPackings();
    }

    /** `filterPackings`: recomputes the filtered list and its page count and goes back to page 1. */
    method FilterPackings()
      requires Valid()
      modifies this`filteredPackings, this`totalPages, this`currentPage, this`paginatedPackings
      ensures Valid() && PageInBounds()
      ensures filteredPackings == FilterPackingList(packings, searchText, startDate, endDate)
      ensures totalPages == CeilDiv(|filteredPackings|, ItemsPerPage)
      ensures currentPage == 1
    {
      var filtered := FilterPackingList(packings, searchText, startDate, endDate);
      filteredPackings, totalPages, currentPage := filtered, CeilDiv(|filtered|, ItemsPerPage), 1;
      UpdatePaginatedPackings();
    }

    /** `nextPage`: moves forward only while a later page exists. */
    method NextPage()
      requires Valid() && PageInBounds()
      modifies this`currentPage, this`paginatedPackings
      ensures Valid() && PageInBounds()
      ensures currentPage == if old(currentPage) < totalPages then old(currentPage) + 1 else old(currentPage)
    {
      if currentPage < totalPages {
        currentPage := currentPage + 1;
        UpdatePaginatedPackings();
      }
    }

    /** `previousPage`: moves back only from a page after the first. */
    method PreviousPage()
      requires Valid() && PageInBounds()
      modifies this`currentPage, this`paginatedPackings
      ensures Valid() && PageInBounds()
      ensures currentPage == if old(currentPage) > 1 then old(currentPage) - 1 else old(currentPage)
    {
      if currentPage > 1 {
        currentPage := currentPage - 1;
        UpdatePaginatedPackings();
      }
    }

    /** The text of the report `descargarInforme` downloads: the filtered packings, all pages. */
    method DescargarInforme(formatDay: int -> string) returns (csv: string)
      ensures csv == CsvDocument(filteredPackings, formatDay)
    {
      csv := CsvDocument(filteredPackings, formatDay);
    }
  }

  /** While the list is not empty, the page on screen is never empty. */
  lemma ShownPageNonEmpty(r: PackingReport)
    requires r.Valid() && r.PageInBounds() && r.filteredPackings != []
    ensures r.paginatedPackings != []
    ensures |r.paginatedPackings| <= ItemsPerPage
  {
    PageInRange(r.filteredPackings, r.currentPage, ItemsPerPage);
  }

  /** Reading every page from 1 to the page count shows each filtered packing exactly once, in order. */
  lemma PagesCoverFilteredList(r: PackingReport)
    requires r.Valid()
    ensures PagesUpTo(r.filteredPackings, ItemsPerPage, r.totalPages) == r.filteredPackings
  {
    if r.filteredPackings == [] && r.totalPages == 1 {
      assert PagesUpTo(r.filteredPackings, ItemsPerPage, 1) == [] + Page(r.filteredPackings, 1, ItemsPerPage);
    } else {
      PagesReconstruct(r.filteredPackings, ItemsPerPage);
    }
  }
}
