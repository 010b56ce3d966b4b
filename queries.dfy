/** The query processor of src/queryProcessor.py: the stub that fills in
    the query, the print/run decision of process, and the display of a
    result set in tab-separated or fixed-width form.

    Output is the sequence of texts handed to print, one per call. */
module Queries {
  import opened Wrappers
  import opened Text
  import opened Errors
  import Classification

  /** The query type; only SELECT is ever set in this revision. */
  datatype QueryType = Select | OtherQuery

  /** The fixed query inflateQuery installs. */
  const StubQuery: string := "SELECT * from table1 LIMIT 4"

  /** What the database hands back for a query: the column headers, the
      driver's display size per column, and the rows, a value being None
      for SQL NULL. */
  datatype ResultSet = ResultSet(headers: seq<string>, displaySizes: seq<int>, rows: seq<seq<Option<string>>>)

  /** One display size per header and one value per column in every row. */
  predicate WellFormed(rs: ResultSet) {
    |rs.displaySizes| == |rs.headers| && forall i :: 0 <= i < |rs.rows| ==> |rs.rows[i]| == |rs.headers|
  }

  /** Python falsiness of a value: None or the empty string. */
  predicate Falsy(v: Option<string>) {
    v.None? || v.value == ""
  }

  /** `x or 'NULL'` */
  function NullShown(row: seq<Option<string>>): (r: seq<string>)
    ensures |r| == |row|
    ensures forall c :: 0 <= c < |row| ==> r[c] == if Falsy(row[c]) then "NULL" else row[c].value
  {
    seq(|row|, c requires 0 <= c < |row| => if Falsy(row[c]) then "NULL" else row[c].value)
  }

  /** `str(x)` as print shows it: None prints as "None". */
  function TabShown(row: seq<Option<string>>): (r: seq<string>)
    ensures |r| == |row|
    ensures forall c :: 0 <= c < |row| ==> r[c] == if row[c].None? then "None" else row[c].value
  {
    seq(|row|, c requires 0 <= c < |row| => if row[c].None? then "None" else row[c].value)
  }

  // ---------------------------------------------------------------------
  // Column widths

  function Max(a: int, b: int): int { if a >= b then a else b }

  /** max(display size, header length) */
  function InitialWidth(rs: ResultSet, c: nat): int
    requires WellFormed(rs) && c < |rs.headers|
  {
    Max(rs.displaySizes[c], |rs.headers[c]|)
  }

  /** `True in [not row[col] for row in rows]` */
  predicate ColumnHasFalsy(rs: ResultSet, c: nat)
    requires WellFormed(rs) && c < |rs.headers|
  {
    exists r :: 0 <= r < |rs.rows| && Falsy(rs.rows[r][c])
  }

  /** The width after the NULL widening. */
  function FinalWidth(rs: ResultSet, c: nat): int
    requires WellFormed(rs) && c < |rs.headers|
  {
    if InitialWidth(rs, c) < 4 && ColumnHasFalsy(rs, c) then 4 else InitialWidth(rs, c)
  }

  function FinalWidths(rs: ResultSet): (r: seq<int>)
    requires WellFormed(rs)
    ensures |r| == |rs.headers|
  {
    seq(|rs.headers|, c requires 0 <= c < |rs.headers| => FinalWidth(rs, c))
  }

  /** The width rules: a width is never below the display size or the
      header, a narrow column holding a falsy value becomes exactly 4 wide,
      and every other width stays as it was. */
  lemma WidthRules(rs: ResultSet, c: nat)
    requires WellFormed(rs) && c < |rs.headers|
    ensures FinalWidths(rs)[c] >= rs.displaySizes[c] && FinalWidths(rs)[c] >= |rs.headers[c]|
    ensures FinalWidths(rs)[c] >= InitialWidth(rs, c)
    ensures InitialWidth(rs, c) < 4 && ColumnHasFalsy(rs, c) ==> FinalWidths(rs)[c] == 4
    ensures !(InitialWidth(rs, c) < 4 && ColumnHasFalsy(rs, c)) ==> FinalWidths(rs)[c] == InitialWidth(rs, c)
  {
  }

  /** A falsy value, shown as NULL, always fits its column's final width. */
  lemma NullFits(rs: ResultSet, r: nat, c: nat)
    requires WellFormed(rs) && r < |rs.rows| && c < |rs.headers|
    requires Falsy(rs.rows[r][c])
    ensures |NullShown(rs.rows[r])[c]| <= FinalWidths(rs)[c]
  {
    assert ColumnHasFalsy(rs, c);
  }

  /** The loop over the columns that widens narrow columns holding a falsy value. */
  method ColumnWidths(rs: ResultSet) returns (widths: seq<int>)
    requires WellFormed(rs)
    ensures widths == FinalWidths(rs)
  {
    widths := seq(|rs.headers|, c requires 0 <= c < |rs.headers| => InitialWidth(rs, c));
    var col := 0;
    while col < |widths|
      invariant |widths| == |rs.headers| && 0 <= col <= |widths|
      invariant forall c :: 0 <= c < col ==> widths[c] == FinalWidth(rs, c)
      invariant forall c :: col <= c < |widths| ==> widths[c] == InitialWidth(rs, c)
    {
      if widths[col] < 4 {
        var columnHasNull := exists r :: 0 <= r < |rs.rows| && Falsy(rs.rows[r][col]);
        if columnHasNull {
          widths := widths[col := 4];
        }
      }
      col := col + 1;
    }
  }

  // ---------------------------------------------------------------------
  // Lines

  /** Each field left-justified to its column's width ("%-Ns"). */
  function Padded(widths: seq<int>, fields: seq<string>): (r: seq<string>)
    requires |fields| == |widths|
    ensures |r| == |fields|
    ensures forall c :: 0 <= c < |fields| ==> r[c] == LJust(fields[c], widths[c])
  {
    seq(|fields|, c requires 0 <= c < |fields| => LJust(fields[c], widths[c]))
  }

  /** `" ".join("%-Ns" for each width) % tuple(fields)` */
  function FormatLine(widths: seq<int>, fields: seq<string>): string
    requires |fields| == |widths|
  {
    Join(" ", Padded(widths, fields))
  }

  /** Where column k starts when every earlier field fits its width. */
  function ColumnStart(widths: seq<int>, k: nat): int
    requires k <= |widths|
  {
    if k == 0 then 0 else ColumnStart(widths, k - 1) + widths[k - 1] + 1
  }

  /** Each field appears whole in its line, followed by spaces up to its
      width: a longer value is never truncated. */
  lemma FieldInLine(widths: seq<int>, fields: seq<string>, k: nat)
    requires |fields| == |widths| && k < |fields|
    ensures var o := JoinOffset(" ", Padded(widths, fields), k);
            var line := FormatLine(widths, fields);
            && o + |LJust(fields[k], widths[k])| <= |line|
            && line[o..o + |fields[k]|] == fields[k]
            && forall i :: o + |fields[k]| <= i < o + widths[k] ==> line[i] == ' '
  {
    var padded := Padded(widths, fields);
    PaddedPartInJoin(" ", padded, k, fields[k], widths[k]);
  }

  /** Every field is at most as long as its column's width. */
  predicate FitsWidths(widths: seq<int>, fields: seq<string>)
    requires |fields| == |widths|
  {
    forall c :: 0 <= c < |fields| ==> |fields[c]| <= widths[c]
  }

  /** When every field fits its width, column k starts at the same place
      in every line: the sum of the earlier widths plus one space each. */
  lemma {:induction false} AlignedOffsets(widths: seq<int>, fields: seq<string>, k: nat)
    requires |fields| == |widths| && k <= |fields|
    requires FitsWidths(widths, fields)
    ensures JoinOffset(" ", Padded(widths, fields), k) == ColumnStart(widths, k)
  {
    if k > 0 {
      AlignedOffsets(widths, fields, k - 1);
    }
  }

  /** The header and the row lines that fixed-width mode prints, joined by newlines. */
  function RowLines(widths: seq<int>, rows: seq<seq<Option<string>>>): (r: seq<string>)
    requires forall i :: 0 <= i < |rows| ==> |rows[i]| == |widths|
    ensures |r| == |rows|
  {
    seq(|rows|, i requires 0 <= i < |rows| => FormatLine(widths, NullShown(rows[i])))
  }

  /** The result list: the header line, a "\n" entry, then one line per row in row order. */
  function DisplayLines(rs: ResultSet, widths: seq<int>): seq<string>
    requires WellFormed(rs) && |widths| == |rs.headers|
  {
    [FormatLine(widths, rs.headers), "\n"] + RowLines(widths, rs.rows)
  }

  /** When every field fits its width, field k appears whole at its column's start. */
  lemma AlignedField(widths: seq<int>, fields: seq<string>, k: nat)
    requires |fields| == |widths| && k < |fields|
    requires FitsWidths(widths, fields)
    ensures var line := FormatLine(widths, fields);
            var o := ColumnStart(widths, k);
            0 <= o && o + |fields[k]| <= |line| && line[o..o + |fields[k]|] == fields[k]
  {
    AlignedOffsets(widths, fields, k);
    FieldInLine(widths, fields, k);
  }

  /** Headers never exceed their final widths, so the header line is aligned. */
  lemma HeaderLineAligned(rs: ResultSet, widths: seq<int>, k: nat)
    requires WellFormed(rs) && k < |rs.headers| && widths == FinalWidths(rs)
    ensures var line := FormatLine(widths, rs.headers);
            var o := ColumnStart(widths, k);
            0 <= o && o + |rs.headers[k]| <= |line| && line[o..o + |rs.headers[k]|] == rs.headers[k]
  {
    HeadersFit(rs);
    AlignedField(widths, rs.headers, k);
  }

  /** Every header fits its column's final width. */
  lemma HeadersFit(rs: ResultSet)
    requires WellFormed(rs)
    ensures FitsWidths(FinalWidths(rs), rs.headers)
  {
    forall c | 0 <= c < |rs.headers|
      ensures |rs.headers[c]| <= FinalWidths(rs)[c]
    {
      WidthRules(rs, c);
    }
  }

  /** The display is the header line, a "\n" entry, then row r's line at position r + 2. */
  lemma DisplayLinesAt(rs: ResultSet, widths: seq<int>, r: nat)
    requires WellFormed(rs) && |widths| == |rs.headers| && r < |rs.rows|
    ensures |DisplayLines(rs, widths)| == |rs.rows| + 2
    ensures DisplayLines(rs, widths)[0] == FormatLine(widths, rs.headers)
    ensures DisplayLines(rs, widths)[1] == "\n"
    ensures DisplayLines(rs, widths)[r + 2] == FormatLine(widths, NullShown(rs.rows[r]))
  {
  }

  /** A row's value in column k appears whole in its line, at the column's
      start when every value of that row fits its width. */
  lemma RowLineShowsValues(widths: seq<int>, row: seq<Option<string>>, k: nat)
    requires |row| == |widths| && k < |row|
    ensures var shown := NullShown(row);
            var line := FormatLine(widths, shown);
            var o := JoinOffset(" ", Padded(widths, shown), k);
            && o + |shown[k]| <= |line| && line[o..o + |shown[k]|] == shown[k]
            && (FitsWidths(widths, shown) ==> o == ColumnStart(widths, k))
  {
    var shown := NullShown(row);
    FieldInLine(widths, shown, k);
    if FitsWidths(widths, shown) {
      AlignedOffsets(widths, shown, k);
    }
  }

  /** The loop that builds the result list with appends. */
  method BuildDisplayLines(rs: ResultSet, widths: seq<int>) returns (result: seq<string>)
    requires WellFormed(rs) && |widths| == |rs.headers|
    ensures result == DisplayLines(rs, widths)
  {
    result := [FormatLine(widths, rs.headers)];
    result := result + ["\n"];
    var i := 0;
    while i < |rs.rows|
      invariant 0 <= i <= |rs.rows|
      invariant result == [FormatLine(widths, rs.headers), "\n"] + RowLines(widths, rs.rows[..i])
    {
      assert RowLines(widths, rs.rows[..i + 1]) == RowLines(widths, rs.rows[..i]) + [FormatLine(widths, NullShown(rs.rows[i]))];
      result := result + [FormatLine(widths, NullShown(rs.rows[i]))];
      i := i + 1;
    }
    assert rs.rows[..i] == rs.rows;
  }

  // ---------------------------------------------------------------------
  // Tab mode

  /** The print calls for the rows in tab mode: each row's values joined by
      tabs, then a "\n" print. */
  function TabRows(rows: seq<seq<Option<string>>>): (r: seq<string>)
    ensures |r| == 2 * |rows|
    decreases |rows|
  {
    if |rows| == 0 then []
    else TabRows(rows[..|rows| - 1]) + [Join("\t", TabShown(rows[|rows| - 1])), "\n"]
  }

  function TabLines(rs: ResultSet): seq<string>
  {
    [Join("\t", rs.headers), "\n"] + TabRows(rs.rows)
  }

  /** Print call 2r + 2 of tab mode shows row r; every odd call prints "\n". */
  lemma {:induction false} TabRowsAt(rows: seq<seq<Option<string>>>, r: nat)
    requires r < |rows|
    ensures TabRows(rows)[2 * r] == Join("\t", TabShown(rows[r]))
    ensures TabRows(rows)[2 * r + 1] == "\n"
    decreases |rows|
  {
    if r < |rows| - 1 {
      TabRowsAt(rows[..|rows| - 1], r);
    }
  }

  /** A tab-mode line of n fields holds exactly n - 1 tabs when no value has one. */
  lemma {:induction false} TabCount(fields: seq<string>)
    requires |fields| > 0
    requires forall i :: 0 <= i < |fields| ==> '\t' !in fields[i]
    ensures Count(Join("\t", fields), '\t') == |fields| - 1
  {
    CountAbsent(fields[0], '\t');
    if |fields| > 1 {
      TabCount(fields[1..]);
      CountConcat(fields[0], "\t", '\t');
      CountConcat(fields[0] + "\t", Join("\t", fields[1..]), '\t');
    }
  }

  method PrintTabRows(rows: seq<seq<Option<string>>>) returns (printed: seq<string>)
    ensures printed == TabRows(rows)
  {
    printed := [];
    var i := 0;
    while i < |rows|
      invariant 0 <= i <= |rows|
      invariant printed == TabRows(rows[..i])
    {
      assert rows[..i + 1][..i] == rows[..i];
      printed := printed + [Join("\t", TabShown(rows[i]))];
      printed := printed + ["\n"];
      i := i + 1;
    }
    assert rows[..i] == rows;
  }

  // ---------------------------------------------------------------------
  // Displaying a result

  /** What runAndDisplayResult prints. */
  function Printed(queryType: QueryType, options: Classification.Options, rs: ResultSet): seq<string>
    requires WellFormed(rs)
  {
    if queryType != Select || |rs.rows| == 0 then []
    else if "tab" in options then TabLines(rs)
    else [Join("\n", DisplayLines(rs, FinalWidths(rs)))]
  }

  /** Only a SELECT with at least one row prints anything, and then exactly
      one line per row besides the header (a single joined text in
      fixed-width mode, two print calls per row in tab mode). */
  lemma PrintedShape(queryType: QueryType, options: Classification.Options, rs: ResultSet)
    requires WellFormed(rs)
    ensures Printed(queryType, options, rs) != [] <==> queryType == Select && |rs.rows| > 0
    ensures queryType == Select && |rs.rows| > 0 && "tab" in options
            ==> |Printed(queryType, options, rs)| == 2 * |rs.rows| + 2
    ensures queryType == Select && |rs.rows| > 0 && "tab" !in options
            ==> |Printed(queryType, options, rs)| == 1
  {
  }

  class QueryProcessor {
    var query: string
    var queryType: QueryType

    constructor ()
      ensures query == "" && queryType == Select
    {
      query := "";
      queryType := Select;
    }

    /** inflateQuery: always the same stub SELECT. */
    method InflateQuery()
      modifies this
      ensures query == StubQuery && queryType == Select
    {
      query := StubQuery;
      queryType := Select;
    }

    /** runAndDisplayResult, given the result set of the query. Returns None
        for a non-SELECT; otherwise SUCCESS, after recording the
        empty-result message when there are no rows. */
    method RunAndDisplayResult(em: ErrorManager, options: Classification.Options, rs: ResultSet)
      returns (r: Option<ReturnCode>, printed: seq<string>)
      requires WellFormed(rs)
      modifies em`errMsg
      ensures printed == Printed(queryType, options, rs)
      ensures r == if queryType == Select then Some(Success) else None
      ensures em.errMsg == if queryType == Select && |rs.rows| == 0 then Template(EmptyResultSet) else old(em.errMsg)
    {
      printed := [];
      if queryType != Select {
        return None, printed;
      }
      if |rs.rows| == 0 {
        var _, _ := em.SetError(EmptyResultSet, [], "");
        return Some(Success), printed;
      }
      if "tab" in options {
        printed := [Join("\t", rs.headers)];
        printed := printed + ["\n"];
        var rows := PrintTabRows(rs.rows);
        printed := printed + rows;
        return Some(Success), printed;
      }
      var columnWidths := ColumnWidths(rs);
      var result := BuildDisplayLines(rs, columnWidths);
      printed := [Join("\n", result)];
      return Some(Success), printed;
    }

    /** process: inflate the query, print it when option q is present, run
        and display it when option r is present. */
    method Process(em: ErrorManager, options: Classification.Options, rs: ResultSet) returns (printed: seq<string>)
      requires WellFormed(rs)
      modifies this, em`errMsg
      ensures query == StubQuery && queryType == Select
      ensures printed == (if "q" in options then [StubQuery] else [])
                         + (if "r" in options then Printed(Select, options, rs) else [])
      ensures em.errMsg == if "r" in options && |rs.rows| == 0 then Template(EmptyResultSet) else old(em.errMsg)
    {
      InflateQuery();
      printed := [];
      if "q" in options {
        printed := printed + [query];
      }
      if "r" in options {
        var _, output := RunAndDisplayResult(em, options, rs);
        printed := printed + output;
      }
    }
  }
}
