/**
 * `Reader` (xlsx/reader.go): an opened workbook with the tables its row
 * readers share, and `Read`, which finds a sheet by name and makes one row
 * reader per data row.
 */
module SheetReading {
  import opened Wrappers
  import opened Convert
  import opened RowReading

  /** A sheet of the workbook: its name and its rows of cell texts, the header first. */
  datatype Sheet = Sheet(name: string, rows: seq<seq<string>>)

  /** The position of the first sheet called `name`, if any. */
  function FirstSheetNamed(sheets: seq<Sheet>, name: string): (r: Option<nat>)
    ensures r.Some? ==> r.value < |sheets| && sheets[r.value].name == name
    ensures r.Some? ==> forall j :: 0 <= j < r.value ==> sheets[j].name != name
    ensures r.None? <==> forall j :: 0 <= j < |sheets| ==> sheets[j].name != name
    decreases |sheets|
  {
    if sheets == [] then None
    else if sheets[0].name == name then Some(0)
    else match FirstSheetNamed(sheets[1..], name)
      case None => None
      case Some(j) => Some(j + 1)
  }

  /**
   * The data rows `Read` makes readers for: none unless the sheet exists and
   * has a header and at least one data row; else the sheet is its header
   * followed by exactly these rows.
   */
  function DataRows(sheets: seq<Sheet>, name: string): (rows: seq<seq<string>>)
    ensures rows == [] <==>
      FirstSheetNamed(sheets, name).None? || |sheets[FirstSheetNamed(sheets, name).value].rows| < 2
    ensures rows != [] ==> var s := sheets[FirstSheetNamed(sheets, name).value];
      s.rows == [s.rows[0]] + rows
  {
    match FirstSheetNamed(sheets, name)
    case None => []
    case Some(k) =>
      if |sheets[k].rows| < 2 then []
      else
        assert sheets[k].rows == [sheets[k].rows[0]] + sheets[k].rows[1..];
        sheets[k].rows[1..]
  }

  /** An opened workbook and the tables every row reader it makes shares. */
  class Reader {
    const sheets: seq<Sheet>
    var Pattern: map<string, Pattern>
    var Unmarshalers: map<string, Unmarshaler>
    var NameMapping: map<string, string>
    const parseFloat: string -> Option<bv64>

    /** `NewReader` once the file is open: its sheets, and no patterns, unmarshalers or renames yet. */
    constructor(sheets: seq<Sheet>, parseFloat: string -> Option<bv64>)
      ensures this.sheets == sheets && this.parseFloat == parseFloat
      ensures Pattern == map[] && Unmarshalers == map[] && NameMapping == map[]
    {
      this.sheets := sheets;
      this.parseFloat := parseFloat;
      Pattern := map[];
      Unmarshalers := map[];
      NameMapping := map[];
    }

    /** `r` reads `row` of sheet `name` under `header`, with this reader's tables, the split "," and id 0. */
    ghost predicate Made(r: RowReader, name: string, header: seq<string>, row: seq<string>)
      reads this, r
    {
      && r.nameMapping == NameMapping && r.unmarshalers == Unmarshalers && r.pattern == Pattern
      && r.parseFloat == parseFloat && r.Sheet == name && r.header == header && r.row == row
      && r.Split == "," && r.id == 0
    }

    /** `newRowReader`. */
    method NewRowReader(name: string, header: seq<string>, row: seq<string>, id: int) returns (r: RowReader)
      ensures fresh(r) && Made(r, name, header, row)
    {
      r := new RowReader(NameMapping, Unmarshalers, Pattern, parseFloat, name, header, row, id);
    }

    /**
     * `Read`: the first sheet called `sheetName`; nothing when there is none
     * or it has no data row; else one fresh row reader per data row, in row
     * order, all under the sheet's first row as header.
     */
    method Read(sheetName: string) returns (rows: seq<RowReader>)
      ensures |rows| == |DataRows(sheets, sheetName)|
      ensures rows != [] ==> forall i :: 0 <= i < |rows| ==>
        fresh(rows[i]) && Made(rows[i], sheetName, sheets[FirstSheetNamed(sheets, sheetName).value].rows[0], DataRows(sheets, sheetName)[i])
      ensures forall i, j :: 0 <= i < j < |rows| ==> rows[i] != rows[j]
    {
      var k := 0;
      var ok := false;
      while k < |sheets|
        invariant 0 <= k <= |sheets| && !ok
        invariant forall j :: 0 <= j < k ==> sheets[j].name != sheetName
      {
        if sheets[k].name == sheetName {
          ok := true;
          break;
        }
        k := k + 1;
      }
      if !ok {
        return [];
      }
      assert FirstSheetNamed(sheets, sheetName) == Some(k);
      var sheet := sheets[k];
      if |sheet.rows| < 2 {
        return [];
      }
      var header := sheet.rows[0];
      rows := [];
      var i := 0;
      while i < |sheet.rows| - 1
        invariant 0 <= i <= |sheet.rows| - 1 && |rows| == i
        invariant forall j :: 0 <= j < i ==> fresh(rows[j]) && Made(rows[j], sheetName, header, sheet.rows[j + 1])
        invariant forall a, b :: 0 <= a < b < i ==> rows[a] != rows[b]
      {
        var r := NewRowReader(sheetName, header, sheet.rows[i + 1], i);
        rows := rows + [r];
        i := i + 1;
      }
    }
  }

  /** A sheet with a header and no data row gives no readers; so does an unknown sheet name. */
  lemma NoDataRows(name: string, header: seq<string>)
    ensures DataRows([Sheet(name, [header])], name) == []
    ensures DataRows([Sheet(name, [header])], name + "x") == []
  {
    assert FirstSheetNamed([Sheet(name, [header])], name + "x") == None by {
      assert |name + "x"| != |name|;
    }
  }

  /** When two sheets share a name, the first one is read. */
  lemma FirstOfDuplicates(name: string, a: seq<seq<string>>, b: seq<seq<string>>)
    requires |a| >= 2
    ensures DataRows([Sheet(name, a), Sheet(name, b)], name) == a[1..]
  {
  }
}
