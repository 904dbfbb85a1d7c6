/**
 * The Excel generator: `{{field}}` substitution in every non-empty string
 * cell of every worksheet, and the template's field list.
 */
module Excel {
  import opened Strings
  import opened Values
  import opened FieldNames
  import opened Substitution

  /** A worksheet: its rows of cell values, as `iter_rows` yields them. */
  type Sheet = seq<seq<Value>>

  /** An opened workbook, whose cell values the generator reassigns. */
  class Workbook {
    var sheets: seq<Sheet>

    constructor (sheets: seq<Sheet>)
      ensures this.sheets == sheets
    {
      this.sheets := sheets;
    }
  }

  /** A cell after `generate`: a non-empty string has every field substituted; any other value is left alone. */
  function CellFilled(v: Value, fields: Fields): Value
  {
    if Truthy(v) && v.VStr? then VStr(Substituted(v.s, fields, |fields|)) else v
  }

  /**
   * Numbers, booleans and empty cells keep their value; every string cell,
   * the empty one included, holds its text with the fields substituted.
   */
  lemma CellFilledSpec(v: Value, fields: Fields)
    ensures !v.VStr? ==> CellFilled(v, fields) == v
    ensures v.VStr? ==> CellFilled(v, fields) == VStr(Substituted(v.s, fields, |fields|))
  {
    if v.VStr? && v.s == [] {
      forall j | 0 <= j < |fields|
        ensures !Contains(v.s, Token(fields[j].name))
      {
        ContainsLength(v.s, Token(fields[j].name));
      }
      SubstitutedWithoutTokens(v.s, fields, |fields|);
    }
  }

  /** A cell holding no field's token ends with exactly its original value. */
  lemma CellWithoutTokensKept(v: Value, fields: Fields)
    requires v.VStr? ==> forall j :: 0 <= j < |fields| ==> !Contains(v.s, Token(fields[j].name))
    ensures CellFilled(v, fields) == v
  {
    if v.VStr? {
      SubstitutedWithoutTokens(v.s, fields, |fields|);
    }
  }

  function SheetFilled(sheet: Sheet, fields: Fields): (t: Sheet)
    ensures |t| == |sheet| && forall r :: 0 <= r < |sheet| ==> |t[r]| == |sheet[r]|
  {
    seq(|sheet|, r requires 0 <= r < |sheet| =>
      seq(|sheet[r]|, c requires 0 <= c < |sheet[r]| => CellFilled(sheet[r][c], fields)))
  }

  /** The cell loop of `generate` over one worksheet. */
  method FillSheet(sheet: Sheet, fields: Fields) returns (t: Sheet)
    ensures t == SheetFilled(sheet, fields)
  {
    t := [];
    for r := 0 to |sheet|
      invariant |t| == r && forall i :: 0 <= i < r ==> t[i] == SheetFilled(sheet, fields)[i]
    {
      var row: seq<Value> := [];
      for c := 0 to |sheet[r]|
        invariant |row| == c && forall j :: 0 <= j < c ==> row[j] == CellFilled(sheet[r][j], fields)
      {
        var v := sheet[r][c];
        if Truthy(v) && v.VStr? {
          var cellValue := SubstituteText(v.s, fields);
          v := VStr(cellValue);
        }
        row := row + [v];
      }
      t := t + [row];
    }
  }

  /** `generate`: every cell of every worksheet visited; the sheets keep their shape. */
  method Generate(wb: Workbook, fields: Fields)
    modifies wb
    ensures |wb.sheets| == |old(wb.sheets)|
    ensures forall k :: 0 <= k < |wb.sheets| ==> wb.sheets[k] == SheetFilled(old(wb.sheets)[k], fields)
  {
    var sheets := wb.sheets;
    for k := 0 to |sheets|
      invariant |wb.sheets| == |sheets|
      invariant forall j :: 0 <= j < k ==> wb.sheets[j] == SheetFilled(sheets[j], fields)
      invariant forall j :: k <= j < |sheets| ==> wb.sheets[j] == sheets[j]
    {
      var t := FillSheet(sheets[k], fields);
      wb.sheets := wb.sheets[k := t];
    }
  }

  // ----- the template's field names -----

  /** The non-empty string cells of a row, in order. */
  function RowTexts(row: seq<Value>): seq<string>
  {
    if row == [] then []
    else
      var v := row[|row| - 1];
      RowTexts(row[..|row| - 1]) + (if Truthy(v) && v.VStr? then [v.s] else [])
  }

  function SheetTexts(sheet: Sheet): seq<string>
  {
    if sheet == [] then [] else SheetTexts(sheet[..|sheet| - 1]) + RowTexts(sheet[|sheet| - 1])
  }

  /** Every string cell `get_template_fields` searches, sheet by sheet and row by row. */
  function WorkbookTexts(sheets: seq<Sheet>): seq<string>
  {
    if sheets == [] then [] else WorkbookTexts(sheets[..|sheets| - 1]) + SheetTexts(sheets[|sheets| - 1])
  }

  /**
   * `get_template_fields`: the names found in string cells, sorted, each
   * once, each well formed and present as a token in one of those cells.
   */
  method TemplateFields(wb: Workbook) returns (r: seq<string>)
    ensures var texts := WorkbookTexts(wb.sheets);
      StrictlySorted(r)
      && (forall n :: n in r <==> n in NamesIn(texts))
      && (forall n :: n in r ==> WellFormedName(n))
      && (forall n :: n in r ==> exists i :: 0 <= i < |texts| && Contains(texts[i], Token(n)))
  {
    var texts := WorkbookTexts(wb.sheets);
    var names := TextNames(texts);
    r := SortedFields(texts, names);
  }
}
