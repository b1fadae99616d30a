/**
  * StockAdjustmentController.ImportExcel: every data row of the first worksheet is checked
  * against the rec-type master and the Sage item and location lists; the rows that pass have
  * their from and to locations derived from the adjustment type.
  */
module ExcelImport {
  import opened Wrappers
  import opened Text
  import opened Seqs
  import opened SageModels

  /** The four cell texts of a sheet row: adjustment type, item code, location, quantity. */
  datatype SheetRow = SheetRow(adjustmentType: string, itemCode: string, location: string, quantity: string)

  /** The four template columns. */
  datatype Column = A | B | C | D {
    function Letter(): string {
      match this
      case A => "A"
      case B => "B"
      case C => "C"
      case D => "D"
    }
    function Index(): nat {
      match this
      case A => 0
      case B => 1
      case C => 2
      case D => 3
    }
  }

  /** One entry of the error list: the sheet row, the column, the cell, the field and the text. */
  datatype ImportError = ImportError(row: int, column: Column, cell: string, field: string, message: string)

  /** One accepted row, with its names and its derived locations. */
  datatype ImportedRow = ImportedRow(
    recType: int, recTypeName: string, itemCode: string, itemDescription: string,
    location: string, locationName: string, fromLocation: string, fromLocationName: string,
    toLocation: string, toLocationName: string, qty: real, cost: real)

  /**
    * The master data the rows are checked against: the rec-type map (REC_Type to REC_Name2),
    * the active Sage items, the Sage locations, the trimmed default location, and the decimal
    * parser standing in for decimal.TryParse.
    */
  datatype ImportContext = ImportContext(
    recTypes: map<int, string>, items: seq<SageItem>, locations: seq<SageLocation>,
    defaultLocation: string, parseDecimal: string -> Option<real>)

  /** The separator between the rec type and its name in a dropdown value. */
  const TypeSeparator := " - "

  // ---------------------------------------------------------------- catalog matching

  /** A catalog code matches a cell when, trimmed, it equals the cell ignoring case. */
  predicate CodeMatches(entry: Option<string>, code: string) {
    entry.Some? && EqualsIgnoreCase(Trim(entry.value), code)
  }

  /**
    * The index of the first catalog entry matching code, searching from position from on:
    * the entry FirstOrDefault picks, and present exactly when the case-insensitive code set
    * contains the code.
    */
  function FirstMatch<E>(entries: seq<E>, codeOf: E -> Option<string>, code: string, from: nat): (r: Option<nat>)
    ensures r.Some? ==> from <= r.value < |entries| && CodeMatches(codeOf(entries[r.value]), code)
    ensures r.Some? ==> forall j :: from <= j < r.value ==> !CodeMatches(codeOf(entries[j]), code)
    ensures r.None? ==> forall j :: from <= j < |entries| ==> !CodeMatches(codeOf(entries[j]), code)
    decreases |entries| - from
  {
    if from >= |entries| then None
    else if CodeMatches(codeOf(entries[from]), code) then Some(from)
    else FirstMatch(entries, codeOf, code, from + 1)
  }

  function ItemCodeOf(i: SageItem): Option<string> { i.itemno }
  function LocationCodeOf(l: SageLocation): Option<string> { l.location }

  /** The items the import checks against: the active ones, or none when the list is null. */
  function ActiveItems(list: Option<seq<SageItem>>): (r: seq<SageItem>)
    ensures forall i :: i in r <==> list.Some? && i in list.value && !i.inactive
  {
    if list.None? then [] else Filter(list.value, IsActive)
  }

  /** "{code} - {desc}" for a found location, with a null description left empty. */
  function LocationLabel(l: SageLocation): string {
    Trim(l.location.GetOr("")) + " - " + (if l.desc.None? then "" else Trim(l.desc.value))
  }

  // ---------------------------------------------------------------- the four columns

  /** Column A: the number before the first " - ", when it parses and is a key of the rec-type map. */
  function ParseRecType(adj: string, recTypes: map<int, string>): (r: Option<int>)
    ensures r.Some? ==> r.value in recTypes && !IsBlank(adj)
  {
    if IsBlank(adj) then None
    else match ParseInt32(Trim(BeforeFirst(adj, TypeSeparator)))
      case Some(t) => if t in recTypes then Some(t) else None
      case None => None
  }

  function CellError(row: int, column: Column, field: string, message: string): ImportError {
    ImportError(row, column, column.Letter() + IntToString(row), field, message)
  }

  const AdjustmentTypeRequired := "Adjustment Type is required."
  const ItemCodeRequired := "Item Code is required."
  const LocationRequired := "Location is required."
  const QuantityRequired := "Quantity is required."

  function Quoted(s: string): string { "'" + s + "'" }

  /**
    * The check of one column: a blank cell is "required"; a cell that fails its test gets the
    * column's "invalid" message; otherwise no error.
    */
  function FieldError(row: int, column: Column, field: string, cell: string, valid: bool, required: string, invalid: string)
    : (e: Option<ImportError>)
    ensures e.None? <==> !IsBlank(cell) && valid
    ensures e.Some? ==> e.value.row == row && e.value.column == column && e.value.cell == column.Letter() + IntToString(row)
    ensures e.Some? && IsBlank(cell) ==> e.value.message == required
    ensures e.Some? && !IsBlank(cell) ==> e.value.message == invalid
  {
    if IsBlank(cell) then Some(CellError(row, column, field, required))
    else if !valid then Some(CellError(row, column, field, invalid))
    else None
  }

  /** The quantity of column D when it is a positive decimal. */
  function ParseQuantity(qty: string, parseDecimal: string -> Option<real>): (r: Option<real>)
    ensures r.Some? ==> r.value > 0.0 && !IsBlank(qty) && parseDecimal(qty) == r
    ensures r.None? ==> IsBlank(qty) || parseDecimal(qty).None? || parseDecimal(qty).value <= 0.0
  {
    if IsBlank(qty) then None
    else match parseDecimal(qty)
      case Some(v) => if v > 0.0 then Some(v) else None
      case None => None
  }

  function AsList(e: Option<ImportError>): seq<ImportError> {
    if e.None? then [] else [e.value]
  }

  /** The trimmed cells of a row, as the loop reads them. */
  function TrimmedCells(cells: SheetRow): SheetRow {
    SheetRow(Trim(cells.adjustmentType), Trim(cells.itemCode), Trim(cells.location), Trim(cells.quantity))
  }

  /** The errors of one non-empty row: at most one per column, in column order, each naming its cell. */
  function RowErrors(ctx: ImportContext, t: SheetRow, row: int): (errs: seq<ImportError>)
    ensures errs == [] <==>
      && ParseRecType(t.adjustmentType, ctx.recTypes).Some?
      && !IsBlank(t.itemCode) && FirstMatch(ctx.items, ItemCodeOf, t.itemCode, 0).Some?
      && !IsBlank(t.location) && FirstMatch(ctx.locations, LocationCodeOf, t.location, 0).Some?
      && ParseQuantity(t.quantity, ctx.parseDecimal).Some?
  {
    AsList(TypeError(ctx, t, row)) + AsList(ItemError(ctx, t, row)) +
    AsList(LocationError(ctx, t, row)) + AsList(QuantityError(ctx, t, row))
  }

  /** The text of a row's cell in the given column. */
  function CellOf(t: SheetRow, column: Column): string {
    match column
    case A => t.adjustmentType
    case B => t.itemCode
    case C => t.location
    case D => t.quantity
  }

  /** The message for a blank cell of the column. */
  function RequiredMessage(column: Column): string {
    match column
    case A => AdjustmentTypeRequired
    case B => ItemCodeRequired
    case C => LocationRequired
    case D => QuantityRequired
  }

  /** The message for a filled cell of the column that fails its test. */
  function InvalidMessage(t: SheetRow, column: Column): string {
    match column
    case A => "Invalid Adjustment Type " + Quoted(t.adjustmentType) + ". Use the dropdown values."
    case B => "Item Code " + Quoted(t.itemCode) + " does not exist in Sage."
    case C => "Location " + Quoted(t.location) + " does not exist in Sage."
    case D => "Quantity " + Quoted(t.quantity) + " must be a positive number."
  }

  function TypeError(ctx: ImportContext, t: SheetRow, row: int): Option<ImportError> {
    FieldError(row, A, "Adjustment Type", t.adjustmentType, ParseRecType(t.adjustmentType, ctx.recTypes).Some?,
      RequiredMessage(A), InvalidMessage(t, A))
  }

  function ItemError(ctx: ImportContext, t: SheetRow, row: int): Option<ImportError> {
    FieldError(row, B, "Item Code", t.itemCode, FirstMatch(ctx.items, ItemCodeOf, t.itemCode, 0).Some?,
      RequiredMessage(B), InvalidMessage(t, B))
  }

  function LocationError(ctx: ImportContext, t: SheetRow, row: int): Option<ImportError> {
    FieldError(row, C, "Location", t.location, FirstMatch(ctx.locations, LocationCodeOf, t.location, 0).Some?,
      RequiredMessage(C), InvalidMessage(t, C))
  }

  function QuantityError(ctx: ImportContext, t: SheetRow, row: int): Option<ImportError> {
    FieldError(row, D, "Quantity", t.quantity, ParseQuantity(t.quantity, ctx.parseDecimal).Some?,
      RequiredMessage(D), InvalidMessage(t, D))
  }

  /** Some error of the list is in the given column. */
  predicate HasErrorIn(errs: seq<ImportError>, column: Column) {
    exists e :: e in errs && e.column == column
  }

  /**
    * Column by column: a row has an error in a column exactly when that cell is blank or fails
    * its test.
    */
  lemma RowErrorsColumns(ctx: ImportContext, t: SheetRow, row: int)
    ensures var errs := RowErrors(ctx, t, row);
      && (HasErrorIn(errs, A) <==> IsBlank(t.adjustmentType) || ParseRecType(t.adjustmentType, ctx.recTypes).None?)
      && (HasErrorIn(errs, B) <==> IsBlank(t.itemCode) || FirstMatch(ctx.items, ItemCodeOf, t.itemCode, 0).None?)
      && (HasErrorIn(errs, C) <==> IsBlank(t.location) || FirstMatch(ctx.locations, LocationCodeOf, t.location, 0).None?)
      && (HasErrorIn(errs, D) <==> IsBlank(t.quantity) || ParseQuantity(t.quantity, ctx.parseDecimal).None?)
  {
    var a, b, c, d := TypeError(ctx, t, row), ItemError(ctx, t, row), LocationError(ctx, t, row), QuantityError(ctx, t, row);
    FourColumns(a, b, c, d);
  }

  /**
    * Each error of a row names its cell, and says "required" when the cell is blank and the
    * column's "invalid" text otherwise.
    */
  lemma RowErrorsMessages(ctx: ImportContext, t: SheetRow, row: int)
    ensures forall e :: e in RowErrors(ctx, t, row) ==>
      && e.row == row && e.cell == e.column.Letter() + IntToString(row)
      && e.message == (if IsBlank(CellOf(t, e.column)) then RequiredMessage(e.column) else InvalidMessage(t, e.column))
  {
    var a, b, c, d := TypeError(ctx, t, row), ItemError(ctx, t, row), LocationError(ctx, t, row), QuantityError(ctx, t, row);
    FourColumns(a, b, c, d);
    forall e | e in RowErrors(ctx, t, row)
      ensures e.row == row && e.cell == e.column.Letter() + IntToString(row)
      ensures e.message == (if IsBlank(CellOf(t, e.column)) then RequiredMessage(e.column) else InvalidMessage(t, e.column))
    {
      if Some(e) == a {
      } else if Some(e) == b {
      } else if Some(e) == c {
      } else {
        assert Some(e) == d;
      }
    }
  }

  /** A row's errors: at most one per column, in column order, all for that row. */
  lemma RowErrorsShape(ctx: ImportContext, t: SheetRow, row: int)
    ensures var errs := RowErrors(ctx, t, row);
      && |errs| <= 4
      && (forall i, j :: 0 <= i < j < |errs| ==> errs[i].column.Index() < errs[j].column.Index())
      && (forall e :: e in errs ==> e.row == row)
  {
    var a, b, c, d := TypeError(ctx, t, row), ItemError(ctx, t, row), LocationError(ctx, t, row), QuantityError(ctx, t, row);
    InColumnOrder(a, b, c, d);
    RowErrorsMessages(ctx, t, row);
  }

  /** Four optional errors, one per column, listed in that order. */
  lemma InColumnOrder(a: Option<ImportError>, b: Option<ImportError>, c: Option<ImportError>, d: Option<ImportError>)
    requires a.Some? ==> a.value.column == A
    requires b.Some? ==> b.value.column == B
    requires c.Some? ==> c.value.column == C
    requires d.Some? ==> d.value.column == D
    ensures var errs := AsList(a) + AsList(b) + AsList(c) + AsList(d);
      |errs| <= 4 && forall i, j :: 0 <= i < j < |errs| ==> errs[i].column.Index() < errs[j].column.Index()
  {
  }

  /** The list of four optional errors, one per column, has an error in a column exactly when that one is present. */
  lemma FourColumns(a: Option<ImportError>, b: Option<ImportError>, c: Option<ImportError>, d: Option<ImportError>)
    requires a.Some? ==> a.value.column == A
    requires b.Some? ==> b.value.column == B
    requires c.Some? ==> c.value.column == C
    requires d.Some? ==> d.value.column == D
    ensures var errs := AsList(a) + AsList(b) + AsList(c) + AsList(d);
      && (HasErrorIn(errs, A) <==> a.Some?) && (HasErrorIn(errs, B) <==> b.Some?)
      && (HasErrorIn(errs, C) <==> c.Some?) && (HasErrorIn(errs, D) <==> d.Some?)
      && (forall e :: e in errs <==> Some(e) == a || Some(e) == b || Some(e) == c || Some(e) == d)
  {
    var errs := AsList(a) + AsList(b) + AsList(c) + AsList(d);
    forall e ensures e in errs <==> Some(e) == a || Some(e) == b || Some(e) == c || Some(e) == d {
    }
    if a.Some? { assert a.value in errs; }
    if b.Some? { assert b.value in errs; }
    if c.Some? { assert c.value in errs; }
    if d.Some? { assert d.value in errs; }
  }

  // ---------------------------------------------------------------- locations of an accepted row

  /** From and to locations, with their labels. */
  datatype Locations = Locations(fromLocation: string, fromName: string, toLocation: string, toName: string)

  /**
    * An increase takes stock into the chosen location (from = to = it); any other type moves it
    * from the chosen location to the configured default location.
    */
  function DeriveImportLocations(recType: int, location: string, locationName: string, ctx: ImportContext)
    : (l: Locations)
    ensures recType == 12 ==> l.fromLocation == l.toLocation == Trim(location) && l.fromName == l.toName == locationName
    ensures recType != 12 ==> l.fromLocation == Trim(location) && l.fromName == locationName && l.toLocation == ctx.defaultLocation
    ensures recType != 12 ==>
      match FirstMatch(ctx.locations, LocationCodeOf, ctx.defaultLocation, 0)
      case Some(i) => l.toName == LocationLabel(ctx.locations[i])
      case None => l.toName == ctx.defaultLocation
  {
    if recType == 12 then Locations(Trim(location), locationName, Trim(location), locationName)
    else
      var toName :=
        match FirstMatch(ctx.locations, LocationCodeOf, ctx.defaultLocation, 0)
        case Some(i) => LocationLabel(ctx.locations[i])
        case None => ctx.defaultLocation;
      Locations(Trim(location), locationName, ctx.defaultLocation, toName)
  }

  // ---------------------------------------------------------------- one row

  datatype RowOutcome = Skipped | Rejected(errors: seq<ImportError>) | Accepted(accepted: ImportedRow)

  /** The row an accepted sheet row becomes, from the catalog entries its codes first match. */
  function AcceptedRow(ctx: ImportContext, t: SheetRow): (r: ImportedRow)
    requires RowErrors(ctx, t, 0) == []
    ensures r.recType in ctx.recTypes && r.recType == ParseRecType(t.adjustmentType, ctx.recTypes).value
    ensures r.qty > 0.0 && ctx.parseDecimal(t.quantity) == Some(r.qty)
    ensures r.cost == ctx.items[FirstMatch(ctx.items, ItemCodeOf, t.itemCode, 0).value].stdcost
    ensures r.recType == 12 ==> r.fromLocation == r.toLocation == Trim(t.location)
    ensures r.recType != 12 ==> r.fromLocation == Trim(t.location) && r.toLocation == ctx.defaultLocation
  {
    var recType := ParseRecType(t.adjustmentType, ctx.recTypes).value;
    var item := ctx.items[FirstMatch(ctx.items, ItemCodeOf, t.itemCode, 0).value];
    var place := ctx.locations[FirstMatch(ctx.locations, LocationCodeOf, t.location, 0).value];
    var locationName := LocationLabel(place);
    var l := DeriveImportLocations(recType, t.location, locationName, ctx);
    ImportedRow(recType, IntToString(recType) + " - " + ctx.recTypes[recType],
      Trim(t.itemCode), if item.desc.None? then "" else Trim(item.desc.value),
      Trim(t.location), locationName, l.fromLocation, l.fromName, l.toLocation, l.toName,
      ParseQuantity(t.quantity, ctx.parseDecimal).value, item.stdcost)
  }

  /** Whether the errors of a row are empty does not depend on its row number. */
  lemma RowErrorsEmptyAnyRow(ctx: ImportContext, t: SheetRow, row: int)
    ensures RowErrors(ctx, t, row) == [] <==> RowErrors(ctx, t, 0) == []
  {
  }

  /**
    * One sheet row: skipped when its four cells are blank; otherwise rejected with its errors,
    * or accepted exactly when it has none.
    */
  function CheckRow(ctx: ImportContext, cells: SheetRow, row: int): (o: RowOutcome)
    ensures o.Accepted? ==> o.accepted.recType in ctx.recTypes && o.accepted.qty > 0.0
  {
    var t := TrimmedCells(cells);
    if IsBlank(t.adjustmentType) && IsBlank(t.itemCode) && IsBlank(t.location) && IsBlank(t.quantity) then Skipped
    else
      var errs := RowErrors(ctx, t, row);
      RowErrorsEmptyAnyRow(ctx, t, row);
      if errs != [] then Rejected(errs) else Accepted(AcceptedRow(ctx, t))
  }

  /** The three outcomes of a row: skipped exactly when blank; otherwise accepted exactly without errors. */
  lemma CheckRowCases(ctx: ImportContext, cells: SheetRow, row: int)
    ensures var t := TrimmedCells(cells); var o := CheckRow(ctx, cells, row);
      && (o.Skipped? <==> IsBlank(t.adjustmentType) && IsBlank(t.itemCode) && IsBlank(t.location) && IsBlank(t.quantity))
      && (o.Rejected? ==> o.errors == RowErrors(ctx, t, row) && o.errors != [])
      && (!o.Skipped? ==> (o.Accepted? <==> RowErrors(ctx, t, row) == []))
  {
  }

  function ErrorsOf(o: RowOutcome): seq<ImportError> {
    if o.Rejected? then o.errors else []
  }

  function AcceptedOf(o: RowOutcome): seq<ImportedRow> {
    if o.Accepted? then [o.accepted] else []
  }

  // ---------------------------------------------------------------- the sheet

  /** CheckRow for the given master data, as a function of the cells and the row number. */
  function RowCheck(ctx: ImportContext): (SheetRow, int) -> RowOutcome {
    (cells, row) => CheckRow(ctx, cells, row)
  }

  /**
    * The errors of the data rows of a sheet prefix. sheet[0] is the header; sheet[k] is sheet
    * row k + 1.
    */
  function SheetErrors(check: (SheetRow, int) -> RowOutcome, sheet: seq<SheetRow>): seq<ImportError> {
    if |sheet| <= 1 then []
    else
      var n := |sheet|;
      SheetErrors(check, sheet[..n - 1]) + ErrorsOf(check(sheet[n - 1], n))
  }

  /** The accepted rows of the data rows of a sheet prefix, in sheet order. */
  function SheetRows(check: (SheetRow, int) -> RowOutcome, sheet: seq<SheetRow>): (rows: seq<ImportedRow>)
    ensures |rows| < |sheet| || |sheet| == 0
  {
    if |sheet| <= 1 then []
    else
      var n := |sheet|;
      SheetRows(check, sheet[..n - 1]) + AcceptedOf(check(sheet[n - 1], n))
  }

  /** Sheet row n extends the lists of the rows before it. */
  lemma SheetStep(check: (SheetRow, int) -> RowOutcome, sheet: seq<SheetRow>, n: int)
    requires 2 <= n <= |sheet|
    ensures SheetErrors(check, sheet[..n]) == SheetErrors(check, sheet[..n - 1]) + ErrorsOf(check(sheet[n - 1], n))
    ensures SheetRows(check, sheet[..n]) == SheetRows(check, sheet[..n - 1]) + AcceptedOf(check(sheet[n - 1], n))
  {
    var prefix := sheet[..n];
    assert prefix[..n - 1] == sheet[..n - 1] && prefix[n - 1] == sheet[n - 1];
  }

  /** The loop over rows 2 to the last row, appending to the error and valid-row lists. */
  method ValidateRows(check: (SheetRow, int) -> RowOutcome, sheet: seq<SheetRow>)
    returns (errors: seq<ImportError>, validRows: seq<ImportedRow>)
    ensures errors == SheetErrors(check, sheet)
    ensures validRows == SheetRows(check, sheet)
  {
    errors, validRows := [], [];
    if |sheet| < 2 {
      return;
    }
    // done counts the sheet rows read so far; the row read next is sheet row done + 1
    var done := 1;
    while done < |sheet|
      invariant 1 <= done <= |sheet|
      invariant errors == SheetErrors(check, sheet[..done])
      invariant validRows == SheetRows(check, sheet[..done])
    {
      SheetStep(check, sheet, done + 1);
      var outcome := check(sheet[done], done + 1);
      errors := errors + ErrorsOf(outcome);
      validRows := validRows + AcceptedOf(outcome);
      done := done + 1;
    }
    assert sheet[..done] == sheet;
  }

  /** Every accepted row is the outcome of one data row of the sheet. */
  lemma {:induction false} SheetRowsFromRows(check: (SheetRow, int) -> RowOutcome, sheet: seq<SheetRow>, r: ImportedRow)
    requires r in SheetRows(check, sheet)
    ensures exists k :: 1 <= k < |sheet| && check(sheet[k], k + 1) == Accepted(r)
  {
    var n := |sheet|;
    var init := sheet[..n - 1];
    if r in SheetRows(check, init) {
      SheetRowsFromRows(check, init, r);
      var k :| 1 <= k < |init| && check(init[k], k + 1) == Accepted(r);
      assert sheet[k] == init[k];
    }
  }

  // ---------------------------------------------------------------- the action

  /** The uploaded file: its name and length. */
  datatype Upload = Upload(fileName: string, contentLength: int)

  /** The answer of the action. */
  datatype ImportReply =
    | ImportFailed(message: string)
    | ImportRejected(message: string, errors: seq<ImportError>, validRowCount: nat)
    | Imported(message: string, rows: seq<ImportedRow>)

  const NoFile := "No file uploaded."
  const NotExcel := "Only Excel files (.xlsx) are supported."
  const NoWorksheet := "Excel file has no worksheets."
  const NoDataRows := "Excel file has no data rows. Please fill in data starting from row 2."
  const NoValidRows := "No valid data rows found in the file."
  const ProcessingError := "Error processing Excel file: "

  /** Path.GetExtension: from the last '.' after the last separator, or "" (also for a trailing '.'). */
  function Extension(name: string): (ext: string)
    ensures |ext| <= |name|
    ensures ext == [] || (ext[0] == '.' && |ext| >= 2)
    ensures ext <= name[|name| - |ext|..] || ext == []
    decreases |name|
  {
    if |name| == 0 then ""
    else
      var c := name[|name| - 1];
      if c == '/' || c == '\\' || c == ':' then ""
      else if c == '.' then ""
      else ExtensionFrom(name, |name| - 1)
  }

  /** The extension when the characters from position i on are neither dots nor separators. */
  function ExtensionFrom(name: string, i: nat): (ext: string)
    requires i < |name|
    ensures |ext| <= |name|
    ensures ext == [] || (ext[0] == '.' && |ext| >= 2)
    ensures ext <= name[|name| - |ext|..] || ext == []
  {
    if i == 0 then ""
    else
      var c := name[i - 1];
      if c == '.' then name[i - 1..]
      else if c == '/' || c == '\\' || c == ':' then ""
      else ExtensionFrom(name, i - 1)
  }

  predicate IsExcelName(name: string) {
    ToLower(Extension(name)) == ".xlsx" || ToLower(Extension(name)) == ".xls"
  }

  /**
    * The master data as the action loads it: the active items (none for a null list), the
    * locations (none for a null list) and the trimmed default location ("" when unset).
    */
  function LoadedContext(recTypes: map<int, string>, items: Option<seq<SageItem>>, locations: Option<seq<SageLocation>>,
                         defaultLocation: Option<string>, parseDecimal: string -> Option<real>): (ctx: ImportContext)
    ensures ctx.recTypes == recTypes && ctx.parseDecimal == parseDecimal
    ensures forall i :: i in ctx.items <==> items.Some? && i in items.value && !i.inactive
    ensures ctx.locations == (if locations.None? then [] else locations.value)
    ensures ctx.defaultLocation == (if defaultLocation.None? then "" else Trim(defaultLocation.value))
  {
    ImportContext(recTypes, ActiveItems(items), locations.GetOr([]),
      if defaultLocation.None? then "" else Trim(defaultLocation.value), parseDecimal)
  }

  /**
    * The action over its inputs: the upload, the master data as loaded, and the workbook, which
    * is either unreadable (the message of the exception), without a worksheet, or the cell
    * texts of the first worksheet's rows.
    */
  function ImportResult(file: Option<Upload>, recTypes: map<int, string>, items: Option<seq<SageItem>>,
                        locations: Option<seq<SageLocation>>, defaultLocation: Option<string>,
                        parseDecimal: string -> Option<real>, workbook: Result<Option<seq<SheetRow>>, string>)
    : (reply: ImportReply)
    ensures (file.None? || file.value.contentLength == 0) ==> reply == ImportFailed(NoFile)
    ensures file.Some? && file.value.contentLength != 0 && !IsExcelName(file.value.fileName) ==> reply == ImportFailed(NotExcel)
    ensures reply.Imported? ==>
      file.Some? && IsExcelName(file.value.fileName) && workbook.Success? && workbook.value.Some? &&
      |workbook.value.value| >= 2 && reply.rows != []
    ensures reply.ImportRejected? ==> reply.errors != []
    ensures file.Some? && file.value.contentLength != 0 && IsExcelName(file.value.fileName) ==>
      match workbook
      case Failure(message) => reply == ImportFailed(ProcessingError + message)
      case Success(None) => reply == ImportFailed(NoWorksheet)
      case Success(Some(sheet)) =>
        var ctx := LoadedContext(recTypes, items, locations, defaultLocation, parseDecimal);
        reply == if |sheet| < 2 then ImportFailed(NoDataRows)
          else SheetOutcome(SheetErrors(RowCheck(ctx), sheet), SheetRows(RowCheck(ctx), sheet))
  {
    if file.None? || file.value.contentLength == 0 then ImportFailed(NoFile)
    else if !IsExcelName(file.value.fileName) then ImportFailed(NotExcel)
    else
      var ctx := LoadedContext(recTypes, items, locations, defaultLocation, parseDecimal);
      match workbook
      case Failure(message) => ImportFailed(ProcessingError + message)
      case Success(None) => ImportFailed(NoWorksheet)
      case Success(Some(sheet)) =>
        if |sheet| < 2 then ImportFailed(NoDataRows)
        else SheetOutcome(SheetErrors(RowCheck(ctx), sheet), SheetRows(RowCheck(ctx), sheet))
  }

  /**
    * The answer once the rows are read: any error rejects the whole file, even with valid rows;
    * no error and no row is a failure; otherwise every accepted row, in sheet order.
    */
  function SheetOutcome(errors: seq<ImportError>, validRows: seq<ImportedRow>): (reply: ImportReply)
    ensures errors != [] ==>
      reply == ImportRejected("Found " + IntToString(|errors|) + " error(s) in the uploaded file.", errors, |validRows|)
    ensures errors == [] && validRows == [] ==> reply == ImportFailed(NoValidRows)
    ensures errors == [] && validRows != [] ==>
      reply == Imported(IntToString(|validRows|) + " row(s) imported successfully.", validRows)
  {
    if errors != [] then
      ImportRejected("Found " + IntToString(|errors|) + " error(s) in the uploaded file.", errors, |validRows|)
    else if validRows == [] then ImportFailed(NoValidRows)
    else Imported(IntToString(|validRows|) + " row(s) imported successfully.", validRows)
  }

  /** ImportExcel: the checks in order, then the row loop. */
  method ImportExcel(file: Option<Upload>, recTypes: map<int, string>, items: Option<seq<SageItem>>,
                     locations: Option<seq<SageLocation>>, defaultLocation: Option<string>,
                     parseDecimal: string -> Option<real>, workbook: Result<Option<seq<SheetRow>>, string>)
    returns (reply: ImportReply)
    ensures reply == ImportResult(file, recTypes, items, locations, defaultLocation, parseDecimal, workbook)
  {
    if file.None? || file.value.contentLength == 0 {
      return ImportFailed(NoFile);
    }
    if !IsExcelName(file.value.fileName) {
      return ImportFailed(NotExcel);
    }
    var ctx := LoadedContext(recTypes, items, locations, defaultLocation, parseDecimal);
    if workbook.Failure? {
      return ImportFailed(ProcessingError + workbook.error);
    }
    if workbook.value.None? {
      return ImportFailed(NoWorksheet);
    }
    var sheet := workbook.value.value;
    if |sheet| < 2 {
      return ImportFailed(NoDataRows);
    }
    var errors, validRows := ValidateRows(RowCheck(ctx), sheet);
    reply := SheetOutcome(errors, validRows);
  }

  // ---------------------------------------------------------------- the template's dropdown values

  /** No " - " starts inside the text of a number. */
  lemma NoSeparatorInNumber(n: int, rest: string, j: int)
    requires 0 <= j < |IntToString(n)|
    ensures !OccursAt(IntToString(n) + rest, TypeSeparator, j)
  {
    var s := IntToString(n);
    var v := s + rest;
    assert v[j] == s[j];
    if n >= 0 {
      assert IsDigit(s[j]);
    } else if j == 0 {
      assert s[0] == '-';
    } else {
      assert s[j] == NatToString(-n)[j - 1];
      assert IsDigit(s[j]);
    }
    assert v[j] != ' ';
    if j + 3 <= |v| {
      assert v[j..j + 3][0] == v[j];
    }
  }

  /**
    * A dropdown value of the template, "{REC_Type} - {REC_Name2}", is read back as its rec type.
    */
  lemma DropdownValueAccepted(recTypes: map<int, string>, t: int)
    requires t in recTypes && InInt32(t)
    ensures ParseRecType(IntToString(t) + TypeSeparator + recTypes[t], recTypes) == Some(t)
  {
    var s := IntToString(t);
    var v := s + TypeSeparator + recTypes[t];
    assert v == s + (TypeSeparator + recTypes[t]);
    forall j | 0 <= j < |s| ensures !OccursAt(v, TypeSeparator, j) {
      NoSeparatorInNumber(t, TypeSeparator + recTypes[t], j);
    }
    assert OccursAt(v, TypeSeparator, |s|) by {
      assert v[|s|..|s| + 3] == TypeSeparator;
    }
    assert BeforeFirst(v, TypeSeparator) == s;
    ParseInt32OfIntToString(t);
    TrimIntToString(t);
    assert !IsWhiteSpace(v[0]) by {
      assert v[0] == s[0];
    }
    assert !IsBlank(v);
  }

  /** The text of a number has no surrounding white space. */
  lemma TrimIntToString(n: int)
    ensures Trim(IntToString(n)) == IntToString(n)
  {
    var s := IntToString(n);
    if n < 0 {
      assert s[|s| - 1] == NatToString(-n)[|NatToString(-n)| - 1];
    }
    TrimIdentity(s);
  }
}
