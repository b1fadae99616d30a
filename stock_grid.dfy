/**
  * The item grid of the stock adjustment page (StockAdjustment.js). The page holds:
  *   - the rows the user adds, edits, deletes or imports before submitting;
  *   - the counter that numbers new rows;
  *   - the supporting file chosen for each file type;
  *   - the increase and decrease totals shown under the grid.
  */
module StockGrid {
  import opened Wrappers
  import opened Text
  import opened Seqs
  import opened CatalogSearch
  import opened ExcelImport

  const StockDecrease: int := 10
  const StockIncrease: int := 12

  /** One row of the grid. The cost is the parsed cost field (an empty field counts as 0). */
  datatype GridItem = GridItem(
    stockRecSno: int, recType: int, recTypeName: string, itemCode: string, itemDescription: string,
    location: string, locationName: string, fromLocation: string, fromLocationName: string,
    toLocation: string, toLocationName: string, qty: real, cost: real)

  /**
    * The item form as saveItem reads it. editIndex is -1 when adding. recType None stands for a
    * value parseInt cannot read.
    */
  datatype ItemForm = ItemForm(
    editIndex: int, stockRecSno: int, recType: Option<int>, recTypeName: string,
    itemCode: string, itemDescription: string, location: string, qty: real, cost: real)

  datatype SaveOutcome = Refused(message: string) | Saved(message: string)

  const SelectType: string := "Please select an Adjustment Type"
  const SelectItem: string := "Please select an Item"
  const SelectLocation: string := "Please select a Location"
  const ItemAdded: string := "Item added successfully"
  const ItemUpdated: string := "Item updated successfully"

  /** A chosen file; the size is in bytes. */
  datatype FileInfo = FileInfo(name: string, size: nat)

  datatype UploadOutcome = NoFile | TooLarge | Stored

  /** One file input of the page: its file type, whether it is required, and its label text (caption). */
  datatype FileInput = FileInput(fileTypeId: int, required: bool, caption: string)

  datatype ReviewOutcome = ReviewRefused(message: string) | ShowReview

  const AddItemFirst: string := "Please add at least one item"
  const UploadRequired: string := "Please upload required files: "

  // ---------------------------------------------------------------- saving an item

  /**
    * getLocationDisplayText. No code gives "". Otherwise the result is the text of the first
    * cached location with that id, or the code itself when there is none.
    */
  function DisplayText(catalog: seq<Choice>, code: string): (text: string)
    ensures code == "" ==> text == ""
    ensures code != "" && (forall c :: c in catalog ==> c.id != Some(code)) ==> text == code
    ensures code != "" ==> text == code || exists c :: c in catalog && c.id == Some(code) && text == c.text
    decreases |catalog|
  {
    if code == "" then ""
    else if catalog == [] then code
    else if catalog[0].id == Some(code) then catalog[0].text
    else DisplayText(catalog[1..], code)
  }

  /** The message saveItem refuses with: the first of type, item and location that is missing. */
  function Refusal(form: ItemForm): (r: Option<string>)
    ensures r.None? <==> form.recType.Some? && form.recType.value != 0 && form.itemCode != "" && form.location != ""
  {
    if form.recType.None? || form.recType.value == 0 then Some(SelectType)
    else if form.itemCode == "" then Some(SelectItem)
    else if form.location == "" then Some(SelectLocation)
    else None
  }

  /**
    * The from and to locations of a saved row. A decrease moves stock from the selected location
    * to the default one. The default one is shown by its display text, or by its code when that
    * text is empty. Every other type, an increase included, has from = to = the selected location.
    */
  function DeriveLocations(recType: int, location: string, catalog: seq<Choice>, defaultLocation: string)
    : (l: Locations)
    ensures l.fromLocation == location && l.fromName == DisplayText(catalog, location)
    ensures recType != StockDecrease ==> l.toLocation == location && l.toName == l.fromName
    ensures recType == StockDecrease ==>
      l.toLocation == defaultLocation &&
      (l.toName == defaultLocation || exists c :: c in catalog && c.id == Some(defaultLocation) && l.toName == c.text)
  {
    var name := DisplayText(catalog, location);
    if recType == StockIncrease then Locations(location, name, location, name)
    else if recType == StockDecrease then
      var shown := DisplayText(catalog, defaultLocation);
      Locations(location, name, defaultLocation, if shown != "" then shown else defaultLocation)
    else Locations(location, name, location, name)
  }

  /** The row saveItem stores for an accepted form. */
  function ItemOf(form: ItemForm, catalog: seq<Choice>, defaultLocation: string): GridItem
    requires form.recType.Some?
  {
    var l := DeriveLocations(form.recType.value, form.location, catalog, defaultLocation);
    GridItem(form.stockRecSno, form.recType.value, form.recTypeName, form.itemCode, form.itemDescription,
      form.location, l.fromName, l.fromLocation, l.fromName, l.toLocation, l.toName, form.qty, form.cost)
  }

  /**
    * The page and the import endpoint derive locations differently. They agree on increases and
    * decreases when the location is already trimmed. For any other type, the page keeps the
    * selected location as the destination while the import sends the stock to the default location.
    */
  lemma PageAndImportLocations(recType: int, location: string, catalog: seq<Choice>, ctx: ImportContext)
    requires Trim(location) == location
    ensures var page := DeriveLocations(recType, location, catalog, ctx.defaultLocation);
      var imported := DeriveImportLocations(recType, location, DisplayText(catalog, location), ctx);
      && page.fromLocation == imported.fromLocation
      && (recType == StockIncrease || recType == StockDecrease ==> page.toLocation == imported.toLocation)
      && (recType != StockIncrease && recType != StockDecrease && ctx.defaultLocation != location ==>
            page.toLocation != imported.toLocation)
  {
  }

  // ---------------------------------------------------------------- deleting

  /** Where Array.prototype.splice starts: a negative index counts from the end. */
  function SpliceStart(len: nat, index: int): (k: nat)
    ensures k <= len
    ensures 0 <= index <= len ==> k == index
    ensures index < 0 && len + index >= 0 ==> k == len + index
  {
    if index < 0 then (if len + index < 0 then 0 else len + index)
    else if index > len then len
    else index
  }

  /** splice(index, 1): the element at the start position is removed, when there is one. */
  function RemoveAt<T>(s: seq<T>, index: int): (r: seq<T>)
    ensures 0 <= index < |s| ==> |r| == |s| - 1 && r[..index] == s[..index] && r[index..] == s[index + 1..]
    ensures index >= |s| ==> r == s
    ensures forall x :: x in r ==> x in s
  {
    var k := SpliceStart(|s|, index);
    if k < |s| then s[..k] + s[k + 1..] else s
  }

  /** Deleting takes away exactly one copy of the element at the index. */
  lemma RemoveAtPermutation<T>(s: seq<T>, index: int)
    requires 0 <= index < |s|
    ensures multiset(s) == multiset(RemoveAt(s, index)) + multiset{s[index]}
  {
    assert s == s[..index] + [s[index]] + s[index + 1..];
  }

  // ---------------------------------------------------------------- importing

  /** The grid row the import handler pushes for an imported row. */
  function ImportedItem(row: ImportedRow, sno: int): GridItem {
    GridItem(sno, row.recType, row.recTypeName, row.itemCode, row.itemDescription, row.location, row.locationName,
      row.fromLocation, row.fromLocationName, row.toLocation, row.toLocationName, row.qty, row.cost)
  }

  /** The rows an import adds, numbered from start. */
  function ImportedItems(rows: seq<ImportedRow>, start: int): seq<GridItem> {
    seq(|rows|, i requires 0 <= i < |rows| => ImportedItem(rows[i], start + i))
  }

  /**
    * The imported rows keep their order and fields and are numbered consecutively from start.
    * When every existing row is numbered below start, no imported number repeats an existing one.
    */
  lemma ImportedNumbering(existing: seq<GridItem>, rows: seq<ImportedRow>, start: int)
    requires forall x :: x in existing ==> x.stockRecSno < start
    ensures var items := ImportedItems(rows, start);
      && |items| == |rows|
      && (forall i :: 0 <= i < |rows| ==>
            items[i].stockRecSno == start + i && items[i].recType == rows[i].recType &&
            items[i].itemCode == rows[i].itemCode && items[i].fromLocation == rows[i].fromLocation &&
            items[i].toLocation == rows[i].toLocation && items[i].qty == rows[i].qty && items[i].cost == rows[i].cost)
      && (forall x, y :: x in existing && y in items ==> x.stockRecSno != y.stockRecSno)
  {
    var items := ImportedItems(rows, start);
    forall x, y | x in existing && y in items ensures x.stockRecSno != y.stockRecSno {
      var j :| 0 <= j < |items| && items[j] == y;
      assert y.stockRecSno == start + j;
    }
  }

  // ---------------------------------------------------------------- files and review

  /** A file input that is required and has no file yet. */
  predicate Missing(files: map<int, FileInfo>, input: FileInput) {
    input.required && input.fileTypeId !in files
  }

  function MissingInputs(inputs: seq<FileInput>, files: map<int, FileInfo>): seq<FileInput> {
    Filter(inputs, (i: FileInput) => Missing(files, i))
  }

  /** The name shown for a missing file: the trimmed label up to its first '*', trimmed again. */
  function FileLabel(input: FileInput): string {
    Trim(BeforeFirst(Trim(input.caption), "*"))
  }

  /** The labels reviewData lists as missing, in page order. */
  function MissingLabels(inputs: seq<FileInput>, files: map<int, FileInfo>): seq<string> {
    Map(MissingInputs(inputs, files), FileLabel)
  }

  /**
    * Storing a file for one type settles exactly the inputs of that type. Clearing it makes them
    * missing again when they are required.
    */
  lemma FileMapEffects(inputs: seq<FileInput>, files: map<int, FileInfo>, id: int, f: FileInfo, input: FileInput)
    ensures input in MissingInputs(inputs, files[id := f]) <==>
      input in MissingInputs(inputs, files) && input.fileTypeId != id
    ensures input in MissingInputs(inputs, files - {id}) <==>
      input in inputs && input.required && (input in MissingInputs(inputs, files) || input.fileTypeId == id)
  {
  }

  // ---------------------------------------------------------------- totals

  /** cost × qty of one row. */
  function Amount(x: GridItem): real {
    x.cost * x.qty
  }

  predicate OfType(rt: int, x: GridItem) {
    x.recType == rt
  }

  /** The total of cost × qty over the rows of one type. */
  function RateTotal(items: seq<GridItem>, rt: int): real {
    Sum(Filter(items, (x: GridItem) => OfType(rt, x)), Amount)
  }

  /**
    * Adding a row changes only its own type's total, and only by its amount. Rows of a type
    * other than 10 and 12 change neither total.
    */
  lemma RateTotalAppend(items: seq<GridItem>, x: GridItem, rt: int)
    ensures RateTotal(items + [x], rt) == RateTotal(items, rt) + (if x.recType == rt then Amount(x) else 0.0)
  {
    var p := (y: GridItem) => OfType(rt, y);
    FilterAppend(items, [x], p);
    SumAppend(Filter(items, p), Filter([x], p), Amount);
    if x.recType == rt {
      assert Sum(Filter([x], p), Amount) == Sum([], Amount) + Amount(x);
    }
  }

  /** Deleting a row takes its amount off its own type's total and leaves the other totals alone. */
  lemma RateTotalRemove(items: seq<GridItem>, index: int, rt: int)
    requires 0 <= index < |items|
    ensures RateTotal(items, rt) ==
      RateTotal(RemoveAt(items, index), rt) + (if items[index].recType == rt then Amount(items[index]) else 0.0)
  {
    var p := (y: GridItem) => OfType(rt, y);
    var a, b := items[..index], items[index + 1..];
    assert items == a + [items[index]] + b;
    assert RemoveAt(items, index) == a + b;
    FilterAppend(a + [items[index]], b, p);
    FilterAppend(a, [items[index]], p);
    FilterAppend(a, b, p);
    SumAppend(Filter(a, p) + Filter([items[index]], p), Filter(b, p), Amount);
    SumAppend(Filter(a, p), Filter([items[index]], p), Amount);
    SumAppend(Filter(a, p), Filter(b, p), Amount);
    if items[index].recType == rt {
      assert Sum(Filter([items[index]], p), Amount) == Sum([], Amount) + Amount(items[index]);
    }
  }

  // ---------------------------------------------------------------- the page

  class StockAdjustmentPage {
    var gridData: seq<GridItem>
    var nextStockRecSno: int
    /** uploadedFiles, keyed by file type. */
    var uploadedFiles: map<int, FileInfo>
    /** The default location loaded from the application options. */
    var defaultAppLocation: string
    /** The location choices loaded from Sage. */
    var cachedLocations: seq<Choice>

    /** Every row is numbered below the counter, so the next row added gets a fresh number. */
    ghost predicate NumbersBelowCounter()
      reads this
    {
      forall x :: x in gridData ==> x.stockRecSno < nextStockRecSno
    }

    /** The page once the default location and the locations have loaded. */
    constructor(defaultLocation: string, locations: seq<Choice>)
      ensures gridData == [] && nextStockRecSno == 1 && uploadedFiles == map[]
      ensures defaultAppLocation == defaultLocation && cachedLocations == locations
      ensures NumbersBelowCounter()
    {
      gridData := [];
      nextStockRecSno := 1;
      uploadedFiles := map[];
      defaultAppLocation := defaultLocation;
      cachedLocations := locations;
    }

    /**
      * saveItem. A refused form changes nothing. An accepted form with an edit index replaces that
      * row and keeps the counter. Otherwise the row is appended and the counter goes up by one.
      * The form is filled with the counter when adding and with the row's own number when editing;
      * under that, numbers stay below the counter.
      */
    method SaveItem(form: ItemForm) returns (outcome: SaveOutcome)
      requires form.editIndex < |gridData|
      modifies this
      ensures uploadedFiles == old(uploadedFiles) && defaultAppLocation == old(defaultAppLocation)
      ensures cachedLocations == old(cachedLocations)
      ensures Refusal(form).Some? ==>
        outcome == Refused(Refusal(form).value) && gridData == old(gridData) && nextStockRecSno == old(nextStockRecSno)
      ensures Refusal(form).None? && form.editIndex >= 0 ==>
        outcome == Saved(ItemUpdated) && nextStockRecSno == old(nextStockRecSno) &&
        gridData == old(gridData)[form.editIndex := ItemOf(form, cachedLocations, defaultAppLocation)]
      ensures Refusal(form).None? && form.editIndex < 0 ==>
        outcome == Saved(ItemAdded) && nextStockRecSno == old(nextStockRecSno) + 1 &&
        gridData == old(gridData) + [ItemOf(form, cachedLocations, defaultAppLocation)]
      ensures
        (old(NumbersBelowCounter()) &&
         (form.editIndex < 0 ==> form.stockRecSno == old(nextStockRecSno)) &&
         (form.editIndex >= 0 ==> form.stockRecSno == old(gridData)[form.editIndex].stockRecSno)) ==>
        NumbersBelowCounter()
    {
      var refusal := Refusal(form);
      if refusal.Some? {
        return Refused(refusal.value);
      }
      var item := ItemOf(form, cachedLocations, defaultAppLocation);
      if form.editIndex >= 0 {
        gridData := gridData[form.editIndex := item];
        outcome := Saved(ItemUpdated);
      } else {
        gridData := gridData + [item];
        nextStockRecSno := nextStockRecSno + 1;
        outcome := Saved(ItemAdded);
      }
    }

    /** deleteItem: once confirmed, splice(index, 1); the counter is never lowered. */
    method DeleteItem(index: int, confirmed: bool)
      modifies this
      ensures gridData == (if confirmed then RemoveAt(old(gridData), index) else old(gridData))
      ensures nextStockRecSno == old(nextStockRecSno) && uploadedFiles == old(uploadedFiles)
      ensures defaultAppLocation == old(defaultAppLocation) && cachedLocations == old(cachedLocations)
      ensures old(NumbersBelowCounter()) ==> NumbersBelowCounter()
    {
      if confirmed {
        var k := SpliceStart(|gridData|, index);
        if k < |gridData| {
          gridData := gridData[..k] + gridData[k + 1..];
        }
      }
    }

    /** The success branch of importExcelFile: push every row, numbered from the counter, then move the counter past them. */
    method ImportRows(rows: seq<ImportedRow>)
      modifies this
      ensures gridData == old(gridData) + ImportedItems(rows, old(nextStockRecSno))
      ensures nextStockRecSno == old(nextStockRecSno) + |rows| && uploadedFiles == old(uploadedFiles)
      ensures defaultAppLocation == old(defaultAppLocation) && cachedLocations == old(cachedLocations)
      ensures old(NumbersBelowCounter()) ==> NumbersBelowCounter()
    {
      var snoStart := nextStockRecSno;
      ghost var before := gridData;
      var i := 0;
      while i < |rows|
        invariant 0 <= i <= |rows|
        invariant gridData == before + ImportedItems(rows[..i], snoStart)
        invariant nextStockRecSno == snoStart && uploadedFiles == old(uploadedFiles)
        invariant defaultAppLocation == old(defaultAppLocation) && cachedLocations == old(cachedLocations)
      {
        assert ImportedItems(rows[..i + 1], snoStart) == ImportedItems(rows[..i], snoStart) + [ImportedItem(rows[i], snoStart + i)];
        gridData := gridData + [ImportedItem(rows[i], snoStart + i)];
        i := i + 1;
      }
      assert rows[..i] == rows;
      nextStockRecSno := snoStart + |rows|;
      if forall x :: x in before ==> x.stockRecSno < snoStart {
        ImportedNumbering(before, rows, snoStart);
      }
    }

    /**
      * handleFileUpload. No file changes nothing. A file larger than maxSizeKB is refused.
      * Otherwise it is stored under its type, replacing any earlier one.
      */
    method HandleFileUpload(fileTypeId: int, maxSizeKB: real, file: Option<FileInfo>) returns (outcome: UploadOutcome)
      modifies this
      ensures gridData == old(gridData) && nextStockRecSno == old(nextStockRecSno)
      ensures defaultAppLocation == old(defaultAppLocation) && cachedLocations == old(cachedLocations)
      ensures file.None? ==> outcome == NoFile && uploadedFiles == old(uploadedFiles)
      ensures file.Some? && file.value.size as real / 1024.0 > maxSizeKB ==>
        outcome == TooLarge && uploadedFiles == old(uploadedFiles)
      ensures file.Some? && file.value.size as real / 1024.0 <= maxSizeKB ==>
        outcome == Stored && uploadedFiles == old(uploadedFiles)[fileTypeId := file.value]
    {
      if file.None? {
        return NoFile;
      }
      var sizeKB := file.value.size as real / 1024.0;
      if sizeKB > maxSizeKB {
        return TooLarge;
      }
      uploadedFiles := uploadedFiles[fileTypeId := file.value];
      outcome := Stored;
    }

    /** clearFile: forget the file of one type. */
    method ClearFile(fileTypeId: int)
      modifies this
      ensures uploadedFiles == old(uploadedFiles) - {fileTypeId}
      ensures gridData == old(gridData) && nextStockRecSno == old(nextStockRecSno)
      ensures defaultAppLocation == old(defaultAppLocation) && cachedLocations == old(cachedLocations)
    {
      uploadedFiles := uploadedFiles - {fileTypeId};
    }

    /**
      * reviewData. An empty grid is refused first. Then every required input without a file is
      * listed by its label. The review opens only when the grid has rows and every required input
      * has a file.
      */
    method ReviewData(inputs: seq<FileInput>) returns (outcome: ReviewOutcome)
      ensures gridData == [] ==> outcome == ReviewRefused(AddItemFirst)
      ensures gridData != [] && MissingLabels(inputs, uploadedFiles) != [] ==>
        outcome == ReviewRefused(UploadRequired + Join(", ", MissingLabels(inputs, uploadedFiles)))
      ensures outcome == ShowReview <==>
        gridData != [] && forall input :: input in inputs && input.required ==> input.fileTypeId in uploadedFiles
    {
      if gridData == [] {
        return ReviewRefused(AddItemFirst);
      }
      var missingFiles: seq<string> := [];
      var i := 0;
      while i < |inputs|
        invariant 0 <= i <= |inputs|
        invariant missingFiles == MissingLabels(inputs[..i], uploadedFiles)
      {
        MissingStep(inputs[..i], inputs[i], uploadedFiles);
        assert inputs[..i + 1] == inputs[..i] + [inputs[i]];
        if inputs[i].required && inputs[i].fileTypeId !in uploadedFiles {
          missingFiles := missingFiles + [FileLabel(inputs[i])];
        }
        i := i + 1;
      }
      assert inputs[..i] == inputs;
      NoneMissing(inputs, uploadedFiles);
      if |missingFiles| > 0 {
        return ReviewRefused(UploadRequired + Join(", ", missingFiles));
      }
      outcome := ShowReview;
    }

    /** updateRateSummary: one pass that adds each row's amount to its type's total. */
    method UpdateRateSummary() returns (increaseTotal: real, decreaseTotal: real)
      ensures increaseTotal == RateTotal(gridData, StockIncrease)
      ensures decreaseTotal == RateTotal(gridData, StockDecrease)
    {
      increaseTotal, decreaseTotal := 0.0, 0.0;
      var rows := gridData;
      var i := 0;
      while i < |rows|
        invariant 0 <= i <= |rows|
        invariant increaseTotal == RateTotal(rows[..i], StockIncrease)
        invariant decreaseTotal == RateTotal(rows[..i], StockDecrease)
      {
        var item := rows[i];
        assert rows[..i + 1] == rows[..i] + [item];
        RateTotalAppend(rows[..i], item, StockIncrease);
        RateTotalAppend(rows[..i], item, StockDecrease);
        var amount := Amount(item);
        if item.recType == StockIncrease {
          increaseTotal := increaseTotal + amount;
        } else if item.recType == StockDecrease {
          decreaseTotal := decreaseTotal + amount;
        }
        i := i + 1;
      }
      assert rows[..i] == rows;
    }
  }

  /** One more input adds its label to the missing list exactly when it is missing. */
  lemma MissingStep(done: seq<FileInput>, input: FileInput, files: map<int, FileInfo>)
    ensures MissingLabels(done + [input], files) ==
      MissingLabels(done, files) + (if Missing(files, input) then [FileLabel(input)] else [])
  {
    var p := (i: FileInput) => Missing(files, i);
    FilterAppend(done, [input], p);
    MapAppend(Filter(done, p), Filter([input], p), FileLabel);
  }

  /** Nothing is listed exactly when every required input has a file. */
  lemma NoneMissing(inputs: seq<FileInput>, files: map<int, FileInfo>)
    ensures MissingLabels(inputs, files) == [] <==>
      forall input :: input in inputs && input.required ==> input.fileTypeId in files
  {
    if MissingLabels(inputs, files) == [] {
      forall input | input in inputs && input.required ensures input.fileTypeId in files {
        assert input in MissingInputs(inputs, files) <==> Missing(files, input);
      }
    } else {
      var m := MissingInputs(inputs, files)[0];
      assert m in MissingInputs(inputs, files);
    }
  }
}
