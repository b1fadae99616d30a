/**
  * ResolveNamesFromSageApi: fills the item description and the two location names of the
  * report's line items from the Sage item and location lists.
  */
module ReportNames {
  import opened Wrappers
  import opened Text
  import opened SageModels
  import opened ReportQueries

  /**
    * The key an entry is stored under: its code trimmed, when that is not empty. Keys are
    * compared ignoring case, so the model stores them lower-cased.
    */
  function EntryKey(code: Option<string>): Option<string> {
    match code
    case None => None
    case Some(c) => if Trim(c) == "" then None else Some(ToLower(Trim(c)))
  }

  /** The value stored for an entry: its description trimmed, or "" when it is null. */
  function EntryText(desc: Option<string>): string {
    match desc
    case None => ""
    case Some(d) => Trim(d)
  }

  /** The dictionary built from the entries in order, an entry being added only when its key is new. */
  function LookupOf<E>(entries: seq<E>, key: E -> Option<string>, text: E -> string): (m: map<string, string>)
    ensures forall k :: k in m ==> exists i :: 0 <= i < |entries| && key(entries[i]) == Some(k)
  {
    if entries == [] then map[]
    else
      var m := LookupOf(entries[..|entries| - 1], key, text);
      var e := entries[|entries| - 1];
      match key(e)
      case None => m
      case Some(k) => if k in m then m else m[k := text(e)]
  }

  /** Entry i is the first one stored under key k. */
  predicate FirstWithKey<E>(entries: seq<E>, key: E -> Option<string>, k: string, i: int) {
    0 <= i < |entries| && key(entries[i]) == Some(k) &&
    forall j :: 0 <= j < i ==> key(entries[j]) != Some(k)
  }

  /** The dictionary holds a key exactly when some entry has it. */
  lemma {:induction false} LookupHasKey<E>(entries: seq<E>, key: E -> Option<string>, text: E -> string, k: string)
    ensures k in LookupOf(entries, key, text) <==> exists i :: 0 <= i < |entries| && key(entries[i]) == Some(k)
  {
    if entries != [] {
      var n := |entries| - 1;
      var init := entries[..n];
      LookupHasKey(init, key, text, k);
      if exists i :: 0 <= i < |entries| && key(entries[i]) == Some(k) {
        var i :| 0 <= i < |entries| && key(entries[i]) == Some(k);
        if i < n {
          assert init[i] == entries[i];
        }
      }
      if k in LookupOf(init, key, text) {
        var i :| 0 <= i < n && key(init[i]) == Some(k);
        assert entries[i] == init[i];
      }
    }
  }

  /** The value under a key is the text of the first entry with that key: later duplicates are ignored. */
  lemma {:induction false} LookupFirstWins<E>(entries: seq<E>, key: E -> Option<string>, text: E -> string, k: string, i: int)
    requires FirstWithKey(entries, key, k, i)
    ensures k in LookupOf(entries, key, text) && LookupOf(entries, key, text)[k] == text(entries[i])
  {
    var n := |entries| - 1;
    var init := entries[..n];
    if i < n {
      assert init[i] == entries[i];
      assert FirstWithKey(init, key, k, i) by {
        forall j | 0 <= j < i ensures key(init[j]) != Some(k) {
          assert init[j] == entries[j];
        }
      }
      LookupFirstWins(init, key, text, k, i);
    } else {
      LookupHasKey(init, key, text, k);
    }
  }

  /** Builds the dictionary with a loop over the list; a null list gives an empty dictionary. */
  method BuildLookup<E>(entries: Option<seq<E>>, key: E -> Option<string>, text: E -> string)
    returns (m: map<string, string>)
    ensures entries.None? ==> m == map[]
    ensures entries.Some? ==> m == LookupOf(entries.value, key, text)
  {
    m := map[];
    if entries.None? {
      return;
    }
    var list := entries.value;
    var i := 0;
    while i < |list|
      invariant 0 <= i <= |list|
      invariant m == LookupOf(list[..i], key, text)
    {
      assert list[..i + 1][..i] == list[..i];
      var k := key(list[i]);
      if k.Some? && k.value !in m {
        m := m[k.value := text(list[i])];
      }
      i := i + 1;
    }
    assert list[..i] == list;
  }

  /** A name is replaced only when its code is non-empty and found, trimmed, in the dictionary. */
  function Lookup(code: string, names: map<string, string>, current: string): (r: string)
    ensures code != "" && ToLower(Trim(code)) in names ==> r == names[ToLower(Trim(code))]
    ensures !(code != "" && ToLower(Trim(code)) in names) ==> r == current
  {
    if code != "" && ToLower(Trim(code)) in names then names[ToLower(Trim(code))] else current
  }

  /** One line item after resolution: codes, amounts and keys unchanged; names filled where found. */
  function ResolveLine(li: ApprovalLineItem, items: map<string, string>, locations: map<string, string>): (r: ApprovalLineItem)
    ensures r.(itemDesc := li.itemDesc, fromLocationName := li.fromLocationName, toLocationName := li.toLocationName) == li
    ensures r.itemDesc == Lookup(li.itemCode, items, li.itemDesc)
    ensures r.fromLocationName == Lookup(li.fromLocation, locations, li.fromLocationName)
    ensures r.toLocationName == Lookup(li.toLocation, locations, li.toLocationName)
  {
    li.(itemDesc := Lookup(li.itemCode, items, li.itemDesc),
        fromLocationName := Lookup(li.fromLocation, locations, li.fromLocationName),
        toLocationName := Lookup(li.toLocation, locations, li.toLocationName))
  }

  function ItemKey(i: SageItem): Option<string> { EntryKey(i.itemno) }
  function ItemText(i: SageItem): string { EntryText(i.desc) }
  function LocationKey(l: SageLocation): Option<string> { EntryKey(l.location) }
  function LocationText(l: SageLocation): string { EntryText(l.desc) }

  /** The item and location dictionaries as the two responses give them. */
  function ItemNames(items: SageItemResponse): map<string, string> {
    if items.entries.None? then map[] else LookupOf(items.entries.value, ItemKey, ItemText)
  }

  function LocationNames(locations: SageLocationResponse): map<string, string> {
    if locations.entries.None? then map[] else LookupOf(locations.entries.value, LocationKey, LocationText)
  }

  /** ResolveNamesFromSageApi: builds both dictionaries, then updates the line items in place. */
  method ResolveNames(lines: array<ApprovalLineItem>, items: SageItemResponse, locations: SageLocationResponse)
    modifies lines
    ensures forall i :: 0 <= i < lines.Length ==>
      lines[i] == ResolveLine(old(lines[i]), ItemNames(items), LocationNames(locations))
  {
    if lines.Length == 0 {
      return;
    }
    var itemLookup := BuildLookup(items.entries, ItemKey, ItemText);
    var locationLookup := BuildLookup(locations.entries, LocationKey, LocationText);
    ApplyNames(lines, itemLookup, locationLookup);
  }

  /** The loop over the line items that sets each found name. */
  method ApplyNames(lines: array<ApprovalLineItem>, items: map<string, string>, locations: map<string, string>)
    modifies lines
    ensures forall i :: 0 <= i < lines.Length ==> lines[i] == ResolveLine(old(lines[i]), items, locations)
  {
    var i := 0;
    while i < lines.Length
      invariant 0 <= i <= lines.Length
      invariant forall j :: 0 <= j < i ==> lines[j] == ResolveLine(old(lines[j]), items, locations)
      invariant forall j :: i <= j < lines.Length ==> lines[j] == old(lines[j])
    {
      lines[i] := ResolveLine(lines[i], items, locations);
      i := i + 1;
    }
  }

  /**
    * After resolution, a line whose item code matches a catalog entry carries the description
    * of the first entry with that code.
    */
  lemma ResolvedItemIsFirstMatch(li: ApprovalLineItem, catalog: seq<SageItem>, locations: SageLocationResponse, i: nat)
    requires li.itemCode != "" && FirstWithKey(catalog, ItemKey, ToLower(Trim(li.itemCode)), i)
    ensures ResolveLine(li, ItemNames(CatalogResponse(Some(catalog), 0, None)), LocationNames(locations)).itemDesc
      == EntryText(catalog[i].desc)
  {
    LookupFirstWins(catalog, ItemKey, ItemText, ToLower(Trim(li.itemCode)), i);
  }
}
