/**
  * SearchItems and SearchLocations: the choices offered by the item and location pickers. Each
  * catalog entry becomes an id (its trimmed code) and a text "{id} - {description}"; a non-blank
  * term keeps the choices whose id or text contains it, ignoring case; the choices come back
  * ordered by text.
  */
module CatalogSearch {
  import opened Wrappers
  import opened Text
  import opened Seqs
  import opened Sorting
  import opened SageModels

  /** One picker choice; the id is null when the catalog entry has no code. */
  datatype Choice = Choice(id: Option<string>, text: string)

  datatype SearchReply = SearchFailed(message: string) | SearchResults(results: seq<Choice>)

  const ItemsUnavailable: string := "Failed to load items from Sage API"
  const LocationsUnavailable: string := "Failed to load locations from Sage API"
  /** The message of the NullReferenceException thrown by ToLower on a null id. */
  const NullReference: string := "Object reference not set to an instance of an object."

  /** s?.Trim() */
  function TrimOrNull(s: Option<string>): Option<string> {
    match s
    case Some(v) => Some(Trim(v))
    case None => None
  }

  /** "{code} - {desc}", where a null part prints as nothing. */
  function ChoiceOf(code: Option<string>, desc: Option<string>): (c: Choice)
    ensures c.id == TrimOrNull(code)
    ensures c.text == TrimOrNull(code).GetOr("") + " - " + TrimOrNull(desc).GetOr("")
  {
    Choice(TrimOrNull(code), TrimOrNull(code).GetOr("") + " - " + TrimOrNull(desc).GetOr(""))
  }

  function ItemChoice(i: SageItem): Choice {
    ChoiceOf(i.itemno, i.desc)
  }

  function LocationChoice(l: SageLocation): Choice {
    ChoiceOf(l.location, l.desc)
  }

  /** OrderBy(c => c.text), comparing ordinally. */
  predicate ByText(a: Choice, b: Choice) {
    OrdinalLe(a.text, b.text)
  }

  /** The Where clause: the lower-cased id or text contains the (already lower-cased, trimmed) term. */
  predicate Matches(c: Choice, term: string) {
    c.id.Some? && (Contains(ToLower(c.id.value), term) || Contains(ToLower(c.text), term))
  }

  /**
    * The filter and the ordering shared by both actions. With a non-blank term every choice's id
    * is lowered, which throws on a null id.
    */
  function Search(choices: seq<Choice>, term: string): (reply: SearchReply)
    ensures reply.SearchFailed? <==> !IsBlank(term) && exists c :: c in choices && c.id.None?
    ensures reply.SearchFailed? ==> reply.message == NullReference
  {
    if IsBlank(term) then SearchResults(SortBy(choices, ByText))
    else if exists c :: c in choices && c.id.None? then SearchFailed(NullReference)
    else
      var t := ToLower(Trim(term));
      SearchResults(SortBy(Filter(choices, (c: Choice) => Matches(c, t)), ByText))
  }

  /** SearchItems over the items response (None: a null response). */
  function SearchItems(response: Option<SageItemResponse>, term: string): (reply: SearchReply)
  {
    if response.None? || response.value.entries.None? || response.value.entries.value == [] then
      var errors := if response.Some? then response.value.errors else None;
      SearchFailed(if errors.Some? && errors.value != [] then Join("; ", errors.value) else ItemsUnavailable)
    else
      Search(Map(Filter(response.value.entries.value, IsActive), ItemChoice), term)
  }

  /** SearchLocations: an empty list is a success, only a null one fails. */
  function SearchLocations(response: Option<SageLocationResponse>, term: string): (reply: SearchReply)
  {
    if response.None? || response.value.entries.None? then SearchFailed(LocationsUnavailable)
    else Search(Map(response.value.entries.value, LocationChoice), term)
  }

  // ---------------------------------------------------------------- properties

  /** The results are ordered by text. */
  lemma SearchSorted(choices: seq<Choice>, term: string)
    requires Search(choices, term).SearchResults?
    ensures SortedBy(Search(choices, term).results, ByText)
  {
    ByTextIsTotalPreorder();
    var t := ToLower(Trim(term));
    if IsBlank(term) {
      SortBySorted(choices, ByText);
    } else {
      SortBySorted(Filter(choices, (c: Choice) => Matches(c, t)), ByText);
    }
  }

  lemma ByTextIsTotalPreorder()
    ensures TotalPreorder(ByText)
  {
    forall a, b ensures ByText(a, b) || ByText(b, a) {
      OrdinalLeTotal(a.text, b.text);
    }
    forall a, b, c | ByText(a, b) && ByText(b, c) ensures ByText(a, c) {
      OrdinalLeTransitive(a.text, b.text, c.text);
    }
  }

  /**
    * A blank term returns every choice, reordered only; otherwise exactly the choices that match
    * the trimmed, lower-cased term.
    */
  lemma SearchContents(choices: seq<Choice>, term: string, c: Choice)
    requires Search(choices, term).SearchResults?
    ensures IsBlank(term) ==> multiset(Search(choices, term).results) == multiset(choices)
    ensures c in Search(choices, term).results <==>
      c in choices && (IsBlank(term) || Matches(c, ToLower(Trim(term))))
  {
    var t := ToLower(Trim(term));
    if IsBlank(term) {
      SortByElements(choices, ByText, c);
    } else {
      SortByElements(Filter(choices, (c: Choice) => Matches(c, t)), ByText, c);
    }
  }

  /** A search term only narrows the results that a blank term gives. */
  lemma TermNarrows(choices: seq<Choice>, term: string, c: Choice)
    requires Search(choices, term).SearchResults?
    ensures c in Search(choices, term).results ==> c in Search(choices, "").results
  {
    SearchContents(choices, term, c);
    SearchContents(choices, "", c);
  }

  /**
    * SearchItems answers the joined API errors, or the fixed message when there are none, when
    * there is no item list or it is empty; with a list it can only fail on a null code under a
    * non-blank term.
    */
  lemma SearchItemsUnavailable(response: Option<SageItemResponse>, term: string)
    ensures var list := if response.Some? then response.value.entries else None;
      var errors := if response.Some? then response.value.errors else None;
      var reply := SearchItems(response, term);
      && ((list.None? || list.value == []) ==>
            reply == SearchFailed(if errors.Some? && errors.value != [] then Join("; ", errors.value) else ItemsUnavailable))
      && (list.Some? && list.value != [] && reply.SearchFailed? ==>
            reply.message == NullReference && !IsBlank(term) &&
            exists i :: i in list.value && IsActive(i) && i.itemno.None?)
  {
    var list := if response.Some? then response.value.entries else None;
    if list.Some? && list.value != [] && SearchItems(response, term).SearchFailed? {
      var active := Filter(list.value, IsActive);
      var choices := Map(active, ItemChoice);
      var c :| c in choices && c.id.None?;
      MapMembers(active, ItemChoice, c);
    }
  }

  /** Otherwise SearchItems offers the active items only, filtered by the term. */
  lemma SearchItemsResults(response: Option<SageItemResponse>, term: string, c: Choice)
    requires SearchItems(response, term).SearchResults?
    ensures c in SearchItems(response, term).results <==>
      exists i :: i in response.value.entries.value && IsActive(i) && c == ItemChoice(i) &&
        (IsBlank(term) || Matches(c, ToLower(Trim(term))))
  {
    var active := Filter(response.value.entries.value, IsActive);
    var choices := Map(active, ItemChoice);
    assert SearchItems(response, term) == Search(choices, term);
    SearchContents(choices, term, c);
    MapMembers(active, ItemChoice, c);
  }

  /** SearchLocations fails only on a null list; every location is offered, active or not. */
  lemma SearchLocationsResults(response: Option<SageLocationResponse>, term: string, c: Choice)
    requires SearchLocations(response, term).SearchResults?
    ensures c in SearchLocations(response, term).results <==>
      exists l :: l in response.value.entries.value && c == LocationChoice(l) &&
        (IsBlank(term) || Matches(c, ToLower(Trim(term))))
  {
    var choices := Map(response.value.entries.value, LocationChoice);
    assert SearchLocations(response, term) == Search(choices, term);
    SearchContents(choices, term, c);
    MapMembers(response.value.entries.value, LocationChoice, c);
  }

  /** SearchLocations gives the fixed failure exactly on a null response or list. */
  lemma SearchLocationsUnavailable(response: Option<SageLocationResponse>, term: string)
    ensures SearchLocations(response, term) == SearchFailed(LocationsUnavailable) <==>
      response.None? || response.value.entries.None?
  {
    assert NullReference != LocationsUnavailable;
  }
}
