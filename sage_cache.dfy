/**
  * The per-company cache of the Sage item and location lists (GetItemsAsync, GetLocationsAsync,
  * ClearCache). A hit answers without calling Sage; only a fetched list with entries is kept.
  * Company names are compared ignoring case, so the model keys the maps by the lower-cased name.
  */
module SageCache {
  import opened Wrappers
  import opened Text
  import opened SageModels

  /** What the try block of a fetch came to: the deserialised answer (None: null), or an exception's Message. */
  datatype Fetch<E> = Fetched(result: Option<CatalogResponse<E>>) | FetchFailed(message: string)

  const ItemsFetchFailed: string := "Failed to fetch items: "
  const LocationsFetchFailed: string := "Failed to fetch locations: "

  /** The key a company's entry is stored under. */
  function CompanyKey(company: string): string {
    ToLower(company)
  }

  /** Worth keeping: a non-null list with at least one entry. */
  predicate Storable<E>(r: CatalogResponse<E>) {
    r.entries.Some? && |r.entries.value| > 0
  }

  /** The response a fetch gives: a null answer becomes an empty list with status -1, an exception the same with one error. */
  function FetchResult<E>(fetch: Fetch<E>, failurePrefix: string): CatalogResponse<E> {
    match fetch
    case Fetched(Some(response)) => response
    case Fetched(None) => CatalogResponse(Some([]), -1, None)
    case FetchFailed(message) => CatalogResponse(Some([]), -1, Some([failurePrefix + message]))
  }

  /**
    * Failures are never kept: a null answer or an exception gives an empty list with status -1,
    * and only an exception carries an error. Only a fetched answer with entries is kept.
    */
  lemma FetchResultStorable<E>(fetch: Fetch<E>, failurePrefix: string)
    ensures var r := FetchResult(fetch, failurePrefix);
      (Storable(r) <==> fetch.Fetched? && fetch.result.Some? && Storable(fetch.result.value)) &&
      (!(fetch.Fetched? && fetch.result.Some?) ==> r.status == -1 && r.entries == Some([])) &&
      (fetch.FetchFailed? ==> r.errors == Some([failurePrefix + fetch.message])) &&
      (fetch == Fetched(None) ==> r.errors.None?)
  {
  }

  /** Names differing only in case share one entry. */
  lemma SameCompanySameKey(a: string, b: string)
    requires EqualsIgnoreCase(a, b)
    ensures CompanyKey(a) == CompanyKey(b)
  {
  }

  class SageMasterDataCache {
    var items: map<string, SageItemResponse>
    var locations: map<string, SageLocationResponse>

    /** Every kept response has entries. */
    ghost predicate Valid()
      reads this
    {
      (forall k :: k in items ==> Storable(items[k])) && (forall k :: k in locations ==> Storable(locations[k]))
    }

    constructor()
      ensures items == map[] && locations == map[] && Valid()
    {
      items := map[];
      locations := map[];
    }

    /** GetItemsAsync; fetched says whether Sage was called. */
    method GetItems(company: string, fetch: Fetch<SageItem>) returns (r: SageItemResponse, fetched: bool)
      requires Valid()
      modifies this
      ensures Valid() && locations == old(locations)
      ensures CompanyKey(company) in old(items) ==> !fetched && r == old(items)[CompanyKey(company)] && items == old(items)
      ensures CompanyKey(company) !in old(items) ==>
        fetched && r == FetchResult(fetch, ItemsFetchFailed) &&
        items == (if Storable(r) then old(items)[CompanyKey(company) := r] else old(items))
    {
      var key := CompanyKey(company);
      if key in items {
        return items[key], false;
      }
      fetched := true;
      if fetch.FetchFailed? {
        // the catch block answers without touching the cache
        return FetchResult(fetch, ItemsFetchFailed), fetched;
      }
      r := fetch.result.GetOr(CatalogResponse(Some([]), -1, None));
      if r.entries.Some? && |r.entries.value| > 0 {
        items := items[key := r];
      }
    }

    /** GetLocationsAsync, the same for the location list. */
    method GetLocations(company: string, fetch: Fetch<SageLocation>) returns (r: SageLocationResponse, fetched: bool)
      requires Valid()
      modifies this
      ensures Valid() && items == old(items)
      ensures CompanyKey(company) in old(locations) ==> !fetched && r == old(locations)[CompanyKey(company)] && locations == old(locations)
      ensures CompanyKey(company) !in old(locations) ==>
        fetched && r == FetchResult(fetch, LocationsFetchFailed) &&
        locations == (if Storable(r) then old(locations)[CompanyKey(company) := r] else old(locations))
    {
      var key := CompanyKey(company);
      if key in locations {
        return locations[key], false;
      }
      fetched := true;
      if fetch.FetchFailed? {
        // the catch block answers without touching the cache
        return FetchResult(fetch, LocationsFetchFailed), fetched;
      }
      r := fetch.result.GetOr(CatalogResponse(Some([]), -1, None));
      if r.entries.Some? && |r.entries.value| > 0 {
        locations := locations[key := r];
      }
    }

    /** ClearCache: both maps emptied, for every company. */
    method ClearCache()
      modifies this
      ensures items == map[] && locations == map[] && Valid()
    {
      items := map[];
      locations := map[];
    }
  }

  /**
    * Once a company's items are kept, asking again under any spelling of its name returns the same
    * response without calling Sage.
    */
  method ItemsTwice(cache: SageMasterDataCache, company: string, again: string, first: Fetch<SageItem>, second: Fetch<SageItem>)
    returns (r1: SageItemResponse, r2: SageItemResponse, fetched2: bool)
    requires cache.Valid() && EqualsIgnoreCase(company, again)
    modifies cache
    ensures Storable(r1) ==> r2 == r1 && !fetched2
  {
    var fetched1;
    r1, fetched1 := cache.GetItems(company, first);
    r2, fetched2 := cache.GetItems(again, second);
  }
}
