/** The records the Sage 300 web API returns for the item and location master data. */
module SageModels {
  import opened Wrappers

  /** An ICITEM entry; the code and description may be null in the JSON. */
  datatype SageItem = SageItem(itemno: Option<string>, desc: Option<string>, stdcost: real, inactive: bool)

  /** Items marked inactive in Sage are not offered for new documents. */
  predicate IsActive(i: SageItem) {
    !i.inactive
  }

  /** An ICLOCATION entry. */
  datatype SageLocation = SageLocation(location: Option<string>, desc: Option<string>)

  /**
    * The shape shared by SageItemResponse and SageLocationResponse: the entry list (icitems or
    * locations, possibly null), the status and the error list (possibly null).
    */
  datatype CatalogResponse<E> = CatalogResponse(entries: Option<seq<E>>, status: int, errors: Option<seq<string>>)

  type SageItemResponse = CatalogResponse<SageItem>
  type SageLocationResponse = CatalogResponse<SageLocation>
}
