# AO Smith stock adjustment: a Dafny model of the core

This project models the core of the AO Smith stock-adjustment web application in Dafny 4.11 and proves
properties about it. In that application a user prepares a stock decrease (type 10) or stock increase
(type 12) document in the browser, choosing items and locations from lists that come from the Sage 300
web API, and saves it through a stored procedure. A stock decrease is sent to Sage straight away as an
inventory transfer. A stock increase waits for multi-level approval and is then sent to Sage as an
adjustment. Mails go to the approvers along the way, and a report lists the documents with their
approval levels.

One Dafny module per concern:

| module | file | what it models |
|---|---|---|
| `Wrappers`, `Text`, `Seqs`, `Sorting` | wrappers.dfy, text.dfy, seqs.dfy, sorting.dfy | Option/Result, .NET string operations (Trim, ToLower, int parse), sequence helpers, the sort behind LINQ `OrderBy` and SQL `ORDER BY` |
| `SageModels` | sage_models.dfy | the item and location records of the Sage API |
| `ApprovalStatusConstants` | approval_status.dfy | the status codes and their names |
| `DbReturnResult` | db_return_result.dfy | the stored-procedure result and its `IsSuccess` |
| `ApprovalController` | approval_controller.dfy | the pending list and the approve/reject action, over a ledger of approval rows |
| `ReportQueries`, `ReportNames`, `ReportMerge`, `ReportsController` | report_*.dfy, reports_controller.dfy | the approval report: its three queries, the name resolution through Sage and the grouping into report rows |
| `CatalogSearch` | catalog_search.dfy | the item and location search actions |
| `ExcelImport` | excel_import.dfy | validation of an uploaded spreadsheet |
| `ResultMessage`, `SaveAdjustment` | result_message.dfy, save_adjustment.dfy | saving a document: grouping by type, renumbering, reading the stored procedure's message, the follow-up mail and transfer |
| `SageRequests`, `SageResponses`, `SageCache` | sage_*.dfy | the request bodies sent to Sage, how a Sage answer or failure becomes a response, and the per-company cache |
| `EmailNotices` | email_notices.dfy | who is mailed at each step of the approval chain and the item table of the mail |
| `StockGrid` | stock_grid.dfy | the browser page: the item grid, the item form, file uploads, review and the rate summary |

Databases, HTTP, JSON, SMTP and the browser DOM are not modelled as such. Their answers are parameters of
the operations: the rows a query returns, the answer of the stored procedure, the outcome of an HTTP
exchange, the parse of a decimal, the cell texts of a sheet. Writes become new values of the modelled
state, such as the ledger map, the cache maps, the page's fields, or a log of the calls made.

Where the design description and the code disagree, the model follows the code:

- Approving or rejecting a level is one unconditional UPDATE (ApprovalController.cs:127-149). Nothing
  checks that the lower levels are approved or that the row is still pending. No Sage call or
  compensation follows. `ApprovalController.DecisionIgnoresChainOrder` exhibits both facts. The UPDATE does not
  filter by company, so the ledger is keyed without it.
- The pending list encodes a row as `level*1000000 + finYear*10000 + recType*1000 + recNumber`, and the
  approve action decodes it with `/` and `%` (ApprovalController.cs:70 and 116-121). Type 12 does not fit
  the three digits that the decoder gives it. The id of every type-12 row (and the list shows only type 12)
  decodes to a different key, so the decision is written to another row, or to none.
  `ApprovalController.RecTypeTwelveMisdecodes`, `ApprovalController.RecTypeTwelveNeverRoundTrips` and
  `ApprovalController.PendingIdMissesItsRow` state this.
- Some call sites do not match the signatures they call:
  - StockAdjustmentController.cs:716-717 calls `SendTransferEntryAsync` with four arguments, while
    SageApiService.cs:109-115 declares six.
  - The controller calls `GetItemsAsync()` and `GetLocationsAsync()` with no company, while
    SageApiService.cs:344 and 390 take one.

  The model calls the declared operations with the company and financial year as parameters.
- `SageTransferEntryResponse` declares no `Errors` property, yet SageApiService.cs:150-156 and 166 assign
  one. `SageAdjustmentItem` has no location or transaction-type field, yet the adjustment request builder
  sets them. The model keeps what the service code does: an error list on the response, and a location and
  type on each adjustment line.
- The timeout texts say 60 seconds (SageApiService.cs:167 and 285), while the client timeout is 120
  seconds (line 53). `SageResponses.TimeoutTextDisagrees` records this.
- The page derives the destination of a line from the type: for a decrease it is the default location,
  and for any other type it is the line's own location (StockAdjustment.js:539-556). The import does the
  opposite: for an increase it is the line's own location, and for any other type it is the default
  (StockAdjustmentController.cs:494-513). The two agree for types 10 and 12 only.
  `StockGrid.PageAndImportLocations` states this.

## Model

| member | source | states |
|---|---|---|
| ApprovalStatusConstants.GetStatusName | AOSmith/Models/ApprovalStatusConstants.cs:8-25 | each of the codes 1, 2, 3 maps to its own name, and exactly the other codes map to "Unknown" |
| ApprovalStatusConstants.StatusNamesDistinct | AOSmith/Models/ApprovalStatusConstants.cs:12-25 | the three status names are distinct and none is "Unknown", so the name identifies the code |
| DbReturnResult.IsSuccessNeedsBoth | AOSmith/Helpers/DbReturnResult.cs:10 | a null result type or a non-positive result value is never success |
| DbReturnResult.IsSuccessIgnoresCase | AOSmith/Helpers/DbReturnResult.cs:10 | for any spelling of "success" in any letter case, success holds exactly when the value is positive |
| DbReturnResult.SuccessSpellings | AOSmith/Helpers/DbReturnResult.cs:10 | "success", "Success" and "SUCCESS" succeed with a positive value; "failure" does not |
| ApprovalController.CsDivModNonNegative | AOSmith/Controllers/ApprovalController.cs:116-121 | the C# truncating division and remainder used by the decoder agree with Euclidean ones on non-negative ids |
| ApprovalController.DecodeId | AOSmith/Controllers/ApprovalController.cs:116-121 | re-encoding the decoded fields gives the id back; for a non-negative id each field lies within its digit range |
| ApprovalController.DecodeEncodeId | AOSmith/Controllers/ApprovalController.cs:70 | decoding an encoded key gives the key back exactly when its fields fit their digit ranges |
| ApprovalController.RecTypeTwelveMisdecodes | AOSmith/Controllers/ApprovalController.cs:70 | a type-12 key with a two-digit financial year and a three-digit number decodes to financial year + 1 and type 2 |
| ApprovalController.RecTypeTwelveNeverRoundTrips | AOSmith/Controllers/ApprovalController.cs:70 | whatever its other fields, a type-12 key never decodes back to itself: the decoded type lies strictly between -10 and 10 |
| ApprovalController.ActionStatus | AOSmith/Controllers/ApprovalController.cs:123-125 | the new status is Approved exactly when the action is "approve" in any letter case, otherwise Rejected |
| ApprovalController.ActionStatusExamples | AOSmith/Controllers/ApprovalController.cs:123-125 | "approve", "Approve" and "APPROVE" approve; "reject", "" and "approved" reject |
| ApprovalController.ApplyDecision | AOSmith/Controllers/ApprovalController.cs:127-149 | the update touches only the addressed row, which gets the new status, approver, date and comments; the set of rows is unchanged |
| ApprovalController.DecisionIgnoresChainOrder | AOSmith/Controllers/ApprovalController.cs:127-149 | level 2 can be approved while level 1 is pending, and an already approved row can be rejected |
| ApprovalController.DecisionMessage | AOSmith/Controllers/ApprovalController.cs:152-154 | the reply names the decision that was written |
| ApprovalController.DocumentLabel | AOSmith/Controllers/ApprovalController.cs:57-61 | types 10 and 12 get STDL and STIN, every other type UNKNOWN |
| ApprovalController.ApprovalLedger.constructor | AOSmith/Controllers/ApprovalController.cs:24-27 | the controller works on the approval rows of the database it is given |
| ApprovalController.ApprovalLedger.GetPendingApprovals | AOSmith/Controllers/ApprovalController.cs:37-99 | a non-approver is refused; otherwise an entry is in the list exactly when it is built from a document line and a pending type-12 approval row of the same document, with the packed id, the STIN reference and the Pending status name |
| ApprovalController.PendingEntries | AOSmith/Controllers/ApprovalController.cs:50-82 | an entry is in the join exactly when it is built from a document line and a pending type-12 approval row of the same document |
| ApprovalController.PendingEntryFields | AOSmith/Controllers/ApprovalController.cs:50-82 | every entry of the join is a pending type-12 row of the ledger, with the packed id, the STIN reference and the Pending status name |
| ApprovalController.ApprovalLedger.ProcessApproval | AOSmith/Controllers/ApprovalController.cs:102-162 | the refusal, null action and database error paths leave the ledger unchanged; otherwise the decoded row gets the decision and the reply confirms it |
| ApprovalController.PendingIdMissesItsRow | AOSmith/Controllers/ApprovalController.cs:70-161 | for any financial year, number and level, acting on a listed type-12 id never changes that listed row |
| ReportQueries.ValidateRequest | AOSmith/Controllers/ReportsController.cs:40-55 | no session, a missing date, and a start after the end are refused with their messages; otherwise the range is the two dates |
| ReportQueries.MinEligibleLevel | AOSmith/Controllers/ReportsController.cs:116-140 | the result is the lowest level among the eligible candidates, or none when no candidate is eligible |
| ReportQueries.NextPendingLevel | AOSmith/Controllers/ReportsController.cs:116-140 | -1 when a level is rejected, otherwise the lowest eligible pending level, or 0 when none is eligible |
| ReportQueries.NextPendingLevelRejected | AOSmith/Controllers/ReportsController.cs:116-140 | with levels from 1, the value is -1 exactly when some level is rejected |
| ReportQueries.NextPendingLevelIsLowestPending | AOSmith/Controllers/ReportsController.cs:116-140 | without rejection: 0 exactly when all levels are approved, otherwise the lowest pending level |
| ReportQueries.LowestPending | AOSmith/Controllers/ReportsController.cs:116-140 | the chosen row is pending and no pending row has a lower level |
| ReportQueries.ApprovalsOf | AOSmith/Controllers/ReportsController.cs:99-115 | the joined approval rows are exactly those of the document and company |
| ReportQueries.DocumentRowOf | AOSmith/Controllers/ReportsController.cs:99-140 | the row carries the document's key columns; the level count is the number of its approval rows, the approved and rejected counts count those statuses among them, and the next level is NextPendingLevel of them; the counts never exceed the levels, a document has levels exactly when approval rows belong to it, and -1 marks exactly the rejected ones |
| ReportQueries.NewestFirstIsTotalPreorder | AOSmith/Controllers/ReportsController.cs:152 | the report's ORDER BY is a total preorder, so sorting by it is well defined |
| ReportQueries.DocumentKeys | AOSmith/Controllers/ReportsController.cs:89-152 | one key per distinct selected document, with no duplicates |
| ReportQueries.SelectDocuments | AOSmith/Controllers/ReportsController.cs:89-152 | exactly one row per selected document, sorted newest first |
| ReportQueries.RTrim | AOSmith/Controllers/ReportsController.cs:191-195 | the result is a prefix without a trailing space, and only spaces were removed |
| ReportQueries.ToLineItem | AOSmith/Controllers/ReportsController.cs:185-208 | the amount is quantity times cost, a null cost counts as 0, and the names start empty |
| ReportQueries.LevelsQuery | AOSmith/Controllers/ReportsController.cs:162-182 | exactly the company's approval rows of types 10 and 12 |
| ReportQueries.LineItemsQuery | AOSmith/Controllers/ReportsController.cs:185-208 | exactly the line items of the selected documents |
| ReportNames.LookupOf | AOSmith/Controllers/ReportsController.cs:308-332 | every key of the lookup is the code of some catalog entry |
| ReportNames.LookupHasKey | AOSmith/Controllers/ReportsController.cs:308-332 | a code is in the lookup exactly when some entry carries it |
| ReportNames.LookupFirstWins | AOSmith/Controllers/ReportsController.cs:308-332 | for a duplicated code the lookup keeps the first entry's text |
| ReportNames.BuildLookup | AOSmith/Controllers/ReportsController.cs:308-332 | a null list gives an empty lookup, otherwise the lookup of the list |
| ReportNames.Lookup | AOSmith/Controllers/ReportsController.cs:334-348 | a known trimmed, case-folded code gets the catalog text; otherwise the current value stays |
| ReportNames.ResolveLine | AOSmith/Controllers/ReportsController.cs:334-348 | only the item description and the two location names change, each by lookup |
| ReportNames.ResolveNames | AOSmith/Controllers/ReportsController.cs:295-354 | every line of the array is replaced by its resolved line |
| ReportNames.ApplyNames | AOSmith/Controllers/ReportsController.cs:334-348 | the loop resolves every line in place |
| ReportNames.ResolvedItemIsFirstMatch | AOSmith/Controllers/ReportsController.cs:308-348 | a line's item description is the text of the first catalog entry with its code |
| ReportMerge.GroupKeys | AOSmith/Controllers/ReportsController.cs:215 | one key per distinct (financial year, number) group, with no duplicates |
| ReportMerge.GroupMembers | AOSmith/Controllers/ReportsController.cs:215 | a group holds exactly the documents with its key |
| ReportMerge.MergeNextPending | AOSmith/Controllers/ReportsController.cs:227-235 | -1 if any part is rejected, otherwise the least positive level, otherwise 0 |
| ReportMerge.RecTypesOf | AOSmith/Controllers/ReportsController.cs:219 | the distinct types of the group in ascending order |
| ReportMerge.LevelsOf | AOSmith/Controllers/ReportsController.cs:253-263 | exactly the approval levels of the first document's own rec type, ordered by level |
| ReportMerge.LevelsOfOne | AOSmith/Controllers/ReportsController.cs:253-263 | a single recorded level is shown for the document it belongs to and for no other |
| ReportMerge.LineTypeName | AOSmith/Controllers/ReportsController.cs:269 | "Decrease" exactly for type 10, "Increase" otherwise |
| ReportMerge.LineItemsOf | AOSmith/Controllers/ReportsController.cs:264-280 | exactly the group's line items, ordered by type and then line number |
| ReportMerge.GroupMax | AOSmith/Controllers/ReportsController.cs:222-224 | the maximum over the group, attained by one of its documents |
| ReportMerge.GroupNextPending | AOSmith/Controllers/ReportsController.cs:227-235 | the merged next level is -1 iff some part is rejected, else the least positive level of any part, else 0 |
| ReportMerge.LevelsFollowFirstDocument | AOSmith/Controllers/ReportsController.cs:216-253 | a merged row's levels are those of the group's first document: swapping the type-10 and type-12 documents of one group changes the levels shown |
| ReportMerge.MergeGroup | AOSmith/Controllers/ReportsController.cs:214-282 | a report row takes its header from the group's first document, its counts as maxima, and its reference, types, levels and lines from the group |
| ReportMerge.MergeReport | AOSmith/Controllers/ReportsController.cs:214-282 | one report row per group key, in key order, each the merge of its non-empty group |
| ReportMerge.RowsFollowKeys | AOSmith/Controllers/ReportsController.cs:214-282 | rows that follow the keys are unique per group and cover every document |
| ReportMerge.MergeReportOneRowPerGroup | AOSmith/Controllers/ReportsController.cs:214-282 | the report has no two rows for one group and a row for every selected document |
| ReportsController.ResolvedItems | AOSmith/Controllers/ReportsController.cs:211 | the line items after name resolution, line by line |
| ReportsController.Report | AOSmith/Controllers/ReportsController.cs:33-290 | with queries that answer, the report fails exactly when the request is invalid, with the validation message; otherwise its rows are empty without documents and else the merge of the selected documents with the levels and the name-resolved line items |
| ReportsController.GetReportData | AOSmith/Controllers/ReportsController.cs:33-290 | the action answers with the report specified above |
| ReportsController.ReportRowsAreSelected | AOSmith/Controllers/ReportsController.cs:89-282 | every report row stems from a stock record that passed the user, date and type filter |
| ReportsController.MergedRowSelected | AOSmith/Controllers/ReportsController.cs:213-282 | each row merged from the selected documents carries the fin year and record number of a record that passed the filter |
| ReportsController.MergedRowKey | AOSmith/Controllers/ReportsController.cs:213-216 | every merged row is keyed by the fin year and record number of one of the documents grouped |
| CatalogSearch.ChoiceOf | AOSmith/Controllers/StockAdjustmentController.cs:104-108 | the id is the trimmed code and the text is "code - description", with null parts shown empty |
| CatalogSearch.Search | AOSmith/Controllers/StockAdjustmentController.cs:110-119 | a non-blank term over a list with a null code fails with the null-reference message, and nothing else fails |
| CatalogSearch.SearchSorted | AOSmith/Controllers/StockAdjustmentController.cs:119 | the results are sorted by text |
| CatalogSearch.ByTextIsTotalPreorder | AOSmith/Controllers/StockAdjustmentController.cs:119 | the text order is a total preorder |
| CatalogSearch.SearchContents | AOSmith/Controllers/StockAdjustmentController.cs:110-119 | a blank term gives a permutation of all choices; otherwise exactly the choices whose id or text contains the term |
| CatalogSearch.TermNarrows | AOSmith/Controllers/StockAdjustmentController.cs:110-119 | a term never adds results beyond those of the blank search |
| CatalogSearch.SearchItemsUnavailable | AOSmith/Controllers/StockAdjustmentController.cs:93-100 | an empty or null list answers with the joined errors or the fixed message; other failures are the null code case |
| CatalogSearch.SearchItemsResults | AOSmith/Controllers/StockAdjustmentController.cs:89-125 | the results are exactly the active items matching the term |
| CatalogSearch.SearchLocationsResults | AOSmith/Controllers/StockAdjustmentController.cs:131-163 | the results are exactly the locations matching the term, inactive ones included |
| CatalogSearch.SearchLocationsUnavailable | AOSmith/Controllers/StockAdjustmentController.cs:135-139 | the fixed failure exactly when the list is null; an empty list is a successful empty answer |
| ExcelImport.FirstMatch | AOSmith/Controllers/StockAdjustmentController.cs:367-373 | the first entry whose code matches ignoring case, or none when no entry matches |
| ExcelImport.ActiveItems | AOSmith/Controllers/StockAdjustmentController.cs:367-370 | exactly the items not marked inactive |
| ExcelImport.ParseRecType | AOSmith/Controllers/StockAdjustmentController.cs:418-435 | an accepted type is a known type from a non-blank cell |
| ExcelImport.FieldError | AOSmith/Controllers/StockAdjustmentController.cs:418-488 | no error exactly for a non-blank valid cell; an error names its row, column and cell, with the required or the invalid message |
| ExcelImport.ParseQuantity | AOSmith/Controllers/StockAdjustmentController.cs:479-488 | a quantity is accepted exactly when the cell parses to a positive decimal |
| ExcelImport.RowErrors | AOSmith/Controllers/StockAdjustmentController.cs:418-488 | a row has no errors exactly when type, item, location and quantity are all present and valid |
| ExcelImport.RowErrorsColumns | AOSmith/Controllers/StockAdjustmentController.cs:418-488 | a row has an error in column A, B, C or D exactly when that cell is blank or fails its test: an unknown rec type, an item or location not in Sage, a quantity that is not a positive number |
| ExcelImport.RowErrorsMessages | AOSmith/Controllers/StockAdjustmentController.cs:418-488 | every error names its row and its cell (column letter and row number), and says "required" for a blank cell and the column's invalid-value text otherwise |
| ExcelImport.RowErrorsShape | AOSmith/Controllers/StockAdjustmentController.cs:418-488 | a row's errors come in column order, at most one per column, all for that row |
| ExcelImport.DeriveImportLocations | AOSmith/Controllers/StockAdjustmentController.cs:494-513 | an increase moves within its location; any other type goes from the location to the default location, named from the catalog when known |
| ExcelImport.AcceptedRow | AOSmith/Controllers/StockAdjustmentController.cs:494-529 | an accepted row carries a known type, the parsed positive quantity, the first matching item's cost and the derived locations |
| ExcelImport.RowErrorsEmptyAnyRow | AOSmith/Controllers/StockAdjustmentController.cs:418-488 | whether a row is valid does not depend on its row number |
| ExcelImport.CheckRow | AOSmith/Controllers/StockAdjustmentController.cs:405-529 | an accepted row has a known type and a positive quantity |
| ExcelImport.CheckRowCases | AOSmith/Controllers/StockAdjustmentController.cs:405-529 | a row is skipped exactly when its four cells are blank, rejected with its errors, or accepted exactly when it has none |
| ExcelImport.SheetRows | AOSmith/Controllers/StockAdjustmentController.cs:397-531 | the header row never yields an imported row |
| ExcelImport.ValidateRows | AOSmith/Controllers/StockAdjustmentController.cs:397-531 | the loop collects exactly the sheet's errors and accepted rows |
| ExcelImport.SheetRowsFromRows | AOSmith/Controllers/StockAdjustmentController.cs:397-531 | every imported row is the accepted outcome of some data row |
| ExcelImport.Extension | AOSmith/Controllers/StockAdjustmentController.cs:345-349 | the extension is empty or a dot and at least one character, and it ends the name |
| ExcelImport.LoadedContext | AOSmith/Controllers/StockAdjustmentController.cs:352-364 | the rows are checked against the active items only, the locations (none for a null list) and the trimmed default location |
| ExcelImport.ImportResult | AOSmith/Controllers/StockAdjustmentController.cs:335-562 | no file and a wrong extension are refused first; an unreadable workbook, a missing sheet and a sheet without data rows fail with their messages; otherwise the reply is the sheet outcome of the errors and accepted rows of all data rows; an import has rows and a rejection has errors |
| ExcelImport.SheetOutcome | AOSmith/Controllers/StockAdjustmentController.cs:534-556 | any error rejects with the error count, no rows fails, otherwise the rows are imported with their count |
| ExcelImport.ImportExcel | AOSmith/Controllers/StockAdjustmentController.cs:335-562 | the action answers with the import result specified above |
| ExcelImport.NoSeparatorInNumber | AOSmith/Controllers/StockAdjustmentController.cs:425-426 | the separator never occurs inside the type number |
| ExcelImport.DropdownValueAccepted | AOSmith/Controllers/StockAdjustmentController.cs:418-435 | a type written as "number - name", as the template's dropdown offers it, parses back to that type |
| ResultMessage.DocRefAt | AOSmith/Controllers/StockAdjustmentController.cs:783-784 | a match starts at its position, and its number is a run of digits after "dddddd/letters/" |
| ResultMessage.DocRefAtShape | AOSmith/Controllers/StockAdjustmentController.cs:783-784 | a match has six digits and a slash, and its digit run is maximal |
| ResultMessage.FirstDocRefIsLeftmost | AOSmith/Controllers/StockAdjustmentController.cs:783-784 | the reference found is the leftmost match |
| ResultMessage.ExtractRecNumber | AOSmith/Controllers/StockAdjustmentController.cs:778-799 | an empty message gives 0, and the number is never negative |
| ResultMessage.RecNumberFallback | AOSmith/Controllers/StockAdjustmentController.cs:791-797 | without a reference whose number int.TryParse accepts, the number is the leftmost maximal digit run when it fits an Int32, and 0 otherwise |
| ResultMessage.RecNumberNoDigits | AOSmith/Controllers/StockAdjustmentController.cs:778-799 | a message with no digit at all gives 0 |
| ResultMessage.FirstNumber | AOSmith/Controllers/StockAdjustmentController.cs:792-793 | the fallback's number is the maximal digit run at the first digit, present exactly when its value fits in an Int32, and absent when the message has no digit |
| ResultMessage.LeadingFinYear | AOSmith/Controllers/StockAdjustmentController.cs:792-793 | in a message opening with six digits and a slash, the fallback's number is the value of those six digits |
| ResultMessage.FinYearFallback | AOSmith/Controllers/StockAdjustmentController.cs:778-799 | a message opening with six digits and a slash and without a usable reference gives the value of those six digits |
| ResultMessage.FirstReferenceNumber | AOSmith/Controllers/StockAdjustmentController.cs:783-789 | in a message whose first reference follows text without digits, the number read from the reference is int.TryParse of its third group |
| ResultMessage.NumberAtMatch | AOSmith/Controllers/StockAdjustmentController.cs:783-789 | the number read from a message is int.TryParse of the third group of its first reference |
| ResultMessage.OverflowingNumberGivesFinYear | AOSmith/Controllers/StockAdjustmentController.cs:778-799 | when a leading reference's number exceeds Int32, the record number read is the six-digit financial year in front of it |
| ResultMessage.ParseDigits | AOSmith/Controllers/StockAdjustmentController.cs:786 | a digit run parses exactly when its value fits in an Int32, to that value |
| ResultMessage.ExtractDocumentReference | AOSmith/Controllers/StockAdjustmentController.cs:801-815 | an empty message gives ""; any other result is the leftmost reference match |
| ResultMessage.ExtractFinYear | AOSmith/Controllers/StockAdjustmentController.cs:703-707 | the financial year is the value of the six digits of the leftmost "dddddd/" in the message, and 0 when there is none |
| ResultMessage.FirstFinYear | AOSmith/Controllers/StockAdjustmentController.cs:704-706 | the result is the leftmost position where six digits and a slash start, and none exactly when there is no such position |
| ResultMessage.ReferenceMatch | AOSmith/Controllers/StockAdjustmentController.cs:783-784 | a formatted reference in a message without earlier digits is the match found |
| ResultMessage.ExtractRoundTrip | AOSmith/Controllers/StockAdjustmentController.cs:778-815 | from a message holding a formatted reference, the number and the reference read back exactly |
| ResultMessage.ReferenceNumber | AOSmith/Controllers/StockAdjustmentController.cs:786-789 | the number of a matched reference is its record number |
| ResultMessage.ParseNatToString | AOSmith/Controllers/StockAdjustmentController.cs:786 | printing and parsing an Int32 number is the identity |
| ResultMessage.ExtractFromReference | AOSmith/Controllers/StockAdjustmentController.cs:786-789 | when a reference matches, its number is the result and the fallback is not used |
| SaveAdjustment.GroupKeys | AOSmith/Controllers/StockAdjustmentController.cs:629 | one key per distinct type among the items, with no duplicates |
| SaveAdjustment.Group | AOSmith/Controllers/StockAdjustmentController.cs:629 | a group holds exactly the items of its type |
| SaveAdjustment.RenumberedNumbering | AOSmith/Controllers/StockAdjustmentController.cs:642-645 | the lines are numbered 1, 2, … and nothing else changes |
| SaveAdjustment.Renumber | AOSmith/Controllers/StockAdjustmentController.cs:642-645 | the loop renumbers the array in place |
| SaveAdjustment.ReadMessage | AOSmith/Controllers/StockAdjustmentController.cs:697-707 | the number is never negative, the year has at most six digits, and a null message reads as 0, "" and 0 |
| SaveAdjustment.GroupStepFields | AOSmith/Controllers/StockAdjustmentController.cs:652-734 | each group makes one insert call and counts as a success exactly when the result value is 1; only a saved decrease adds a transfer, of its own lines |
| SaveAdjustment.Summary | AOSmith/Controllers/StockAdjustmentController.cs:739-765 | the reply fails exactly when some group failed |
| SaveAdjustment.SaveStockAdjustment | AOSmith/Controllers/StockAdjustmentController.cs:598-776 | the action answers and acts as the save specification below, collecting one sageResults entry per transfer with Sage's answer to it |
| SaveAdjustment.SaveGroupsStep | AOSmith/Controllers/StockAdjustmentController.cs:629-736 | saving one more group extends the log by that group's step |
| SaveAdjustment.SaveGroupsShape | AOSmith/Controllers/StockAdjustmentController.cs:629-736 | one insert per group, in key order and renumbered; no error exactly when every result value is 1 |
| SaveAdjustment.TransfersAreDecrease | AOSmith/Controllers/StockAdjustmentController.cs:713-729 | every transfer sent is of type 10 and carries the renumbered decrease lines |
| SaveAdjustment.TransferIffSavedDecrease | AOSmith/Controllers/StockAdjustmentController.cs:713-729 | a transfer is sent exactly when the decrease group was saved |
| SaveAdjustment.AtMostOneTransfer | AOSmith/Controllers/StockAdjustmentController.cs:713-729 | at most one transfer is sent per save |
| SaveAdjustment.GroupsPartitionItems | AOSmith/Controllers/StockAdjustmentController.cs:629 | every item lies in exactly one group, that of its type |
| SaveAdjustment.SaveRefusals | AOSmith/Controllers/StockAdjustmentController.cs:606-623 | a blank body, a parse error and an empty list are refused without any call, with their messages |
| SaveAdjustment.SaveSageResults | AOSmith/Controllers/StockAdjustmentController.cs:713-729 | the reply's sageResults is empty unless the decrease group was saved, and then holds one entry: the transfer's document with the status, message and raw texts of Sage's answer to that transfer |
| SaveAdjustment.SageResultsAppend | AOSmith/Controllers/StockAdjustmentController.cs:719-728 | each transfer sent appends one entry, built from it and its answer, to the sageResults list |
| SaveAdjustment.SaveCounts | AOSmith/Controllers/StockAdjustmentController.cs:626-765 | one insert per type under the session user or 1; saved exactly when every group succeeded, with the counts |
| SageRequests.DocNum | AOSmith/Services/SageApiService.cs:207 | the document number is prefix, company and padded number, in that order |
| SageRequests.TransferPrefix | AOSmith/Services/SageApiService.cs:199 | a reversal uses the reversal prefix, every other type the transfer prefix |
| SageRequests.HeaderLabel | AOSmith/Services/SageApiService.cs:198 | INCREASE for 12, REVERSAL for the reversal type, DECREASE otherwise |
| SageRequests.TransferItemOf | AOSmith/Services/SageApiService.cs:214-222 | a transfer line carries the trimmed codes, the quantity and the comment naming the destination |
| SageRequests.BuildRequest | AOSmith/Services/SageApiService.cs:184-226 | the request's number, reference, header, type, credentials and lines are those of the document |
| SageRequests.AdjustmentItemOf | AOSmith/Services/SageApiService.cs:324-333 | an increase line adjusts in at its destination, any other line transfers out of its source; the cost is cost × quantity |
| SageRequests.BuildAdjustmentRequest | AOSmith/Services/SageApiService.cs:302-337 | the request's number, reference, header, credentials and lines are those of the document |
| SageRequests.PadNumberValue | AOSmith/Services/SageApiService.cs:207 | the padded number is at least six digits and reads back as the number |
| SageRequests.PadNumberWidth | AOSmith/Services/SageApiService.cs:207 | numbers below a million pad to exactly six digits |
| SageRequests.PadNumberNoTruncation | AOSmith/Services/SageApiService.cs:207 | larger numbers are not truncated |
| SageRequests.DocNumReadsBack | AOSmith/Services/SageApiService.cs:207 | the last six characters of the document number read back as the number |
| SageRequests.DocNumInjective | AOSmith/Services/SageApiService.cs:207 | different numbers give different document numbers |
| SageRequests.ReferenceFields | AOSmith/Services/SageApiService.cs:200 | the reference splits at "/" into year, company, name and number, which parse back |
| SageRequests.DefaultsApply | AOSmith/Services/SageApiService.cs:78-105 | with no settings the prefixes are SAGE, REV and ADJ and the type name is UNK |
| SageRequests.TransferItemsFollowLines | AOSmith/Services/SageApiService.cs:214-222 | the transfer has one line per document line, with its quantity and trimmed item code |
| SageRequests.ExtCostsAddUp | AOSmith/Services/SageApiService.cs:324-333 | the adjustment's line costs add up to the document's value |
| SageRequests.AdjustmentTotal | AOSmith/Services/SageApiService.cs:302-337 | the request's total cost is the document's value |
| SageRequests.IncreaseDocumentItems | AOSmith/Services/SageApiService.cs:324-333 | every line of an increase document adjusts in at its destination |
| SageResponses.Caught | AOSmith/Services/SageApiService.cs:160-181 | a timeout and any other exception give an error response with one error, the payload and the fixed or connection text |
| SageResponses.SendEntry | AOSmith/Services/SageApiService.cs:117-181 | the shared send path answers with the outcome specified for its exchange |
| SageResponses.SendTransferEntry | AOSmith/Services/SageApiService.cs:109-182 | the transfer answer is the outcome of posting the transfer payload |
| SageResponses.SendAdjustmentEntry | AOSmith/Services/SageApiService.cs:230-300 | the adjustment answer is the outcome of posting the adjustment payload |
| SageResponses.RawAlwaysAttached | AOSmith/Services/SageApiService.cs:133-181 | every answer carries the raw request and a raw response; an answered call carries the body |
| SageResponses.FailuresFolded | AOSmith/Services/SageApiService.cs:61-76 | missing credentials, a failed call or a null body give an error with one message, the timeout message only for a timeout |
| SageResponses.UnparseableBody | AOSmith/Services/SageApiService.cs:133-156 | an unparseable body becomes the message; the status is Success and no error exactly for a success code |
| SageResponses.ParsedBodyKept | AOSmith/Services/SageApiService.cs:133-156 | a parsed body's fields are kept, and the HTTP error is added only when the call failed without errors |
| SageResponses.FailedStatusHasErrors | AOSmith/Services/SageApiService.cs:150-156 | a failed status code always yields an error list |
| SageResponses.TimeoutTextDisagrees | AOSmith/Services/SageApiService.cs:53-167 | the timeout text does not state the configured timeout |
| SageCache.FetchResultStorable | AOSmith/Services/SageApiService.cs:364-384 | only a fetched list with entries is kept; a null answer or exception gives an empty list with status -1 |
| SageCache.SameCompanySameKey | AOSmith/Services/SageApiService.cs:40 | names that differ only in case share one cache entry |
| SageCache.SageMasterDataCache.constructor | AOSmith/Services/SageApiService.cs:40 | the cache starts empty |
| SageCache.SageMasterDataCache.GetItems | AOSmith/Services/SageApiService.cs:344-385 | a hit answers from the cache without a fetch; a miss fetches and keeps only a list with entries; locations are untouched |
| SageCache.SageMasterDataCache.GetLocations | AOSmith/Services/SageApiService.cs:390-431 | the same for locations; items are untouched |
| SageCache.SageMasterDataCache.ClearCache | AOSmith/Services/SageApiService.cs:494-498 | both maps are empty afterwards |
| SageCache.ItemsTwice | AOSmith/Services/SageApiService.cs:344-372 | once kept, asking again under any spelling returns the same list without a fetch |
| EmailNotices.RecTypeName | AOSmith/Services/EmailService.cs:207 | 10 and 12 get their names, every other type "Stock Adjustment" |
| EmailNotices.ApproversAtLevel | AOSmith/Services/EmailService.cs:57-66 | exactly the active approvers of the level |
| EmailNotices.LocationCell | AOSmith/Services/EmailService.cs:473-476 | the source or else the destination location, then " - " and the source name when it is not blank, else the destination name when that is not blank, else nothing |
| EmailNotices.Rows | AOSmith/Services/EmailService.cs:466-488 | one table row per line item |
| EmailNotices.BuildItemTable | AOSmith/Services/EmailService.cs:450-499 | the loop builds the item table specified for the lines |
| EmailNotices.Dispatch | AOSmith/Services/EmailService.cs:221-230 | the loop mails the recipients as specified |
| EmailNotices.DeliveriesStep | AOSmith/Services/EmailService.cs:221-230 | one more recipient adds one mail exactly when that recipient has an address |
| EmailNotices.SendNotices | AOSmith/Services/EmailService.cs:196-230 | no mail without configuration or recipients; otherwise the deliveries |
| EmailNotices.SendRecordCreated | AOSmith/Services/EmailService.cs:189-239 | the level-1 approvers are notified under the "New … Pending Approval" subject |
| EmailNotices.SendApprovalToNextLevel | AOSmith/Services/EmailService.cs:244-290 | the next level's approvers are notified under the "Approved at L…" subject |
| EmailNotices.SendRejection | AOSmith/Services/EmailService.cs:295-361 | the lower levels and the creator are notified under the "Rejected at L…" subject |
| EmailNotices.FullyApprovedMails | AOSmith/Services/EmailService.cs:366-405 | one mail, to the creator, exactly when configured and the creator has an address |
| EmailNotices.DeliveriesFacts | AOSmith/Services/EmailService.cs:221-230 | one mail per recipient with an address, each to a recipient's address with the subject and table |
| EmailNotices.RecipientMailed | AOSmith/Services/EmailService.cs:221-230 | every recipient with an address is mailed |
| EmailNotices.NextLevelRecipients | AOSmith/Services/EmailService.cs:244-290 | every mail of the next-level notice goes to an active approver of that level |
| EmailNotices.RejectionRecipientsShape | AOSmith/Services/EmailService.cs:306-321 | the lower-level approvers come first and exactly they; the creator is added at most once and is always covered |
| EmailNotices.RejectionDistinct | AOSmith/Services/EmailService.cs:306-321 | with distinct logins no user appears twice among the recipients |
| EmailNotices.RowsNumberedAndShaded | AOSmith/Services/EmailService.cs:466-486 | row k is numbered k+1, shaded by parity, and shows its line's quantity and cost |
| EmailNotices.TotalCostNonNegative | AOSmith/Services/EmailService.cs:477-494 | non-negative lines give a non-negative total |
| StockGrid.DisplayText | AOSmith/Scripts/StockAdjustment.js:142-147 | empty for no code; the text of a cached location with that code, or the code itself |
| StockGrid.Refusal | AOSmith/Scripts/StockAdjustment.js:524-535 | the form is accepted exactly when a non-zero type, an item and a location are chosen |
| StockGrid.DeriveLocations | AOSmith/Scripts/StockAdjustment.js:539-556 | a decrease moves to the default location; any other type stays at its location |
| StockGrid.PageAndImportLocations | AOSmith/Scripts/StockAdjustment.js:539-556 | the page and the import agree for types 10 and 12 and disagree on the destination of any other type |
| StockGrid.SpliceStart | AOSmith/Scripts/StockAdjustment.js:660 | the start index `splice` uses, counting a negative index from the end |
| StockGrid.RemoveAt | AOSmith/Scripts/StockAdjustment.js:660 | an index in range removes exactly that element; an index past the end removes nothing |
| StockGrid.RemoveAtPermutation | AOSmith/Scripts/StockAdjustment.js:660 | the removed element plus the rest is the old grid |
| StockGrid.ImportedNumbering | AOSmith/Scripts/StockAdjustment.js:922-942 | imported lines are numbered consecutively from the counter, carry their row's fields and clash with no existing number |
| StockGrid.FileMapEffects | AOSmith/Scripts/StockAdjustment.js:272-279 | storing a file satisfies its input, and clearing one makes it missing again if it is required |
| StockGrid.RateTotalAppend | AOSmith/Scripts/StockAdjustment.js:634-645 | a new line adds its amount to its type's total only |
| StockGrid.RateTotalRemove | AOSmith/Scripts/StockAdjustment.js:634-645 | deleting a line removes its amount from its type's total only |
| StockGrid.StockAdjustmentPage.constructor | AOSmith/Scripts/StockAdjustment.js:7-18 | the page starts with an empty grid, counter 1 and no files |
| StockGrid.StockAdjustmentPage.SaveItem | AOSmith/Scripts/StockAdjustment.js:504-589 | a refused form changes nothing; an edit replaces its line; an add appends and advances the counter; line numbers stay below the counter |
| StockGrid.StockAdjustmentPage.DeleteItem | AOSmith/Scripts/StockAdjustment.js:657-664 | a confirmed delete removes the line at the index, and nothing else changes |
| StockGrid.StockAdjustmentPage.ImportRows | AOSmith/Scripts/StockAdjustment.js:919-943 | the imported rows are appended with consecutive numbers, and the counter advances past them |
| StockGrid.StockAdjustmentPage.HandleFileUpload | AOSmith/Scripts/StockAdjustment.js:257-275 | no file and a file over the limit change nothing; otherwise the file is stored for its input |
| StockGrid.StockAdjustmentPage.ClearFile | AOSmith/Scripts/StockAdjustment.js:278-283 | the input's file is forgotten, and nothing else changes |
| StockGrid.StockAdjustmentPage.ReviewData | AOSmith/Scripts/StockAdjustment.js:286-312 | refused for an empty grid or with the missing labels; shown exactly when the grid is not empty and every required input has a file |
| StockGrid.StockAdjustmentPage.UpdateRateSummary | AOSmith/Scripts/StockAdjustment.js:629-649 | the two totals are the amounts of the increase and decrease lines |
| StockGrid.MissingStep | AOSmith/Scripts/StockAdjustment.js:294-304 | one more input adds its label exactly when it is required and has no file |
| StockGrid.NoneMissing | AOSmith/Scripts/StockAdjustment.js:293-309 | no label is missing exactly when every required input has a file |

## Left out

- Database, HTTP, JSON, SMTP, browser DOM and AJAX calls. Their answers are parameters, and their writes
  are the modelled state or call logs.
- The email log file, `Log` and its timestamps (EmailService.cs:31-42). The mail HTML beyond the subject
  and the item table. The SMTP client settings and the swallowed send failure (EmailService.cs:515-547).
- Dates and clocks. The transaction date and `DateTime.Now` are opaque values, or are not modelled.
- Culture-sensitive string ordering. `OrderBy` on strings is modelled as ordinal order on ASCII text.
- Unicode. `Trim`, `ToLower` and regex classes are modelled on ASCII characters.
- Floating point and decimal rounding. Amounts are exact reals, and the `N2` and `toFixed` formatting is
  not modelled.
- The `transferNumber` field of a Sage answer, which nothing reads.
- The cache switch of the Sage service, which is modelled as always on.
- Locks and concurrent requests.
- `SearchItemAsync` and `GetICStockAsync` of the Sage service, which the core does not call.
- `EmailService.ResolveNamesAsync`. The mail's line items arrive with their names resolved.
- Exception traces (`ex.ToString()`), which are an opaque parameter.
- Exceptions thrown by the mail queries.
- The ORDER BY of the levels query, which is modelled as an insertion sort by level. Rows of equal level
  keep the order that sort gives them.
- The order of documents that tie on the ORDER BY Stock_Date DESC, Stock_REC_Number DESC of the documents
  query (ReportsController.cs:152), such as the type-10 and type-12 documents of one record. SQL leaves it
  open, and it decides `g.First()` (ReportsController.cs:216) and so the levels shown
  (ReportsController.cs:253). The model fixes one order by sorting the table order;
  `ReportMerge.LevelsFollowFirstDocument` shows that the choice matters.
- The order of approvers of equal level in GetApproversUpToLevelAsync (EmailService.cs:77). SQL leaves it
  open, and the model takes the table order.
- ApprovalController.ApprovalLedger.GetPendingApprovals: the result is a set. The ORDER BY Stock_Adj_Date
  DESC, Stock_Adj_REC_Number DESC of the list (ApprovalController.cs:83) is not modelled, and two equal
  entries of the list are one element of the set.
- ApprovalController.ApprovalLedger.GetPendingApprovals: the failure reply of a query that throws
  (ApprovalController.cs:94-97) is not modelled.
- SaveAdjustment.SaveStockAdjustment: null strings in a deserialised line are modelled as "". The code
  trims codes when it builds the table parameter (StockAdjustmentController.cs:817-840), and the model
  passes the lines unchanged.
- SaveAdjustment.SaveStockAdjustment: exceptions from the stored procedure are not modelled. A null
  success message is "".
- SaveAdjustment.SaveStockAdjustment: the stored procedure's answers are a parameter with one answer per
  group. Sage's answer to a transfer is a parameter too, a function of the transfer sent; the save
  copies its status, message and raw texts (`SageResponses.AnswerOf`).
- ReportsController.Report: the failure reply of a query that throws, with the exception's message
  (ReportsController.cs:286-289), is not modelled. The same holds for ReportsController.GetReportData.
- Approval status names. The queries read them from Approval_Status_Master through an INNER JOIN
  (ApprovalController.cs:69 and 80, ReportsController.cs:169 and 175). The model takes
  `ApprovalStatusConstants.GetStatusName`, so it assumes the master table holds those names for every
  status code in use.
- SQL integer overflow and duplicate keys in `ToDictionary`.
- `GetItemDetails`, `GetItemCost`, `GetDefaultLocation`, `ExportTemplate` and the page's dropdown loaders.
  They only read the master data, and the modelled operations receive that data as parameters.
- Page behaviour left out:
  - the browser's form validity check (StockAdjustment.js:507-510);
  - the stock-on-hand lookup;
  - a cost field left empty, which counts as 0;
  - a quantity that does not parse (NaN);
  - the MB figure in the size warning.
- The loaders of the page (`loadMasterDataFromApi`, `loadDefaultAppLocation`). Their results are the
  constructor's arguments.
- `submitStockAdjustment` and the review modal's rendering.
- The import's error and failure branches on the page. Only the successful import (`ImportRows`) is
  modelled.
- StockGrid.StockAdjustmentPage.SaveItem: requires an edit index below the grid length. The page only
  edits existing lines; in JavaScript a larger index would create a sparse array, which is not modelled.
