/**
  * ReportsController.GetReportData: the checks, the three queries, the name resolution and the
  * merge, glued together. Rows are in-memory tables; the Sage lists arrive as parameters.
  */
module ReportsController {
  import opened Wrappers
  import opened SageModels
  import opened ReportQueries
  import opened ReportNames
  import opened ReportMerge

  /** The JSON the action returns: success with data, or failure with a message. */
  datatype ReportReply = ReportFailure(message: string) | ReportData(rows: seq<ReportRow>)

  /** The line items after ResolveNamesFromSageApi. */
  function ResolvedItems(lines: seq<ApprovalLineItem>, items: SageItemResponse, locations: SageLocationResponse)
    : (r: seq<ApprovalLineItem>)
    ensures |r| == |lines|
    ensures forall i :: 0 <= i < |r| ==> r[i] == ResolveLine(lines[i], ItemNames(items), LocationNames(locations))
  {
    seq(|lines|, i requires 0 <= i < |lines| => ResolveLine(lines[i], ItemNames(items), LocationNames(locations)))
  }

  /** What the report action answers for a request over the given tables and Sage lists. */
  function Report(q: ReportRequest, records: seq<StockRecord>, approvals: seq<ApprovalRecord>,
                  items: SageItemResponse, locations: SageLocationResponse): (reply: ReportReply)
    ensures ValidateRequest(q).Failure? <==> reply.ReportFailure?
    ensures ValidateRequest(q).Failure? ==> reply.message == ValidateRequest(q).error
    ensures ValidateRequest(q).Success? ==>
      var range := ValidateRequest(q).value;
      var docs := SelectDocuments(q, range, records, approvals);
      reply == ReportData(
        if |docs| == 0 then []
        else MergeReport(q.company, docs, LevelsQuery(q.company, approvals),
          ResolvedItems(LineItemsQuery(q, range, records, approvals), items, locations)))
  {
    match ValidateRequest(q)
    case Failure(message) => ReportFailure(message)
    case Success(range) =>
      var docs := SelectDocuments(q, range, records, approvals);
      if |docs| == 0 then ReportData([])
      else
        var levels := LevelsQuery(q.company, approvals);
        var lines := ResolvedItems(LineItemsQuery(q, range, records, approvals), items, locations);
        ReportData(MergeReport(q.company, docs, levels, lines))
  }

  /** GetReportData: the line items are resolved in place, in an array, before the merge. */
  method GetReportData(q: ReportRequest, records: seq<StockRecord>, approvals: seq<ApprovalRecord>,
                       items: SageItemResponse, locations: SageLocationResponse)
    returns (reply: ReportReply)
    ensures reply == Report(q, records, approvals, items, locations)
  {
    var checked := ValidateRequest(q);
    if checked.Failure? {
      return ReportFailure(checked.error);
    }
    var range := checked.value;
    var docs := SelectDocuments(q, range, records, approvals);
    if |docs| == 0 {
      return ReportData([]);
    }
    var levels := LevelsQuery(q.company, approvals);
    var lines := LineItemsQuery(q, range, records, approvals);
    var lineItems := new ApprovalLineItem[|lines|](i requires 0 <= i < |lines| => lines[i]);
    ResolveNames(lineItems, items, locations);
    assert lineItems[..] == ResolvedItems(lines, items, locations);
    reply := ReportData(MergeReport(q.company, docs, levels, lineItems[..]));
  }

  /** Every row of a report stands for a fin year and record number of some line the user may see. */
  lemma ReportRowsAreSelected(q: ReportRequest, records: seq<StockRecord>, approvals: seq<ApprovalRecord>,
                              items: SageItemResponse, locations: SageLocationResponse)
    ensures var reply := Report(q, records, approvals, items, locations);
      reply.ReportData? ==>
        q.userId.Some? &&
        forall row :: row in reply.rows ==>
          exists r ::
            r in records && Selected(q, ValidateRequest(q).value, r, approvals) &&
            r.finYear == row.finYear && r.recNumber == row.recNumber
  {
    var reply := Report(q, records, approvals, items, locations);
    if reply.ReportData? {
      var range := ValidateRequest(q).value;
      var docs := SelectDocuments(q, range, records, approvals);
      if |docs| > 0 {
        var levels := LevelsQuery(q.company, approvals);
        var lines := ResolvedItems(LineItemsQuery(q, range, records, approvals), items, locations);
        forall row | row in reply.rows
          ensures exists r ::
            r in records && Selected(q, range, r, approvals) &&
            r.finYear == row.finYear && r.recNumber == row.recNumber
        {
          MergedRowSelected(q, range, records, approvals, levels, lines, row);
        }
      }
    }
  }

  /** A merged row carries the fin year and record number of a selected line. */
  lemma MergedRowSelected(q: ReportRequest, range: DateRange, records: seq<StockRecord>, approvals: seq<ApprovalRecord>,
                          levels: seq<LevelInfo>, lines: seq<ApprovalLineItem>, row: ReportRow)
    requires q.userId.Some?
    requires row in MergeReport(q.company, SelectDocuments(q, range, records, approvals), levels, lines)
    ensures exists r ::
      r in records && Selected(q, range, r, approvals) &&
      r.finYear == row.finYear && r.recNumber == row.recNumber
  {
    var docs := SelectDocuments(q, range, records, approvals);
    MergedRowKey(q.company, docs, levels, lines, row);
    var d :| d in docs && GroupOf(d) == RowKey(row);
    var k :| k in DocumentKeys(q, range, records, approvals) && d == DocumentRowOf(q.company, k, approvals);
    var r :| r in records && Selected(q, range, r, approvals) && KeyOf(r) == k;
  }

  /** A merged row carries the fin year and record number of one of the documents merged. */
  lemma MergedRowKey(company: string, docs: seq<DocumentRow>, levels: seq<LevelInfo>, lines: seq<ApprovalLineItem>,
                     row: ReportRow)
    requires row in MergeReport(company, docs, levels, lines)
    ensures exists d :: d in docs && GroupOf(d) == RowKey(row)
  {
    var rows := MergeReport(company, docs, levels, lines);
    var i :| 0 <= i < |rows| && rows[i] == row;
    assert GroupKeys(docs)[i] in GroupKeys(docs);
  }
}
