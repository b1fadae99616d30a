/**
  * The report's data: the Stock_Adjustment lines and approval rows it reads, the request
  * checks, who sees which document, and the per-document aggregates the documents query
  * computes, among them the next level waiting for a decision.
  */
module ReportQueries {
  import opened Wrappers
  import opened Seqs
  import opened Sorting
  import opened ApprovalStatusConstants

  /** One Stock_Adjustment line, with the creator's login name and department joined in. */
  datatype StockRecord = StockRecord(
    company: string, finYear: int, recType: int, recNumber: int, sno: int, date: int,
    createdId: int, createdBy: string, department: string,
    itemCode: string, fromLocation: string, toLocation: string, quantity: real, cost: Option<real>)

  /** One Stock_Adjustment_Approval row, with the approver's login name joined in. */
  datatype ApprovalRecord = ApprovalRecord(
    company: string, finYear: int, recType: int, recNumber: int, level: int, status: int,
    approverName: Option<string>, approvalDate: Option<int>, comments: Option<string>)

  /** The approval row belongs to the line's document. */
  predicate OfDocument(r: StockRecord, a: ApprovalRecord) {
    a.company == r.company && a.finYear == r.finYear && a.recType == r.recType && a.recNumber == r.recNumber
  }

  // ---------------------------------------------------------------- the request

  /** The session and the request as GetReportData reads them; dates arrive already parsed. */
  datatype ReportRequest = ReportRequest(
    userId: Option<int>, company: string, fromDate: Option<int>, toDate: Option<int>,
    isApprover: bool, approvalLevel: int)

  /** The date range of a request that passed the checks. */
  datatype DateRange = DateRange(from: int, to: int)

  const SessionExpired := "User session expired. Please login again."
  const InvalidDates := "Please provide valid From and To dates."
  const FromAfterTo := "From Date cannot be after To Date."

  /** The three checks made before any query, in their order. */
  function ValidateRequest(q: ReportRequest): (r: Result<DateRange, string>)
    ensures q.userId.None? ==> r == Failure(SessionExpired)
    ensures q.userId.Some? && (q.fromDate.None? || q.toDate.None?) ==> r == Failure(InvalidDates)
    ensures q.userId.Some? && q.fromDate.Some? && q.toDate.Some? && q.fromDate.value > q.toDate.value ==> r == Failure(FromAfterTo)
    ensures r.Success? <==> q.userId.Some? && q.fromDate.Some? && q.toDate.Some? && q.fromDate.value <= q.toDate.value
    ensures r.Success? ==> r.value == DateRange(q.fromDate.value, q.toDate.value)
  {
    if q.userId.None? then Failure(SessionExpired)
    else if q.fromDate.None? || q.toDate.None? then Failure(InvalidDates)
    else if q.fromDate.value > q.toDate.value then Failure(FromAfterTo)
    else Success(DateRange(q.fromDate.value, q.toDate.value))
  }

  /**
    * Who sees a line: an approver with a positive level sees a document that has an approval
    * row at or below that level; anybody else sees the documents they created.
    */
  predicate Visible(q: ReportRequest, r: StockRecord, approvals: seq<ApprovalRecord>)
    requires q.userId.Some?
  {
    if q.isApprover && q.approvalLevel > 0 then
      exists a :: a in approvals && OfDocument(r, a) && a.level <= q.approvalLevel
    else r.createdId == q.userId.value
  }

  /** The WHERE clause shared by the documents and line-items queries. */
  predicate Selected(q: ReportRequest, range: DateRange, r: StockRecord, approvals: seq<ApprovalRecord>)
    requires q.userId.Some?
  {
    (r.recType == 10 || r.recType == 12) && r.company == q.company &&
    range.from <= r.date <= range.to && Visible(q, r, approvals)
  }

  // ---------------------------------------------------------------- next pending level

  /**
    * A Pending row every lower level of which is Approved: the level that may be decided next.
    */
  predicate Eligible(rows: seq<ApprovalRecord>, a: ApprovalRecord) {
    a in rows && a.status == Pending && forall b :: b in rows && b.level < a.level ==> b.status == Approved
  }

  /** The lowest level among the eligible rows of candidates, if there is one. */
  function MinEligibleLevel(rows: seq<ApprovalRecord>, candidates: seq<ApprovalRecord>): (r: Option<int>)
    ensures r.Some? ==> exists a :: a in candidates && Eligible(rows, a) && a.level == r.value
    ensures r.Some? ==> forall a :: a in candidates && Eligible(rows, a) ==> r.value <= a.level
    ensures r.None? ==> forall a :: a in candidates ==> !Eligible(rows, a)
  {
    if candidates == [] then None
    else
      var head := candidates[0];
      assert forall a :: a in candidates <==> a == head || a in candidates[1..];
      var rest := MinEligibleLevel(rows, candidates[1..]);
      if !Eligible(rows, head) then rest
      else if rest.Some? && rest.value < head.level then rest
      else Some(head.level)
  }

  predicate AnyRejected(rows: seq<ApprovalRecord>) {
    exists a :: a in rows && a.status == Rejected
  }

  /**
    * The NextPendingLevel column of one document, given its approval rows: -1 once any level
    * is rejected, otherwise the lowest eligible level, otherwise 0.
    */
  function NextPendingLevel(rows: seq<ApprovalRecord>): (r: int)
    ensures AnyRejected(rows) ==> r == -1
    ensures !AnyRejected(rows) && r != 0 ==> exists a :: Eligible(rows, a) && a.level == r
    ensures !AnyRejected(rows) ==> forall a :: Eligible(rows, a) ==> r <= a.level
    ensures !AnyRejected(rows) && (forall a :: !Eligible(rows, a)) ==> r == 0
  {
    if AnyRejected(rows) then -1 else MinEligibleLevel(rows, rows).GetOr(0)
  }

  /** Levels numbered from 1 with known status codes, as the approval rows are created. */
  predicate WellFormed(rows: seq<ApprovalRecord>) {
    forall a :: a in rows ==> a.level >= 1 && a.status in {Pending, Approved, Rejected}
  }

  /** With levels from 1, the value -1 means exactly that some level rejected the document. */
  lemma NextPendingLevelRejected(rows: seq<ApprovalRecord>)
    ensures (forall a :: a in rows ==> a.level >= 1) ==>
      NextPendingLevel(rows) >= -1 && (NextPendingLevel(rows) == -1 <==> AnyRejected(rows))
  {
  }

  /**
    * On a well-formed document that no level rejected, the next pending level is the lowest
    * Pending level, and 0 means every level approved.
    */
  lemma {:induction false} NextPendingLevelIsLowestPending(rows: seq<ApprovalRecord>)
    requires WellFormed(rows) && !AnyRejected(rows)
    ensures NextPendingLevel(rows) == 0 <==> forall a :: a in rows ==> a.status == Approved
    ensures forall p :: p in rows && p.status == Pending ==> 1 <= NextPendingLevel(rows) <= p.level
    ensures NextPendingLevel(rows) != 0 ==> exists p :: p in rows && p.status == Pending && p.level == NextPendingLevel(rows)
  {
    if exists p :: p in rows && p.status == Pending {
      var low := LowestPending(rows);
      assert Eligible(rows, low);
    }
  }

  /** A Pending row of the lowest level among the Pending rows. */
  function LowestPending(rows: seq<ApprovalRecord>): (p: ApprovalRecord)
    requires exists a :: a in rows && a.status == Pending
    ensures p in rows && p.status == Pending
    ensures forall a :: a in rows && a.status == Pending ==> p.level <= a.level
  {
    var head := rows[0];
    assert forall a :: a in rows <==> a == head || a in rows[1..];
    if !exists a :: a in rows[1..] && a.status == Pending then head
    else
      var rest := LowestPending(rows[1..]);
      if head.status == Pending && head.level < rest.level then head else rest
  }

  // ---------------------------------------------------------------- the documents query

  /** The GROUP BY key of the documents query. */
  datatype DocumentKey = DocumentKey(
    finYear: int, recType: int, recNumber: int, date: int, createdBy: string, department: string)

  /** One row of the documents query. */
  datatype DocumentRow = DocumentRow(
    finYear: int, recType: int, recNumber: int, date: int, createdBy: string, department: string,
    totalLevels: nat, approvedCount: nat, rejectedCount: nat, nextPendingLevel: int)

  function KeyOf(r: StockRecord): DocumentKey {
    DocumentKey(r.finYear, r.recType, r.recNumber, r.date, r.createdBy, r.department)
  }

  /** The approval row belongs to the document with key k of the given company. */
  predicate BelongsTo(company: string, k: DocumentKey, a: ApprovalRecord) {
    a.company == company && a.finYear == k.finYear && a.recType == k.recType && a.recNumber == k.recNumber
  }

  predicate IsApproved(a: ApprovalRecord) { a.status == Approved }
  predicate IsRejected(a: ApprovalRecord) { a.status == Rejected }

  /** The approval rows of the document with key k of the given company, in table order. */
  function ApprovalsOf(company: string, k: DocumentKey, approvals: seq<ApprovalRecord>): (rows: seq<ApprovalRecord>)
    ensures forall a :: a in rows <==> a in approvals && BelongsTo(company, k, a)
  {
    Filter(approvals, a => BelongsTo(company, k, a))
  }

  /**
    * The aggregates of one document over its approval rows: COUNT(*) of them, the number
    * approved, the number rejected, and the next pending level.
    */
  function DocumentRowOf(company: string, k: DocumentKey, approvals: seq<ApprovalRecord>): (d: DocumentRow)
    ensures d.finYear == k.finYear && d.recType == k.recType && d.recNumber == k.recNumber && d.date == k.date
    ensures d.createdBy == k.createdBy && d.department == k.department
    ensures var rows := ApprovalsOf(company, k, approvals);
      && d.totalLevels == |rows|
      && d.approvedCount == Count(rows, IsApproved)
      && d.rejectedCount == Count(rows, IsRejected)
      && d.nextPendingLevel == NextPendingLevel(rows)
    ensures d.approvedCount + d.rejectedCount <= d.totalLevels
    ensures d.totalLevels > 0 <==> exists a :: a in approvals && BelongsTo(company, k, a)
    ensures (forall a :: a in approvals && BelongsTo(company, k, a) ==> a.level >= 1) ==>
      (d.nextPendingLevel == -1 <==> d.rejectedCount > 0)
  {
    var rows := ApprovalsOf(company, k, approvals);
    CountDisjoint(rows, IsApproved, IsRejected);
    NextPendingLevelRejected(rows);
    DocumentRow(k.finYear, k.recType, k.recNumber, k.date, k.createdBy, k.department,
      |rows|, Count(rows, IsApproved), Count(rows, IsRejected), NextPendingLevel(rows))
  }

  /** ORDER BY Stock_Date DESC, Stock_REC_Number DESC. */
  predicate NewestFirst(a: DocumentRow, b: DocumentRow) {
    a.date > b.date || (a.date == b.date && a.recNumber >= b.recNumber)
  }

  lemma NewestFirstIsTotalPreorder()
    ensures TotalPreorder(NewestFirst)
  {
  }

  /** The keys of the documents among the selected lines, each once. */
  function DocumentKeys(q: ReportRequest, range: DateRange, records: seq<StockRecord>, approvals: seq<ApprovalRecord>)
    : (keys: seq<DocumentKey>)
    requires q.userId.Some?
    ensures NoDuplicates(keys)
    ensures forall k :: k in keys <==> exists r :: r in records && Selected(q, range, r, approvals) && KeyOf(r) == k
  {
    var lines := Filter(records, r => Selected(q, range, r, approvals));
    var m := Map(lines, KeyOf);
    forall k ensures k in m <==> exists r :: r in records && Selected(q, range, r, approvals) && KeyOf(r) == k {
      if k in m {
        var j :| 0 <= j < |m| && m[j] == k;
        assert lines[j] in lines;
      } else {
        forall r | r in records && Selected(q, range, r, approvals) ensures KeyOf(r) != k {
          var j :| 0 <= j < |lines| && lines[j] == r;
          assert m[j] == KeyOf(r);
        }
      }
    }
    Distinct(m)
  }

  /** The documents query: one row per distinct document key among the selected lines, newest first. */
  function SelectDocuments(q: ReportRequest, range: DateRange, records: seq<StockRecord>, approvals: seq<ApprovalRecord>)
    : (docs: seq<DocumentRow>)
    requires q.userId.Some?
    ensures |docs| == |DocumentKeys(q, range, records, approvals)|
    ensures forall d :: d in docs <==>
      exists k :: k in DocumentKeys(q, range, records, approvals) && d == DocumentRowOf(q.company, k, approvals)
    ensures SortedBy(docs, NewestFirst)
  {
    var keys := DocumentKeys(q, range, records, approvals);
    var rows := Map(keys, k => DocumentRowOf(q.company, k, approvals));
    NewestFirstIsTotalPreorder();
    SortBySorted(rows, NewestFirst);
    forall d ensures d in SortBy(rows, NewestFirst) <==> exists k :: k in keys && d == DocumentRowOf(q.company, k, approvals) {
      SortByElements(rows, NewestFirst, d);
      if d in rows {
        var i :| 0 <= i < |rows| && rows[i] == d;
        assert keys[i] in keys;
      }
      if exists k :: k in keys && d == DocumentRowOf(q.company, k, approvals) {
        var k :| k in keys && d == DocumentRowOf(q.company, k, approvals);
        var i :| 0 <= i < |keys| && keys[i] == k;
        assert rows[i] == d;
      }
    }
    SortBy(rows, NewestFirst)
  }

  // ---------------------------------------------------------------- the levels and line-items queries

  /** One row of the levels query (ApprovalLevelInfo). */
  datatype LevelInfo = LevelInfo(
    finYear: int, recType: int, recNumber: int, level: int, statusCode: int, statusName: string,
    approverName: Option<string>, approvalDate: Option<int>, comments: Option<string>)

  /** One row of the line-items query (ApprovalLineItem); the three name columns start empty. */
  datatype ApprovalLineItem = ApprovalLineItem(
    finYear: int, recType: int, recNumber: int, sno: int,
    itemCode: string, itemDesc: string, fromLocation: string, fromLocationName: string,
    toLocation: string, toLocationName: string, quantity: real, cost: real, amount: real)

  /** SQL Server's RTRIM: drops trailing blanks (spaces only). */
  function RTrim(s: string): (r: string)
    ensures r <= s && (r == [] || r[|r| - 1] != ' ')
    ensures forall i :: |r| <= i < |s| ==> s[i] == ' '
  {
    if |s| > 0 && s[|s| - 1] == ' ' then RTrim(s[..|s| - 1]) else s
  }

  function ToLevelInfo(a: ApprovalRecord): LevelInfo {
    LevelInfo(a.finYear, a.recType, a.recNumber, a.level, a.status, GetStatusName(a.status),
      a.approverName, a.approvalDate, a.comments)
  }

  /** A line as the line-items query returns it: codes right-trimmed, a NULL cost read as 0. */
  function ToLineItem(r: StockRecord): (li: ApprovalLineItem)
    ensures li.amount == li.quantity * li.cost
    ensures r.cost.None? ==> li.cost == 0.0 && li.amount == 0.0
    ensures li.itemDesc == "" && li.fromLocationName == "" && li.toLocationName == ""
  {
    var cost := r.cost.GetOr(0.0);
    ApprovalLineItem(r.finYear, r.recType, r.recNumber, r.sno,
      RTrim(r.itemCode), "", RTrim(r.fromLocation), "", RTrim(r.toLocation), "", r.quantity, cost, r.quantity * cost)
  }

  /** The levels query: every approval row of the company for rec types 10 and 12. */
  function LevelsQuery(company: string, approvals: seq<ApprovalRecord>): (levels: seq<LevelInfo>)
    ensures forall l :: l in levels <==>
      exists a :: a in approvals && a.company == company && (a.recType == 10 || a.recType == 12) && l == ToLevelInfo(a)
  {
    var rows := Filter(approvals, (a: ApprovalRecord) => a.company == company && (a.recType == 10 || a.recType == 12));
    var levels := Map(rows, ToLevelInfo);
    forall l ensures l in levels <==> exists a :: a in rows && l == ToLevelInfo(a) {
      if l in levels {
        var i :| 0 <= i < |levels| && levels[i] == l;
        assert rows[i] in rows;
      }
      if exists a :: a in rows && l == ToLevelInfo(a) {
        var a :| a in rows && l == ToLevelInfo(a);
        var i :| 0 <= i < |rows| && rows[i] == a;
        assert levels[i] == l;
      }
    }
    levels
  }

  /** The line-items query: the selected lines, in the order the table gives them. */
  function LineItemsQuery(q: ReportRequest, range: DateRange, records: seq<StockRecord>, approvals: seq<ApprovalRecord>)
    : (items: seq<ApprovalLineItem>)
    requires q.userId.Some?
    ensures forall li :: li in items ==> exists r :: r in records && Selected(q, range, r, approvals) && li == ToLineItem(r)
    ensures forall r :: r in records && Selected(q, range, r, approvals) ==> ToLineItem(r) in items
  {
    var lines := Filter(records, r => Selected(q, range, r, approvals));
    var items := Map(lines, ToLineItem);
    forall li | li in items ensures exists r :: r in records && Selected(q, range, r, approvals) && li == ToLineItem(r) {
      var i :| 0 <= i < |items| && items[i] == li;
      assert lines[i] in lines;
    }
    forall r | r in records && Selected(q, range, r, approvals) ensures ToLineItem(r) in items {
      var i :| 0 <= i < |lines| && lines[i] == r;
      assert items[i] == ToLineItem(r);
    }
    items
  }
}
