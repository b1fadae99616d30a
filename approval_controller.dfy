/**
  * The approval screen's server side: the packed integer id that addresses one approval row,
  * the pending-approvals list, and ProcessApproval, which overwrites one row of the approval
  * ledger (the Stock_Adjustment_Approval table).
  */
module ApprovalController {
  import opened Wrappers
  import opened Text
  import opened ApprovalStatusConstants

  // ---------------------------------------------------------------- C# integer division

  /** C#'s int division: the quotient is truncated toward zero. */
  function CsDiv(a: int, b: int): (q: int)
    requires b > 0
    ensures a >= 0 ==> 0 <= b * q <= a < b * q + b
    ensures a < 0 ==> b * q - b < a <= b * q <= 0
  {
    var n := if a >= 0 then a else -a;
    var m := n / b;
    assert 0 <= b * m <= n < b * m + b by {
      assert n == b * m + n % b;
      MulAtLeast(b, 0);
    }
    if a >= 0 then m
    else
      assert b * -m == -(b * m);
      -m
  }

  /** C#'s %: the remainder has the sign of the dividend and a == b * CsDiv(a, b) + CsRem(a, b). */
  function CsRem(a: int, b: int): (r: int)
    requires b > 0
    ensures a == b * CsDiv(a, b) + r
    ensures a >= 0 ==> 0 <= r < b
    ensures a < 0 ==> -b < r <= 0
  {
    a - b * CsDiv(a, b)
  }

  /** On a non-negative dividend the C# operators agree with Euclidean division. */
  lemma CsDivModNonNegative(a: int, b: int)
    requires a >= 0 && b > 0
    ensures CsDiv(a, b) == a / b && CsRem(a, b) == a % b
  {
  }

  /** If a == b * q + r with 0 <= r < b, then q and r are a's quotient and remainder. */
  lemma DivModUnique(a: int, b: int, q: int, r: int)
    requires b > 0 && 0 <= r < b && a == b * q + r
    ensures a / b == q && a % b == r
  {
    var q', r' := a / b, a % b;
    assert a == b * q' + r' && 0 <= r' < b;
    var d := q - q';
    assert b * d == r' - r by {
      assert b * q - b * q' == b * (q - q');
    }
    if d > 0 {
      MulAtLeast(b, d);
    }
  }

  lemma {:induction false} MulAtLeast(b: nat, d: nat)
    ensures b * d >= 0
    ensures d >= 1 ==> b * d >= b
  {
    if d > 1 {
      MulAtLeast(b, d - 1);
      assert b * d == b * (d - 1) + b;
    }
  }

  // ---------------------------------------------------------------- the composite id

  /** The key of one approval row: a document (fin year, rec type, rec number) and a level. */
  datatype LedgerKey = LedgerKey(finYear: int, recType: int, recNumber: int, level: int)

  /** The id the pending-approvals query computes for a row. */
  function EncodeId(k: LedgerKey): int {
    k.level * 1000000 + k.finYear * 10000 + k.recType * 1000 + k.recNumber
  }

  /**
    * How ProcessApproval unpacks an id. Encoding the result gives the id back, and for a
    * non-negative id the fields fall in the ranges the packing allows.
    */
  function DecodeId(id: int): (k: LedgerKey)
    ensures EncodeId(k) == id
    ensures id >= 0 ==> k.level >= 0 && 0 <= k.finYear < 100 && 0 <= k.recType < 10 && 0 <= k.recNumber < 1000
    ensures id < 0 ==> k.level <= 0 && -100 < k.finYear <= 0 && -10 < k.recType <= 0 && -1000 < k.recNumber <= 0
  {
    var approvalLevel := CsDiv(id, 1000000);
    var remainder := CsRem(id, 1000000);
    var finYear := CsDiv(remainder, 10000);
    var remainder' := CsRem(remainder, 10000);
    var recType := CsDiv(remainder', 1000);
    var recNumber := CsRem(remainder', 1000);
    LedgerKey(finYear, recType, recNumber, approvalLevel)
  }

  /** The fields fit the packing: each one stays below the weight of the field above it. */
  predicate FitsId(k: LedgerKey) {
    k.recNumber < 1000 && k.recType < 10 && k.finYear * 10000 + k.recType * 1000 + k.recNumber < 1000000
  }

  /** Decoding an encoded key of non-negative fields gives it back exactly when the fields fit. */
  lemma DecodeEncodeId(k: LedgerKey)
    requires k.level >= 0 && k.finYear >= 0 && k.recType >= 0 && k.recNumber >= 0
    ensures DecodeId(EncodeId(k)) == k <==> FitsId(k)
  {
    if FitsId(k) {
      var id := EncodeId(k);
      var low := k.finYear * 10000 + k.recType * 1000 + k.recNumber;
      DivModUnique(id, 1000000, k.level, low);
      var mid := k.recType * 1000 + k.recNumber;
      DivModUnique(low, 10000, k.finYear, mid);
      DivModUnique(mid, 1000, k.recType, k.recNumber);
    }
  }

  /**
    * RecType 12, the only type the pending list shows, does not survive the round trip: its
    * thousands digit spills into the fin year, so the decoded key names rec type 2 of the next
    * fin year.
    */
  lemma RecTypeTwelveMisdecodes(level: nat, finYear: nat, recNumber: nat)
    requires finYear <= 98 && recNumber < 1000
    ensures DecodeId(EncodeId(LedgerKey(finYear, 12, recNumber, level))) == LedgerKey(finYear + 1, 2, recNumber, level)
    ensures DecodeId(EncodeId(LedgerKey(finYear, 12, recNumber, level))) != LedgerKey(finYear, 12, recNumber, level)
  {
    var shifted := LedgerKey(finYear + 1, 2, recNumber, level);
    assert EncodeId(LedgerKey(finYear, 12, recNumber, level)) == EncodeId(shifted);
    DecodeEncodeId(shifted);
  }

  /** Whatever the other fields, a key of rec type 12 is never what its own id decodes to. */
  lemma RecTypeTwelveNeverRoundTrips(k: LedgerKey)
    requires k.recType == 12
    ensures DecodeId(EncodeId(k)) != k
    ensures -10 < DecodeId(EncodeId(k)).recType < 10
  {
    var id := EncodeId(k);
    assert id >= 0 ==> 0 <= DecodeId(id).recType < 10;
  }

  // ---------------------------------------------------------------- the action

  /** "approve" in any letter case approves; every other action string rejects. */
  function ActionStatus(action: string): (status: int)
    ensures status == Approved || status == Rejected
    ensures status == Approved <==> ToLower(action) == "approve"
  {
    if ToLower(action) == "approve" then Approved else Rejected
  }

  lemma ActionStatusExamples()
    ensures ActionStatus("approve") == Approved
    ensures ActionStatus("Approve") == Approved
    ensures ActionStatus("APPROVE") == Approved
    ensures ActionStatus("reject") == Rejected
    ensures ActionStatus("") == Rejected
    ensures ActionStatus("approved") == Rejected
  {
    var a, b, c := ToLower("approve"), ToLower("Approve"), ToLower("APPROVE");
    assert a == "approve" by { assert forall i :: 0 <= i < 7 ==> a[i] == "approve"[i]; }
    assert b == "approve" by { assert forall i :: 0 <= i < 7 ==> b[i] == "approve"[i]; }
    assert c == "approve" by { assert forall i :: 0 <= i < 7 ==> c[i] == "approve"[i]; }
    assert |ToLower("approved")| == 8;
    assert ToLower("reject")[0] == 'r';
  }

  // ---------------------------------------------------------------- the ledger

  /**
    * The columns of an approval row that ProcessApproval writes. The date is an opaque clock
    * reading; a missing user id or comment is a database NULL.
    */
  datatype ApprovalRow = ApprovalRow(status: int, userId: Option<int>, date: Option<int>, comments: Option<string>)

  type Ledger = map<LedgerKey, ApprovalRow>

  /**
    * The UPDATE statement: the row with exactly this key, if there is one, takes the new
    * status, user, date and comments; no other row changes and no row is added.
    */
  function ApplyDecision(rows: Ledger, key: LedgerKey, status: int, userId: Option<int>, now: int, comments: Option<string>): (r: Ledger)
    ensures r.Keys == rows.Keys
    ensures forall k :: k in rows && k != key ==> r[k] == rows[k]
    ensures key in rows ==> r[key] == ApprovalRow(status, userId, Some(now), comments)
  {
    if key in rows then rows[key := ApprovalRow(status, userId, Some(now), comments)] else rows
  }

  /** Two keys address levels of the same document. */
  predicate SameDocument(a: LedgerKey, b: LedgerKey) {
    a.finYear == b.finYear && a.recType == b.recType && a.recNumber == b.recNumber
  }

  /**
    * The approval chain's intended order: a level is decided only after every lower level of the
    * same document has been approved.
    */
  predicate Gated(rows: Ledger) {
    forall k, j :: k in rows && j in rows && SameDocument(k, j) && j.level < k.level && rows[k].status != Pending
      ==> rows[j].status == Approved
  }

  /**
    * The update enforces no order: approving level 2 of a document whose level 1 is still
    * pending takes a ledger that keeps the order to one that does not. It also overwrites a
    * level already decided.
    */
  lemma DecisionIgnoresChainOrder()
    ensures var k1, k2 := LedgerKey(25, 12, 7, 1), LedgerKey(25, 12, 7, 2);
      var rows := map[k1 := ApprovalRow(Pending, None, None, None), k2 := ApprovalRow(Pending, None, None, None)];
      Gated(rows) && !Gated(ApplyDecision(rows, k2, Approved, Some(5), 0, None))
    ensures var k := LedgerKey(25, 12, 7, 1);
      var rows := map[k := ApprovalRow(Approved, Some(4), Some(0), None)];
      ApplyDecision(rows, k, Rejected, Some(5), 1, None)[k].status == Rejected
  {
    var k1, k2 := LedgerKey(25, 12, 7, 1), LedgerKey(25, 12, 7, 2);
    var rows := map[k1 := ApprovalRow(Pending, None, None, None), k2 := ApprovalRow(Pending, None, None, None)];
    var after := ApplyDecision(rows, k2, Approved, Some(5), 0, None);
    assert k1 in after && k2 in after && SameDocument(k2, k1) && after[k2].status != Pending;
    assert after[k1].status == Pending;
  }

  // ---------------------------------------------------------------- the session and the replies

  /** What the controller reads from the session: the user id (possibly absent) and the approver flag. */
  datatype Session = Session(userId: Option<int>, isApprover: bool)

  /** The JSON reply { success, message }. */
  datatype Reply = Reply(success: bool, message: string)

  const NoPermissionToProcess := "You do not have permission to process approvals."
  const NoPermissionToView := "You do not have permission to view approvals."
  /** The message of the NullReferenceException that ToLower on a null action raises. */
  const NullReferenceMessage := "Object reference not set to an instance of an object."

  /** The success message, chosen by the same test as the new status. */
  function DecisionMessage(action: string): (m: string)
    ensures ActionStatus(action) == Approved ==> m == "Stock adjustment approved successfully."
    ensures ActionStatus(action) == Rejected ==> m == "Stock adjustment rejected successfully."
  {
    if ToLower(action) == "approve" then "Stock adjustment approved successfully."
    else "Stock adjustment rejected successfully."
  }

  // ---------------------------------------------------------------- the pending list

  /** A Stock_Adjustment line as the pending-approvals query reads it. */
  datatype AdjustmentLine = AdjustmentLine(
    finYear: int, recType: int, recNumber: int, date: int, department: string,
    itemName: string, fromLocation: string, toLocation: string, quantity: real, reason: string)

  /** One entry of the pending-approvals list (ApprovalViewModel). */
  datatype PendingApproval = PendingApproval(
    id: int, documentReference: string, line: AdjustmentLine,
    approvalLevel: int, approvalStatus: int, approvalStatusName: string,
    finYear: int, recType: int, recNumber: int)

  /**
    * The document label the query writes into the reference: STDL for 10, STIN for 12
    * (ApprovalController.cs:57-59). The mails name the kinds with their own table, EmailNotices.RecTypeName.
    */
  function DocumentLabel(recType: int): (tag: string)
    ensures recType == 10 ==> tag == "STDL"
    ensures recType == 12 ==> tag == "STIN"
    ensures recType != 10 && recType != 12 ==> tag == "UNKNOWN"
  {
    if recType == 10 then "STDL" else if recType == 12 then "STIN" else "UNKNOWN"
  }

  /** CONCAT(finYear, '/', label, '/', recNumber). */
  function DocumentReference(finYear: int, recType: int, recNumber: int): string {
    IntToString(finYear) + "/" + DocumentLabel(recType) + "/" + IntToString(recNumber)
  }

  function ToPending(d: AdjustmentLine, k: LedgerKey, row: ApprovalRow): PendingApproval {
    PendingApproval(EncodeId(k), DocumentReference(d.finYear, d.recType, d.recNumber), d,
      k.level, row.status, GetStatusName(row.status), d.finYear, d.recType, d.recNumber)
  }

  /** A ledger row joins a document line when they name the same document. */
  predicate Joins(d: AdjustmentLine, k: LedgerKey) {
    d.finYear == k.finYear && d.recType == k.recType && d.recNumber == k.recNumber
  }

  /** The join of the pending-approvals query: one entry per pending type-12 row and line of its document. */
  function PendingEntries(rows: Ledger, lines: seq<AdjustmentLine>): (entries: set<PendingApproval>)
    ensures forall d, k ::
      d in lines && k in rows && Joins(d, k) && rows[k].status == Pending && d.recType == 12 ==>
        ToPending(d, k, rows[k]) in entries
    ensures forall p :: p in entries ==>
      exists d, k :: d in lines && k in rows && Joins(d, k) && rows[k].status == Pending && d.recType == 12 &&
        p == ToPending(d, k, rows[k])
  {
    set d, k | d in lines && k in rows && Joins(d, k) && rows[k].status == Pending && d.recType == 12
      :: ToPending(d, k, rows[k])
  }

  /** An entry of the list shows a pending type-12 row, its packed id and its STIN reference. */
  lemma PendingEntryFields(rows: Ledger, lines: seq<AdjustmentLine>, p: PendingApproval)
    requires p in PendingEntries(rows, lines)
    ensures p.approvalStatus == Pending && p.recType == 12 && p.line in lines
    ensures LedgerKey(p.finYear, p.recType, p.recNumber, p.approvalLevel) in rows
    ensures p.id == EncodeId(LedgerKey(p.finYear, p.recType, p.recNumber, p.approvalLevel))
    ensures p.documentReference == IntToString(p.finYear) + "/STIN/" + IntToString(p.recNumber)
    ensures p.approvalStatusName == GetStatusName(Pending)
  {
    var d, k :| d in lines && k in rows && Joins(d, k) && rows[k].status == Pending && d.recType == 12 &&
      p == ToPending(d, k, rows[k]);
    assert k == LedgerKey(p.finYear, p.recType, p.recNumber, p.approvalLevel);
  }

  class ApprovalLedger {
    var rows: Ledger

    constructor (initial: Ledger)
      ensures rows == initial
    {
      rows := initial;
    }

    /**
      * GetPendingApprovals: refused for a non-approver; otherwise every (line, approval row)
      * pair of one document whose row is Pending and whose rec type is 12.
      */
    function GetPendingApprovals(session: Session, lines: seq<AdjustmentLine>): (r: Result<set<PendingApproval>, string>)
      reads this
      ensures !session.isApprover <==> r == Failure(NoPermissionToView)
      ensures r.Success? ==> forall p :: p in r.value ==>
        p.approvalStatus == Pending && p.recType == 12 && p.line in lines &&
        LedgerKey(p.finYear, p.recType, p.recNumber, p.approvalLevel) in rows
      ensures r.Success? ==> forall d, k ::
        d in lines && k in rows && Joins(d, k) && rows[k].status == Pending && d.recType == 12 ==>
          ToPending(d, k, rows[k]) in r.value
      ensures r.Success? ==> forall p :: p in r.value ==>
        exists d, k :: d in lines && k in rows && Joins(d, k) && rows[k].status == Pending && d.recType == 12 &&
          p == ToPending(d, k, rows[k])
      ensures r.Success? ==> forall p :: p in r.value ==>
        p.id == EncodeId(LedgerKey(p.finYear, p.recType, p.recNumber, p.approvalLevel)) &&
        p.documentReference == IntToString(p.finYear) + "/STIN/" + IntToString(p.recNumber) &&
        p.approvalStatusName == GetStatusName(Pending)
    {
      if !session.isApprover then Failure(NoPermissionToView)
      else
        var entries := PendingEntries(rows, lines);
        assert forall p :: p in entries ==>
          p.approvalStatus == Pending && p.recType == 12 && p.line in lines &&
          LedgerKey(p.finYear, p.recType, p.recNumber, p.approvalLevel) in rows &&
          p.id == EncodeId(LedgerKey(p.finYear, p.recType, p.recNumber, p.approvalLevel)) &&
          p.documentReference == IntToString(p.finYear) + "/STIN/" + IntToString(p.recNumber) &&
          p.approvalStatusName == GetStatusName(Pending)
        by {
          forall p | p in entries {
            PendingEntryFields(rows, lines, p);
          }
        }
        Success(entries)
    }

    /**
      * ProcessApproval: a non-approver is refused; a null action fails on ToLower; a failing
      * database call is reported; otherwise the row the decoded id names takes the decision.
      * Only the successful path changes the ledger.
      */
    method ProcessApproval(session: Session, id: int, action: Option<string>, remarks: Option<string>, now: int, dbError: Option<string>)
      returns (reply: Reply)
      modifies this
      ensures !session.isApprover ==> reply == Reply(false, NoPermissionToProcess) && rows == old(rows)
      ensures session.isApprover && action.None? ==> reply == Reply(false, NullReferenceMessage) && rows == old(rows)
      ensures session.isApprover && action.Some? && dbError.Some? ==> reply == Reply(false, dbError.value) && rows == old(rows)
      ensures session.isApprover && action.Some? && dbError.None? ==>
        reply == Reply(true, DecisionMessage(action.value)) &&
        rows == ApplyDecision(old(rows), DecodeId(id), ActionStatus(action.value), session.userId, now, remarks)
    {
      if !session.isApprover {
        return Reply(false, NoPermissionToProcess);
      }
      var key := DecodeId(id);
      if action.None? {
        return Reply(false, NullReferenceMessage);
      }
      var newStatus := ActionStatus(action.value);
      if dbError.Some? {
        return Reply(false, dbError.value);
      }
      rows := ApplyDecision(rows, key, newStatus, session.userId, now, remarks);
      reply := Reply(true, DecisionMessage(action.value));
    }
  }

  /**
    * An id taken from the pending list never addresses its own row: the list only holds rec
    * type 12, whose id decodes to rec type 2. So processing it leaves that row as it was.
    */
  lemma PendingIdMissesItsRow(p: PendingApproval, rows: Ledger, status: int, userId: Option<int>, now: int, remarks: Option<string>)
    requires p.recType == 12 && p.id == EncodeId(LedgerKey(p.finYear, 12, p.recNumber, p.approvalLevel))
    ensures DecodeId(p.id) != LedgerKey(p.finYear, p.recType, p.recNumber, p.approvalLevel)
    ensures var own := LedgerKey(p.finYear, p.recType, p.recNumber, p.approvalLevel);
      own in rows ==> ApplyDecision(rows, DecodeId(p.id), status, userId, now, remarks)[own] == rows[own]
  {
    RecTypeTwelveNeverRoundTrips(LedgerKey(p.finYear, 12, p.recNumber, p.approvalLevel));
  }
}
