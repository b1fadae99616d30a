/**
  * EmailService: who is mailed when a document is created, approved at a level, rejected or
  * fully approved, and the item table of the mail body with its totals. Each mail is one SMTP
  * send; a send that fails is logged and the loop goes on, so a mail here is a send attempt.
  */
module EmailNotices {
  import opened Wrappers
  import opened Text
  import opened Seqs
  import opened Sorting

  /** A Login_Master row. */
  datatype Login = Login(userId: int, name: Option<string>, email: Option<string>, approvalLevel: int,
    isApprover: bool, active: bool)

  /** ApproverInfo: what the approver and creator queries return. */
  datatype ApproverInfo = ApproverInfo(userId: int, name: Option<string>, email: Option<string>, approvalLevel: int)

  /** EmailLineItem, with names and cost as resolved from Sage; NULL columns are None. */
  datatype EmailLineItem = EmailLineItem(
    sno: int, itemCode: Option<string>, itemName: Option<string>, fromLocation: Option<string>,
    fromLocationName: Option<string>, toLocation: Option<string>, toLocationName: Option<string>,
    quantity: real, cost: real)

  /** One row of the item table: its number, background, cells and amounts. */
  datatype TableRow = TableRow(sr: int, shade: string, itemCode: string, itemName: string, location: string,
    quantity: real, cost: real)

  /** The item table of a mail body with its total row. */
  datatype ItemTable = ItemTable(rows: seq<TableRow>, totalQuantity: real, totalCost: real)

  /** One SMTP send: the address, the subject and the item table of the body (None: no table). */
  datatype Mail = Mail(to: string, subject: string, table: Option<ItemTable>)

  /**
    * What the queries give a send method: whether Mail_Master has a row, the Login_Master rows,
    * the document's creator (None: no row) and its line items.
    */
  datatype MailData = MailData(configFound: bool, logins: seq<Login>, creator: Option<ApproverInfo>,
    lineItems: seq<EmailLineItem>)

  const EvenShade: string := "#f8f9fa"
  const OddShade: string := "#ffffff"

  /** string.IsNullOrWhiteSpace. */
  predicate NullOrBlank(s: Option<string>) {
    s.None? || IsBlank(s.value)
  }

  /** A null string interpolated into text prints as nothing. */
  function Str(s: Option<string>): string {
    s.GetOr("")
  }

  /**
    * The document kind named in subjects and bodies (EmailService.cs:207). The pending-approvals
    * query's CASE (ApprovalController.cs:57-59) is a different table, ApprovalController.DocumentLabel.
    */
  function RecTypeName(recType: int): (name: string)
    ensures recType == 10 ==> name == "Stock Decrease"
    ensures recType == 12 ==> name == "Stock Increase"
    ensures recType != 10 && recType != 12 ==> name == "Stock Adjustment"
  {
    if recType == 10 then "Stock Decrease" else if recType == 12 then "Stock Increase" else "Stock Adjustment"
  }

  // ---------------------------------------------------------------- recipients

  function Info(l: Login): ApproverInfo {
    ApproverInfo(l.userId, l.name, l.email, l.approvalLevel)
  }

  /** GetApproversByLevelAsync: the active approvers of exactly this level, in table order. */
  function ApproversAtLevel(logins: seq<Login>, level: int): (r: seq<ApproverInfo>)
    ensures forall a :: a in r <==> exists l :: l in logins && l.isApprover && l.active && l.approvalLevel == level && a == Info(l)
  {
    var p := (l: Login) => l.isApprover && l.active && l.approvalLevel == level;
    var picked := Filter(logins, p);
    assert forall a :: a in Map(picked, Info) ==> exists l :: l in picked && a == Info(l) by {
      forall a | a in Map(picked, Info) ensures exists l :: l in picked && a == Info(l) {
        var k :| 0 <= k < |picked| && Map(picked, Info)[k] == a;
        assert picked[k] in picked;
      }
    }
    assert forall l :: l in picked ==> Info(l) in Map(picked, Info) by {
      forall l | l in picked ensures Info(l) in Map(picked, Info) {
        var k :| 0 <= k < |picked| && picked[k] == l;
        assert Map(picked, Info)[k] == Info(l);
      }
    }
    Map(picked, Info)
  }

  predicate ByLevel(a: ApproverInfo, b: ApproverInfo) {
    a.approvalLevel <= b.approvalLevel
  }

  /** GetApproversUpToLevelAsync: the active approvers below this level, ordered by level. */
  function ApproversBelow(logins: seq<Login>, level: int): seq<ApproverInfo> {
    SortBy(Map(Filter(logins, (l: Login) => l.isApprover && l.active && l.approvalLevel < level), Info), ByLevel)
  }

  /** Whether a recipient can be mailed: a non-blank address. */
  predicate HasEmail(a: ApproverInfo) {
    !NullOrBlank(a.email)
  }

  /** The rejection list: the approvers below the level, then the creator when mailable and not already listed. */
  function RejectionRecipients(logins: seq<Login>, rejectedAtLevel: int, creator: Option<ApproverInfo>)
    : (r: seq<ApproverInfo>)
  {
    var prev := ApproversBelow(logins, rejectedAtLevel);
    if creator.Some? && HasEmail(creator.value) && !(exists a :: a in prev && a.userId == creator.value.userId) then
      prev + [creator.value]
    else
      prev
  }

  /** No user id occurs twice. */
  predicate DistinctIds(s: seq<ApproverInfo>) {
    forall i, j :: 0 <= i < j < |s| ==> s[i].userId != s[j].userId
  }

  predicate DistinctLoginIds(s: seq<Login>) {
    forall i, j :: 0 <= i < j < |s| ==> s[i].userId != s[j].userId
  }

  // ---------------------------------------------------------------- the item table

  /** The location shown: FromLocation when it is not blank, else ToLocation. */
  function ShownLocation(item: EmailLineItem): Option<string> {
    if !NullOrBlank(item.fromLocation) then item.fromLocation else item.toLocation
  }

  /** The location cell: the code, followed by the source name, else the destination name, when not blank. */
  function LocationCell(item: EmailLineItem): (cell: string)
    ensures Str(ShownLocation(item)) <= cell
    ensures !NullOrBlank(item.fromLocationName) ==> cell == Str(ShownLocation(item)) + " - " + item.fromLocationName.value
    ensures NullOrBlank(item.fromLocationName) && !NullOrBlank(item.toLocationName) ==>
      cell == Str(ShownLocation(item)) + " - " + item.toLocationName.value
    ensures NullOrBlank(item.fromLocationName) && NullOrBlank(item.toLocationName) ==> cell == Str(ShownLocation(item))
  {
    var location := Str(ShownLocation(item));
    if !NullOrBlank(item.fromLocationName) then location + " - " + item.fromLocationName.value
    else if !NullOrBlank(item.toLocationName) then location + " - " + item.toLocationName.value
    else location
  }

  /** Row sr (counted from 1): even rows are shaded. */
  function RowOf(sr: int, item: EmailLineItem): TableRow {
    TableRow(sr, if sr % 2 == 0 then EvenShade else OddShade, Str(item.itemCode), Str(item.itemName),
      LocationCell(item), item.quantity, item.cost)
  }

  function Rows(items: seq<EmailLineItem>): (rows: seq<TableRow>)
    ensures |rows| == |items|
  {
    seq(|items|, k requires 0 <= k < |items| => RowOf(k + 1, items[k]))
  }

  function Quantity(item: EmailLineItem): real {
    item.quantity
  }

  /** The value of a line: cost times quantity. */
  function LineCost(item: EmailLineItem): real {
    item.cost * item.quantity
  }

  /** The table the body holds: none without items. */
  function ItemTableOf(items: seq<EmailLineItem>): Option<ItemTable> {
    if items == [] then None else Some(ItemTable(Rows(items), Sum(items, Quantity), Sum(items, LineCost)))
  }

  /** The table part of BuildHtmlBody: one row per item, totalling the cost as it goes. */
  method BuildItemTable(lineItems: seq<EmailLineItem>) returns (table: Option<ItemTable>)
    ensures table == ItemTableOf(lineItems)
  {
    if lineItems == [] {
      return None;
    }
    var rows: seq<TableRow> := [];
    var sr := 0;
    var totalCost := 0.0;
    while sr < |lineItems|
      invariant 0 <= sr <= |lineItems|
      invariant rows == Rows(lineItems[..sr])
      invariant totalCost == Sum(lineItems[..sr], LineCost)
    {
      var item := lineItems[sr];
      assert lineItems[..sr + 1][..sr] == lineItems[..sr];
      sr := sr + 1;
      var shade := if sr % 2 == 0 then EvenShade else OddShade;
      totalCost := totalCost + item.cost * item.quantity;
      rows := rows + [TableRow(sr, shade, Str(item.itemCode), Str(item.itemName), LocationCell(item), item.quantity, item.cost)];
    }
    assert lineItems[..sr] == lineItems;
    return Some(ItemTable(rows, Sum(lineItems, Quantity), totalCost));
  }

  // ---------------------------------------------------------------- sending

  /** The sends of a dispatch loop: one per recipient with an address, in list order. */
  function Deliveries(recipients: seq<ApproverInfo>, subject: string, table: Option<ItemTable>): seq<Mail> {
    Map(Filter(recipients, HasEmail), (a: ApproverInfo) => Mail(Str(a.email), subject, table))
  }

  /** The foreach over the recipients, skipping those without an address. */
  method Dispatch(recipients: seq<ApproverInfo>, subject: string, table: Option<ItemTable>) returns (sent: seq<Mail>)
    ensures sent == Deliveries(recipients, subject, table)
  {
    sent := [];
    var i := 0;
    while i < |recipients|
      invariant 0 <= i <= |recipients|
      invariant sent == Deliveries(recipients[..i], subject, table)
    {
      var r := recipients[i];
      DeliveriesStep(recipients[..i], r, subject, table);
      assert recipients[..i + 1] == recipients[..i] + [r];
      if !NullOrBlank(r.email) {
        sent := sent + [Mail(r.email.value, subject, table)];
      }
      i := i + 1;
    }
    assert recipients[..i] == recipients;
  }

  /** One more recipient adds one send when it has an address, none otherwise. */
  lemma DeliveriesStep(recipients: seq<ApproverInfo>, r: ApproverInfo, subject: string, table: Option<ItemTable>)
    ensures Deliveries(recipients + [r], subject, table) ==
      Deliveries(recipients, subject, table) + (if HasEmail(r) then [Mail(Str(r.email), subject, table)] else [])
  {
    FilterAppend(recipients, [r], HasEmail);
    var f := (a: ApproverInfo) => Mail(Str(a.email), subject, table);
    MapAppend(Filter(recipients, HasEmail), Filter([r], HasEmail), f);
  }

  /** The common shape: nothing without a mail configuration or without recipients. */
  function Notices(configFound: bool, recipients: seq<ApproverInfo>, subject: string, items: seq<EmailLineItem>): seq<Mail> {
    if !configFound || recipients == [] then [] else Deliveries(recipients, subject, ItemTableOf(items))
  }

  method SendNotices(configFound: bool, recipients: seq<ApproverInfo>, subject: string, items: seq<EmailLineItem>)
    returns (sent: seq<Mail>)
    ensures sent == Notices(configFound, recipients, subject, items)
  {
    if !configFound || recipients == [] {
      return [];
    }
    var table := BuildItemTable(items);
    sent := Dispatch(recipients, subject, table);
  }

  /** SendRecordCreatedEmailAsync: the level 1 approvers. */
  method SendRecordCreated(recType: int, documentReference: string, data: MailData) returns (sent: seq<Mail>)
    ensures sent == Notices(data.configFound, ApproversAtLevel(data.logins, 1),
      "New " + RecTypeName(recType) + " Pending Approval - " + documentReference, data.lineItems)
  {
    sent := SendNotices(data.configFound, ApproversAtLevel(data.logins, 1),
      "New " + RecTypeName(recType) + " Pending Approval - " + documentReference, data.lineItems);
  }

  /** SendApprovalEmailToNextLevelAsync: the approvers one level above the approving one. */
  method SendApprovalToNextLevel(recType: int, documentReference: string, approvedLevel: int, data: MailData)
    returns (sent: seq<Mail>)
    ensures sent == Notices(data.configFound, ApproversAtLevel(data.logins, approvedLevel + 1),
      NextLevelSubject(recType, documentReference, approvedLevel), data.lineItems)
  {
    var nextLevel := approvedLevel + 1;
    sent := SendNotices(data.configFound, ApproversAtLevel(data.logins, nextLevel),
      NextLevelSubject(recType, documentReference, approvedLevel), data.lineItems);
  }

  function NextLevelSubject(recType: int, documentReference: string, approvedLevel: int): string {
    RecTypeName(recType) + " Approved at L" + IntToString(approvedLevel) + " - Pending Your Approval - " + documentReference
  }

  /** SendRejectionEmailAsync: the approvers below the rejecting level and the creator. */
  method SendRejection(recType: int, documentReference: string, rejectedAtLevel: int, data: MailData)
    returns (sent: seq<Mail>)
    ensures sent == Notices(data.configFound, RejectionRecipients(data.logins, rejectedAtLevel, data.creator),
      RecTypeName(recType) + " Rejected at L" + IntToString(rejectedAtLevel) + " - " + documentReference, data.lineItems)
  {
    if !data.configFound {
      return [];
    }
    var recipients := ApproversBelow(data.logins, rejectedAtLevel);
    var creator := data.creator;
    if creator.Some? && !NullOrBlank(creator.value.email) {
      if !(exists a :: a in recipients && a.userId == creator.value.userId) {
        recipients := recipients + [creator.value];
      }
    }
    sent := SendNotices(data.configFound, recipients,
      RecTypeName(recType) + " Rejected at L" + IntToString(rejectedAtLevel) + " - " + documentReference, data.lineItems);
  }

  /** SendFullyApprovedEmailAsync: the creator alone, when found with an address. */
  function FullyApprovedMails(recType: int, documentReference: string, data: MailData): (sent: seq<Mail>)
    ensures |sent| <= 1
    ensures |sent| == 1 <==> data.configFound && data.creator.Some? && HasEmail(data.creator.value)
    ensures |sent| == 1 ==> sent[0].to == data.creator.value.email.value
  {
    if !data.configFound || data.creator.None? || NullOrBlank(data.creator.value.email) then []
    else [Mail(data.creator.value.email.value, RecTypeName(recType) + " Fully Approved - " + documentReference,
      ItemTableOf(data.lineItems))]
  }

  // ---------------------------------------------------------------- properties

  /** Every send goes to a non-blank address of a listed recipient; none is sent twice for one listing. */
  lemma DeliveriesFacts(recipients: seq<ApproverInfo>, subject: string, table: Option<ItemTable>)
    ensures var sent := Deliveries(recipients, subject, table);
      |sent| == Count(recipients, HasEmail) &&
      forall m :: m in sent ==>
        !IsBlank(m.to) && m.subject == subject && m.table == table &&
        exists a :: a in recipients && a.email == Some(m.to)
  {
    var picked := Filter(recipients, HasEmail);
    FilterCount(recipients, HasEmail);
    var f := (a: ApproverInfo) => Mail(Str(a.email), subject, table);
    forall m: Mail | m in Map(picked, f)
      ensures !IsBlank(m.to) && exists a :: a in recipients && a.email == Some(m.to)
    {
      var k :| 0 <= k < |picked| && Map(picked, f)[k] == m;
      assert picked[k] in picked;
    }
  }

  lemma {:induction false} FilterCount<T(!new)>(s: seq<T>, p: T -> bool)
    ensures |Filter(s, p)| == Count(s, p)
  {
    if s != [] {
      FilterCount(s[1..], p);
    }
  }

  /** A recipient listed with an address is mailed. */
  lemma RecipientMailed(recipients: seq<ApproverInfo>, subject: string, table: Option<ItemTable>, a: ApproverInfo)
    requires a in recipients && HasEmail(a)
    ensures Mail(a.email.value, subject, table) in Deliveries(recipients, subject, table)
  {
    var picked := Filter(recipients, HasEmail);
    var k :| 0 <= k < |picked| && picked[k] == a;
    assert Deliveries(recipients, subject, table)[k] == Mail(a.email.value, subject, table);
  }

  /** Next-level mail goes to active approvers of exactly the next level. */
  lemma NextLevelRecipients(recType: int, documentReference: string, approvedLevel: int, data: MailData, m: Mail)
    requires m in Notices(data.configFound, ApproversAtLevel(data.logins, approvedLevel + 1),
      NextLevelSubject(recType, documentReference, approvedLevel), data.lineItems)
    ensures exists l ::
      l in data.logins && l.isApprover && l.active && l.approvalLevel == approvedLevel + 1 && l.email == Some(m.to)
  {
    var recipients := ApproversAtLevel(data.logins, approvedLevel + 1);
    DeliveriesFacts(recipients, NextLevelSubject(recType, documentReference, approvedLevel), ItemTableOf(data.lineItems));
    var a :| a in recipients && a.email == Some(m.to);
  }

  /**
    * The rejection list starts with exactly the active approvers below the rejected level and adds
    * at most one entry. A creator with an address is always on it, either already as an approver
    * or appended.
    */
  lemma RejectionRecipientsShape(logins: seq<Login>, rejectedAtLevel: int, creator: Option<ApproverInfo>, a: ApproverInfo)
    ensures var prev := ApproversBelow(logins, rejectedAtLevel);
      var r := RejectionRecipients(logins, rejectedAtLevel, creator);
      && prev <= r && |r| <= |prev| + 1
      && (a in prev <==>
            exists l :: l in logins && l.isApprover && l.active && l.approvalLevel < rejectedAtLevel && a == Info(l))
      && (creator.Some? && HasEmail(creator.value) ==> exists b :: b in r && b.userId == creator.value.userId)
  {
    var p := (l: Login) => l.isApprover && l.active && l.approvalLevel < rejectedAtLevel;
    var picked := Filter(logins, p);
    SortByElements(Map(picked, Info), ByLevel, a);
    MapMembers(picked, Info, a);
    var r := RejectionRecipients(logins, rejectedAtLevel, creator);
    if creator.Some? && HasEmail(creator.value) {
      assert r[|r| - 1] in r;
    }
  }

  /** The rejection list holds no user twice, given the login table's ids are distinct. */
  lemma RejectionDistinct(logins: seq<Login>, rejectedAtLevel: int, creator: Option<ApproverInfo>)
    requires DistinctLoginIds(logins)
    ensures DistinctIds(RejectionRecipients(logins, rejectedAtLevel, creator))
  {
    var p := (l: Login) => l.isApprover && l.active && l.approvalLevel < rejectedAtLevel;
    var picked := Filter(logins, p);
    FilterDistinct(logins, p);
    var infos := Map(picked, Info);
    assert DistinctIds(infos);
    var prev := SortBy(infos, ByLevel);
    DistinctPermutation(infos, prev);
    if creator.Some? && HasEmail(creator.value) && !(exists a :: a in prev && a.userId == creator.value.userId) {
      var r := prev + [creator.value];
      forall i, j | 0 <= i < j < |r| ensures r[i].userId != r[j].userId {
        if j == |prev| {
          assert r[i] in prev;
        }
      }
    }
  }

  lemma {:induction false} FilterDistinct(s: seq<Login>, p: Login -> bool)
    requires DistinctLoginIds(s)
    ensures DistinctLoginIds(Filter(s, p))
  {
    if s != [] {
      var t := s[1..];
      assert DistinctLoginIds(t) by {
        forall i, j | 0 <= i < j < |t| ensures t[i].userId != t[j].userId {
          assert t[i] == s[i + 1] && t[j] == s[j + 1];
        }
      }
      FilterDistinct(t, p);
      if p(s[0]) {
        var r := Filter(s, p);
        assert r == [s[0]] + Filter(t, p);
        forall i, j | 0 <= i < j < |r| ensures r[i].userId != r[j].userId {
          if i == 0 {
            assert r[j] in Filter(t, p);
            var k :| 0 <= k < |t| && t[k] == r[j];
            assert s[k + 1] == r[j];
          }
        }
      }
    }
  }

  /** A reordering of a list without repeated ids has none either. */
  lemma DistinctPermutation(a: seq<ApproverInfo>, b: seq<ApproverInfo>)
    requires multiset(a) == multiset(b) && DistinctIds(a)
    ensures DistinctIds(b)
  {
    assert NoDuplicates(a);
    forall i, j | 0 <= i < j < |b| ensures b[i].userId != b[j].userId {
      assert b[i] in multiset(a) && b[j] in multiset(a);
      var p :| 0 <= p < |a| && a[p] == b[i];
      var q :| 0 <= q < |a| && a[q] == b[j];
      if p == q {
        NoDuplicatesCount(a, b[i]);
        TwoCopies(b, i, j);
      }
    }
  }

  /** Rows are numbered from 1 and alternate, the even-numbered ones shaded. */
  lemma RowsNumberedAndShaded(items: seq<EmailLineItem>, k: int)
    requires 0 <= k < |items|
    ensures Rows(items)[k].sr == k + 1
    ensures Rows(items)[k].shade == (if k % 2 == 1 then EvenShade else OddShade)
    ensures Rows(items)[k].quantity == items[k].quantity && Rows(items)[k].cost == items[k].cost
  {
  }

  /** With no negative cost or quantity, the total cost is not negative. */
  lemma {:induction false} TotalCostNonNegative(items: seq<EmailLineItem>)
    requires forall x :: x in items ==> x.cost >= 0.0 && x.quantity >= 0.0
    ensures Sum(items, LineCost) >= 0.0
  {
    if items != [] {
      var n := |items| - 1;
      assert items[n] in items;
      assert forall x :: x in items[..n] ==> x in items;
      TotalCostNonNegative(items[..n]);
    }
  }
}
