/**
  * The last step of GetReportData: the documents sharing a fin year and record number (a
  * decrease and an increase saved together) become one report row.
  */
module ReportMerge {
  import opened Wrappers
  import opened Text
  import opened Seqs
  import opened Sorting
  import opened ReportQueries

  datatype GroupKey = GroupKey(finYear: int, recNumber: int)

  function GroupOf(d: DocumentRow): GroupKey {
    GroupKey(d.finYear, d.recNumber)
  }

  /** A level as the report shows it. */
  datatype LevelView = LevelView(
    level: int, statusCode: int, statusName: string,
    approverName: Option<string>, approvalDate: Option<int>, comments: Option<string>)

  /** A line item as the report shows it. */
  datatype LineView = LineView(
    recType: int, recTypeName: string, sno: int, itemCode: string, itemDesc: string,
    fromLocation: string, fromLocationName: string, toLocation: string, toLocationName: string,
    quantity: real, cost: real, amount: real)

  /** One merged report row. */
  datatype ReportRow = ReportRow(
    finYear: int, recNumber: int, documentReference: string, date: int, createdBy: string, department: string,
    totalLevels: nat, approvedCount: nat, rejectedCount: nat, nextPendingLevel: int,
    recTypes: seq<int>, levels: seq<LevelView>, lineItems: seq<LineView>)

  // ---------------------------------------------------------------- groups

  /** The group keys in order of first appearance, as GroupBy yields them. */
  function GroupKeys(docs: seq<DocumentRow>): (keys: seq<GroupKey>)
    ensures NoDuplicates(keys)
    ensures forall k :: k in keys <==> exists d :: d in docs && GroupOf(d) == k
  {
    var m := Map(docs, GroupOf);
    forall k ensures k in m <==> exists d :: d in docs && GroupOf(d) == k {
      if k in m {
        var i :| 0 <= i < |m| && m[i] == k;
        assert docs[i] in docs;
      }
      if exists d :: d in docs && GroupOf(d) == k {
        var d :| d in docs && GroupOf(d) == k;
        var i :| 0 <= i < |docs| && docs[i] == d;
        assert m[i] == k;
      }
    }
    Distinct(m)
  }

  /** The documents of one group, in their query order. */
  function GroupMembers(docs: seq<DocumentRow>, k: GroupKey): (g: seq<DocumentRow>)
    ensures forall d :: d in g <==> d in docs && GroupOf(d) == k
  {
    Filter(docs, d => GroupOf(d) == k)
  }

  // ---------------------------------------------------------------- merged values

  /**
    * The merged NextPendingLevel: -1 when any document shows -1, otherwise the smallest
    * positive value, otherwise 0.
    */
  function MergeNextPending(values: seq<int>): (r: int)
    ensures r == -1 <==> -1 in values
    ensures r > 0 <==> -1 !in values && exists v :: v in values && v > 0
    ensures r > 0 ==> r in values && forall v :: v in values && v > 0 ==> r <= v
    ensures r >= -1
  {
    if -1 in values then -1
    else if forall v :: v in values ==> v == 0 then 0
    else
      var positive := Filter(values, v => v > 0);
      if |positive| > 0 then Min(positive) else 0
  }

  function RecTypeOf(d: DocumentRow): int { d.recType }
  function NextPendingOf(d: DocumentRow): int { d.nextPendingLevel }

  predicate IntLe(a: int, b: int) { a <= b }

  /** The group's rec types, each once, ascending. */
  function RecTypesOf(group: seq<DocumentRow>): (r: seq<int>)
    ensures forall i, j :: 0 <= i < j < |r| ==> r[i] < r[j]
    ensures forall t :: t in r <==> exists d :: d in group && d.recType == t
  {
    var types := Map(group, RecTypeOf);
    var distinct := Distinct(types);
    assert TotalPreorder(IntLe);
    SortBySorted(distinct, IntLe);
    var sorted := SortBy(distinct, IntLe);
    NoDuplicatesPermutation(distinct, sorted);
    forall t ensures t in sorted <==> exists d :: d in group && d.recType == t {
      SortByElements(distinct, IntLe, t);
      if t in types {
        var i :| 0 <= i < |types| && types[i] == t;
        assert group[i] in group;
      }
      if exists d :: d in group && d.recType == t {
        var d :| d in group && d.recType == t;
        var i :| 0 <= i < |group| && group[i] == d;
        assert types[i] == t;
      }
    }
    sorted
  }

  // ---------------------------------------------------------------- levels and line items

  predicate LevelOfDocument(l: LevelInfo, first: DocumentRow) {
    l.finYear == first.finYear && l.recType == first.recType && l.recNumber == first.recNumber
  }

  predicate ByLevel(a: LevelInfo, b: LevelInfo) { a.level <= b.level }

  function ToLevelView(l: LevelInfo): LevelView {
    LevelView(l.level, l.statusCode, l.statusName, l.approverName, l.approvalDate, l.comments)
  }

  /**
    * The row's levels: those of the first document's own rec type (not of the whole group),
    * ordered by level.
    */
  function LevelsOf(levels: seq<LevelInfo>, first: DocumentRow): (r: seq<LevelView>)
    ensures forall i, j :: 0 <= i < j < |r| ==> r[i].level <= r[j].level
    ensures forall v :: v in r <==> exists l :: l in levels && LevelOfDocument(l, first) && v == ToLevelView(l)
  {
    var own := Filter(levels, l => LevelOfDocument(l, first));
    assert TotalPreorder(ByLevel);
    SortBySorted(own, ByLevel);
    var sorted := SortBy(own, ByLevel);
    var r := Map(sorted, ToLevelView);
    forall v ensures v in r <==> exists l :: l in levels && LevelOfDocument(l, first) && v == ToLevelView(l) {
      SortedLevelViews(own, v);
    }
    r
  }

  /** Sorting the levels does not change which views they give. */
  lemma SortedLevelViews(own: seq<LevelInfo>, v: LevelView)
    ensures v in Map(SortBy(own, ByLevel), ToLevelView) <==> exists l :: l in own && v == ToLevelView(l)
  {
    var sorted := SortBy(own, ByLevel);
    MapMembers(sorted, ToLevelView, v);
    if v in Map(sorted, ToLevelView) {
      var l :| l in sorted && v == ToLevelView(l);
      SortByElements(own, ByLevel, l);
    }
    if exists l :: l in own && v == ToLevelView(l) {
      var l :| l in own && v == ToLevelView(l);
      SortByElements(own, ByLevel, l);
    }
  }

  /** A single recorded level is shown for the document it belongs to, and for no other. */
  lemma LevelsOfOne(l: LevelInfo, first: DocumentRow)
    ensures LevelsOf([l], first) == if LevelOfDocument(l, first) then [ToLevelView(l)] else []
  {
    var r := LevelsOf([l], first);
    assert |Filter([l], x => LevelOfDocument(x, first))| <= 1;
    if LevelOfDocument(l, first) {
      assert ToLevelView(l) in r;
    } else {
      assert forall v :: v !in r;
    }
  }

  predicate LineOfGroup(li: ApprovalLineItem, first: DocumentRow) {
    li.finYear == first.finYear && li.recNumber == first.recNumber
  }

  /** OrderBy(RecType).ThenBy(Sno). */
  predicate ByRecTypeThenSno(a: ApprovalLineItem, b: ApprovalLineItem) {
    a.recType < b.recType || (a.recType == b.recType && a.sno <= b.sno)
  }

  /** A decrease line reads "Decrease"; every other line reads "Increase". */
  function LineTypeName(recType: int): (name: string)
    ensures name == "Decrease" <==> recType == 10
    ensures name == "Increase" <==> recType != 10
  {
    if recType == 10 then "Decrease" else "Increase"
  }

  function ToLineView(li: ApprovalLineItem): LineView {
    LineView(li.recType, LineTypeName(li.recType), li.sno, li.itemCode, li.itemDesc,
      li.fromLocation, li.fromLocationName, li.toLocation, li.toLocationName, li.quantity, li.cost, li.amount)
  }

  /** Sorting the lines does not change which views they give. */
  lemma SortedViews(own: seq<ApprovalLineItem>, v: LineView)
    ensures v in Map(SortBy(own, ByRecTypeThenSno), ToLineView) <==> exists li :: li in own && v == ToLineView(li)
  {
    var sorted := SortBy(own, ByRecTypeThenSno);
    MapMembers(sorted, ToLineView, v);
    if v in Map(sorted, ToLineView) {
      var li :| li in sorted && v == ToLineView(li);
      SortByElements(own, ByRecTypeThenSno, li);
    }
    if exists li :: li in own && v == ToLineView(li) {
      var li :| li in own && v == ToLineView(li);
      SortByElements(own, ByRecTypeThenSno, li);
    }
  }

  /** The row's line items: those of every rec type of the group, ordered by rec type, then serial number. */
  function LineItemsOf(items: seq<ApprovalLineItem>, first: DocumentRow): (r: seq<LineView>)
    ensures forall i, j :: 0 <= i < j < |r| ==>
      r[i].recType < r[j].recType || (r[i].recType == r[j].recType && r[i].sno <= r[j].sno)
    ensures forall v :: v in r <==> exists li :: li in items && LineOfGroup(li, first) && v == ToLineView(li)
  {
    var own := Filter(items, li => LineOfGroup(li, first));
    assert TotalPreorder(ByRecTypeThenSno);
    SortBySorted(own, ByRecTypeThenSno);
    var sorted := SortBy(own, ByRecTypeThenSno);
    var r := Map(sorted, ToLineView);
    forall v ensures v in r <==> exists li :: li in items && LineOfGroup(li, first) && v == ToLineView(li) {
      SortedViews(own, v);
    }
    r
  }

  // ---------------------------------------------------------------- the merge

  /** "{finYear}/{company}/{recNumber}": the reference without the rec type name. */
  function MergedReference(finYear: int, company: string, recNumber: int): string {
    IntToString(finYear) + "/" + company + "/" + IntToString(recNumber)
  }

  /** The largest value of f over a non-empty group. */
  function GroupMax(group: seq<DocumentRow>, f: DocumentRow -> nat): (m: nat)
    requires |group| > 0
    ensures exists d :: d in group && f(d) == m
    ensures forall d :: d in group ==> f(d) <= m
  {
    var values := Map(group, f);
    assert f(group[0]) in values;
    assert forall d :: d in group ==> f(d) in values;
    Max(values)
  }

  /** MergeNextPending applied to the group's documents. */
  function GroupNextPending(group: seq<DocumentRow>): (r: int)
    ensures r == -1 <==> exists d :: d in group && d.nextPendingLevel == -1
    ensures r > 0 ==> forall d :: d in group && d.nextPendingLevel > 0 ==> r <= d.nextPendingLevel
    ensures r > 0 ==> exists d :: d in group && d.nextPendingLevel == r
    ensures r == 0 <==> forall d :: d in group ==> d.nextPendingLevel != -1 && d.nextPendingLevel <= 0
  {
    var values := Map(group, NextPendingOf);
    assert forall d :: d in group ==> d.nextPendingLevel in values;
    assert forall v :: v in values ==> exists d :: d in group && d.nextPendingLevel == v;
    MergeNextPending(values)
  }

  function TotalLevelsOf(d: DocumentRow): nat { d.totalLevels }
  function ApprovedCountOf(d: DocumentRow): nat { d.approvedCount }
  function RejectedCountOf(d: DocumentRow): nat { d.rejectedCount }

  /**
    * One group merged: identity and dates from its first document; level counts are the
    * largest of the group, not sums.
    */
  function MergeGroup(company: string, group: seq<DocumentRow>, levels: seq<LevelInfo>, items: seq<ApprovalLineItem>)
    : (r: ReportRow)
    requires |group| > 0
    ensures r.finYear == group[0].finYear && r.recNumber == group[0].recNumber && r.date == group[0].date
    ensures r.createdBy == group[0].createdBy && r.department == group[0].department
    ensures r.documentReference == MergedReference(group[0].finYear, company, group[0].recNumber)
    ensures r.totalLevels == GroupMax(group, TotalLevelsOf)
    ensures r.approvedCount == GroupMax(group, ApprovedCountOf)
    ensures r.rejectedCount == GroupMax(group, RejectedCountOf)
    ensures r.nextPendingLevel == GroupNextPending(group)
    ensures r.recTypes == RecTypesOf(group)
    ensures r.levels == LevelsOf(levels, group[0]) && r.lineItems == LineItemsOf(items, group[0])
  {
    var first := group[0];
    ReportRow(first.finYear, first.recNumber, MergedReference(first.finYear, company, first.recNumber),
      first.date, first.createdBy, first.department,
      GroupMax(group, TotalLevelsOf), GroupMax(group, ApprovedCountOf), GroupMax(group, RejectedCountOf),
      GroupNextPending(group), RecTypesOf(group), LevelsOf(levels, first), LineItemsOf(items, first))
  }

  /**
    * The levels of a merged row come from whichever document of the group comes first: with
    * levels recorded only under one rec type, the row shows them when that document leads the
    * group and none when the other one does.
    */
  lemma LevelsFollowFirstDocument(company: string, a: DocumentRow, b: DocumentRow, l: LevelInfo, items: seq<ApprovalLineItem>)
    requires a.finYear == b.finYear && a.recNumber == b.recNumber && a.recType != b.recType
    requires LevelOfDocument(l, a)
    ensures MergeGroup(company, [a, b], [l], items).levels == [ToLevelView(l)]
    ensures MergeGroup(company, [b, a], [l], items).levels == []
  {
    LevelsOfOne(l, a);
    LevelsOfOne(l, b);
  }

  /** The merged report: one row per group, in order of the groups' first documents. */
  function MergeReport(company: string, docs: seq<DocumentRow>, levels: seq<LevelInfo>, items: seq<ApprovalLineItem>)
    : (rows: seq<ReportRow>)
    ensures |rows| == |GroupKeys(docs)|
    ensures forall i :: 0 <= i < |rows| ==> RowKey(rows[i]) == GroupKeys(docs)[i]
    ensures forall i :: 0 <= i < |rows| ==>
      |GroupMembers(docs, GroupKeys(docs)[i])| > 0 &&
      rows[i] == MergeGroup(company, GroupMembers(docs, GroupKeys(docs)[i]), levels, items)
  {
    var keys := GroupKeys(docs);
    seq(|keys|, i requires 0 <= i < |keys| =>
      var g := GroupMembers(docs, keys[i]);
      assert exists d :: d in g by {
        assert keys[i] in keys;
        var d :| d in docs && GroupOf(d) == keys[i];
        assert d in g;
      }
      MergeGroup(company, g, levels, items))
  }

  function RowKey(r: ReportRow): GroupKey {
    GroupKey(r.finYear, r.recNumber)
  }

  /** Rows whose keys are the group keys in order are one per group and cover every document. */
  lemma RowsFollowKeys(rows: seq<ReportRow>, docs: seq<DocumentRow>)
    requires |rows| == |GroupKeys(docs)|
    requires forall i :: 0 <= i < |rows| ==> RowKey(rows[i]) == GroupKeys(docs)[i]
    ensures forall i, j :: 0 <= i < j < |rows| ==> RowKey(rows[i]) != RowKey(rows[j])
    ensures forall d :: d in docs ==> exists i :: 0 <= i < |rows| && RowKey(rows[i]) == GroupOf(d)
  {
    var keys := GroupKeys(docs);
    forall d | d in docs ensures exists i :: 0 <= i < |rows| && RowKey(rows[i]) == GroupOf(d) {
      assert GroupOf(d) in keys;
      var i :| 0 <= i < |keys| && keys[i] == GroupOf(d);
      assert RowKey(rows[i]) == GroupOf(d);
    }
  }

  /** No two rows of the merged report share a fin year and record number, and every document has its row. */
  lemma MergeReportOneRowPerGroup(company: string, docs: seq<DocumentRow>, levels: seq<LevelInfo>, items: seq<ApprovalLineItem>)
    ensures var rows := MergeReport(company, docs, levels, items);
      (forall i, j :: 0 <= i < j < |rows| ==> RowKey(rows[i]) != RowKey(rows[j])) &&
      (forall d :: d in docs ==> exists i :: 0 <= i < |rows| && RowKey(rows[i]) == GroupOf(d))
  {
    RowsFollowKeys(MergeReport(company, docs, levels, items), docs);
  }
}
