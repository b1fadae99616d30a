/**
  * The two documents posted to the Sage 300 web API: a transfer entry (BuildRequest, for a
  * saved Stock Decrease) and a multi-line adjustment entry (BuildAdjustmentRequest, for an
  * approved Stock Increase). Both carry a document number "{prefix}{company}{number padded to
  * six digits}" and a reference "{finYear}/{company}/{name}/{number}".
  */
module SageRequests {
  import opened Wrappers
  import opened Text
  import opened Seqs
  import opened SaveAdjustment
  import opened ReportQueries

  /** The Sage login of a company (Company_Master, right-trimmed). */
  datatype Credentials = Credentials(companyId: string, userId: string, password: string)

  /**
    * The configured names the requests use: REC_Name of the rec type and the three number
    * prefixes of APP_Options. None stands for a missing row or a NULL column.
    */
  datatype Settings = Settings(
    recName: Option<string>, tranPrefix: Option<string>, adjuPrefix: Option<string>, revePrefix: Option<string>)

  const UnknownRecName: string := "UNK"
  const DefaultTranPrefix: string := "SAGE"
  const DefaultAdjuPrefix: string := "ADJ"
  const DefaultRevePrefix: string := "REV"

  const StockIncrease: int := 12
  const StockReversal: int := 14
  /** The Sage transaction type of a transfer header and of an adjustment line that takes stock out. */
  const TransferOut: int := 6
  /** The Sage transaction type of an adjustment line that adds stock. */
  const AdjustIn: int := 5

  /** One line of a transfer entry (SageTransferItem); the optional-field list is always empty. */
  datatype TransferItem = TransferItem(fromLoc: string, toLoc: string, itemNo: string, quantity: real, comments: string)

  /** The transfer entry, without the two dates (transaction date and one month later). */
  datatype TransferRequest = TransferRequest(
    userId: string, password: string, companyId: string, docNum: string, reference: string,
    hdrDesc: string, transType: int, items: seq<TransferItem>)

  /** One line of an adjustment entry (SageAdjustmentItem); the write-off account is always "". */
  datatype AdjustmentItem = AdjustmentItem(
    itemNo: string, location: string, woffAcct: string, quantity: real, extCost: real, transType: int)

  /** The adjustment entry, without its transaction date. */
  datatype AdjustmentRequest = AdjustmentRequest(
    userId: string, password: string, companyId: string, docNum: string, reference: string,
    hdrDesc: string, items: seq<AdjustmentItem>)

  // ---------------------------------------------------------------- numbers and references

  /** recNumber.ToString().PadLeft(6, '0'). */
  function PadNumber(recNumber: int): string {
    PadLeft(IntToString(recNumber), 6, '0')
  }

  /** The document number: prefix, company name, then the padded record number. */
  function DocNum(prefix: string, company: string, recNumber: int): (d: string)
    ensures |d| == |prefix| + |company| + |PadNumber(recNumber)|
    ensures d[..|prefix|] == prefix && d[|prefix|..|prefix| + |company|] == company
    ensures d[|prefix| + |company|..] == PadNumber(recNumber)
  {
    prefix + company + PadNumber(recNumber)
  }

  /** "{finYear}/{company}/{name}/{recNumber}". */
  function Reference(finYear: int, company: string, name: string, recNumber: int): string {
    IntToString(finYear) + "/" + company + "/" + name + "/" + IntToString(recNumber)
  }

  /** A reversal is numbered with the reversal prefix, every other transfer with the transfer prefix. */
  function TransferPrefix(recType: int, tranPrefix: string, revePrefix: string): (p: string)
    ensures recType == StockReversal ==> p == revePrefix
    ensures recType != StockReversal ==> p == tranPrefix
  {
    if recType == StockReversal then revePrefix else tranPrefix
  }

  /** The word naming the movement in the transfer header. */
  function HeaderLabel(recType: int): (word: string)
    ensures word == "INCREASE" <==> recType == StockIncrease
    ensures word == "REVERSAL" <==> recType == StockReversal
    ensures word == "DECREASE" <==> recType != StockIncrease && recType != StockReversal
  {
    if recType == StockIncrease then "INCREASE" else if recType == StockReversal then "REVERSAL" else "DECREASE"
  }

  // ---------------------------------------------------------------- the transfer entry

  /** One transfer line per line item: the codes trimmed, the quantity as given. */
  function TransferItemOf(li: LineItem): (t: TransferItem)
    ensures t.fromLoc == Trim(li.fromLocation) && t.toLoc == Trim(li.toLocation)
    ensures t.itemNo == Trim(li.itemCode) && t.quantity == li.qty
    ensures t.comments == "Stock moved to " + t.toLoc + " location for adjustment"
  {
    var to := Trim(li.toLocation);
    TransferItem(Trim(li.fromLocation), to, Trim(li.itemCode), li.qty, "Stock moved to " + to + " location for adjustment")
  }

  /** BuildRequest. */
  function BuildRequest(
    creds: Credentials, company: string, finYear: int, recName: string, tranPrefix: string,
    revePrefix: string, lineItems: seq<LineItem>, recNumber: int, recType: int): (r: TransferRequest)
    ensures r.docNum == DocNum(TransferPrefix(recType, tranPrefix, revePrefix), company, recNumber)
    ensures r.reference == Reference(finYear, company, recName, recNumber)
    ensures r.hdrDesc == "Inventory transfer - Stock " + HeaderLabel(recType) + " #" + IntToString(recNumber)
    ensures r.transType == TransferOut
    ensures r.items == Map(lineItems, TransferItemOf)
    ensures (r.userId, r.password, r.companyId) == (creds.userId, creds.password, creds.companyId)
  {
    TransferRequest(
      creds.userId, creds.password, creds.companyId,
      DocNum(TransferPrefix(recType, tranPrefix, revePrefix), company, recNumber),
      Reference(finYear, company, recName, recNumber),
      "Inventory transfer - Stock " + HeaderLabel(recType) + " #" + IntToString(recNumber),
      TransferOut,
      Map(lineItems, TransferItemOf))
  }

  /** The transfer entry SendTransferEntryAsync builds, with the configured names or their defaults. */
  function TransferRequestFor(
    creds: Credentials, company: string, finYear: int, settings: Settings, lineItems: seq<LineItem>,
    recNumber: int, recType: int): TransferRequest
  {
    BuildRequest(creds, company, finYear, settings.recName.GetOr(UnknownRecName),
      settings.tranPrefix.GetOr(DefaultTranPrefix), settings.revePrefix.GetOr(DefaultRevePrefix),
      lineItems, recNumber, recType)
  }

  // ---------------------------------------------------------------- the adjustment entry

  /**
    * One adjustment line per approved line: an increase books into the destination location
    * with type 5, anything else out of the source location with type 6; the extended cost is
    * cost times quantity.
    */
  function AdjustmentItemOf(li: ApprovalLineItem): (a: AdjustmentItem)
    ensures a.itemNo == Trim(li.itemCode) && a.quantity == li.quantity && a.woffAcct == ""
    ensures a.location == (if li.recType == StockIncrease then Trim(li.toLocation) else Trim(li.fromLocation))
    ensures a.transType == (if li.recType == StockIncrease then AdjustIn else TransferOut)
    ensures a.extCost == li.cost * li.quantity
  {
    var increase := li.recType == StockIncrease;
    AdjustmentItem(
      Trim(li.itemCode),
      if increase then Trim(li.toLocation) else Trim(li.fromLocation),
      "",
      li.quantity,
      li.cost * li.quantity,
      if increase then AdjustIn else TransferOut)
  }

  /** BuildAdjustmentRequest: the reference names the adjustment prefix where a transfer names the rec type. */
  function BuildAdjustmentRequest(
    creds: Credentials, company: string, finYear: int, adjuPrefix: string, lineItems: seq<ApprovalLineItem>,
    recNumber: int): (r: AdjustmentRequest)
    ensures r.docNum == DocNum(adjuPrefix, company, recNumber)
    ensures r.reference == Reference(finYear, company, adjuPrefix, recNumber)
    ensures r.hdrDesc == "Stock adjustment #" + IntToString(recNumber) + " - Approved"
    ensures r.items == Map(lineItems, AdjustmentItemOf)
    ensures (r.userId, r.password, r.companyId) == (creds.userId, creds.password, creds.companyId)
  {
    AdjustmentRequest(
      creds.userId, creds.password, creds.companyId,
      DocNum(adjuPrefix, company, recNumber),
      Reference(finYear, company, adjuPrefix, recNumber),
      "Stock adjustment #" + IntToString(recNumber) + " - Approved",
      Map(lineItems, AdjustmentItemOf))
  }

  /** The adjustment entry SendAdjustmentEntryAsync builds, with the configured prefix or "ADJ". */
  function AdjustmentRequestFor(
    creds: Credentials, company: string, finYear: int, settings: Settings, lineItems: seq<ApprovalLineItem>,
    recNumber: int): AdjustmentRequest
  {
    BuildAdjustmentRequest(creds, company, finYear, settings.adjuPrefix.GetOr(DefaultAdjuPrefix), lineItems, recNumber)
  }

  // ---------------------------------------------------------------- properties of the number

  /** A non-negative number is padded to at least six digits whose value is the number. */
  lemma PadNumberValue(n: nat)
    ensures |PadNumber(n)| >= 6 && AllDigits(PadNumber(n)) && DigitsValue(PadNumber(n)) == n
  {
    var s := NatToString(n);
    NatToStringRoundTrip(n);
    if |s| < 6 {
      LeadingZerosValue(6 - |s|, s);
    }
  }

  /** Below a million the padded number is exactly six digits wide. */
  lemma PadNumberWidth(n: nat)
    requires n < 1000000
    ensures |PadNumber(n)| == 6
  {
    assert Pow10(6) == 1000000;
    NatToStringWidth(n, 6);
  }

  /** From a million on nothing is cut off: the padded number is the plain number, over six digits. */
  lemma PadNumberNoTruncation(n: nat)
    requires n >= 1000000
    ensures PadNumber(n) == NatToString(n) && |PadNumber(n)| > 6
  {
    assert Pow10(6) == 1000000;
    NatToStringLong(n, 6);
  }

  lemma {:induction false} NatToStringLong(n: nat, width: nat)
    requires n >= Pow10(width)
    ensures |NatToString(n)| > width
  {
    if width > 0 {
      assert n / 10 >= Pow10(width - 1);
      NatToStringLong(n / 10, width - 1);
    }
  }

  /**
    * The number can be read back from the end of the document number: six digits below a
    * million, and two record numbers never share a document number.
    */
  lemma DocNumReadsBack(prefix: string, company: string, recNumber: nat)
    requires recNumber < 1000000
    ensures var d := DocNum(prefix, company, recNumber);
      |d| == |prefix| + |company| + 6 && AllDigits(d[|d| - 6..]) && DigitsValue(d[|d| - 6..]) == recNumber
  {
    PadNumberWidth(recNumber);
    PadNumberValue(recNumber);
  }

  lemma DocNumInjective(prefix: string, company: string, a: nat, b: nat)
    ensures DocNum(prefix, company, a) == DocNum(prefix, company, b) ==> a == b
  {
    PadNumberValue(a);
    PadNumberValue(b);
  }

  // ---------------------------------------------------------------- properties of the reference

  /** String.Split(sep) for one separator character. */
  function Split(s: string, sep: char): (parts: seq<string>)
    ensures |parts| >= 1
  {
    if s == [] then [""]
    else if s[0] == sep then [""] + Split(s[1..], sep)
    else
      var rest := Split(s[1..], sep);
      [[s[0]] + rest[0]] + rest[1..]
  }

  lemma {:induction false} SplitNoSeparator(s: string, sep: char)
    requires sep !in s
    ensures Split(s, sep) == [s]
  {
    if s != [] {
      assert s[0] != sep && sep !in s[1..];
      SplitNoSeparator(s[1..], sep);
      assert [s[0]] + s[1..] == s;
    }
  }

  lemma {:induction false} SplitAfterField(a: string, sep: char, b: string)
    requires sep !in a
    ensures Split(a + [sep] + b, sep) == [a] + Split(b, sep)
  {
    if a != [] {
      assert (a + [sep] + b)[0] == a[0] != sep;
      assert (a + [sep] + b)[1..] == a[1..] + [sep] + b;
      SplitAfterField(a[1..], sep, b);
      assert [a[0]] + a[1..] == a;
    } else {
      assert a + [sep] + b == [sep] + b;
    }
  }

  /** Four fields without a separator, joined by it, split back into the four. */
  lemma SplitFour(w: string, x: string, y: string, z: string, sep: char)
    requires sep !in w && sep !in x && sep !in y && sep !in z
    ensures Split(w + [sep] + x + [sep] + y + [sep] + z, sep) == [w, x, y, z]
  {
    var t3 := y + [sep] + z;
    var t2 := x + [sep] + t3;
    var t1 := w + [sep] + t2;
    assert t1 == w + [sep] + x + [sep] + y + [sep] + z;
    SplitNoSeparator(z, sep);
    SplitAfterField(y, sep, z);
    SplitAfterField(x, sep, t3);
    SplitAfterField(w, sep, t2);
  }

  /**
    * The reference splits on '/' into its four fields when the company and name hold no '/', and
    * the year and number read back from their fields.
    */
  lemma ReferenceFields(finYear: int, company: string, name: string, recNumber: int)
    requires '/' !in company && '/' !in name
    requires InInt32(finYear) && InInt32(recNumber)
    ensures var parts := Split(Reference(finYear, company, name, recNumber), '/');
      parts == [IntToString(finYear), company, name, IntToString(recNumber)] &&
      ParseInt32(parts[0]) == Some(finYear) && ParseInt32(parts[3]) == Some(recNumber)
  {
    NoSlash(finYear);
    NoSlash(recNumber);
    SplitFour(IntToString(finYear), company, name, IntToString(recNumber), '/');
    ParseInt32OfIntToString(finYear);
    ParseInt32OfIntToString(recNumber);
  }

  lemma NoSlash(n: int)
    ensures '/' !in IntToString(n)
  {
    var s := IntToString(n);
    if '/' in s {
      var i :| 0 <= i < |s| && s[i] == '/';
      if n < 0 {
        assert s[i] == '-' || IsDigit(s[i]) by {
          if i > 0 {
            assert s[i] == NatToString(-n)[i - 1];
          }
        }
      }
    }
  }

  // ---------------------------------------------------------------- properties of the requests

  /** With nothing configured the defaults appear: UNK, SAGE or REV for a transfer, ADJ for an adjustment. */
  lemma DefaultsApply(creds: Credentials, company: string, finYear: int, transfers: seq<LineItem>,
    approved: seq<ApprovalLineItem>, recNumber: int, recType: int)
    ensures var t := TransferRequestFor(creds, company, finYear, Settings(None, None, None, None), transfers, recNumber, recType);
      t.docNum == (if recType == StockReversal then "REV" else "SAGE") + company + PadNumber(recNumber) &&
      t.reference == Reference(finYear, company, "UNK", recNumber)
    ensures var a := AdjustmentRequestFor(creds, company, finYear, Settings(None, None, None, None), approved, recNumber);
      a.docNum == "ADJ" + company + PadNumber(recNumber) && a.reference == Reference(finYear, company, "ADJ", recNumber)
  {
  }

  /** A transfer carries every line item once, in order, with its quantity and trimmed codes. */
  lemma TransferItemsFollowLines(r: TransferRequest, creds: Credentials, company: string, finYear: int,
    settings: Settings, lineItems: seq<LineItem>, recNumber: int, recType: int, i: int)
    requires r == TransferRequestFor(creds, company, finYear, settings, lineItems, recNumber, recType)
    requires 0 <= i < |lineItems|
    ensures |r.items| == |lineItems|
    ensures r.items[i].quantity == lineItems[i].qty && r.items[i].itemNo == Trim(lineItems[i].itemCode)
    ensures r.items[i].itemNo == [] || (!IsWhiteSpace(r.items[i].itemNo[0]) && !IsWhiteSpace(r.items[i].itemNo[|r.items[i].itemNo| - 1]))
  {
    TrimEnds(lineItems[i].itemCode);
  }

  function ExtCost(a: AdjustmentItem): real {
    a.extCost
  }

  /** The value of an approved line: cost times quantity. */
  function LineValue(li: ApprovalLineItem): real {
    li.cost * li.quantity
  }

  /** The adjustment lines' extended costs add up to the value of the approved lines. */
  lemma {:induction false} ExtCostsAddUp(lineItems: seq<ApprovalLineItem>)
    ensures Sum(Map(lineItems, AdjustmentItemOf), ExtCost) == Sum(lineItems, LineValue)
  {
    if lineItems != [] {
      var n := |lineItems| - 1;
      assert Map(lineItems, AdjustmentItemOf)[..n] == Map(lineItems[..n], AdjustmentItemOf);
      ExtCostsAddUp(lineItems[..n]);
    }
  }

  /** The adjustment's extended costs add up to the document value, cost times quantity over its lines. */
  lemma AdjustmentTotal(creds: Credentials, company: string, finYear: int, settings: Settings,
    lineItems: seq<ApprovalLineItem>, recNumber: int)
    ensures Sum(AdjustmentRequestFor(creds, company, finYear, settings, lineItems, recNumber).items, ExtCost)
      == Sum(lineItems, LineValue)
  {
    ExtCostsAddUp(lineItems);
  }

  /** Every line of an all-increase document is booked into its destination location with type 5. */
  lemma IncreaseDocumentItems(creds: Credentials, company: string, finYear: int, settings: Settings,
    lineItems: seq<ApprovalLineItem>, recNumber: int, i: int)
    requires forall li :: li in lineItems ==> li.recType == StockIncrease
    requires 0 <= i < |lineItems|
    ensures var a := AdjustmentRequestFor(creds, company, finYear, settings, lineItems, recNumber).items[i];
      a.transType == AdjustIn && a.location == Trim(lineItems[i].toLocation)
  {
    assert lineItems[i] in lineItems;
  }
}
