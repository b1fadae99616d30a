/**
  * SaveStockAdjustment: the grid's line items arrive as JSON, are grouped by rec type, and each
  * group is renumbered and inserted as one transaction through StockAdjustment_Insert. A saved
  * group triggers the record-created mail, and a saved Stock Decrease (rec type 10) group is
  * sent at once as a Sage transfer entry. The answers of the stored procedure are inputs of the
  * model, one per group in the order the groups are processed.
  */
module SaveAdjustment {
  import opened Wrappers
  import opened Text
  import opened Seqs
  import opened DbReturnResult
  import opened ResultMessage

  /** StockAdjustmentLineItem. */
  datatype LineItem = LineItem(
    stockRecSno: int,
    recType: int,
    fromLocation: string,
    toLocation: string,
    itemCode: string,
    itemDescription: string,
    qty: real,
    cost: real,
    glCode: string)

  const NoLineItems: string := "No line items provided."
  const ErrorPrefix: string := "An error occurred: "
  const SomeFailed: string := "Some transactions failed:\n"
  const DefaultSessionId: int := 1
  const StockDecrease: int := 10

  /** One call of StockAdjustment_Insert: fin year and record number 0 ask for new ones. */
  datatype InsertCall = InsertCall(recType: int, details: seq<LineItem>, sessionId: int)

  /** One call of SendRecordCreatedEmailAsync. */
  datatype RecordCreatedMail = RecordCreatedMail(finYear: int, recType: int, recNumber: int, documentReference: string)

  /** One call of SendTransferEntryAsync, with what the reply's sageResults entry repeats of it. */
  datatype TransferCall = TransferCall(recType: int, recNumber: int, documentReference: string, items: seq<LineItem>)

  /** What the reply copies of the transfer's response: Status, Message, RawResponse and RawRequest. */
  datatype SageAnswer = SageAnswer(status: Option<string>, message: Option<string>,
                                   rawResponse: Option<string>, rawRequest: Option<string>)

  /** One entry of the reply's sageResults: the transfer's document and Sage's answer to it. */
  datatype SageResult = SageResult(recType: int, recNumber: int, documentReference: string,
                                   sageStatus: Option<string>, sageMessage: Option<string>,
                                   sageRawResponse: Option<string>, sageRawRequest: Option<string>)

  function SageResultOf(call: TransferCall, answer: SageAnswer): SageResult {
    SageResult(call.recType, call.recNumber, call.documentReference,
               answer.status, answer.message, answer.rawResponse, answer.rawRequest)
  }

  /** The sageResults list: one entry per transfer sent, in order, with the answer to that transfer. */
  function SageResults(transfers: seq<TransferCall>, sage: TransferCall -> SageAnswer): (r: seq<SageResult>)
    ensures |r| == |transfers|
  {
    Map(transfers, (call: TransferCall) => SageResultOf(call, sage(call)))
  }

  /** One more transfer adds one entry, for that transfer, at the end of sageResults. */
  lemma SageResultsAppend(transfers: seq<TransferCall>, call: TransferCall, sage: TransferCall -> SageAnswer)
    ensures SageResults(transfers + [call], sage) == SageResults(transfers, sage) + [SageResultOf(call, sage(call))]
  {
  }

  /** What the loop over the groups has done and collected so far. */
  datatype SaveLog = SaveLog(
    inserts: seq<InsertCall>,
    successes: seq<string>,
    errors: seq<string>,
    mails: seq<RecordCreatedMail>,
    transfers: seq<TransferCall>)

  const EmptyLog: SaveLog := SaveLog([], [], [], [], [])

  /** The JSON reply: a refusal before any insert, or the consolidated result of the groups. */
  datatype SaveReply =
    | SaveRefused(message: string)
    | SaveFailed(message: string, successCount: nat, errorCount: nat, sageResults: seq<SageResult>)
    | Saved(message: string, transactionCount: nat, sageResults: seq<SageResult>)

  /** The reply together with the calls the action made on the way. */
  datatype SaveOutcome = SaveOutcome(reply: SaveReply, log: SaveLog)

  // ---------------------------------------------------------------- grouping

  function RecTypeOf(li: LineItem): int {
    li.recType
  }

  /** The keys of GroupBy(x => x.RecType): each rec type once, in order of first appearance. */
  function GroupKeys(items: seq<LineItem>): (keys: seq<int>)
    ensures NoDuplicates(keys)
    ensures forall rt :: rt in keys <==> exists li :: li in items && li.recType == rt
  {
    var types := Map(items, RecTypeOf);
    assert forall rt :: rt in types <==> exists li :: li in items && li.recType == rt by {
      forall rt | rt in types ensures exists li :: li in items && li.recType == rt {
        var k :| 0 <= k < |types| && types[k] == rt;
        assert items[k] in items;
      }
      forall li | li in items ensures li.recType in types {
        var k :| 0 <= k < |items| && items[k] == li;
        assert types[k] == li.recType;
      }
    }
    Distinct(types)
  }

  /** The members of one group, in input order. */
  function Group(items: seq<LineItem>, rt: int): (g: seq<LineItem>)
    ensures forall li :: li in g <==> li in items && li.recType == rt
  {
    Filter(items, (li: LineItem) => li.recType == rt)
  }

  /** The group as handed to the stored procedure: StockRecSno set to 1, 2, 3, ... */
  function Renumbered(group: seq<LineItem>): seq<LineItem> {
    seq(|group|, i requires 0 <= i < |group| => group[i].(stockRecSno := i + 1))
  }

  /** Renumbering sets StockRecSno to the position plus one and leaves every other field alone. */
  lemma RenumberedNumbering(group: seq<LineItem>)
    ensures |Renumbered(group)| == |group|
    ensures forall i :: 0 <= i < |group| ==>
        Renumbered(group)[i].stockRecSno == i + 1 &&
        Renumbered(group)[i].(stockRecSno := group[i].stockRecSno) == group[i]
  {
  }

  /** The loop that renumbers a group's items in place. */
  method Renumber(items: array<LineItem>)
    modifies items
    ensures items[..] == Renumbered(old(items[..]))
  {
    var i := 0;
    while i < items.Length
      invariant 0 <= i <= items.Length
      invariant forall k :: 0 <= k < i ==> items[k] == old(items[k]).(stockRecSno := k + 1)
      invariant forall k :: i <= k < items.Length ==> items[k] == old(items[k])
    {
      items[i] := items[i].(stockRecSno := i + 1);
      i := i + 1;
    }
  }

  // ---------------------------------------------------------------- one group

  /** What the action reads out of the stored procedure's message for the mail and the transfer. */
  datatype MessageInfo = MessageInfo(recNumber: int, documentReference: string, finYear: int)

  /** ExtractRecNumber, ExtractDocumentReference and the "(\d{6})/" fin-year match. */
  function ReadMessage(message: Option<string>): (info: MessageInfo)
    ensures info.recNumber >= 0 && 0 <= info.finYear < 1000000
    ensures message.None? ==> info == MessageInfo(0, "", 0)
  {
    MessageInfo(ExtractRecNumber(message), ExtractDocumentReference(message),
                if message.Some? then ExtractFinYear(message.value) else 0)
  }

  /**
    * What one group adds: its insert call; then, when ResultVal is 1, its message, the mail
    * (not sent when the message is NULL, since reading the fin year out of it throws) and, for a
    * Stock Decrease group, the transfer entry; otherwise an error line "RecType {rt}: {message}".
    * read is ReadMessage in the action; the loop is stated over any such reader.
    */
  function GroupStep(log: SaveLog, rt: int, details: seq<LineItem>, sessionId: int, result: DbReturnResult,
                     read: Option<string> -> MessageInfo): SaveLog {
    var message := result.resultMessage;
    var logged := log.(inserts := log.inserts + [InsertCall(rt, details, sessionId)]);
    if result.resultVal == 1 then
      var info := read(message);
      logged.(
        successes := log.successes + [message.GetOr("")],
        mails := if message.Some? then log.mails + [RecordCreatedMail(info.finYear, rt, info.recNumber, info.documentReference)]
                 else log.mails,
        transfers := if rt == StockDecrease then log.transfers + [TransferCall(rt, info.recNumber, info.documentReference, details)]
                     else log.transfers)
    else
      logged.(errors := log.errors + ["RecType " + IntToString(rt) + ": " + message.GetOr("")])
  }

  /** What GroupStep does to each list, leaving aside the values read out of the message. */
  lemma GroupStepFields(log: SaveLog, rt: int, details: seq<LineItem>, sessionId: int, result: DbReturnResult,
                        read: Option<string> -> MessageInfo)
    ensures var next := GroupStep(log, rt, details, sessionId, result, read);
      && next.inserts == log.inserts + [InsertCall(rt, details, sessionId)]
      && (result.resultVal == 1 ==> |next.successes| == |log.successes| + 1 && next.errors == log.errors)
      && (result.resultVal != 1 ==> next.successes == log.successes && |next.errors| == |log.errors| + 1)
      && (result.resultVal == 1 && rt == StockDecrease ==>
            |next.transfers| == |log.transfers| + 1 && next.transfers[..|log.transfers|] == log.transfers &&
            next.transfers[|log.transfers|].recType == rt && next.transfers[|log.transfers|].items == details)
      && (result.resultVal != 1 || rt != StockDecrease ==> next.transfers == log.transfers)
  {
  }

  /** The loop over the groups keys[0..], one stored-procedure answer each. */
  function SaveGroups(items: seq<LineItem>, keys: seq<int>, sessionId: int, results: seq<DbReturnResult>,
                             read: Option<string> -> MessageInfo): SaveLog
    requires |results| == |keys|
  {
    if keys == [] then EmptyLog
    else
      var n := |keys| - 1;
      GroupStep(SaveGroups(items, keys[..n], sessionId, results[..n], read), keys[n], Renumbered(Group(items, keys[n])), sessionId, results[n], read)
  }

  // ---------------------------------------------------------------- the action

  /** The consolidated reply: any failed group makes it a failure; one success is reported as is. */
  function Summary(log: SaveLog, sageResults: seq<SageResult>): (reply: SaveReply)
    ensures reply.SaveFailed? <==> log.errors != []
    ensures reply.Saved? <==> log.errors == []
    ensures !reply.SaveRefused? && reply.sageResults == sageResults
  {
    var n := |log.successes|;
    if log.errors != [] then
      SaveFailed(SomeFailed + Join("\n", log.errors), n, |log.errors|, sageResults)
    else if n == 1 then Saved(log.successes[0], n, sageResults)
    else Saved(IntToString(n) + " transactions created successfully:\n" + Join("\n", log.successes), n, sageResults)
  }

  /** The stored-procedure answers fit the groups of a successfully read list. */
  predicate AnswersFit(parsed: Result<Option<seq<LineItem>>, string>, results: seq<DbReturnResult>) {
    parsed.Success? && parsed.value.Some? ==> |results| == |GroupKeys(parsed.value.value)|
  }

  /**
    * SaveStockAdjustment. json is the lineItemsJson form value, parsed what deserializing it gave
    * (Failure: the exception's message; None: a JSON null), userId the session user, results the
    * stored procedure's answers and sage what SendTransferEntryAsync answers to a transfer.
    */
  function SaveResult(json: string, parsed: Result<Option<seq<LineItem>>, string>, userId: Option<int>,
                      results: seq<DbReturnResult>, sage: TransferCall -> SageAnswer): (out: SaveOutcome)
    requires AnswersFit(parsed, results)
  {
    if IsBlank(json) then SaveOutcome(SaveRefused(NoLineItems), EmptyLog)
    else
      match parsed
      case Failure(e) => SaveOutcome(SaveRefused(ErrorPrefix + e), EmptyLog)
      case Success(None) => SaveOutcome(SaveRefused(NoLineItems), EmptyLog)
      case Success(Some(items)) =>
        if items == [] then SaveOutcome(SaveRefused(NoLineItems), EmptyLog)
        else
          var log := SaveGroups(items, GroupKeys(items), userId.GetOr(DefaultSessionId), results, ReadMessage);
          SaveOutcome(Summary(log, SageResults(log.transfers, sage)), log)
  }

  /** The action as it runs: the foreach over the groups, renumbering each in place. */
  method SaveStockAdjustment(json: string, parsed: Result<Option<seq<LineItem>>, string>, userId: Option<int>,
                             results: seq<DbReturnResult>, sage: TransferCall -> SageAnswer) returns (out: SaveOutcome)
    requires AnswersFit(parsed, results)
    ensures out == SaveResult(json, parsed, userId, results, sage)
  {
    if IsBlank(json) {
      return SaveOutcome(SaveRefused(NoLineItems), EmptyLog);
    }
    if parsed.Failure? {
      return SaveOutcome(SaveRefused(ErrorPrefix + parsed.error), EmptyLog);
    }
    if parsed.value.None? || parsed.value.value == [] {
      return SaveOutcome(SaveRefused(NoLineItems), EmptyLog);
    }
    var items := parsed.value.value;
    var sessionId := userId.GetOr(DefaultSessionId);
    var keys := GroupKeys(items);
    var inserts, successes, errors, mails, transfers := [], [], [], [], [];
    var sageResults := [];
    var g := 0;
    while g < |keys|
      invariant 0 <= g <= |keys|
      invariant SaveLog(inserts, successes, errors, mails, transfers) == SaveGroups(items, keys[..g], sessionId, results[..g], ReadMessage)
      invariant sageResults == SageResults(transfers, sage)
    {
      var rt := keys[g];
      var group := Group(items, rt);
      var details := new LineItem[|group|](i requires 0 <= i < |group| => group[i]);
      assert details[..] == group;
      Renumber(details);
      SaveGroupsStep(items, keys, sessionId, results, ReadMessage, g);
      inserts := inserts + [InsertCall(rt, details[..], sessionId)];
      var result := results[g];
      var message := result.resultMessage;
      if result.resultVal == 1 {
        successes := successes + [message.GetOr("")];
        var info := ReadMessage(message);
        if message.Some? {
          mails := mails + [RecordCreatedMail(info.finYear, rt, info.recNumber, info.documentReference)];
        }
        if rt == StockDecrease {
          var call := TransferCall(rt, info.recNumber, info.documentReference, details[..]);
          SageResultsAppend(transfers, call, sage);
          sageResults := sageResults + [SageResultOf(call, sage(call))];
          transfers := transfers + [call];
        }
      } else {
        errors := errors + ["RecType " + IntToString(rt) + ": " + message.GetOr("")];
      }
      g := g + 1;
    }
    assert keys[..g] == keys && results[..g] == results;
    var log := SaveLog(inserts, successes, errors, mails, transfers);
    return SaveOutcome(Summary(log, sageResults), log);
  }

  /** One more turn of the loop is one more GroupStep. */
  lemma SaveGroupsStep(items: seq<LineItem>, keys: seq<int>, sessionId: int, results: seq<DbReturnResult>,
                       read: Option<string> -> MessageInfo, g: nat)
    requires |results| == |keys| && g < |keys|
    ensures SaveGroups(items, keys[..g + 1], sessionId, results[..g + 1], read)
      == GroupStep(SaveGroups(items, keys[..g], sessionId, results[..g], read), keys[g],
                   Renumbered(Group(items, keys[g])), sessionId, results[g], read)
  {
    assert keys[..g + 1][..g] == keys[..g];
    assert results[..g + 1][..g] == results[..g];
  }

  // ---------------------------------------------------------------- properties

  /**
    * The loop inserts one transaction per group, in order, each with that group's items
    * renumbered; every group ends up either among the successes or among the errors, and there
    * is no error exactly when every answer has ResultVal 1.
    */
  lemma {:induction false} SaveGroupsShape(items: seq<LineItem>, keys: seq<int>, sessionId: int, results: seq<DbReturnResult>,
                             read: Option<string> -> MessageInfo)
    requires |results| == |keys|
    ensures var log := SaveGroups(items, keys, sessionId, results, read);
      && |log.inserts| == |keys|
      && (forall g :: 0 <= g < |keys| ==>
            log.inserts[g] == InsertCall(keys[g], Renumbered(Group(items, keys[g])), sessionId))
      && |log.successes| + |log.errors| == |keys|
      && (log.errors == [] <==> forall g :: 0 <= g < |keys| ==> results[g].resultVal == 1)
  {
    if keys != [] {
      var n := |keys| - 1;
      SaveGroupsShape(items, keys[..n], sessionId, results[..n], read);
      var log := SaveGroups(items, keys[..n], sessionId, results[..n], read);
      GroupStepFields(log, keys[n], Renumbered(Group(items, keys[n])), sessionId, results[n], read);
      if log.errors == [] && results[n].resultVal == 1 {
        forall g | 0 <= g < |keys| ensures results[g].resultVal == 1 {
          if g < n {
            assert results[..n][g] == results[g];
          }
        }
      }
      if forall g :: 0 <= g < |keys| ==> results[g].resultVal == 1 {
        forall g | 0 <= g < n ensures results[..n][g].resultVal == 1 {
          assert results[..n][g] == results[g];
        }
      }
    }
  }

  /** Every transfer entry is for the Stock Decrease group, with that group's renumbered items. */
  lemma {:induction false} TransfersAreDecrease(items: seq<LineItem>, keys: seq<int>, sessionId: int, results: seq<DbReturnResult>,
                             read: Option<string> -> MessageInfo)
    requires |results| == |keys|
    ensures forall t :: t in SaveGroups(items, keys, sessionId, results, read).transfers ==>
      t.recType == StockDecrease && t.items == Renumbered(Group(items, StockDecrease))
  {
    if keys != [] {
      var n := |keys| - 1;
      TransfersAreDecrease(items, keys[..n], sessionId, results[..n], read);
      var log := SaveGroups(items, keys[..n], sessionId, results[..n], read);
      GroupStepFields(log, keys[n], Renumbered(Group(items, keys[n])), sessionId, results[n], read);
      var transfers := SaveGroups(items, keys, sessionId, results, read).transfers;
      assert transfers == GroupStep(log, keys[n], Renumbered(Group(items, keys[n])), sessionId, results[n], read).transfers;
      forall t | t in transfers
        ensures t.recType == StockDecrease && t.items == Renumbered(Group(items, StockDecrease))
      {
        if t !in log.transfers {
          assert transfers != log.transfers;
        }
      }
    }
  }

  /** Group g is the Stock Decrease group and its insert answered ResultVal 1. */
  predicate SavedDecreaseAt(keys: seq<int>, results: seq<DbReturnResult>, g: int) {
    0 <= g < |keys| && g < |results| && keys[g] == StockDecrease && results[g].resultVal == 1
  }

  /** A transfer entry is sent exactly when some Stock Decrease group was saved (ResultVal 1). */
  lemma {:induction false} TransferIffSavedDecrease(items: seq<LineItem>, keys: seq<int>, sessionId: int, results: seq<DbReturnResult>,
                             read: Option<string> -> MessageInfo)
    requires |results| == |keys|
    ensures SaveGroups(items, keys, sessionId, results, read).transfers != [] <==>
      exists g :: SavedDecreaseAt(keys, results, g)
  {
    if keys != [] {
      var n := |keys| - 1;
      TransferIffSavedDecrease(items, keys[..n], sessionId, results[..n], read);
      var log := SaveGroups(items, keys[..n], sessionId, results[..n], read);
      GroupStepFields(log, keys[n], Renumbered(Group(items, keys[n])), sessionId, results[n], read);
      forall g | 0 <= g < n ensures SavedDecreaseAt(keys[..n], results[..n], g) <==> SavedDecreaseAt(keys, results, g) {
        assert keys[..n][g] == keys[g] && results[..n][g] == results[g];
      }
      if exists g :: SavedDecreaseAt(keys, results, g) {
        var g :| SavedDecreaseAt(keys, results, g);
        if g < n {
          assert SavedDecreaseAt(keys[..n], results[..n], g);
        }
      }
      if log.transfers != [] {
        var g :| SavedDecreaseAt(keys[..n], results[..n], g);
        assert SavedDecreaseAt(keys, results, g);
      } else if results[n].resultVal == 1 && keys[n] == StockDecrease {
        assert SavedDecreaseAt(keys, results, n);
      }
    }
  }

  /** The groups have distinct rec types, so at most one transfer entry is sent. */
  lemma {:induction false} AtMostOneTransfer(items: seq<LineItem>, keys: seq<int>, sessionId: int, results: seq<DbReturnResult>,
                             read: Option<string> -> MessageInfo)
    requires |results| == |keys| && NoDuplicates(keys)
    ensures |SaveGroups(items, keys, sessionId, results, read).transfers| <= 1
  {
    if keys != [] {
      var n := |keys| - 1;
      assert NoDuplicates(keys[..n]);
      AtMostOneTransfer(items, keys[..n], sessionId, results[..n], read);
      TransferIffSavedDecrease(items, keys[..n], sessionId, results[..n], read);
      var log := SaveGroups(items, keys[..n], sessionId, results[..n], read);
      GroupStepFields(log, keys[n], Renumbered(Group(items, keys[n])), sessionId, results[n], read);
    }
  }

  /** Every item falls in exactly one group: the one of its own rec type. */
  lemma GroupsPartitionItems(items: seq<LineItem>, li: LineItem)
    requires li in items
    ensures var keys := GroupKeys(items);
      && (exists g :: 0 <= g < |keys| && keys[g] == li.recType)
      && (forall g :: 0 <= g < |keys| ==> (li in Group(items, keys[g]) <==> keys[g] == li.recType))
  {
    var keys := GroupKeys(items);
    assert li.recType in keys;
  }

  /**
    * The action refuses before any insert exactly when the JSON is blank, cannot be read, or holds
    * no items; the refusal says "No line items provided." unless reading threw.
    */
  lemma SaveRefusals(json: string, parsed: Result<Option<seq<LineItem>>, string>, userId: Option<int>,
                     results: seq<DbReturnResult>, sage: TransferCall -> SageAnswer)
    requires AnswersFit(parsed, results)
    ensures var out := SaveResult(json, parsed, userId, results, sage);
      && (out.reply.SaveRefused? <==>
            IsBlank(json) || parsed.Failure? || parsed.value.None? || parsed.value.value == [])
      && (out.reply.SaveRefused? ==> out.log == EmptyLog)
      && (out.reply.SaveRefused? && out.reply.message != NoLineItems ==>
            !IsBlank(json) && parsed.Failure? && out.reply.message == ErrorPrefix + parsed.error)
  {
  }

  /**
    * For a non-empty list: the reply counts one transaction per distinct rec type, it is a
    * success exactly when every insert answered ResultVal 1, and the session id defaults to 1.
    */
  lemma SaveCounts(json: string, items: seq<LineItem>, userId: Option<int>, results: seq<DbReturnResult>,
                   sage: TransferCall -> SageAnswer)
    requires !IsBlank(json) && items != [] && |results| == |GroupKeys(items)|
    ensures var keys := GroupKeys(items);
      var out := SaveResult(json, Success(Some(items)), userId, results, sage);
      && |out.log.inserts| == |keys|
      && (forall g :: 0 <= g < |keys| ==>
            out.log.inserts[g].sessionId == (if userId.Some? then userId.value else DefaultSessionId))
      && (out.reply.Saved? <==> forall g :: 0 <= g < |keys| ==> results[g].resultVal == 1)
      && (out.reply.Saved? ==> out.reply.transactionCount == |keys|)
      && (out.reply.SaveFailed? ==> out.reply.successCount + out.reply.errorCount == |keys|)
  {
    SaveGroupsShape(items, GroupKeys(items), userId.GetOr(DefaultSessionId), results, ReadMessage);
  }

  /**
    * The reply's sageResults: empty unless the Stock Decrease group was saved, and then one entry
    * for its transfer, carrying the document read from the stored procedure's message and the
    * status, message and raw texts of Sage's answer to that transfer.
    */
  lemma SaveSageResults(json: string, items: seq<LineItem>, userId: Option<int>, results: seq<DbReturnResult>,
                        sage: TransferCall -> SageAnswer)
    requires !IsBlank(json) && items != [] && |results| == |GroupKeys(items)|
    ensures var keys := GroupKeys(items);
      var out := SaveResult(json, Success(Some(items)), userId, results, sage);
      && !out.reply.SaveRefused?
      && |out.reply.sageResults| <= 1
      && (out.reply.sageResults != [] <==> exists g :: SavedDecreaseAt(keys, results, g))
      && (forall e :: e in out.reply.sageResults ==>
            exists call :: call in out.log.transfers && e == SageResultOf(call, sage(call)) &&
              call.recType == StockDecrease && call.items == Renumbered(Group(items, StockDecrease)))
  {
    var keys := GroupKeys(items);
    var sessionId := userId.GetOr(DefaultSessionId);
    var log := SaveGroups(items, keys, sessionId, results, ReadMessage);
    AtMostOneTransfer(items, keys, sessionId, results, ReadMessage);
    TransferIffSavedDecrease(items, keys, sessionId, results, ReadMessage);
    TransfersAreDecrease(items, keys, sessionId, results, ReadMessage);
    var r := SageResults(log.transfers, sage);
    forall e | e in r
      ensures exists call ::
        call in log.transfers && e == SageResultOf(call, sage(call)) &&
        call.recType == StockDecrease && call.items == Renumbered(Group(items, StockDecrease))
    {
      var i :| 0 <= i < |r| && r[i] == e;
      assert log.transfers[i] in log.transfers;
    }
  }
}
