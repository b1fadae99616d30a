/**
  * SendTransferEntryAsync and SendAdjustmentEntryAsync: post an entry to Sage and fold every
  * way the exchange can end (an answer, an unreadable answer, an error status, a timeout, any
  * other exception) into one response record; no exception leaves either method.
  */
module SageResponses {
  import opened Wrappers
  import opened Text
  import opened SaveAdjustment
  import opened ReportQueries
  import opened SageRequests

  /**
    * SageTransferEntryResponse / SageAdjustmentEntryResponse as the service leaves them. The two
    * raw fields are not part of the JSON; Errors is assigned by the service.
    */
  datatype EntryResponse = EntryResponse(
    status: Option<string>, message: Option<string>, docNum: Option<string>, errors: Option<seq<string>>,
    rawResponse: Option<string>, rawRequest: Option<string>)

  /** How an exception ended the try block: the HttpClient timeout, or any other exception with its Message. */
  datatype Fault = Cancelled | Thrown(message: string)

  /** What JsonConvert.DeserializeObject made of the body. */
  datatype Parsed =
    | Unparseable                  // it threw
    | ParsedNull                   // an empty body or the literal null
    | ParsedBody(response: EntryResponse)

  /** What happened once the credentials were found. */
  datatype Exchange =
    | QueryFailed(fault: Fault)    // a settings query threw before the payload was serialised
    | PostFailed(fault: Fault)     // the POST or the body read threw after it
    | Answered(statusCode: int, reasonPhrase: string, body: string, parsed: Parsed)

  const Success: string := "Success"
  const Error: string := "Error"
  const TimedOutMessage: string := "Sage API request timed out. Please try again."
  const TimedOutError: string := "Sage API request timed out."
  /** The raw text recorded on a timeout; the client's own timeout is ClientTimeoutSeconds. */
  const TimedOutRaw: string := "Request timed out after 60 seconds."
  const ClientTimeoutSeconds: int := 120
  const ConnectFailed: string := "Failed to connect to Sage API: "
  /** The message of the NullReferenceException raised by assigning to a null response. */
  const NullReference: string := "Object reference not set to an instance of an object."

  /** HttpResponseMessage.IsSuccessStatusCode. */
  predicate IsSuccessCode(code: int) {
    200 <= code <= 299
  }

  /** The exception thrown by GetSageCredentialsAsync for an unknown company. */
  function MissingCompany(company: string): string {
    "Company '" + company + "' not found in Company_Master."
  }

  function HttpError(code: int, reason: string): string {
    "HTTP " + IntToString(code) + ": " + reason
  }

  /**
    * The two catch blocks: a timeout and any other exception both give an "Error" response with a
    * one-element error list and the payload serialised so far; trace is the exception's
    * ToString().
    */
  function Caught(fault: Fault, payload: string, trace: string): (r: EntryResponse)
    ensures r.status == Some(Error) && r.errors.Some? && |r.errors.value| == 1
    ensures r.rawRequest == Some(payload) && r.rawResponse.Some?
    ensures fault.Cancelled? ==> r.rawResponse == Some(TimedOutRaw) && r.message == Some(TimedOutMessage)
    ensures fault.Thrown? ==> r.message == Some(ConnectFailed + fault.message) && r.errors.value[0] == ConnectFailed + fault.message
  {
    match fault
    case Cancelled =>
      EntryResponse(Some(Error), Some(TimedOutMessage), None, Some([TimedOutError]), Some(TimedOutRaw), Some(payload))
    case Thrown(m) =>
      EntryResponse(Some(Error), Some(ConnectFailed + m), None, Some([ConnectFailed + m]), Some(trace), Some(payload))
  }

  /** The response an answered POST leaves, before the catch blocks are considered. */
  function Received(statusCode: int, reasonPhrase: string, body: string, parsed: Parsed, payload: string, trace: string)
    : EntryResponse
  {
    match parsed
    case ParsedNull => Caught(Thrown(NullReference), payload, trace)
    case Unparseable =>
      var r := EntryResponse(Some(if IsSuccessCode(statusCode) then Success else Error), Some(body), None, None, None, None);
      Completed(r, statusCode, reasonPhrase, body, payload)
    case ParsedBody(r) => Completed(r, statusCode, reasonPhrase, body, payload)
  }

  /** The raw texts attached, and an HTTP error entry when the status failed and no errors were given. */
  function Completed(r: EntryResponse, statusCode: int, reasonPhrase: string, body: string, payload: string): EntryResponse {
    var errors := if !IsSuccessCode(statusCode) && r.errors.None? then Some([HttpError(statusCode, reasonPhrase)]) else r.errors;
    r.(rawResponse := Some(body), rawRequest := Some(payload), errors := errors)
  }

  /** The part of a transfer's response that the save action copies into its reply's sageResults. */
  function AnswerOf(response: EntryResponse): SageAnswer {
    SageAnswer(response.status, response.message, response.rawResponse, response.rawRequest)
  }

  /** The whole send: payloadOf stands for building and serialising the entry with the credentials. */
  function Outcome(company: string, creds: Option<Credentials>, payloadOf: Credentials -> string,
    exchange: Exchange, trace: string): EntryResponse
  {
    if creds.None? then Caught(Thrown(MissingCompany(company)), "", trace)
    else
      match exchange
      case QueryFailed(f) => Caught(f, "", trace)
      case PostFailed(f) => Caught(f, payloadOf(creds.value), trace)
      case Answered(code, reason, body, parsed) => Received(code, reason, body, parsed, payloadOf(creds.value), trace)
  }

  /** The try block, step by step: the payload, the parsed or stand-in response, then its fields. */
  method SendEntry(company: string, creds: Option<Credentials>, payloadOf: Credentials -> string,
    exchange: Exchange, trace: string) returns (response: EntryResponse)
    ensures response == Outcome(company, creds, payloadOf, exchange, trace)
  {
    var jsonPayload := "";
    if creds.None? {
      return Caught(Thrown(MissingCompany(company)), jsonPayload, trace);
    }
    if exchange.QueryFailed? {
      return Caught(exchange.fault, jsonPayload, trace);
    }
    jsonPayload := payloadOf(creds.value);
    if exchange.PostFailed? {
      return Caught(exchange.fault, jsonPayload, trace);
    }
    var sageResponse: EntryResponse;
    match exchange.parsed {
      case Unparseable =>
        sageResponse := EntryResponse(
          Some(if IsSuccessCode(exchange.statusCode) then Success else Error), Some(exchange.body), None, None, None, None);
      case ParsedNull =>
        // the first assignment to the null response throws, and the outer catch answers
        return Caught(Thrown(NullReference), jsonPayload, trace);
      case ParsedBody(r) =>
        sageResponse := r;
    }
    sageResponse := sageResponse.(rawResponse := Some(exchange.body));
    sageResponse := sageResponse.(rawRequest := Some(jsonPayload));
    if !IsSuccessCode(exchange.statusCode) && sageResponse.errors.None? {
      sageResponse := sageResponse.(errors := Some([HttpError(exchange.statusCode, exchange.reasonPhrase)]));
    }
    return sageResponse;
  }

  /** SendTransferEntryAsync: the transfer entry built with the configured names, then sent. */
  method SendTransferEntry(company: string, finYear: int, lineItems: seq<LineItem>, recNumber: int, recType: int,
    creds: Option<Credentials>, settings: Settings, serialize: TransferRequest -> string, exchange: Exchange, trace: string)
    returns (response: EntryResponse)
    ensures response == Outcome(company, creds, TransferPayload(company, finYear, lineItems, recNumber, recType, settings, serialize),
      exchange, trace)
  {
    response := SendEntry(company, creds, TransferPayload(company, finYear, lineItems, recNumber, recType, settings, serialize),
      exchange, trace);
  }

  function TransferPayload(company: string, finYear: int, lineItems: seq<LineItem>, recNumber: int, recType: int,
    settings: Settings, serialize: TransferRequest -> string): Credentials -> string
  {
    (c: Credentials) => serialize(TransferRequestFor(c, company, finYear, settings, lineItems, recNumber, recType))
  }

  /** SendAdjustmentEntryAsync: the adjustment entry built with the configured prefix, then sent. */
  method SendAdjustmentEntry(company: string, finYear: int, lineItems: seq<ApprovalLineItem>, recNumber: int,
    creds: Option<Credentials>, settings: Settings, serialize: AdjustmentRequest -> string, exchange: Exchange, trace: string)
    returns (response: EntryResponse)
    ensures response == Outcome(company, creds, AdjustmentPayload(company, finYear, lineItems, recNumber, settings, serialize),
      exchange, trace)
  {
    response := SendEntry(company, creds, AdjustmentPayload(company, finYear, lineItems, recNumber, settings, serialize),
      exchange, trace);
  }

  function AdjustmentPayload(company: string, finYear: int, lineItems: seq<ApprovalLineItem>, recNumber: int,
    settings: Settings, serialize: AdjustmentRequest -> string): Credentials -> string
  {
    (c: Credentials) => serialize(AdjustmentRequestFor(c, company, finYear, settings, lineItems, recNumber))
  }

  // ---------------------------------------------------------------- properties

  /** The payload serialised before the exchange ended: "" when it ended before serialisation. */
  function PayloadSoFar(creds: Option<Credentials>, payloadOf: Credentials -> string, exchange: Exchange): string {
    if creds.None? || exchange.QueryFailed? then "" else payloadOf(creds.value)
  }

  /** Whatever happens, the raw response and the request serialised so far are attached. */
  lemma RawAlwaysAttached(company: string, creds: Option<Credentials>, payloadOf: Credentials -> string,
    exchange: Exchange, trace: string)
    ensures var r := Outcome(company, creds, payloadOf, exchange, trace);
      r.rawResponse.Some? && r.rawRequest == Some(PayloadSoFar(creds, payloadOf, exchange))
    ensures exchange.Answered? && creds.Some? ==>
      Outcome(company, creds, payloadOf, exchange, trace).rawResponse ==
        Some(if exchange.parsed.ParsedNull? then trace else exchange.body)
  {
  }

  /**
    * A failure before an answer, and an answer that parses to null, end in an "Error" response with
    * a single error entry: the timeout text on a timeout, "Failed to connect to Sage API: ..."
    * otherwise.
    */
  lemma FailuresFolded(company: string, creds: Option<Credentials>, payloadOf: Credentials -> string,
    exchange: Exchange, trace: string)
    requires creds.None? || !exchange.Answered? || exchange.parsed.ParsedNull?
    ensures var r := Outcome(company, creds, payloadOf, exchange, trace);
      r.status == Some(Error) && r.errors.Some? && |r.errors.value| == 1 &&
      (r.errors.value == [TimedOutError] <==> creds.Some? && !exchange.Answered? && exchange.fault.Cancelled?)
  {
  }

  /** An unreadable body is kept as the message, with the status following the HTTP status code. */
  lemma UnparseableBody(company: string, creds: Option<Credentials>, payloadOf: Credentials -> string,
    code: int, reason: string, body: string, trace: string)
    requires creds.Some?
    ensures var r := Outcome(company, creds, payloadOf, Answered(code, reason, body, Unparseable), trace);
      r.message == Some(body) && r.docNum.None? &&
      (r.status == Some(Success) <==> IsSuccessCode(code)) &&
      (r.errors.None? <==> IsSuccessCode(code))
  {
    assert Success != Error;
  }

  /**
    * A parsed body keeps its status, message and number; an "HTTP {code}: {reason}" entry is added
    * exactly when the status failed and the body gave no error list, which is otherwise kept.
    */
  lemma ParsedBodyKept(company: string, creds: Option<Credentials>, payloadOf: Credentials -> string,
    code: int, reason: string, body: string, b: EntryResponse, trace: string)
    requires creds.Some?
    ensures var r := Outcome(company, creds, payloadOf, Answered(code, reason, body, ParsedBody(b)), trace);
      r.status == b.status && r.message == b.message && r.docNum == b.docNum &&
      (r.errors == Some([HttpError(code, reason)]) <==> (!IsSuccessCode(code) && b.errors.None?) || b.errors == Some([HttpError(code, reason)])) &&
      (b.errors.Some? ==> r.errors == b.errors)
  {
  }

  /** A failed status never leaves the error list null. */
  lemma FailedStatusHasErrors(company: string, creds: Option<Credentials>, payloadOf: Credentials -> string,
    exchange: Exchange, trace: string)
    requires exchange.Answered? && !IsSuccessCode(exchange.statusCode)
    ensures Outcome(company, creds, payloadOf, exchange, trace).errors.Some?
  {
  }

  /** The recorded timeout text names 60 seconds, while the client gives up after 120. */
  lemma TimeoutTextDisagrees()
    ensures TimedOutRaw != "Request timed out after " + IntToString(ClientTimeoutSeconds) + " seconds."
  {
    assert IntToString(ClientTimeoutSeconds) == "120";
    assert TimedOutRaw[24] != ("Request timed out after " + "120" + " seconds.")[24];
  }
}
