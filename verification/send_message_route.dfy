/** The operator's send endpoint (`POST /api/sendMessage`): validate the
    request, check the carrier configuration, send through the carrier,
    and only after a successful send store the outgoing message. */
module SendMessageRoute {
  import opened Common
  import opened MessageStore

  /** The JSON body; an absent field is `None`. */
  datatype SendRequest = SendRequest(to: Option<string>, message: Option<string>)

  /** The three environment variables the handler needs. */
  datatype CarrierConfig = CarrierConfig(
    accountSid: Option<string>,
    authToken: Option<string>,
    phoneNumber: Option<string>)

  /** What is handed to the carrier's `messages.create`. */
  datatype OutboundSms = OutboundSms(from: string, to: string, body: string)

  /** What the carrier call can throw: an `Error` with a message, or some
      other value. */
  datatype Thrown = ErrorObject(message: string) | OtherValue

  /** The carrier: the message sid on success, the thrown value otherwise. */
  type Carrier = OutboundSms -> Result<string, Thrown>

  datatype SendResponse = SendResponse(
    status: nat,
    success: bool,
    messageSid: Option<string>,
    error: Option<string>)

  datatype SendResult = SendResult(store: Store, response: SendResponse)

  const MissingFields: string := "Missing required fields: to, message"
  const NotConfigured: string := "Twilio credentials not configured"
  const UnknownError: string := "Unknown error occurred"

  predicate Configured(c: CarrierConfig)
  {
    Truthy(c.accountSid) && Truthy(c.authToken) && Truthy(c.phoneNumber)
  }

  /** `error instanceof Error ? error.message : "Unknown error occurred"`. */
  function ErrorText(e: Thrown): string
  {
    match e
    case ErrorObject(msg) => msg
    case OtherValue => UnknownError
  }

  /** `POST` of the send endpoint.  A request without `to` or `message`
      is a 400 and missing configuration a 500, both before any send; a
      failed send is a 500 carrying the thrown message.  In all three the
      store is untouched.  A successful send answers with the carrier's sid
      and appends exactly one outgoing message from the configured number. */
  function SendMessage(
    s: Store, req: SendRequest, config: CarrierConfig, carrier: Carrier, id: string, now: nat)
    : (r: SendResult)
    ensures !(Truthy(req.to) && Truthy(req.message)) ==>
      r == SendResult(s, SendResponse(400, false, None, Some(MissingFields)))
    ensures Truthy(req.to) && Truthy(req.message) && !Configured(config) ==>
      r == SendResult(s, SendResponse(500, false, None, Some(NotConfigured)))
    ensures Truthy(req.to) && Truthy(req.message) && Configured(config) ==>
      var sent := carrier(OutboundSms(config.phoneNumber.value, req.to.value, req.message.value));
      && (sent.Err? ==> r == SendResult(s, SendResponse(500, false, None, Some(ErrorText(sent.error)))))
      && (sent.Ok? ==>
            && r.response == SendResponse(200, true, Some(sent.value), None)
            && r.store.messages == s.messages
                 + [Message(id, config.phoneNumber.value, req.to.value, req.message.value, Outgoing, now)])
    ensures r.response.success <==> r.store != s
    ensures r.response.success <==> |r.store.messages| == |s.messages| + 1
    ensures !r.response.success ==> r.store == s
    ensures Valid(s) ==> Valid(r.store)
  {
    if !(Truthy(req.to) && Truthy(req.message)) then
      SendResult(s, SendResponse(400, false, None, Some(MissingFields)))
    else if !Configured(config) then
      SendResult(s, SendResponse(500, false, None, Some(NotConfigured)))
    else
      var from, to, body := config.phoneNumber.value, req.to.value, req.message.value;
      match carrier(OutboundSms(from, to, body))
      case Err(e) => SendResult(s, SendResponse(500, false, None, Some(ErrorText(e))))
      case Ok(sid) =>
        var added := AddMessage(s, Draft(from, to, body, Outgoing), id, now);
        SendResult(added.store, SendResponse(200, true, Some(sid), None))
  }
}
