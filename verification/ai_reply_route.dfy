/** The suggestion endpoint (`POST /api/ai-reply`): validate the request,
    take the last six messages of the conversation from the store, and let
    the reply service generate a suggestion.  The handler only reads the
    store, so it returns no new store. */
module AiReplyRoute {
  import opened Common
  import opened Strings
  import opened MessageStore
  import opened ReplyService

  datatype AiReplyRequest = AiReplyRequest(userMessage: Option<string>, phoneNumber: Option<string>)

  datatype AiReplyResponse = AiReplyResponse(
    status: nat,
    success: bool,
    reply: Option<string>,
    context: Option<string>,
    error: Option<string>)

  const ContextWindow: nat := 6
  const MissingFields: string := "Missing userMessage or phoneNumber"
  /** What the service's constructor throws without an API key. */
  const KeyNotConfigured: string := "GEMINI_API_KEY is not configured"
  const ApologyReply: string :=
    "I apologize, but I'm having trouble generating a response right now. Please try again or contact our support team directly."

  /** The `context` field of a successful answer. */
  function ContextNote(n: nat): string
  {
    "Generated response based on " + NatToDecimal(n) + " previous messages"
  }

  /** Each message becomes `{ message: body, direction }`. */
  function ToHistory(ms: seq<Message>): (h: seq<HistoryEntry>)
    ensures |h| == |ms|
    ensures forall i :: 0 <= i < |ms| ==> h[i] == HistoryEntry(ms[i].body, ms[i].direction)
  {
    seq(|ms|, i requires 0 <= i < |ms| => HistoryEntry(ms[i].body, ms[i].direction))
  }

  /** The history handed to the service: the last (at most) six messages
      involving `phone`, oldest first, each reduced to body and direction. */
  function ConversationHistory(s: Store, phone: string): (h: seq<HistoryEntry>)
    ensures var c := GetMessagesByPhoneNumber(s, phone);
      && |h| == (if |c| <= ContextWindow then |c| else ContextWindow)
      && forall i :: 0 <= i < |h| ==>
           h[i] == HistoryEntry(c[|c| - |h| + i].body, c[|c| - |h| + i].direction)
  {
    ToHistory(Window(GetMessagesByPhoneNumber(s, phone), ContextWindow))
  }

  /** `POST` of the suggestion endpoint.  A request without `userMessage`
      or `phoneNumber` is a 400 whatever the model would do; without an
      API key the service cannot be built and the answer is a 500 with the
      fixed apology as reply; otherwise the answer carries the service's
      reply, at most 1603 characters, and names how many messages of
      context (at most six) were supplied. */
  function AiReply(s: Store, req: AiReplyRequest, apiKey: Option<string>, model: Model)
    : (r: AiReplyResponse)
    ensures !(Truthy(req.userMessage) && Truthy(req.phoneNumber)) ==>
      r == AiReplyResponse(400, false, None, None, Some(MissingFields))
    ensures Truthy(req.userMessage) && Truthy(req.phoneNumber) && !Truthy(apiKey) ==>
      r == AiReplyResponse(500, false, Some(ApologyReply), None, Some(KeyNotConfigured))
    ensures Truthy(req.userMessage) && Truthy(req.phoneNumber) && Truthy(apiKey) ==>
      var h := ConversationHistory(s, req.phoneNumber.value);
      && r.status == 200 && r.success && r.error == None
      && r.reply == Some(GenerateContextualResponse(req.userMessage.value, req.phoneNumber.value, h, model))
      && r.context == Some(ContextNote(|h|))
      && |h| <= ContextWindow
    ensures r.success ==> r.reply.Some? && |r.reply.value| <= MaxReplyLength + |TruncationMarker|
  {
    if !(Truthy(req.userMessage) && Truthy(req.phoneNumber)) then
      AiReplyResponse(400, false, None, None, Some(MissingFields))
    else
      var phone := req.phoneNumber.value;
      var history := ConversationHistory(s, phone);
      if !Truthy(apiKey) then
        AiReplyResponse(500, false, Some(ApologyReply), None, Some(KeyNotConfigured))
      else
        var reply := GenerateContextualResponse(req.userMessage.value, phone, history, model);
        AiReplyResponse(200, true, Some(reply), Some(ContextNote(|history|)), None)
  }

  /** The route takes six messages and the service keeps five of them, so
      the model sees exactly the last five messages of the conversation. */
  lemma ModelSeesLastFive(s: Store, phone: string)
    ensures HistoryContext(ConversationHistory(s, phone))
         == HistoryContext(ToHistory(Window(GetMessagesByPhoneNumber(s, phone), HistoryWindow)))
  {
    var c := GetMessagesByPhoneNumber(s, phone);
    assert Window(ToHistory(Window(c, ContextWindow)), HistoryWindow)
        == ToHistory(Window(c, HistoryWindow));
  }
}
