/** The carrier's inbound webhook (`POST /api/webhook`): the incoming
    message is stored, a static auto-reply is built from the raw `Body`
    field, and that reply is stored as an outgoing message with sender and
    recipient swapped.  The language model is not involved.  The reply is
    what the handler wraps in a TwiML document with status 200. */
module WebhookRoute {
  import opened Common
  import opened MessageStore
  import opened ChatPreviews

  /** The form fields the handler stores; the media fields and the
      message sid are read but never used. */
  datatype WebhookForm = WebhookForm(from: string, to: string, body: Option<string>)

  datatype WebhookResult = WebhookResult(store: Store, status: nat, reply: string)

  const ReplyOpening: string := "Thanks for your message: \""
  const ReplyClosing: string := "\". This is an automated response from our WhatsApp chat app!"

  /** `${data.Body}` in a template literal: an absent field reads as `null`
      and is rendered as the text "null". */
  function Interpolated(body: Option<string>): string
  {
    match body
    case Some(b) => b
    case None => "null"
  }

  /** `data.Body || ""`: the body stored for the incoming message. */
  function StoredBody(body: Option<string>): string
  {
    match body
    case Some(b) => b
    case None => ""
  }

  /** The automated reply text. */
  function AutoReply(body: Option<string>): string
  {
    ReplyOpening + Interpolated(body) + ReplyClosing
  }

  /** The customer's text can be read back out of the reply: between the
      fixed opening and closing stands the raw `Body` (or "null" when the
      field is absent, where the stored body is ""). */
  lemma AutoReplyQuotesBody(body: Option<string>)
    ensures var r := AutoReply(body);
      && |r| == |ReplyOpening| + |Interpolated(body)| + |ReplyClosing|
      && r[..|ReplyOpening|] == ReplyOpening
      && r[|ReplyOpening|..|r| - |ReplyClosing|] == Interpolated(body)
      && r[|r| - |ReplyClosing|..] == ReplyClosing
    ensures body.None? ==> Interpolated(body) == "null" && StoredBody(body) == ""
  {
    var r := AutoReply(body);
    assert r == ReplyOpening + Interpolated(body) + ReplyClosing;
  }

  /** The stored record of the customer's message. */
  function Received(form: WebhookForm, id: string, at: nat): Message
  {
    Message(id, form.from, form.to, StoredBody(form.body), Incoming, at)
  }

  /** The stored record of the auto-reply: addresses swapped. */
  function Answer(form: WebhookForm, id: string, at: nat): Message
  {
    Message(id, form.to, form.from, AutoReply(form.body), Outgoing, at)
  }

  /** `POST` of the webhook: exactly two messages are appended, first the
      incoming one as received (an absent body stored as ""), then the
      outgoing auto-reply with the addresses swapped; the handler answers
      200 with that reply. */
  function Webhook(s: Store, form: WebhookForm, inId: string, inAt: nat, outId: string, outAt: nat)
    : (r: WebhookResult)
    ensures r.status == 200
    ensures r.reply == AutoReply(form.body)
    ensures r.store.messages == s.messages
      + [Message(inId, form.from, form.to, StoredBody(form.body), Incoming, inAt),
         Message(outId, form.to, form.from, r.reply, Outgoing, outAt)]
    ensures Valid(s) ==> Valid(r.store)
  {
    var received := AddMessage(s, Draft(form.from, form.to, StoredBody(form.body), Incoming), inId, inAt);
    var reply := AutoReply(form.body);
    var answered := AddMessage(received.store, Draft(form.to, form.from, reply, Outgoing), outId, outAt);
    assert answered.store.messages == s.messages + [received.message] + [answered.message];
    WebhookResult(answered.store, 200, reply)
  }

  /** Appending the two webhook messages adds both to the conversation of
      `From` and nothing to any other. */
  lemma GroupAfterWebhook(messages: seq<Message>, a: Message, b: Message, from: string, k: string)
    requires a.direction == Incoming && a.from == from
    requires b.direction == Outgoing && b.to == from
    ensures Group(messages + [a, b], k) == Group(messages, k) + (if k == from then [a, b] else [])
  {
    GroupSnoc(messages, a, k);
    GroupSnoc(messages + [a], b, k);
    assert messages + [a] + [b] == messages + [a, b];
  }

  /** Both appended messages belong to the conversation of the sender
      `From`: its preview counts two more messages, one more of them
      incoming, and every other conversation is unchanged. */
  lemma WebhookJoinsSenderConversation(
    s: Store, form: WebhookForm, inId: string, inAt: nat, outId: string, outAt: nat)
    ensures var ms := Webhook(s, form, inId, inAt, outId, outAt).store.messages;
      && Group(ms, form.from) == Group(s.messages, form.from) + [Received(form, inId, inAt), Answer(form, outId, outAt)]
      && CountIncoming(Group(ms, form.from)) == CountIncoming(Group(s.messages, form.from)) + 1
      && (forall k :: k != form.from ==> Group(ms, k) == Group(s.messages, k))
    ensures var st := Webhook(s, form, inId, inAt, outId, outAt).store;
      && form.from in Phones(GetChatPreviews(st))
      && forall p :: p in GetChatPreviews(st) && p.phoneNumber == form.from ==>
           && p.totalMessages == |Group(s.messages, form.from)| + 2
           && p.unreadCount == CountIncoming(Group(s.messages, form.from)) + 1
  {
    var a, b := Received(form, inId, inAt), Answer(form, outId, outAt);
    var ms := s.messages + [a, b];
    assert Webhook(s, form, inId, inAt, outId, outAt).store.messages == ms;
    var g := Group(s.messages, form.from);
    GroupAfterWebhook(s.messages, a, b, form.from, form.from);
    forall k | k != form.from ensures Group(ms, k) == Group(s.messages, k) {
      GroupAfterWebhook(s.messages, a, b, form.from, k);
    }
    assert CountIncoming(g + [a, b]) == CountIncoming(g) + 1 by {
      CountIncomingSnoc(g, a);
      CountIncomingSnoc(g + [a], b);
      assert g + [a] + [b] == g + [a, b];
    }
    assert form.from in Keys(ms) by {
      assert a in ms && PreviewKey(a) == form.from;
    }
  }

  /** When every earlier message of the conversation is older than the
      incoming one, the last message of the extended conversation sits at
      the reply's position only if the reply is strictly newer. */
  lemma LatestOfTwoNewest(g: seq<Message>, a: Message, b: Message)
    requires forall j :: 0 <= j < |g| ==> g[j].timestamp < a.timestamp
    ensures FirstLatestAt(g + [a, b], if b.timestamp > a.timestamp then |g| + 1 else |g|)
  {
  }

  /** Which of the two becomes the conversation's last message, when the
      clock has moved past every stored message: the reply only if it is
      strictly newer than the incoming message.  Stamped in the same
      millisecond, the incoming message stays the last one, because a later
      message replaces the current one only when strictly newer. */
  lemma WebhookLastMessage(
    s: Store, form: WebhookForm, inId: string, inAt: nat, outId: string, outAt: nat)
    requires forall m :: m in s.messages ==> m.timestamp < inAt
    ensures var st := Webhook(s, form, inId, inAt, outId, outAt).store;
      forall p :: p in GetChatPreviews(st) && p.phoneNumber == form.from ==>
        p.lastMessage == if outAt > inAt then Answer(form, outId, outAt) else Received(form, inId, inAt)
  {
    var a, b := Received(form, inId, inAt), Answer(form, outId, outAt);
    var st := Webhook(s, form, inId, inAt, outId, outAt).store;
    assert st.messages == s.messages + [a, b];
    var g := Group(s.messages, form.from);
    GroupAfterWebhook(s.messages, a, b, form.from, form.from);
    GroupFromMessages(s.messages, form.from);
    assert forall j :: 0 <= j < |g| ==> g[j].timestamp < a.timestamp by {
      forall j | 0 <= j < |g| ensures g[j].timestamp < a.timestamp {
        assert g[j] in s.messages;
      }
    }
    LatestOfTwoNewest(g, a, b);
    var want := if outAt > inAt then |g| + 1 else |g|;
    forall p | p in GetChatPreviews(st) && p.phoneNumber == form.from
      ensures p.lastMessage == (g + [a, b])[want]
    {
      LastMessageIsFirstLatest(st, p, want);
    }
  }
}
