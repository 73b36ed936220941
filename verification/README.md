# WhatsApp support inbox: a Dafny model of its message core

This project models the server-side core of a small WhatsApp support inbox.
The inbox is a Next.js application built on the Twilio messaging API and a
Gemini language model. The model covers five parts:

- **The message store.** It is an in-memory list of every message received or
  sent. Alongside it sits an insertion-ordered set of "active chat"
  addresses, those starting with `whatsapp:`. The model covers adding a
  message, listing all messages by time, and listing one address's
  conversation by time. It also covers listing the active chats, counting,
  and clearing.
- **Chat previews.** There is one summary per conversation, keyed by the
  external party. Each summary holds the last message, the number of incoming
  messages, and the total number of messages. The summaries are sorted so
  that the most recently active conversation comes first.
- **The reply service.** This is the processing around the language-model
  call. The history is cut to its last five entries and rendered as
  `Customer:` / `Support:` lines. Over-long text is truncated to 1600
  characters plus `...`; other text is trimmed. A failed call falls back to a
  fixed reply.
- **Three HTTP handlers:**
  - the inbound webhook, which stores the message and a static auto-reply;
  - the operator's send endpoint, which validates the request, checks the
    configuration, sends through the carrier and stores the message only
    after a successful send;
  - the suggestion endpoint, which passes the last six messages of a
    conversation to the reply service.

The mutable globals of the source become an immutable `Store` value. Each
operation takes a store and returns a new one. The outside world becomes
parameters:

- the UUID and clock reading of `addMessage`;
- the carrier (`Carrier`);
- the language model (`Model`);
- the environment variables (`CarrierConfig`, the API key).

Timestamps are milliseconds, written as `nat`.

`Array.prototype.sort` is stable in every current JavaScript engine, and a
stable sort with a consistent comparator has exactly one possible result. The
model therefore sorts with one stable insertion sort, `Sorting.SortBy`, and
proves three things about it: the result is a permutation of the input, it
is sorted, and it is stable (`Sorting.SortStable`). Together these pin the
result down completely.

Modules:

| module | file |
|---|---|
| `Common` | `Option`, `Result`, JavaScript truthiness, `slice(-n)` |
| `Sorting` | stable sort and its properties |
| `Strings` | `startsWith`, `trim`, `join`/`split` on newlines, decimal rendering |
| `MessageStore` | the store and its operations (`src/lib/messageStore.ts`) |
| `ChatPreviews` | `getChatPreviews` and the reference definition of a correct summary |
| `ReplyService` | `GeminiService` (`src/lib/geminiService.ts`) |
| `WebhookRoute`, `SendMessageRoute`, `AiReplyRoute` | the three route handlers |

Every operation has a partner property:

- **Store invariant.** The active chats are exactly the chat addresses of
  the stored messages, each listed once (`MessageStore.Valid`). Every
  operation that changes the store preserves it.
- **Previews.** An independent reference definition says what a preview is
  meant to summarise (`Group`, `CountIncoming`, `IsLatest`). The one-pass
  accumulation is proved to compute exactly those summaries.
- **Reply text.** Trimming and fitting a reply are idempotent. When no
  message contains a newline, the rendered history splits back into its
  lines.
- **Sorting.** Sorting is a stable permutation. Sorting an already sorted
  store returns it unchanged.

## Behaviour worth knowing

- **Webhook reply.** The webhook never calls the language model. It builds a
  static text that quotes the raw `Body` field and returns it in the TwiML
  document of the HTTP response (`src/app/api/webhook/route.ts:36-38`). The
  model does the same (`WebhookRoute.Webhook`).
- **Ties between equal timestamps.** A conversation's last message is
  replaced only by a strictly newer one
  (`src/lib/messageStore.ts:96-100`). Among equally new messages, the one
  stored earliest stays (`ChatPreviews.IsLatest`).
- **Preview order depends on store order.** Previews whose last messages
  share a timestamp stay in the order in which their conversations first
  appeared in the store. The `Map` keeps insertion order, and the sort is
  stable (`ChatPreviews.PreviewTiesInFirstAppearanceOrder`).
- **Truncate or trim.** Generated text is either truncated or trimmed, never
  both. Truncated text keeps any surrounding whitespace. Only text of at
  most 1600 characters is trimmed (`src/lib/geminiService.ts:40-45`).
- **Two history windows.** The suggestion endpoint takes the last six
  messages (`src/app/api/ai-reply/route.ts:20`). The service keeps the last
  five of those (`src/lib/geminiService.ts:63`), so the model sees five
  (`AiReplyRoute.ModelSeesLastFive`).
- **Listing sorts the store.** Listing all messages sorts the store's own
  array in place (`src/lib/messageStore.ts:58`). A later `getChatPreviews`
  therefore sees the sorted order. `MessageStore.GetAllMessages` returns the
  new store.
- **Missing API key.** This is the one failure the suggestion endpoint does
  not absorb. The service's constructor throws
  (`src/lib/geminiService.ts:8-10`), and the endpoint answers 500 with a
  fixed apology as the reply.

## Model

| member | source | states |
|---|---|---|
| MessageStore.AddMessage | src/lib/messageStore.ts:33-54 | the new message carries the draft's fields, the given id and time; it is appended after all existing messages, which are unchanged; the active chats keep their order and gain exactly the `whatsapp:` sender and recipient not yet listed, a new sender right after the old entries; the store invariant is preserved |
| MessageStore.Track | src/lib/messageStore.ts:43-50 | `Set.add` on an insertion-ordered set: no duplicates appear, the address is added exactly when it has the chat prefix, a new address goes at the end, and earlier entries keep their positions |
| MessageStore.AddKeepsValid | src/lib/messageStore.ts:41-50 | appending a message and tracking its addresses keeps the active chats equal to the set of chat addresses of the stored messages, without duplicates |
| MessageStore.GetAllMessages | src/lib/messageStore.ts:56-62 | the result is a permutation of the stored messages, non-decreasing in time, and equal timestamps keep store order; the store itself becomes that sorted list, and its active chats and invariant are unchanged |
| MessageStore.Conversation | src/lib/messageStore.ts:67 | the filter keeps every message sent from or to the address, with its multiplicity, and drops every other message |
| MessageStore.GetMessagesByPhoneNumber | src/lib/messageStore.ts:64-72 | exactly the stored messages involving the address, counted with multiplicity, sorted by time; messages with equal timestamps appear as in the filtered store (`ConversationAppend` shows that the filter keeps store order) |
| MessageStore.ConversationAppend | src/lib/messageStore.ts:67 | the filter keeps store order: filtering a concatenation gives the concatenation of the filtered parts |
| MessageStore.ConversationSnoc | src/lib/messageStore.ts:67 | one more message is kept exactly when it is sent from or to the address |
| MessageStore.MessageCount | src/lib/messageStore.ts:118-120 | the number of stored messages: the length of the full listing, and zero exactly when the store holds no messages |
| MessageStore.GetActiveChats | src/lib/messageStore.ts:74-76 | in a store satisfying the invariant, the list holds every `whatsapp:` address of the stored messages, exactly once |
| MessageStore.ClearMessages | src/lib/messageStore.ts:113-116 | after clearing, the count is zero, listing returns nothing, there are no active chats, and the invariant holds |
| MessageStore.AddCounts | src/lib/messageStore.ts:118-120 | each added message raises the message count by exactly one |
| MessageStore.AddKeepsTimeOrder | src/lib/messageStore.ts:35-41 | with a clock that never runs backwards, appending keeps a time-sorted store sorted |
| MessageStore.SortedStoreListsInStoreOrder | src/lib/messageStore.ts:58-61 | listing a store that is already in time order returns the messages in their stored order and leaves the store as it was |
| Sorting.SortBy | src/lib/messageStore.ts:58-61 | the comparator sort returns a permutation of its input that is non-decreasing in the key |
| Sorting.SortStable | src/lib/messageStore.ts:106-110 | the sort is stable: for every key value, the elements with that key appear in their input order |
| Sorting.SortSortedIsIdentity | src/lib/messageStore.ts:58-61 | sorting input that is already sorted changes nothing |
| Sorting.SortPreservesDistinct | src/lib/messageStore.ts:106-110 | sorting the previews cannot make two of them share a phone number |
| Sorting.SortPreservesSum | src/lib/messageStore.ts:106-110 | sorting the previews does not change the sum of their message totals |
| ChatPreviews.Upsert | src/lib/messageStore.ts:87-103 | a message of a known conversation updates that preview in place and leaves the others alone; a message of a new conversation appends a fresh preview at the end, in `Map` insertion order |
| ChatPreviews.LatestAbsorb | src/lib/messageStore.ts:96-100 | replacing the last message only when the new one is strictly newer keeps it the newest message of the conversation, and the earliest stored one among equally new messages |
| ChatPreviews.StartSummarizes | src/lib/messageStore.ts:87-93 | the preview opened by a conversation's first message is its correct summary: one message, one unread if incoming, and that message as the last |
| ChatPreviews.AbsorbSummarizes | src/lib/messageStore.ts:94-103 | updating a correct summary with a further message of its conversation gives the correct summary of the extended conversation; other conversations' summaries stay correct |
| ChatPreviews.UpsertKnown | src/lib/messageStore.ts:94-103 | the loop invariant survives a message of a conversation already seen |
| ChatPreviews.UpsertNew | src/lib/messageStore.ts:87-93 | the loop invariant survives the first message of a new conversation |
| ChatPreviews.CollectSummarizes | src/lib/messageStore.ts:83-104 | after the pass, there is one preview per conversation with no repeated phone number; each preview correctly counts its messages and incoming messages and names its last message; the totals add up to the number of messages |
| ChatPreviews.PreviewsSorted | src/lib/messageStore.ts:106-110 | the sorted previews keep all of those properties and are ordered newest last message first |
| ChatPreviews.GetChatPreviews | src/lib/messageStore.ts:78-111 | exactly one preview per conversation that has a message; each is the correct summary of its conversation; the totals add up to the message count; newest first; for each last-message time, the previews with that time appear as in the insertion-ordered `Map` |
| ChatPreviews.FirstKeyed | src/lib/messageStore.ts:84-87 | the position of a conversation's first message in the store, or the store's length when it has none |
| ChatPreviews.FirstKeyedSnoc | src/lib/messageStore.ts:87-93 | appending a message moves no conversation's first appearance; a conversation opened by the new message first appears at its position |
| ChatPreviews.CollectFirstAppearance | src/lib/messageStore.ts:83-104 | the `Map`'s values come out in the order in which their conversations first appeared in the store |
| ChatPreviews.PreviewTiesInFirstAppearanceOrder | src/lib/messageStore.ts:106-110 | previews whose last messages share a timestamp are listed in the order in which their conversations first appeared in the store |
| Sorting.SortKeepsTieOrder | src/lib/messageStore.ts:106-110 | stability stated pairwise: for input increasing in some measure, any two elements with equal keys keep that order after sorting |
| ChatPreviews.GroupSnoc | src/lib/messageStore.ts:84-85 | a message joins the conversation of its external party, which is the sender when it is incoming and the recipient otherwise, and no other conversation |
| ChatPreviews.LastMessageIsFirstLatest | src/lib/messageStore.ts:96-100 | a preview's last message sits at the unique position of the earliest newest message of its conversation |
| Strings.Trim | src/lib/geminiService.ts:45 | the result is the input with a whitespace-only prefix and suffix removed, and it neither starts nor ends with whitespace |
| Strings.TrimIdempotent | src/lib/geminiService.ts:45 | trimming twice is trimming once |
| Strings.SplitJoinLines | src/lib/geminiService.ts:70 | lines without newlines joined by `\n` split back into the same lines |
| Strings.NatToDecimal | src/app/api/ai-reply/route.ts:37 | the interpolated count is a non-empty string of digits, without a leading zero, that denotes the number |
| Common.Window | src/app/api/ai-reply/route.ts:20 | `slice(-n)` yields the last `n` elements, or all of them when there are fewer |
| Common.WindowOfWindow | src/lib/geminiService.ts:63 | the last five of the last six are the last five |
| ReplyService.FitReply | src/lib/geminiService.ts:40-45 | text over 1600 characters becomes its first 1600 characters followed by `...`; shorter text is trimmed; the result is never longer than 1603 characters |
| ReplyService.FitReplyIdempotent | src/lib/geminiService.ts:94-98 | fitting an already fitted reply leaves it unchanged |
| ReplyService.HistoryLines | src/lib/geminiService.ts:64-69 | one line per history entry, in order, with `Customer: ` for an incoming entry and `Support: ` for an outgoing one, followed by the message |
| ReplyService.HistoryContextLines | src/lib/geminiService.ts:62-70 | for a non-empty history in which no message contains a newline, the rendered history splits back into exactly the labelled lines of the last five entries, oldest first |
| ReplyService.GenerateSupportResponse | src/lib/geminiService.ts:16-51 | a successful model call gives the fitted text and a failed call gives the support fallback; the error never escapes and the reply has at most 1603 characters |
| ReplyService.GenerateContextualResponse | src/lib/geminiService.ts:53-103 | the model is asked with the rendered last five history entries; success gives the fitted text and failure the contextual fallback; at most 1603 characters |
| ReplyService.FallbacksDiffer | src/lib/geminiService.ts:49 | the two fallback replies are different, non-empty, and fit in one message |
| ReplyService.ContextualReplyIgnoresOlderHistory | src/lib/geminiService.ts:62-63 | histories that agree on their last five entries give the model the same prompt, and so get the same reply |
| WebhookRoute.AutoReplyQuotesBody | src/app/api/webhook/route.ts:37 | the auto-reply is the fixed opening, the raw body, and the fixed closing; an absent body reads `null` in the reply but is stored as the empty string |
| WebhookRoute.Webhook | src/app/api/webhook/route.ts:8-53 | status 200; exactly two messages are appended after the existing ones: first the incoming message as received, then the auto-reply from the receiving number back to the sender; the invariant is preserved |
| WebhookRoute.GroupAfterWebhook | src/app/api/webhook/route.ts:24-46 | both appended messages join the sender's conversation and no other |
| WebhookRoute.WebhookJoinsSenderConversation | src/app/api/webhook/route.ts:24-46 | afterwards the sender has a preview with two more messages, one more of them incoming, and every other conversation is unchanged |
| WebhookRoute.LatestOfTwoNewest | src/lib/messageStore.ts:96-100 | after two messages newer than everything before, the later one is the last message only when it is strictly newer than the first |
| WebhookRoute.WebhookLastMessage | src/app/api/webhook/route.ts:24-46 | when the clock has passed every stored message, the sender's preview shows the auto-reply as last message if it was stamped strictly later, and the incoming message otherwise |
| SendMessageRoute.SendMessage | src/app/api/sendMessage/route.ts:5-76 | missing `to` or `message` gives 400, and missing configuration gives 500, both before any send; a failed send gives 500 with the thrown error's message or "Unknown error occurred"; only a successful send answers 200 with the sid and appends exactly one outgoing message from the configured number; in every failure the store is unchanged |
| AiReplyRoute.ToHistory | src/app/api/ai-reply/route.ts:21-24 | each message becomes its body and direction, in order |
| AiReplyRoute.ConversationHistory | src/app/api/ai-reply/route.ts:17-24 | the history is the last, at most six, messages of the address's time-sorted conversation, reduced to body and direction |
| AiReplyRoute.AiReply | src/app/api/ai-reply/route.ts:4-55 | missing fields give 400; a missing API key gives 500 with the fixed apology; otherwise 200 with the service's reply, at most 1603 characters, and a note naming how many messages of context, at most six, were used |
| AiReplyRoute.ModelSeesLastFive | src/app/api/ai-reply/route.ts:17-32 | the model sees exactly the last five messages of the conversation |

## Left out

- Process-wide globals and `globalThis` survival across hot reloads: the store is a value passed in and returned.
- The UUID generator and `new Date()`: the id and the time are parameters, and time is a whole number of milliseconds. Parsing ISO strings back into dates is left out, because that round trip is exact at millisecond precision.
- Concurrency between requests and `async`/`await`: each handler is one atomic step.
- Reading forms and JSON, and building `NextResponse`/TwiML documents: handlers take decoded fields and return status, payload fields, and the reply text.
- A request body that is not valid JSON, or a form that cannot be read: the source's `catch` turns these into 500 answers, but decoding is not modelled.
- Non-string JSON fields (numbers, objects): `to`, `message`, `userMessage` and `phoneNumber` are absent or strings.
- WebhookRoute.Webhook: `From` and `To` are always strings. With a field missing, the source stores a message whose address is `null`, then throws inside `startsWith` and answers 500 with the message already stored. That path, and the webhook's `catch` block, are not modelled.
- SendMessageRoute.SendMessage: a failure while building the Twilio client is folded into the carrier outcome, because the source treats it the same way through one `catch`.
- The Twilio SDK and the Gemini SDK: `Carrier` and `Model` are opaque function parameters. The prompt's fixed instruction prose is not modelled; only the data the prompt carries is (`Prompt`).
- `console.log` / `console.error` output.
- ReplyService.FitReply: lengths are counted in Unicode code points. JavaScript counts UTF-16 code units, so a reply with characters outside the Basic Multilingual Plane is cut at a different place.
- The debug and message-listing routes, and the React components: they are callers and views of the modelled operations, not part of the core.
