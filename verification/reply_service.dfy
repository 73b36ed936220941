/** The post-processing `GeminiService` wraps around the language-model
    call: the conversation history is cut to its last five entries and
    rendered as `Customer:` / `Support:` lines, the model's text is either
    cut to 1600 characters plus "..." or trimmed, and any failure of the
    call is replaced by a fixed fallback reply.

    The model itself is opaque: it is a parameter mapping the prompt it is
    given to a text or a failure.  The prompt's fixed prose is not
    modelled, only the data it carries. */
module ReplyService {
  import opened Common
  import opened Strings
  import opened MessageStore

  /** One entry of `conversationHistory`. */
  datatype HistoryEntry = HistoryEntry(message: string, direction: Direction)

  /** What the prompt passed to the model is built from. */
  datatype Prompt =
    | SupportPrompt(phone: string, message: string)
    | ContextualPrompt(phone: string, history: string, latest: string)

  /** The language model: a prompt in, generated text or an error out. */
  type Model = Prompt -> Result<string, string>

  const MaxReplyLength: nat := 1600
  const TruncationMarker: string := "..."
  const HistoryWindow: nat := 5

  const SupportFallback: string :=
    "Thanks for your message! Our support team has received your inquiry and will assist you shortly. Is there anything specific I can help you with right now?"

  const ContextualFallback: string :=
    "I understand your concern. Let me help you with that right away! Could you provide a bit more detail?"

  /** Fits generated text into one WhatsApp message: text longer than 1600
      characters becomes its first 1600 characters and the marker "..."
      (untrimmed); shorter text is trimmed.  Either way at most 1603
      characters remain. */
  function FitReply(text: string): (r: string)
    ensures |text| > MaxReplyLength ==>
      && |r| == MaxReplyLength + |TruncationMarker|
      && r[..MaxReplyLength] == text[..MaxReplyLength]
      && r[MaxReplyLength..] == TruncationMarker
    ensures |text| <= MaxReplyLength ==>
      && (exists lead :: StripsTo(text, r, lead))
      && (r == [] || (!IsWhitespace(r[0]) && !IsWhitespace(r[|r| - 1])))
    ensures |r| <= MaxReplyLength + |TruncationMarker|
  {
    if |text| > MaxReplyLength then text[..MaxReplyLength] + TruncationMarker
    else Trim(text)
  }

  /** Fitting an already fitted reply changes nothing. */
  lemma FitReplyIdempotent(text: string)
    ensures FitReply(FitReply(text)) == FitReply(text)
  {
    if |text| > MaxReplyLength {
      var r := FitReply(text);
      assert r[..MaxReplyLength] == text[..MaxReplyLength];
    } else {
      TrimIdempotent(text);
    }
  }

  /** The label a history line starts with: the customer wrote incoming
      entries, support wrote outgoing ones. */
  function Speaker(d: Direction): string
  {
    if d == Incoming then "Customer: " else "Support: "
  }

  /** `Customer: <message>` or `Support: <message>`. */
  function HistoryLine(e: HistoryEntry): string
  {
    Speaker(e.direction) + e.message
  }

  function HistoryLines(history: seq<HistoryEntry>): (r: seq<string>)
    ensures |r| == |history|
    ensures forall i :: 0 <= i < |history| ==> r[i] == HistoryLine(history[i])
  {
    seq(|history|, i requires 0 <= i < |history| => HistoryLine(history[i]))
  }

  /** The `historyContext` of `generateContextualResponse`: the last five
      entries, one line each, joined by newlines. */
  function HistoryContext(history: seq<HistoryEntry>): string
  {
    JoinLines(HistoryLines(Window(history, HistoryWindow)))
  }

  /** The rendered history is exactly the lines of the last five entries,
      in their original order, each labelled by direction: when no message
      contains a newline, splitting it at newlines gives those lines back. */
  lemma HistoryContextLines(history: seq<HistoryEntry>)
    requires history != []
    requires forall i :: 0 <= i < |history| ==> '\n' !in history[i].message
    ensures var lines := SplitLines(HistoryContext(history));
      && |lines| == (if |history| <= HistoryWindow then |history| else HistoryWindow)
      && forall i :: 0 <= i < |lines| ==>
           lines[i] == Speaker(history[|history| - |lines| + i].direction)
                       + history[|history| - |lines| + i].message
  {
    var w := Window(history, HistoryWindow);
    var ls := HistoryLines(w);
    forall k | 0 <= k < |ls| ensures '\n' !in ls[k] {
      assert w[k] == history[|history| - |w| + k];
      LineHasNoNewline(w[k]);
    }
    SplitJoinLines(ls);
  }

  lemma LineHasNoNewline(e: HistoryEntry)
    requires '\n' !in e.message
    ensures '\n' !in HistoryLine(e)
  {
    var sp := Speaker(e.direction);
    assert forall i :: 0 <= i < |sp| ==> sp[i] != '\n';
    assert HistoryLine(e) == sp + e.message;
  }

  /** An empty history renders as the empty string. */
  lemma EmptyHistoryContext()
    ensures HistoryContext([]) == ""
  {
  }

  /** `GeminiService.generateSupportResponse`: the fitted model text, or
      the support fallback when the call fails; the failure never escapes. */
  function GenerateSupportResponse(userMessage: string, userPhone: string, model: Model): (r: string)
    ensures model(SupportPrompt(userPhone, userMessage)).Ok? ==>
      r == FitReply(model(SupportPrompt(userPhone, userMessage)).value)
    ensures model(SupportPrompt(userPhone, userMessage)).Err? ==> r == SupportFallback
    ensures |r| <= MaxReplyLength + |TruncationMarker|
  {
    match model(SupportPrompt(userPhone, userMessage))
    case Ok(text) => FitReply(text)
    case Err(_) => SupportFallback
  }

  /** `GeminiService.generateContextualResponse`: the model sees the
      rendered last five history entries; its text is fitted, and a failure
      yields the contextual fallback, which differs from the support one. */
  function GenerateContextualResponse(
    userMessage: string, userPhone: string, history: seq<HistoryEntry>, model: Model): (r: string)
    ensures var p := ContextualPrompt(userPhone, HistoryContext(history), userMessage);
      && (model(p).Ok? ==> r == FitReply(model(p).value))
      && (model(p).Err? ==> r == ContextualFallback)
    ensures |r| <= MaxReplyLength + |TruncationMarker|
  {
    match model(ContextualPrompt(userPhone, HistoryContext(history), userMessage))
    case Ok(text) => FitReply(text)
    case Err(_) => ContextualFallback
  }

  /** The two fallbacks are distinct, non-empty and fit in one message. */
  lemma FallbacksDiffer()
    ensures SupportFallback != ContextualFallback
    ensures 0 < |SupportFallback| <= MaxReplyLength
    ensures 0 < |ContextualFallback| <= MaxReplyLength
  {
    assert |SupportFallback| != |ContextualFallback|;
  }

  /** Entries older than the last five cannot influence the prompt, and
      so not the reply either. */
  lemma ContextualReplyIgnoresOlderHistory(
    userMessage: string, userPhone: string,
    h1: seq<HistoryEntry>, h2: seq<HistoryEntry>, model: Model)
    requires Window(h1, HistoryWindow) == Window(h2, HistoryWindow)
    ensures ContextualPrompt(userPhone, HistoryContext(h1), userMessage)
         == ContextualPrompt(userPhone, HistoryContext(h2), userMessage)
    ensures GenerateContextualResponse(userMessage, userPhone, h1, model)
         == GenerateContextualResponse(userMessage, userPhone, h2, model)
  {
  }
}
