/** `MessageStore.getChatPreviews`: one summary per conversation, most
    recently active first.

    A message belongs to the conversation of its external party: the
    sender of an incoming message, the recipient of an outgoing one.  The
    source builds the summaries in one pass over the stored messages with
    a JavaScript `Map` (whose values come out in order of first insertion)
    and then sorts them stably by the timestamp of their last message,
    newest first. */
module ChatPreviews {
  import opened Common
  import opened Sorting
  import opened MessageStore

  datatype ChatPreview = ChatPreview(
    phoneNumber: string,
    lastMessage: Message,
    unreadCount: nat,
    totalMessages: nat)

  /** The external party of a message, which names its conversation. */
  function PreviewKey(m: Message): string
  {
    if m.direction == Incoming then m.from else m.to
  }

  function IncomingWeight(m: Message): nat
  {
    if m.direction == Incoming then 1 else 0
  }

  function Phone(p: ChatPreview): string
  {
    p.phoneNumber
  }

  function TotalOf(p: ChatPreview): int
  {
    p.totalMessages
  }

  /** Sort key of the preview list: later last message sorts first. */
  function Recency(p: ChatPreview): int
  {
    -(p.lastMessage.timestamp as int)
  }

  // ---------------------------------------------------------------------
  // Reference definitions: what a preview is meant to summarise.
  // ---------------------------------------------------------------------

  /** The messages of the conversation with `key`, in store order. */
  function Group(messages: seq<Message>, key: string): seq<Message>
  {
    if messages == [] then []
    else
      var last := messages[|messages| - 1];
      Group(messages[..|messages| - 1], key) + (if PreviewKey(last) == key then [last] else [])
  }

  /** Number of incoming messages in `messages`. */
  function CountIncoming(messages: seq<Message>): nat
  {
    if messages == [] then 0
    else CountIncoming(messages[..|messages| - 1]) + IncomingWeight(messages[|messages| - 1])
  }

  /** Position `i` holds the message of `g` with the greatest timestamp,
      and no earlier message of `g` has that timestamp. */
  ghost predicate FirstLatestAt(g: seq<Message>, i: int)
  {
    && 0 <= i < |g|
    && (forall j :: 0 <= j < |g| ==> g[j].timestamp <= g[i].timestamp)
    && (forall j :: 0 <= j < i ==> g[j].timestamp < g[i].timestamp)
  }

  /** `m` is the message of `g` the source reports as the last one: its
      timestamp is maximal, and among the messages sharing that timestamp
      it is the earliest in store order (a later message replaces the
      current one only when strictly newer). */
  ghost predicate IsLatest(g: seq<Message>, m: Message)
  {
    exists i :: FirstLatestAt(g, i) && g[i] == m
  }

  /** `p` is the correct summary of its conversation within `messages`. */
  ghost predicate Summarizes(messages: seq<Message>, p: ChatPreview)
  {
    var g := Group(messages, p.phoneNumber);
    && p.totalMessages == |g|
    && p.unreadCount == CountIncoming(g)
    && IsLatest(g, p.lastMessage)
  }

  /** The conversation keys occurring in `messages`. */
  ghost function Keys(messages: seq<Message>): set<string>
  {
    set m | m in messages :: PreviewKey(m)
  }

  ghost function Phones(ps: seq<ChatPreview>): set<string>
  {
    set p | p in ps :: p.phoneNumber
  }

  // ---------------------------------------------------------------------
  // The one-pass accumulation, as the source performs it.
  // ---------------------------------------------------------------------

  /** The first message seen for a conversation opens its preview. */
  function Start(m: Message): ChatPreview
  {
    ChatPreview(PreviewKey(m), m, IncomingWeight(m), 1)
  }

  /** A further message of the conversation: it becomes the last message
      only when strictly newer, and both counters advance. */
  function Absorb(p: ChatPreview, m: Message): ChatPreview
  {
    p.(lastMessage := if m.timestamp > p.lastMessage.timestamp then m else p.lastMessage,
       unreadCount := p.unreadCount + IncomingWeight(m),
       totalMessages := p.totalMessages + 1)
  }

  /** One step of the `forEach`: update the preview keyed like `m` in
      place, or append a new one at the end (the `Map`'s insertion order). */
  function Upsert(acc: seq<ChatPreview>, m: Message): (r: seq<ChatPreview>)
    ensures DistinctBy(acc, Phone) && PreviewKey(m) in Phones(acc) ==>
      && |r| == |acc|
      && forall i :: 0 <= i < |acc| ==>
           r[i] == if acc[i].phoneNumber == PreviewKey(m) then Absorb(acc[i], m) else acc[i]
    ensures PreviewKey(m) !in Phones(acc) ==> r == acc + [Start(m)]
  {
    if acc == [] then [Start(m)]
    else if acc[0].phoneNumber == PreviewKey(m) then [Absorb(acc[0], m)] + acc[1..]
    else
      assert Phones(acc) == {acc[0].phoneNumber} + Phones(acc[1..]) by {
        assert forall p :: p in acc <==> p == acc[0] || p in acc[1..];
      }
      assert DistinctBy(acc, Phone) ==> DistinctBy(acc[1..], Phone);
      [acc[0]] + Upsert(acc[1..], m)
  }

  /** The `Map` after the `forEach` over `messages`, values in insertion order. */
  function Collect(messages: seq<Message>): seq<ChatPreview>
  {
    if messages == [] then []
    else Upsert(Collect(messages[..|messages| - 1]), messages[|messages| - 1])
  }

  // ---------------------------------------------------------------------
  // The accumulation computes the reference summaries.
  // ---------------------------------------------------------------------

  lemma LatestAbsorb(g: seq<Message>, l: Message, m: Message)
    requires IsLatest(g, l)
    ensures IsLatest(g + [m], if m.timestamp > l.timestamp then m else l)
  {
    var i :| FirstLatestAt(g, i) && g[i] == l;
    var g' := g + [m];
    if m.timestamp > l.timestamp {
      assert FirstLatestAt(g', |g|);
    } else {
      assert FirstLatestAt(g', i);
    }
  }

  lemma {:induction false} GroupEmptyOutsideKeys(messages: seq<Message>, key: string)
    requires key !in Keys(messages)
    ensures Group(messages, key) == []
  {
    if messages != [] {
      var init := messages[..|messages| - 1];
      assert Keys(init) <= Keys(messages) by {
        forall k | k in Keys(init) ensures k in Keys(messages) {
          var m :| m in init && PreviewKey(m) == k;
          assert m in messages;
        }
      }
      assert messages[|messages| - 1] in messages;
      GroupEmptyOutsideKeys(init, key);
    }
  }

  lemma KeysAppend(messages: seq<Message>, m: Message)
    ensures Keys(messages + [m]) == Keys(messages) + {PreviewKey(m)}
  {
    var ms := messages + [m];
    assert forall x :: x in ms <==> x in messages || x == m;
  }

  lemma {:induction false} SumAbsorbed(acc: seq<ChatPreview>, r: seq<ChatPreview>, k: string)
    requires |r| == |acc|
    requires DistinctBy(acc, Phone)
    requires forall i :: 0 <= i < |acc| ==>
      TotalOf(r[i]) == TotalOf(acc[i]) + (if acc[i].phoneNumber == k then 1 else 0)
    ensures SumBy(r, TotalOf) == SumBy(acc, TotalOf) + (if k in Phones(acc) then 1 else 0)
  {
    if acc != [] {
      var n := |acc| - 1;
      var ai, ri := acc[..n], r[..n];
      assert DistinctBy(ai, Phone);
      SumAbsorbed(ai, ri, k);
      assert Phones(acc) == Phones(ai) + {acc[n].phoneNumber} by {
        assert forall p :: p in acc <==> p in ai || p == acc[n];
      }
      if acc[n].phoneNumber == k {
        assert k !in Phones(ai);
      }
    }
  }

  /** The facts `CollectSummarizes` maintains for a prefix of the store. */
  ghost predicate CollectInvariant(messages: seq<Message>, acc: seq<ChatPreview>)
  {
    && DistinctBy(acc, Phone)
    && Phones(acc) == Keys(messages)
    && (forall p :: p in acc ==> Summarizes(messages, p))
    && SumBy(acc, TotalOf) == |messages|
  }

  /** A message of a conversation already in the `Map` updates its preview. */
  lemma UpsertKnown(init: seq<Message>, acc: seq<ChatPreview>, m: Message)
    requires CollectInvariant(init, acc)
    requires PreviewKey(m) in Phones(acc)
    ensures CollectInvariant(init + [m], Upsert(acc, m))
  {
    var r := Upsert(acc, m);
    UpsertKnownPhones(acc, m);
    KeysAppend(init, m);
    UpsertKnownSummaries(init, acc, m);
    SumAbsorbed(acc, r, PreviewKey(m));
  }

  /** Updating a known conversation keeps the phone numbers in place. */
  lemma UpsertKnownPhones(acc: seq<ChatPreview>, m: Message)
    requires DistinctBy(acc, Phone)
    requires PreviewKey(m) in Phones(acc)
    ensures DistinctBy(Upsert(acc, m), Phone)
    ensures Phones(Upsert(acc, m)) == Phones(acc)
  {
    var r := Upsert(acc, m);
    assert forall i :: 0 <= i < |acc| ==> Phone(r[i]) == Phone(acc[i]);
    forall x ensures x in Phones(r) <==> x in Phones(acc) {
      if x in Phones(r) {
        var p :| p in r && p.phoneNumber == x;
        var i :| 0 <= i < |r| && r[i] == p;
        assert acc[i] in acc;
      }
      if x in Phones(acc) {
        var p :| p in acc && p.phoneNumber == x;
        var i :| 0 <= i < |acc| && acc[i] == p;
        assert r[i] in r;
      }
    }
  }

  /** Updating a known conversation keeps every preview a summary. */
  lemma UpsertKnownSummaries(init: seq<Message>, acc: seq<ChatPreview>, m: Message)
    requires DistinctBy(acc, Phone)
    requires PreviewKey(m) in Phones(acc)
    requires forall p :: p in acc ==> Summarizes(init, p)
    ensures forall p :: p in Upsert(acc, m) ==> Summarizes(init + [m], p)
  {
    var r := Upsert(acc, m);
    forall p | p in r ensures Summarizes(init + [m], p) {
      var i :| 0 <= i < |r| && r[i] == p;
      assert acc[i] in acc;
      AbsorbSummarizes(init, acc[i], m);
    }
  }

  lemma AbsorbSummarizes(init: seq<Message>, p: ChatPreview, m: Message)
    requires Summarizes(init, p)
    ensures Summarizes(init + [m], if p.phoneNumber == PreviewKey(m) then Absorb(p, m) else p)
  {
    var messages := init + [m];
    assert messages[..|init|] == init;
    var g := Group(init, p.phoneNumber);
    if p.phoneNumber == PreviewKey(m) {
      assert Group(messages, p.phoneNumber) == g + [m];
      GroupStepSummarizes(g, p, m);
    } else {
      assert Group(messages, p.phoneNumber) == g;
    }
  }

  lemma GroupStepSummarizes(g: seq<Message>, p: ChatPreview, m: Message)
    requires p.totalMessages == |g|
    requires p.unreadCount == CountIncoming(g)
    requires IsLatest(g, p.lastMessage)
    ensures Absorb(p, m).totalMessages == |g + [m]|
    ensures Absorb(p, m).unreadCount == CountIncoming(g + [m])
    ensures IsLatest(g + [m], Absorb(p, m).lastMessage)
  {
    assert CountIncoming(g + [m]) == CountIncoming(g) + IncomingWeight(m) by {
      assert (g + [m])[..|g|] == g;
    }
    assert IsLatest(g + [m], Absorb(p, m).lastMessage) by {
      LatestAbsorb(g, p.lastMessage, m);
    }
  }

  /** A message of a new conversation appends a fresh preview. */
  lemma UpsertNew(init: seq<Message>, acc: seq<ChatPreview>, m: Message)
    requires CollectInvariant(init, acc)
    requires PreviewKey(m) !in Phones(acc)
    ensures CollectInvariant(init + [m], Upsert(acc, m))
  {
    var messages := init + [m];
    var r := acc + [Start(m)];
    assert Upsert(acc, m) == r;
    assert SumBy(r, TotalOf) == |messages| by {
      assert r[..|acc|] == acc;
    }
    KeysAppend(init, m);
    UpsertNewPhones(acc, m);
    StartSummarizes(init, m);
    assert forall p :: p in acc ==> Summarizes(messages, p) by {
      forall p | p in acc ensures Summarizes(messages, p) {
        assert p.phoneNumber in Phones(acc);
        AbsorbSummarizes(init, p, m);
      }
    }
  }

  /** A new conversation's preview goes at the end with a fresh phone number. */
  lemma UpsertNewPhones(acc: seq<ChatPreview>, m: Message)
    requires DistinctBy(acc, Phone)
    requires PreviewKey(m) !in Phones(acc)
    ensures DistinctBy(acc + [Start(m)], Phone)
    ensures Phones(acc + [Start(m)]) == Phones(acc) + {PreviewKey(m)}
  {
    var r := acc + [Start(m)];
    assert forall p :: p in r <==> p in acc || p == Start(m);
    forall i | 0 <= i < |acc| ensures acc[i].phoneNumber != PreviewKey(m) {
      assert acc[i] in acc;
    }
  }

  /** The first message of a conversation is summarised by `Start`. */
  lemma StartSummarizes(init: seq<Message>, m: Message)
    requires PreviewKey(m) !in Keys(init)
    ensures Summarizes(init + [m], Start(m))
  {
    var messages := init + [m];
    var k := PreviewKey(m);
    assert messages[..|init|] == init;
    GroupEmptyOutsideKeys(init, k);
    assert Group(messages, k) == [m];
    assert CountIncoming([m]) == IncomingWeight(m) by {
      assert [m][..0] == [];
    }
    assert FirstLatestAt([m], 0);
  }

  /** Invariant of the `forEach`: after any prefix of the store, the `Map`
      holds exactly one correct summary per conversation seen so far, and
      its totals add up to the number of messages seen. */
  lemma {:induction false} CollectSummarizes(messages: seq<Message>)
    ensures CollectInvariant(messages, Collect(messages))
  {
    if messages != [] {
      var init, m := messages[..|messages| - 1], messages[|messages| - 1];
      SplitLast(messages);
      CollectSummarizes(init);
      if PreviewKey(m) in Phones(Collect(init)) {
        UpsertKnown(init, Collect(init), m);
      } else {
        UpsertNew(init, Collect(init), m);
      }
    }
  }

  /** `MessageStore.getChatPreviews`: one preview per conversation that
      has a message, each the correct summary of that conversation (count
      of messages, count of incoming messages, last message with ties to
      the earliest stored), their totals adding up to the message count,
      ordered most recently active first; previews whose last messages
      share a timestamp keep the order in which their conversations first
      appeared in the store. */
  function GetChatPreviews(s: Store): (r: seq<ChatPreview>)
    ensures DistinctBy(r, Phone)
    ensures Phones(r) == Keys(s.messages)
    ensures forall p :: p in r ==> Summarizes(s.messages, p)
    ensures SumBy(r, TotalOf) == MessageCount(s)
    ensures forall i, j :: 0 <= i < j < |r| ==>
      r[i].lastMessage.timestamp >= r[j].lastMessage.timestamp
    ensures forall v :: WithKey(r, Recency, v) == WithKey(Collect(s.messages), Recency, v)
  {
    PreviewsSorted(s.messages);
    var acc := Collect(s.messages);
    assert forall v :: WithKey(SortBy(acc, Recency), Recency, v) == WithKey(acc, Recency, v) by {
      forall v ensures WithKey(SortBy(acc, Recency), Recency, v) == WithKey(acc, Recency, v) {
        SortStable(acc, Recency, v);
      }
    }
    SortBy(acc, Recency)
  }

  lemma PreviewsSorted(messages: seq<Message>)
    ensures CollectInvariant(messages, SortBy(Collect(messages), Recency))
    ensures forall i, j :: 0 <= i < j < |SortBy(Collect(messages), Recency)| ==>
      SortBy(Collect(messages), Recency)[i].lastMessage.timestamp
        >= SortBy(Collect(messages), Recency)[j].lastMessage.timestamp
  {
    var acc := Collect(messages);
    var r := SortBy(acc, Recency);
    CollectSummarizes(messages);
    SortPreservesDistinct(acc, Recency, Phone);
    SortPreservesSum(acc, Recency, TotalOf);
    SortMembers(acc, Recency);
    assert Phones(r) == Phones(acc) by {
      assert forall p :: p in r <==> p in acc;
    }
    assert forall p :: p in r ==> Summarizes(messages, p) by {
      assert forall p :: p in acc ==> Summarizes(messages, p);
      assert forall p :: p in r <==> p in acc;
    }
    forall i, j | 0 <= i < j < |r|
      ensures r[i].lastMessage.timestamp >= r[j].lastMessage.timestamp
    {
      assert Recency(r[i]) <= Recency(r[j]);
    }
  }

  /** The conversation of `key` after appending `m`. */
  lemma GroupSnoc(messages: seq<Message>, m: Message, key: string)
    ensures Group(messages + [m], key)
         == Group(messages, key) + (if PreviewKey(m) == key then [m] else [])
  {
    assert (messages + [m])[..|messages|] == messages;
  }

  lemma CountIncomingSnoc(messages: seq<Message>, m: Message)
    ensures CountIncoming(messages + [m]) == CountIncoming(messages) + IncomingWeight(m)
  {
    assert (messages + [m])[..|messages|] == messages;
  }

  /** The position of a group's last message is unique. */
  lemma FirstLatestUnique(g: seq<Message>, i: int, j: int)
    requires FirstLatestAt(g, i) && FirstLatestAt(g, j)
    ensures i == j
  {
    assert g[i].timestamp <= g[j].timestamp && g[j].timestamp <= g[i].timestamp;
  }

  /** Every message of a conversation comes from the store. */
  lemma {:induction false} GroupFromMessages(messages: seq<Message>, key: string)
    ensures forall i :: 0 <= i < |Group(messages, key)| ==> Group(messages, key)[i] in messages
  {
    if messages != [] {
      var init := messages[..|messages| - 1];
      GroupFromMessages(init, key);
      forall m | m in init ensures m in messages { }
    }
  }

  /** A preview's last message is the one at the position singled out by
      `FirstLatestAt` in its conversation. */
  lemma LastMessageIsFirstLatest(s: Store, p: ChatPreview, i: int)
    requires p in GetChatPreviews(s)
    requires FirstLatestAt(Group(s.messages, p.phoneNumber), i)
    ensures p.lastMessage == Group(s.messages, p.phoneNumber)[i]
  {
    var g := Group(s.messages, p.phoneNumber);
    var j :| FirstLatestAt(g, j) && g[j] == p.lastMessage;
    FirstLatestUnique(g, i, j);
  }
  // ---------------------------------------------------------------------
  // Order of first appearance, which decides the order of ties.
  // ---------------------------------------------------------------------

  /** Position of the first message of the conversation `key` in
      `messages`, or `|messages|` when it has none. */
  function FirstKeyed(messages: seq<Message>, key: string): (n: nat)
    ensures n <= |messages|
    ensures n < |messages| ==> PreviewKey(messages[n]) == key
    ensures forall j :: 0 <= j < n ==> PreviewKey(messages[j]) != key
  {
    if messages == [] then 0
    else if PreviewKey(messages[0]) == key then 0
    else 1 + FirstKeyed(messages[1..], key)
  }

  /** Appending a message moves no conversation's first appearance; a
      conversation that starts with it first appears at its position. */
  lemma {:induction false} FirstKeyedSnoc(messages: seq<Message>, m: Message, key: string)
    ensures FirstKeyed(messages + [m], key)
         == if FirstKeyed(messages, key) < |messages| then FirstKeyed(messages, key)
            else if PreviewKey(m) == key then |messages| else |messages| + 1
    decreases |messages|
  {
    if messages != [] {
      assert (messages + [m])[0] == messages[0];
      assert (messages + [m])[1..] == messages[1..] + [m];
      FirstKeyedSnoc(messages[1..], m, key);
    }
  }

  /** A conversation that has a message first appears inside the store. */
  lemma FirstKeyedOfKey(messages: seq<Message>, key: string)
    requires key in Keys(messages)
    ensures FirstKeyed(messages, key) < |messages|
  {
    var m :| m in messages && PreviewKey(m) == key;
    var k :| 0 <= k < |messages| && messages[k] == m;
  }

  /** The previews are listed in order of first appearance of their conversations. */
  ghost predicate InFirstAppearanceOrder(messages: seq<Message>, ps: seq<ChatPreview>)
  {
    forall i, j :: 0 <= i < j < |ps| ==>
      FirstKeyed(messages, ps[i].phoneNumber) < FirstKeyed(messages, ps[j].phoneNumber)
  }

  lemma CollectOrderKnown(init: seq<Message>, acc: seq<ChatPreview>, m: Message)
    requires DistinctBy(acc, Phone) && Phones(acc) == Keys(init)
    requires InFirstAppearanceOrder(init, acc)
    requires PreviewKey(m) in Phones(acc)
    ensures InFirstAppearanceOrder(init + [m], Upsert(acc, m))
  {
    var r := Upsert(acc, m);
    forall i | 0 <= i < |acc|
      ensures r[i].phoneNumber == acc[i].phoneNumber
      ensures FirstKeyed(init + [m], acc[i].phoneNumber) == FirstKeyed(init, acc[i].phoneNumber)
    {
      assert acc[i] in acc;
      FirstKeyedOfKey(init, acc[i].phoneNumber);
      FirstKeyedSnoc(init, m, acc[i].phoneNumber);
    }
  }

  lemma CollectOrderNew(init: seq<Message>, acc: seq<ChatPreview>, m: Message)
    requires Phones(acc) == Keys(init)
    requires InFirstAppearanceOrder(init, acc)
    requires PreviewKey(m) !in Phones(acc)
    ensures InFirstAppearanceOrder(init + [m], Upsert(acc, m))
  {
    var r := acc + [Start(m)];
    assert Upsert(acc, m) == r;
    FirstKeyedOfKeyMissing(init, PreviewKey(m));
    FirstKeyedSnoc(init, m, PreviewKey(m));
    forall i | 0 <= i < |acc|
      ensures FirstKeyed(init + [m], acc[i].phoneNumber) == FirstKeyed(init, acc[i].phoneNumber) < |init|
    {
      assert acc[i] in acc;
      FirstKeyedOfKey(init, acc[i].phoneNumber);
      FirstKeyedSnoc(init, m, acc[i].phoneNumber);
    }
    forall i, j | 0 <= i < j < |r|
      ensures FirstKeyed(init + [m], r[i].phoneNumber) < FirstKeyed(init + [m], r[j].phoneNumber)
    {
      assert r[i] == acc[i];
      if j < |acc| {
        assert r[j] == acc[j];
      }
    }
  }

  /** A conversation without messages does not appear. */
  lemma FirstKeyedOfKeyMissing(messages: seq<Message>, key: string)
    requires key !in Keys(messages)
    ensures FirstKeyed(messages, key) == |messages|
  {
    if FirstKeyed(messages, key) < |messages| {
      assert messages[FirstKeyed(messages, key)] in messages;
    }
  }

  /** The `Map`'s values come out in order of first appearance of their keys. */
  lemma {:induction false} CollectFirstAppearance(messages: seq<Message>)
    ensures InFirstAppearanceOrder(messages, Collect(messages))
  {
    if messages != [] {
      var init, m := messages[..|messages| - 1], messages[|messages| - 1];
      SplitLast(messages);
      CollectFirstAppearance(init);
      CollectSummarizes(init);
      if PreviewKey(m) in Phones(Collect(init)) {
        CollectOrderKnown(init, Collect(init), m);
      } else {
        CollectOrderNew(init, Collect(init), m);
      }
    }
  }

  /** Previews whose last messages share a timestamp are listed in the
      order in which their conversations first appeared in the store. */
  lemma PreviewTiesInFirstAppearanceOrder(s: Store)
    ensures var r := GetChatPreviews(s);
      forall i, j :: 0 <= i < j < |r| && r[i].lastMessage.timestamp == r[j].lastMessage.timestamp ==>
        FirstKeyed(s.messages, r[i].phoneNumber) < FirstKeyed(s.messages, r[j].phoneNumber)
  {
    var acc := Collect(s.messages);
    var f := (p: ChatPreview) => FirstKeyed(s.messages, p.phoneNumber) as int;
    CollectFirstAppearance(s.messages);
    assert IncreasingBy(acc, f);
    SortKeepsTieOrder(acc, Recency, f);
    var r := GetChatPreviews(s);
    assert r == SortBy(acc, Recency);
    forall i, j | 0 <= i < j < |r| && r[i].lastMessage.timestamp == r[j].lastMessage.timestamp
      ensures FirstKeyed(s.messages, r[i].phoneNumber) < FirstKeyed(s.messages, r[j].phoneNumber)
    {
      assert Recency(r[i]) == Recency(r[j]);
      assert f(r[i]) < f(r[j]);
    }
  }

}
