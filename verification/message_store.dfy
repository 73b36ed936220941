/** The in-memory conversation store: every message ever received or sent,
    in insertion order, plus the insertion-ordered set of "active chat"
    addresses (those carrying the `whatsapp:` channel prefix).

    The source keeps both in process-wide mutable globals; here a `Store`
    value is threaded through pure functions.  The fresh id and the clock
    reading that `addMessage` draws from a UUID generator and `new Date()`
    are parameters, and timestamps are milliseconds as a `nat`. */
module MessageStore {
  import opened Common
  import opened Sorting
  import opened Strings

  datatype Direction = Incoming | Outgoing

  datatype Message = Message(
    id: string,
    from: string,
    to: string,
    body: string,
    direction: Direction,
    timestamp: nat)

  /** What a caller hands to `addMessage`: a message without id and timestamp. */
  datatype Draft = Draft(from: string, to: string, body: string, direction: Direction)

  /** `activeChats` is a JavaScript `Set`, whose iteration order is the
      order of first insertion; it is modelled as a duplicate-free sequence. */
  datatype Store = Store(messages: seq<Message>, activeChats: seq<string>)

  /** The new store and the message `addMessage` returns. */
  datatype Added = Added(store: Store, message: Message)

  /** The new store (sorted in place) and the array `getAllMessages` returns. */
  datatype Listed = Listed(store: Store, messages: seq<Message>)

  const ChatPrefix: string := "whatsapp:"

  const EmptyStore: Store := Store([], [])

  predicate IsChatAddress(address: string)
  {
    StartsWith(address, ChatPrefix)
  }

  /** Sort key of the store's ordering: the creation time. */
  function Timestamp(m: Message): int
  {
    m.timestamp
  }

  /** Every `whatsapp:` address that occurs as sender or recipient. */
  ghost function ChatAddresses(messages: seq<Message>): set<string>
  {
    (set m | m in messages && IsChatAddress(m.from) :: m.from)
    + (set m | m in messages && IsChatAddress(m.to) :: m.to)
  }

  /** The relation between the two halves of the store that every
      operation maintains: the active chats are exactly the chat addresses
      of the stored messages, each listed once. */
  ghost predicate Valid(s: Store)
  {
    && NoDuplicates(s.activeChats)
    && (set a | a in s.activeChats) == ChatAddresses(s.messages)
  }

  /** `activeChats.add(address)` when the address is a chat address. */
  function Track(chats: seq<string>, address: string): (r: seq<string>)
    ensures NoDuplicates(chats) ==> NoDuplicates(r)
    ensures forall a :: a in r <==> a in chats || (a == address && IsChatAddress(address))
    ensures |chats| <= |r| && r[..|chats|] == chats
    ensures IsChatAddress(address) && address !in chats ==> r == chats + [address]
  {
    if IsChatAddress(address) && address !in chats then chats + [address] else chats
  }

  /** `MessageStore.addMessage`: appends one message carrying the draft's
      fields, the given id and the given clock reading, and records its
      sender and then its recipient as active chats when they are
      `whatsapp:` addresses.  Nothing already stored changes. */
  function AddMessage(s: Store, draft: Draft, id: string, now: nat): (r: Added)
    ensures r.message.id == id && r.message.timestamp == now
    ensures r.message.from == draft.from && r.message.to == draft.to
    ensures r.message.body == draft.body && r.message.direction == draft.direction
    ensures r.store.messages == s.messages + [r.message]
    ensures |r.store.activeChats| >= |s.activeChats|
    ensures r.store.activeChats[..|s.activeChats|] == s.activeChats
    ensures IsChatAddress(draft.from) && draft.from !in s.activeChats ==>
      |r.store.activeChats| > |s.activeChats| && r.store.activeChats[|s.activeChats|] == draft.from
    ensures forall a :: a in r.store.activeChats <==>
      || a in s.activeChats
      || (a == draft.from && IsChatAddress(a))
      || (a == draft.to && IsChatAddress(a))
    ensures Valid(s) ==> Valid(r.store)
  {
    var m := Message(id, draft.from, draft.to, draft.body, draft.direction, now);
    var chats := Track(Track(s.activeChats, m.from), m.to);
    AddKeepsValid(s, m);
    Added(Store(s.messages + [m], chats), m)
  }

  lemma ChatAddressesAppend(messages: seq<Message>, m: Message)
    ensures ChatAddresses(messages + [m]) == ChatAddresses(messages)
      + (if IsChatAddress(m.from) then {m.from} else {})
      + (if IsChatAddress(m.to) then {m.to} else {})
  {
    var ms := messages + [m];
    assert forall x :: x in ms <==> x in messages || x == m;
  }

  lemma AddKeepsValid(s: Store, m: Message)
    ensures Valid(s) ==> Valid(Store(s.messages + [m], Track(Track(s.activeChats, m.from), m.to)))
  {
    if Valid(s) {
      ChatAddressesAppend(s.messages, m);
      TrackElements(s.activeChats, m.from);
      TrackElements(Track(s.activeChats, m.from), m.to);
    }
  }

  /** The set of tracked addresses grows by the address when it is a chat address. */
  lemma TrackElements(chats: seq<string>, address: string)
    ensures (set a | a in Track(chats, address))
         == (set a | a in chats) + (if IsChatAddress(address) then {address} else {})
  {
  }

  /** `MessageStore.getAllMessages`: sorts the stored messages in place by
      timestamp (stably, as `Array.prototype.sort` does) and returns them.
      The result is a permutation of the store, non-decreasing in time,
      and messages with equal timestamps keep their stored order. */
  function GetAllMessages(s: Store): (r: Listed)
    ensures r.store.messages == r.messages
    ensures r.store.activeChats == s.activeChats
    ensures multiset(r.messages) == multiset(s.messages)
    ensures SortedBy(r.messages, Timestamp)
    ensures forall t :: WithKey(r.messages, Timestamp, t) == WithKey(s.messages, Timestamp, t)
    ensures Valid(s) ==> Valid(r.store)
  {
    var sorted := SortBy(s.messages, Timestamp);
    assert forall t :: WithKey(sorted, Timestamp, t) == WithKey(s.messages, Timestamp, t) by {
      forall t ensures WithKey(sorted, Timestamp, t) == WithKey(s.messages, Timestamp, t) {
        SortStable(s.messages, Timestamp, t);
      }
    }
    assert forall m :: m in sorted <==> m in s.messages by {
      forall m ensures m in sorted <==> m in s.messages {
        assert m in sorted <==> m in multiset(sorted);
        assert m in s.messages <==> m in multiset(s.messages);
      }
    }
    assert ChatAddresses(sorted) == ChatAddresses(s.messages);
    Listed(Store(sorted, s.activeChats), sorted)
  }

  /** A message belongs to the conversation view of `address` when it was
      sent from or to that address. */
  predicate Involves(m: Message, address: string)
  {
    m.from == address || m.to == address
  }

  /** `messages.filter(...)`: the messages involving `address`, in store order. */
  function Conversation(messages: seq<Message>, address: string): (r: seq<Message>)
    ensures forall m :: multiset(r)[m] == if Involves(m, address) then multiset(messages)[m] else 0
  {
    if messages == [] then []
    else
      var init, last := messages[..|messages| - 1], messages[|messages| - 1];
      assert messages == init + [last];
      Conversation(init, address) + (if Involves(last, address) then [last] else [])
  }

  /** The filter on one more message keeps it exactly when it involves the address. */
  lemma ConversationSnoc(messages: seq<Message>, m: Message, address: string)
    ensures Conversation(messages + [m], address)
         == Conversation(messages, address) + (if Involves(m, address) then [m] else [])
  {
    assert (messages + [m])[..|messages|] == messages;
  }

  /** The filter keeps store order: filtering a concatenation is the
      concatenation of the filtered parts. */
  lemma {:induction false} ConversationAppend(a: seq<Message>, b: seq<Message>, address: string)
    ensures Conversation(a + b, address) == Conversation(a, address) + Conversation(b, address)
    decreases |b|
  {
    if b == [] {
      assert a + b == a;
    } else {
      var init, last := b[..|b| - 1], b[|b| - 1];
      var kept := if Involves(last, address) then [last] else [];
      assert Conversation(a + b, address) == Conversation(a + init, address) + kept by {
        assert a + b == (a + init) + [last];
        ConversationSnoc(a + init, last, address);
      }
      assert Conversation(b, address) == Conversation(init, address) + kept by {
        ConversationSnoc(init, last, address);
      }
      ConversationAppend(a, init, address);
      AppendAssociates(Conversation(a, address), Conversation(init, address), kept);
    }
  }

  /** `MessageStore.getMessagesByPhoneNumber`: exactly the stored messages
      sent from or to `address` (with their multiplicities), ordered by
      timestamp, equal timestamps in store order.  The store itself is
      not touched: the filter makes a copy and only the copy is sorted. */
  function GetMessagesByPhoneNumber(s: Store, address: string): (r: seq<Message>)
    ensures forall m :: multiset(r)[m] == if Involves(m, address) then multiset(s.messages)[m] else 0
    ensures forall m :: m in r <==> m in s.messages && Involves(m, address)
    ensures SortedBy(r, Timestamp)
    ensures forall t :: WithKey(r, Timestamp, t) == WithKey(Conversation(s.messages, address), Timestamp, t)
  {
    var c := Conversation(s.messages, address);
    var r := SortBy(c, Timestamp);
    assert forall t :: WithKey(r, Timestamp, t) == WithKey(c, Timestamp, t) by {
      forall t ensures WithKey(r, Timestamp, t) == WithKey(c, Timestamp, t) {
        SortStable(c, Timestamp, t);
      }
    }
    assert forall m :: m in r <==> m in s.messages && Involves(m, address) by {
      forall m ensures m in r <==> m in s.messages && Involves(m, address) {
        assert m in r <==> multiset(r)[m] > 0;
        assert m in s.messages <==> multiset(s.messages)[m] > 0;
      }
    }
    r
  }

  /** `MessageStore.getActiveChats`: the recorded chat addresses in order of
      first appearance.  In every store the operations can produce, these
      are exactly the `whatsapp:` addresses of the stored messages, once each. */
  function GetActiveChats(s: Store): (r: seq<string>)
    ensures Valid(s) ==> NoDuplicates(r)
    ensures Valid(s) ==> forall a :: a in r <==> a in ChatAddresses(s.messages)
  {
    assert Valid(s) ==> forall a :: a in s.activeChats <==> a in (set a | a in s.activeChats);
    s.activeChats
  }

  /** `MessageStore.getMessageCount`: the number of stored messages, which
      is also the length of the full listing. */
  function MessageCount(s: Store): (n: nat)
    ensures n == |GetAllMessages(s).messages|
    ensures n == 0 <==> s.messages == []
  {
    |s.messages|
  }

  /** `MessageStore.clearMessages`: replaces both the messages and the
      active chats with empty ones, whatever the store held. */
  function ClearMessages(s: Store): (r: Store)
    ensures MessageCount(r) == 0
    ensures GetAllMessages(r).messages == []
    ensures GetActiveChats(r) == []
    ensures Valid(r)
  {
    EmptyStore
  }

  /** Each `addMessage` raises the count by exactly one. */
  lemma AddCounts(s: Store, draft: Draft, id: string, now: nat)
    ensures MessageCount(AddMessage(s, draft, id, now).store) == MessageCount(s) + 1
  {
  }

  /** With a clock that never runs backwards, insertion order is already
      timestamp order: appending at a time no earlier than every stored
      message keeps the store sorted ... */
  lemma AddKeepsTimeOrder(s: Store, draft: Draft, id: string, now: nat)
    requires SortedBy(s.messages, Timestamp)
    requires forall m :: m in s.messages ==> m.timestamp <= now
    ensures SortedBy(AddMessage(s, draft, id, now).store.messages, Timestamp)
  {
    var ms := AddMessage(s, draft, id, now).store.messages;
    forall i, j | 0 <= i < j < |ms| ensures Timestamp(ms[i]) <= Timestamp(ms[j]) {
      if j == |ms| - 1 {
        assert ms[i] in s.messages;
      }
    }
  }

  /** ... and then `getAllMessages` returns the messages in the order they
      were stored. */
  lemma SortedStoreListsInStoreOrder(s: Store)
    requires SortedBy(s.messages, Timestamp)
    ensures GetAllMessages(s).messages == s.messages
    ensures GetAllMessages(s).store == s
  {
    SortSortedIsIdentity(s.messages, Timestamp);
  }

  /** The empty store is `Valid`; since every operation preserves `Valid`,
      so is every store reachable from it. */
  lemma EmptyIsValid()
    ensures Valid(EmptyStore)
  {
  }
}
