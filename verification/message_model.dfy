/** The message collection (backend/src/models/message.model.ts) and the
    conversation query of the message controller: the collection is an
    in-memory sequence in insertion order. */
module MessageModel {
  import opened Wrappers
  import opened Errors

  /** A stored message; `text` and `image` are optional. */
  datatype Message = Message(id: string, senderId: string, receiverId: string, text: Option<string>, image: Option<string>)

  type MessageStore = seq<Message>

  /** The `$or` condition of the conversation query. */
  predicate InConversation(m: Message, me: string, peer: string) {
    (m.senderId == me && m.receiverId == peer) || (m.senderId == peer && m.receiverId == me)
  }

  /** `Message.find({ $or: [...] })`: the matching messages in store order. */
  function Conversation(store: MessageStore, me: string, peer: string): (r: MessageStore)
    ensures forall m :: m in r <==> m in store && InConversation(m, me, peer)
    ensures |r| <= |store|
  {
    if |store| == 0 then []
    else
      var rest := Conversation(store[1..], me, peer);
      if InConversation(store[0], me, peer) then [store[0]] + rest else rest
  }

  /** Every message of the store occurs in the conversation as often as in the
      store when it belongs to it, and not at all otherwise. */
  lemma {:induction false} ConversationCounts(store: MessageStore, me: string, peer: string, m: Message)
    ensures multiset(Conversation(store, me, peer))[m] ==
      if InConversation(m, me, peer) then multiset(store)[m] else 0
  {
    if |store| > 0 {
      ConversationCounts(store[1..], me, peer, m);
      assert store == [store[0]] + store[1..];
    }
  }

  /** The conversation is symmetric: it is the same list seen from either side. */
  lemma {:induction false} ConversationSymmetric(store: MessageStore, me: string, peer: string)
    ensures Conversation(store, me, peer) == Conversation(store, peer, me)
  {
    if |store| > 0 {
      ConversationSymmetric(store[1..], me, peer);
    }
  }

  /** Filtering distributes over concatenation, so store order is kept. */
  lemma {:induction false} ConversationAppend(a: MessageStore, b: MessageStore, me: string, peer: string)
    ensures Conversation(a + b, me, peer) == Conversation(a, me, peer) + Conversation(b, me, peer)
  {
    if |a| == 0 {
      assert a + b == b;
    } else {
      var ab := a + b;
      assert ab[0] == a[0] && ab[1..] == a[1..] + b;
      ConversationAppend(a[1..], b, me, peer);
      assert Conversation(ab, me, peer) ==
        (if InConversation(a[0], me, peer) then [a[0]] else []) + Conversation(a[1..] + b, me, peer);
    }
  }

  /** `Message.create({ senderId, receiverId, text, image })`: `senderId`
      is required by the schema; `newId` is the generated `_id`. */
  function Create(store: MessageStore, senderId: Option<string>, receiverId: string,
                  text: Option<string>, image: Option<string>, newId: string): (r: Result<(MessageStore, Message), Thrown>)
    ensures r.Ok? <==> senderId.Some?
    ensures r.Ok? ==> r.value.1 == Message(newId, senderId.value, receiverId, text, image)
    ensures r.Ok? ==> r.value.0 == store + [r.value.1]
    ensures r.Err? ==> r.error == MongooseValidation([("senderId", "Path `senderId` is required.")])
  {
    match senderId
    case None => Err(MongooseValidation([("senderId", "Path `senderId` is required.")]))
    case Some(s) =>
      var m := Message(newId, s, receiverId, text, image);
      Ok((store + [m], m))
  }
}
