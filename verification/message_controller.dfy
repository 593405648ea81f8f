/** The messaging endpoints (backend/src/controllers/message.controller.ts):
    the sidebar's user list, one conversation, and sending a message, which
    uploads, then persists, then notifies the receiver if it is online. */
module MessageController {
  import opened Wrappers
  import opened Errors
  import opened UserModel
  import opened MessageModel
  import opened Presence
  import opened Schemas
  import opened Http
  import OrderedMaps
  import Validation

  const UsersListed := "Get user successfully"
  const UnauthorizedAccess := "Unauthorized access"
  const MessagesListed := "Get all messages successfully"
  const MessageSent := "Message sent successfully"

  /** Everything the endpoints read or change. */
  datatype World = World(users: UserStore, messages: MessageStore, server: Server)

  datatype MessageReply = MessageReply(world: World, outcome: Outcome)

  /** `_id: { $ne: callerId }`: the users that are not the caller, in store
      order and without passwords; with no caller id, every user. */
  function Others(users: UserStore, callerId: Option<string>): (r: seq<UserView>)
    ensures |r| <= |users|
    ensures forall v :: v in r <==> exists i :: 0 <= i < |users| && Some(users[i].id) != callerId && v == PublicView(users[i])
  {
    if |users| == 0 then []
    else
      var rest := Others(users[1..], callerId);
      assert forall i :: 1 <= i < |users| ==> users[i] == users[1..][i - 1];
      if Some(users[0].id) != callerId then [PublicView(users[0])] + rest else rest
  }

  /** The list keeps store order: the users of a concatenation are listed
      as the users of its first part followed by those of its second. */
  lemma {:induction false} OthersAppend(a: UserStore, b: UserStore, callerId: Option<string>)
    ensures Others(a + b, callerId) == Others(a, callerId) + Others(b, callerId)
  {
    if |a| == 0 {
      assert a + b == b;
    } else {
      var ab := a + b;
      assert ab[0] == a[0] && ab[1..] == a[1..] + b;
      OthersAppend(a[1..], b, callerId);
      assert Others(ab, callerId) ==
        (if Some(a[0].id) != callerId then [PublicView(a[0])] else []) + Others(a[1..] + b, callerId);
    }
  }

  /** In a well-formed collection the list is one shorter than the
      collection exactly when the caller is in it. */
  lemma {:induction false} OthersCount(users: UserStore, callerId: string)
    requires Wf(users)
    ensures |Others(users, Some(callerId))| == |users| - (if FindById(users, callerId).Some? then 1 else 0)
  {
    if |users| > 0 {
      assert Wf(users[1..]) by {
        assert forall a :: 0 <= a < |users| - 1 ==> users[1..][a] == users[a + 1];
      }
      OthersCount(users[1..], callerId);
      if users[0].id == callerId {
        assert FindById(users[1..], callerId).None? by {
          forall i | 0 <= i < |users| - 1 ensures users[1..][i].id != callerId {
            assert users[1..][i] == users[i + 1];
          }
        }
      }
    }
  }

  /** `getUsersForSidebar`. */
  function GetUsersForSidebar(users: UserStore, callerId: Option<string>): (r: Outcome)
    ensures r.Ok? && r.value.status == 200 && r.value.message == UsersListed
    ensures r.value.data.UserList? && forall v :: v in r.value.data.users ==> v.password.None? && Some(v.id) != callerId
  {
    Ok(Response(200, UsersListed, UserList(Others(users, callerId))))
  }

  /** `getMessages` for the caller and the peer in the path. */
  function GetMessages(messages: MessageStore, callerId: Option<string>, peer: string): (r: Outcome)
    ensures callerId.None? ==> r == Err(App(Unauthorized(Some(UnauthorizedAccess))))
    ensures callerId.Some? ==> r.Ok? && r.value.status == 200 && r.value.message == MessagesListed
    ensures callerId.Some? ==>
      (r.value.data.MessageList? &&
       forall m :: m in r.value.data.messages <==> m in messages && InConversation(m, callerId.value, peer))
    ensures callerId.Some? ==> r.value.data.messages == Conversation(messages, callerId.value, peer)
  {
    match callerId
    case None => Err(App(Unauthorized(Some(UnauthorizedAccess))))
    case Some(me) => Ok(Response(200, MessagesListed, MessageList(Conversation(messages, me, peer))))
  }

  /** Both sides of a conversation see the same list. */
  lemma GetMessagesSymmetric(messages: MessageStore, a: string, b: string)
    ensures GetMessages(messages, Some(a), b) == GetMessages(messages, Some(b), a)
  {
    ConversationSymmetric(messages, a, b);
  }

  /** The `newMessage` emissions for a persisted message: one, to the
      receiver's socket, when the registry holds a truthy socket id for it. */
  function Notify(server: Server, receiverId: string, m: Message): (r: seq<Emission>)
    ensures |r| <= 1
    ensures |r| == 1 <==> Truthy(ReceiverSocket(server, receiverId))
    ensures |r| == 1 ==> r[0] == NewMessage(ReceiverSocket(server, receiverId).value, m)
  {
    var socket := ReceiverSocket(server, receiverId);
    if Truthy(socket) then [NewMessage(socket.value, m)] else []
  }

  /** `sendMessage` on a validated body. `upload` is the image host
      (`None` when it refuses) and `newId` the new message's `_id`. */
  function SendMessage(w: World, senderId: Option<string>, receiverId: string, input: MessageInput,
                       upload: string -> Option<string>, newId: string): (r: MessageReply)
    ensures r.world.users == w.users && r.world.server.registry == w.server.registry && r.world.server.open == w.server.open
    // A refused upload aborts before anything is stored or emitted.
    ensures Truthy(input.image) && upload(input.image.value).None? ==> r == MessageReply(w, Err(UploadFailed))
    ensures r.outcome.Ok? <==> senderId.Some? && !(Truthy(input.image) && upload(input.image.value).None?)
    ensures r.outcome.Err? ==> r.world == w
    // The stored message carries the text as sent and the uploaded URL, if an image was sent.
    ensures r.outcome.Ok? ==>
      var m := Message(newId, senderId.value, receiverId, input.text,
                       if Truthy(input.image) then upload(input.image.value) else None);
      && r.world.messages == w.messages + [m]
      && r.world.server.log == w.server.log + Notify(w.server, receiverId, m)
      && r.outcome.value == Response(201, MessageSent, MessageData(m))
  {
    var imageUrl: Result<Option<string>, Thrown> :=
      if !Truthy(input.image) then Ok(None)
      else match upload(input.image.value)
        case None => Err(UploadFailed)
        case Some(url) => Ok(Some(url));
    match imageUrl
    case Err(e) => MessageReply(w, Err(e))
    case Ok(image) =>
      match Create(w.messages, senderId, receiverId, input.text, image, newId)
      case Err(e) => MessageReply(w, Err(e))
      case Ok((messages, m)) =>
        var server := w.server.(log := w.server.log + Notify(w.server, receiverId, m));
        MessageReply(World(w.users, messages, server), Ok(Response(201, MessageSent, MessageData(m))))
  }

  /** A sent message shows up exactly once, last, in the conversation of
      either side, and nowhere else changes it. */
  lemma SendThenList(w: World, senderId: string, receiverId: string, input: MessageInput,
                     upload: string -> Option<string>, newId: string)
    requires SendMessage(w, Some(senderId), receiverId, input, upload, newId).outcome.Ok?
    ensures var r := SendMessage(w, Some(senderId), receiverId, input, upload, newId);
      var m := r.outcome.value.data.message;
      && GetMessages(r.world.messages, Some(senderId), receiverId).value.data.messages ==
         Conversation(w.messages, senderId, receiverId) + [m]
      && GetMessages(r.world.messages, Some(receiverId), senderId).value.data.messages ==
         Conversation(w.messages, senderId, receiverId) + [m]
  {
    var r := SendMessage(w, Some(senderId), receiverId, input, upload, newId);
    var m := r.outcome.value.data.message;
    ConversationAppend(w.messages, [m], senderId, receiverId);
    ConversationAppend(w.messages, [m], receiverId, senderId);
    ConversationSymmetric(w.messages, senderId, receiverId);
  }

  /** A receiver that is online and registered gets exactly one
      notification, to the socket it registered last. */
  lemma OnlineReceiverNotified(w: World, senderId: string, receiverId: string, socket: SocketId,
                               input: MessageInput, upload: string -> Option<string>, newId: string)
    requires OrderedMaps.Get(w.server.registry, receiverId) == Some(socket) && socket != ""
    requires SendMessage(w, Some(senderId), receiverId, input, upload, newId).outcome.Ok?
    ensures var r := SendMessage(w, Some(senderId), receiverId, input, upload, newId);
      r.world.server.log == w.server.log + [NewMessage(socket, r.outcome.value.data.message)]
  {
  }

  /** After `protectRoute` has attached the caller (`senderId` is the id it
      attached): `validate(messageSchema)`, then the handler. A body
      with neither a text nor an image is a 422 and nothing is sent. */
  function SendMessageRoute(w: World, senderId: Option<string>, receiverId: string, body: Body,
                            upload: string -> Option<string>, newId: string): (r: MessageReply)
    ensures ParseMessage(body).Invalid? ==>
      r.world == w && r.outcome.Err? && r.outcome.error.App? && r.outcome.error.err.statusCode == 422
    ensures ParseMessage(body).Valid? ==>
      r == SendMessage(w, senderId, receiverId, MessageInput(OptStr(body, "text"), OptStr(body, "image")), upload, newId)
  {
    match ParseMessage(body)
    case Invalid(issues) =>
      var e := Validation.Validate(ParseMessage(body));
      MessageReply(w, Err(App(e.err)))
    case Valid(input) => SendMessage(w, senderId, receiverId, input, upload, newId)
  }
}
