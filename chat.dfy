/**
 * The board chat sidebar: the message buffer that `onmessage` rewrites, the
 * notification a message may raise, the send guard, and the `http` to `ws`
 * rewrite of the API address. The socket itself is not modelled; its state
 * is two flags the socket callbacks set.
 */
module Chat {
  import opened Wrappers
  import opened Lists
  import opened JsString
  import opened Sorting
  import N = Notifications

  /** A chat frame as the server encodes it; `timestamp` is in milliseconds. */
  datatype ChatMessage = ChatMessage(kind: string, content: string, senderId: string, senderEmail: string,
                                     boardId: string, timestamp: int)

  /** The frame `sendMessage` writes to the socket. */
  datatype Outgoing = Outgoing(kind: string, content: string)

  /** The signed-in user as the sidebar reads it. */
  datatype User = User(id: string, email: string)

  /** The sort comparator `a.timestamp - b.timestamp`, read as "strictly earlier". */
  predicate EarlierThan(a: ChatMessage, b: ChatMessage) {
    a.timestamp < b.timestamp
  }

  /** The order the buffer is meant to have: by timestamp, ties in any order. */
  predicate NotLater(a: ChatMessage, b: ChatMessage) {
    a.timestamp <= b.timestamp
  }

  /** The messages sent at time `t`. */
  function AtTime(t: int): ChatMessage -> bool {
    (m: ChatMessage) => m.timestamp == t
  }

  /** A message with the same timestamp and content as `msg` is already buffered. */
  predicate Seen(buffer: seq<ChatMessage>, msg: ChatMessage): (r: bool)
    ensures msg in buffer ==> r
    ensures buffer == [] ==> !r
  {
    exists m :: m in buffer && m.timestamp == msg.timestamp && m.content == msg.content
  }

  /**
   * The buffer after `msg` arrives: a `history` frame already buffered (same
   * timestamp and content) changes nothing, a new one joins the buffer, which
   * is then stably sorted by timestamp; any other frame is appended as it is.
   */
  function Received(buffer: seq<ChatMessage>, msg: ChatMessage): (r: seq<ChatMessage>)
    ensures msg.kind == "history" && Seen(buffer, msg) ==> r == buffer
    ensures msg.kind == "history" && !Seen(buffer, msg) ==> multiset(r) == multiset(buffer) + multiset{msg}
    ensures msg.kind != "history" ==> r == buffer + [msg]
  {
    if msg.kind != "history" then buffer + [msg]
    else if Seen(buffer, msg) then buffer
    else
      SortPermutes(buffer + [msg], EarlierThan);
      Sort(buffer + [msg], EarlierThan)
  }

  /** After a `history` frame arrives, the buffer holds it. */
  lemma HistoryRecorded(buffer: seq<ChatMessage>, msg: ChatMessage)
    requires msg.kind == "history"
    ensures Seen(Received(buffer, msg), msg)
  {
    if !Seen(buffer, msg) {
      assert msg in multiset(Received(buffer, msg));
    }
  }

  /** A `history` frame delivered twice, as on a reconnect, counts once. */
  lemma HistoryIdempotent(buffer: seq<ChatMessage>, msg: ChatMessage)
    requires msg.kind == "history"
    ensures Received(Received(buffer, msg), msg) == Received(buffer, msg)
  {
    HistoryRecorded(buffer, msg);
  }

  /** A new `history` frame leaves the buffer in timestamp order, whatever order it had. */
  lemma HistorySorted(buffer: seq<ChatMessage>, msg: ChatMessage)
    requires msg.kind == "history" && !Seen(buffer, msg)
    ensures SortedBy(Received(buffer, msg), NotLater)
  {
    SortSorted(buffer + [msg], EarlierThan, NotLater);
  }

  /** Messages with the same timestamp keep the order they had, the new one last. */
  lemma HistoryStable(buffer: seq<ChatMessage>, msg: ChatMessage, t: int)
    requires msg.kind == "history" && !Seen(buffer, msg)
    ensures Filter(Received(buffer, msg), AtTime(t)) == Filter(buffer + [msg], AtTime(t))
  {
    SortStable(buffer + [msg], EarlierThan, AtTime(t));
  }

  /** `boardTitleRef.current || 'Pano'`. */
  function TitleOr(boardTitle: Option<string>): (r: string)
    ensures r != ""
    ensures boardTitle.Some? && boardTitle.value != "" ==> r == boardTitle.value
    ensures !(boardTitle.Some? && boardTitle.value != "") ==> r == "Pano"
  {
    if boardTitle.Some? && boardTitle.value != "" then boardTitle.value else "Pano"
  }

  /**
   * The notification a non-history frame raises: only for a frame from
   * someone else while the chat is closed. The sender shown is the part of
   * the address before the first `@`.
   */
  function Notice(msg: ChatMessage, userEmail: string, isOpen: bool, boardId: string, boardTitle: Option<string>)
    : (r: Option<N.Payload>)
    ensures r.Some? <==> msg.senderEmail != userEmail && !isOpen
    ensures r.Some? ==>
      && r.value.boardId == boardId && r.value.boardTitle == TitleOr(boardTitle)
      && r.value.message == msg.content && r.value.timestamp == msg.timestamp
      && '@' !in r.value.sender && |r.value.sender| <= |msg.senderEmail|
      && msg.senderEmail[..|r.value.sender|] == r.value.sender
      && (|r.value.sender| < |msg.senderEmail| ==> msg.senderEmail[|r.value.sender|] == '@')
  {
    if msg.senderEmail != userEmail && !isOpen then
      Some(N.Payload(boardId, TitleOr(boardTitle), msg.content, BeforeFirst(msg.senderEmail, '@'), msg.timestamp))
    else None
  }

  /** The connection effect's guard: open, with a board, and signed in. */
  predicate ShouldConnect(isOpen: bool, boardId: string, user: Option<User>): (r: bool)
    ensures r ==> isOpen && boardId != "" && user.Some?
    ensures !isOpen ==> !r
  {
    isOpen && boardId != "" && user.Some?
  }

  /**
   * The socket's callbacks see the `isOpen` of the effect that created it,
   * which the guard requires to be true; so no frame on that socket ever
   * raises a notification.
   */
  lemma ConnectedSocketNeverNotifies(msg: ChatMessage, isOpen: bool, boardId: string, user: Option<User>,
                                     boardTitle: Option<string>)
    requires ShouldConnect(isOpen, boardId, user)
    ensures Notice(msg, user.value.email, isOpen, boardId, boardTitle).None?
  {
  }

  /** The host and path of the default API address. */
  const DefaultHost := "localhost:9092/api"

  /** `import.meta.env.VITE_API_URL || 'http://localhost:9092/api'`. */
  function ApiUrl(env: Option<string>): (r: string)
    ensures env.Some? && env.value != "" ==> r == env.value
    ensures !(env.Some? && env.value != "") ==> r == "http://" + DefaultHost
  {
    if env.Some? && env.value != "" then env.value else "http://" + DefaultHost
  }

  /** `API_URL.replace('http', 'ws')`: only the first `http` is rewritten. */
  function WsUrl(api: string): (r: string)
    ensures IndexOf(api, "http").None? ==> r == api
    ensures IndexOf(api, "http").Some? ==> |r| == |api| - 2
  {
    ReplaceFirst(api, "http", "ws")
  }

  /** An `https` address becomes a `wss` one, the rest untouched. */
  lemma WsUrlOfHttps(rest: string)
    ensures WsUrl("https://" + rest) == "wss://" + rest
  {
    assert "https://" + rest == "http" + ("s://" + rest);
    ReplaceFirstAtStart("http", "s://" + rest, "ws");
    assert "ws" + ("s://" + rest) == "wss://" + rest;
  }

  /** An `http` address becomes a `ws` one; a later `http` in it stays. */
  lemma WsUrlOfHttp(rest: string)
    ensures WsUrl("http://" + rest) == "ws://" + rest
  {
    assert "http://" + rest == "http" + ("://" + rest);
    ReplaceFirstAtStart("http", "://" + rest, "ws");
    assert "ws" + ("://" + rest) == "ws://" + rest;
  }

  /** With no configured address, the chat connects to the local server over `ws`. */
  lemma DefaultWsUrl()
    ensures WsUrl(ApiUrl(None)) == "ws://" + DefaultHost
  {
    WsUrlOfHttp(DefaultHost);
  }

  /** A missing token is interpolated as `undefined`. */
  function TokenText(token: Option<string>): (r: string)
    ensures token.Some? ==> r == token.value
    ensures token.None? ==> r == "undefined"
  {
    if token.Some? then token.value else "undefined"
  }

  /** The address the socket is opened on. */
  function ChatUrl(api: string, boardId: string, user: User, token: Option<string>): (r: string)
    ensures |WsUrl(api)| <= |r| && r[..|WsUrl(api)|] == WsUrl(api)
    ensures |TokenText(token)| <= |r| && r[|r| - |TokenText(token)|..] == TokenText(token)
  {
    var head := WsUrl(api);
    var tail := TokenText(token);
    var middle := "/chat?board_id=" + boardId + "&user_id=" + user.id + "&email=" + user.email + "&token=";
    assert head + middle + tail == head + (middle + tail);
    head + middle + tail
  }

  class ChatSidebar {
    var messages: seq<ChatMessage>
    var inputText: string
    var hasSocket: bool
    var isConnected: bool

    constructor ()
      ensures messages == [] && inputText == "" && !hasSocket && !isConnected
    {
      messages := [];
      inputText := "";
      hasSocket := false;
      isConnected := false;
    }

    /** The input field's change handler. */
    method SetInput(text: string)
      modifies this
      ensures inputText == text
      ensures messages == old(messages) && hasSocket == old(hasSocket) && isConnected == old(isConnected)
    {
      inputText := text;
    }

    /** `setSocket(ws)` once the socket is created. */
    method SocketCreated()
      modifies this
      ensures hasSocket
      ensures messages == old(messages) && inputText == old(inputText) && isConnected == old(isConnected)
    {
      hasSocket := true;
    }

    /** `onopen` and `onclose`: the connected flag follows the socket. */
    method SetConnected(connected: bool)
      modifies this
      ensures isConnected == connected
      ensures messages == old(messages) && inputText == old(inputText) && hasSocket == old(hasSocket)
    {
      isConnected := connected;
    }

    /**
     * `onmessage`: the buffer becomes `Received(messages, msg)`; a non-history
     * frame also yields the notification `Notice` computes from the `isOpen`
     * and `boardId` the socket was created with and the user's address.
     */
    method OnMessage(msg: ChatMessage, userEmail: string, isOpen: bool, boardId: string, boardTitle: Option<string>)
      returns (note: Option<N.Payload>)
      modifies this
      ensures messages == Received(old(messages), msg)
      ensures note == (if msg.kind == "history" then None else Notice(msg, userEmail, isOpen, boardId, boardTitle))
      ensures inputText == old(inputText) && hasSocket == old(hasSocket) && isConnected == old(isConnected)
    {
      note := None;
      if msg.kind == "history" {
        if !Seen(messages, msg) {
          var buffer := messages;
          var a := new ChatMessage[|buffer| + 1](i requires 0 <= i < |buffer| + 1 =>
            if i < |buffer| then buffer[i] else msg);
          assert a[..] == buffer + [msg];
          SortInPlace(a, EarlierThan);
          messages := a[..];
        }
      } else {
        messages := messages + [msg];
        note := Notice(msg, userEmail, isOpen, boardId, boardTitle);
      }
    }

    /**
     * `sendMessage`: with blank input, no socket or no connection nothing
     * happens; otherwise the untrimmed text goes out as a `text` frame and the
     * input is cleared.
     */
    method SendMessage() returns (frame: Option<Outgoing>)
      modifies this
      ensures Trim(old(inputText)) == [] || !hasSocket || !isConnected ==> frame.None? && inputText == old(inputText)
      ensures Trim(old(inputText)) != [] && hasSocket && isConnected ==>
        frame == Some(Outgoing("text", old(inputText))) && inputText == ""
      ensures messages == old(messages) && hasSocket == old(hasSocket) && isConnected == old(isConnected)
    {
      frame := None;
      if Trim(inputText) == [] || !hasSocket || !isConnected {
        return;
      }
      frame := Some(Outgoing("text", inputText));
      inputText := "";
    }
  }

  /** Opening the chat for a board clears that board's notifications. */
  method OpenEffect(store: N.NotificationStore, isOpen: bool, boardId: string)
    requires store.Valid()
    modifies store
    ensures store.Valid()
    ensures isOpen && boardId != "" ==> store.notifications == N.RemoveBoard(old(store.notifications), boardId)
    ensures isOpen && boardId != "" ==> N.RemovedUnread(store.notifications, boardId) == 0
    ensures !(isOpen && boardId != "") ==>
      store.notifications == old(store.notifications) && store.unreadCount == old(store.unreadCount)
  {
    if isOpen && boardId != "" {
      store.ClearBoardNotifications(boardId);
      N.RemoveBoardIdempotent(old(store.notifications), boardId);
    }
  }
}
