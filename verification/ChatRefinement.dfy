/** The server as the conversation view sees it: listMessages answers exactly as the view's
    model of the server does, and a sent message is an arrival. */
module ChatRefinement {
  import opened Wrappers
  import opened InsertionMap
  import opened ChatServer
  import Paging
  import View = Conversation

  const STRIP: Message -> View.Msg := (m: Message) => View.Msg(m.id, m.createdAt)

  function ChatView(s: Store, chatId: nat): seq<View.Msg> {
    Paging.Map(STRIP, OfChat(s.messages, chatId))
  }

  /** Message ids are positions, and the times of a chat's messages ascend. */
  ghost predicate Timely(s: Store, chatId: nat) {
    && IdsArePositions(s.messages)
    && (forall m, n :: 0 <= m < n < |s.messages| && s.messages[m].chatId == chatId && s.messages[n].chatId == chatId ==>
          s.messages[m].createdAt < s.messages[n].createdAt)
  }

  predicate IdsArePositions(messages: seq<Message>) {
    forall m :: 0 <= m < |messages| ==> messages[m].id == m
  }

  /** Rows of this chat, each at its place in the table, in the order of the table. */
  ghost predicate RowsFrom(rows: seq<Message>, messages: seq<Message>, chatId: nat) {
    && (forall i :: 0 <= i < |rows| ==> rows[i].chatId == chatId && rows[i].id < |messages| && messages[rows[i].id] == rows[i])
    && (forall i, j :: 0 <= i < j < |rows| ==> rows[i].id < rows[j].id)
  }

  lemma RowsExtend(rows: seq<Message>, messages: seq<Message>, chatId: nat)
    requires messages != [] && IdsArePositions(messages) && RowsFrom(rows, messages[..|messages| - 1], chatId)
    ensures RowsFrom(rows, messages, chatId)
    ensures var last := messages[|messages| - 1]; last.chatId == chatId ==> RowsFrom(rows + [last], messages, chatId)
  {
  }

  lemma OfChatLast(messages: seq<Message>, chatId: nat)
    requires messages != []
    ensures var n := |messages| - 1;
      OfChat(messages, chatId) == OfChat(messages[..n], chatId) + if messages[n].chatId == chatId then [messages[n]] else []
  {
  }

  lemma {:induction false} OfChatRows(messages: seq<Message>, chatId: nat)
    requires IdsArePositions(messages)
    ensures RowsFrom(OfChat(messages, chatId), messages, chatId)
  {
    if messages == [] {
    } else {
      var front := OfChat(messages[..|messages| - 1], chatId);
      OfChatRows(messages[..|messages| - 1], chatId);
      RowsExtend(front, messages, chatId);
      OfChatLast(messages, chatId);
      assert front + [] == front;
    }
  }

  /** The chat's messages, as the view knows them, are in order. */
  lemma ChatViewOrdered(s: Store, chatId: nat)
    requires Timely(s, chatId)
    ensures View.WellOrdered(ChatView(s, chatId))
  {
    OfChatRows(s.messages, chatId);
    var rows, view := OfChat(s.messages, chatId), ChatView(s, chatId);
    forall i, j | 0 <= i < j < |view| ensures view[i].at < view[j].at && view[i].id != view[j].id {
      assert rows[i].id < rows[j].id;
    }
  }

  lemma OfChatAppend(messages: seq<Message>, m: Message, chatId: nat)
    ensures Paging.Map(STRIP, OfChat(messages + [m], chatId))
         == Paging.Map(STRIP, OfChat(messages, chatId)) + if m.chatId == chatId then [STRIP(m)] else []
  {
    assert (messages + [m])[..|messages|] == messages;
  }

  lemma MapOfChat(messages: seq<Message>, chatId: nat)
    requires messages != []
    ensures var n := |messages| - 1;
      Paging.Map(STRIP, OfChat(messages, chatId))
      == Paging.Map(STRIP, OfChat(messages[..n], chatId)) + if messages[n].chatId == chatId then [STRIP(messages[n])] else []
  {
    var n := |messages| - 1;
    OfChatAppend(messages[..n], messages[n], chatId);
    assert messages[..n] + [messages[n]] == messages;
  }

  lemma {:induction false} CursorInChat(messages: seq<Message>, chatId: nat, id: nat)
    requires IdsArePositions(messages)
    ensures Get(View.MSG_ID, Paging.Map(STRIP, OfChat(messages, chatId)), id)
         == if id < |messages| && messages[id].chatId == chatId then Some(STRIP(messages[id])) else None
  {
    if messages == [] {
    } else {
      var n := |messages| - 1;
      var front := Paging.Map(STRIP, OfChat(messages[..n], chatId));
      CursorInChat(messages[..n], chatId, id);
      MapOfChat(messages, chatId);
      GetAppend(front, STRIP(messages[n]), id);
      assert front + [] == front;
    }
  }

  lemma {:induction false} GetAppend(list: seq<View.Msg>, m: View.Msg, id: nat)
    ensures Get(View.MSG_ID, list + [m], id)
         == if Get(View.MSG_ID, list, id).Some? then Get(View.MSG_ID, list, id) else if m.id == id then Some(m) else None
  {
    if list == [] {
    } else {
      assert (list + [m])[1..] == list[1..] + [m];
      GetAppend(list[1..], m, id);
    }
  }

  /** listMessages with the view's page size is the server the view was verified against. */
  lemma ListMessagesServesTheView(s: Store, chatId: nat, r: Requester, before: Option<nat>)
    requires IdsArePositions(s.messages)
    requires CanAccess(s, chatId, r)
    ensures ListMessages(s, chatId, r, before, Some(View.PAGE)).Ok?
    ensures Paging.Map(STRIP, ListMessages(s, chatId, r, before, Some(View.PAGE)).value)
         == View.Serve(ChatView(s, chatId), before)
  {
    var cutoff := Cutoff(s, chatId, before);
    if before.Some? {
      CursorInChat(s.messages, chatId, before.value);
    }
    Paging.PageOfMap(STRIP, MESSAGE_AT, View.MSG_AT, OfChat(s.messages, chatId), cutoff, View.PAGE);
  }

  /** The message a successful send adds. */
  function Sent(s: Store, chatId: nat, r: Requester, text: Option<string>, ids: seq<nat>): Message
    requires SendMessageStep(s, chatId, r, text, ids).1.Ok?
  {
    SendMessageStep(s, chatId, r, text, ids).0.messages[|s.messages|]
  }

  lemma SendAppends(s: Store, chatId: nat, r: Requester, text: Option<string>, ids: seq<nat>)
    requires SendMessageStep(s, chatId, r, text, ids).1.Ok?
    ensures SendMessageStep(s, chatId, r, text, ids).0.messages == s.messages + [Sent(s, chatId, r, text, ids)]
    ensures var m := Sent(s, chatId, r, text, ids); m.chatId == chatId && m.id == |s.messages| && m.createdAt == s.now
  {
  }

  predicate AllBefore(s: Store, chatId: nat, now: int) {
    forall m :: 0 <= m < |s.messages| && s.messages[m].chatId == chatId ==> s.messages[m].createdAt < now
  }

  /** A new last row keeps the chat in order. */
  lemma AppendKeepsTimely(s: Store, s': Store, chatId: nat, m: Message)
    requires Timely(s, chatId) && AllBefore(s, chatId, m.createdAt) && m.id == |s.messages|
    requires s'.messages == s.messages + [m]
    ensures Timely(s', chatId)
  {
    assert forall i :: 0 <= i < |s.messages| ==> s'.messages[i] == s.messages[i];
  }

  /** It is an arrival for the view of its chat. */
  lemma AppendArrives(s: Store, s': Store, chatId: nat, m: Message, w: View.World)
    requires IdsArePositions(s.messages) && AllBefore(s, chatId, m.createdAt)
    requires m.id == |s.messages| && m.chatId == chatId && s'.messages == s.messages + [m]
    requires w.chat == ChatView(s, chatId)
    ensures w.(chat := ChatView(s', chatId)) == View.Next(w, View.Arrive(STRIP(m)))
  {
    OfChatAppend(s.messages, m, chatId);
    LastInChat(s, chatId, m.createdAt);
    CursorInChat(s.messages, chatId, |s.messages|);
  }

  /** A message sent after the clock has moved arrives at the end of its chat, and leaves the
      other chats alone. */
  lemma SendArrives(s: Store, chatId: nat, r: Requester, text: Option<string>, ids: seq<nat>, other: nat, w: View.World)
    requires Timely(s, chatId) && SendMessageStep(s, chatId, r, text, ids).1.Ok?
    requires AllBefore(s, chatId, s.now) && w.chat == ChatView(s, chatId)
    ensures var s' := SendMessageStep(s, chatId, r, text, ids).0;
      && Timely(s', chatId)
      && w.(chat := ChatView(s', chatId)) == View.Next(w, View.Arrive(View.Msg(|s.messages|, s.now)))
      && (other != chatId ==> ChatView(s', other) == ChatView(s, other))
  {
    var s', m := SendMessageStep(s, chatId, r, text, ids).0, Sent(s, chatId, r, text, ids);
    SendAppends(s, chatId, r, text, ids);
    AppendKeepsTimely(s, s', chatId, m);
    AppendArrives(s, s', chatId, m, w);
    OfChatAppend(s.messages, m, other);
  }

  lemma LastInChat(s: Store, chatId: nat, now: int)
    requires IdsArePositions(s.messages) && AllBefore(s, chatId, now)
    ensures var chat := ChatView(s, chatId); chat != [] ==> chat[|chat| - 1].at < now
  {
    OfChatRows(s.messages, chatId);
    var rows := OfChat(s.messages, chatId);
    if rows != [] {
      assert rows[|rows| - 1].chatId == chatId;
    }
  }
}
