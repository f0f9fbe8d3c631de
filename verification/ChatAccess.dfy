/** Who may use a chat and what each operation of the chat service does for them
    (chat.service.ts), told by orders, clients, messages and uploads. */
module ChatAccess {
  import opened Wrappers
  import opened ChatServer
  import Paging

  /** The chat is that of an order of this client. */
  predicate Owns(s: Store, chatId: nat, id: nat) {
    chatId < |s.chats| && s.chats[chatId] < |s.clients| && s.clients[s.chats[chatId]] == id
  }

  // ------------------------------------------------------------------ who is refused

  /** In every store each of the four operations answers ChatNotFound exactly when there is no
      such chat or a client asks who is not the client of the chat's order, and then changes
      nothing: whether a chat of others exists cannot be told. */
  lemma RefusedIffStranger(s: Store, chatId: nat, r: Requester, before: Option<nat>, limit: Option<nat>,
                           key: string, mime: string, size: nat, text: Option<string>, ids: seq<nat>, upTo: nat)
    ensures var stranger := chatId >= |s.chats| || (r.role == Client && !Owns(s, chatId, r.id));
      && (ListMessages(s, chatId, r, before, limit) == Err(ChatNotFound) <==> stranger)
      && (CreateAttachmentStep(s, chatId, r, key, mime, size).1 == Err(ChatNotFound) <==> stranger)
      && (SendMessageStep(s, chatId, r, text, ids).1 == Err(ChatNotFound) <==> stranger)
      && (MarkReadStep(s, chatId, r, upTo).1 == Err(ChatNotFound) <==> stranger)
      && (stranger ==>
            && CreateAttachmentStep(s, chatId, r, key, mime, size).0 == s
            && SendMessageStep(s, chatId, r, text, ids).0 == s
            && MarkReadStep(s, chatId, r, upTo).0 == s)
  {
  }

  // ------------------------------------------------------------------ whole runs

  /** Each order has one chat at most, and each chat is of an order. */
  predicate OneChatPerOrder(s: Store) {
    && (forall c :: 0 <= c < |s.chats| ==> s.chats[c] < |s.clients|)
    && (forall c, d :: 0 <= c < d < |s.chats| ==> s.chats[c] != s.chats[d])
  }

  function Actor(op: Op): Option<Requester> {
    match op
    case CreateAttachment(_, r, _, _, _) => Some(r)
    case SendMessage(_, r, _, _) => Some(r)
    case MarkRead(_, r, _) => Some(r)
    case FindOrCreate(_, r) => Some(r)
    case _ => None
  }

  /** Those who have acted as an administrator. */
  function Admins(ops: seq<Op>): set<nat> {
    if ops == [] then {}
    else
      var last := Actor(ops[|ops| - 1]);
      Admins(ops[..|ops| - 1]) + if last.Some? && last.value.role == Admin then {last.value.id} else {}
  }

  predicate MayWrite(s: Store, chatId: nat, id: nat, admins: set<nat>) {
    id in admins || Owns(s, chatId, id)
  }

  ghost predicate Authored(s: Store, admins: set<nat>) {
    && OneChatPerOrder(s)
    && (forall m :: 0 <= m < |s.messages| ==>
          if s.messages[m].senderRole == Admin then s.messages[m].senderUserId in admins
          else Owns(s, s.messages[m].chatId, s.messages[m].senderUserId))
    && (forall a :: 0 <= a < |s.attachments| ==> MayWrite(s, s.attachments[a].chatId, s.attachments[a].uploaderUserId, admins))
  }

  lemma SendKeepsAuthored(s: Store, chatId: nat, r: Requester, text: Option<string>, ids: seq<nat>, admins: set<nat>)
    requires Authored(s, admins)
    ensures Authored(SendMessageStep(s, chatId, r, text, ids).0, admins + if r.role == Admin then {r.id} else {})
  {
  }

  lemma MarkKeepsAuthored(s: Store, chatId: nat, r: Requester, upTo: nat, admins: set<nat>)
    requires Authored(s, admins)
    ensures Authored(MarkReadStep(s, chatId, r, upTo).0, admins)
  {
    if upTo < |s.messages| {
      MarkAllEffect(s.messages, chatId, s.messages[upTo].createdAt, r, s.now);
    }
  }

  lemma UploadKeepsAuthored(s: Store, chatId: nat, r: Requester, key: string, mime: string, size: nat, admins: set<nat>)
    requires Authored(s, admins)
    ensures Authored(CreateAttachmentStep(s, chatId, r, key, mime, size).0, admins + if r.role == Admin then {r.id} else {})
  {
  }

  lemma ChatKeepsAuthored(s: Store, orderId: nat, r: Requester, admins: set<nat>)
    requires Authored(s, admins)
    ensures Authored(FindOrCreateStep(s, orderId, r).0, admins)
  {
  }

  lemma OrderKeepsAuthored(s: Store, client: nat, admins: set<nat>)
    requires Authored(s, admins)
    ensures Authored(s.(clients := s.clients + [client]), admins)
  {
  }

  lemma MoreAdmins(s: Store, admins: set<nat>, more: set<nat>)
    requires Authored(s, admins)
    ensures Authored(s, admins + more)
  {
  }

  lemma StepKeepsAuthored(s: Store, op: Op, admins: set<nat>)
    requires Authored(s, admins)
    ensures var more := if Actor(op).Some? && Actor(op).value.role == Admin then {Actor(op).value.id} else {};
      Authored(Step(s, op), admins + more)
  {
    var more := if Actor(op).Some? && Actor(op).value.role == Admin then {Actor(op).value.id} else {};
    match op
    case CreateAttachment(chatId, r, key, mime, size) => UploadKeepsAuthored(s, chatId, r, key, mime, size, admins);
    case SendMessage(chatId, r, text, ids) => SendKeepsAuthored(s, chatId, r, text, ids, admins);
    case MarkRead(chatId, r, upTo) =>
      MarkKeepsAuthored(s, chatId, r, upTo, admins);
      MoreAdmins(Step(s, op), admins, more);
    case FindOrCreate(orderId, r) =>
      ChatKeepsAuthored(s, orderId, r, admins);
      MoreAdmins(Step(s, op), admins, more);
    case NewOrder(client) => OrderKeepsAuthored(s, client, admins);
    case Wait(_) =>
  }

  lemma RunLast(s: Store, ops: seq<Op>)
    requires ops != []
    ensures Run(s, ops) == Step(Run(s, ops[..|ops| - 1]), ops[|ops| - 1])
    decreases ops
  {
    if |ops| == 1 {
      assert ops[1..] == [];
    } else {
      assert ops[1..][..|ops| - 2] == ops[..|ops| - 1][1..];
      RunLast(Step(s, ops[0]), ops[1..]);
    }
  }

  /** Over every run of the service from its start: a message of a chat was sent by an
      administrator or by the client of the chat's order, and so was every upload, and each
      order has one chat at most. */
  lemma {:induction false} OnlyMembersWrite(now: int, ops: seq<Op>)
    ensures Authored(Run(Store([], [], [], [], now), ops), Admins(ops))
    decreases |ops|
  {
    if ops == [] {
    } else {
      OnlyMembersWrite(now, ops[..|ops| - 1]);
      RunLast(Store([], [], [], [], now), ops);
      StepKeepsAuthored(Run(Store([], [], [], [], now), ops[..|ops| - 1]), ops[|ops| - 1], Admins(ops[..|ops| - 1]));
    }
  }

  // -------------------------------------------------------------- what is read and counted

  /** Sent by another and not read yet. */
  predicate UnreadAt(messages: seq<Message>, m: int, chatId: nat, r: Requester) {
    0 <= m < |messages| && messages[m].chatId == chatId && messages[m].senderUserId != r.id && messages[m].readAt.None?
  }

  function UnreadSet(messages: seq<Message>, chatId: nat, r: Requester): set<int> {
    set m | 0 <= m < |messages| && UnreadAt(messages, m, chatId, r)
  }

  lemma UnreadSetLast(messages: seq<Message>, chatId: nat, r: Requester)
    requires messages != []
    ensures var n := |messages| - 1;
      && n !in UnreadSet(messages[..n], chatId, r)
      && UnreadSet(messages, chatId, r) == UnreadSet(messages[..n], chatId, r) + if UnreadAt(messages, n, chatId, r) then {n} else {}
  {
    var n := |messages| - 1;
    assert forall m :: 0 <= m < n ==> (UnreadAt(messages, m, chatId, r) <==> UnreadAt(messages[..n], m, chatId, r));
  }

  lemma {:induction false} UnreadCounts(messages: seq<Message>, chatId: nat, r: Requester)
    ensures Unread(messages, chatId, r) == |UnreadSet(messages, chatId, r)|
  {
    if messages == [] {
      assert UnreadSet(messages, chatId, r) == {};
    } else {
      UnreadCounts(messages[..|messages| - 1], chatId, r);
      UnreadSetLast(messages, chatId, r);
    }
  }

  /** Asking for the chat of an order: refused exactly when the order does not exist or is
      another client's; otherwise the answer is the one chat of that order, old or new, and
      the number of its messages that others sent and nobody marked. */
  lemma ChatOfOrder(s: Store, orderId: nat, r: Requester)
    requires OneChatPerOrder(s)
    ensures var (s', answer) := FindOrCreateStep(s, orderId, r);
      && (answer.Err? <==> orderId >= |s.clients| || (r.role == Client && s.clients[orderId] != r.id))
      && (answer.Err? ==> answer == Err(OrderNotFound) && s' == s)
      && (answer.Ok? ==>
            && OneChatPerOrder(s') && s' == s.(chats := s'.chats) && s.chats <= s'.chats && |s'.chats| <= |s.chats| + 1
            && answer.value.0 < |s'.chats| && s'.chats[answer.value.0] == orderId
            && answer.value.1 == |UnreadSet(s.messages, answer.value.0, r)|)
  {
    var (_, answer) := FindOrCreateStep(s, orderId, r);
    if answer.Ok? { UnreadCounts(s.messages, answer.value.0, r); }
  }

  /** Marking touches exactly the messages of the chat that others sent, that are unread, and
      that are no newer than the message named; it fails exactly when that is none of the chat. */
  lemma MarksExactly(s: Store, chatId: nat, r: Requester, upTo: nat)
    requires chatId < |s.chats| && (r.role == Admin || Owns(s, chatId, r.id))
    ensures var (s', answer) := MarkReadStep(s, chatId, r, upTo);
      && (answer.Err? <==> upTo >= |s.messages| || s.messages[upTo].chatId != chatId)
      && (answer.Err? ==> answer == Err(MessageNotFound) && s' == s)
      && (answer.Ok? ==>
            && s' == s.(messages := s'.messages) && |s'.messages| == |s.messages|
            && forall m :: 0 <= m < |s.messages| ==>
                 s'.messages[m] == if UnreadAt(s.messages, m, chatId, r) && s.messages[m].createdAt <= s.messages[upTo].createdAt
                                   then s.messages[m].(readAt := Some(s.now)) else s.messages[m])
  {
    if upTo < |s.messages| {
      MarkAllEffect(s.messages, chatId, s.messages[upTo].createdAt, r, s.now);
    }
  }

  /** An upload is taken exactly up to ten megabytes, and kept as it was sent. */
  lemma UploadTakenIff(s: Store, chatId: nat, r: Requester, key: string, mime: string, size: nat)
    requires chatId < |s.chats| && (r.role == Admin || Owns(s, chatId, r.id))
    ensures var (s', answer) := CreateAttachmentStep(s, chatId, r, key, mime, size);
      && (answer.Ok? <==> size <= 10 * 1024 * 1024) && (answer.Err? ==> answer == Err(TooLarge) && s' == s)
      && (answer.Ok? ==>
            && s' == s.(attachments := s'.attachments) && answer.value == |s.attachments| == |s'.attachments| - 1
            && s'.attachments[..|s.attachments|] == s.attachments
            && Usable(s', answer.value, chatId, r)
            && SnapshotOf(s'.attachments[answer.value]) == Snapshot(key, mime, size))
  {
  }

  lemma PageStartsWithLast(rows: seq<Message>, limit: nat)
    requires rows != [] && limit > 0
    ensures var page := Paging.Page(MESSAGE_AT, rows, None, limit); page != [] && page[0] == rows[|rows| - 1]
  {
    Paging.BeforeNothing(MESSAGE_AT, rows);
  }

  /** What a message that is taken adds to the tables. */
  lemma SentIsStored(s: Store, chatId: nat, r: Requester, text: Option<string>, ids: seq<nat>)
    requires SendMessageStep(s, chatId, r, text, ids).1.Ok?
    ensures var (s', answer) := SendMessageStep(s, chatId, r, text, ids);
      && |s'.messages| == |s.messages| + 1 && s'.messages[..|s.messages|] == s.messages
      && s'.chats == s.chats && s'.clients == s.clients && answer.value == |s.messages|
      && var m := s'.messages[|s.messages|];
         && m.id == |s.messages| && m.chatId == chatId && m.text == text
         && m.senderUserId == r.id && m.senderRole == r.role && m.createdAt == s.now && m.readAt.None?
  {
  }

  /** A message that is taken is the first one that every member then reads: its text, its
      sender and the time it was sent are kept, and it is unread. */
  lemma SentIsReadFirst(s: Store, chatId: nat, r: Requester, text: Option<string>, ids: seq<nat>, q: Requester, limit: Option<nat>)
    requires SendMessageStep(s, chatId, r, text, ids).1.Ok? && limit != Some(0)
    requires q.role == Admin || Owns(s, chatId, q.id)
    ensures var (s', answer) := SendMessageStep(s, chatId, r, text, ids);
      && |s'.messages| == |s.messages| + 1 && s'.messages[..|s.messages|] == s.messages && s'.chats == s.chats
      && ListMessages(s', chatId, q, None, limit).Ok? && ListMessages(s', chatId, q, None, limit).value != []
      && var m := ListMessages(s', chatId, q, None, limit).value[0];
         && m == s'.messages[|s.messages|] && m.id == answer.value == |s.messages| && m.chatId == chatId && m.text == text
         && m.senderUserId == r.id && m.senderRole == r.role && m.createdAt == s.now && m.readAt.None?
  {
    SentIsStored(s, chatId, r, text, ids);
    var messages' := SendMessageStep(s, chatId, r, text, ids).0.messages;
    assert OfChat(messages', chatId) == OfChat(s.messages, chatId) + [messages'[|s.messages|]];
    PageStartsWithLast(OfChat(messages', chatId), limit.GetOr(50));
  }

  /** A message without text needs an attachment, and that is all it needs. */
  lemma EmptyIff(s: Store, chatId: nat, r: Requester, text: Option<string>, ids: seq<nat>)
    requires chatId < |s.chats| && (r.role == Admin || Owns(s, chatId, r.id))
    ensures var (s', answer) := SendMessageStep(s, chatId, r, text, ids);
      && (answer == Err(MessageEmpty) <==> (text.None? || text.value == "") && ids == [])
      && (ids == [] && text.Some? && text.value != "" ==> answer.Ok?)
      && (answer.Err? ==> s' == s)
  {
  }

  /** A cursor that is no message of the chat is as good as none. */
  lemma ForeignCursorIgnored(s: Store, chatId: nat, r: Requester, before: nat, limit: Option<nat>)
    requires before >= |s.messages| || s.messages[before].chatId != chatId
    ensures ListMessages(s, chatId, r, Some(before), limit) == ListMessages(s, chatId, r, None, limit)
  {
  }
}
