/** The chat service (chat.service.ts): access, paging, attachments and their snapshots in
    messages, read marks. A row's id is its position in its table; rows come back from a
    query in table order. */
module ChatServer {
  import opened Wrappers
  import Paging

  datatype Role = Client | Admin

  datatype Requester = Requester(id: nat, role: Role)

  /** What a message keeps of an attachment. */
  datatype Snapshot = Snapshot(objectKey: string, mime: string, size: nat)

  datatype Message = Message(id: nat, chatId: nat, senderUserId: nat, senderRole: Role, text: Option<string>,
                             attachments: seq<Snapshot>, readAt: Option<int>, createdAt: int)

  datatype Attachment = Attachment(chatId: nat, uploaderUserId: nat, messageId: Option<nat>,
                                   objectKey: string, mime: string, size: nat)

  /** `clients` maps an order to its client; `chats` gives each chat's order. */
  datatype Store = Store(clients: seq<nat>, chats: seq<nat>, messages: seq<Message>, attachments: seq<Attachment>, now: int)

  datatype Error = OrderNotFound | ChatNotFound | TooLarge | MessageEmpty | AttachmentInvalid | MessageNotFound

  const MAX_ATTACHMENT_BYTES := 10 * 1024 * 1024

  // ------------------------------------------------------------------- access

  /** assertChatAccess */
  predicate CanAccess(s: Store, chatId: nat, r: Requester) {
    && chatId < |s.chats|
    && (r.role == Client ==> s.chats[chatId] < |s.clients| && s.clients[s.chats[chatId]] == r.id)
  }

  // ----------------------------------------------------------------- messages

  const MESSAGE_AT: Message -> int := (m: Message) => m.createdAt

  function OfChat(messages: seq<Message>, chatId: nat): seq<Message> {
    if messages == [] then []
    else
      var last := messages[|messages| - 1];
      OfChat(messages[..|messages| - 1], chatId) + if last.chatId == chatId then [last] else []
  }

  /** The cursor's time, when the cursor is a message of this chat. */
  function Cutoff(s: Store, chatId: nat, before: Option<nat>): Option<int> {
    if before.Some? && before.value < |s.messages| && s.messages[before.value].chatId == chatId
    then Some(s.messages[before.value].createdAt) else None
  }

  function ListMessages(s: Store, chatId: nat, r: Requester, before: Option<nat>, limit: Option<nat>)
    : Result<seq<Message>, Error>
  {
    if !CanAccess(s, chatId, r) then Err(ChatNotFound)
    else Ok(Paging.Page(MESSAGE_AT, OfChat(s.messages, chatId), Cutoff(s, chatId, before), limit.GetOr(50)))
  }

  // --------------------------------------------------------------- attachments

  function CreateAttachmentStep(s: Store, chatId: nat, r: Requester, objectKey: string, mime: string, size: nat)
    : (Store, Result<nat, Error>)
  {
    if !CanAccess(s, chatId, r) then (s, Err(ChatNotFound))
    else if size > MAX_ATTACHMENT_BYTES then (s, Err(TooLarge))
    else
      (s.(attachments := s.attachments + [Attachment(chatId, r.id, None, objectKey, mime, size)]), Ok(|s.attachments|))
  }

  predicate Usable(s: Store, id: nat, chatId: nat, r: Requester) {
    id < |s.attachments| && s.attachments[id].chatId == chatId && s.attachments[id].uploaderUserId == r.id
    && s.attachments[id].messageId.None?
  }

  /** findMany({ where: { id: { in: ids }, chatId, uploaderUserId, messageId: null } }) below n */
  function FindUsable(s: Store, n: nat, ids: seq<nat>, chatId: nat, r: Requester): seq<nat> {
    if n == 0 then []
    else FindUsable(s, n - 1, ids, chatId, r) + if n - 1 in ids && Usable(s, n - 1, chatId, r) then [n - 1] else []
  }

  function SnapshotOf(a: Attachment): Snapshot {
    Snapshot(a.objectKey, a.mime, a.size)
  }

  function Snapshots(attachments: seq<Attachment>, found: seq<nat>): seq<Snapshot> {
    if found == [] then []
    else
      var last := found[|found| - 1];
      Snapshots(attachments, found[..|found| - 1]) + if last < |attachments| then [SnapshotOf(attachments[last])] else []
  }

  /** updateMany({ where: { id: { in: ids } }, data: { messageId } }) */
  function LinkAll(attachments: seq<Attachment>, ids: seq<nat>, messageId: nat): (r: seq<Attachment>)
    ensures |r| == |attachments|
    ensures forall i :: 0 <= i < |r| ==>
      r[i] == if i in ids then attachments[i].(messageId := Some(messageId)) else attachments[i]
  {
    if attachments == [] then []
    else
      var n := |attachments| - 1;
      LinkAll(attachments[..n], ids, messageId) +
      [if n in ids then attachments[n].(messageId := Some(messageId)) else attachments[n]]
  }

  function SendMessageStep(s: Store, chatId: nat, r: Requester, text: Option<string>, ids: seq<nat>)
    : (Store, Result<nat, Error>)
  {
    if !CanAccess(s, chatId, r) then (s, Err(ChatNotFound))
    else if (text.None? || text.value == "") && ids == [] then (s, Err(MessageEmpty))
    else
      var found := FindUsable(s, |s.attachments|, ids, chatId, r);
      if ids != [] && |found| != |ids| then (s, Err(AttachmentInvalid))
      else
        var id := |s.messages|;
        var snapshots := if ids == [] then [] else Snapshots(s.attachments, found);
        (s.(messages := s.messages + [Message(id, chatId, r.id, r.role, text, snapshots, None, s.now)],
            attachments := if ids == [] then s.attachments else LinkAll(s.attachments, ids, id)),
         Ok(id))
  }

  // ---------------------------------------------------------------- read marks

  predicate UnreadBy(m: Message, chatId: nat, r: Requester) {
    m.chatId == chatId && m.senderUserId != r.id && m.readAt.None?
  }

  predicate Marks(m: Message, chatId: nat, upTo: int, r: Requester) {
    UnreadBy(m, chatId, r) && m.createdAt <= upTo
  }

  function MarkAll(messages: seq<Message>, chatId: nat, upTo: int, r: Requester, now: int): (seq<Message>, nat) {
    if messages == [] then ([], 0)
    else
      var last := messages[|messages| - 1];
      var (front, n) := MarkAll(messages[..|messages| - 1], chatId, upTo, r, now);
      if Marks(last, chatId, upTo, r) then (front + [last.(readAt := Some(now))], n + 1) else (front + [last], n)
  }

  function MarkReadStep(s: Store, chatId: nat, r: Requester, upTo: nat): (Store, Result<nat, Error>) {
    if !CanAccess(s, chatId, r) then (s, Err(ChatNotFound))
    else if upTo >= |s.messages| || s.messages[upTo].chatId != chatId then (s, Err(MessageNotFound))
    else
      var (messages, n) := MarkAll(s.messages, chatId, s.messages[upTo].createdAt, r, s.now);
      (s.(messages := messages), Ok(n))
  }

  /** The unread count a requester sees: messages of others without a read mark. */
  function Unread(messages: seq<Message>, chatId: nat, r: Requester): nat {
    if messages == [] then 0
    else
      var last := messages[|messages| - 1];
      Unread(messages[..|messages| - 1], chatId, r)
      + if UnreadBy(last, chatId, r) then 1 else 0
  }

  // ------------------------------------------------------------ one chat per order

  function FindChat(chats: seq<nat>, orderId: nat): (r: Option<nat>)
    ensures r.Some? ==> r.value < |chats| && chats[r.value] == orderId
    ensures r.None? ==> orderId !in chats
  {
    if chats == [] then None
    else if chats[|chats| - 1] == orderId then Some(|chats| - 1)
    else FindChat(chats[..|chats| - 1], orderId)
  }

  /** The chat of an order, created on first use, and the requester's unread count. */
  function FindOrCreateStep(s: Store, orderId: nat, r: Requester): (Store, Result<(nat, nat), Error>) {
    if orderId >= |s.clients| || (r.role == Client && s.clients[orderId] != r.id) then (s, Err(OrderNotFound))
    else match FindChat(s.chats, orderId)
      case Some(c) => (s, Ok((c, Unread(s.messages, c, r))))
      case None => (s.(chats := s.chats + [orderId]), Ok((|s.chats|, Unread(s.messages, |s.chats|, r))))
  }

  // --------------------------------------------------------------------- runs

  datatype Op =
    | CreateAttachment(chatId: nat, r: Requester, objectKey: string, mime: string, size: nat)
    | SendMessage(chatId: nat, r: Requester, text: Option<string>, ids: seq<nat>)
    | MarkRead(chatId: nat, r: Requester, upTo: nat)
    | FindOrCreate(orderId: nat, r: Requester)
    | NewOrder(client: nat)
    | Wait(ms: nat)

  function Step(s: Store, op: Op): Store {
    match op
    case CreateAttachment(chatId, r, key, mime, size) => CreateAttachmentStep(s, chatId, r, key, mime, size).0
    case SendMessage(chatId, r, text, ids) => SendMessageStep(s, chatId, r, text, ids).0
    case MarkRead(chatId, r, upTo) => MarkReadStep(s, chatId, r, upTo).0
    case FindOrCreate(orderId, r) => FindOrCreateStep(s, orderId, r).0
    case NewOrder(client) => s.(clients := s.clients + [client])
    case Wait(ms) => s.(now := s.now + ms)
  }

  function Run(s: Store, ops: seq<Op>): Store
    decreases ops
  {
    if ops == [] then s else Run(Step(s, ops[0]), ops[1..])
  }

  // ---------------------------------------------------------------- invariant

  /** The rows linked to a message, in table order. */
  function Linked(attachments: seq<Attachment>, messageId: nat): seq<Snapshot> {
    if attachments == [] then []
    else
      var last := attachments[|attachments| - 1];
      Linked(attachments[..|attachments| - 1], messageId) + if last.messageId == Some(messageId) then [SnapshotOf(last)] else []
  }

  /** Each message's snapshot is its linked rows; a linked row is of the message's chat and
      was uploaded by its sender. */
  ghost predicate Consistent(s: Store) {
    && (forall m :: 0 <= m < |s.messages| ==> s.messages[m].id == m && s.messages[m].attachments == Linked(s.attachments, m))
    && (forall a :: 0 <= a < |s.attachments| && s.attachments[a].messageId.Some? ==> LinkFits(s, s.attachments[a]))
  }

  predicate LinkFits(s: Store, a: Attachment) {
    && a.messageId.Some? && a.messageId.value < |s.messages|
    && s.messages[a.messageId.value].chatId == a.chatId
    && s.messages[a.messageId.value].senderUserId == a.uploaderUserId
  }

  lemma {:induction false} FoundAreUsable(s: Store, n: nat, ids: seq<nat>, chatId: nat, r: Requester, id: nat)
    requires n <= |s.attachments|
    ensures id in FindUsable(s, n, ids, chatId, r) <==> id < n && id in ids && Usable(s, id, chatId, r)
  {
    if n == 0 {
    } else {
      FoundAreUsable(s, n - 1, ids, chatId, r, id);
    }
  }

  /** Distinct rows were found, so as many as ids means that every id is usable. */
  lemma {:induction false} FoundCount(s: Store, n: nat, ids: seq<nat>, chatId: nat, r: Requester)
    requires n <= |s.attachments|
    ensures |FindUsable(s, n, ids, chatId, r)| == |set id: nat | id < n && id in ids && Usable(s, id, chatId, r)|
  {
    var found := set id: nat | id < n && id in ids && Usable(s, id, chatId, r);
    if n == 0 {
      assert found == {};
    } else {
      FoundCount(s, n - 1, ids, chatId, r);
      var rest := set id: nat | id < n - 1 && id in ids && Usable(s, id, chatId, r);
      assert found == if n - 1 in ids && Usable(s, n - 1, chatId, r) then rest + {n - 1} else rest;
    }
  }

  lemma {:induction false} SetOfSeqSize(ids: seq<nat>, chosen: set<nat>)
    requires forall id :: id in chosen ==> id in ids
    ensures |chosen| <= |ids|
    ensures |chosen| == |ids| ==> forall id :: id in ids ==> id in chosen
    decreases |ids|
  {
    if ids == [] {
      assert chosen == {};
    } else {
      var front, last := ids[..|ids| - 1], ids[|ids| - 1];
      var chosen' := chosen - {last};
      assert forall id :: id in ids <==> id in front || id == last;
      SetOfSeqSize(front, chosen');
    }
  }

  lemma AllIdsUsable(s: Store, ids: seq<nat>, chatId: nat, r: Requester)
    requires |FindUsable(s, |s.attachments|, ids, chatId, r)| == |ids|
    ensures forall id :: id in ids ==> Usable(s, id, chatId, r)
  {
    FoundCount(s, |s.attachments|, ids, chatId, r);
    SetOfSeqSize(ids, set id: nat | id < |s.attachments| && id in ids && Usable(s, id, chatId, r));
  }

  /** Rows linked to other messages stay as they are, the new message's rows are the ids. */
  lemma {:induction false} LinkedAfterLink(attachments: seq<Attachment>, ids: seq<nat>, messageId: nat, m: nat)
    requires forall i :: 0 <= i < |attachments| && i in ids ==> attachments[i].messageId.None?
    requires m != messageId
    ensures Linked(LinkAll(attachments, ids, messageId), m) == Linked(attachments, m)
  {
    if attachments == [] {
    } else {
      var n := |attachments| - 1;
      LinkedAfterLink(attachments[..n], ids, messageId, m);
      assert LinkAll(attachments, ids, messageId)[..n] == LinkAll(attachments[..n], ids, messageId);
    }
  }

  lemma {:induction false} SnapshotsAreLinked(s: Store, n: nat, ids: seq<nat>, chatId: nat, r: Requester, messageId: nat)
    requires n <= |s.attachments|
    requires forall i :: 0 <= i < |s.attachments| && i in ids ==> Usable(s, i, chatId, r)
    requires forall i :: 0 <= i < |s.attachments| ==> s.attachments[i].messageId != Some(messageId)
    ensures Snapshots(s.attachments, FindUsable(s, n, ids, chatId, r))
         == Linked(LinkAll(s.attachments, ids, messageId)[..n], messageId)
  {
    if n == 0 {
    } else {
      SnapshotsAreLinked(s, n - 1, ids, chatId, r, messageId);
      var linked := LinkAll(s.attachments, ids, messageId);
      var found := FindUsable(s, n - 1, ids, chatId, r);
      assert linked[..n][..n - 1] == linked[..n - 1];
      if n - 1 in ids {
        assert (found + [n - 1])[..|found|] == found;
      } else {
        assert found + [] == found;
      }
    }
  }

  /** No row is linked to a message that does not exist yet. */
  lemma NewIdUnlinked(s: Store)
    requires Consistent(s)
    ensures forall i :: 0 <= i < |s.attachments| ==> s.attachments[i].messageId != Some(|s.messages|)
  {
    forall i | 0 <= i < |s.attachments| ensures s.attachments[i].messageId != Some(|s.messages|) {
      assert s.attachments[i].messageId.Some? ==> LinkFits(s, s.attachments[i]);
    }
  }

  /** Linking usable rows to a new message gives it the rows whose snapshots were taken. */
  lemma LinkingMatches(s: Store, ids: seq<nat>, chatId: nat, r: Requester)
    requires Consistent(s) && forall id :: id in ids ==> Usable(s, id, chatId, r)
    ensures Snapshots(s.attachments, FindUsable(s, |s.attachments|, ids, chatId, r))
         == Linked(LinkAll(s.attachments, ids, |s.messages|), |s.messages|)
  {
    var linked := LinkAll(s.attachments, ids, |s.messages|);
    NewIdUnlinked(s);
    SnapshotsAreLinked(s, |s.attachments|, ids, chatId, r, |s.messages|);
    assert linked[..|s.attachments|] == linked;
  }

  /** It leaves the rows of every other message alone. */
  lemma LinkingKeepsOthers(s: Store, ids: seq<nat>, chatId: nat, r: Requester)
    requires forall id :: id in ids ==> Usable(s, id, chatId, r)
    ensures forall m :: 0 <= m < |s.messages| ==>
      Linked(LinkAll(s.attachments, ids, |s.messages|), m) == Linked(s.attachments, m)
  {
    forall m | 0 <= m < |s.messages| ensures Linked(LinkAll(s.attachments, ids, |s.messages|), m) == Linked(s.attachments, m) {
      LinkedAfterLink(s.attachments, ids, |s.messages|, m);
    }
  }

  /** A message is added, and rows are linked to it at most. */
  lemma AddedMessageFits(s: Store, message: Message, attachments': seq<Attachment>)
    requires Consistent(s) && message.id == |s.messages| && |attachments'| == |s.attachments|
    requires message.attachments == Linked(attachments', message.id)
    requires forall m :: 0 <= m < |s.messages| ==> Linked(attachments', m) == Linked(s.attachments, m)
    requires forall a :: 0 <= a < |attachments'| && attachments'[a] != s.attachments[a] ==>
      && attachments'[a].messageId == Some(message.id)
      && attachments'[a].chatId == message.chatId && attachments'[a].uploaderUserId == message.senderUserId
    ensures Consistent(s.(messages := s.messages + [message], attachments := attachments'))
  {
    var s' := s.(messages := s.messages + [message], attachments := attachments');
    forall a | 0 <= a < |attachments'| && attachments'[a].messageId.Some? ensures LinkFits(s', attachments'[a]) {
      if attachments'[a] == s.attachments[a] {
        assert LinkFits(s, s.attachments[a]);
      }
    }
  }

  lemma SendKeepsConsistent(s: Store, chatId: nat, r: Requester, text: Option<string>, ids: seq<nat>)
    requires Consistent(s)
    ensures Consistent(SendMessageStep(s, chatId, r, text, ids).0)
  {
    var (s', result) := SendMessageStep(s, chatId, r, text, ids);
    if result.Ok? {
      var message := s'.messages[|s.messages|];
      if ids == [] {
        NewIdUnlinked(s);
        UnlinkedIsEmpty(s.attachments, |s.messages|);
      } else {
        AllIdsUsable(s, ids, chatId, r);
        LinkingMatches(s, ids, chatId, r);
        LinkingKeepsOthers(s, ids, chatId, r);
      }
      AddedMessageFits(s, message, s'.attachments);
    }
  }

  lemma {:induction false} UnlinkedIsEmpty(attachments: seq<Attachment>, messageId: nat)
    requires forall i :: 0 <= i < |attachments| ==> attachments[i].messageId != Some(messageId)
    ensures Linked(attachments, messageId) == []
  {
    if attachments == [] {
    } else {
      UnlinkedIsEmpty(attachments[..|attachments| - 1], messageId);
    }
  }

  /** Marking changes read marks and nothing else. */
  lemma {:induction false} MarkAllEffect(messages: seq<Message>, chatId: nat, upTo: int, r: Requester, now: int)
    ensures var messages' := MarkAll(messages, chatId, upTo, r, now).0;
      && |messages'| == |messages|
      && forall m :: 0 <= m < |messages| ==>
           messages'[m] == if Marks(messages[m], chatId, upTo, r) then messages[m].(readAt := Some(now)) else messages[m]
  {
    if messages == [] {
    } else {
      MarkAllEffect(messages[..|messages| - 1], chatId, upTo, r, now);
    }
  }

  /** The unread count falls by the number of messages marked. */
  lemma {:induction false} MarkAllCounts(messages: seq<Message>, chatId: nat, upTo: int, r: Requester, now: int)
    ensures var (messages', n) := MarkAll(messages, chatId, upTo, r, now);
      |messages'| == |messages| && Unread(messages', chatId, r) == Unread(messages, chatId, r) - n
  {
    if messages == [] {
    } else {
      var front := messages[..|messages| - 1];
      MarkAllCounts(front, chatId, upTo, r, now);
      var messages' := MarkAll(messages, chatId, upTo, r, now).0;
      assert messages'[..|front|] == MarkAll(front, chatId, upTo, r, now).0;
    }
  }

  lemma UploadKeepsConsistent(s: Store, chatId: nat, r: Requester, key: string, mime: string, size: nat)
    requires Consistent(s)
    ensures Consistent(CreateAttachmentStep(s, chatId, r, key, mime, size).0)
  {
    var s' := CreateAttachmentStep(s, chatId, r, key, mime, size).0;
    if |s'.attachments| > |s.attachments| {
      assert s'.attachments[..|s.attachments|] == s.attachments;
    }
  }

  lemma MarkKeepsConsistent(s: Store, chatId: nat, r: Requester, upTo: nat)
    requires Consistent(s)
    ensures Consistent(MarkReadStep(s, chatId, r, upTo).0)
  {
    if upTo < |s.messages| {
      MarkAllEffect(s.messages, chatId, s.messages[upTo].createdAt, r, s.now);
    }
  }

  lemma StepKeepsConsistent(s: Store, op: Op)
    requires Consistent(s)
    ensures Consistent(Step(s, op))
  {
    match op
    case CreateAttachment(chatId, r, key, mime, size) => UploadKeepsConsistent(s, chatId, r, key, mime, size);
    case SendMessage(chatId, r, text, ids) => SendKeepsConsistent(s, chatId, r, text, ids);
    case MarkRead(chatId, r, upTo) => MarkKeepsConsistent(s, chatId, r, upTo);
    case _ =>
  }

  /** Rows are never deleted; a link, once made, is never changed; a message never changes
      but for its read mark. */
  predicate OnlyGrows(s: Store, s': Store) {
    && |s.attachments| <= |s'.attachments| && |s.messages| <= |s'.messages|
    && (forall a :: 0 <= a < |s.attachments| ==>
          s'.attachments[a] == s.attachments[a].(messageId := s'.attachments[a].messageId)
          && (s.attachments[a].messageId.Some? ==> s'.attachments[a] == s.attachments[a]))
    && (forall m :: 0 <= m < |s.messages| ==> s'.messages[m] == s.messages[m].(readAt := s'.messages[m].readAt))
  }

  lemma SendOnlyGrows(s: Store, chatId: nat, r: Requester, text: Option<string>, ids: seq<nat>)
    ensures OnlyGrows(s, SendMessageStep(s, chatId, r, text, ids).0)
  {
    if ids != [] && |FindUsable(s, |s.attachments|, ids, chatId, r)| == |ids| {
      AllIdsUsable(s, ids, chatId, r);
    }
  }

  lemma StepOnlyGrows(s: Store, op: Op)
    ensures OnlyGrows(s, Step(s, op))
  {
    match op
    case SendMessage(chatId, r, text, ids) => SendOnlyGrows(s, chatId, r, text, ids);
    case MarkRead(chatId, r, upTo) =>
      if upTo < |s.messages| {
        MarkAllEffect(s.messages, chatId, s.messages[upTo].createdAt, r, s.now);
      }
    case _ =>
  }

  lemma {:induction false} RunKeepsConsistent(s: Store, ops: seq<Op>)
    requires Consistent(s)
    ensures Consistent(Run(s, ops)) && OnlyGrows(s, Run(s, ops))
    decreases ops
  {
    if ops == [] {
    } else {
      StepKeepsConsistent(s, ops[0]);
      StepOnlyGrows(s, ops[0]);
      RunKeepsConsistent(Step(s, ops[0]), ops[1..]);
    }
  }

  // ------------------------------------------------------------------ main results

  /** Over every run from an empty service, each message's snapshot is exactly the rows
      linked to it, a linked row has the message's chat and sender, and links are final. */
  lemma SnapshotsMatchLinks(now: int, ops: seq<Op>, more: seq<Op>)
    ensures var s := Run(Store([], [], [], [], now), ops);
      Consistent(s) && Consistent(Run(s, more)) && OnlyGrows(s, Run(s, more))
  {
    RunKeepsConsistent(Store([], [], [], [], now), ops);
    RunKeepsConsistent(Run(Store([], [], [], [], now), ops), more);
  }

  /** A message is accepted with its attachments exactly when the ids are pairwise different
      and each names an unlinked upload of the sender in this chat. */
  lemma AcceptedIffUsable(s: Store, chatId: nat, r: Requester, text: Option<string>, ids: seq<nat>)
    requires CanAccess(s, chatId, r) && ids != []
    ensures SendMessageStep(s, chatId, r, text, ids).1.Ok? <==>
      (Distinct(ids) && forall id :: id in ids ==> Usable(s, id, chatId, r))
  {
    FoundCount(s, |s.attachments|, ids, chatId, r);
    var usable := set id: nat | id < |s.attachments| && id in ids && Usable(s, id, chatId, r);
    if |usable| == |ids| {
      AllIdsUsable(s, ids, chatId, r);
      FullSetMeansDistinct(ids, usable);
    } else if forall id :: id in ids ==> Usable(s, id, chatId, r) {
      assert usable == IdSet(ids);
      if Distinct(ids) { DistinctSize(ids); }
    }
  }

  predicate Distinct(ids: seq<nat>) {
    forall i, j :: 0 <= i < j < |ids| ==> ids[i] != ids[j]
  }

  lemma {:induction false} FullSetMeansDistinct(ids: seq<nat>, chosen: set<nat>)
    requires |chosen| == |ids| && forall id :: id in chosen ==> id in ids
    ensures Distinct(ids)
  {
    if ids == [] {
    } else {
      var front, last := ids[..|ids| - 1], ids[|ids| - 1];
      assert forall id :: id in ids <==> id in front || id == last;
      SetOfSeqSize(front, chosen - {last});
      if last in front {
        SetOfSeqSize(front, chosen);
      }
      FullSetMeansDistinct(front, chosen - {last});
    }
  }

  ghost function IdSet(ids: seq<nat>): set<nat> {
    set id | id in ids
  }

  lemma {:induction false} DistinctSize(ids: seq<nat>)
    requires Distinct(ids)
    ensures |IdSet(ids)| == |ids|
  {
    if ids == [] {
    } else {
      var front, last := ids[..|ids| - 1], ids[|ids| - 1];
      DistinctSize(front);
      assert forall i :: 0 <= i < |front| ==> front[i] == ids[i] != last;
      assert last !in IdSet(front);
      assert IdSet(ids) == IdSet(front) + {last} by {
        assert forall id :: id in ids <==> id in front || id == last;
      }
    }
  }

  /** After marking up to a message, what is still unread by the requester is newer, and the
      unread count fell by the number reported; marking again reports none. */
  lemma MarkReadLeavesNewer(s: Store, chatId: nat, r: Requester, upTo: nat)
    requires MarkReadStep(s, chatId, r, upTo).1.Ok?
    ensures var (s', result) := MarkReadStep(s, chatId, r, upTo);
      && Unread(s'.messages, chatId, r) + result.value == Unread(s.messages, chatId, r)
      && OnlyNewerUnread(s'.messages, chatId, s.messages[upTo].createdAt, r)
      && MarkReadStep(s', chatId, r, upTo).1 == Ok(0)
  {
    var at := s.messages[upTo].createdAt;
    MarkAllCounts(s.messages, chatId, at, r, s.now);
    MarkAllLeavesNewer(s.messages, chatId, at, r, s.now);
    var marked := MarkAll(s.messages, chatId, at, r, s.now).0;
    MarkAllKeeps(s.messages, chatId, at, r, s.now, upTo);
    NothingToMark(marked, chatId, at, r, s.now);
  }

  /** What the requester has still not read in the chat is newer than this instant. */
  predicate OnlyNewerUnread(messages: seq<Message>, chatId: nat, at: int, r: Requester) {
    forall m :: 0 <= m < |messages| && UnreadBy(messages[m], chatId, r) ==> messages[m].createdAt > at
  }

  lemma MarkAllLeavesNewer(messages: seq<Message>, chatId: nat, at: int, r: Requester, now: int)
    ensures OnlyNewerUnread(MarkAll(messages, chatId, at, r, now).0, chatId, at, r)
  {
    MarkAllEffect(messages, chatId, at, r, now);
  }

  lemma MarkAllKeeps(messages: seq<Message>, chatId: nat, at: int, r: Requester, now: int, m: nat)
    requires m < |messages|
    ensures var messages' := MarkAll(messages, chatId, at, r, now).0;
      m < |messages'| && messages'[m].chatId == messages[m].chatId && messages'[m].createdAt == messages[m].createdAt
  {
    MarkAllEffect(messages, chatId, at, r, now);
  }

  lemma {:induction false} NothingToMark(messages: seq<Message>, chatId: nat, upTo: int, r: Requester, now: int)
    requires OnlyNewerUnread(messages, chatId, upTo, r)
    ensures MarkAll(messages, chatId, upTo, r, now).1 == 0
  {
    if messages == [] {
    } else {
      NothingToMark(messages[..|messages| - 1], chatId, upTo, r, now);
    }
  }

  // ------------------------------------------------------------------- the service

  class ChatService {
    var clients: seq<nat>
    var chats: seq<nat>
    var messages: seq<Message>
    var attachments: seq<Attachment>
    var now: int

    function Tables(): Store
      reads this
    {
      Store(clients, chats, messages, attachments, now)
    }

    constructor (now: int)
      ensures Tables() == Store([], [], [], [], now) && Consistent(Tables())
    {
      clients, chats, messages, attachments, this.now := [], [], [], [], now;
    }

    method FindOrCreateForOrder(orderId: nat, r: Requester) returns (result: Result<(nat, nat), Error>)
      modifies this`chats
      ensures (Tables(), result) == FindOrCreateStep(old(Tables()), orderId, r)
    {
      if orderId >= |clients| { return Err(OrderNotFound); }
      if r.role == Client && clients[orderId] != r.id { return Err(OrderNotFound); }
      var found := FindChat(chats, orderId);
      var chat := |chats|;
      if found.Some? {
        chat := found.value;
      } else {
        chats := chats + [orderId];
      }
      result := Ok((chat, Unread(messages, chat, r)));
    }

    method List(chatId: nat, r: Requester, before: Option<nat>, limit: Option<nat>)
      returns (result: Result<seq<Message>, Error>)
      ensures result == ListMessages(Tables(), chatId, r, before, limit)
    {
      if !CanAccess(Tables(), chatId, r) { return Err(ChatNotFound); }
      var cutoff: Option<int> := None;
      if before.Some? && before.value < |messages| {
        var cursor := messages[before.value];
        if cursor.chatId == chatId { cutoff := Some(cursor.createdAt); }
      }
      var take := limit.GetOr(50);
      result := Ok(Paging.Page(MESSAGE_AT, OfChat(messages, chatId), cutoff, take));
    }

    method CreateAttachment(chatId: nat, r: Requester, objectKey: string, mime: string, size: nat)
      returns (result: Result<nat, Error>)
      modifies this`attachments
      ensures (Tables(), result) == CreateAttachmentStep(old(Tables()), chatId, r, objectKey, mime, size)
    {
      if !CanAccess(Tables(), chatId, r) { return Err(ChatNotFound); }
      if size > MAX_ATTACHMENT_BYTES { return Err(TooLarge); }
      attachments := attachments + [Attachment(chatId, r.id, None, objectKey, mime, size)];
      result := Ok(|attachments| - 1);
    }

    method SendMessage(chatId: nat, r: Requester, text: Option<string>, attachmentIds: seq<nat>)
      returns (result: Result<nat, Error>)
      modifies this`messages, this`attachments
      ensures (Tables(), result) == SendMessageStep(old(Tables()), chatId, r, text, attachmentIds)
    {
      if !CanAccess(Tables(), chatId, r) { return Err(ChatNotFound); }
      if (text.None? || text.value == "") && attachmentIds == [] { return Err(MessageEmpty); }
      var snapshots := [];
      if attachmentIds != [] {
        var found := FindUsable(Tables(), |attachments|, attachmentIds, chatId, r);
        if |found| != |attachmentIds| { return Err(AttachmentInvalid); }
        snapshots := Snapshots(attachments, found);
      }
      var id := |messages|;
      messages := messages + [Message(id, chatId, r.id, r.role, text, snapshots, None, now)];
      if attachmentIds != [] {
        attachments := LinkAll(attachments, attachmentIds, id);
      }
      result := Ok(id);
    }

    method MarkRead(chatId: nat, r: Requester, upTo: nat) returns (result: Result<nat, Error>)
      modifies this`messages
      ensures (Tables(), result) == MarkReadStep(old(Tables()), chatId, r, upTo)
    {
      if !CanAccess(Tables(), chatId, r) { return Err(ChatNotFound); }
      if upTo >= |messages| || messages[upTo].chatId != chatId { return Err(MessageNotFound); }
      var marked := MarkAll(messages, chatId, messages[upTo].createdAt, r, now);
      messages := marked.0;
      result := Ok(marked.1);
    }
  }
}
