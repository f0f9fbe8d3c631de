/** The chat service and one conversation view, run together: server operations of anybody,
    interleaved with the requests of the view, each of which listMessages answers. */
module ChatRuns {
  import opened Wrappers
  import opened InsertionMap
  import opened ChatServer
  import opened ChatRefinement
  import Paging
  import View = Conversation

  datatype Joint = Joint(store: Store, view: View.View, fetch: Option<View.Fetch>)

  datatype Event = OnServer(op: Op) | OnView(step: View.Step)

  /** The view's world: its chat as the server holds it. */
  function Seen(j: Joint, chatId: nat): View.World {
    View.World(ChatView(j.store, chatId), j.view, j.fetch)
  }

  /** The rows listMessages answers with, or nothing when it refuses. */
  function Answered(s: Store, chatId: nat, r: Requester, before: Option<nat>): Option<seq<View.Msg>> {
    match ListMessages(s, chatId, r, before, Some(View.PAGE))
    case Ok(rows) => Some(Paging.Map(STRIP, rows))
    case Err(_) => None
  }

  /** A step of the view; its requests are answered by the service, and a refusal fails them. */
  function ViewStep(j: Joint, chatId: nat, r: Requester, step: View.Step): Joint {
    match step
    case Arrive(_) => j
    case AnswerFetch =>
      if j.fetch != Some(View.UnderWay) then j
      else (match Answered(j.store, chatId, r, None)
            case Some(rows) => j.(fetch := Some(View.Fetched(rows)))
            case None => j.(fetch := None))
    case Answer =>
      (match j.view.loading
       case Some(Asked(before)) =>
         (match Answered(j.store, chatId, r, Some(before))
          case Some(rows) => j.(view := j.view.(loading := Some(View.Answered(rows))))
          case None => j.(view := j.view.(loading := None)))
       case _ => j)
    case _ =>
      var w := View.Next(Seen(j, chatId), step);
      j.(view := w.view, fetch := w.fetch)
  }

  function Advance(j: Joint, chatId: nat, r: Requester, e: Event): Joint {
    match e
    case OnServer(op) => j.(store := Step(j.store, op))
    case OnView(step) => ViewStep(j, chatId, r, step)
  }

  function Play(j: Joint, chatId: nat, r: Requester, events: seq<Event>): Joint
    decreases events
  {
    if events == [] then j else Play(Advance(j, chatId, r, events[0]), chatId, r, events[1..])
  }

  /** The clock has moved since the last message of the chat when another one is sent to it. */
  predicate ClockMoved(s: Store, e: Event) {
    e.OnServer? && e.op.SendMessage? ==> AllBefore(s, e.op.chatId, s.now)
  }

  predicate ClockMoves(j: Joint, chatId: nat, r: Requester, events: seq<Event>)
    decreases events
  {
    events == [] || (ClockMoved(j.store, events[0]) && ClockMoves(Advance(j, chatId, r, events[0]), chatId, r, events[1..]))
  }

  // ---------------------------------------------------- every step is one of the view's

  /** The step the view's model takes. */
  function Shadow(j: Joint, chatId: nat, r: Requester, step: View.Step): View.Step {
    match step
    case Arrive(_) => View.Answer
    case AnswerFetch => if CanAccess(j.store, chatId, r) || j.fetch != Some(View.UnderWay) then step else View.FailFetch
    case Answer =>
      if CanAccess(j.store, chatId, r) || j.view.loading.None? || !j.view.loading.value.Asked? then step else View.FailLoad
    case _ => step
  }

  lemma AnsweredServes(s: Store, chatId: nat, r: Requester, before: Option<nat>)
    requires IdsArePositions(s.messages)
    ensures Answered(s, chatId, r, before)
         == if CanAccess(s, chatId, r) then Some(View.Serve(ChatView(s, chatId), before)) else None
  {
    if CanAccess(s, chatId, r) {
      ListMessagesServesTheView(s, chatId, r, before);
    }
  }

  /** A step of the view together with the service is a step of its model. */
  lemma ViewStepRefines(j: Joint, chatId: nat, r: Requester, step: View.Step)
    requires IdsArePositions(j.store.messages) && !step.Arrive?
    ensures Seen(ViewStep(j, chatId, r, step), chatId) == View.Next(Seen(j, chatId), Shadow(j, chatId, r, step))
  {
    match step
    case AnswerFetch => FetchRefines(j, chatId, r);
    case Answer => LoadRefines(j, chatId, r);
    case _ =>
  }

  lemma FetchRefines(j: Joint, chatId: nat, r: Requester)
    requires IdsArePositions(j.store.messages)
    ensures Seen(ViewStep(j, chatId, r, View.AnswerFetch), chatId)
         == View.Next(Seen(j, chatId), Shadow(j, chatId, r, View.AnswerFetch))
  {
    AnsweredServes(j.store, chatId, r, None);
  }

  lemma LoadRefines(j: Joint, chatId: nat, r: Requester)
    requires IdsArePositions(j.store.messages)
    ensures Seen(ViewStep(j, chatId, r, View.Answer), chatId) == View.Next(Seen(j, chatId), Shadow(j, chatId, r, View.Answer))
  {
    if j.view.loading.Some? && j.view.loading.value.Asked? {
      AnsweredServes(j.store, chatId, r, Some(j.view.loading.value.before));
    }
  }

  /** Rows that differ in nothing the view sees look the same. */
  lemma {:induction false} SameLook(a: seq<Message>, b: seq<Message>, chatId: nat)
    requires |a| == |b|
    requires forall i :: 0 <= i < |a| ==> STRIP(a[i]) == STRIP(b[i]) && a[i].chatId == b[i].chatId
    ensures Paging.Map(STRIP, OfChat(a, chatId)) == Paging.Map(STRIP, OfChat(b, chatId))
  {
    if a == [] {
    } else {
      var n := |a| - 1;
      SameLook(a[..n], b[..n], chatId);
      MapOfChat(a, chatId);
      MapOfChat(b, chatId);
    }
  }

  lemma MarkKeepsLook(s: Store, other: nat, r: Requester, upTo: nat, chatId: nat)
    requires Timely(s, chatId)
    ensures var s' := MarkReadStep(s, other, r, upTo).0; Timely(s', chatId) && ChatView(s', chatId) == ChatView(s, chatId)
  {
    if MarkReadStep(s, other, r, upTo).1.Ok? {
      var at := s.messages[upTo].createdAt;
      MarkAllEffect(s.messages, other, at, r, s.now);
      SameLook(MarkAll(s.messages, other, at, r, s.now).0, s.messages, chatId);
    }
  }

  /** A send is an arrival in its own chat and invisible in the others. */
  lemma SendShows(s: Store, other: nat, r: Requester, text: Option<string>, ids: seq<nat>, chatId: nat, w: View.World)
    requires Timely(s, chatId) && AllBefore(s, other, s.now) && w.chat == ChatView(s, chatId)
    requires SendMessageStep(s, other, r, text, ids).1.Ok?
    ensures var s' := SendMessageStep(s, other, r, text, ids).0;
      && Timely(s', chatId)
      && w.(chat := ChatView(s', chatId))
         == if other == chatId then View.Next(w, View.Arrive(View.Msg(|s.messages|, s.now))) else w
  {
    var s', m := SendMessageStep(s, other, r, text, ids).0, Sent(s, other, r, text, ids);
    SendAppends(s, other, r, text, ids);
    if other == chatId {
      SendArrives(s, chatId, r, text, ids, chatId, w);
    } else {
      OfChatAppend(s.messages, m, chatId);
    }
  }

  /** A server operation is an arrival in the view's chat or invisible to it. */
  lemma ServerStepRefines(s: Store, op: Op, chatId: nat, w: View.World)
    requires Timely(s, chatId) && ClockMoved(s, OnServer(op)) && w.chat == ChatView(s, chatId)
    ensures Timely(Step(s, op), chatId)
    ensures var w' := w.(chat := ChatView(Step(s, op), chatId));
      w' == w || exists m :: w' == View.Next(w, View.Arrive(m))
  {
    match op
    case SendMessage(other, r, text, ids) =>
      if SendMessageStep(s, other, r, text, ids).1.Ok? {
        SendShows(s, other, r, text, ids, chatId, w);
      }
    case MarkRead(other, r, upTo) => MarkKeepsLook(s, other, r, upTo, chatId);
    case _ =>
  }

  ghost predicate Fits(j: Joint, chatId: nat) {
    Timely(j.store, chatId) && View.Tidy(Seen(j, chatId))
  }

  lemma EventKeepsFits(j: Joint, chatId: nat, r: Requester, e: Event)
    requires Fits(j, chatId) && ClockMoved(j.store, e)
    ensures Fits(Advance(j, chatId, r, e), chatId)
  {
    match e
    case OnServer(op) =>
      var w := Seen(j, chatId);
      ServerStepRefines(j.store, op, chatId, w);
      var w' := w.(chat := ChatView(Step(j.store, op), chatId));
      if w' != w {
        var m :| w' == View.Next(w, View.Arrive(m));
        View.NextKeepsTidy(w, View.Arrive(m));
      }
    case OnView(step) =>
      if !step.Arrive? {
        ViewStepRefines(j, chatId, r, step);
        View.NextKeepsTidy(Seen(j, chatId), Shadow(j, chatId, r, step));
      }
  }

  lemma {:induction false} RunKeepsFits(j: Joint, chatId: nat, r: Requester, events: seq<Event>)
    requires Fits(j, chatId) && ClockMoves(j, chatId, r, events)
    ensures Fits(Play(j, chatId, r, events), chatId)
    decreases events
  {
    if events == [] {
    } else {
      EventKeepsFits(j, chatId, r, events[0]);
      RunKeepsFits(Advance(j, chatId, r, events[0]), chatId, r, events[1..]);
    }
  }

  /** For every run of the service from its start, with any number of chats, senders, uploads
      and read marks, interleaved in any way with the requests of a view and their failures:
      as long as the clock moves between two messages of a chat, the list shown is strictly
      ascending in time, repeats no message, and holds only messages the server stores. */
  lemma ShownListIsStored(now: int, chatId: nat, r: Requester, events: seq<Event>)
    requires ClockMoves(Joint(Store([], [], [], [], now), View.START, None), chatId, r, events)
    ensures var j := Play(Joint(Store([], [], [], [], now), View.START, None), chatId, r, events);
      var shown := View.Merged(j.view);
      && Paging.Ascending(View.MSG_AT, shown) && DistinctKeys(View.MSG_ID, shown)
      && forall m :: m in shown ==> m in ChatView(j.store, chatId)
  {
    var start := Joint(Store([], [], [], [], now), View.START, None);
    ChatViewOrdered(start.store, chatId);
    View.StartIsTidy(ChatView(start.store, chatId));
    RunKeepsFits(start, chatId, r, events);
    View.TidyShows(Seen(Play(start, chatId, r, events), chatId));
  }
}
