/** The conversation view (Conversation.tsx): a page of the newest messages that is fetched
    again and again, older pages loaded one at a time by cursor, and the merged list. A
    message is its id and its creation time. */
module Conversation {
  import opened Wrappers
  import opened InsertionMap
  import opened Paging

  datatype Msg = Msg(id: nat, at: int)

  const PAGE := 50

  const MSG_ID: Msg -> nat := (m: Msg) => m.id
  const MSG_AT: Msg -> int := (m: Msg) => m.at

  /** A request for an older page: sent with its cursor, then answered with its rows. */
  datatype Load = Asked(before: nat) | Answered(rows: seq<Msg>)

  /** `latest` is the newest page, newest first; `loading` is the request under way. */
  datatype View = View(older: seq<Msg>, latest: seq<Msg>, noMoreOlder: bool, loading: Option<Load>)

  /** The server's answer for one chat: an unknown cursor is ignored. */
  function Serve(chat: seq<Msg>, before: Option<nat>): seq<Msg> {
    var cursor := if before.Some? then Get(MSG_ID, chat, before.value) else None;
    Page(MSG_AT, chat, if cursor.Some? then Some(cursor.value.at) else None, PAGE)
  }

  /** The `messages` memo: older, then the newest page oldest first, one entry per id. */
  function Merged(v: View): seq<Msg> {
    PutAll(MSG_ID, PutAll(MSG_ID, [], v.older), Reverse(v.latest))
  }

  predicate CanLoad(v: View) {
    |v.latest| == PAGE && !v.noMoreOlder && v.loading.None? && Merged(v) != []
  }

  function Refetch(v: View, chat: seq<Msg>): View {
    v.(latest := Serve(chat, None))
  }

  function BeginLoad(v: View): View {
    if CanLoad(v) then v.(loading := Some(Asked(Merged(v)[0].id))) else v
  }

  function AnswerLoad(v: View, chat: seq<Msg>): View {
    match v.loading
    case Some(Asked(before)) => v.(loading := Some(Answered(Serve(chat, Some(before)))))
    case _ => v
  }

  /** loadOlder after its await: older rows go in front, ids already held keep one entry. */
  function LandLoad(v: View): View {
    match v.loading
    case Some(Answered(rows)) =>
      View(PutAll(MSG_ID, PutAll(MSG_ID, [], Reverse(rows)), v.older), v.latest,
           v.noMoreOlder || |rows| < PAGE, None)
    case _ => v
  }

  // ------------------------------------------------------------------ static chats

  /** Ids and times are distinct and ascend in creation order. */
  ghost predicate WellOrdered(chat: seq<Msg>) {
    Ascending(MSG_AT, chat) && DistinctKeys(MSG_ID, chat)
  }

  const START := View([], [], false, None)

  function LoadOlder(v: View, chat: seq<Msg>): View {
    LandLoad(AnswerLoad(BeginLoad(v), chat))
  }

  /** The views of a user who waits for the first page and then presses the button again and again. */
  predicate Presses(chat: seq<Msg>, views: seq<View>) {
    && views != [] && views[0] == Refetch(START, chat)
    && forall i :: 0 < i < |views| ==> views[i] == LoadOlder(views[i - 1], chat)
  }

  lemma GetAt(chat: seq<Msg>, k: nat)
    requires DistinctKeys(MSG_ID, chat) && k < |chat|
    ensures Get(MSG_ID, chat, chat[k].id) == Some(chat[k])
    decreases |chat|
  {
    if k == 0 {
    } else {
      GetAt(chat[1..], k - 1);
    }
  }

  lemma ServeFirst(chat: seq<Msg>)
    ensures Reverse(Serve(chat, None)) == LastN(chat, PAGE)
  {
    BeforeNothing(MSG_AT, chat);
    ReverseTwice(LastN(chat, PAGE));
  }

  lemma ServeOlder(chat: seq<Msg>, k: nat)
    requires WellOrdered(chat) && k < |chat|
    ensures Reverse(Serve(chat, Some(chat[k].id))) == LastN(chat[..k], PAGE)
  {
    GetAt(chat, k);
    BeforeRow(MSG_AT, chat, k);
    ReverseTwice(LastN(chat[..k], PAGE));
  }

  /** Lists that do not share an id are simply put one after the other. */
  lemma MergeDisjoint(a: seq<Msg>, b: seq<Msg>)
    requires DistinctKeys(MSG_ID, a + b)
    ensures PutAll(MSG_ID, PutAll(MSG_ID, [], a), b) == a + b
  {
    assert forall i :: 0 <= i < |a| ==> (a + b)[i] == a[i];
    assert [] + a == a;
    PutAllDistinctAppends(MSG_ID, [], a);
    PutAllDistinctAppends(MSG_ID, a, b);
  }

  // The chat is cut into what is not loaded yet and what the view shows.

  ghost predicate Shows(chat: seq<Msg>, hidden: seq<Msg>, v: View) {
    chat == hidden + (v.older + Reverse(v.latest)) && v.loading.None?
  }

  lemma SuffixDistinct(a: seq<Msg>, b: seq<Msg>)
    ensures DistinctKeys(MSG_ID, a + b) ==> DistinctKeys(MSG_ID, b)
  {
    assert forall i :: 0 <= i < |b| ==> b[i] == (a + b)[|a| + i];
  }

  lemma ShownIsMerged(chat: seq<Msg>, hidden: seq<Msg>, v: View)
    requires WellOrdered(chat) && Shows(chat, hidden, v)
    ensures Merged(v) == v.older + Reverse(v.latest)
  {
    SuffixDistinct(hidden, v.older + Reverse(v.latest));
    MergeDisjoint(v.older, Reverse(v.latest));
  }

  /** The cursor of a press is the first message shown; what lies before it is hidden. */
  lemma CursorServes(chat: seq<Msg>, hidden: seq<Msg>, shown: seq<Msg>)
    requires WellOrdered(chat) && chat == hidden + shown && shown != []
    ensures Reverse(Serve(chat, Some(shown[0].id))) == LastN(hidden, PAGE)
  {
    assert chat[|hidden|] == shown[0] && chat[..|hidden|] == hidden;
    ServeOlder(chat, |hidden|);
  }

  lemma SplitFront(chat: seq<Msg>, hidden: seq<Msg>, older: seq<Msg>, page: seq<Msg>)
    requires chat == hidden + (older + page)
    ensures var front, n := LastN(hidden, PAGE), |hidden| - |LastN(hidden, PAGE)|;
      n >= 0 && hidden == hidden[..n] + front && chat == hidden[..n] + ((front + older) + page)
  {
  }

  /** What is left hidden after a press. */
  function StillHidden(hidden: seq<Msg>): seq<Msg> {
    if |hidden| <= PAGE then [] else hidden[..|hidden| - PAGE]
  }

  /** One press brings the newest 50 of the hidden messages, or all of them. */
  lemma OneLoad(chat: seq<Msg>, hidden: seq<Msg>, v: View)
    requires WellOrdered(chat) && Shows(chat, hidden, v) && CanLoad(v)
    ensures LoadOlder(v, chat) == View(LastN(hidden, PAGE) + v.older, v.latest, |hidden| < PAGE, None)
    ensures Shows(chat, StillHidden(hidden), LoadOlder(v, chat))
  {
    var front, shown := LastN(hidden, PAGE), v.older + Reverse(v.latest);
    ShownIsMerged(chat, hidden, v);
    CursorServes(chat, hidden, shown);
    PressLands(v, chat, front);
    SplitFront(chat, hidden, v.older, Reverse(v.latest));
    LoadedDistinct(StillHidden(hidden), front, v.older, Reverse(v.latest));
    MergeDisjoint(front, v.older);
  }

  lemma LoadedDistinct(rest: seq<Msg>, front: seq<Msg>, older: seq<Msg>, page: seq<Msg>)
    requires DistinctKeys(MSG_ID, rest + ((front + older) + page))
    ensures DistinctKeys(MSG_ID, front + older)
  {
    SuffixDistinct(rest, (front + older) + page);
    assert forall i :: 0 <= i < |front + older| ==> (front + older)[i] == ((front + older) + page)[i];
  }

  lemma PressLands(v: View, chat: seq<Msg>, front: seq<Msg>)
    requires CanLoad(v) && Reverse(Serve(chat, Some(Merged(v)[0].id))) == front
    ensures LoadOlder(v, chat) == View(PutAll(MSG_ID, PutAll(MSG_ID, [], front), v.older), v.latest, |front| < PAGE, None)
  {
    var rows := Serve(chat, Some(Merged(v)[0].id));
    assert LoadOlder(v, chat) == LandLoad(v.(loading := Some(Answered(rows))));
  }

  /** The number of messages hidden after k loads. */
  function HiddenAfter(n: nat, k: nat): nat {
    if PAGE * (k + 1) < n then n - PAGE * (k + 1) else 0
  }

  /** After k presses the newest 50 (k + 1) messages are shown, and the last load came back
      short exactly when it reached the start of the chat. */
  ghost predicate Reveals(chat: seq<Msg>, hidden: seq<Msg>, v: View, k: nat) {
    && Shows(chat, hidden, v) && |hidden| == HiddenAfter(|chat|, k)
    && |v.latest| == (if |chat| < PAGE then |chat| else PAGE)
    && (v.noMoreOlder <==> k > 0 && k == |chat| / PAGE)
  }

  lemma LoadReveals(chat: seq<Msg>, hidden: seq<Msg>, v: View, k: nat)
    requires WellOrdered(chat) && 0 < k <= |chat| / PAGE && Reveals(chat, hidden, v, k - 1)
    ensures Reveals(chat, StillHidden(hidden), LoadOlder(v, chat), k)
  {
    ShownIsMerged(chat, hidden, v);
    Counted(|chat|, k);
    OneLoad(chat, hidden, v);
  }

  lemma {:induction false} LoadsRevealPages(chat: seq<Msg>, views: seq<View>, k: nat) returns (hidden: seq<Msg>)
    requires WellOrdered(chat) && Presses(chat, views) && k < |views| && k <= |chat| / PAGE
    ensures Reveals(chat, hidden, views[k], k)
  {
    if k == 0 {
      hidden := chat[..HiddenAfter(|chat|, 0)];
      FirstPage(chat);
    } else {
      hidden := LoadsRevealPages(chat, views, k - 1);
      LoadReveals(chat, hidden, views[k - 1], k);
      hidden := StillHidden(hidden);
    }
  }

  lemma FirstPage(chat: seq<Msg>)
    ensures Reveals(chat, chat[..HiddenAfter(|chat|, 0)], Refetch(START, chat), 0)
  {
    var page := LastN(chat, PAGE);
    ServeFirst(chat);
    assert [] + page == page;
  }

  lemma Counted(n: nat, k: nat)
    requires 0 < k <= n / PAGE
    ensures n >= PAGE && k - 1 != n / PAGE
    ensures HiddenAfter(n, k - 1) == n - PAGE * k
    ensures HiddenAfter(n, k) == if n - PAGE * k <= PAGE then 0 else n - PAGE * k - PAGE
    ensures n - PAGE * k < PAGE <==> k == n / PAGE
  {
  }

  /** A static chat of n messages is complete after exactly floor(n / 50) presses: until then
      the button is offered, then it is gone and the whole chat is shown in order. */
  lemma WholeChatAfterLoads(chat: seq<Msg>, views: seq<View>, k: nat)
    requires WellOrdered(chat) && Presses(chat, views) && k < |views| && k <= |chat| / 50
    ensures CanLoad(views[k]) <==> k < |chat| / 50
    ensures k == |chat| / 50 ==> Merged(views[k]) == chat
  {
    var hidden := LoadsRevealPages(chat, views, k);
    ShownIsMerged(chat, hidden, views[k]);
    if k == |chat| / PAGE {
      assert |chat| < PAGE * (k + 1);
      assert hidden == [];
    }
  }

  // ------------------------------------------------------- messages keep arriving

  /** A request for the newest page: under way, then answered with its rows. */
  datatype Fetch = UnderWay | Fetched(rows: seq<Msg>)

  /** The server's chat only grows, by messages newer than all it has. Requests are sent,
      answered and landed at different moments, or fail. */
  datatype Step =
    | Arrive(m: Msg)
    | StartFetch | AnswerFetch | LandFetch | FailFetch
    | Press | Answer | Land | FailLoad

  datatype World = World(chat: seq<Msg>, view: View, fetch: Option<Fetch>)

  /** What the answer of a fetch puts in place. */
  function Refreshed(v: View, rows: seq<Msg>): View {
    v.(latest := rows)
  }

  function Next(w: World, step: Step): World {
    match step
    case Arrive(m) =>
      if (w.chat == [] || w.chat[|w.chat| - 1].at < m.at) && Get(MSG_ID, w.chat, m.id).None?
      then w.(chat := w.chat + [m]) else w
    case StartFetch => w.(fetch := Some(UnderWay))
    case AnswerFetch => if w.fetch == Some(UnderWay) then w.(fetch := Some(Fetched(Serve(w.chat, None)))) else w
    case LandFetch =>
      (match w.fetch
       case Some(Fetched(rows)) => w.(view := Refreshed(w.view, rows), fetch := None)
       case _ => w)
    case FailFetch => w.(fetch := None)
    case Press => w.(view := BeginLoad(w.view))
    case Answer => w.(view := AnswerLoad(w.view, w.chat))
    case Land => w.(view := LandLoad(w.view))
    case FailLoad => w.(view := w.view.(loading := None))
  }

  function Execute(w: World, steps: seq<Step>): World
    decreases steps
  {
    if steps == [] then w else Execute(Next(w, steps[0]), steps[1..])
  }

  /** The list is a strictly ascending selection of the chat's messages. */
  ghost predicate From(list: seq<Msg>, chat: seq<Msg>) {
    Ascending(MSG_AT, list) && forall m :: m in list ==> m in chat
  }

  /** What the view shows, when no id repeats. */
  function Listing(v: View): seq<Msg> {
    v.older + Reverse(v.latest)
  }

  /** The rows are the newest page the chat had when it was `k` messages long. */
  predicate PageAt(rows: seq<Msg>, chat: seq<Msg>, k: nat) {
    k <= |chat| && Reverse(rows) == LastN(chat[..k], PAGE)
  }

  /** The newest page is some earlier newest page of the chat, and a page that has not landed
      yet is no older than it. */
  ghost predicate PagesFit(w: World) {
    exists k: nat :: PageAt(w.view.latest, w.chat, k) && FetchFits(w, k)
  }

  ghost predicate FetchFits(w: World, k: nat) {
    match w.fetch
    case Some(Fetched(rows)) => exists j: nat :: k <= j && PageAt(rows, w.chat, j)
    case _ => true
  }

  ghost predicate CursorHeld(before: nat, shown: seq<Msg>, chat: seq<Msg>) {
    exists i :: 0 <= i < |chat| && chat[i].id == before && NotAfterShown(chat[i], shown)
  }

  /** What the view shows is ascending; what is being loaded lies before all of it. */
  ghost predicate Tidy(w: World) {
    var v, shown := w.view, Listing(w.view);
    && WellOrdered(w.chat)
    && From(shown, w.chat)
    && (v.latest == [] ==> v.older == [] && v.loading.None?)
    && PagesFit(w)
    && match v.loading
       case None => true
       case Some(Asked(before)) => CursorHeld(before, shown, w.chat)
       case Some(Answered(rows)) => From(Reverse(rows), w.chat) && forall m :: m in rows ==> BeforeShown(m, shown)
  }

  predicate NotAfterShown(m: Msg, shown: seq<Msg>) {
    forall i :: 0 <= i < |shown| ==> m.at <= shown[i].at
  }

  predicate BeforeShown(m: Msg, shown: seq<Msg>) {
    forall i :: 0 <= i < |shown| ==> m.at < shown[i].at
  }

  /** A selection of the chat that ascends in time repeats no id. */
  lemma FromDistinct(list: seq<Msg>, chat: seq<Msg>)
    requires WellOrdered(chat) && From(list, chat)
    ensures DistinctKeys(MSG_ID, list)
  {
    forall i, j | 0 <= i < j < |list| ensures MSG_ID(list[i]) != MSG_ID(list[j]) {
      assert list[i] in chat && list[j] in chat && MSG_AT(list[i]) < MSG_AT(list[j]);
      var a :| 0 <= a < |chat| && chat[a] == list[i];
      var b :| 0 <= b < |chat| && chat[b] == list[j];
    }
  }

  lemma TidyMerges(w: World)
    requires Tidy(w)
    ensures Merged(w.view) == Listing(w.view)
  {
    FromDistinct(Listing(w.view), w.chat);
    MergeDisjoint(w.view.older, Reverse(w.view.latest));
  }

  lemma ArriveKeepsTidy(w: World, m: Msg)
    requires Tidy(w)
    ensures Tidy(Next(w, Arrive(m)))
  {
    var w' := Next(w, Arrive(m));
    if w' != w {
      GetNone(MSG_ID, w.chat, m.id);
      PagesStayFit(w, m);
      match w.view.loading
      case Some(Asked(before)) =>
        var i :| 0 <= i < |w.chat| && w.chat[i].id == before && NotAfterShown(w.chat[i], Listing(w.view));
        assert w'.chat[i] == w.chat[i];
      case _ =>
    }
  }

  lemma PagesStayFit(w: World, m: Msg)
    requires PagesFit(w)
    ensures PagesFit(w.(chat := w.chat + [m]))
  {
    var w' := w.(chat := w.chat + [m]);
    var k: nat :| PageAt(w.view.latest, w.chat, k) && FetchFits(w, k);
    assert w'.chat[..k] == w.chat[..k];
    assert PageAt(w'.view.latest, w'.chat, k);
    match w.fetch
    case Some(Fetched(rows)) =>
      var j: nat :| k <= j && PageAt(rows, w.chat, j);
      assert w'.chat[..j] == w.chat[..j];
      assert PageAt(rows, w'.chat, j);
    case _ =>
  }

  /** The newest page moves forward only: every message it loses is older than what it keeps. */
  lemma PageMovesForward(chat: seq<Msg>, k: nat, j: nat)
    requires Ascending(MSG_AT, chat) && 0 < k <= j <= |chat|
    ensures var then0, now0 := LastN(chat[..k], PAGE), LastN(chat[..j], PAGE);
      forall i :: 0 <= i < |now0| ==> then0[0].at <= now0[i].at
  {
  }

  lemma LastNFrom(chat: seq<Msg>, k: nat, n: nat)
    requires WellOrdered(chat) && k <= |chat|
    ensures From(LastN(chat[..k], n), chat)
  {
  }

  lemma AnswerFetchKeepsTidy(w: World)
    requires Tidy(w)
    ensures Tidy(Next(w, AnswerFetch))
  {
    var w' := Next(w, AnswerFetch);
    if w' != w {
      ServeFirst(w.chat);
      assert w.chat[..|w.chat|] == w.chat;
      assert PageAt(w'.fetch.value.rows, w'.chat, |w.chat|);
      var k: nat :| PageAt(w.view.latest, w.chat, k) && FetchFits(w, k);
      assert FetchFits(w', k);
    }
  }

  lemma LandFetchKeepsTidy(w: World)
    requires Tidy(w)
    ensures Tidy(Next(w, LandFetch))
  {
    match w.fetch
    case Some(Fetched(rows)) =>
      var k: nat :| PageAt(w.view.latest, w.chat, k) && FetchFits(w, k);
      var j: nat :| k <= j && PageAt(rows, w.chat, j);
      NewPageLands(w, rows, k, j);
    case _ =>
  }

  lemma NewPageLands(w: World, rows: seq<Msg>, k: nat, j: nat)
    requires Tidy(w) && w.fetch == Some(Fetched(rows))
    requires PageAt(w.view.latest, w.chat, k) && k <= j && PageAt(rows, w.chat, j)
    ensures Tidy(Next(w, LandFetch))
  {
    var w', v, page' := Next(w, LandFetch), w.view, Reverse(rows);
    LastNFrom(w.chat, j, PAGE);
    assert PageAt(w'.view.latest, w'.chat, j) && FetchFits(w', j);
    assert Listing(w'.view) == v.older + page';
    if v.latest == [] {
      assert v.older + page' == page';
    } else {
      FirstOfPage(w.chat, v.latest, rows, k, j);
      FetchKeepsOrder(w.chat, v.older, Reverse(v.latest), page');
      FetchKeepsLoading(w, page');
    }
  }

  lemma FirstOfPage(chat: seq<Msg>, rows: seq<Msg>, rows': seq<Msg>, k: nat, j: nat)
    requires WellOrdered(chat) && PageAt(rows, chat, k) && PageAt(rows', chat, j) && k <= j && rows != []
    ensures forall i :: 0 <= i < |rows'| ==> Reverse(rows)[0].at <= Reverse(rows')[i].at
  {
    PageMovesForward(chat, k, j);
  }

  /** What is being loaded still lies before all that is shown. */
  lemma FetchKeepsLoading(w: World, page': seq<Msg>)
    requires Tidy(w) && w.view.latest != []
    requires forall i :: 0 <= i < |page'| ==> Reverse(w.view.latest)[0].at <= page'[i].at
    ensures match w.view.loading
            case None => true
            case Some(Asked(before)) => CursorHeld(before, w.view.older + page', w.chat)
            case Some(Answered(rows)) => forall m :: m in rows ==> BeforeShown(m, w.view.older + page')
  {
    var v := w.view;
    match v.loading
    case Some(Asked(before)) =>
      var i :| 0 <= i < |w.chat| && w.chat[i].id == before && NotAfterShown(w.chat[i], Listing(v));
      LowerBoundStays(w.chat[i], v.older, Reverse(v.latest), page');
    case Some(Answered(rows)) =>
      forall m | m in rows ensures BeforeShown(m, v.older + page') {
        LowerBoundStays(m, v.older, Reverse(v.latest), page');
      }
    case None =>
  }

  lemma FetchKeepsOrder(chat: seq<Msg>, older: seq<Msg>, page: seq<Msg>, page': seq<Msg>)
    requires From(older + page, chat) && From(page', chat) && page != []
    requires forall i :: 0 <= i < |page'| ==> page[0].at <= page'[i].at
    ensures From(older + page', chat)
  {
    var shown := older + page;
    assert shown[|older|] == page[0];
    assert forall i :: 0 <= i < |older| ==> shown[i] == older[i];
    forall i, j | 0 <= i < j < |older| ensures MSG_AT(older[i]) < MSG_AT(older[j]) {
      assert MSG_AT(shown[i]) < MSG_AT(shown[j]);
    }
    forall m | m in older ensures m in chat && BeforeShown(m, page') {
      var i :| 0 <= i < |older| && older[i] == m;
      assert shown[i] in chat && MSG_AT(shown[i]) < MSG_AT(shown[|older|]);
    }
    ConcatFrom(older, page', chat);
  }

  lemma LowerBoundStays(m: Msg, older: seq<Msg>, page: seq<Msg>, page': seq<Msg>)
    requires page != [] && forall i :: 0 <= i < |page'| ==> page[0].at <= page'[i].at
    ensures NotAfterShown(m, older + page) ==> NotAfterShown(m, older + page')
    ensures BeforeShown(m, older + page) ==> BeforeShown(m, older + page')
  {
    var shown, shown' := older + page, older + page';
    assert shown[|older|] == page[0];
    forall i | 0 <= i < |shown'|
      ensures NotAfterShown(m, shown) ==> m.at <= shown'[i].at
      ensures BeforeShown(m, shown) ==> m.at < shown'[i].at
    {
      if i < |older| {
        assert shown'[i] == shown[i];
      } else {
        assert shown'[i] == page'[i - |older|];
      }
    }
  }

  lemma PressKeepsTidy(w: World)
    requires Tidy(w)
    ensures Tidy(Next(w, Press))
  {
    if CanLoad(w.view) {
      TidyMerges(w);
      var shown := Listing(w.view);
      assert shown[0] in w.chat;
      var i :| 0 <= i < |w.chat| && w.chat[i] == shown[0];
      forall j | 0 <= j < |shown| ensures shown[0].at <= shown[j].at {
        assert j > 0 ==> MSG_AT(shown[0]) < MSG_AT(shown[j]);
      }
      assert NotAfterShown(w.chat[i], shown);
      SamePages(w, Next(w, Press));
    }
  }

  lemma AnsweredRowsLieBefore(chat: seq<Msg>, before: nat, shown: seq<Msg>)
    requires WellOrdered(chat) && CursorHeld(before, shown, chat)
    ensures var rows := Serve(chat, Some(before));
      From(Reverse(rows), chat) && forall m :: m in rows ==> BeforeShown(m, shown)
  {
    var i :| 0 <= i < |chat| && chat[i].id == before && NotAfterShown(chat[i], shown);
    ServeOlder(chat, i);
    PageBefore(chat, i, LastN(chat[..i], PAGE));
    var rows := Serve(chat, Some(before));
    forall m | m in rows ensures BeforeShown(m, shown) {
      InReverse(rows, m);
      assert m.at < chat[i].at;
    }
  }

  lemma AnswerFits(w: World, rows: seq<Msg>)
    requires Tidy(w) && w.view.latest != []
    requires From(Reverse(rows), w.chat) && forall m :: m in rows ==> BeforeShown(m, Listing(w.view))
    ensures Tidy(w.(view := w.view.(loading := Some(Answered(rows)))))
  {
    var w' := w.(view := w.view.(loading := Some(Answered(rows))));
    assert Listing(w'.view) == Listing(w.view);
    SamePages(w, w');
  }

  lemma AnswerKeepsTidy(w: World)
    requires Tidy(w)
    ensures Tidy(Next(w, Answer))
  {
    match w.view.loading
    case Some(Asked(before)) =>
      AnsweredRowsLieBefore(w.chat, before, Listing(w.view));
      AnswerFits(w, Serve(w.chat, Some(before)));
    case _ =>
  }

  lemma PageBefore(chat: seq<Msg>, i: nat, page: seq<Msg>)
    requires WellOrdered(chat) && i < |chat| && page == LastN(chat[..i], PAGE)
    ensures From(page, chat) && forall m :: m in page ==> m.at < chat[i].at
  {
    forall j | 0 <= j < |page| ensures page[j] in chat && page[j].at < chat[i].at {
      var k := i - |page| + j;
      assert page[j] == chat[k] && MSG_AT(chat[k]) < MSG_AT(chat[i]);
    }
  }

  lemma InReverse(rows: seq<Msg>, m: Msg)
    ensures m in rows <==> m in Reverse(rows)
  {
    if m in rows {
      var i :| 0 <= i < |rows| && rows[i] == m;
      assert Reverse(rows)[|rows| - 1 - i] == m;
    }
  }

  lemma LandKeepsTidy(w: World)
    requires Tidy(w)
    ensures Tidy(Next(w, Land))
  {
    match w.view.loading
    case Some(Answered(rows)) =>
      var v := w.view;
      var front := Reverse(rows);
      assert forall m :: m in front ==> BeforeShown(m, Listing(v)) by {
        forall m | m in front ensures BeforeShown(m, Listing(v)) { InReverse(rows, m); }
      }
      ConcatFrom(front, Listing(v), w.chat);
      assert front + Listing(v) == (front + v.older) + Reverse(v.latest);
      FromDistinct(front + Listing(v), w.chat);
      assert DistinctKeys(MSG_ID, front + v.older) by {
        assert forall i :: 0 <= i < |front + v.older| ==> (front + v.older)[i] == (front + Listing(v))[i];
      }
      MergeDisjoint(front, v.older);
      assert Listing(Next(w, Land).view) == front + Listing(v);
      SamePages(w, Next(w, Land));
    case _ =>
  }

  lemma ConcatFrom(a: seq<Msg>, b: seq<Msg>, chat: seq<Msg>)
    requires From(a, chat) && From(b, chat) && forall m :: m in a ==> BeforeShown(m, b)
    ensures From(a + b, chat)
  {
    forall i, j | 0 <= i < j < |a + b| ensures MSG_AT((a + b)[i]) < MSG_AT((a + b)[j]) {
      if j < |a| {
        assert MSG_AT(a[i]) < MSG_AT(a[j]);
      } else if i < |a| {
        assert a[i] in a && BeforeShown(a[i], b);
      } else {
        assert MSG_AT(b[i - |a|]) < MSG_AT(b[j - |a|]);
      }
    }
  }

  lemma NextKeepsTidy(w: World, step: Step)
    requires Tidy(w)
    ensures Tidy(Next(w, step))
  {
    match step
    case Arrive(m) => ArriveKeepsTidy(w, m);
    case StartFetch => FetchMayEnd(w, Some(UnderWay));
    case AnswerFetch => AnswerFetchKeepsTidy(w);
    case LandFetch => LandFetchKeepsTidy(w);
    case FailFetch => FetchMayEnd(w, None);
    case Press => PressKeepsTidy(w);
    case Answer => AnswerKeepsTidy(w);
    case Land => LandKeepsTidy(w);
    case FailLoad => SamePages(w, w.(view := w.view.(loading := None)));
  }

  lemma FetchMayEnd(w: World, fetch: Option<Fetch>)
    requires Tidy(w) && (fetch == None || fetch == Some(UnderWay))
    ensures Tidy(w.(fetch := fetch))
  {
    var k: nat :| PageAt(w.view.latest, w.chat, k) && FetchFits(w, k);
    assert FetchFits(w.(fetch := fetch), k);
  }

  lemma SamePages(w: World, w': World)
    requires PagesFit(w) && w'.view.latest == w.view.latest && w'.chat == w.chat && w'.fetch == w.fetch
    ensures PagesFit(w')
  {
    var k: nat :| PageAt(w.view.latest, w.chat, k) && FetchFits(w, k);
    assert PageAt(w'.view.latest, w'.chat, k) && FetchFits(w', k);
  }

  lemma {:induction false} RunKeepsTidy(w: World, steps: seq<Step>)
    requires Tidy(w)
    ensures Tidy(Execute(w, steps))
    decreases steps
  {
    if steps == [] {
    } else {
      NextKeepsTidy(w, steps[0]);
      RunKeepsTidy(Next(w, steps[0]), steps[1..]);
    }
  }

  /** However arrivals, refetches and loads interleave, and whichever of them fail, the list shown is strictly ascending
      in time, repeats no message, and holds only messages of the chat. */
  lemma {:induction false} ListingStaysOrdered(chat: seq<Msg>, steps: seq<Step>)
    requires WellOrdered(chat)
    ensures var w := Execute(World(chat, START, None), steps);
      Ascending(MSG_AT, Merged(w.view)) && DistinctKeys(MSG_ID, Merged(w.view)) && forall m :: m in Merged(w.view) ==> m in w.chat
  {
    StartIsTidy(chat);
    RunKeepsTidy(World(chat, START, None), steps);
    TidyShows(Execute(World(chat, START, None), steps));
  }

  lemma StartIsTidy(chat: seq<Msg>)
    requires WellOrdered(chat)
    ensures Tidy(World(chat, START, None))
  {
    var w := World(chat, START, None);
    assert PageAt(START.latest, chat, 0) && FetchFits(w, 0);
  }

  lemma TidyShows(w: World)
    requires Tidy(w)
    ensures Ascending(MSG_AT, Merged(w.view)) && DistinctKeys(MSG_ID, Merged(w.view))
    ensures forall m :: m in Merged(w.view) ==> m in w.chat
  {
    TidyMerges(w);
    FromDistinct(Listing(w.view), w.chat);
  }

  // ----------------------------------------------------------------- the component

  /** State of the component; the Maps are filled by loops as in the source. */
  class ConversationView {
    var older: seq<Msg>
    var latest: seq<Msg>
    var noMoreOlder: bool
    var loading: Option<Load>

    function Snapshot(): View
      reads this
    {
      View(older, latest, noMoreOlder, loading)
    }

    constructor ()
      ensures Snapshot() == START
    {
      older, latest, noMoreOlder, loading := [], [], false, None;
    }

    static method FillMap(byId: seq<Msg>, list: seq<Msg>) returns (r: seq<Msg>)
      ensures r == PutAll(MSG_ID, byId, list)
    {
      r := byId;
      for i := 0 to |list|
        invariant PutAll(MSG_ID, r, list[i..]) == PutAll(MSG_ID, byId, list)
      {
        assert list[i..][1..] == list[i + 1..];
        r := Put(MSG_ID, r, list[i]);
      }
    }

    method Messages() returns (messages: seq<Msg>)
      ensures messages == Merged(Snapshot())
    {
      var byId := FillMap([], older);
      messages := FillMap(byId, Reverse(latest));
    }

    /** The answer of a fetch lands. */
    method OnFetched(ghost w: World, rows: seq<Msg>)
      requires w.view == Snapshot() && w.fetch == Some(Fetched(rows))
      modifies this`latest
      ensures Snapshot() == Next(w, LandFetch).view
    {
      latest := rows;
    }

    method OnPress()
      modifies this`loading
      ensures Snapshot() == BeginLoad(old(Snapshot()))
    {
      var messages := Messages();
      if |latest| == PAGE && !noMoreOlder && loading.None? && messages != [] {
        loading := Some(Asked(messages[0].id));
      }
    }

    /** The server answers the request for older messages. */
    method OnAnswer(ghost w: World, rows: seq<Msg>)
      requires w.view == Snapshot()
      requires loading.Some? && loading.value.Asked? ==> rows == Serve(w.chat, Some(loading.value.before))
      modifies this`loading
      ensures Snapshot() == Next(w, Answer).view
    {
      if loading.Some? && loading.value.Asked? {
        loading := Some(Answered(rows));
      }
    }

    /** The request for older messages rejects; the rejection goes on to the caller. */
    method OnLoadFailed(ghost w: World)
      requires w.view == Snapshot()
      modifies this`loading
      ensures Snapshot() == Next(w, FailLoad).view
    {
      loading := None;
    }

    method OnLand()
      modifies this
      ensures Snapshot() == LandLoad(old(Snapshot()))
    {
      if loading.None? || loading.value.Asked? { return; }
      var rows := loading.value.rows;
      if |rows| < PAGE { noMoreOlder := true; }
      var byId := FillMap([], Reverse(rows));
      older := FillMap(byId, older);
      loading := None;
    }
  }
}
