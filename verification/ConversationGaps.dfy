/** When the list of a conversation has a gap. The view keeps the older pages it loaded and
    replaces the newest page at every fetch, so messages between the two can fall out. A
    track beside the run remembers how long the chat was when the pages were answered. */
module ConversationGaps {
  import opened Wrappers
  import opened InsertionMap
  import opened Paging
  import opened Sequences
  import opened Conversation

  /** `shownAt`: the chat's length when the newest page shown was answered; `answeredAt`: when
      the page on its way was; `askedAt`: `shownAt` at the last press that found no older page
      loaded; `anchor`: `askedAt` of the load that brought the first older page; `from`: the
      place of the oldest message loaded. */
  datatype Track = Track(shownAt: nat, answeredAt: nat, askedAt: nat, anchor: Option<nat>, from: nat)

  const NOTHING := Track(0, 0, 0, None, 0)

  /** Where the next older page ends. */
  function Base(t: Track): int {
    if t.anchor.Some? then t.from else t.askedAt - PAGE
  }

  function Follow(w: World, t: Track, step: Step): Track {
    match step
    case AnswerFetch => if w.fetch == Some(UnderWay) then t.(answeredAt := |w.chat|) else t
    case LandFetch => if w.fetch.Some? && w.fetch.value.Fetched? then t.(shownAt := t.answeredAt) else t
    case Press => if CanLoad(w.view) && t.anchor.None? then t.(askedAt := t.shownAt) else t
    case Land =>
      (match w.view.loading
       case Some(Answered(rows)) =>
         if rows == [] || Base(t) < |rows| then t
         else t.(anchor := if t.anchor.Some? then t.anchor else Some(t.askedAt), from := Base(t) - |rows|)
       case _ => t)
    case _ => t
  }

  function FollowAll(w: World, t: Track, steps: seq<Step>): Track
    decreases steps
  {
    if steps == [] then t else FollowAll(Next(w, steps[0]), Follow(w, t, steps[0]), steps[1..])
  }

  // -------------------------------------------------------------------- invariant

  /** The older messages are one block of the chat that ends where the first cursor was. */
  predicate OlderFits(older: seq<Msg>, chat: seq<Msg>, t: Track) {
    match t.anchor
    case None => older == []
    case Some(a) =>
      && 0 <= t.from < a - PAGE && a <= t.shownAt && a <= |chat|
      && older == chat[t.from..a - PAGE]
  }

  ghost predicate LoadFits(w: World, t: Track) {
    w.view.loading.Some? ==>
      && 0 <= Base(t) < |w.chat| && (t.anchor.None? ==> t.askedAt <= t.shownAt)
      && match w.view.loading.value
         case Asked(before) => before == w.chat[Base(t)].id
         case Answered(rows) => Reverse(rows) == LastN(w.chat[..Base(t)], PAGE)
  }

  ghost predicate FetchLaid(w: World, t: Track) {
    match w.fetch
    case Some(Fetched(rows)) => t.shownAt <= t.answeredAt && PageAt(rows, w.chat, t.answeredAt)
    case _ => true
  }

  ghost predicate Placed(w: World, t: Track) {
    && PageAt(w.view.latest, w.chat, t.shownAt)
    && OlderFits(w.view.older, w.chat, t)
    && FetchLaid(w, t)
    && LoadFits(w, t)
  }

  ghost predicate Laid(w: World, t: Track) {
    Tidy(w) && Placed(w, t)
  }

  lemma ArriveKeepsLaid(w: World, t: Track, m: Msg)
    requires Laid(w, t)
    ensures Laid(Next(w, Arrive(m)), t)
  {
    var w' := Next(w, Arrive(m));
    NextKeepsTidy(w, Arrive(m));
    if w' != w {
      assert forall k: nat :: k <= |w.chat| ==> w'.chat[..k] == w.chat[..k];
      if t.anchor.Some? {
        assert w'.chat[t.from..t.anchor.value - PAGE] == w.chat[t.from..t.anchor.value - PAGE];
      }
    }
  }

  lemma PressKeepsLaid(w: World, t: Track)
    requires Laid(w, t)
    ensures Laid(Next(w, Press), Follow(w, t, Press))
  {
    NextKeepsTidy(w, Press);
    if CanLoad(w.view) {
      TidyMerges(w);
      FirstShown(w, t);
    }
  }

  /** The first message of the list, which a press takes for its cursor. */
  lemma FirstShown(w: World, t: Track)
    requires Laid(w, t) && CanLoad(w.view)
    ensures var t' := Follow(w, t, Press);
      0 <= Base(t') < |w.chat| && Listing(w.view) != [] && Listing(w.view)[0] == w.chat[Base(t')]
  {
    assert |Reverse(w.view.latest)| == PAGE;
    assert w.chat[..t.shownAt][t.shownAt - PAGE..][0] == w.chat[t.shownAt - PAGE];
    if t.anchor.None? {
      assert Listing(w.view) == Reverse(w.view.latest);
    }
  }

  lemma AnswerKeepsLaid(w: World, t: Track)
    requires Laid(w, t)
    ensures Laid(Next(w, Answer), t)
  {
    NextKeepsTidy(w, Answer);
    match w.view.loading
    case Some(Asked(before)) => ServeOlder(w.chat, Base(t));
    case _ =>
  }

  lemma LandKeepsLaid(w: World, t: Track)
    requires Laid(w, t)
    ensures Laid(Next(w, Land), Follow(w, t, Land))
  {
    NextKeepsTidy(w, Land);
    match w.view.loading
    case Some(Answered(rows)) =>
      LandedOlder(w, rows);
      LandKeepsPlaced(w, t, rows);
    case _ =>
  }

  lemma LandKeepsPlaced(w: World, t: Track, rows: seq<Msg>)
    requires Placed(w, t) && w.view.loading == Some(Answered(rows))
    requires Next(w, Land).view.older == Reverse(rows) + w.view.older
    ensures Placed(Next(w, Land), Follow(w, t, Land))
  {
    OlderGrows(w.view.older, w.chat, t, Reverse(rows));
  }

  /** The page that landed stands in front of the older messages. */
  lemma LandedOlder(w: World, rows: seq<Msg>)
    requires Tidy(w) && w.view.loading == Some(Answered(rows))
    ensures Next(w, Land).view.older == Reverse(rows) + w.view.older
    ensures Next(w, Land).view.latest == w.view.latest
  {
    var v, front := w.view, Reverse(rows);
    forall m | m in front ensures BeforeShown(m, Listing(v)) { InReverse(rows, m); }
    ConcatFrom(front, Listing(v), w.chat);
    FromDistinct(front + Listing(v), w.chat);
    assert forall i :: 0 <= i < |front + v.older| ==> (front + v.older)[i] == (front + Listing(v))[i];
    MergeDisjoint(front, v.older);
  }

  lemma OlderGrows(older: seq<Msg>, chat: seq<Msg>, t: Track, front: seq<Msg>)
    requires OlderFits(older, chat, t) && 0 <= Base(t) < |chat| && front == LastN(chat[..Base(t)], PAGE)
    requires t.shownAt <= |chat| && (t.anchor.None? ==> t.askedAt <= t.shownAt)
    ensures |front| <= Base(t)
    ensures front == [] ==> OlderFits(front + older, chat, t)
    ensures front != [] ==>
      OlderFits(front + older, chat, t.(anchor := if t.anchor.Some? then t.anchor else Some(t.askedAt), from := Base(t) - |front|))
  {
    assert front == chat[Base(t) - |front|..Base(t)];
    if front == [] {
      assert front + older == older;
    }
  }

  lemma AnswerFetchKeepsLaid(w: World, t: Track)
    requires Laid(w, t)
    ensures Laid(Next(w, AnswerFetch), Follow(w, t, AnswerFetch))
  {
    NextKeepsTidy(w, AnswerFetch);
    ServeFirst(w.chat);
    AnswerFetchKeepsPlaced(w, t);
  }

  lemma AnswerFetchKeepsPlaced(w: World, t: Track)
    requires Placed(w, t) && Reverse(Serve(w.chat, None)) == LastN(w.chat, PAGE)
    ensures Placed(Next(w, AnswerFetch), Follow(w, t, AnswerFetch))
  {
    assert w.chat[..|w.chat|] == w.chat;
  }

  lemma FetchEnds(w: World, t: Track, fetch: Option<Fetch>)
    requires Laid(w, t) && (fetch == None || fetch == Some(UnderWay))
    ensures Laid(w.(fetch := fetch), t)
  {
    FetchMayEnd(w, fetch);
  }

  lemma LandFetchKeepsLaid(w: World, t: Track)
    requires Laid(w, t)
    ensures Laid(Next(w, LandFetch), Follow(w, t, LandFetch))
  {
    NextKeepsTidy(w, LandFetch);
    LandFetchKeepsPlaced(w, t);
  }

  lemma LandFetchKeepsPlaced(w: World, t: Track)
    requires Placed(w, t)
    ensures Placed(Next(w, LandFetch), Follow(w, t, LandFetch))
  {
  }

  lemma FollowKeepsLaid(w: World, t: Track, step: Step)
    requires Laid(w, t)
    ensures Laid(Next(w, step), Follow(w, t, step))
  {
    match step
    case Arrive(m) => ArriveKeepsLaid(w, t, m);
    case AnswerFetch => AnswerFetchKeepsLaid(w, t);
    case StartFetch => FetchEnds(w, t, Some(UnderWay));
    case FailFetch => FetchEnds(w, t, None);
    case LandFetch => LandFetchKeepsLaid(w, t);
    case FailLoad => NextKeepsTidy(w, step);
    case Press => PressKeepsLaid(w, t);
    case Answer => AnswerKeepsLaid(w, t);
    case Land => LandKeepsLaid(w, t);
  }

  lemma {:induction false} RunKeepsLaid(w: World, t: Track, steps: seq<Step>)
    requires Laid(w, t)
    ensures Laid(Execute(w, steps), FollowAll(w, t, steps))
    decreases steps
  {
    if steps == [] {
    } else {
      FollowKeepsLaid(w, t, steps[0]);
      RunKeepsLaid(Next(w, steps[0]), Follow(w, t, steps[0]), steps[1..]);
    }
  }

  lemma StartIsLaid(chat: seq<Msg>)
    requires WellOrdered(chat)
    ensures Laid(World(chat, START, None), NOTHING)
  {
    StartIsTidy(chat);
  }

  // ------------------------------------------------------------------ main results

  /** The list is one stretch of the chat, nothing missing in between. */
  ghost predicate Contiguous(list: seq<Msg>, chat: seq<Msg>) {
    exists i, j :: 0 <= i <= j <= |chat| && list == chat[i..j]
  }

  /** The list is the stretch of the chat up to this length. */
  ghost predicate EndsAt(list: seq<Msg>, chat: seq<Msg>, n: nat) {
    n <= |chat| && exists i :: 0 <= i <= n && list == chat[i..n]
  }

  /** No older page is loaded, or the newest page shown is the one the first cursor came from
      or one answered before any further message arrived. */
  predicate NothingBetween(t: Track) {
    t.anchor.None? || t.anchor.value == t.shownAt
  }

  /** What the view shows: the older messages loaded, then the newest page. */
  lemma ShownStretches(w: World, t: Track)
    requires Laid(w, t)
    ensures |w.view.latest| <= t.shownAt <= |w.chat|
    ensures var start := t.shownAt - |w.view.latest|;
      Merged(w.view) == w.view.older + w.chat[start..t.shownAt] && (t.anchor.Some? ==> |w.view.latest| == PAGE)
  {
    TidyMerges(w);
    var page := LastN(w.chat[..t.shownAt], PAGE);
    assert page == w.chat[t.shownAt - |page|..t.shownAt];
  }

  lemma LaidContiguousIff(w: World, t: Track)
    requires Laid(w, t)
    ensures Contiguous(Merged(w.view), w.chat) <==> NothingBetween(t)
    ensures NothingBetween(t) ==> EndsAt(Merged(w.view), w.chat, t.shownAt)
  {
    ShownStretches(w, t);
    var start := t.shownAt - |w.view.latest|;
    if t.anchor.None? {
      assert [] + w.chat[start..t.shownAt] == w.chat[start..t.shownAt];
      StretchesIff(w.chat, start, start, start, t.shownAt);
    } else {
      StretchesIff(w.chat, t.from, t.anchor.value - PAGE, start, t.shownAt);
    }
  }

  /** Two stretches of the chat are one exactly when nothing lies between them. */
  lemma StretchesIff(chat: seq<Msg>, a: nat, b: nat, c: nat, d: nat)
    requires WellOrdered(chat) && a <= b <= c <= d <= |chat| && (a == b ==> b == c) && (b < c ==> c < d)
    ensures var list := chat[a..b] + chat[c..d];
      (Contiguous(list, chat) <==> b == c) && (b == c ==> EndsAt(list, chat, d))
  {
    if b == c {
      assert chat[a..b] + chat[c..d] == chat[a..d];
    } else {
      GapShows(chat, a, b, c, d);
    }
  }

  /** Two stretches with something between them are not one. */
  lemma GapShows(chat: seq<Msg>, a: nat, b: nat, c: nat, d: nat)
    requires WellOrdered(chat) && a < b < c < d <= |chat|
    ensures !Contiguous(chat[a..b] + chat[c..d], chat)
  {
    var list := chat[a..b] + chat[c..d];
    assert list[b - a - 1] == chat[b - 1] && list[b - a] == chat[c];
    forall i, j | 0 <= i <= j <= |chat| ensures list != chat[i..j] {
      var p := i + (b - a);
      if p < j {
        assert MSG_ID(chat[p - 1]) == MSG_ID(chat[b - 1]) ==> p == b;
        assert chat[i..j][b - a - 1] == chat[p - 1] && chat[i..j][b - a] == chat[p];
        assert MSG_ID(chat[b]) != MSG_ID(chat[c]);
      }
    }
  }

  /** In every run the list shown has no gap exactly when no older page has been loaded, or no
      message arrived between the answer that gave the first cursor and the last answer of a
      fetch that landed. */
  lemma ShownIsContiguousIff(chat: seq<Msg>, steps: seq<Step>)
    requires WellOrdered(chat)
    ensures var w, t := Execute(World(chat, START, None), steps), FollowAll(World(chat, START, None), NOTHING, steps);
      && (Contiguous(Merged(w.view), w.chat) <==> NothingBetween(t))
      && (NothingBetween(t) ==> EndsAt(Merged(w.view), w.chat, t.shownAt))
  {
    StartIsLaid(chat);
    RunKeepsLaid(World(chat, START, None), NOTHING, steps);
    LaidContiguousIff(Execute(World(chat, START, None), steps), FollowAll(World(chat, START, None), NOTHING, steps));
  }

  // ------------------------------------------------------------ a gap is never closed

  lemma TrackMoves(w: World, t: Track, step: Step)
    requires Laid(w, t)
    ensures var t' := Follow(w, t, step);
      t.shownAt <= t'.shownAt && (t.anchor.Some? ==> t'.anchor == t.anchor) && w.chat <= Next(w, step).chat
  {
  }

  lemma {:induction false} RunMoves(w: World, t: Track, steps: seq<Step>)
    requires Laid(w, t)
    ensures var t' := FollowAll(w, t, steps);
      t.shownAt <= t'.shownAt && (t.anchor.Some? ==> t'.anchor == t.anchor) && w.chat <= Execute(w, steps).chat
    decreases steps
  {
    if steps == [] {
    } else {
      TrackMoves(w, t, steps[0]);
      FollowKeepsLaid(w, t, steps[0]);
      RunMoves(Next(w, steps[0]), Follow(w, t, steps[0]), steps[1..]);
    }
  }

  lemma FellOut(w: World, t: Track)
    requires Laid(w, t) && t.anchor.Some? && t.anchor.value < t.shownAt
    ensures w.chat[t.anchor.value - PAGE] !in Merged(w.view)
  {
    TidyMerges(w);
    var k := t.anchor.value - PAGE;
    var page := LastN(w.chat[..t.shownAt], PAGE);
    assert page == w.chat[t.shownAt - PAGE..t.shownAt];
    assert forall i :: 0 <= i < |w.chat| && i != k ==> MSG_ID(w.chat[i]) != MSG_ID(w.chat[k]);
    assert forall i :: 0 <= i < |w.view.older| ==> w.view.older[i] == w.chat[t.from + i];
  }

  /** The message that fell out first is never shown again, however the run goes on. */
  lemma GapIsNeverClosed(w: World, t: Track, rest: seq<Step>)
    requires Laid(w, t) && t.anchor.Some? && t.anchor.value < t.shownAt
    ensures w.chat[t.anchor.value - PAGE] !in Merged(Execute(w, rest).view)
  {
    RunMoves(w, t, rest);
    RunKeepsLaid(w, t, rest);
    FellOut(Execute(w, rest), FollowAll(w, t, rest));
  }

  lemma LastLoadedIsShown(w: World, t: Track)
    requires Laid(w, t) && t.anchor.Some?
    ensures w.chat[t.anchor.value - PAGE - 1] in Merged(w.view)
  {
    TidyMerges(w);
    var last := t.anchor.value - PAGE - 1;
    assert w.view.older[last - t.from] == w.chat[last];
    assert Listing(w.view)[last - t.from] == w.chat[last];
  }

  /** Whatever the run: once a message has fallen out behind a loaded page, what is older than
      it is shown and it is not, now and in every continuation. */
  lemma GapOfRun(chat: seq<Msg>, steps: seq<Step>, rest: seq<Step>, k: nat)
    requires WellOrdered(chat)
    requires var t := FollowAll(World(chat, START, None), NOTHING, steps);
      t.anchor.Some? && t.anchor.value < t.shownAt && k == t.anchor.value - PAGE
    ensures var w := Execute(World(chat, START, None), steps);
      && 0 < k < |w.chat|
      && w.chat[k - 1] in Merged(w.view) && w.chat[k] !in Merged(Execute(w, rest).view)
  {
    var w0 := World(chat, START, None);
    StartIsLaid(chat);
    RunKeepsLaid(w0, NOTHING, steps);
    GapIsNeverClosed(Execute(w0, steps), FollowAll(w0, NOTHING, steps), rest);
    LastLoadedIsShown(Execute(w0, steps), FollowAll(w0, NOTHING, steps));
  }

  // --------------------------------------------------------------------- the inputs

  const FETCH := [StartFetch, AnswerFetch, LandFetch]
  const LOAD := [Press, Answer, Land]

  lemma {:induction false} FollowConcat(w: World, t: Track, a: seq<Step>, b: seq<Step>)
    ensures Execute(w, a + b) == Execute(Execute(w, a), b)
    ensures FollowAll(w, t, a + b) == FollowAll(Execute(w, a), FollowAll(w, t, a), b)
    decreases a
  {
    if a == [] {
      assert a + b == b;
    } else {
      assert (a + b)[1..] == a[1..] + b;
      FollowConcat(Next(w, a[0]), Follow(w, t, a[0]), a[1..], b);
    }
  }

  lemma RunOfThree(w: World, t: Track, a: Step, b: Step, c: Step)
    ensures var w1, w2 := Next(w, a), Next(Next(w, a), b);
      && Execute(w, [a, b, c]) == Next(w2, c)
      && FollowAll(w, t, [a, b, c]) == Follow(w2, Follow(w1, Follow(w, t, a), b), c)
  {
    FollowConcat(w, t, [a], [b, c]);
    FollowConcat(Next(w, a), Follow(w, t, a), [b], [c]);
    RunOfOne(w, t, a);
    RunOfOne(Next(w, a), Follow(w, t, a), b);
    RunOfOne(Next(Next(w, a), b), Follow(Next(w, a), Follow(w, t, a), b), c);
    assert [a] + [b, c] == [a, b, c] && [b] + [c] == [b, c];
  }

  lemma RunOfOne(w: World, t: Track, a: Step)
    ensures Execute(w, [a]) == Next(w, a) && FollowAll(w, t, [a]) == Follow(w, t, a)
  {
    assert [a][1..] == [];
  }

  /** A fetch that is answered and lands at once. */
  lemma TrackOfFetch(w: World, t: Track)
    ensures FollowAll(w, t, FETCH) == t.(answeredAt := |w.chat|, shownAt := |w.chat|)
    ensures var w' := Execute(w, FETCH);
      w'.chat == w.chat && w'.view.noMoreOlder == w.view.noMoreOlder && w'.view.loading == w.view.loading
  {
    RunOfThree(w, t, StartFetch, AnswerFetch, LandFetch);
  }

  /** A first load that is answered at once brings rows and sets the anchor. */
  lemma TrackOfLoad(w: World, t: Track)
    requires Laid(w, t) && CanLoad(w.view) && t.anchor.None? && t.shownAt > PAGE
    ensures FollowAll(w, t, LOAD).anchor == Some(t.shownAt) && Execute(w, LOAD).chat == w.chat
  {
    var w1, t1 := Next(w, Press), t.(askedAt := t.shownAt);
    RunOfThree(w, t, Press, Answer, Land);
    FollowKeepsLaid(w, t, Press);
    AnsweredSetsAnchor(w1, t1);
  }

  lemma AnsweredSetsAnchor(w: World, t: Track)
    requires Laid(w, t) && t.anchor.None? && t.askedAt > PAGE
    requires w.view.loading.Some? && w.view.loading.value.Asked?
    ensures Follow(Next(w, Answer), t, Land).anchor == Some(t.askedAt)
  {
    FollowKeepsLaid(w, t, Answer);
    LandSetsAnchor(Next(w, Answer), t);
  }

  lemma LandSetsAnchor(w: World, t: Track)
    requires Laid(w, t) && t.anchor.None? && t.askedAt > PAGE
    requires w.view.loading.Some? && w.view.loading.value.Answered?
    ensures Follow(w, t, Land).anchor == Some(t.askedAt)
  {
    assert |w.view.loading.value.rows| == |LastN(w.chat[..Base(t)], PAGE)| > 0;
  }

  lemma FirstPageOffersMore(w: World, t: Track)
    requires Laid(w, t) && t.shownAt > PAGE && !w.view.noMoreOlder && w.view.loading.None?
    ensures CanLoad(w.view)
  {
    TidyMerges(w);
    assert |Reverse(w.view.latest)| == PAGE;
  }

  lemma TrackOfFirstLoad(chat: seq<Msg>)
    requires WellOrdered(chat) && |chat| > PAGE
    ensures FollowAll(World(chat, START, None), NOTHING, FETCH + LOAD).anchor == Some(|chat|)
    ensures Execute(World(chat, START, None), FETCH + LOAD).chat == chat
  {
    var w0 := World(chat, START, None);
    StartIsLaid(chat);
    RunKeepsLaid(w0, NOTHING, FETCH);
    TrackOfFetch(w0, NOTHING);
    FollowConcat(w0, NOTHING, FETCH, LOAD);
    FirstPageOffersMore(Execute(w0, FETCH), FollowAll(w0, NOTHING, FETCH));
    TrackOfLoad(Execute(w0, FETCH), FollowAll(w0, NOTHING, FETCH));
  }

  lemma NewerMessageArrives(chat: seq<Msg>, m: Msg)
    requires WellOrdered(chat + [m]) && chat != []
    ensures chat[|chat| - 1].at < m.at && Get(MSG_ID, chat, m.id).None?
  {
    var all := chat + [m];
    assert MSG_AT(all[|chat| - 1]) < MSG_AT(all[|chat|]);
    GetNone(MSG_ID, chat, m.id);
    assert forall i :: 0 <= i < |chat| ==> MSG_ID(all[i]) != MSG_ID(all[|chat|]) && all[i] == chat[i];
  }

  /** A page of older messages is loaded, a message arrives, the newest page is fetched again. */
  function LoadArriveFetch(m: Msg): seq<Step> {
    FETCH + LOAD + ([Arrive(m)] + FETCH)
  }

  lemma TrackOfArrival(w: World, t: Track, m: Msg)
    requires WellOrdered(w.chat + [m]) && w.chat != []
    ensures FollowAll(w, t, [Arrive(m)] + FETCH) == t.(answeredAt := |w.chat| + 1, shownAt := |w.chat| + 1)
    ensures Execute(w, [Arrive(m)] + FETCH).chat == w.chat + [m]
  {
    NewerMessageArrives(w.chat, m);
    FollowConcat(w, t, [Arrive(m)], FETCH);
    RunOfOne(w, t, Arrive(m));
    TrackOfFetch(Next(w, Arrive(m)), t);
  }

  /** An ordinary input: a chat of more than fifty messages, one older page loaded, one message
      arriving before the next fetch. The oldest message of the first page is gone, and no
      later press or fetch brings it back. */
  lemma ArrivalDropsAMessage(chat: seq<Msg>, m: Msg, rest: seq<Step>)
    requires WellOrdered(chat) && WellOrdered(chat + [m]) && |chat| > PAGE
    ensures var w := Execute(World(chat, START, None), LoadArriveFetch(m));
      && w.chat == chat + [m]
      && chat[|chat| - PAGE - 1] in Merged(w.view)
      && chat[|chat| - PAGE] !in Merged(Execute(w, rest).view)
  {
    var w0 := World(chat, START, None);
    TrackOfFirstLoad(chat);
    TrackOfArrival(Execute(w0, FETCH + LOAD), FollowAll(w0, NOTHING, FETCH + LOAD), m);
    TwoLegs(chat, FETCH + LOAD, [Arrive(m)] + FETCH, m, rest);
  }

  lemma TwoLegs(chat: seq<Msg>, first: seq<Step>, second: seq<Step>, m: Msg, rest: seq<Step>)
    requires WellOrdered(chat) && |chat| > PAGE
    requires FollowAll(World(chat, START, None), NOTHING, first).anchor == Some(|chat|)
    requires var w, t := Execute(World(chat, START, None), first), FollowAll(World(chat, START, None), NOTHING, first);
      && FollowAll(w, t, second) == t.(answeredAt := |chat| + 1, shownAt := |chat| + 1)
      && Execute(w, second).chat == chat + [m]
    ensures var w := Execute(World(chat, START, None), first + second);
      && w.chat == chat + [m]
      && chat[|chat| - PAGE - 1] in Merged(w.view)
      && chat[|chat| - PAGE] !in Merged(Execute(w, rest).view)
  {
    FollowConcat(World(chat, START, None), NOTHING, first, second);
    GapOfRun(chat, first + second, rest, |chat| - PAGE);
  }

  lemma {:induction false} BeforeNone(rows: seq<Msg>, cutoff: int)
    requires forall i :: 0 <= i < |rows| ==> rows[i].at >= cutoff
    ensures Before(MSG_AT, rows, Some(cutoff)) == []
  {
    if rows == [] {
    } else {
      BeforeNone(rows[..|rows| - 1], cutoff);
    }
  }

  /** Equal creation times: the cursor compares times only, so the first press finds nothing
      before the page shown, the button is gone, and the older messages are never shown. */
  lemma EqualTimesHideTheRest(chat: seq<Msg>, at: int)
    requires |chat| > PAGE && DistinctKeys(MSG_ID, chat) && forall i :: 0 <= i < |chat| ==> chat[i].at == at
    ensures var v := LoadOlder(Refetch(START, chat), chat);
      Merged(v) == chat[|chat| - PAGE..] && v.noMoreOlder && !CanLoad(v)
  {
    var first, k := Refetch(START, chat), |chat| - PAGE;
    FirstPageShown(chat);
    NothingBefore(chat, at, k);
    PressLands(first, chat, []);
    assert PutAll(MSG_ID, PutAll(MSG_ID, [], []), []) == [];
  }

  lemma FirstPageShown(chat: seq<Msg>)
    requires |chat| > PAGE && DistinctKeys(MSG_ID, chat)
    ensures var v := Refetch(START, chat);
      |v.latest| == PAGE && Merged(v) == chat[|chat| - PAGE..] && CanLoad(v)
  {
    var rest, page := chat[..|chat| - PAGE], chat[|chat| - PAGE..];
    ServeFirst(chat);
    Rejoin(chat, |chat| - PAGE);
    SuffixDistinct(rest, page);
    PageAlone(Refetch(START, chat), page);
  }

  lemma PageAlone(v: View, page: seq<Msg>)
    requires v.older == [] && Reverse(v.latest) == page && DistinctKeys(MSG_ID, page)
    ensures Merged(v) == page
  {
    assert [] + page == page;
    MergeDisjoint([], page);
  }

  lemma NothingBefore(chat: seq<Msg>, at: int, k: nat)
    requires DistinctKeys(MSG_ID, chat) && k < |chat| && forall i :: 0 <= i < |chat| ==> chat[i].at == at
    ensures Serve(chat, Some(chat[k].id)) == []
  {
    GetAt(chat, k);
    BeforeNone(chat, at);
  }
}
